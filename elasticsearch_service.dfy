/**
 * The document-store service: one document per project in a search index,
 * written by whole-document PUTs. The search, count and scroll replies of the
 * index are inputs here: `firstPage` is the hits of the initial search,
 * `total` the document count, and `scroll` the hits of the successive scroll
 * continuations (a continuation past the end answers no hits).
 */
module ElasticsearchService {
  import opened Records

  /** One search hit; its `_source` is the stored record. */
  datatype Hit = Hit(source: State)

  /** The records of a page of hits, in hit order. */
  function Sources(hits: seq<Hit>): (r: seq<State>)
    ensures |r| == |hits|
    ensures forall i :: 0 <= i < |hits| ==> r[i] == hits[i].source
  {
    seq(|hits|, i requires 0 <= i < |hits| => hits[i].source)
  }

  /** The hits of the k-th scroll continuation (0-based); none once the scroll is exhausted. */
  function ScrollPage(scroll: seq<seq<Hit>>, k: nat): seq<Hit>
  {
    if k < |scroll| then scroll[k] else []
  }

  /** The records of the first n scroll continuations, appended in order. */
  function Scrolled(scroll: seq<seq<Hit>>, n: nat): seq<State>
  {
    if n == 0 then [] else Scrolled(scroll, n - 1) + Sources(ScrollPage(scroll, n - 1))
  }

  /** How many continuations the scroll loop fetches: ceil(total / pageSize) - 1, and none for a total within one page. */
  function ExtraPages(total: int, pageSize: int): nat
    requires pageSize >= 1
  {
    if total <= pageSize then 0 else (total - 1) / pageSize
  }

  /** The scroll loop's guard `total > (k + 1) * pageSize` holds exactly while k < ExtraPages. */
  lemma ScrollGuard(total: int, pageSize: int, k: nat)
    requires pageSize >= 1
    ensures total > (k + 1) * pageSize <==> k < ExtraPages(total, pageSize)
  {
    if total <= pageSize {
      assert (k + 1) * pageSize >= pageSize by { MulAtLeast(k + 1, pageSize); }
    } else {
      var e := (total - 1) / pageSize;
      var rem := (total - 1) % pageSize;
      assert total - 1 == e * pageSize + rem;
      if k < e {
        assert (k + 1) * pageSize <= e * pageSize by { MulMonotone(k + 1, e, pageSize); }
      } else {
        assert (e + 1) * pageSize <= (k + 1) * pageSize by { MulMonotone(e + 1, k + 1, pageSize); }
        assert (e + 1) * pageSize == e * pageSize + pageSize;
      }
    }
  }

  lemma MulAtLeast(a: int, b: int)
    requires a >= 1 && b >= 0
    ensures a * b >= b
  {
    assert a * b == (a - 1) * b + b;
    assert (a - 1) * b >= 0;
  }

  lemma MulMonotone(a: int, b: int, c: int)
    requires a <= b && c >= 0
    ensures a * c <= b * c
  {
    assert b * c - a * c == (b - a) * c;
    assert (b - a) * c >= 0;
  }

  /**
   * The first page and the continuations fetched cover the count exactly:
   * together they span at least `total` slots, and the last continuation
   * still starts below `total`.
   */
  lemma ScrollCoversTotal(total: int, pageSize: int)
    requires pageSize >= 1 && total > pageSize
    ensures (ExtraPages(total, pageSize) + 1) * pageSize >= total
    ensures ExtraPages(total, pageSize) * pageSize < total
  {
    var e := ExtraPages(total, pageSize);
    ScrollGuard(total, pageSize, e);
    ScrollGuard(total, pageSize, e - 1);
  }

  /** Kotlin's 32-bit Int arithmetic: the result wrapped into [-2^31, 2^31). */
  function Int32(x: int): (r: int)
    ensures -0x8000_0000 <= r < 0x8000_0000
    ensures -0x8000_0000 <= x < 0x8000_0000 ==> r == x
  {
    (x + 0x8000_0000) % 0x1_0000_0000 - 0x8000_0000
  }

  /** The offset paginate sends: `pageSize * pageIndex - pageSize`, in Int arithmetic. */
  function PaginateFrom(pageIndex: int, pageSize: int): int
  {
    Int32(Int32(pageSize * pageIndex) - pageSize)
  }

  /** Without overflow the offset is that of the 1-based page: (pageIndex - 1) * pageSize. */
  lemma PaginateFromIsPageOffset(pageIndex: int, pageSize: int)
    requires pageIndex >= 1 && pageSize >= 1
    requires pageSize * pageIndex < 0x8000_0000
    ensures PaginateFrom(pageIndex, pageSize) == (pageIndex - 1) * pageSize
    ensures PaginateFrom(pageIndex, pageSize) >= 0
  {
    MulAtLeast(pageIndex, pageSize);
    assert (pageIndex - 1) * pageSize == pageSize * pageIndex - pageSize;
    assert (pageIndex - 1) * pageSize >= 0;
  }

  /** A large page index overflows into a negative offset. */
  lemma PaginateFromOverflows()
    ensures PaginateFrom(3, 0x4000_0000) == -0x8000_0000
  {
    assert Int32(3 * 0x4000_0000) == -0x4000_0000;
  }

  /**
   * The records paginate answers: the requested page, then, when the count exceeds the
   * requested size, every continuation the scroll loop fetches with the configured size.
   */
  function PaginatedRecords(requested: int, configured: int, firstPage: seq<Hit>, total: int,
                            scroll: seq<seq<Hit>>): seq<State>
    requires configured >= 1
  {
    Sources(firstPage) + (if total > requested then Scrolled(scroll, ExtraPages(total, configured)) else [])
  }

  /**
   * Paginate appends scroll continuations whenever the count exceeds the
   * requested size, and the loop decides how many by the configured size.
   * Each continuation carries one hit, the size of the first request. With
   * page size 1 asked for and five records stored, the answer holds five
   * records under a configured size of 1, three under 2, and only the
   * requested one under the default 500.
   */
  lemma PageCanExceedRequestedSize(s: State)
    ensures var scroll := [[Hit(s)], [Hit(s)], [Hit(s)], [Hit(s)]];
            && |PaginatedRecords(1, 1, [Hit(s)], 5, scroll)| == 5
            && |PaginatedRecords(1, 2, [Hit(s)], 5, scroll)| == 3
            && |PaginatedRecords(1, 500, [Hit(s)], 5, scroll)| == 1
  {
    var scroll := [[Hit(s)], [Hit(s)], [Hit(s)], [Hit(s)]];
    assert ExtraPages(5, 1) == 4;
    assert ExtraPages(5, 2) == 2;
    assert ExtraPages(5, 500) == 0;
    assert |Scrolled(scroll, 1)| == 1;
    assert |Scrolled(scroll, 2)| == 2;
    assert |Scrolled(scroll, 3)| == 3;
    assert |Scrolled(scroll, 4)| == 4;
  }

  /** The list the scroll loop appends to in place (a Kotlin ArrayList). */
  class StateList {
    var items: seq<State>

    constructor (items: seq<State>)
      ensures this.items == items
    {
      this.items := items;
    }

    method AddAll(elements: seq<State>)
      modifies this
      ensures items == old(items) + elements
    {
      items := items + elements;
    }
  }

  class ElasticsearchStateService {
    /** The index: one document per project, its id the project name. */
    var docs: Store
    /** The configured list page size (500 by default). */
    const pageSize: int

    ghost predicate Valid()
      reads this
    {
      Keyed(docs) && pageSize >= 1
    }

    constructor (initial: Store, pageSize: int)
      requires Keyed(initial) && pageSize >= 1
      ensures Valid() && docs == initial && this.pageSize == pageSize
    {
      docs := initial;
      this.pageSize := pageSize;
    }

    /** Every hit's record, in hit order. */
    static method ExtractResultPage(hits: seq<Hit>) returns (page: seq<State>)
      ensures |page| == |hits|
      ensures forall i :: 0 <= i < |hits| ==> page[i] == hits[i].source
    {
      page := [];
      for i := 0 to |hits|
        invariant |page| == i
        invariant forall j :: 0 <= j < i ==> page[j] == hits[j].source
      {
        page := page + [hits[i].source];
      }
    }

    /**
     * Fetches continuations while `total > (pageIndex + 1) * pageSize`, with the
     * configured page size, appending each page's records to `resultList`.
     */
    method LoopOnScroll(scroll: seq<seq<Hit>>, total: int, resultList: StateList)
      requires pageSize >= 1
      modifies resultList
      ensures resultList.items == old(resultList.items) + Scrolled(scroll, ExtraPages(total, pageSize))
    {
      var pageIndex: nat := 0;
      ScrollGuard(total, pageSize, pageIndex);
      while total > (pageIndex + 1) * pageSize
        invariant pageIndex <= ExtraPages(total, pageSize)
        invariant resultList.items == old(resultList.items) + Scrolled(scroll, pageIndex)
        decreases ExtraPages(total, pageSize) - pageIndex
      {
        ScrollGuard(total, pageSize, pageIndex);
        pageIndex := pageIndex + 1;
        var elements := ExtractResultPage(ScrollPage(scroll, pageIndex - 1));
        assert elements == Sources(ScrollPage(scroll, pageIndex - 1));
        resultList.AddAll(elements);
        ScrollGuard(total, pageSize, pageIndex);
      }
      ScrollGuard(total, pageSize, pageIndex);
    }

    /** All records: the first page, then the continuations when the count exceeds one page. */
    method ListAll(firstPage: seq<Hit>, total: int, scroll: seq<seq<Hit>>) returns (r: seq<State>)
      requires pageSize >= 1
      ensures r == Sources(firstPage) + (if total > pageSize then Scrolled(scroll, ExtraPages(total, pageSize)) else [])
    {
      var page := ExtractResultPage(firstPage);
      assert page == Sources(firstPage);
      var results := new StateList(page);
      if total > pageSize {
        LoopOnScroll(scroll, total, results);
      }
      r := results.items;
    }

    /**
     * One page of records from offset PaginateFrom; when the count exceeds the
     * requested size the continuations are appended as well, counted with the
     * configured page size rather than the requested one.
     */
    method Paginate(pageIndex: int, pageSize: int, firstPage: seq<Hit>, total: int, scroll: seq<seq<Hit>>)
      returns (from: int, r: seq<State>)
      requires this.pageSize >= 1
      ensures from == PaginateFrom(pageIndex, pageSize)
      ensures r == PaginatedRecords(pageSize, this.pageSize, firstPage, total, scroll)
    {
      from := Int32(Int32(pageSize * pageIndex) - pageSize);
      var page := ExtractResultPage(firstPage);
      assert page == Sources(firstPage);
      var results := new StateList(page);
      if total > pageSize {
        LoopOnScroll(scroll, total, results);
      }
      r := results.items;
    }

    /** The document of a project; any failed read is reported as NoSuchElement. */
    function Get(stateName: string): (r: Result<State>)
      reads this
      ensures r.Ok? <==> stateName in docs
      ensures r.Ok? ==> r.value == docs[stateName]
      ensures r.Err? ==> r.failure == NoSuchElement
    {
      if stateName in docs then Ok(docs[stateName]) else Err(NoSuchElement)
    }

    /** A whole-document PUT under the record's name: creates or replaces it. */
    method Update(stateToUpdate: State)
      requires Valid()
      modifies this
      ensures Valid()
      ensures docs == old(docs)[stateToUpdate.name := stateToUpdate]
    {
      docs := docs[stateToUpdate.name := stateToUpdate];
    }

    method Delete(stateName: string)
      requires Valid()
      modifies this
      ensures Valid()
      ensures docs == old(docs) - {stateName}
    {
      docs := docs - {stateName};
    }

    /**
     * The given record with the lock of `lockInfo` (path rewritten), the
     * descriptor's client version and a new lastModified, written back whole.
     * A descriptor without an id fails before anything is written.
     */
    method Lock(project: string, stateToLock: State, lockInfo: LockInfo, now: Tick) returns (r: Result<State>)
      requires Valid()
      modifies this
      ensures Valid()
      ensures lockInfo.id.None? ==> r == Err(NullDescriptorId) && docs == old(docs)
      ensures lockInfo.id.Some? ==>
                && r == Ok(WithLockAndVersion(stateToLock, project, lockInfo, now))
                && docs == old(docs)[stateToLock.name := r.value]
    {
      var updatedLock := PathRewritten(lockInfo, project);
      if updatedLock.id.None? {
        return Err(NullDescriptorId);
      }
      var lockedState := stateToLock.(lastModified := now, locked := true, lockId := updatedLock.id,
                                      tfVersion := updatedLock.version, lockInfo := Some(updatedLock));
      Update(lockedState);
      r := Ok(lockedState);
    }

    /** The given record with its three lock fields cleared, written back whole. */
    method Unlock(project: string, stateToUnlock: State) returns (r: State)
      requires Valid()
      modifies this
      ensures Valid()
      ensures r == Unlocked(stateToUnlock)
      ensures docs == old(docs)[stateToUnlock.name := r]
    {
      var unlockedState := stateToUnlock.(locked := false, lockId := None, lockInfo := None);
      Update(unlockedState);
      r := unlockedState;
    }

    /** A default document locked by `lockInfo`; a descriptor without an id fails before anything is written. */
    method CreateAndLock(project: string, lockInfo: LockInfo, now: Tick) returns (r: Result<State>)
      requires Valid()
      modifies this
      ensures Valid()
      ensures lockInfo.id.None? ==> r == Err(NullDescriptorId) && docs == old(docs)
      ensures lockInfo.id.Some? ==> r == Ok(FreshLockedRecord(project, lockInfo, now)) && docs == old(docs)[project := r.value]
    {
      var updatedLock := PathRewritten(lockInfo, project);
      var defaultState := DefaultPayload(updatedLock.version);
      if updatedLock.id.None? {
        return Err(NullDescriptorId);
      }
      var state := State(project, now, true, updatedLock.id, Some(updatedLock),
                         DefaultVersion, updatedLock.version, DefaultSerial, Some(defaultState));
      Update(state);
      r := Ok(state);
    }
  }
}
