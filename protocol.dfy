/**
 * The remote-state locking protocol as a whole: the five requests of the
 * HTTP layer (read, write with or without a lock id, delete, lock, unlock
 * with or without a descriptor), dispatched as the resource dispatches them
 * and applied to each of the three stores. Here lie the properties that
 * span operations: the lock-field invariant, the exclusivity of a held
 * lock, round trips, and where the stores answer differently.
 */
module Protocol {
  import opened Records
  import opened Extensions
  import opened StorageContract
  import opened DatabaseAdapter
  import opened ElasticAdapter
  import opened StateResource
  import opened ExceptionMapper

  /** The relational adapter, the document-store adapter, and the older resource on its repository. */
  datatype Backend = Relational | Document | Legacy

  datatype Request =
    | GetState(project: string)
    | UpdateState(project: string, lockId: Option<string>, payload: TfState, now: Tick)
    | DeleteState(project: string)
    | LockState(project: string, info: LockInfo, now: Tick)
    | UnlockState(project: string, unlockInfo: Option<LockInfo>)

  /** The bad request each implementation raises: only the document-store adapter uses the project's own. */
  function BadRequestOf(b: Backend): (f: Failure)
    ensures f == BadRequest <==> b == Document
    ensures f.BadRequest? || f.FrameworkBadRequest?
  {
    if b == Document then BadRequest else FrameworkBadRequest
  }

  /** One request against one store: a refused request writes nothing, and no request touches another project. */
  function Apply(b: Backend, store: Store, req: Request): (o: Step)
    ensures o.reply.Error? ==> o.store == store
    ensures o.store - {req.project} == store - {req.project}
    ensures req.GetState? ==> o.store == store
  {
    match req
    case GetState(p) => FindByIdStep(store, p)
    case UpdateState(p, lockId, payload, now) =>
      if lockId.Some? then UpdateWithLockStep(store, p, lockId.value, payload, now, BadRequestOf(b))
      else UpdateWithoutLockStep(store, p, payload, now)
    case DeleteState(p) =>
      if b == Document then EsDeleteStep(store, p) else DeleteStep(store, p)
    case LockState(p, info, now) =>
      (match b
       case Relational => DbLockStep(store, p, info, now)
       case Document => EsLockStep(store, p, info, now)
       case Legacy => LegacyLockStep(store, p, info, now))
    case UnlockState(p, info) =>
      if info.Some? then UnlockStep(store, p, info.value) else ForceUnlockStep(store, p, BadRequestOf(b))
  }

  /** The stores after each request of a sequence, applied in order. */
  function Run(b: Backend, store: Store, reqs: seq<Request>): Store
    decreases |reqs|
  {
    if |reqs| == 0 then store else Run(b, Apply(b, store, reqs[0]).store, reqs[1..])
  }

  /** A lock request whose descriptor carries an id, as every client of the protocol sends it. */
  predicate CarriesId(req: Request)
  {
    req.LockState? ==> req.info.id.Some?
  }

  /**
   * The record written for `project` by any request keeps the lock fields in agreement, given that
   * the record it replaced did. The relational store also needs the lock descriptor to carry an id.
   */
  lemma ApplyKeepsRecordValid(b: Backend, store: Store, req: Request)
    requires req.project in store ==> RecordValid(req.project, store[req.project])
    requires b == Relational ==> CarriesId(req)
    ensures var after := Apply(b, store, req).store;
            req.project in after ==> RecordValid(req.project, after[req.project])
  {
    var p := req.project;
    var after := Apply(b, store, req).store;
    match req
    case GetState(_) =>
    case UpdateState(_, lockId, payload, now) =>
      if lockId.Some? && HeldBy(store, p, lockId.value) {
        assert after[p] == ToInternal(payload, p, store[p].lockId, store[p].lockInfo, now);
      }
    case DeleteState(_) =>
    case LockState(_, info, now) =>
      if p in after && (p !in store || after[p] != store[p]) {
        assert info.id.Some?;
        if p in store {
          assert !store[p].locked;
          assert after[p].(tfVersion := store[p].tfVersion) == WithLock(store[p], p, info, now);
        }
      }
    case UnlockState(_, _) =>
  }

  /** Every request keeps the whole store valid (for the relational store: given lock descriptors with ids). */
  lemma ApplyKeepsStoreValid(b: Backend, store: Store, req: Request)
    requires StoreValid(store)
    requires b == Relational ==> CarriesId(req)
    ensures StoreValid(Apply(b, store, req).store)
  {
    var after := Apply(b, store, req).store;
    ApplyKeepsRecordValid(b, store, req);
    forall k | k in after
      ensures RecordValid(k, after[k])
    {
      if k != req.project {
        assert k in after - {req.project};
        assert after[k] == (after - {req.project})[k] == (store - {req.project})[k] == store[k];
      }
    }
  }

  /** The invariant `locked <==> lockId present <==> lockInfo present` holds after any sequence of requests. */
  lemma {:induction false} RunKeepsStoreValid(b: Backend, store: Store, reqs: seq<Request>)
    requires StoreValid(store)
    requires b == Relational ==> forall i :: 0 <= i < |reqs| ==> CarriesId(reqs[i])
    ensures StoreValid(Run(b, store, reqs))
    decreases |reqs|
  {
    if |reqs| > 0 {
      ApplyKeepsStoreValid(b, store, reqs[0]);
      assert b == Relational ==> forall i :: 0 <= i < |reqs[1..]| ==> CarriesId(reqs[1..][i]) by {
        if b == Relational {
          forall i | 0 <= i < |reqs[1..]| ensures CarriesId(reqs[1..][i]) {
            assert reqs[1..][i] == reqs[i + 1];
          }
        }
      }
      RunKeepsStoreValid(b, Apply(b, store, reqs[0]).store, reqs[1..]);
    }
  }

  /** The requests that may end the lock `lockId` on `project`: an unlock with that id, a force unlock, or a write without a lock id. */
  predicate Releases(req: Request, project: string, lockId: string)
  {
    && req.project == project
    && (|| (req.UpdateState? && req.lockId.None?)
        || (req.UnlockState? && req.unlockInfo.None?)
        || (req.UnlockState? && req.unlockInfo.Some? && req.unlockInfo.value.id == Some(lockId)))
  }

  /**
   * Mutual exclusion: while `lockId` holds the lock of a valid record, a
   * request that does not release it leaves the lock, and its descriptor,
   * in place; in particular no other lock id can take it over or delete it.
   */
  lemma HolderKeepsLock(b: Backend, store: Store, req: Request, project: string, lockId: string)
    requires HeldBy(store, project, lockId) && RecordValid(project, store[project])
    requires !Releases(req, project, lockId)
    ensures var after := Apply(b, store, req).store;
            && HeldBy(after, project, lockId) && RecordValid(project, after[project])
            && after[project].lockInfo == store[project].lockInfo
  {
    var after := Apply(b, store, req).store;
    if req.project == project {
      match req
      case GetState(_) =>
      case UpdateState(_, l, payload, now) =>
        assert l.Some?;
      case DeleteState(_) =>
      case LockState(_, _, _) =>
      case UnlockState(_, info) =>
        assert info.Some? && info.value.id != Some(lockId);
    } else {
      assert project in store - {req.project};
      assert project in after - {req.project};
      assert after[project] == (after - {req.project})[project] == (store - {req.project})[project] == store[project];
    }
  }

  /** The same over any sequence of requests none of which releases the lock. */
  lemma {:induction false} HolderKeepsLockOverRun(b: Backend, store: Store, reqs: seq<Request>, project: string, lockId: string)
    requires HeldBy(store, project, lockId) && RecordValid(project, store[project])
    requires forall i :: 0 <= i < |reqs| ==> !Releases(reqs[i], project, lockId)
    ensures var after := Run(b, store, reqs);
            && HeldBy(after, project, lockId)
            && after[project].lockInfo == store[project].lockInfo
    decreases |reqs|
  {
    if |reqs| > 0 {
      HolderKeepsLock(b, store, reqs[0], project, lockId);
      forall i | 0 <= i < |reqs[1..]| ensures !Releases(reqs[1..][i], project, lockId) {
        assert reqs[1..][i] == reqs[i + 1];
      }
      HolderKeepsLockOverRun(b, Apply(b, store, reqs[0]).store, reqs[1..], project, lockId);
    }
  }

  /** A second lock is refused with 423, and the response names the holder's descriptor, not the caller's. */
  lemma SecondLockIsRefused(b: Backend, store: Store, project: string, info: LockInfo, now: Tick)
    requires project in store && store[project].locked && RecordValid(project, store[project])
    ensures var o := Apply(b, store, LockState(project, info, now));
            && o.reply == Error(Locked(store[project].lockInfo.value))
            && o.store == store
            && ToResponse(o.reply.failure) == Response(423, Descriptor(store[project].lockInfo.value))
  {
  }

  /**
   * Lock then unlock with the same descriptor: an unlocked record comes back
   * as it was, but for its lastModified (and, in the document store, the
   * client version the lock recorded).
   */
  lemma LockUnlockRoundTrip(b: Backend, store: Store, project: string, info: LockInfo, now: Tick)
    requires project in store && !store[project].locked && RecordValid(project, store[project]) && info.id.Some?
    ensures var locked := Apply(b, store, LockState(project, info, now));
            var unlocked := Apply(b, locked.store, UnlockState(project, Some(info)));
            && locked.reply == Done && unlocked.reply == Done
            && unlocked.store == store[project := store[project].(lastModified := now,
                                   tfVersion := if b == Document then info.version else store[project].tfVersion)]
  {
    var s := store[project];
    var locked := Apply(b, store, LockState(project, info, now));
    var lockedRecord := if b == Document then WithLockAndVersion(s, project, info, now) else WithLock(s, project, info, now);
    assert locked.store == store[project := lockedRecord];
    assert HeldBy(locked.store, project, info.id.value);
    var unlocked := Apply(b, locked.store, UnlockState(project, Some(info)));
    assert unlocked.store == store[project := Unlocked(lockedRecord)];
    assert Unlocked(lockedRecord) == s.(lastModified := now, tfVersion := if b == Document then info.version else s.tfVersion);
  }

  /** What the lock holder writes is what a read returns: the uploaded document, still under the same lock. */
  lemma WriteThenRead(b: Backend, store: Store, project: string, lockId: string, payload: TfState, now: Tick)
    requires HeldBy(store, project, lockId)
    ensures var written := Apply(b, store, UpdateState(project, Some(lockId), payload, now));
            var read := Apply(b, written.store, GetState(project));
            && written.reply == Done
            && read.reply.Found? && read.reply.record.state == Some(payload)
            && read.reply.record.lockId == Some(lockId) && read.reply.record.lockInfo == store[project].lockInfo
  {
  }

  /** A write without a lock id ends any lock: the record is unlocked whatever it held before. */
  lemma WriteWithoutLockIdUnlocks(b: Backend, store: Store, project: string, payload: TfState, now: Tick)
    ensures var o := Apply(b, store, UpdateState(project, None, payload, now));
            && o.reply == Done && project in o.store
            && !o.store[project].locked && o.store[project].lockId.None? && o.store[project].lockInfo.None?
  {
  }

  /** Force unlock is idempotent. */
  lemma ForceUnlockIdempotent(b: Backend, store: Store, project: string)
    ensures var once := Apply(b, store, UnlockState(project, None)).store;
            Apply(b, once, UnlockState(project, None)).store == once
  {
  }

  /** No request removes a locked record (delete refuses; the rest write or keep it). */
  lemma NoRequestRemovesLockedRecord(b: Backend, store: Store, req: Request, project: string)
    requires project in store && store[project].locked
    ensures project in Apply(b, store, req).store
  {
    if req.project != project {
      assert project in store - {req.project};
    }
  }

  /**
   * With a descriptor that has an id, the document store locks as the
   * relational one does, except that it also records the descriptor's client
   * version on an existing record.
   */
  lemma DocumentLockRecordsVersion(store: Store, project: string, info: LockInfo, now: Tick)
    requires info.id.Some?
    ensures var db, es := DbLockStep(store, project, info, now), EsLockStep(store, project, info, now);
            && db.reply == es.reply
            && (project in store && db.reply.Done? ==>
                  es.store == db.store[project := db.store[project].(tfVersion := info.version)])
            && (project !in store ==> es.store == db.store)
  {
  }

  /**
   * The relational store is the only one in which a lock descriptor without
   * an id is taken: on an absent project it creates a locked record that
   * has no lock id, against the invariant; the other two refuse and write
   * nothing.
   */
  lemma RelationalLockWithoutId(project: string, now: Tick)
    ensures var info := LockInfo(None, None, None, None, None, None, None);
            var empty: Store := map[];
            && StoreValid(empty)
            && Apply(Relational, empty, LockState(project, info, now)).reply == Done
            && !StoreValid(Apply(Relational, empty, LockState(project, info, now)).store)
            && Apply(Document, empty, LockState(project, info, now)) == Step(Error(NullDescriptorId), empty)
            && Apply(Legacy, empty, LockState(project, info, now)) == Step(Error(NullDescriptorId), empty)
  {
    var info := LockInfo(None, None, None, None, None, None, None);
    var empty: Store := map[];
    var after := Apply(Relational, empty, LockState(project, info, now)).store;
    assert after[project] == FreshLockedRecord(project, info, now);
    assert !RecordValid(project, after[project]);
  }

  /**
   * The same hole on an existing record: the relational lock of an unlocked,
   * valid record with a descriptor that has no id answers Done and leaves a
   * locked record with no lock id, while the other two stores refuse with
   * the NullPointerException and write nothing.
   */
  lemma RelationalLockOfUnlockedWithoutId(project: string, s: State, now: Tick)
    requires RecordValid(project, s) && !s.locked
    ensures var info := LockInfo(None, None, None, None, None, None, None);
            var store := map[project := s];
            && StoreValid(store)
            && Apply(Relational, store, LockState(project, info, now)).reply == Done
            && !StoreValid(Apply(Relational, store, LockState(project, info, now)).store)
            && Apply(Document, store, LockState(project, info, now)) == Step(Error(NullDescriptorId), store)
            && Apply(Legacy, store, LockState(project, info, now)) == Step(Error(NullDescriptorId), store)
  {
    var info := LockInfo(None, None, None, None, None, None, None);
    var store := map[project := s];
    var after := Apply(Relational, store, LockState(project, info, now)).store;
    assert after[project] == WithLock(s, project, info, now);
    assert !RecordValid(project, after[project]);
  }

  /**
   * Deleting a locked record answers 423 on the document store but 500 on
   * the relational store and the older resource, which pass the guard's
   * AlreadyLocked on untranslated.
   */
  lemma DeleteLockedStatus(store: Store, project: string)
    requires project in store && store[project].locked && store[project].lockInfo.Some?
    ensures ToResponse(Apply(Document, store, DeleteState(project)).reply.failure).status == 423
    ensures ToResponse(Apply(Relational, store, DeleteState(project)).reply.failure).status == 500
    ensures ToResponse(Apply(Legacy, store, DeleteState(project)).reply.failure).status == 500
  {
  }

  /**
   * Force-unlocking a project that has no record answers 400 on the document
   * store, but 500 elsewhere, where the framework's bad request is not one
   * the mapper knows.
   */
  lemma BadRequestStatus(store: Store, project: string, b: Backend)
    requires project !in store
    ensures ToResponse(Apply(b, store, UnlockState(project, None)).reply.failure).status
            == (if b == Document then 400 else 500)
  {
  }

  /** Unlocking a project that has no record, or no lock, is a Conflict carrying the caller's descriptor; 409. */
  lemma UnlockWithoutLockIsConflict(b: Backend, store: Store, project: string, info: LockInfo)
    requires project !in store || !store[project].locked
    ensures var o := Apply(b, store, UnlockState(project, Some(info)));
            o == Step(Error(Conflict(info)), store) && ToResponse(o.reply.failure) == Response(409, Descriptor(info))
  {
  }
}
