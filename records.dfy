/**
 * The values the remote-state backend works with: the lock descriptor a client
 * sends, the state document it uploads, the stored State record, the failure
 * kinds, and the record transforms shared by every storage implementation.
 * JSON serialization is taken as the identity: a stored `lockInfo` is the
 * descriptor itself and a stored `state` is the uploaded document itself.
 */
module Records {

  datatype Option<T> = None | Some(value: T)

  /** An opaque, totally ordered clock reading, standing for `java.util.Date`. */
  type Tick = nat

  /** A JSON fragment the core never looks into (state outputs, resources). */
  type Json = string

  /** The lock descriptor of the remote-state protocol (ID, Operation, Info, Who, Version, Created, Path). */
  datatype LockInfo = LockInfo(
    id: Option<string>,
    operation: Option<string>,
    info: Option<string>,
    who: Option<string>,
    version: Option<string>,
    created: Option<Tick>,
    path: Option<string>)

  /** The state document uploaded by the client. */
  datatype TfState = TfState(
    version: int,
    tfVersion: Option<string>,
    serial: int,
    lineage: Option<string>,
    outputs: Option<Json>,
    resources: Option<Json>)

  /** The stored record, one per project name. */
  datatype State = State(
    name: string,
    lastModified: Tick,
    locked: bool,
    lockId: Option<string>,
    lockInfo: Option<LockInfo>,
    version: int,
    tfVersion: Option<string>,
    serial: int,
    state: Option<TfState>)

  /** Field defaults of the stored record. */
  const DefaultVersion: int := 4
  const DefaultSerial: int := 1

  /** The exceptions of the core, as values. */
  datatype Failure =
    | NotLocked                    // StateNotLockedException
    | AlreadyLocked(lock: LockInfo) // StateAlreadyLockedException
    | LockMismatch(lock: LockInfo)  // StateLockMismatchException
    | BadRequest                   // the project's own BadRequestException
    | NotFound(name: string)       // ResourceNotFoundException
    | Locked(lock: LockInfo)       // LockedException
    | Conflict(lock: LockInfo)     // ConflictException
    | FrameworkBadRequest          // javax.ws.rs.BadRequestException
    | NoSuchElement                // java.util.NoSuchElementException
    | NullDescriptorId             // NullPointerException from `!!` on a null lock id
    | UnreadableDescriptor         // the JSON reader handed a null lockInfo

  /** The result of a guard: it passes, or it raises a failure. */
  datatype Outcome = Pass | Fail(failure: Failure)

  datatype Result<T> = Ok(value: T) | Err(failure: Failure)

  /** What one storage operation answers: nothing, a record, or a failure. */
  datatype Reply = Done | Found(record: State) | Error(failure: Failure)

  /** The store, keyed by project name. */
  type Store = map<string, State>

  /** The answer of one operation together with the store it leaves behind. */
  datatype Step = Step(reply: Reply, store: Store)

  /**
   * The lock fields agree: `locked`, `lockId` and `lockInfo` are set or cleared
   * together, the stored id is the descriptor's own, and the descriptor's path
   * names the project the record is stored under.
   */
  predicate RecordValid(key: string, s: State)
  {
    && s.name == key
    && (s.locked <==> s.lockInfo.Some?)
    && (s.locked <==> s.lockId.Some?)
    && (s.lockInfo.Some? ==> s.lockInfo.value.id == s.lockId && s.lockInfo.value.path == Some(key))
  }

  /** Every record is stored under its own name, as a table keyed by its name column is. */
  predicate Keyed(store: Store)
  {
    forall k :: k in store ==> store[k].name == k
  }

  predicate StoreValid(store: Store)
    ensures StoreValid(store) ==> Keyed(store)
  {
    forall k :: k in store ==> RecordValid(k, store[k])
  }

  /** The descriptor as it is persisted: its path replaced by the project name. */
  function PathRewritten(info: LockInfo, project: string): (r: LockInfo)
    ensures r.path == Some(project)
    ensures r.(path := info.path) == info
  {
    info.(path := Some(project))
  }

  /** The empty document a lock of an absent project starts with. */
  function DefaultPayload(tfVersion: Option<string>): (r: TfState)
    ensures r.version == 4 && r.serial == 1 && r.tfVersion == tfVersion
    ensures r.lineage.None? && r.outputs.None? && r.resources.None?
  {
    TfState(DefaultVersion, tfVersion, DefaultSerial, None, None, None)
  }

  /** The record a lock of an absent project creates. */
  function FreshLockedRecord(project: string, info: LockInfo, now: Tick): (r: State)
    ensures r.name == project && r.locked && r.lockId == info.id && r.lastModified == now
    ensures r.lockInfo == Some(PathRewritten(info, project))
    ensures r.version == 4 && r.serial == 1 && r.tfVersion == info.version
    ensures r.state == Some(DefaultPayload(info.version))
    ensures RecordValid(project, r) <==> info.id.Some?
  {
    var updatedLock := PathRewritten(info, project);
    State(project, now, true, updatedLock.id, Some(updatedLock),
          DefaultVersion, updatedLock.version, DefaultSerial, Some(DefaultPayload(updatedLock.version)))
  }

  /** A record with the lock of `info` set on it; every other field is kept. */
  function WithLock(s: State, project: string, info: LockInfo, now: Tick): (r: State)
    ensures r.locked && r.lockId == info.id && r.lockInfo == Some(PathRewritten(info, project))
    ensures r.lastModified == now
    ensures r.(lastModified := s.lastModified, locked := s.locked, lockId := s.lockId, lockInfo := s.lockInfo) == s
    ensures s.name == project && info.id.Some? ==> RecordValid(project, r)
  {
    s.(lastModified := now, locked := true, lockId := info.id, lockInfo := Some(PathRewritten(info, project)))
  }

  /** The same, also taking the client version from the descriptor. */
  function WithLockAndVersion(s: State, project: string, info: LockInfo, now: Tick): (r: State)
    ensures r.tfVersion == info.version
    ensures r.(tfVersion := s.tfVersion) == WithLock(s, project, info, now)
  {
    WithLock(s, project, info, now).(tfVersion := info.version)
  }

  /** A record with the three lock fields cleared; every other field is kept. */
  function Unlocked(s: State): (r: State)
    ensures !r.locked && r.lockId.None? && r.lockInfo.None?
    ensures r.(locked := s.locked, lockId := s.lockId, lockInfo := s.lockInfo) == s
    ensures RecordValid(s.name, r)
  {
    s.(locked := false, lockId := None, lockInfo := None)
  }
}
