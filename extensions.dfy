/**
 * The record constructor and the three lock guards of util/Extensions.kt.
 * A guard either passes or raises; it only reads the record it is given.
 */
module Extensions {
  import opened Records

  /** The stored record built from an uploaded document and explicit lock fields. */
  function ToInternal(payload: TfState, project: string, lockId: Option<string>,
                      lockInfo: Option<LockInfo>, now: Tick): (r: State)
    ensures r.name == project && r.lastModified == now
    ensures r.locked <==> lockInfo.Some?
    ensures r.lockId == lockId && r.lockInfo == lockInfo
    ensures r.version == payload.version && r.tfVersion == payload.tfVersion && r.serial == payload.serial
    ensures r.state == Some(payload)
  {
    State(project, now, lockInfo != None, lockId, lockInfo,
          payload.version, payload.tfVersion, payload.serial, Some(payload))
  }

  /** The same, taking both lock fields from one optional descriptor. */
  function ToInternalWithLock(payload: TfState, project: string, lockInfo: Option<LockInfo>, now: Tick): (r: State)
    ensures lockInfo.None? ==> !r.locked && r.lockId.None? && r.lockInfo.None?
    ensures lockInfo.Some? ==> r.locked && r.lockId == lockInfo.value.id && r.lockInfo == lockInfo
    ensures r.name == project && r.state == Some(payload)
    ensures r.version == payload.version && r.tfVersion == payload.tfVersion && r.serial == payload.serial
    ensures lockInfo.None? ==> RecordValid(project, r)
  {
    ToInternal(payload, project, if lockInfo.Some? then lockInfo.value.id else None, lockInfo, now)
  }

  /** The stored descriptor, as the JSON reader yields it (it refuses a null input). */
  function StoredDescriptor(s: State): (r: Result<LockInfo>)
    ensures r.Ok? <==> s.lockInfo.Some?
    ensures r.Ok? ==> r.value == s.lockInfo.value
    ensures r.Err? ==> r.failure == UnreadableDescriptor
  {
    match s.lockInfo
    case Some(d) => Ok(d)
    case None => Err(UnreadableDescriptor)
  }

  /** Passes iff the record is not locked; otherwise raises AlreadyLocked with the stored descriptor. */
  function EnsureIsNotLocked(s: State): (o: Outcome)
    ensures o.Pass? <==> !s.locked
    ensures s.locked && s.lockInfo.Some? ==> o == Fail(AlreadyLocked(s.lockInfo.value))
    ensures s.locked && s.lockInfo.None? ==> o == Fail(UnreadableDescriptor)
  {
    if s.locked then
      match StoredDescriptor(s)
      case Ok(d) => Fail(AlreadyLocked(d))
      case Err(f) => Fail(f)
    else Pass
  }

  /** Passes iff the record is locked; otherwise raises NotLocked, which carries nothing. */
  function EnsureIsLocked(s: State): (o: Outcome)
    ensures o.Pass? <==> s.locked
    ensures o.Fail? ==> o.failure == NotLocked
  {
    if !s.locked then Fail(NotLocked) else Pass
  }

  /**
   * Passes iff the stored lock id is the supplied one; otherwise raises
   * LockMismatch with the stored descriptor, not the caller's.
   */
  function EnsureLockOwnership(s: State, lockId: string): (o: Outcome)
    ensures o.Pass? <==> s.lockId == Some(lockId)
    ensures s.lockId != Some(lockId) && s.lockInfo.Some? ==> o == Fail(LockMismatch(s.lockInfo.value))
    ensures s.lockId != Some(lockId) && s.lockInfo.None? ==> o == Fail(UnreadableDescriptor)
  {
    if s.lockId != Some(lockId) then
      match StoredDescriptor(s)
      case Ok(d) => Fail(LockMismatch(d))
      case Err(f) => Fail(f)
    else Pass
  }

  /** On a valid record the guards see the lock exactly as the invariant describes it. */
  lemma GuardsOnValidRecord(key: string, s: State, lockId: string)
    requires RecordValid(key, s)
    ensures EnsureIsNotLocked(s).Fail? ==> EnsureIsNotLocked(s) == Fail(AlreadyLocked(s.lockInfo.value))
    ensures s.locked && EnsureLockOwnership(s, lockId).Fail? ==> EnsureLockOwnership(s, lockId) == Fail(LockMismatch(s.lockInfo.value))
    ensures !s.locked ==> EnsureLockOwnership(s, lockId) == Fail(UnreadableDescriptor)
  {
  }
}
