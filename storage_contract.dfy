/**
 * The decisions every storage implementation takes the same way, as functions
 * from the store before an operation to its reply and the store after it.
 * Where the implementations differ only in the kind of "bad request" they
 * raise, that kind is a parameter; lock, where they differ in more, is given
 * beside each implementation, and so is the document store's delete.
 */
module StorageContract {
  import opened Records
  import opened Extensions

  /** The stored record of `project` is locked under `lockId`. */
  predicate HeldBy(store: Store, project: string, lockId: string)
  {
    project in store && store[project].locked && store[project].lockId == Some(lockId)
  }

  /** The stored record of `project` is locked under an id other than `lockId`. */
  predicate HeldByOther(store: Store, project: string, lockId: string)
  {
    project in store && store[project].locked && store[project].lockId != Some(lockId)
  }

  /** The record of `project` in `after` is `payload`, written unlocked at `now`. */
  predicate WrittenUnlocked(after: Store, project: string, payload: TfState, now: Tick)
  {
    && project in after
    && after[project] == ToInternalWithLock(payload, project, None, now)
  }

  /** findById: the stored record, or NotFound naming the project. */
  function FindByIdStep(store: Store, project: string): (o: Step)
    ensures o.store == store
    ensures project in store ==> o.reply == Found(store[project])
    ensures project !in store ==> o.reply == Error(NotFound(project))
  {
    if project in store then Step(Found(store[project]), store) else Step(Error(NotFound(project)), store)
  }

  /**
   * updateWithLock: create when absent, refuse when nothing is locked, refuse
   * another holder, and otherwise overwrite the document keeping the lock.
   */
  function UpdateWithLockStep(store: Store, project: string, lockId: string, payload: TfState, now: Tick,
                              badRequest: Failure): (o: Step)
    ensures o.reply.Done? <==> project !in store || HeldBy(store, project, lockId)
    // an absent project is created unlocked: the supplied lock id plays no part
    ensures project !in store ==> WrittenUnlocked(o.store, project, payload, now)
    // the lock holder writes the payload and the record keeps its lock
    ensures HeldBy(store, project, lockId) ==>
              && project in o.store
              && o.store[project] == ToInternal(payload, project, store[project].lockId, store[project].lockInfo, now)
    ensures project in store && !store[project].locked ==> o.reply == Error(badRequest)
    ensures HeldByOther(store, project, lockId) && store[project].lockInfo.Some? ==>
              o.reply == Error(Locked(store[project].lockInfo.value))
    ensures o.reply.Error? ==> o.store == store
    ensures o.store - {project} == store - {project}
  {
    if project !in store then
      Step(Done, store[project := ToInternalWithLock(payload, project, None, now)])
    else
      var storedState := store[project];
      match EnsureIsLocked(storedState)
      case Fail(_) => Step(Error(badRequest), store)
      case Pass =>
        match EnsureLockOwnership(storedState, lockId)
        case Fail(LockMismatch(d)) => Step(Error(Locked(d)), store)
        case Fail(f) => Step(Error(f), store)
        case Pass => Step(Done, store[project := ToInternal(payload, project, Some(lockId), storedState.lockInfo, now)])
  }

  /** updateWithoutLock: always writes, whatever lock is held, and the written record is unlocked. */
  function UpdateWithoutLockStep(store: Store, project: string, payload: TfState, now: Tick): (o: Step)
    ensures o.reply == Done
    ensures WrittenUnlocked(o.store, project, payload, now)
    ensures o.store - {project} == store - {project}
  {
    if project in store then
      Step(Done, store[project := ToInternal(payload, project, None, None, now)])
    else
      Step(Done, store[project := ToInternalWithLock(payload, project, None, now)])
  }

  /**
   * unlock: Conflict with the caller's descriptor when nothing is locked,
   * Locked with the stored descriptor for another holder, otherwise the three
   * lock fields are cleared.
   */
  function UnlockStep(store: Store, project: string, info: LockInfo): (o: Step)
    ensures o.reply.Done? <==> info.id.Some? && HeldBy(store, project, info.id.value)
    ensures o.reply.Done? ==> o.store == store[project := Unlocked(store[project])]
    ensures project !in store || !store[project].locked ==> o.reply == Error(Conflict(info))
    ensures project in store && store[project].locked && info.id.None? ==> o.reply == Error(NullDescriptorId)
    ensures info.id.Some? && HeldByOther(store, project, info.id.value) && store[project].lockInfo.Some? ==>
              o.reply == Error(Locked(store[project].lockInfo.value))
    ensures o.reply.Error? ==> o.store == store
  {
    if project !in store then Step(Error(Conflict(info)), store)
    else
      var storedState := store[project];
      match EnsureIsLocked(storedState)
      case Fail(_) => Step(Error(Conflict(info)), store)
      case Pass =>
        match info.id
        case None => Step(Error(NullDescriptorId), store)
        case Some(id) =>
          match EnsureLockOwnership(storedState, id)
          case Fail(LockMismatch(d)) => Step(Error(Locked(d)), store)
          case Fail(f) => Step(Error(f), store)
          case Pass => Step(Done, store[project := Unlocked(storedState)])
  }

  /** forceUnlock: clears the lock of any existing record, with no lock or ownership check. */
  function ForceUnlockStep(store: Store, project: string, badRequest: Failure): (o: Step)
    ensures o.reply.Done? <==> project in store
    ensures project in store ==> o.store == store[project := Unlocked(store[project])]
    ensures project !in store ==> o == Step(Error(badRequest), store)
  {
    if project in store then Step(Done, store[project := Unlocked(store[project])])
    else Step(Error(badRequest), store)
  }

  /**
   * delete, as the relational adapter and the resource run it: NotFound when
   * absent; a locked record stays and the guard's AlreadyLocked is passed on.
   */
  function DeleteStep(rows: Store, project: string): (o: Step)
    ensures o.reply.Done? <==> project in rows && !rows[project].locked
    ensures o.reply.Done? ==> o.store == rows - {project}
    ensures project !in rows ==> o.reply == Error(NotFound(project))
    // the guard's failure is passed on as it is, not turned into Locked
    ensures project in rows && rows[project].locked && rows[project].lockInfo.Some? ==>
              o.reply == Error(AlreadyLocked(rows[project].lockInfo.value))
    ensures o.reply.Error? ==> o.store == rows
  {
    if project !in rows then Step(Error(NotFound(project)), rows)
    else
      match EnsureIsNotLocked(rows[project])
      case Fail(f) => Step(Error(f), rows)
      case Pass => Step(Done, rows - {project})
  }
}
