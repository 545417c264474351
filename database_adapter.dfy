/**
 * The relational storage adapter. Every operation loads the row, applies a
 * lock guard and then either changes the table through the repository or
 * raises a failure. Its bad request is the web framework's own exception
 * (javax.ws.rs.BadRequestException), and delete does not translate the
 * guard's AlreadyLocked. DbLockStep gives the lock decision, which is
 * particular to this adapter; the class runs each operation step by step
 * against the repository and is proved to agree with the step functions.
 */
module DatabaseAdapter {
  import opened Records
  import opened Extensions
  import opened DatabaseRepository
  import opened StorageContract

  /** lock: create locked when absent, lock an unlocked record, refuse a held lock. */
  function DbLockStep(rows: Store, project: string, info: LockInfo, now: Tick): (o: Step)
    ensures o.reply.Done? <==> project !in rows || !rows[project].locked
    ensures o.reply.Done? ==>
              && project in o.store
              && o.store[project].locked && o.store[project].lockId == info.id
              && o.store[project].lockInfo == Some(PathRewritten(info, project))
              && o.store[project].lastModified == now
    // a fresh record starts from the default document
    ensures project !in rows ==> o.store[project] == FreshLockedRecord(project, info, now)
    // an existing record keeps its document, version, serial and client version
    ensures project in rows && o.reply.Done? ==>
              var before, after := rows[project], o.store[project];
              after.state == before.state && after.version == before.version
              && after.serial == before.serial && after.tfVersion == before.tfVersion && after.name == before.name
    // a held lock is never taken over: the failure carries the stored descriptor
    ensures project in rows && rows[project].locked && rows[project].lockInfo.Some? ==>
              o.reply == Error(Locked(rows[project].lockInfo.value))
    ensures o.reply.Error? ==> o.store == rows
    ensures o.store - {project} == rows - {project}
  {
    if project !in rows then
      Step(Done, rows[project := FreshLockedRecord(project, info, now)])
    else
      match EnsureIsNotLocked(rows[project])
      case Fail(AlreadyLocked(d)) => Step(Error(Locked(d)), rows)
      case Fail(f) => Step(Error(f), rows)
      case Pass => Step(Done, rows[project := WithLock(rows[project], project, info, now)])
  }

  class DatabaseAdapter {
    const repository: TerraformStateRepository

    constructor (repository: TerraformStateRepository)
      ensures this.repository == repository
    {
      this.repository := repository;
    }

    method FindById(project: string) returns (r: Reply)
      ensures Step(r, repository.rows) == FindByIdStep(repository.rows, project)
    {
      match repository.FindByIdOptional(project)
      case Some(s) => r := Found(s);
      case None => r := Error(NotFound(project));
    }

    method UpdateWithLock(project: string, lockId: string, state: TfState, now: Tick) returns (r: Reply)
      requires repository.Valid()
      modifies repository
      ensures repository.Valid()
      ensures Step(r, repository.rows) == UpdateWithLockStep(old(repository.rows), project, lockId, state, now, FrameworkBadRequest)
    {
      match repository.FindByIdOptional(project)
      case None =>
        repository.Add(ToInternalWithLock(state, project, None, now));
        r := Done;
      case Some(storedState) =>
        match EnsureIsLocked(storedState)
        case Fail(_) =>
          r := Error(FrameworkBadRequest);
        case Pass =>
          match EnsureLockOwnership(storedState, lockId)
          case Fail(LockMismatch(d)) =>
            r := Error(Locked(d));
          case Fail(f) =>
            r := Error(f);
          case Pass =>
            repository.Update(ToInternal(state, project, Some(lockId), storedState.lockInfo, now));
            r := Done;
    }

    method UpdateWithoutLock(project: string, state: TfState, now: Tick) returns (r: Reply)
      requires repository.Valid()
      modifies repository
      ensures repository.Valid()
      ensures Step(r, repository.rows) == UpdateWithoutLockStep(old(repository.rows), project, state, now)
    {
      match repository.FindByIdOptional(project) {
        case Some(_) =>
          repository.Update(ToInternal(state, project, None, None, now));
        case None =>
          repository.Add(ToInternalWithLock(state, project, None, now));
      }
      r := Done;
    }

    method Delete(project: string) returns (r: Reply)
      requires repository.Valid()
      modifies repository
      ensures repository.Valid()
      ensures Step(r, repository.rows) == DeleteStep(old(repository.rows), project)
    {
      match repository.FindByIdOptional(project)
      case None =>
        r := Error(NotFound(project));
      case Some(storedState) =>
        match EnsureIsNotLocked(storedState)
        case Fail(f) =>
          r := Error(f);
        case Pass =>
          repository.Delete(storedState);
          r := Done;
    }

    method Lock(project: string, lockInfo: LockInfo, now: Tick) returns (r: Reply)
      requires repository.Valid()
      modifies repository
      ensures repository.Valid()
      ensures Step(r, repository.rows) == DbLockStep(old(repository.rows), project, lockInfo, now)
    {
      match repository.FindByIdOptional(project)
      case None =>
        var created := repository.CreateAndLock(project, lockInfo, now);
        r := Done;
      case Some(storedState) =>
        match EnsureIsNotLocked(storedState)
        case Fail(AlreadyLocked(d)) =>
          r := Error(Locked(d));
        case Fail(f) =>
          r := Error(f);
        case Pass =>
          var locked := repository.Lock(project, storedState, lockInfo, now);
          r := Done;
    }

    method Unlock(project: string, lockInfo: LockInfo) returns (r: Reply)
      requires repository.Valid()
      modifies repository
      ensures repository.Valid()
      ensures Step(r, repository.rows) == UnlockStep(old(repository.rows), project, lockInfo)
    {
      match repository.FindByIdOptional(project)
      case None =>
        r := Error(Conflict(lockInfo));
      case Some(storedState) =>
        match EnsureIsLocked(storedState)
        case Fail(_) =>
          r := Error(Conflict(lockInfo));
        case Pass =>
          match lockInfo.id
          case None =>
            r := Error(NullDescriptorId);
          case Some(id) =>
            match EnsureLockOwnership(storedState, id)
            case Fail(LockMismatch(d)) =>
              r := Error(Locked(d));
            case Fail(f) =>
              r := Error(f);
            case Pass =>
              var unlocked := repository.Unlock(project, storedState);
              r := Done;
    }

    method ForceUnlock(project: string) returns (r: Reply)
      requires repository.Valid()
      modifies repository
      ensures repository.Valid()
      ensures Step(r, repository.rows) == ForceUnlockStep(old(repository.rows), project, FrameworkBadRequest)
    {
      match repository.FindByIdOptional(project)
      case None =>
        r := Error(FrameworkBadRequest);
      case Some(storedState) =>
        var unlocked := repository.Unlock(project, storedState);
        r := Done;
    }
  }
}
