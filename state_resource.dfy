/**
 * The older HTTP resource, which carries the same state machine directly on
 * the older repository. It dispatches on whether a lock id (update) or a
 * descriptor (unlock) was supplied, checks locks with private guards that
 * take the same decisions as those of util/Extensions.kt, and raises the web
 * framework's own bad request (javax.ws.rs.BadRequestException).
 */
module StateResource {
  import opened Records
  import opened Extensions
  import opened StorageContract
  import opened DatabaseAdapter
  import LegacyRepository

  /**
   * doLockState: create locked when absent, lock an unlocked record, refuse a
   * held lock; a descriptor without an id fails, and nothing is written.
   */
  function LegacyLockStep(rows: Store, project: string, info: LockInfo, now: Tick): (o: Step)
    ensures o.reply.Done? <==> (project !in rows || !rows[project].locked) && info.id.Some?
    ensures (project !in rows || !rows[project].locked) && info.id.None? ==> o.reply == Error(NullDescriptorId)
    ensures project in rows && rows[project].locked && rows[project].lockInfo.Some? ==>
              o.reply == Error(Locked(rows[project].lockInfo.value))
    ensures o.reply.Error? ==> o.store == rows
  {
    if project !in rows then
      if info.id.None? then Step(Error(NullDescriptorId), rows)
      else Step(Done, rows[project := FreshLockedRecord(project, info, now)])
    else
      match EnsureIsNotLocked(rows[project])
      case Fail(AlreadyLocked(d)) => Step(Error(Locked(d)), rows)
      case Fail(f) => Step(Error(f), rows)
      case Pass =>
        if info.id.None? then Step(Error(NullDescriptorId), rows)
        else Step(Done, rows[project := WithLock(rows[project], project, info, now)])
  }

  /**
   * The partner of the relational adapter's lock: with a descriptor that has
   * an id the two agree on every store; without one, the old resource refuses
   * where the adapter writes.
   */
  lemma LegacyLockAgreesWithAdapter(rows: Store, project: string, info: LockInfo, now: Tick)
    ensures info.id.Some? ==> LegacyLockStep(rows, project, info, now) == DbLockStep(rows, project, info, now)
    ensures info.id.None? && (project !in rows || !rows[project].locked) ==>
              LegacyLockStep(rows, project, info, now).reply == Error(NullDescriptorId)
              && DbLockStep(rows, project, info, now).reply == Done
  {
  }

  class TerraformStateResource {
    const tfStateRepository: LegacyRepository.TerraformStateRepository

    constructor (tfStateRepository: LegacyRepository.TerraformStateRepository)
      ensures this.tfStateRepository == tfStateRepository
    {
      this.tfStateRepository := tfStateRepository;
    }

    method GetState(project: string) returns (r: Reply)
      ensures Step(r, tfStateRepository.rows) == FindByIdStep(tfStateRepository.rows, project)
    {
      var found := tfStateRepository.FindById(project);
      match found
      case Ok(entity) => r := Found(entity.Value());
      case Err(_) => r := Error(NotFound(project));
    }

    /** POST: the locked write path iff a lock id is supplied. */
    method UpdateState(project: string, lockId: Option<string>, state: TfState, now: Tick) returns (r: Reply)
      requires tfStateRepository.Valid()
      modifies tfStateRepository
      ensures tfStateRepository.Valid()
      ensures lockId.Some? ==>
                Step(r, tfStateRepository.rows)
                == UpdateWithLockStep(old(tfStateRepository.rows), project, lockId.value, state, now, FrameworkBadRequest)
      ensures lockId.None? ==>
                Step(r, tfStateRepository.rows) == UpdateWithoutLockStep(old(tfStateRepository.rows), project, state, now)
    {
      if lockId.Some? {
        r := UpdateStateWithLockId(project, lockId.value, state, now);
      } else {
        r := UpdateStateWithoutLockId(project, state, now);
      }
    }

    method UpdateStateWithLockId(project: string, lockId: string, state: TfState, now: Tick) returns (r: Reply)
      requires tfStateRepository.Valid()
      modifies tfStateRepository
      ensures tfStateRepository.Valid()
      ensures Step(r, tfStateRepository.rows)
              == UpdateWithLockStep(old(tfStateRepository.rows), project, lockId, state, now, FrameworkBadRequest)
    {
      var found := tfStateRepository.FindById(project);
      match found
      case Err(_) =>
        tfStateRepository.Add(ToInternalWithLock(state, project, None, now));
        r := Done;
      case Ok(storedState) =>
        match EnsureIsLocked(storedState.Value())
        case Fail(_) =>
          r := Error(FrameworkBadRequest);
        case Pass =>
          match EnsureLockOwnership(storedState.Value(), lockId)
          case Fail(LockMismatch(d)) =>
            r := Error(Locked(d));
          case Fail(f) =>
            r := Error(f);
          case Pass =>
            tfStateRepository.Update(ToInternal(state, project, Some(lockId), storedState.lockInfo, now));
            r := Done;
    }

    method UpdateStateWithoutLockId(project: string, state: TfState, now: Tick) returns (r: Reply)
      requires tfStateRepository.Valid()
      modifies tfStateRepository
      ensures tfStateRepository.Valid()
      ensures Step(r, tfStateRepository.rows) == UpdateWithoutLockStep(old(tfStateRepository.rows), project, state, now)
    {
      var found := tfStateRepository.FindById(project);
      match found {
        case Ok(_) =>
          tfStateRepository.Update(ToInternal(state, project, None, None, now));
        case Err(_) =>
          tfStateRepository.Add(ToInternalWithLock(state, project, None, now));
      }
      r := Done;
    }

    /** DELETE: the guard's AlreadyLocked is not caught here and the record stays. */
    method DeleteState(project: string) returns (r: Reply)
      requires tfStateRepository.Valid()
      modifies tfStateRepository
      ensures tfStateRepository.Valid()
      ensures Step(r, tfStateRepository.rows) == DeleteStep(old(tfStateRepository.rows), project)
    {
      var found := tfStateRepository.FindById(project);
      match found
      case Err(_) =>
        r := Error(NotFound(project));
      case Ok(storedState) =>
        match EnsureIsNotLocked(storedState.Value())
        case Fail(f) =>
          r := Error(f);
        case Pass =>
          tfStateRepository.Delete(storedState.Value());
          r := Done;
    }

    /** The LOCK verb. */
    method LockState(project: string, lockInfo: LockInfo, now: Tick) returns (r: Reply)
      requires tfStateRepository.Valid()
      modifies tfStateRepository
      ensures tfStateRepository.Valid()
      ensures Step(r, tfStateRepository.rows) == LegacyLockStep(old(tfStateRepository.rows), project, lockInfo, now)
    {
      r := DoLockState(project, lockInfo, now);
    }

    /** POST /{project}/lock: the same as the LOCK verb. */
    method LockStateAlternative(project: string, lockInfo: LockInfo, now: Tick) returns (r: Reply)
      requires tfStateRepository.Valid()
      modifies tfStateRepository
      ensures tfStateRepository.Valid()
      ensures Step(r, tfStateRepository.rows) == LegacyLockStep(old(tfStateRepository.rows), project, lockInfo, now)
    {
      r := DoLockState(project, lockInfo, now);
    }

    method DoLockState(project: string, lockInfo: LockInfo, now: Tick) returns (r: Reply)
      requires tfStateRepository.Valid()
      modifies tfStateRepository
      ensures tfStateRepository.Valid()
      ensures Step(r, tfStateRepository.rows) == LegacyLockStep(old(tfStateRepository.rows), project, lockInfo, now)
    {
      var found := tfStateRepository.FindById(project);
      match found
      case Err(_) =>
        var created := tfStateRepository.CreateAndLock(project, lockInfo, now);
        r := if created.Ok? then Done else Error(created.failure);
      case Ok(storedState) =>
        match EnsureIsNotLocked(storedState.Value())
        case Fail(AlreadyLocked(d)) =>
          r := Error(Locked(d));
        case Fail(f) =>
          r := Error(f);
        case Pass =>
          var locked := tfStateRepository.Lock(project, storedState, lockInfo, now);
          r := if locked.Ok? then Done else Error(locked.failure);
    }

    /** The UNLOCK verb: a force unlock iff no descriptor is sent. */
    method UnlockState(project: string, lockInfo: Option<LockInfo>) returns (r: Reply)
      requires tfStateRepository.Valid()
      modifies tfStateRepository
      ensures tfStateRepository.Valid()
      ensures lockInfo.Some? ==>
                Step(r, tfStateRepository.rows) == UnlockStep(old(tfStateRepository.rows), project, lockInfo.value)
      ensures lockInfo.None? ==>
                Step(r, tfStateRepository.rows) == ForceUnlockStep(old(tfStateRepository.rows), project, FrameworkBadRequest)
    {
      if lockInfo.Some? {
        r := DoUnlockState(project, lockInfo.value);
      } else {
        r := DoForceUnlockState(project);
      }
    }

    /** POST /{project}/unlock: the same dispatch as the UNLOCK verb. */
    method UnlockStateAlternative(project: string, lockInfo: Option<LockInfo>) returns (r: Reply)
      requires tfStateRepository.Valid()
      modifies tfStateRepository
      ensures tfStateRepository.Valid()
      ensures lockInfo.Some? ==>
                Step(r, tfStateRepository.rows) == UnlockStep(old(tfStateRepository.rows), project, lockInfo.value)
      ensures lockInfo.None? ==>
                Step(r, tfStateRepository.rows) == ForceUnlockStep(old(tfStateRepository.rows), project, FrameworkBadRequest)
    {
      if lockInfo.Some? {
        r := DoUnlockState(project, lockInfo.value);
      } else {
        r := DoForceUnlockState(project);
      }
    }

    method DoUnlockState(project: string, lockInfo: LockInfo) returns (r: Reply)
      requires tfStateRepository.Valid()
      modifies tfStateRepository
      ensures tfStateRepository.Valid()
      ensures Step(r, tfStateRepository.rows) == UnlockStep(old(tfStateRepository.rows), project, lockInfo)
    {
      var found := tfStateRepository.FindById(project);
      match found
      case Err(_) =>
        r := Error(Conflict(lockInfo));
      case Ok(storedState) =>
        match EnsureIsLocked(storedState.Value())
        case Fail(_) =>
          r := Error(Conflict(lockInfo));
        case Pass =>
          match lockInfo.id
          case None =>
            r := Error(NullDescriptorId);
          case Some(id) =>
            match EnsureLockOwnership(storedState.Value(), id)
            case Fail(LockMismatch(d)) =>
              r := Error(Locked(d));
            case Fail(f) =>
              r := Error(f);
            case Pass =>
              var unlocked := tfStateRepository.Unlock(project, storedState);
              r := Done;
    }

    method DoForceUnlockState(project: string) returns (r: Reply)
      requires tfStateRepository.Valid()
      modifies tfStateRepository
      ensures tfStateRepository.Valid()
      ensures Step(r, tfStateRepository.rows) == ForceUnlockStep(old(tfStateRepository.rows), project, FrameworkBadRequest)
    {
      var found := tfStateRepository.FindById(project);
      match found
      case Err(_) =>
        r := Error(FrameworkBadRequest);
      case Ok(storedState) =>
        var unlocked := tfStateRepository.Unlock(project, storedState);
        r := Done;
    }
  }
}
