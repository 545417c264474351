/**
 * The document-store adapter. It runs the same guards as the relational one,
 * but a missing document surfaces as NoSuchElement from the service, its bad
 * request is the project's own BadRequestException, delete translates the
 * guard's AlreadyLocked into Locked, and every write replaces the whole
 * document (so a lock also records the client version of the descriptor).
 */
module ElasticAdapter {
  import opened Records
  import opened Extensions
  import opened StorageContract
  import opened ElasticsearchService

  /** delete: NotFound when absent; a locked document stays and the caller gets Locked. */
  function EsDeleteStep(docs: Store, project: string): (o: Step)
    ensures o.reply.Done? <==> project in docs && !docs[project].locked
    ensures o.reply.Done? ==> o.store == docs - {project}
    ensures project !in docs ==> o.reply == Error(NotFound(project))
    ensures project in docs && docs[project].locked && docs[project].lockInfo.Some? ==>
              o.reply == Error(Locked(docs[project].lockInfo.value))
    ensures o.reply.Error? ==> o.store == docs
  {
    if project !in docs then Step(Error(NotFound(project)), docs)
    else
      match EnsureIsNotLocked(docs[project])
      case Fail(AlreadyLocked(d)) => Step(Error(Locked(d)), docs)
      case Fail(f) => Step(Error(f), docs)
      case Pass => Step(Done, docs - {project})
  }

  /**
   * lock: create locked when absent, lock an unlocked document, refuse a held
   * lock; a descriptor without an id is refused before anything is written.
   */
  function EsLockStep(docs: Store, project: string, info: LockInfo, now: Tick): (o: Step)
    ensures o.reply.Done? <==> (project !in docs || !docs[project].locked) && info.id.Some?
    ensures o.reply.Done? ==>
              && project in o.store
              && o.store[project].locked && o.store[project].lockId == info.id
              && o.store[project].lockInfo == Some(PathRewritten(info, project))
              && o.store[project].lastModified == now
              && o.store[project].tfVersion == info.version
    ensures o.reply.Done? && project !in docs ==> o.store[project] == FreshLockedRecord(project, info, now)
    // an existing document keeps its payload, version and serial; its client version is replaced
    ensures o.reply.Done? && project in docs ==>
              var before, after := docs[project], o.store[project];
              after.state == before.state && after.version == before.version
              && after.serial == before.serial && after.name == before.name
    ensures (project !in docs || !docs[project].locked) && info.id.None? ==> o.reply == Error(NullDescriptorId)
    ensures project in docs && docs[project].locked && docs[project].lockInfo.Some? ==>
              o.reply == Error(Locked(docs[project].lockInfo.value))
    ensures o.reply.Error? ==> o.store == docs
    ensures o.store - {project} == docs - {project}
  {
    if project !in docs then
      if info.id.None? then Step(Error(NullDescriptorId), docs)
      else Step(Done, docs[project := FreshLockedRecord(project, info, now)])
    else
      match EnsureIsNotLocked(docs[project])
      case Fail(AlreadyLocked(d)) => Step(Error(Locked(d)), docs)
      case Fail(f) => Step(Error(f), docs)
      case Pass =>
        if info.id.None? then Step(Error(NullDescriptorId), docs)
        else Step(Done, docs[project := WithLockAndVersion(docs[project], project, info, now)])
  }

  class ElasticAdapter {
    const stateService: ElasticsearchStateService

    constructor (stateService: ElasticsearchStateService)
      ensures this.stateService == stateService
    {
      this.stateService := stateService;
    }

    method FindById(project: string) returns (r: Reply)
      ensures Step(r, stateService.docs) == FindByIdStep(stateService.docs, project)
    {
      match stateService.Get(project)
      case Ok(s) => r := Found(s);
      case Err(_) => r := Error(NotFound(project));
    }

    method UpdateWithLock(project: string, lockId: string, state: TfState, now: Tick) returns (r: Reply)
      requires stateService.Valid()
      modifies stateService
      ensures stateService.Valid()
      ensures Step(r, stateService.docs) == UpdateWithLockStep(old(stateService.docs), project, lockId, state, now, BadRequest)
    {
      match stateService.Get(project)
      case Err(_) =>
        stateService.Update(ToInternalWithLock(state, project, None, now));
        r := Done;
      case Ok(storedState) =>
        match EnsureIsLocked(storedState)
        case Fail(_) =>
          r := Error(BadRequest);
        case Pass =>
          match EnsureLockOwnership(storedState, lockId)
          case Fail(LockMismatch(d)) =>
            r := Error(Locked(d));
          case Fail(f) =>
            r := Error(f);
          case Pass =>
            stateService.Update(ToInternal(state, project, Some(lockId), storedState.lockInfo, now));
            r := Done;
    }

    method UpdateWithoutLock(project: string, state: TfState, now: Tick) returns (r: Reply)
      requires stateService.Valid()
      modifies stateService
      ensures stateService.Valid()
      ensures Step(r, stateService.docs) == UpdateWithoutLockStep(old(stateService.docs), project, state, now)
    {
      match stateService.Get(project) {
        case Ok(_) =>
          stateService.Update(ToInternal(state, project, None, None, now));
        case Err(_) =>
          stateService.Update(ToInternalWithLock(state, project, None, now));
      }
      r := Done;
    }

    method Delete(project: string) returns (r: Reply)
      requires stateService.Valid()
      modifies stateService
      ensures stateService.Valid()
      ensures Step(r, stateService.docs) == EsDeleteStep(old(stateService.docs), project)
    {
      match stateService.Get(project)
      case Err(_) =>
        r := Error(NotFound(project));
      case Ok(storedState) =>
        match EnsureIsNotLocked(storedState)
        case Fail(AlreadyLocked(d)) =>
          r := Error(Locked(d));
        case Fail(f) =>
          r := Error(f);
        case Pass =>
          stateService.Delete(storedState.name);
          r := Done;
    }

    method Lock(project: string, lockInfo: LockInfo, now: Tick) returns (r: Reply)
      requires stateService.Valid()
      modifies stateService
      ensures stateService.Valid()
      ensures Step(r, stateService.docs) == EsLockStep(old(stateService.docs), project, lockInfo, now)
    {
      match stateService.Get(project)
      case Err(_) =>
        var created := stateService.CreateAndLock(project, lockInfo, now);
        r := if created.Ok? then Done else Error(created.failure);
      case Ok(storedState) =>
        match EnsureIsNotLocked(storedState)
        case Fail(AlreadyLocked(d)) =>
          r := Error(Locked(d));
        case Fail(f) =>
          r := Error(f);
        case Pass =>
          var locked := stateService.Lock(project, storedState, lockInfo, now);
          r := if locked.Ok? then Done else Error(locked.failure);
    }

    method Unlock(project: string, lockInfo: LockInfo) returns (r: Reply)
      requires stateService.Valid()
      modifies stateService
      ensures stateService.Valid()
      ensures Step(r, stateService.docs) == UnlockStep(old(stateService.docs), project, lockInfo)
    {
      match stateService.Get(project)
      case Err(_) =>
        r := Error(Conflict(lockInfo));
      case Ok(storedState) =>
        match EnsureIsLocked(storedState)
        case Fail(_) =>
          r := Error(Conflict(lockInfo));
        case Pass =>
          match lockInfo.id
          case None =>
            r := Error(NullDescriptorId);
          case Some(id) =>
            match EnsureLockOwnership(storedState, id)
            case Fail(LockMismatch(d)) =>
              r := Error(Locked(d));
            case Fail(f) =>
              r := Error(f);
            case Pass =>
              var unlocked := stateService.Unlock(project, storedState);
              r := Done;
    }

    method ForceUnlock(project: string) returns (r: Reply)
      requires stateService.Valid()
      modifies stateService
      ensures stateService.Valid()
      ensures Step(r, stateService.docs) == ForceUnlockStep(old(stateService.docs), project, BadRequest)
    {
      match stateService.Get(project)
      case Err(_) =>
        r := Error(BadRequest);
      case Ok(storedState) =>
        var unlocked := stateService.Unlock(project, storedState);
        r := Done;
    }
  }
}
