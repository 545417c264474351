/**
 * The older repository behind the HTTP resource. Its records are mutable
 * entities: lock and unlock assign the lock fields of the entity they are
 * handed, issue a field-scoped update of the row, and return that same
 * entity. The table itself is a map from name to record value.
 */
module LegacyRepository {
  import opened Records

  /** A mutable State entity, as the persistence layer hands it out. */
  class StateEntity {
    var name: string
    var lastModified: Tick
    var locked: bool
    var lockId: Option<string>
    var lockInfo: Option<LockInfo>
    var version: int
    var tfVersion: Option<string>
    var serial: int
    var state: Option<TfState>

    /** The record the entity currently holds. */
    function Value(): State
      reads this
    {
      State(name, lastModified, locked, lockId, lockInfo, version, tfVersion, serial, state)
    }

    constructor (s: State)
      ensures Value() == s
    {
      name := s.name;
      lastModified := s.lastModified;
      locked := s.locked;
      lockId := s.lockId;
      lockInfo := s.lockInfo;
      version := s.version;
      tfVersion := s.tfVersion;
      serial := s.serial;
      state := s.state;
    }
  }

  class TerraformStateRepository {
    /** The table, keyed by the `name` column. */
    var rows: Store

    ghost predicate Valid()
      reads this
    {
      Keyed(rows)
    }

    constructor (initial: Store)
      requires Keyed(initial)
      ensures Valid() && rows == initial
    {
      rows := initial;
    }

    /** The entity of a project, loaded afresh; an absent key fails NoSuchElement. */
    method FindById(project: string) returns (r: Result<StateEntity>)
      ensures r.Ok? <==> project in rows
      ensures r.Ok? ==> fresh(r.value) && r.value.Value() == rows[project]
      ensures r.Err? ==> r.failure == NoSuchElement
    {
      if project in rows {
        var entity := new StateEntity(rows[project]);
        r := Ok(entity);
      } else {
        r := Err(NoSuchElement);
      }
    }

    /**
     * A record whose lock id is the argument, or none when no record has it.
     * Which one is "first" is the database's choice, so any match may be returned.
     */
    method FindByLockId(lockId: string) returns (r: Option<StateEntity>)
      ensures r.None? <==> forall k :: k in rows ==> rows[k].lockId != Some(lockId)
      ensures r.Some? ==> fresh(r.value) && r.value.Value() in rows.Values && r.value.lockId == Some(lockId)
    {
      if k :| k in rows && rows[k].lockId == Some(lockId) {
        var entity := new StateEntity(rows[k]);
        r := Some(entity);
      } else {
        r := None;
      }
    }

    /** Persists a new record; callers only persist a name not yet present. */
    method Add(stateToSave: State)
      requires stateToSave.name !in rows
      requires Valid()
      modifies this
      ensures Valid()
      ensures rows == old(rows)[stateToSave.name := stateToSave]
    {
      rows := rows[stateToSave.name := stateToSave];
    }

    /** Overwrites every column but the key of the row whose name matches; no row, no change. */
    method Update(stateToUpdate: State)
      requires Valid()
      modifies this
      ensures Valid()
      ensures stateToUpdate.name in old(rows) ==> rows == old(rows)[stateToUpdate.name := stateToUpdate]
      ensures stateToUpdate.name !in old(rows) ==> rows == old(rows)
    {
      var key := stateToUpdate.name;
      if key in rows {
        var row := rows[key];
        rows := rows[key := row.(lastModified := stateToUpdate.lastModified, locked := stateToUpdate.locked,
                                 lockId := stateToUpdate.lockId, lockInfo := stateToUpdate.lockInfo,
                                 version := stateToUpdate.version, tfVersion := stateToUpdate.tfVersion,
                                 serial := stateToUpdate.serial, state := stateToUpdate.state)];
      }
    }

    method Delete(stateToDelete: State)
      requires Valid()
      modifies this
      ensures Valid()
      ensures rows == old(rows) - {stateToDelete.name}
    {
      rows := rows - {stateToDelete.name};
    }

    /**
     * Persists a default record locked by `lockInfo`, its path rewritten to the
     * project. A descriptor without an id fails while the new entity is being
     * filled in, before it is persisted.
     */
    method CreateAndLock(project: string, lockInfo: LockInfo, now: Tick) returns (r: Result<StateEntity>)
      requires project !in rows
      requires Valid()
      modifies this
      ensures Valid()
      ensures lockInfo.id.None? ==> r == Err(NullDescriptorId) && rows == old(rows)
      ensures lockInfo.id.Some? ==>
                && r.Ok? && fresh(r.value)
                && r.value.Value() == FreshLockedRecord(project, lockInfo, now)
                && rows == old(rows)[project := r.value.Value()]
    {
      var updatedLock := PathRewritten(lockInfo, project);
      if updatedLock.id.None? {
        return Err(NullDescriptorId);
      }
      var defaultState := DefaultPayload(updatedLock.version);
      var state := new StateEntity(State(project, now, true, updatedLock.id, Some(updatedLock),
                                         DefaultVersion, updatedLock.version, DefaultSerial, Some(defaultState)));
      rows := rows[project := state.Value()];
      r := Ok(state);
    }

    /**
     * Sets lastModified and locked on the entity, then its lock id (which fails
     * for a descriptor without an id, leaving the first two assignments in
     * place and the table untouched), client version and descriptor; writes
     * lastModified, locked, lockId and lockInfo of the row; and returns the
     * entity it was handed.
     */
    method Lock(project: string, stateToUpdate: StateEntity, lockInfo: LockInfo, now: Tick) returns (r: Result<StateEntity>)
      requires Valid()
      modifies this, stateToUpdate
      ensures Valid()
      ensures lockInfo.id.None? ==>
                && r == Err(NullDescriptorId) && rows == old(rows)
                && stateToUpdate.Value() == old(stateToUpdate.Value()).(lastModified := now, locked := true)
      ensures lockInfo.id.Some? ==>
                && r == Ok(stateToUpdate)
                && stateToUpdate.Value() == WithLockAndVersion(old(stateToUpdate.Value()), project, lockInfo, now)
                && (project in old(rows) ==> rows == old(rows)[project := WithLock(old(rows)[project], project, lockInfo, now)])
                && (project !in old(rows) ==> rows == old(rows))
    {
      var updatedLock := PathRewritten(lockInfo, project);
      stateToUpdate.lastModified := now;
      stateToUpdate.locked := true;
      if updatedLock.id.None? {
        return Err(NullDescriptorId);
      }
      stateToUpdate.lockId := updatedLock.id;
      stateToUpdate.tfVersion := updatedLock.version;
      stateToUpdate.lockInfo := Some(updatedLock);
      if project in rows {
        var row := rows[project];
        rows := rows[project := row.(lastModified := now, locked := true,
                                     lockId := lockInfo.id, lockInfo := Some(updatedLock))];
      }
      r := Ok(stateToUpdate);
    }

    /** Clears the three lock fields of the entity and of the row, and returns the entity it was handed. */
    method Unlock(project: string, stateToUnlock: StateEntity) returns (r: StateEntity)
      requires Valid()
      modifies this, stateToUnlock
      ensures Valid()
      ensures r == stateToUnlock
      ensures stateToUnlock.Value() == Unlocked(old(stateToUnlock.Value()))
      ensures project in old(rows) ==> rows == old(rows)[project := Unlocked(old(rows)[project])]
      ensures project !in old(rows) ==> rows == old(rows)
    {
      stateToUnlock.locked := false;
      stateToUnlock.lockId := None;
      stateToUnlock.lockInfo := None;
      if project in rows {
        var row := rows[project];
        rows := rows[project := row.(locked := false, lockId := None, lockInfo := None)];
      }
      r := stateToUnlock;
    }
  }
}
