/**
 * The relational repository: one table of State rows keyed by name, changed
 * only through field-scoped updates (`UPDATE ... WHERE name = ?`). The records
 * that createAndLock, lock and unlock return are copies built beside the update.
 */
module DatabaseRepository {
  import opened Records

  class TerraformStateRepository {
    /** The table, keyed by the `name` column. */
    var rows: Store

    /** The key column is the name column. */
    ghost predicate Valid()
      reads this
    {
      Keyed(rows)
    }

    constructor (initial: Store)
      requires Keyed(initial)
      ensures Valid() && rows == initial
    {
      rows := initial;
    }

    /** The row of a project, if there is one. */
    function FindByIdOptional(project: string): (r: Option<State>)
      reads this
      ensures r.Some? <==> project in rows
      ensures r.Some? ==> r.value == rows[project]
    {
      if project in rows then Some(rows[project]) else None
    }

    /** Inserts a new row keyed by its name; callers only insert a name not yet present. */
    method Add(stateToSave: State)
      requires stateToSave.name !in rows
      requires Valid()
      modifies this
      ensures Valid()
      ensures rows == old(rows)[stateToSave.name := stateToSave]
    {
      rows := rows[stateToSave.name := stateToSave];
    }

    /**
     * Overwrites every column but the key of the row whose name matches;
     * a name with no row updates nothing.
     */
    method Update(stateToUpdate: State)
      requires Valid()
      modifies this
      ensures Valid()
      ensures stateToUpdate.name in old(rows) ==> rows == old(rows)[stateToUpdate.name := stateToUpdate]
      ensures stateToUpdate.name !in old(rows) ==> rows == old(rows)
    {
      var key := stateToUpdate.name;
      if key in rows {
        var row := rows[key];
        rows := rows[key := row.(lastModified := stateToUpdate.lastModified, locked := stateToUpdate.locked,
                                 lockId := stateToUpdate.lockId, lockInfo := stateToUpdate.lockInfo,
                                 version := stateToUpdate.version, tfVersion := stateToUpdate.tfVersion,
                                 serial := stateToUpdate.serial, state := stateToUpdate.state)];
      }
    }

    method Delete(stateToDelete: State)
      requires Valid()
      modifies this
      ensures Valid()
      ensures rows == old(rows) - {stateToDelete.name}
    {
      rows := rows - {stateToDelete.name};
    }

    /** Inserts a default record already locked by `lockInfo`, its path rewritten to the project. */
    method CreateAndLock(project: string, lockInfo: LockInfo, now: Tick) returns (r: State)
      requires project !in rows
      requires Valid()
      modifies this
      ensures Valid()
      ensures r == FreshLockedRecord(project, lockInfo, now)
      ensures rows == old(rows)[project := r]
    {
      var updatedLock := PathRewritten(lockInfo, project);
      var defaultState := DefaultPayload(updatedLock.version);
      r := State(project, now, true, updatedLock.id, Some(updatedLock),
                 DefaultVersion, updatedLock.version, DefaultSerial, Some(defaultState));
      rows := rows[project := r];
    }

    /**
     * Writes lastModified, locked, lockId and lockInfo of the named row and no
     * other column; returns a copy of the given record that also takes the
     * client version from the descriptor, which the row does not.
     */
    method Lock(project: string, stateToLock: State, lockInfo: LockInfo, now: Tick) returns (r: State)
      requires Valid()
      modifies this
      ensures Valid()
      ensures project in old(rows) ==> rows == old(rows)[project := WithLock(old(rows)[project], project, lockInfo, now)]
      ensures project !in old(rows) ==> rows == old(rows)
      ensures r == WithLockAndVersion(stateToLock, project, lockInfo, now)
    {
      var updatedLock := PathRewritten(lockInfo, project);
      var updatedAt := now;
      if project in rows {
        var row := rows[project];
        rows := rows[project := row.(lastModified := updatedAt, locked := true,
                                     lockId := lockInfo.id, lockInfo := Some(updatedLock))];
      }
      r := stateToLock.(lastModified := updatedAt, locked := true, lockId := updatedLock.id,
                        tfVersion := updatedLock.version, lockInfo := Some(updatedLock));
    }

    /** Clears locked, lockId and lockInfo of the named row and returns the cleared copy. */
    method Unlock(project: string, stateToUnlock: State) returns (r: State)
      requires Valid()
      modifies this
      ensures Valid()
      ensures project in old(rows) ==> rows == old(rows)[project := Unlocked(old(rows)[project])]
      ensures project !in old(rows) ==> rows == old(rows)
      ensures r == Unlocked(stateToUnlock)
    {
      if project in rows {
        var row := rows[project];
        rows := rows[project := row.(locked := false, lockId := None, lockInfo := None)];
      }
      r := stateToUnlock.(locked := false, lockId := None, lockInfo := None);
    }
  }
}
