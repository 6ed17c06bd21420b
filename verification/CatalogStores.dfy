// The two catalog stores as objects: tables updated in place, one statement at
// a time. Each method does to its fields what the statement does to the tables.
module CatalogStores {
  import opened Wrappers
  import opened Avu
  import opened Names
  import opened CatalogTables

  /** Postgres never leaves its constraints, whatever it is asked. */
  lemma PostgresKeepsConstraints(t: Tables, c: Call)
    requires Constraints(t)
    ensures Constraints(Postgres(t, c).0)
  {
    BackendsAgree(t, c);
    if !Legal(t, c) {
      var u := Postgres(t, c).0;
      forall s | s in u.snapshots ensures References(u, s) { assert References(t, s); }
      forall s | s in u.pending ensures PendingReferences(u, s) { assert PendingReferences(t, s); }
    }
  }

  class PostgresCatalogStore {
    var projects: map<string, Project>
    var snapshots: map<nat, Snapshot>
    var pendingPushes: map<nat, PendingPush>
    var nextId: nat

    function Tables(): Tables
      reads this
    {
      CatalogTables.Tables.Tables(projects, snapshots, pendingPushes, nextId)
    }

    /** What the schema declares; rows are found under their own key. */
    ghost predicate Valid()
      reads this
    {
      Constraints(Tables()) && Keyed(pendingPushes)
    }

    constructor ()
      ensures Valid() && Tables() == CatalogTables.Tables.Tables(map[], map[], map[], 1)
    {
      projects, snapshots, pendingPushes, nextId := map[], map[], map[], 1;
    }

    method RegisterProject(id: string, irodsPath: string, zone: string, ducklakePath: Option<string>, createdBy: string)
      returns (reply: Reply)
      requires Valid()
      modifies this
      ensures Valid()
      ensures (Tables(), reply) == Postgres(old(Tables()), CatalogTables.Call.RegisterProject(id, irodsPath, zone, ducklakePath, createdBy))
    {
      PostgresKeepsConstraints(Tables(), CatalogTables.Call.RegisterProject(id, irodsPath, zone, ducklakePath, createdBy));
      if id in projects || exists p :: p in projects && projects[p].irodsPath == irodsPath {
        return UniqueViolation;
      }
      var row := Project(irodsPath, zone, LakePath(irodsPath, ducklakePath), createdBy);
      projects := projects[id := row];
      reply := ProjectRow(id, row);
    }

    method CreateSnapshot(project: string, actor: string, parent: Option<nat>, note: Option<string>, parquetFile: string, now: int)
      returns (reply: Reply)
      requires Valid()
      modifies this
      ensures Valid()
      ensures (Tables(), reply) == Postgres(old(Tables()), CatalogTables.Call.CreateSnapshot(project, actor, parent, note, parquetFile, now))
    {
      PostgresKeepsConstraints(Tables(), CatalogTables.Call.CreateSnapshot(project, actor, parent, note, parquetFile, now));
      var sid := nextId;
      nextId := nextId + 1;
      // Foreign keys are checked once the row is in, so it may name itself.
      if project !in projects || (parent.Some? && parent.value !in snapshots && parent.value != sid) {
        return ForeignKeyViolation;
      }
      var row := Snapshot(project, now, actor, parent, note, parquetFile);
      snapshots := snapshots[sid := row];
      reply := SnapshotRow(sid, row);
    }

    method UpdateSnapshotParquetFile(sid: nat, parquetFile: string) returns (reply: Reply)
      requires Valid()
      modifies this
      ensures Valid()
      ensures (Tables(), reply) == Postgres(old(Tables()), UpdateParquetFile(sid, parquetFile))
    {
      PostgresKeepsConstraints(Tables(), UpdateParquetFile(sid, parquetFile));
      if sid !in snapshots {
        return NotFound;
      }
      snapshots := snapshots[sid := snapshots[sid].(parquetFile := parquetFile)];
      reply := SnapshotRow(sid, snapshots[sid]);
    }

    method DeleteSnapshot(sid: nat) returns (reply: Reply)
      requires Valid()
      modifies this
      ensures Valid()
      ensures (Tables(), reply) == Postgres(old(Tables()), CatalogTables.Call.DeleteSnapshot(sid))
    {
      PostgresKeepsConstraints(Tables(), CatalogTables.Call.DeleteSnapshot(sid));
      if exists s :: s in snapshots && s != sid && snapshots[s].parent == Some(sid) {
        return ForeignKeyViolation;
      }
      snapshots := snapshots - {sid};
      pendingPushes := pendingPushes - {sid};
      reply := Done;
    }

    method InsertPendingPush(sid: nat, localPath: string, irodsTarget: string, now: int) returns (reply: Reply)
      requires Valid()
      modifies this
      ensures Valid()
      ensures (Tables(), reply) == Postgres(old(Tables()), InsertPending(sid, localPath, irodsTarget, now))
    {
      PostgresKeepsConstraints(Tables(), InsertPending(sid, localPath, irodsTarget, now));
      if sid in pendingPushes {
        return PendingRow(pendingPushes[sid]);
      }
      if sid !in snapshots {
        return ForeignKeyViolation;
      }
      pendingPushes := pendingPushes[sid := PendingPush(sid, localPath, irodsTarget, 0, None, now)];
      reply := PendingRow(pendingPushes[sid]);
    }

    method DeletePendingPush(sid: nat)
      requires Valid()
      modifies this
      ensures Valid()
      ensures Tables() == Postgres(old(Tables()), DeletePending(sid)).0
    {
      PostgresKeepsConstraints(Tables(), DeletePending(sid));
      pendingPushes := pendingPushes - {sid};
    }

    method BumpPendingPushAttempt(sid: nat, error: string) returns (reply: Reply)
      requires Valid()
      modifies this
      ensures Valid()
      ensures (Tables(), reply) == Postgres(old(Tables()), BumpPending(sid, error))
    {
      PostgresKeepsConstraints(Tables(), BumpPending(sid, error));
      if sid !in pendingPushes {
        return NotFound;
      }
      var row := pendingPushes[sid];
      pendingPushes := pendingPushes[sid := row.(attempts := row.attempts + 1, lastError := Some(Truncate(error)))];
      reply := PendingRow(pendingPushes[sid]);
    }
  }

  /** One DuckDB file: no foreign keys, no cascade. */
  class DuckDBCatalogStore {
    var projects: map<string, Project>
    var snapshots: map<nat, Snapshot>
    var pendingPushes: map<nat, PendingPush>
    var nextId: nat

    function Tables(): Tables
      reads this
    {
      CatalogTables.Tables.Tables(projects, snapshots, pendingPushes, nextId)
    }

    constructor ()
      ensures Tables() == CatalogTables.Tables.Tables(map[], map[], map[], 1)
    {
      projects, snapshots, pendingPushes, nextId := map[], map[], map[], 1;
    }

    method RegisterProject(id: string, irodsPath: string, zone: string, ducklakePath: Option<string>, createdBy: string)
      returns (reply: Reply)
      modifies this
      ensures (Tables(), reply) == DuckDB(old(Tables()), CatalogTables.Call.RegisterProject(id, irodsPath, zone, ducklakePath, createdBy))
    {
      if id in projects || exists p :: p in projects && projects[p].irodsPath == irodsPath {
        return UniqueViolation;
      }
      var row := Project(irodsPath, zone, LakePath(irodsPath, ducklakePath), createdBy);
      projects := projects[id := row];
      reply := ProjectRow(id, row);
    }

    method CreateSnapshot(project: string, actor: string, parent: Option<nat>, note: Option<string>, parquetFile: string, now: int)
      returns (reply: Reply)
      modifies this
      ensures (Tables(), reply) == DuckDB(old(Tables()), CatalogTables.Call.CreateSnapshot(project, actor, parent, note, parquetFile, now))
    {
      var row := Snapshot(project, now, actor, parent, note, parquetFile);
      reply := SnapshotRow(nextId, row);
      snapshots := snapshots[nextId := row];
      nextId := nextId + 1;
    }

    method UpdateSnapshotParquetFile(sid: nat, parquetFile: string) returns (reply: Reply)
      modifies this
      ensures (Tables(), reply) == DuckDB(old(Tables()), UpdateParquetFile(sid, parquetFile))
    {
      if sid !in snapshots {
        return NotFound;
      }
      snapshots := snapshots[sid := snapshots[sid].(parquetFile := parquetFile)];
      reply := SnapshotRow(sid, snapshots[sid]);
    }

    /** Two statements; `between` is what a crash after the first one leaves. */
    method DeleteSnapshot(sid: nat) returns (reply: Reply, ghost between: CatalogTables.Tables)
      modifies this
      ensures (Tables(), reply) == DuckDB(old(Tables()), CatalogTables.Call.DeleteSnapshot(sid))
      ensures DuckDBStates(old(Tables()), CatalogTables.Call.DeleteSnapshot(sid)) == [between, Tables()]
    {
      pendingPushes := pendingPushes - {sid};
      between := Tables();
      snapshots := snapshots - {sid};
      reply := Done;
    }

    method InsertPendingPush(sid: nat, localPath: string, irodsTarget: string, now: int) returns (reply: Reply)
      modifies this
      ensures (Tables(), reply) == DuckDB(old(Tables()), InsertPending(sid, localPath, irodsTarget, now))
    {
      if sid !in pendingPushes {
        pendingPushes := pendingPushes[sid := PendingPush(sid, localPath, irodsTarget, 0, None, now)];
      }
      reply := PendingRow(pendingPushes[sid]);
    }

    method DeletePendingPush(sid: nat)
      modifies this
      ensures Tables() == DuckDB(old(Tables()), DeletePending(sid)).0
    {
      pendingPushes := pendingPushes - {sid};
    }

    method BumpPendingPushAttempt(sid: nat, error: string) returns (reply: Reply)
      modifies this
      ensures (Tables(), reply) == DuckDB(old(Tables()), BumpPending(sid, error))
    {
      if sid !in pendingPushes {
        return NotFound;
      }
      var row := pendingPushes[sid];
      pendingPushes := pendingPushes[sid := row.(attempts := row.attempts + 1, lastError := Some(Truncate(error)))];
      reply := PendingRow(pendingPushes[sid]);
    }
  }
}
