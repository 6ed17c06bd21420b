// The catalog as its callers see it: either store behind one surface. On the
// calls a caller may make, both answer as the constrained Postgres schema does.
module CatalogBase {
  import opened Wrappers
  import opened CatalogTables
  import opened CatalogStores

  lemma KeptByEither(t: Tables, c: Call)
    requires Constraints(t) && Keyed(t.pending) && Legal(t, c)
    ensures DuckDB(t, c) == Postgres(t, c)
    ensures Constraints(Postgres(t, c).0) && Keyed(Postgres(t, c).0.pending)
  {
    BackendsAgree(t, c);
  }

  datatype CatalogStore = OnPostgres(postgres: PostgresCatalogStore) | OnDuckDB(duckdb: DuckDBCatalogStore)
  {
    function Frame(): set<object> {
      match this
      case OnPostgres(postgres) => {postgres}
      case OnDuckDB(duckdb) => {duckdb}
    }

    function Tables(): Tables
      reads Frame()
    {
      match this
      case OnPostgres(postgres) => postgres.Tables()
      case OnDuckDB(duckdb) => duckdb.Tables()
    }

    ghost predicate Valid()
      reads Frame()
    {
      Constraints(Tables()) && Keyed(Tables().pending)
    }

    method RegisterProject(id: string, irodsPath: string, zone: string, ducklakePath: Option<string>, createdBy: string)
      returns (reply: Reply)
      requires Valid()
      modifies Frame()
      ensures Valid()
      ensures (Tables(), reply) == Postgres(old(Tables()), Call.RegisterProject(id, irodsPath, zone, ducklakePath, createdBy))
    {
      KeptByEither(Tables(), Call.RegisterProject(id, irodsPath, zone, ducklakePath, createdBy));
      match this
      case OnPostgres(postgres) => reply := postgres.RegisterProject(id, irodsPath, zone, ducklakePath, createdBy);
      case OnDuckDB(duckdb) => reply := duckdb.RegisterProject(id, irodsPath, zone, ducklakePath, createdBy);
    }

    method CreateSnapshot(project: string, actor: string, parent: Option<nat>, note: Option<string>, parquetFile: string, now: int)
      returns (reply: Reply)
      requires Valid() && Legal(Tables(), Call.CreateSnapshot(project, actor, parent, note, parquetFile, now))
      modifies Frame()
      ensures Valid()
      ensures (Tables(), reply) == Postgres(old(Tables()), Call.CreateSnapshot(project, actor, parent, note, parquetFile, now))
    {
      KeptByEither(Tables(), Call.CreateSnapshot(project, actor, parent, note, parquetFile, now));
      match this
      case OnPostgres(postgres) => reply := postgres.CreateSnapshot(project, actor, parent, note, parquetFile, now);
      case OnDuckDB(duckdb) => reply := duckdb.CreateSnapshot(project, actor, parent, note, parquetFile, now);
    }

    method UpdateSnapshotParquetFile(sid: nat, parquetFile: string) returns (reply: Reply)
      requires Valid()
      modifies Frame()
      ensures Valid()
      ensures (Tables(), reply) == Postgres(old(Tables()), UpdateParquetFile(sid, parquetFile))
    {
      KeptByEither(Tables(), UpdateParquetFile(sid, parquetFile));
      match this
      case OnPostgres(postgres) => reply := postgres.UpdateSnapshotParquetFile(sid, parquetFile);
      case OnDuckDB(duckdb) => reply := duckdb.UpdateSnapshotParquetFile(sid, parquetFile);
    }

    method DeleteSnapshot(sid: nat) returns (reply: Reply)
      requires Valid() && Legal(Tables(), Call.DeleteSnapshot(sid))
      modifies Frame()
      ensures Valid()
      ensures (Tables(), reply) == Postgres(old(Tables()), Call.DeleteSnapshot(sid))
    {
      KeptByEither(Tables(), Call.DeleteSnapshot(sid));
      match this
      case OnPostgres(postgres) => reply := postgres.DeleteSnapshot(sid);
      case OnDuckDB(duckdb) =>
        ghost var between;
        reply, between := duckdb.DeleteSnapshot(sid);
    }

    method InsertPendingPush(sid: nat, localPath: string, irodsTarget: string, now: int) returns (reply: Reply)
      requires Valid() && Legal(Tables(), InsertPending(sid, localPath, irodsTarget, now))
      modifies Frame()
      ensures Valid()
      ensures (Tables(), reply) == Postgres(old(Tables()), InsertPending(sid, localPath, irodsTarget, now))
    {
      KeptByEither(Tables(), InsertPending(sid, localPath, irodsTarget, now));
      match this
      case OnPostgres(postgres) => reply := postgres.InsertPendingPush(sid, localPath, irodsTarget, now);
      case OnDuckDB(duckdb) => reply := duckdb.InsertPendingPush(sid, localPath, irodsTarget, now);
    }

    method DeletePendingPush(sid: nat)
      requires Valid()
      modifies Frame()
      ensures Valid()
      ensures Tables() == Postgres(old(Tables()), DeletePending(sid)).0
    {
      KeptByEither(Tables(), DeletePending(sid));
      match this
      case OnPostgres(postgres) => postgres.DeletePendingPush(sid);
      case OnDuckDB(duckdb) => duckdb.DeletePendingPush(sid);
    }

    method BumpPendingPushAttempt(sid: nat, error: string) returns (reply: Reply)
      requires Valid()
      modifies Frame()
      ensures Valid()
      ensures (Tables(), reply) == Postgres(old(Tables()), BumpPending(sid, error))
    {
      KeptByEither(Tables(), BumpPending(sid, error));
      match this
      case OnPostgres(postgres) => reply := postgres.BumpPendingPushAttempt(sid, error);
      case OnDuckDB(duckdb) => reply := duckdb.BumpPendingPushAttempt(sid, error);
    }
  }

  /** A store nobody wrote to holds the tables it held. */
  twostate lemma Unmoved(catalog: CatalogStore)
    requires catalog.OnPostgres? ==> unchanged(catalog.postgres)
    requires catalog.OnDuckDB? ==> unchanged(catalog.duckdb)
    ensures catalog.Tables() == old(catalog.Tables())
  {
    match catalog {
      case OnPostgres(postgres) => assert postgres.Tables() == old(postgres.Tables());
      case OnDuckDB(duckdb) => assert duckdb.Tables() == old(duckdb.Tables());
    }
  }
}