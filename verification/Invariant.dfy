// The inductive invariant of the write protocol: every step of every
// interleaving keeps it.
module Invariant {
  import opened Wrappers
  import opened Avu
  import opened Names
  import opened Storage
  import opened WriteOrder
  import opened CatalogTables
  import opened Protocol

  // ---------------------------------------------------------------- the tables

  /** A parent is an older, settled snapshot of the same project. */
  ghost predicate ParentOK(t: Tables, projectId: string, parent: nat, child: nat) {
    && parent in t.snapshots
    && parent < child
    && t.snapshots[parent].project == projectId
    && t.snapshots[parent].parquetFile != PENDING
  }

  ghost predicate RowOK(st: Store, row: PendingPush) {
    && row.snapshotId in st.entries
    && st.entries[row.snapshotId].session
    && BaseName(row.localPath) == SnapshotFile(row.snapshotId)
    && row.irodsTarget == TargetOf(st.entries[row.snapshotId].project, row.snapshotId)
  }

  ghost predicate SnapshotOK(st: Store, s: nat)
    requires s in st.tables.snapshots
  {
    var row := st.tables.snapshots[s];
    && s in st.entries
    && row.project == st.entries[s].projectId
    && (row.parquetFile == PENDING || row.parquetFile == FAILED || row.parquetFile == SnapshotFile(s))
    && (row.parquetFile == SnapshotFile(s) ==> s in st.named)
    && (row.parquetFile == FAILED ==> st.entries[s].session)
    && (row.parent.Some? ==> ParentOK(st.tables, row.project, row.parent.value, s))
  }

  ghost predicate EntryOK(st: Store, s: nat)
    requires s in st.entries
  {
    && s < st.tables.nextId
    && st.entries[s].projectId in st.tables.projects
    && st.tables.projects[st.entries[s].projectId] == st.entries[s].project
    && (st.entries[s].session ==> s in st.tables.snapshots)
  }

  ghost predicate TablesOK(st: Store) {
    && Constraints(st.tables)
    && (forall s {:trigger EntryOK(st, s)} | s in st.entries :: EntryOK(st, s))
    && (forall s {:trigger SnapshotOK(st, s)} | s in st.tables.snapshots :: SnapshotOK(st, s))
    && (forall s {:trigger RowOK(st, st.tables.pending[s])} | s in st.tables.pending :: RowOK(st, st.tables.pending[s]))
  }

  // ----------------------------------------------------------------- the files

  ghost predicate ObjectExact(st: Store, s: nat) {
    && s in st.entries
    && s in st.written
    && TargetOf(st.entries[s].project, s) in st.objects
    && st.objects[TargetOf(st.entries[s].project, s)] == Parquet(st.written[s])
  }

  /** Exactness holds in dependable environments only: elsewhere an overlap may damage objects. */
  ghost predicate Exact(env: Env, st: Store, s: nat) {
    Dependable(env) ==> ObjectExact(st, s)
  }

  ghost predicate CachedOK(env: Env, st: Store, k: Key, s: nat)
    requires k in st.caches
  {
    BaseName(k.path) == SnapshotFile(s) ==>
      s in st.written && (Dependable(env) ==> st.caches[k] == Parquet(st.written[s]))
  }

  ghost predicate ObjectOK(env: Env, st: Store, target: string, s: nat)
    requires target in st.objects
  {
    BaseName(target) == SnapshotFile(s) ==>
      && s in st.written
      && s in st.entries
      && st.entries[s].session
      && (env.atomicPut ==> st.objects[target] == Parquet(st.written[s]))
  }

  ghost predicate WrittenOK(st: Store, s: nat)
    requires s in st.written && s in st.entries
  {
    FileOf(st.written[s], st.entries[s].changes)
  }

  ghost predicate FilesOK(env: Env, st: Store) {
    && (forall s | s in st.written :: s in st.entries)
    && (forall s {:trigger WrittenOK(st, s)} | s in st.written :: WrittenOK(st, s))
    && (forall k, s | k in st.caches :: CachedOK(env, st, k, s))
    && (forall o, s | o in st.objects :: ObjectOK(env, st, o, s))
  }

  /** Commit-point durability of one id. */
  ghost predicate DurableAt(env: Env, st: Store, s: nat) {
    && s in st.written
    && s in st.entries
    && (st.entries[s].session ==> Exact(env, st, s))
    && (env.exclusive || !st.entries[s].session ==>
          s in st.tables.snapshots && st.tables.snapshots[s].parquetFile == SnapshotFile(s))
  }

  /** Durability of every id that was ever committed. */
  ghost predicate DurableOK(env: Env, st: Store) {
    forall s {:trigger DurableAt(env, st, s)} | s in st.named :: DurableAt(env, st, s)
  }

  ghost predicate StoreOK(env: Env, st: Store) {
    TablesOK(st) && FilesOK(env, st) && DurableOK(env, st)
  }

  // ---------------------------------------------------------------- the actors

  ghost predicate Owns(env: Env, st: Store, x: Writer, s: nat) {
    && s in st.entries
    && s in st.tables.snapshots
    && st.entries[s] == Entry(x.projectId, x.project, Stamp(x.projectId, s, x.changes), x.session)
    && ((env.exclusive && !x.stage.Committed?) || !x.session ==> st.tables.snapshots[s].parquetFile == PENDING)
  }

  ghost predicate WriterOK(env: Env, st: Store, x: Writer) {
    && x.projectId in st.tables.projects
    && x.project == st.tables.projects[x.projectId]
    && match x.stage
       case Begin => true
       case HasParent(p) => p.Some? ==> ParentOK(st.tables, x.projectId, p.value, st.tables.nextId)
       case Allocated(s) => Owns(env, st, x, s) && s !in st.written
       case Logged(s) => Owns(env, st, x, s) && s !in st.written && x.session
       case Wrote(s) => Owns(env, st, x, s) && s in st.written
       case Uploaded(s) => Owns(env, st, x, s) && s in st.written && x.session
       case Verified(s) => Owns(env, st, x, s) && s in st.written && x.session && Exact(env, st, s)
       case Committed(s) => Owns(env, st, x, s) && x.session && s in st.named
       case RollingBack(s) => Owns(env, st, x, s) && s !in st.written && !x.session
  }

  ghost predicate RecovererOK(env: Env, st: Store, r: Recoverer) {
    && (forall i | 0 <= i < |r.rows| :: RowOK(st, r.rows[i]))
    && (MidRow(r) ==>
          var s := r.rows[0].snapshotId;
          && s in st.tables.snapshots
          && (r.stage.Verifying? || r.stage.Flipping? ==> s in st.written)
          && (r.stage.Flipping? ==> Exact(env, st, s))
          && (env.exclusive && !r.stage.Dropping? ==> st.tables.snapshots[s].parquetFile == PENDING)
          && (r.stage.Dropping? ==> st.tables.snapshots[s].parquetFile != PENDING))
  }

  ghost predicate WritersApart(x: Writer, y: Writer) {
    HasSid(x) && HasSid(y) ==> x.stage.sid != y.stage.sid
  }

  ghost predicate Apart(x: Writer, r: Recoverer) {
    HasSid(x) && MidRow(r) ==> x.stage.sid != r.rows[0].snapshotId
  }

  ghost predicate RowsApart(r: Recoverer, r': Recoverer) {
    MidRow(r) && MidRow(r') ==> r.rows[0].snapshotId != r'.rows[0].snapshotId
  }

  /** No two actors work on the same id; recoverers only if recovery is exclusive. */
  ghost predicate Separate(env: Env, writers: map<nat, Writer>, recoverers: map<nat, Recoverer>) {
    && (forall a, b | a in writers && b in writers && a != b :: WritersApart(writers[a], writers[b]))
    && (env.exclusive ==> forall a, b | a in writers && b in recoverers :: Apart(writers[a], recoverers[b]))
    && (env.exclusive ==> forall a, b | a in recoverers && b in recoverers && a != b :: RowsApart(recoverers[a], recoverers[b]))
  }

  ghost predicate Inv(env: Env, w: World) {
    && StoreOK(env, w.store)
    && (forall k {:trigger WriterOK(env, w.store, w.writers[k])} | k in w.writers :: WriterOK(env, w.store, w.writers[k]))
    && (forall k {:trigger RecovererOK(env, w.store, w.recoverers[k])} | k in w.recoverers :: RecovererOK(env, w.store, w.recoverers[k]))
    && Separate(env, w.writers, w.recoverers)
  }

  // -------------------------------------------------------------------- frames

  ghost predicate ProjectsGrow(t: Tables, t': Tables) {
    && (forall p | p in t.projects :: p in t'.projects && t'.projects[p] == t.projects[p])
    && t.nextId <= t'.nextId
  }

  ghost predicate RowsEvolve(t: Tables, t': Tables, s0: nat) {
    && (forall s | s in t.snapshots && s != s0 :: s in t'.snapshots && t'.snapshots[s] == t.snapshots[s])
    && (forall s | s in t.snapshots && t.snapshots[s].parquetFile != PENDING ::
          && s in t'.snapshots
          && t'.snapshots[s].parquetFile != PENDING
          && t'.snapshots[s].project == t.snapshots[s].project)
  }

  ghost predicate HistoryGrows(st: Store, st': Store, s0: nat) {
    && (forall s | s in st.entries :: s in st'.entries && st'.entries[s] == st.entries[s])
    && (forall s | s in st.written :: s in st'.written && st'.written[s] == st.written[s])
    && (forall s | s in st'.written && s != s0 :: s in st.written)
    && st.named <= st'.named
  }

  ghost predicate ObjectsKept(env: Env, st: Store, st': Store, s0: nat) {
    forall s | s != s0 || (env.atomicPut && !env.exclusive) :: ObjectExact(st, s) ==> ObjectExact(st', s)
  }

  /** What a step working on id s0 does to the store, as every other actor sees it. */
  ghost predicate Evolves(env: Env, st: Store, st': Store, s0: nat) {
    && ProjectsGrow(st.tables, st'.tables)
    && RowsEvolve(st.tables, st'.tables, s0)
    && HistoryGrows(st, st', s0)
    && ObjectsKept(env, st, st', s0)
  }

  /** Between overlapping actors: what one does to the id another works on. */
  ghost predicate Shares(st: Store, st': Store, s0: nat) {
    && (s0 in st.tables.snapshots ==> s0 in st'.tables.snapshots)
    && (s0 in st'.written ==> s0 in st.written)
  }

  lemma WriterUndisturbed(env: Env, st: Store, st': Store, s0: nat, x: Writer)
    requires WriterOK(env, st, x) && Evolves(env, st, st', s0)
    requires HasSid(x) && x.stage.sid == s0 ==> !env.exclusive && x.session && Shares(st, st', s0)
    ensures WriterOK(env, st', x)
  {
  }

  lemma RecovererUndisturbed(env: Env, st: Store, st': Store, s0: nat, r: Recoverer)
    requires RecovererOK(env, st, r) && Evolves(env, st, st', s0)
    requires MidRow(r) && r.rows[0].snapshotId == s0 ==> !env.exclusive && s0 in st'.tables.snapshots
    ensures RecovererOK(env, st', r)
  {
    forall i | 0 <= i < |r.rows| ensures RowOK(st', r.rows[i]) {
      assert RowOK(st, r.rows[i]);
    }
  }
}
