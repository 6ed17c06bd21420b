// What each statement, file operation and upload does to a store that
// satisfies the invariant, whoever performs it.
module StoreSteps {
  import opened Wrappers
  import opened Avu
  import opened Names
  import opened Storage
  import opened WriteOrder
  import opened CatalogTables
  import opened Protocol
  import opened Invariant

  /** The invariant survives, and other ids are left as they were. */
  ghost predicate Sound(env: Env, st: Store, st': Store, s0: nat) {
    StoreOK(env, st') && Evolves(env, st, st', s0)
  }

  lemma Unchanged(env: Env, st: Store, s0: nat)
    ensures Evolves(env, st, st, s0)
  {
  }

  /** Statements that touch neither caches nor objects. */
  lemma FilesFrame(env: Env, st: Store, st': Store)
    requires FilesOK(env, st)
    requires st'.caches == st.caches && st'.objects == st.objects && st'.written == st.written
    requires forall s | s in st.entries :: s in st'.entries && st'.entries[s] == st.entries[s]
    ensures FilesOK(env, st')
  {
    forall s | s in st'.written ensures WrittenOK(st', s) {
      assert WrittenOK(st, s);
    }
    forall o, s | o in st'.objects ensures ObjectOK(env, st', o, s) {
      assert ObjectOK(env, st, o, s);
    }
    forall k, s | k in st'.caches ensures CachedOK(env, st', k, s) {
      assert CachedOK(env, st, k, s);
    }
  }

  lemma ExactFrame(st: Store, st': Store)
    requires st'.objects == st.objects
    requires forall s | s in st.entries :: s in st'.entries && st'.entries[s] == st.entries[s]
    requires forall s | s in st.written :: s in st'.written && st'.written[s] == st.written[s]
    ensures forall s :: ObjectExact(st, s) ==> ObjectExact(st', s)
  {
  }

  lemma DurableFrame(env: Env, st: Store, st': Store)
    requires DurableOK(env, st) && st'.named == st.named
    requires forall s | s in st.entries :: s in st'.entries && st'.entries[s] == st.entries[s]
    requires forall s | s in st.written :: s in st'.written
    requires forall s | s in st.named && s in st.tables.snapshots ::
               s in st'.tables.snapshots && st'.tables.snapshots[s] == st.tables.snapshots[s]
    requires forall s | s in st.named && ObjectExact(st, s) :: ObjectExact(st', s)
    ensures DurableOK(env, st')
  {
    forall s | s in st'.named ensures DurableAt(env, st', s) { assert DurableAt(env, st, s); }
  }

  /** A statement that leaves files and history alone. */
  lemma TablesOnly(env: Env, st: Store, st': Store, s0: nat)
    requires st'.objects == st.objects && st'.written == st.written && st.named <= st'.named
    requires forall s | s in st.entries :: s in st'.entries && st'.entries[s] == st.entries[s]
    requires ProjectsGrow(st.tables, st'.tables) && RowsEvolve(st.tables, st'.tables, s0)
    ensures Evolves(env, st, st', s0)
  {
    ExactFrame(st, st');
  }

  lemma SameRows(t: Tables, t': Tables, s0: nat)
    requires t'.snapshots == t.snapshots && t'.projects == t.projects && t'.nextId == t.nextId
    ensures ProjectsGrow(t, t') && RowsEvolve(t, t', s0)
  {
  }

  /** A row that stays as it is stays sound: its parent is still there and settled. */
  lemma SnapshotFrame(st: Store, st': Store, s: nat, s0: nat)
    requires s in st.tables.snapshots && SnapshotOK(st, s)
    requires s in st'.tables.snapshots && st'.tables.snapshots[s] == st.tables.snapshots[s]
    requires RowsEvolve(st.tables, st'.tables, s0) && st.named <= st'.named
    requires forall s | s in st.entries :: s in st'.entries && st'.entries[s] == st.entries[s]
    ensures SnapshotOK(st', s)
    ensures References(st.tables, s) && ProjectsGrow(st.tables, st'.tables) ==> References(st'.tables, s)
  {
  }

  ghost predicate Creates(st: Store, st': Store, entry: Entry, row: Snapshot) {
    var s := st.tables.nextId;
    && st' == st.(tables := st.tables.(snapshots := st.tables.snapshots[s := row], nextId := s + 1),
                  entries := st.entries[s := entry])
    && entry.projectId in st.tables.projects
    && st.tables.projects[entry.projectId] == entry.project
    && row.project == entry.projectId
    && row.parquetFile == PENDING
    && (row.parent.Some? ==> ParentOK(st.tables, row.project, row.parent.value, s))
  }

  lemma CreatedTables(st: Store, st': Store, entry: Entry, row: Snapshot)
    requires TablesOK(st) && Creates(st, st', entry, row)
    ensures TablesOK(st')
    ensures ProjectsGrow(st.tables, st'.tables) && RowsEvolve(st.tables, st'.tables, st.tables.nextId)
  {
    var n := st.tables.nextId;
    SnapshotFileInjective(n, n);
    forall s | s in st.entries ensures s < n { assert EntryOK(st, s); }
    forall s | s in st.tables.snapshots ensures s < n { assert References(st.tables, s); }
    assert RowsEvolve(st.tables, st'.tables, n);
    forall s | s in st'.tables.snapshots ensures SnapshotOK(st', s) && References(st'.tables, s) {
      if s != n {
        assert SnapshotOK(st, s) && References(st.tables, s);
        SnapshotFrame(st, st', s, n);
      }
    }
    forall s | s in st'.entries ensures EntryOK(st', s) {
      if s != n { assert EntryOK(st, s); }
    }
    forall s | s in st'.tables.pending ensures RowOK(st', st'.tables.pending[s]) && PendingReferences(st'.tables, s) {
      assert RowOK(st, st.tables.pending[s]) && PendingReferences(st.tables, s);
    }
  }

  lemma Created(env: Env, st: Store, st': Store, entry: Entry, row: Snapshot)
    requires StoreOK(env, st) && Creates(st, st', entry, row)
    ensures Sound(env, st, st', st.tables.nextId)
  {
    CreatedTables(st, st', entry, row);
    forall s | s in st.entries ensures s != st.tables.nextId { assert EntryOK(st, s); }
    forall s | s in st.tables.snapshots ensures s != st.tables.nextId { assert References(st.tables, s); }
    FilesFrame(env, st, st');
    ExactFrame(st, st');
    DurableFrame(env, st, st');
    TablesOnly(env, st, st', st.tables.nextId);
  }

  /** insert_pending_push of a row addressed as the writer addresses it. */
  lemma Queued(env: Env, st: Store, row: PendingPush)
    requires StoreOK(env, st) && RowOK(st, row)
    ensures Sound(env, st, st.(tables := st.tables.(pending := st.tables.pending[row.snapshotId := row])), row.snapshotId)
  {
    var st' := st.(tables := st.tables.(pending := st.tables.pending[row.snapshotId := row]));
    assert EntryOK(st, row.snapshotId);
    forall s | s in st.tables.pending
      ensures RowOK(st, st.tables.pending[s]) && PendingReferences(st.tables, s) {}
    PendingOnly(env, st, st', row.snapshotId);
  }

  /** A statement on the push queue alone. */
  lemma PendingOnly(env: Env, st: Store, st': Store, s0: nat)
    requires StoreOK(env, st)
    requires st' == st.(tables := st.tables.(pending := st'.tables.pending))
    requires forall s | s in st'.tables.pending ::
               s in st.tables.snapshots && st'.tables.pending[s].snapshotId == s && RowOK(st, st'.tables.pending[s])
    ensures Sound(env, st, st', s0)
  {
    PendingTables(st, st');
    FilesFrame(env, st, st');
    ExactFrame(st, st');
    DurableFrame(env, st, st');
    SameRows(st.tables, st'.tables, s0);
    TablesOnly(env, st, st', s0);
  }

  lemma PendingTables(st: Store, st': Store)
    requires TablesOK(st)
    requires st' == st.(tables := st.tables.(pending := st'.tables.pending))
    requires forall s | s in st'.tables.pending ::
               s in st.tables.snapshots && st'.tables.pending[s].snapshotId == s && RowOK(st, st'.tables.pending[s])
    ensures TablesOK(st')
  {
    SameRows(st.tables, st'.tables, 0);
    forall s | s in st'.tables.snapshots ensures SnapshotOK(st', s) && References(st'.tables, s) {
      assert SnapshotOK(st, s) && References(st.tables, s);
      SnapshotFrame(st, st', s, 0);
    }
    forall s | s in st'.entries ensures EntryOK(st', s) { assert EntryOK(st, s); }
    forall s | s in st'.tables.pending ensures RowOK(st', st'.tables.pending[s]) && PendingReferences(st'.tables, s) {}
  }

  lemma Dequeued(env: Env, st: Store, sid: nat)
    requires StoreOK(env, st)
    ensures Sound(env, st, Issue(st, DeletePending(sid)), sid)
  {
    forall s | s in st.tables.pending
      ensures RowOK(st, st.tables.pending[s]) && PendingReferences(st.tables, s) {}
    PendingOnly(env, st, Issue(st, DeletePending(sid)), sid);
  }

  lemma Bumped(env: Env, st: Store, sid: nat, error: string)
    requires StoreOK(env, st)
    ensures Sound(env, st, Issue(st, BumpPending(sid, error)), sid)
  {
    var st' := Issue(st, BumpPending(sid, error));
    forall s | s in st'.tables.pending
      ensures RowOK(st, st'.tables.pending[s]) && st'.tables.pending[s].snapshotId == s && s in st.tables.snapshots
    {
      assert RowOK(st, st.tables.pending[s]) && PendingReferences(st.tables, s);
    }
    PendingOnly(env, st, st', sid);
  }

  function Renamed(st: Store, sid: nat, file: string): Store
    requires sid in st.tables.snapshots
  {
    st.(tables := st.tables.(snapshots := st.tables.snapshots[sid := st.tables.snapshots[sid].(parquetFile := file)]))
  }

  /** A row leaves 'pending' for a sentinel or its own name. */
  lemma RenamedTables(st: Store, sid: nat, file: string, named: set<nat>)
    requires TablesOK(st) && sid in st.tables.snapshots && st.named <= named
    requires (file == SnapshotFile(sid) && sid in named) || (file == FAILED && sid in st.entries && st.entries[sid].session)
    ensures TablesOK(Renamed(st, sid, file).(named := named))
    ensures RowsEvolve(st.tables, Renamed(st, sid, file).tables, sid)
  {
    var st' := Renamed(st, sid, file).(named := named);
    SnapshotFileInjective(sid, sid);
    forall s | s in st'.tables.snapshots ensures SnapshotOK(st', s) && References(st'.tables, s) {
      assert SnapshotOK(st, s) && References(st.tables, s);
    }
    forall s | s in st'.entries ensures EntryOK(st', s) { assert EntryOK(st, s); }
    forall s | s in st'.tables.pending ensures RowOK(st', st'.tables.pending[s]) && PendingReferences(st'.tables, s) {
      assert RowOK(st, st.tables.pending[s]) && PendingReferences(st.tables, s);
    }
  }

  /** The commit point. */
  lemma Named(env: Env, st: Store, sid: nat)
    requires StoreOK(env, st) && sid in st.tables.snapshots && sid in st.written
    requires sid in st.entries && (st.entries[sid].session ==> Exact(env, st, sid))
    ensures Sound(env, st, Renamed(st, sid, SnapshotFile(sid)).(named := st.named + {sid}), sid)
  {
    var st' := Renamed(st, sid, SnapshotFile(sid)).(named := st.named + {sid});
    RenamedTables(st, sid, SnapshotFile(sid), st.named + {sid});
    FilesFrame(env, st, st');
    NamedDurable(env, st, sid);
    TablesOnly(env, st, st', sid);
  }

  lemma NamedDurable(env: Env, st: Store, sid: nat)
    requires DurableOK(env, st) && sid in st.tables.snapshots && sid in st.written
    requires sid in st.entries && (st.entries[sid].session ==> Exact(env, st, sid))
    ensures DurableOK(env, Renamed(st, sid, SnapshotFile(sid)).(named := st.named + {sid}))
  {
    var st' := Renamed(st, sid, SnapshotFile(sid)).(named := st.named + {sid});
    ExactFrame(st, st');
    forall s | s in st'.named ensures DurableAt(env, st', s) { assert s in st.named ==> DurableAt(env, st, s); }
  }

  lemma GivenUp(env: Env, st: Store, sid: nat)
    requires StoreOK(env, st) && sid in st.tables.snapshots && sid in st.entries && st.entries[sid].session
    requires env.exclusive ==> sid !in st.named
    ensures Sound(env, st, Renamed(st, sid, FAILED), sid)
  {
    var st' := Renamed(st, sid, FAILED);
    RenamedTables(st, sid, FAILED, st.named);
    FilesFrame(env, st, st');
    GivenUpDurable(env, st, sid);
    TablesOnly(env, st, st', sid);
  }

  lemma GivenUpDurable(env: Env, st: Store, sid: nat)
    requires DurableOK(env, st) && sid in st.tables.snapshots && sid in st.entries && st.entries[sid].session
    requires env.exclusive ==> sid !in st.named
    ensures DurableOK(env, Renamed(st, sid, FAILED))
  {
    var st' := Renamed(st, sid, FAILED);
    ExactFrame(st, st');
    forall s | s in st'.named ensures DurableAt(env, st', s) { assert DurableAt(env, st, s); }
  }

  /** Local-only roll-back: only a row that was never a parent goes. */
  lemma RolledBack(env: Env, st: Store, sid: nat)
    requires StoreOK(env, st) && sid in st.tables.snapshots && st.tables.snapshots[sid].parquetFile == PENDING
    requires sid in st.entries && !st.entries[sid].session && sid !in st.named
    ensures !HasChildren(st.tables, sid)
    ensures Sound(env, st, Issue(st, DeleteSnapshot(sid)), sid)
  {
    var st' := Issue(st, DeleteSnapshot(sid));
    NeverAParent(st, sid);
    assert st' == st.(tables := st.tables.(snapshots := st.tables.snapshots - {sid})) by {
      assert st.tables.pending - {sid} == st.tables.pending;
    }
    RolledBackTables(st, st', sid);
    FilesFrame(env, st, st');
    ExactFrame(st, st');
    DurableFrame(env, st, st');
    TablesOnly(env, st, st', sid);
  }

  lemma NeverAParent(st: Store, sid: nat)
    requires TablesOK(st) && sid in st.tables.snapshots && st.tables.snapshots[sid].parquetFile == PENDING
    requires sid in st.entries && !st.entries[sid].session
    ensures forall s | s in st.tables.snapshots :: st.tables.snapshots[s].parent != Some(sid)
    ensures sid !in st.tables.pending
  {
    forall s | s in st.tables.snapshots ensures st.tables.snapshots[s].parent != Some(sid) {
      assert SnapshotOK(st, s);
    }
    forall s | s in st.tables.pending ensures s != sid {
      assert RowOK(st, st.tables.pending[s]) && PendingReferences(st.tables, s);
    }
  }

  lemma RolledBackTables(st: Store, st': Store, sid: nat)
    requires TablesOK(st) && sid in st.tables.snapshots && st.tables.snapshots[sid].parquetFile == PENDING
    requires sid in st.entries && !st.entries[sid].session && sid !in st.tables.pending
    requires st' == st.(tables := st.tables.(snapshots := st.tables.snapshots - {sid}))
    ensures TablesOK(st') && RowsEvolve(st.tables, st'.tables, sid)
  {
    RowsLeft(st.tables, st'.tables, sid);
    forall s | s in st'.tables.snapshots ensures SnapshotOK(st', s) && References(st'.tables, s) {
      assert SnapshotOK(st, s) && References(st.tables, s);
      SnapshotFrame(st, st', s, sid);
    }
    forall s | s in st'.entries ensures EntryOK(st', s) { assert EntryOK(st, s); }
    forall s | s in st'.tables.pending ensures RowOK(st', st'.tables.pending[s]) && PendingReferences(st'.tables, s) {
      assert RowOK(st, st.tables.pending[s]) && PendingReferences(st.tables, s);
    }
  }

  lemma RowsLeft(t: Tables, t': Tables, sid: nat)
    requires sid in t.snapshots && t.snapshots[sid].parquetFile == PENDING && t'.snapshots == t.snapshots - {sid}
    ensures RowsEvolve(t, t', sid)
  {
  }

  /** LakeStore.write_changes, the only writer of a snapshot's file. */
  lemma FileWritten(env: Env, st: Store, sid: nat, key: Key, rows: seq<Change>)
    requires StoreOK(env, st) && sid in st.entries && sid !in st.written
    requires BaseName(key.path) == SnapshotFile(sid) && FileOf(rows, st.entries[sid].changes)
    ensures Sound(env, st, st.(caches := st.caches[key := Parquet(rows)], written := st.written[sid := rows]), sid)
  {
    var st' := st.(caches := st.caches[key := Parquet(rows)], written := st.written[sid := rows]);
    FileWrittenFiles(env, st, sid, key, rows);
    TablesFrame(st, st');
    ExactFrame(st, st');
    DurableFrame(env, st, st');
    SameRows(st.tables, st'.tables, sid);
  }

  lemma FileWrittenFiles(env: Env, st: Store, sid: nat, key: Key, rows: seq<Change>)
    requires FilesOK(env, st) && sid in st.entries && sid !in st.written
    requires BaseName(key.path) == SnapshotFile(sid) && FileOf(rows, st.entries[sid].changes)
    ensures FilesOK(env, st.(caches := st.caches[key := Parquet(rows)], written := st.written[sid := rows]))
  {
    var st' := st.(caches := st.caches[key := Parquet(rows)], written := st.written[sid := rows]);
    forall s: nat ensures SnapshotFile(s) == SnapshotFile(sid) ==> s == sid { SnapshotFileInjective(s, sid); }
    forall s | s in st'.written ensures WrittenOK(st', s) { assert s != sid ==> WrittenOK(st, s); }
    forall o, s | o in st'.objects ensures ObjectOK(env, st', o, s) { assert ObjectOK(env, st, o, s); }
    forall k, s | k in st'.caches ensures CachedOK(env, st', k, s) {
      if k != key { assert CachedOK(env, st, k, s); }
    }
  }

  lemma TablesFrame(st: Store, st': Store)
    requires TablesOK(st) && st'.tables == st.tables && st'.entries == st.entries && st'.named == st.named
    ensures TablesOK(st')
  {
    forall s | s in st'.tables.snapshots ensures SnapshotOK(st', s) { assert SnapshotOK(st, s); }
    forall s | s in st'.entries ensures EntryOK(st', s) { assert EntryOK(st, s); }
    forall s | s in st'.tables.pending ensures RowOK(st', st'.tables.pending[s]) { assert RowOK(st, st.tables.pending[s]); }
  }

  /**
   * An upload to a snapshot's own target. Damage is harmless while the id is
   * not committed and nobody else relies on the object.
   */
  lemma ObjectStored(env: Env, st: Store, sid: nat, blob: Blob)
    requires StoreOK(env, st) && sid in st.entries && sid in st.written && st.entries[sid].session
    requires env.atomicPut ==> blob == Parquet(st.written[sid])
    requires env.exclusive && !env.atomicPut ==> sid !in st.named
    ensures Sound(env, st, st.(objects := st.objects[TargetOf(st.entries[sid].project, sid) := blob]), sid)
  {
    var target := TargetOf(st.entries[sid].project, sid);
    var st' := st.(objects := st.objects[target := blob]);
    TablesFrame(st, st');
    forall s: nat, p: Project ensures TargetOf(p, s) == target ==> s == sid {
      Addressing("", "", p.ducklakePath, s, "", "", st.entries[sid].project.ducklakePath, sid);
    }
    Addressing("", "", st.entries[sid].project.ducklakePath, sid, "", "", "", sid);
    forall s: nat ensures SnapshotFile(s) == SnapshotFile(sid) ==> s == sid { SnapshotFileInjective(s, sid); }
    forall o, s | o in st'.objects ensures ObjectOK(env, st', o, s) {
      if o != target { assert ObjectOK(env, st, o, s); }
    }
    forall s | s in st'.written ensures WrittenOK(st', s) { assert WrittenOK(st, s); }
    forall k, s | k in st'.caches ensures CachedOK(env, st', k, s) { assert CachedOK(env, st, k, s); }
    forall s | ObjectExact(st, s) && (s != sid || env.atomicPut) ensures ObjectExact(st', s) {
      assert s != sid ==> TargetOf(st.entries[s].project, s) != target;
    }
    forall s | s in st'.named ensures DurableAt(env, st', s) { assert DurableAt(env, st, s); }
  }

  /** push(), whoever calls it, on a local copy of the snapshot's file. */
  lemma Put(env: Env, st: Store, sid: nat, key: Key, stored: Option<Blob>, raised: bool)
    requires StoreOK(env, st) && sid in st.entries && sid in st.written && st.entries[sid].session
    requires BaseName(key.path) == SnapshotFile(sid) && PutMay(env, Lookup(st.caches, key), stored, raised)
    requires env.exclusive && !env.atomicPut ==> sid !in st.named
    ensures Sound(env, st, PutObject(st, TargetOf(st.entries[sid].project, sid), stored), sid)
  {
    if stored.Some? {
      assert key in st.caches ==> CachedOK(env, st, key, sid);
      ObjectStored(env, st, sid, stored.value);
    } else {
      Unchanged(env, st, sid);
    }
  }

  lemma CachesOnly(env: Env, st: Store, st': Store, s0: nat)
    requires StoreOK(env, st) && st' == st.(caches := st'.caches)
    requires forall k, s | k in st'.caches :: CachedOK(env, st', k, s)
    ensures Sound(env, st, st', s0)
  {
    TablesFrame(st, st');
    forall s | s in st'.written ensures WrittenOK(st', s) { assert WrittenOK(st, s); }
    forall o, s | o in st'.objects ensures ObjectOK(env, st', o, s) { assert ObjectOK(env, st, o, s); }
    ExactFrame(st, st');
    DurableFrame(env, st, st');
    SameRows(st.tables, st'.tables, s0);
    TablesOnly(env, st, st', s0);
  }

  lemma Evicted(env: Env, st: Store, host: nat, paths: set<string>, s0: nat)
    requires StoreOK(env, st)
    ensures Sound(env, st, st.(caches := EvictFrom(st.caches, host, paths)), s0)
  {
    var st' := st.(caches := EvictFrom(st.caches, host, paths));
    forall k, s | k in st'.caches ensures CachedOK(env, st', k, s) { assert CachedOK(env, st, k, s); }
    CachesOnly(env, st, st', s0);
  }

  /** A reader's pull: the object of a committed id is its writer's file. */
  lemma Pulled(env: Env, st: Store, key: Key, sid: nat, s0: nat)
    requires StoreOK(env, st) && sid in st.named && sid in st.entries
    requires TargetOf(st.entries[sid].project, sid) in st.objects && BaseName(key.path) == SnapshotFile(sid)
    ensures st.entries[sid].session
    ensures Sound(env, st, st.(caches := st.caches[key := st.objects[TargetOf(st.entries[sid].project, sid)]]), s0)
  {
    var target := TargetOf(st.entries[sid].project, sid);
    var st' := st.(caches := st.caches[key := st.objects[target]]);
    Addressing("", "", st.entries[sid].project.ducklakePath, sid, "", "", "", sid);
    assert ObjectOK(env, st, target, sid);
    assert DurableAt(env, st, sid);
    forall k, s | k in st'.caches ensures CachedOK(env, st', k, s) {
      SnapshotFileInjective(s, sid);
      if k != key { assert CachedOK(env, st, k, s); }
    }
    CachesOnly(env, st, st', s0);
  }

  lemma Registered(env: Env, st: Store, c: Call, s0: nat)
    requires StoreOK(env, st) && c.RegisterProject?
    ensures Sound(env, st, Issue(st, c), s0)
  {
    var st' := Issue(st, c);
    BackendsAgree(st.tables, c);
    RegisteredTables(st, c, s0);
    FilesFrame(env, st, st');
    ExactFrame(st, st');
    DurableFrame(env, st, st');
    TablesOnly(env, st, st', s0);
  }

  lemma RegisteredTables(st: Store, c: Call, s0: nat)
    requires TablesOK(st) && c.RegisterProject? && Constraints(Issue(st, c).tables)
    ensures TablesOK(Issue(st, c))
    ensures ProjectsGrow(st.tables, Issue(st, c).tables) && RowsEvolve(st.tables, Issue(st, c).tables, s0)
  {
    var st' := Issue(st, c);
    assert RowsEvolve(st.tables, st'.tables, s0);
    forall s | s in st'.tables.snapshots ensures SnapshotOK(st', s) {
      assert SnapshotOK(st, s);
      SnapshotFrame(st, st', s, s0);
    }
    forall s | s in st'.entries ensures EntryOK(st', s) { assert EntryOK(st, s); }
    forall s | s in st'.tables.pending ensures RowOK(st', st'.tables.pending[s]) { assert RowOK(st, st.tables.pending[s]); }
  }
}
