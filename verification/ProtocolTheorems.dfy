// What the write protocol guarantees over every run: durability of the commit
// point, the life of a snapshot row, agreement of the two catalog backends, and
// the parent forest.
module ProtocolTheorems {
  import opened Wrappers
  import opened Avu
  import opened Names
  import opened Storage
  import opened WriteOrder
  import opened CatalogTables
  import opened Protocol
  import opened Invariant
  import opened StoreSteps
  import opened WriterSteps
  import opened RecovererSteps
  import opened Safety

  // ------------------------------------------------------------- history only grows

  ghost predicate Grows(st: Store, st': Store) {
    && (forall p | p in st.tables.projects :: p in st'.tables.projects && st'.tables.projects[p] == st.tables.projects[p])
    && (forall s | s in st.entries :: s in st'.entries && st'.entries[s] == st.entries[s])
    && (forall s | s in st.written :: s in st'.written && st'.written[s] == st.written[s])
    && st.named <= st'.named
  }

  lemma StepGrows(env: Env, w: World, l: Label)
    requires Inv(env, w) && Enabled(env, w, l)
    ensures Grows(w.store, Step(env, w, l).store)
  {
    match l
    case Writes(id, a) =>
      assert WriterOK(env, w.store, w.writers[id]);
      WriterKeeps(env, w.store, w.writers[id], a);
    case Recovers(id, a) =>
      if !a.Stop? {
        assert RecovererOK(env, w.store, w.recoverers[id]);
        RecovererKeeps(env, w.store, w.recoverers[id], a);
      }
    case Register(c) => Registered(env, w.store, c, 0);
    case _ =>
  }

  lemma GrowsAt(env: Env, ws: seq<World>, ls: seq<Label>, k: nat)
    requires Run(env, ws, ls) && Init(ws[0]) && k < |ls|
    ensures Grows(ws[k].store, ws[k + 1].store)
  {
    Reachable(env, ws, ls, k);
    RunStep(env, ws, ls, k);
    StepGrows(env, ws[k], ls[k]);
  }

  lemma GrowsTwice(st: Store, mid: Store, st': Store)
    requires Grows(st, mid) && Grows(mid, st')
    ensures Grows(st, st')
  {
  }

  lemma {:induction false} RunGrows(env: Env, ws: seq<World>, ls: seq<Label>, i: nat, j: nat)
    requires Run(env, ws, ls) && Init(ws[0]) && i <= j <= |ls|
    ensures Grows(ws[i].store, ws[j].store)
    decreases j
  {
    if i < j {
      RunGrows(env, ws, ls, i, j - 1);
      GrowsAt(env, ws, ls, j - 1);
      GrowsTwice(ws[i].store, ws[j - 1].store, ws[j].store);
    }
  }

  // ------------------------------------------------------------------- durability

  /**
   * Commit-point durability. Once a snapshot of a session carries its real
   * name, then from that moment on, whatever anybody does, iRODS holds in the
   * project's own collection (dir is the ducklake path without slashes at its
   * end), as snapshot_<id>.parquet, exactly the stamped batch that
   * record_changes was given, and the object never changes again.
   */
  lemma CommittedIsDurable(env: Env, ws: seq<World>, ls: seq<Label>, i: nat, j: nat, s: nat) returns (dir: string)
    requires Dependable(env)
    requires Run(env, ws, ls) && Init(ws[0]) && i <= j <= |ls|
    requires s in ws[i].store.tables.snapshots && s in ws[i].store.entries && ws[i].store.entries[s].session
    requires ws[i].store.tables.snapshots[s].parquetFile == SnapshotFile(s)
    ensures IsStripped(ws[i].store.entries[s].project.ducklakePath, dir)
    ensures var entry := ws[i].store.entries[s];
            var target := dir + "/" + ("snapshot_" + Decimal(s) + ".parquet");
            && ws[i].store.tables.snapshots[s].project == entry.projectId
            && entry.projectId in ws[i].store.tables.projects
            && ws[i].store.tables.projects[entry.projectId] == entry.project
            && target in ws[j].store.objects
            && ws[j].store.objects[target].Parquet?
            && FileOf(ws[j].store.objects[target].rows, entry.changes)
            && target in ws[i].store.objects
            && ws[j].store.objects[target] == ws[i].store.objects[target]
  {
    var st, st' := ws[i].store, ws[j].store;
    dir := StripSlashes(st.entries[s].project.ducklakePath);
    StripSlashesMeans(st.entries[s].project.ducklakePath, dir);
    Reachable(env, ws, ls, i);
    Reachable(env, ws, ls, j);
    RunGrows(env, ws, ls, i, j);
    assert SnapshotOK(st, s) && EntryOK(st, s);
    assert DurableAt(env, st, s) && DurableAt(env, st', s);
    assert WrittenOK(st, s);
  }

  /**
   * Addressing. Every queued row names its snapshot's file as the last component
   * of both paths, its target lies directly in its project's own collection,
   * where readers of the project pull from, and no two rows share a target or a
   * local path.
   */
  lemma QueueIsAddressed(env: Env, ws: seq<World>, ls: seq<Label>, i: nat, s: nat, u: nat) returns (dir: string)
    requires Run(env, ws, ls) && Init(ws[0]) && i <= |ls|
    requires s in ws[i].store.tables.pending && u in ws[i].store.tables.pending
    ensures var t := ws[i].store.tables;
            && s in t.snapshots && t.snapshots[s].project in t.projects
            && IsStripped(t.projects[t.snapshots[s].project].ducklakePath, dir)
            && t.pending[s].irodsTarget == dir + "/" + ("snapshot_" + Decimal(s) + ".parquet")
            && BaseName(t.pending[s].localPath) == BaseName(t.pending[s].irodsTarget) == "snapshot_" + Decimal(s) + ".parquet"
            && t.pending[s].irodsTarget == TargetOf(t.projects[t.snapshots[s].project], s)
            && (s != u ==> t.pending[s].irodsTarget != t.pending[u].irodsTarget && t.pending[s].localPath != t.pending[u].localPath)
  {
    Reachable(env, ws, ls, i);
    var st := ws[i].store;
    RowAddressed(st, s);
    RowAddressed(st, u);
    SnapshotFileInjective(s, u);
    var lake := st.tables.projects[st.tables.snapshots[s].project].ducklakePath;
    dir := StripSlashes(lake);
    StripSlashesMeans(lake, dir);
  }

  lemma RowAddressed(st: Store, s: nat)
    requires TablesOK(st) && s in st.tables.pending
    ensures var t := st.tables;
            && s in t.snapshots && t.snapshots[s].project in t.projects
            && BaseName(t.pending[s].localPath) == SnapshotFile(s)
            && BaseName(t.pending[s].irodsTarget) == SnapshotFile(s)
            && t.pending[s].irodsTarget == TargetOf(t.projects[t.snapshots[s].project], s)
  {
    assert RowOK(st, st.tables.pending[s]) && PendingReferences(st.tables, s);
    assert SnapshotOK(st, s) && EntryOK(st, s);
    Addressing("", "", st.entries[s].project.ducklakePath, s, "", "", "", s);
  }

  // -------------------------------------------------------------------- lifecycle

  /** A row may be removed or renamed only while it is pending. */
  ghost predicate Moves(st: Store, st': Store, s: nat)
    requires s in st.tables.snapshots
  {
    var row := st.tables.snapshots[s];
    if s in st'.tables.snapshots then
      && st'.tables.snapshots[s] == row.(parquetFile := st'.tables.snapshots[s].parquetFile)
      && (row.parquetFile != PENDING ==> st'.tables.snapshots[s] == row)
    else
      row.parquetFile == PENDING && s in st.entries && !st.entries[s].session
  }

  lemma WriterTables(env: Env, st: Store, x: Writer, a: WriterAct)
    requires WriterMay(env, st, x, a)
    ensures WriterStep(st, x, a).0.tables ==
            if WriterCall(x, a).Some? then Postgres(st.tables, WriterCall(x, a).value).0 else st.tables
  {
  }

  lemma RecovererTables(env: Env, st: Store, r: Recoverer, a: RecovererAct)
    requires RecovererMay(env, st, r, a)
    ensures RecovererStep(st, r, a).0.tables ==
            if RecovererCall(r, a).Some? then Postgres(st.tables, RecovererCall(r, a).value).0 else st.tables
  {
  }

  /** The writing statement a step issues to the catalog. */
  function LabelCall(w: World, l: Label): Option<Call> {
    match l
    case Writes(id, a) => if id in w.writers then WriterCall(w.writers[id], a) else None
    case Recovers(id, a) => if id in w.recoverers then RecovererCall(w.recoverers[id], a) else None
    case Register(c) => Some(c)
    case _ => None
  }

  /** A step changes the catalog by the call it issues, and by nothing else. */
  lemma StepTables(env: Env, w: World, l: Label)
    requires Enabled(env, w, l)
    ensures Step(env, w, l).store.tables ==
            if LabelCall(w, l).Some? then Postgres(w.store.tables, LabelCall(w, l).value).0 else w.store.tables
  {
    match l
    case Writes(id, a) => WriterTables(env, w.store, w.writers[id], a);
    case Recovers(id, a) => RecovererTables(env, w.store, w.recoverers[id], a);
    case _ =>
  }

  /** What one statement does to one row. */
  lemma CallMoves(t: Tables, c: Call, s: nat)
    requires s in t.snapshots && s < t.nextId
    ensures var t' := Postgres(t, c).0;
            && (s !in t'.snapshots ==> c == DeleteSnapshot(s))
            && (s in t'.snapshots && c.UpdateParquetFile? && c.sid == s ==>
                  t'.snapshots[s] == t.snapshots[s].(parquetFile := c.parquetFile))
            && (s in t'.snapshots && !(c.UpdateParquetFile? && c.sid == s) ==> t'.snapshots[s] == t.snapshots[s])
  {
  }

  lemma WriterMoves(env: Env, st: Store, x: Writer, a: WriterAct, s: nat)
    requires env.exclusive && Ready(env, st, x, a) && s in st.tables.snapshots
    ensures Moves(st, WriterStep(st, x, a).0, s)
  {
    assert References(st.tables, s);
    WriterTables(env, st, x, a);
    var c := WriterCall(x, a);
    if c.Some? {
      CallMoves(st.tables, c.value, s);
    }
  }

  lemma RecovererMoves(env: Env, st: Store, r: Recoverer, a: RecovererAct, s: nat)
    requires env.exclusive && RReady(env, st, r, a) && s in st.tables.snapshots
    ensures Moves(st, RecovererStep(st, r, a).0, s)
  {
    assert References(st.tables, s);
    RecovererTables(env, st, r, a);
    var c := RecovererCall(r, a);
    if c.Some? {
      CallMoves(st.tables, c.value, s);
    }
  }

  lemma StepMoves(env: Env, w: World, l: Label, s: nat)
    requires env.exclusive
    requires Inv(env, w) && Enabled(env, w, l) && s in w.store.tables.snapshots
    ensures Moves(w.store, Step(env, w, l).store, s)
  {
    match l
    case Writes(id, a) =>
      assert WriterOK(env, w.store, w.writers[id]);
      WriterMoves(env, w.store, w.writers[id], a, s);
    case Recovers(id, a) =>
      if w.recoverers[id].rows != [] {
        assert RecovererOK(env, w.store, w.recoverers[id]);
        RecovererMoves(env, w.store, w.recoverers[id], a, s);
      }
    case _ =>
  }

  lemma MovesCompose(st: Store, mid: Store, st': Store, s: nat)
    requires s in st.tables.snapshots && Moves(st, mid, s) && Grows(st, mid)
    requires s in mid.tables.snapshots && s in st.entries ==> Moves(mid, st', s)
    requires s in mid.tables.snapshots ==> s in st.entries
    requires s !in mid.tables.snapshots ==> s !in st'.tables.snapshots
    ensures Moves(st, st', s)
  {
  }

  /** Ids come from a sequence: none is reused. */
  lemma IdsAreFresh(t: Tables, c: Call, s: nat)
    requires s !in t.snapshots && s < t.nextId
    ensures s !in Postgres(t, c).0.snapshots && s < Postgres(t, c).0.nextId
  {
  }

  lemma StaysGone(env: Env, w: World, l: Label, s: nat)
    requires Enabled(env, w, l)
    requires s !in w.store.tables.snapshots && s < w.store.tables.nextId
    ensures s !in Step(env, w, l).store.tables.snapshots && s < Step(env, w, l).store.tables.nextId
  {
    match l
    case Writes(id, a) =>
      WriterTables(env, w.store, w.writers[id], a);
      if WriterCall(w.writers[id], a).Some? { IdsAreFresh(w.store.tables, WriterCall(w.writers[id], a).value, s); }
    case Recovers(id, a) =>
      RecovererTables(env, w.store, w.recoverers[id], a);
      if RecovererCall(w.recoverers[id], a).Some? {
        IdsAreFresh(w.store.tables, RecovererCall(w.recoverers[id], a).value, s);
      }
    case Register(c) => IdsAreFresh(w.store.tables, c, s);
    case _ =>
  }

  /** What a row may read in any reachable state. */
  lemma RowReads(env: Env, w: World, s: nat)
    requires Inv(env, w) && s in w.store.tables.snapshots
    ensures s in w.store.entries && s < w.store.tables.nextId
    ensures w.store.tables.snapshots[s].parquetFile in {PENDING, FAILED, SnapshotFile(s)}
  {
    assert SnapshotOK(w.store, s);
    assert EntryOK(w.store, s);
  }

  /**
   * The life of a snapshot row when recovery is exclusive: pending, then its
   * real name or 'failed' for ever; it vanishes only while pending and
   * local-only, and its id does not come back. No other column ever changes.
   */
  lemma {:induction false} SnapshotLifecycle(env: Env, ws: seq<World>, ls: seq<Label>, i: nat, j: nat, s: nat)
    requires env.exclusive
    requires Run(env, ws, ls) && Init(ws[0]) && i <= j <= |ls| && s in ws[i].store.tables.snapshots
    ensures Moves(ws[i].store, ws[j].store, s)
    ensures s in ws[j].store.tables.snapshots ==>
              ws[j].store.tables.snapshots[s].parquetFile in {PENDING, FAILED, SnapshotFile(s)}
    ensures s < ws[j].store.tables.nextId
    decreases j
  {
    Reachable(env, ws, ls, i);
    RowReads(env, ws[i], s);
    if i < j {
      SnapshotLifecycle(env, ws, ls, i, j - 1, s);
      NextMove(env, ws, ls, i, j - 1, s);
    }
  }

  lemma NextMove(env: Env, ws: seq<World>, ls: seq<Label>, i: nat, j: nat, s: nat)
    requires env.exclusive
    requires Run(env, ws, ls) && Init(ws[0]) && i <= j < |ls| && s in ws[i].store.tables.snapshots
    requires Moves(ws[i].store, ws[j].store, s) && s < ws[j].store.tables.nextId
    ensures Moves(ws[i].store, ws[j + 1].store, s)
    ensures s in ws[j + 1].store.tables.snapshots ==>
              ws[j + 1].store.tables.snapshots[s].parquetFile in {PENDING, FAILED, SnapshotFile(s)}
    ensures s < ws[j + 1].store.tables.nextId
  {
    Reachable(env, ws, ls, i);
    RowReads(env, ws[i], s);
    Reachable(env, ws, ls, j);
    Reachable(env, ws, ls, j + 1);
    RunGrows(env, ws, ls, i, j);
    RunStep(env, ws, ls, j);
    if s in ws[j].store.tables.snapshots {
      StepMoves(env, ws[j], ls[j], s);
    } else {
      StaysGone(env, ws[j], ls[j], s);
    }
    MovesCompose(ws[i].store, ws[j].store, ws[j + 1].store, s);
    if s in ws[j + 1].store.tables.snapshots {
      RowReads(env, ws[j + 1], s);
    } else if s in ws[j].store.tables.snapshots {
      RunGrows(env, ws, ls, j, j + 1);
      assert EntryOK(ws[j + 1].store, s);
    }
  }

  // --------------------------------------------------------------- either backend

  /** A roll-back deletes a row that was never queued. */
  lemma RollBackIsUnqueued(env: Env, st: Store, x: Writer, a: WriterAct)
    requires Ready(env, st, x, a) && WriterCall(x, a).Some? && WriterCall(x, a).value.DeleteSnapshot?
    ensures WriterCall(x, a).value.sid !in st.tables.pending
  {
    NeverAParent(st, x.stage.sid);
  }

  lemma UnqueuedDeleteIsAtomic(t: Tables, sid: nat)
    requires sid !in t.pending
    ensures DuckDBStates(t, DeleteSnapshot(sid)) == [t, DuckDB(t, DeleteSnapshot(sid)).0]
  {
    assert DuckDBStatements(DeleteSnapshot(sid)) == [DeletePending(sid), DeleteSnapshot(sid)];
    assert t.pending - {sid} == t.pending;
  }

  lemma StepCallIsLegal(env: Env, w: World, l: Label)
    requires Inv(env, w) && Enabled(env, w, l) && LabelCall(w, l).Some?
    ensures Legal(w.store.tables, LabelCall(w, l).value)
    ensures LabelCall(w, l).value.DeleteSnapshot? ==> LabelCall(w, l).value.sid !in w.store.tables.pending
  {
    if l.Writes? {
      assert WriterOK(env, w.store, w.writers[l.id]);
      WriterKeeps(env, w.store, w.writers[l.id], l.act);
      if LabelCall(w, l).value.DeleteSnapshot? {
        RollBackIsUnqueued(env, w.store, w.writers[l.id], l.act);
      }
    }
  }

  /**
   * Every statement the protocol issues, in any reachable state, is one on
   * which the constraint-free DuckDB file and the Postgres schema agree. Every
   * constraint holds in each state it can leave, and a crash between the two
   * statements of a DuckDB delete leaves what a crash before them does.
   */
  lemma ProtocolRunsOnEitherBackend(env: Env, ws: seq<World>, ls: seq<Label>, i: nat)
    requires Run(env, ws, ls) && Init(ws[0]) && i < |ls|
    requires LabelCall(ws[i], ls[i]).Some?
    ensures var t, c := ws[i].store.tables, LabelCall(ws[i], ls[i]).value;
            && Legal(t, c)
            && DuckDB(t, c) == Postgres(t, c)
            && (forall k | 0 <= k < |DuckDBStates(t, c)| ::
                  Constraints(DuckDBStates(t, c)[k]) && DuckDBStates(t, c)[k] in {t, Postgres(t, c).0})
  {
    Reachable(env, ws, ls, i);
    RunStep(env, ws, ls, i);
    StepCallIsLegal(env, ws[i], ls[i]);
    var t, c := ws[i].store.tables, LabelCall(ws[i], ls[i]).value;
    BackendsAgree(t, c);
    if c.DeleteSnapshot? {
      UnqueuedDeleteIsAtomic(t, c.sid);
    } else {
      assert DuckDBStates(t, c) == [DuckDB(t, c).0];
    }
  }

  // ---------------------------------------------------------------- parent forest

  ghost predicate ParentsBelow(t: Tables) {
    forall s | s in t.snapshots && t.snapshots[s].parent.Some? ::
      t.snapshots[s].parent.value < s && t.snapshots[s].parent.value in t.snapshots
  }

  /** Following parent_snapshot from a snapshot. */
  ghost function Ancestry(t: Tables, s: nat): seq<nat>
    requires ParentsBelow(t) && s in t.snapshots
    decreases s
  {
    [s] + if t.snapshots[s].parent.Some? then Ancestry(t, t.snapshots[s].parent.value) else []
  }

  /** A path through one project's snapshots, settled below its head, with falling ids. */
  ghost predicate Falls(t: Tables, project: string, a: seq<nat>) {
    && (forall k | 0 <= k < |a| :: a[k] in t.snapshots && t.snapshots[a[k]].project == project)
    && (forall k | 0 < k < |a| :: a[k] in t.snapshots && t.snapshots[a[k]].parquetFile != PENDING)
    && (forall k, m | 0 <= k < m < |a| :: a[m] < a[k])
  }

  lemma FallsFrom(t: Tables, project: string, s: nat, rest: seq<nat>)
    requires Falls(t, project, rest) && rest != [] && rest[0] < s
    requires s in t.snapshots && t.snapshots[s].project == project && t.snapshots[rest[0]].parquetFile != PENDING
    ensures Falls(t, project, [s] + rest)
  {
    var a := [s] + rest;
    forall k | 0 < k < |a| ensures a[k] == rest[k - 1] {}
  }

  lemma {:induction false} AncestryFalls(t: Tables, s: nat)
    requires ParentsBelow(t) && s in t.snapshots
    requires forall c | c in t.snapshots && t.snapshots[c].parent.Some? ::
               ParentOK(t, t.snapshots[c].project, t.snapshots[c].parent.value, c)
    ensures Falls(t, t.snapshots[s].project, Ancestry(t, s)) && Ancestry(t, s)[0] == s
    decreases s
  {
    if t.snapshots[s].parent.Some? {
      var p := t.snapshots[s].parent.value;
      AncestryFalls(t, p);
      assert ParentOK(t, t.snapshots[s].project, p, s);
      FallsFrom(t, t.snapshots[s].project, s, Ancestry(t, p));
    }
  }

  /**
   * In every state of every run, with concurrent writers, recoverers, crashes
   * and local-only roll-backs, following parents from any snapshot terminates,
   * stays in its project and goes through settled snapshots with falling ids.
   */
  lemma ParentForest(env: Env, ws: seq<World>, ls: seq<Label>, i: nat, s: nat)
    requires Run(env, ws, ls) && Init(ws[0]) && i <= |ls| && s in ws[i].store.tables.snapshots
    ensures var t := ws[i].store.tables;
            ParentsBelow(t) && Falls(t, t.snapshots[s].project, Ancestry(t, s))
  {
    Reachable(env, ws, ls, i);
    var t := ws[i].store.tables;
    forall c | c in t.snapshots && t.snapshots[c].parent.Some?
      ensures ParentOK(t, t.snapshots[c].project, t.snapshots[c].parent.value, c)
    {
      assert SnapshotOK(ws[i].store, c);
    }
    AncestryFalls(t, s);
  }
}
