// What a lake directory holds in a reachable state: each file is some
// snapshot's stamped batch, so the view is the batches whose files are cached.
module LakeContents {
  import opened Avu
  import opened Names
  import opened Storage
  import opened CatalogTables
  import opened Protocol
  import opened Invariant
  import opened Safety
  import opened Lake
  import opened ProtocolTheorems
  import Restart

  // ------------------------------------------------------------- labels over runs

  /** Every row stored under an id carries that id and its project. */
  ghost predicate Stamped(st: Store) {
    forall s, c | s in st.entries && c in st.entries[s].changes :: c.snapshotId == s && c.project == st.entries[s].projectId
  }

  ghost predicate KeyIs(st: Store, k: Key, root: string, s: nat) {
    s in st.written && s in st.entries && k.path == LocalPath(root, st.entries[s].projectId, SnapshotFile(s))
  }

  /** Every cached file is some snapshot's, in its project's directory. */
  ghost predicate KeysNamed(st: Store) {
    forall k | k in st.caches :: exists root, s :: KeyIs(st, k, root, s)
  }

  lemma WriterLabels(env: Env, st: Store, x: Writer, a: WriterAct)
    requires WriterOK(env, st, x) && WriterMay(env, st, x, a) && Stamped(st)
    ensures Stamped(WriterStep(st, x, a).0)
  {
    if a.Create? {
      StampMembers(x.projectId, st.tables.nextId, x.changes);
    }
  }

  lemma StampMembers(project: string, sid: nat, changes: seq<Change>)
    ensures forall c | c in Stamp(project, sid, changes) :: c.snapshotId == sid && c.project == project
  {
  }

  /** A writer touches the cache of its own host only, and only its own file. */
  lemma WriterCaches(st: Store, x: Writer, a: WriterAct)
    ensures var st' := WriterStep(st, x, a).0;
            forall k | k in st'.caches && k !in st.caches :: HasSid(x) && a.Write? && k == FileKey(x, x.stage.sid)
    ensures forall k | k in st.caches :: k in WriterStep(st, x, a).0.caches
    ensures a.Write? && HasSid(x) ==> x.stage.sid in WriterStep(st, x, a).0.written
  {
  }

  lemma RecovererCaches(st: Store, r: Recoverer, a: RecovererAct)
    ensures RecovererStep(st, r, a).0.caches == st.caches && RecovererStep(st, r, a).0.entries == st.entries
  {
  }

  lemma StepStamped(env: Env, w: World, l: Label)
    requires Inv(env, w) && Enabled(env, w, l) && Stamped(w.store)
    ensures Stamped(Step(env, w, l).store)
  {
    match l
    case Writes(id, a) =>
      assert WriterOK(env, w.store, w.writers[id]);
      WriterLabels(env, w.store, w.writers[id], a);
    case Recovers(id, a) => RecovererCaches(w.store, w.recoverers[id], a);
    case _ =>
  }

  lemma StepKeys(env: Env, w: World, l: Label)
    requires Inv(env, w) && Enabled(env, w, l) && KeysNamed(w.store)
    ensures KeysNamed(Step(env, w, l).store)
  {
    var st, st' := w.store, Step(env, w, l).store;
    StepGrows(env, w, l);
    forall k | k in st'.caches ensures exists root, s :: KeyIs(st', k, root, s) {
      if k in st.caches {
        var root, s :| KeyIs(st, k, root, s);
        assert KeyIs(st', k, root, s);
      } else {
        NewKeyIs(env, w, l, k);
      }
    }
  }

  lemma NewKeyIs(env: Env, w: World, l: Label, k: Key)
    requires Inv(env, w) && Enabled(env, w, l) && k in Step(env, w, l).store.caches && k !in w.store.caches
    ensures exists root, s :: KeyIs(Step(env, w, l).store, k, root, s)
  {
    var st, st' := w.store, Step(env, w, l).store;
    match l {
      case Writes(id, a) =>
        var x := w.writers[id];
        assert WriterOK(env, st, x);
        WriterCaches(st, x, a);
        StepGrows(env, w, l);
        assert KeyIs(st', k, x.root, x.stage.sid);
      case Recovers(id, a) => RecovererCaches(st, w.recoverers[id], a);
      case Pull(host, root, projectId, sid) =>
        assert DurableAt(env, st, sid);
        assert KeyIs(st', k, root, sid);
      case _ =>
    }
  }

  lemma StepLabels(env: Env, ws: seq<World>, ls: seq<Label>, k: nat)
    requires Run(env, ws, ls) && k < |ls| && Inv(env, ws[k]) && Stamped(ws[k].store) && KeysNamed(ws[k].store)
    ensures Stamped(ws[k + 1].store) && KeysNamed(ws[k + 1].store)
  {
    RunStep(env, ws, ls, k);
    StepStamped(env, ws[k], ls[k]);
    StepKeys(env, ws[k], ls[k]);
  }

  lemma {:induction false} RunLabels(env: Env, ws: seq<World>, ls: seq<Label>, i: nat)
    requires Run(env, ws, ls) && Init(ws[0]) && i <= |ls|
    ensures Stamped(ws[i].store) && KeysNamed(ws[i].store)
  {
    if i > 0 {
      RunLabels(env, ws, ls, i - 1);
      Reachable(env, ws, ls, i - 1);
      StepLabels(env, ws, ls, i - 1);
    }
  }

  /** No batch is empty: record_changes refuses empty ones. */
  ghost predicate NoneEmpty(w: World) {
    && (forall k | k in w.writers :: w.writers[k].changes != [])
    && (forall s | s in w.store.entries :: w.store.entries[s].changes != [])
  }

  lemma WriterNoneEmpty(st: Store, x: Writer, a: WriterAct)
    requires x.changes != [] && forall s | s in st.entries :: st.entries[s].changes != []
    ensures forall s | s in WriterStep(st, x, a).0.entries :: WriterStep(st, x, a).0.entries[s].changes != []
    ensures WriterStep(st, x, a).1.Some? ==> WriterStep(st, x, a).1.value.changes != []
  {
  }

  lemma StepNoneEmpty(env: Env, w: World, l: Label)
    requires Enabled(env, w, l) && NoneEmpty(w)
    ensures NoneEmpty(Step(env, w, l))
  {
    match l
    case Writes(id, a) => WriterNoneEmpty(w.store, w.writers[id], a);
    case Recovers(id, a) => RecovererCaches(w.store, w.recoverers[id], a);
    case _ =>
  }

  lemma {:induction false} RunNoneEmpty(env: Env, ws: seq<World>, ls: seq<Label>, i: nat)
    requires Run(env, ws, ls) && Init(ws[0]) && i <= |ls|
    ensures NoneEmpty(ws[i])
  {
    if i > 0 {
      RunNoneEmpty(env, ws, ls, i - 1);
      RunStep(env, ws, ls, i - 1);
      StepNoneEmpty(env, ws[i - 1], ls[i - 1]);
    }
  }

  // ------------------------------------------------------------------ the directory

  /** The file p of a lake directory is the batch of snapshot s. */
  ghost predicate FileIs(st: Store, files: map<string, Blob>, lakeRoot: string, p: string, s: nat) {
    && p in files
    && p == lakeRoot + "/" + SnapshotFile(s)
    && s in st.written && s in st.entries
    && files[p] == Parquet(st.written[s])
  }

  /** The directory holds whole, unaltered batches only. */
  ghost predicate Faithful(st: Store, files: map<string, Blob>, lakeRoot: string) {
    forall p | p in LakeFiles(files, lakeRoot) :: exists s :: FileIs(st, files, lakeRoot, p, s)
  }

  lemma {:induction false} NoSlashUnique(a: string, b: string, m: string, n: string)
    requires a + "/" + m == b + "/" + n && '/' !in m && '/' !in n
    ensures a == b && m == n
  {
    BaseNameOfJoin(a, m);
    BaseNameOfJoin(b, n);
    var p := a + "/" + m;
    assert p[..|p| - |m| - 1] == a && p[..|p| - |n| - 1] == b;
  }

  /** In every reachable state, if objects can be depended on, every host's lake directories are faithful. */
  lemma CachesAreFaithful(env: Env, st: Store, host: nat, lakeRoot: string)
    requires Dependable(env) && FilesOK(env, st) && KeysNamed(st)
    ensures Faithful(st, Restart.FilesOn(st.caches, host), lakeRoot)
  {
    var files := Restart.FilesOn(st.caches, host);
    forall p | p in LakeFiles(files, lakeRoot) ensures exists s :: FileIs(st, files, lakeRoot, p, s) {
      Restart.FileOnHost(st.caches, host, p);
      var root, s :| KeyIs(st, Key(host, p), root, s);
      InLakeIs(lakeRoot, p, root + "/" + st.entries[s].projectId, s);
      assert CachedOK(env, st, Key(host, p), s);
      assert FileIs(st, files, lakeRoot, p, s);
    }
  }

  lemma InLakeIs(lakeRoot: string, p: string, dir: string, s: nat)
    requires InLake(lakeRoot, p) && p == dir + "/" + SnapshotFile(s)
    ensures p == lakeRoot + "/" + SnapshotFile(s) && BaseName(p) == SnapshotFile(s)
  {
    var name := p[|lakeRoot| + 1..];
    assert p == lakeRoot + "/" + name;
    SnapshotFileInjective(s, s);
    NoSlashUnique(lakeRoot, dir, name, SnapshotFile(s));
    BaseNameOfJoin(lakeRoot, name);
  }

  // ----------------------------------------------------------------------- the view

  lemma {:induction false} BagCount(files: map<string, Blob>, paths: set<string>, p0: string, c: Change)
    requires paths <= files.Keys
    requires forall p | p in paths && p != p0 :: c !in RowsOf(files[p])
    ensures BagOf(files, paths)[c] == if p0 in paths then multiset(RowsOf(files[p0]))[c] else 0
    decreases |paths|
  {
    if paths != {} {
      var p :| p in paths && BagOf(files, paths) == multiset(RowsOf(files[p])) + BagOf(files, paths - {p});
      BagCount(files, paths - {p}, p0, c);
    }
  }

  /**
   * The view of a faithful directory, row by row: a snapshot's rows are there,
   * each as often as it was recorded, exactly when its file is.
   */
  lemma ViewIsCachedBatches(env: Env, st: Store, files: map<string, Blob>, lakeRoot: string, c: Change)
    requires FilesOK(env, st) && Stamped(st) && Faithful(st, files, lakeRoot)
    ensures var s := c.snapshotId;
            View(files, lakeRoot)[c] ==
              if s in st.entries && lakeRoot + "/" + SnapshotFile(s) in files then multiset(st.entries[s].changes)[c] else 0
    ensures Readable(files, lakeRoot)
  {
    var s0 := c.snapshotId;
    var p0 := lakeRoot + "/" + SnapshotFile(s0);
    forall p | p in LakeFiles(files, lakeRoot) ensures files[p].Parquet? && (p != p0 ==> c !in RowsOf(files[p])) {
      var s :| FileIs(st, files, lakeRoot, p, s);
      OfSnapshot(st, s, c);
    }
    BagCount(files, LakeFiles(files, lakeRoot), p0, c);
    SnapshotFileIsInLake(lakeRoot, s0);
    if p0 in files {
      var s :| FileIs(st, files, lakeRoot, p0, s);
      SnapshotFileInjective(s, s0);
      NoSlashUnique(lakeRoot, lakeRoot, SnapshotFile(s), SnapshotFile(s0));
      assert WrittenOK(st, s0);
    }
  }

  lemma OfSnapshot(st: Store, s: nat, c: Change)
    requires Stamped(st) && s in st.written && s in st.entries && WrittenOK(st, s)
    ensures c in st.written[s] ==> c.snapshotId == s
  {
    if c in st.written[s] {
      assert c in multiset(st.written[s]);
    }
  }

  /**
   * A directory shows rows of exactly the snapshots cached in it. So a host
   * that wrote a snapshot shows its rows while it is still pending, or failed,
   * and a directory shows only given snapshots when it caches no others.
   */
  lemma ShowsExactlyTheCached(env: Env, st: Store, files: map<string, Blob>, lakeRoot: string, ids: set<nat>)
    requires FilesOK(env, st) && Stamped(st) && Faithful(st, files, lakeRoot)
    requires forall s | s in st.entries :: st.entries[s].changes != []
    ensures (forall c | c in View(files, lakeRoot) :: c.snapshotId in ids) <==>
            (forall s: nat {:trigger SnapshotFile(s)} | lakeRoot + "/" + SnapshotFile(s) in files :: s in ids)
  {
    forall s: nat | lakeRoot + "/" + SnapshotFile(s) in files
      ensures exists c :: c in View(files, lakeRoot) && c.snapshotId == s
    {
      var p := lakeRoot + "/" + SnapshotFile(s);
      SnapshotFileIsInLake(lakeRoot, s);
      assert p in LakeFiles(files, lakeRoot);
      var u :| FileIs(st, files, lakeRoot, p, u);
      SnapshotFileInjective(s, u);
      SnapshotFileInjective(u, s);
      NoSlashUnique(lakeRoot, lakeRoot, SnapshotFile(s), SnapshotFile(u));
      var c := st.entries[s].changes[0];
      assert c in multiset(st.entries[s].changes);
      ViewIsCachedBatches(env, st, files, lakeRoot, c);
    }
    forall c | c in View(files, lakeRoot)
      ensures lakeRoot + "/" + SnapshotFile(c.snapshotId) in files
    {
      ViewIsCachedBatches(env, st, files, lakeRoot, c);
    }
  }
}
