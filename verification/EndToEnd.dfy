// What a reader gets: the committed batches, whole and nothing else, whatever
// the writers, recoverers and other readers do meanwhile.
module EndToEnd {
  import opened Wrappers
  import opened Avu
  import opened Names
  import opened Storage
  import opened Effective
  import opened CatalogTables
  import opened Protocol
  import opened Invariant
  import opened Safety
  import opened Lake
  import opened LakeContents
  import opened ProtocolTheorems
  import Client
  import Restart
  import Sync

  // ------------------------------------------------------------- committed batches

  function Committed(t: Tables, project: string): set<nat> {
    set s | s in t.snapshots && t.snapshots[s].project == project && t.snapshots[s].parquetFile == SnapshotFile(s)
  }

  /** The committed snapshots a read asks for: those among the newest settled rows. */
  function Listed(t: Tables, project: string): set<nat> {
    set s | s in ListSnapshots(t, project, Client.ENSURE_CACHED_LIMIT, false) && s in Committed(t, project)
  }

  /** A read misses a committed snapshot exactly when 1000 settled ones are newer. */
  lemma ListedExactly(t: Tables, project: string, s: nat)
    requires s in Committed(t, project)
    ensures s in Listed(t, project) <==>
            |set y | y in SnapshotIds(t, project, false) && y > s| < 1000
  {
    SnapshotFileInjective(s, s);
    NewestIdsCover(SnapshotIds(t, project, false), Client.ENSURE_CACHED_LIMIT, s);
  }

  lemma FewerNewer(ids: set<nat>, s: nat)
    requires s in ids
    ensures |set y | y in ids && y > s| < |ids|
  {
    var newer := set y | y in ids && y > s;
    SubsetSize(newer, ids - {s});
  }

  lemma AllListed(t: Tables, project: string)
    requires |SnapshotIds(t, project, false)| <= 1000
    ensures Listed(t, project) == Committed(t, project)
  {
    forall s | s in Committed(t, project) ensures s in Listed(t, project) {
      SnapshotFileInjective(s, s);
      FewerNewer(SnapshotIds(t, project, false), s);
      ListedExactly(t, project, s);
    }
  }

  lemma {:induction false} SubsetSize(a: set<nat>, b: set<nat>)
    requires a <= b
    ensures |a| <= |b|
  {
    if a != {} {
      var x :| x in a;
      SubsetSize(a - {x}, b - {x});
    }
  }

  /** The rows recorded under a set of ids. */
  ghost function Batches(st: Store, ids: set<nat>): multiset<Change>
    decreases |ids|
  {
    if ids == {} then multiset{} else
      var s :| s in ids;
      BatchOf(st, s) + Batches(st, ids - {s})
  }

  function BatchOf(st: Store, s: nat): multiset<Change> {
    if s in st.entries then multiset(st.entries[s].changes) else multiset{}
  }

  lemma {:induction false} BatchesCount(st: Store, ids: set<nat>, c: Change)
    requires Stamped(st)
    ensures Batches(st, ids)[c] == if c.snapshotId in ids then BatchOf(st, c.snapshotId)[c] else 0
    decreases |ids|
  {
    if ids != {} {
      var s :| s in ids && Batches(st, ids) == BatchOf(st, s) + Batches(st, ids - {s});
      BatchesCount(st, ids - {s}, c);
      assert c in BatchOf(st, s) ==> c.snapshotId == s;
    }
  }

  lemma BatchesKept(st: Store, st': Store, ids: set<nat>)
    requires ids <= st.entries.Keys && Stamped(st) && Stamped(st') && Grows(st, st')
    ensures Batches(st', ids) == Batches(st, ids)
  {
    forall c ensures Batches(st', ids)[c] == Batches(st, ids)[c] {
      BatchesCount(st, ids, c);
      BatchesCount(st', ids, c);
    }
  }

  lemma CommittedEntries(env: Env, st: Store, project: string)
    requires TablesOK(st)
    ensures Committed(st.tables, project) <= st.entries.Keys
    ensures Listed(st.tables, project) <= Committed(st.tables, project)
  {
    forall s | s in Committed(st.tables, project) ensures s in st.entries { assert SnapshotOK(st, s); }
  }

  // ------------------------------------------------------------------- a fresh reader

  ghost predicate Fresh(st: Store, host: nat) {
    forall k | k in st.caches :: k.host != host
  }

  /** A step that does not touch the cache of a host. */
  ghost predicate Quiet(w: World, l: Label, host: nat) {
    match l
    case Writes(id, _) => id in w.writers && w.writers[id].host != host
    case Evict(h, _) => h != host
    case Pull(h, _, _, _) => h != host
    case _ => true
  }

  ghost predicate ReaderStep(w: World, l: Label, host: nat, root: string, project: string, ids: set<nat>) {
    Quiet(w, l, host) || (l.Pull? && l == Pull(host, root, project, l.sid) && l.sid in ids)
  }

  lemma QuietKeeps(env: Env, w: World, l: Label, host: nat, path: string)
    requires Enabled(env, w, l) && Quiet(w, l, host)
    ensures Key(host, path) in Step(env, w, l).store.caches <==> Key(host, path) in w.store.caches
  {
    match l
    case Writes(id, a) => WriterCaches(w.store, w.writers[id], a);
    case Recovers(id, a) => RecovererCaches(w.store, w.recoverers[id], a);
    case _ =>
  }

  /** A reader's cache holds what it pulled, and only that. */
  lemma {:induction false} ReaderCache(env: Env, ws: seq<World>, ls: seq<Label>, i: nat, j: nat, host: nat,
                                       root: string, project: string, ids: set<nat>, path: string)
    requires Run(env, ws, ls) && i <= j <= |ls| && Fresh(ws[i].store, host)
    requires forall k | i <= k < j :: ReaderStep(ws[k], ls[k], host, root, project, ids)
    ensures Key(host, path) in ws[j].store.caches <==>
            exists k :: i <= k < j && ls[k].Pull? && ls[k].host == host && path == LocalPath(root, project, SnapshotFile(ls[k].sid))
    decreases j
  {
    if i < j {
      ReaderCache(env, ws, ls, i, j - 1, host, root, project, ids, path);
      var w, l := ws[j - 1], ls[j - 1];
      RunStep(env, ws, ls, j - 1);
      if Quiet(w, l, host) {
        QuietKeeps(env, w, l, host, path);
      } else {
        assert ls[j - 1] == Pull(host, root, project, l.sid);
      }
    }
  }

  /** Every listed snapshot was pulled between i and j. */
  ghost predicate AllPulled(ls: seq<Label>, i: nat, j: nat, host: nat, root: string, project: string, ids: set<nat>)
    requires i <= j <= |ls|
  {
    forall s | s in ids :: exists k :: i <= k < j && ls[k] == Pull(host, root, project, s)
  }

  /**
   * End to end. A reader on a host with an empty cache lists the snapshots at
   * ws[i] and pulls them one by one, while everybody else goes on. What its
   * lake then shows is, row for row, the batches committed at ws[i] that it
   * listed: nothing pending or failed, nothing twice, nothing lost.
   */
  lemma FreshReaderSeesCommitted(env: Env, ws: seq<World>, ls: seq<Label>, i: nat, j: nat, host: nat,
                                 root: string, project: string)
    requires Dependable(env)
    requires Run(env, ws, ls) && Init(ws[0]) && i <= j <= |ls| && Fresh(ws[i].store, host)
    requires forall k | i <= k < j :: ReaderStep(ws[k], ls[k], host, root, project, Listed(ws[i].store.tables, project))
    requires AllPulled(ls, i, j, host, root, project, Listed(ws[i].store.tables, project))
    ensures var files := Restart.FilesOn(ws[j].store.caches, host);
            var ids := Listed(ws[i].store.tables, project);
            && Readable(files, root + "/" + project)
            && View(files, root + "/" + project) == Batches(ws[i].store, ids)
    ensures var t := ws[i].store.tables;
            |SnapshotIds(t, project, false)| <= 1000 ==> Listed(t, project) == Committed(t, project)
  {
    var st, st' := ws[i].store, ws[j].store;
    var ids := Listed(st.tables, project);
    Reachable(env, ws, ls, i);
    Reachable(env, ws, ls, j);
    RunLabels(env, ws, ls, i);
    RunLabels(env, ws, ls, j);
    RunGrows(env, ws, ls, i, j);
    CommittedEntries(env, st, project);
    BatchesKept(st, st', ids);
    var files, lake := Restart.FilesOn(st'.caches, host), root + "/" + project;
    CachesAreFaithful(env, st', host, lake);
    forall c ensures View(files, lake)[c] == Batches(st', ids)[c] && Readable(files, lake) {
      ViewIsCachedBatches(env, st', files, lake, c);
      BatchesCount(st', ids, c);
      PulledExactly(env, ws, ls, i, j, host, root, project, ids, c.snapshotId);
    }
    if |SnapshotIds(st.tables, project, false)| <= 1000 { AllListed(st.tables, project); }
  }

  lemma PulledExactly(env: Env, ws: seq<World>, ls: seq<Label>, i: nat, j: nat, host: nat,
                      root: string, project: string, ids: set<nat>, s: nat)
    requires Run(env, ws, ls) && i <= j <= |ls| && Fresh(ws[i].store, host)
    requires forall k | i <= k < j :: ReaderStep(ws[k], ls[k], host, root, project, ids)
    requires AllPulled(ls, i, j, host, root, project, ids)
    ensures root + "/" + project + "/" + SnapshotFile(s) in Restart.FilesOn(ws[j].store.caches, host) <==> s in ids
  {
    var path := LocalPath(root, project, SnapshotFile(s));
    Restart.FileOnHost(ws[j].store.caches, host, path);
    ReaderCache(env, ws, ls, i, j, host, root, project, ids, path);
    if Key(host, path) in ws[j].store.caches {
      var k :| i <= k < j && ls[k].Pull? && ls[k].host == host && path == LocalPath(root, project, SnapshotFile(ls[k].sid));
      assert ReaderStep(ws[k], ls[k], host, root, project, ids);
      Addressing(root, project, "", s, root, project, "", ls[k].sid);
    }
  }

  /**
   * get_avus_as_of, end to end: for every order the engine may pick on either
   * side, the triples returned are those bound by replaying the committed
   * batches with ts <= T, oldest first.
   */
  lemma EffectiveIsCommittedReplay(env: Env, ws: seq<World>, ls: seq<Label>, i: nat, j: nat, host: nat, root: string,
                                   project: string, path: string, ts: int,
                                   view: seq<Change>, l: seq<Change>, log: seq<Change>, m: seq<Change>)
    requires Dependable(env)
    requires Run(env, ws, ls) && Init(ws[0]) && i <= j <= |ls| && Fresh(ws[i].store, host)
    requires forall k | i <= k < j :: ReaderStep(ws[k], ls[k], host, root, project, Listed(ws[i].store.tables, project))
    requires AllPulled(ls, i, j, host, root, project, Listed(ws[i].store.tables, project))
    requires |SnapshotIds(ws[i].store.tables, project, false)| <= 1000
    requires multiset(view) == View(Restart.FilesOn(ws[j].store.caches, host), root + "/" + project)
    requires Newest(l, multiset(Keep(AsOf(project, path, ts), view)))
    requires multiset(log) == Batches(ws[i].store, Committed(ws[i].store.tables, project))
    requires Avu.Oldest(m, multiset(Keep(AsOf(project, path, ts), log)))
    requires TiesAgree(multiset(m))
    ensures Bound(Window(l)) == Replay(m).Keys
    ensures forall c | c in Window(l) :: c in m && c.op.Add? && Latest(multiset(m), c)
  {
    FreshReaderSeesCommitted(env, ws, ls, i, j, host, root, project);
    KeepBag(AsOf(project, path, ts), view, log);
    QueryIsReplay(l, m, multiset(m));
    forall c | c in Window(l) ensures c in m && c.op.Add? && Latest(multiset(m), c) {
      WindowRows(l, c);
      var k: nat :| FirstOf(l, k) && l[k] == c;
      FirstIsLatest(l, multiset(m), k);
    }
  }

  // -------------------------------------------------------------- cache transparency

  /**
   * A completed fill makes a cache whole: whatever was evicted before, every
   * listed snapshot is back, with its exact batch.
   */
  lemma FillMakesWhole(env: Env, st: Store, lakeRoot: string, project: string, files: map<string, Blob>,
                       files': map<string, Blob>, pulled: seq<string>)
    requires Dependable(env) && StoreOK(env, st) && Stamped(st) && Faithful(st, files, lakeRoot) && project in st.tables.projects
    requires Sync.Filled(files, files', lakeRoot, st.tables.projects[project].ducklakePath,
                         Client.Expected(st.tables, project), pulled, st.objects)
    ensures Faithful(st, files', lakeRoot)
    ensures forall c: Change | c.snapshotId in Listed(st.tables, project) ::
              View(files', lakeRoot)[c] == BatchOf(st, c.snapshotId)[c]
  {
    CommittedEntries(env, st, project);
    var names := Client.Expected(st.tables, project);
    Sync.FilledMeans(files, files', lakeRoot, st.tables.projects[project].ducklakePath, names, pulled, st.objects);
    forall p | p in LakeFiles(files', lakeRoot) ensures exists s :: FileIs(st, files', lakeRoot, p, s) {
      if p in files {
        assert p in LakeFiles(files, lakeRoot);
        var s :| FileIs(st, files, lakeRoot, p, s);
        assert FileIs(st, files', lakeRoot, p, s);
      } else {
        var name :| name in names && !Sync.Sentinel(name) && p == lakeRoot + "/" + name;
        var s := NamedByRow(env, st, project, name);
        assert FileIs(st, files', lakeRoot, p, s);
      }
    }
    forall c: Change | c.snapshotId in Listed(st.tables, project)
      ensures View(files', lakeRoot)[c] == BatchOf(st, c.snapshotId)[c]
    {
      ViewIsCachedBatches(env, st, files', lakeRoot, c);
      ListedIsExpected(st.tables, project, c.snapshotId);
    }
  }

  lemma ListedIsExpected(t: Tables, project: string, s: nat)
    requires s in Listed(t, project)
    ensures SnapshotFile(s) in Client.Expected(t, project) && !Sync.Sentinel(SnapshotFile(s))
  {
    SnapshotFileInjective(s, s);
    var ids := ListSnapshots(t, project, Client.ENSURE_CACHED_LIMIT, false);
    var k :| 0 <= k < |ids| && ids[k] == s;
    assert Client.Expected(t, project)[k] == SnapshotFile(s);
  }

  /** A real name the catalog lists is a committed snapshot's. */
  lemma NameOfRow(env: Env, st: Store, project: string, name: string) returns (s: nat)
    requires StoreOK(env, st) && project in st.tables.projects
    requires name in Client.Expected(st.tables, project) && !Sync.Sentinel(name)
    ensures name == SnapshotFile(s) && s in Listed(st.tables, project)
    ensures s in st.named && s in st.written && s in st.entries
    ensures st.entries[s].projectId == project && st.entries[s].project == st.tables.projects[project]
  {
    var names := Client.Expected(st.tables, project);
    var ids := ListSnapshots(st.tables, project, Client.ENSURE_CACHED_LIMIT, false);
    var k :| 0 <= k < |names| && names[k] == name;
    s := ids[k];
    assert SnapshotOK(st, s) && DurableAt(env, st, s) && EntryOK(st, s);
  }

  /** If iRODS has an object for it, it is the snapshot's batch. */
  lemma NamedByRow(env: Env, st: Store, project: string, name: string) returns (s: nat)
    requires Dependable(env) && StoreOK(env, st) && project in st.tables.projects
    requires name in Client.Expected(st.tables, project) && !Sync.Sentinel(name)
    requires Target(st.tables.projects[project].ducklakePath, name) in st.objects
    ensures name == SnapshotFile(s) && s in st.written && s in st.entries
    ensures Lookup(st.objects, Target(st.tables.projects[project].ducklakePath, name)) == Some(Parquet(st.written[s]))
  {
    s := NameOfRow(env, st, project, name);
    Addressing("", "", st.tables.projects[project].ducklakePath, s, "", "", "", s);
    assert ObjectOK(env, st, Target(st.tables.projects[project].ducklakePath, name), s);
    assert DurableAt(env, st, s);
  }

  /** With exclusive recovery committed snapshots stay committed, settled rows settled. */
  lemma CommittedStay(env: Env, ws: seq<World>, ls: seq<Label>, i: nat, j: nat, project: string)
    requires env.exclusive && Run(env, ws, ls) && Init(ws[0]) && i <= j <= |ls|
    ensures Committed(ws[i].store.tables, project) <= Committed(ws[j].store.tables, project)
    ensures SnapshotIds(ws[i].store.tables, project, false) <= SnapshotIds(ws[j].store.tables, project, false)
  {
    forall s | s in SnapshotIds(ws[i].store.tables, project, false)
      ensures s in SnapshotIds(ws[j].store.tables, project, false)
    {
      SnapshotLifecycle(env, ws, ls, i, j, s);
    }
    forall s | s in Committed(ws[i].store.tables, project) ensures s in Committed(ws[j].store.tables, project) {
      SnapshotFileInjective(s, s);
      SnapshotLifecycle(env, ws, ls, i, j, s);
    }
  }

  /** The lake a read on a host sees once its cache is filled. */
  ghost predicate ReadySince(w: World, host: nat, lakeRoot: string, project: string, files: map<string, Blob>, pulled: seq<string>) {
    && project in w.store.tables.projects
    && Sync.Filled(Restart.FilesOn(w.store.caches, host), files, lakeRoot, w.store.tables.projects[project].ducklakePath,
                   Client.Expected(w.store.tables, project), pulled, w.store.objects)
  }

  /**
   * Cache transparency. Two reads on any hosts, at ws[i] and at ws[j], each
   * after a completed fill, with any steps in between, evictions, uploads and
   * other reads included: every row of every snapshot committed at ws[i] is in
   * both lakes, each time exactly as often as it was recorded.
   */
  lemma CacheIsTransparent(env: Env, ws: seq<World>, ls: seq<Label>, i: nat, j: nat, project: string,
                           host: nat, lakeRoot: string, files: map<string, Blob>, pulled: seq<string>,
                           host': nat, lakeRoot': string, files': map<string, Blob>, pulled': seq<string>, c: Change)
    requires env.exclusive && Run(env, ws, ls) && Init(ws[0]) && i <= j <= |ls|
    requires |SnapshotIds(ws[j].store.tables, project, false)| <= 1000
    requires ReadySince(ws[i], host, lakeRoot, project, files, pulled)
    requires ReadySince(ws[j], host', lakeRoot', project, files', pulled')
    requires c.snapshotId in Committed(ws[i].store.tables, project)
    ensures View(files, lakeRoot)[c] == View(files', lakeRoot')[c] == BatchOf(ws[i].store, c.snapshotId)[c]
  {
    CommittedStay(env, ws, ls, i, j, project);
    SubsetSize(SnapshotIds(ws[i].store.tables, project, false), SnapshotIds(ws[j].store.tables, project, false));
    ReadIsWhole(env, ws, ls, i, project, host, lakeRoot, files, pulled, c);
    ReadIsWhole(env, ws, ls, j, project, host', lakeRoot', files', pulled', c);
    RunGrows(env, ws, ls, i, j);
    Reachable(env, ws, ls, i);
    CommittedEntries(env, ws[i].store, project);
  }

  lemma ReadIsWhole(env: Env, ws: seq<World>, ls: seq<Label>, i: nat, project: string, host: nat, lakeRoot: string,
                    files: map<string, Blob>, pulled: seq<string>, c: Change)
    requires Dependable(env) && Run(env, ws, ls) && Init(ws[0]) && i <= |ls|
    requires |SnapshotIds(ws[i].store.tables, project, false)| <= 1000
    requires ReadySince(ws[i], host, lakeRoot, project, files, pulled)
    requires c.snapshotId in Committed(ws[i].store.tables, project)
    ensures View(files, lakeRoot)[c] == BatchOf(ws[i].store, c.snapshotId)[c]
  {
    var st := ws[i].store;
    Reachable(env, ws, ls, i);
    RunLabels(env, ws, ls, i);
    CachesAreFaithful(env, st, host, lakeRoot);
    AllListed(st.tables, project);
    CommittedEntries(env, st, project);
    FillMakesWhole(env, st, lakeRoot, project, Restart.FilesOn(st.caches, host), files, pulled);
  }

  // ------------------------------------------------------------- what else a read shows

  /**
   * A read shows only committed rows exactly when the lake directory of its
   * host caches the file of no uncommitted snapshot.
   */
  lemma ShowsOnlyCommitted(env: Env, ws: seq<World>, ls: seq<Label>, i: nat, host: nat, lakeRoot: string, project: string)
    requires Dependable(env) && Run(env, ws, ls) && Init(ws[0]) && i <= |ls|
    ensures var files, ids := Restart.FilesOn(ws[i].store.caches, host), Committed(ws[i].store.tables, project);
            (forall c | c in View(files, lakeRoot) :: c.snapshotId in ids) <==>
            (forall s: nat {:trigger SnapshotFile(s)} | lakeRoot + "/" + SnapshotFile(s) in files :: s in ids)
  {
    Reachable(env, ws, ls, i);
    RunLabels(env, ws, ls, i);
    RunNoneEmpty(env, ws, ls, i);
    CachesAreFaithful(env, ws[i].store, host, lakeRoot);
    ShowsExactlyTheCached(env, ws[i].store, Restart.FilesOn(ws[i].store.caches, host), lakeRoot,
                          Committed(ws[i].store.tables, project));
  }
}
