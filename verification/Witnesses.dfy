// Concrete runs: a recovery interrupted half-way, and a read that shows what
// was never committed.
module Witnesses {
  import opened Wrappers
  import opened Avu
  import opened Names
  import opened Storage
  import opened CatalogTables
  import opened Protocol
  import opened Invariant
  import opened Safety
  import opened Lake
  import opened LakeContents
  import opened Overlap
  import Recording
  import Recovery
  import Restart
  import Serial

  // ------------------------------------------------------- an interrupted recovery

  function Accepting(): nat -> Recovery.Attempt {
    n => Recovery.Attempt(Some(Parquet([CHANGE])), false, Some(NoChecksum), "")
  }

  function RunOver(st: Store): Recovery.Run {
    Recovery.Run(Restart.SiteOf(st), Restart.FilesOn(st.caches, 0), Recovery.DEFAULT_MAX_ATTEMPTS, 1, Accepting())
  }

  lemma RunOverIsGood(st: Store)
    requires st.tables.pending == map[1 := Row1(0)] && Key(0, Row1(0).localPath) in st.caches
    requires st.caches[Key(0, Row1(0).localPath)] == Parquet([CHANGE])
    ensures Restart.GoodRun(RunOver(st), st, 0) && RunOver(st).Valid()
  {
    Queued1(st.tables, 0);
    Restart.FileOnHost(st.caches, 0, Row1(0).localPath);
  }

  /** From i on the run takes fair recovery steps only. */
  ghost predicate FairFrom(env: Env, ws: seq<World>, ls: seq<Label>, i: nat) {
    && Run(env, ws, ls) && Init(ws[0]) && i <= |ls|
    && ws[i] == World(StoreWith(0, PENDING, map[], {}), map[], map[])
    && forall k | i <= k < |ls| :: Restart.FairStep(ws[k], ls[k], 0, Recovery.DEFAULT_MAX_ATTEMPTS)
  }

  lemma GoOn(env: Env, ws: seq<World>, ls: seq<Label>, i: nat, l: Label) returns (ws': seq<World>, ls': seq<Label>)
    requires FairFrom(env, ws, ls, i) && Enabled(env, ws[|ls|], l)
    requires Restart.FairStep(ws[|ls|], l, 0, Recovery.DEFAULT_MAX_ATTEMPTS)
    ensures FairFrom(env, ws', ls', i) && |ls'| == |ls| + 1 && ws'[|ls'|] == Step(env, ws[|ls|], l)
  {
    ws', ls' := Extend(env, ws, ls, l);
    forall k | i <= k < |ls'| ensures Restart.FairStep(ws'[k], ls'[k], 0, Recovery.DEFAULT_MAX_ATTEMPTS) {
      assert k < |ls| ==> ws'[k] == ws[k] && ls'[k] == ls[k];
    }
  }

  function RecovererAt(stage: RecovererStage): Recoverer {
    Recoverer(0, Recovery.DEFAULT_MAX_ATTEMPTS, [Row1(0)], stage)
  }

  lemma UntilChecking(env: Env) returns (ws: seq<World>, ls: seq<Label>, i: nat)
    ensures FairFrom(env, ws, ls, i)
    ensures ws[|ls|] == World(StoreWith(0, PENDING, map[], {}), map[], map[0 := RecovererAt(Checking)])
  {
    ws, ls := UntilLeft(env, true);
    i := |ls|;
    Queued1(ws[i].store.tables, 0);
    ws, ls := GoOn(env, ws, ls, i, StartRecovery(0, 0, Recovery.DEFAULT_MAX_ATTEMPTS, 1));
    assert ws[|ls|] == World(StoreWith(0, PENDING, map[], {}), map[], map[0 := RecovererAt(Next)]);
    ws, ls := GoOn(env, ws, ls, i, Recovers(0, Look));
  }

  lemma UntilStopped(env: Env) returns (ws: seq<World>, ls: seq<Label>, i: nat)
    ensures FairFrom(env, ws, ls, i) && i < |ls|
    ensures ws[|ls|] == World(StoreWith(0, PENDING, map[TargetOf(PROJECT, 1) := Parquet([CHANGE])], {}), map[], map[])
  {
    ws, ls, i := UntilChecking(env);
    ws, ls := GoOn(env, ws, ls, i, Recovers(0, Check));
    assert ws[|ls|] == World(StoreWith(0, PENDING, map[], {}), map[], map[0 := RecovererAt(Pushing)]);
    ws, ls := GoOn(env, ws, ls, i, Recovers(0, Push(Some(Parquet([CHANGE])), false, "")));
    ws, ls := GoOn(env, ws, ls, i, Recovers(0, Stop));
  }

  /**
   * A recovery stopped after its upload and before its commit: a run that meets
   * every premise of the restart theorem with work left to do.
   */
  lemma InterruptedRecovery(env: Env) returns (ws: seq<World>, ls: seq<Label>, i: nat)
    ensures Run(env, ws, ls) && Init(ws[0]) && i < |ls|
    ensures ws[i].recoverers == map[] && Restart.Calm(ws[i].store, 0, Recovery.DEFAULT_MAX_ATTEMPTS)
    ensures forall k | i <= k < |ls| :: Restart.FairStep(ws[k], ls[k], 0, Recovery.DEFAULT_MAX_ATTEMPTS)
    ensures Restart.GoodRun(RunOver(ws[i].store), ws[i].store, 0)
    ensures Restart.GoodRun(RunOver(ws[|ls|].store), ws[|ls|].store, 0)
    ensures ws[|ls|].store.tables.pending != map[] && ws[|ls|].store.objects != ws[i].store.objects
    ensures RunOver(ws[|ls|].store).Valid() && RunOver(ws[i].store).Valid()
    ensures env.exclusive ==> RunOver(ws[|ls|].store).After() == RunOver(ws[i].store).After()
  {
    ws, ls, i := UntilStopped(env);
    RunOverIsGood(ws[i].store);
    RunOverIsGood(ws[|ls|].store);
    if env.exclusive {
      Restart.InterruptedEqualsUninterrupted(env, ws, ls, i, |ls|, 0, RunOver(ws[i].store), RunOver(ws[|ls|].store));
    }
    assert 1 in ws[|ls|].store.tables.pending;
    assert TargetOf(PROJECT, 1) in ws[|ls|].store.objects;
  }

  // ------------------------------------------------- a read of what is not committed

  /** The rows of snapshot 1 are in the lake of the host that wrote them. */
  lemma WriterSeesItsFile(env: Env, ws: seq<World>, ls: seq<Label>)
    requires Dependable(env) && Run(env, ws, ls) && Init(ws[0])
    requires 1 in ws[|ls|].store.entries && ws[|ls|].store.entries[1].changes == [CHANGE]
    requires Key(0, "/c" + "/" + "p" + "/" + SnapshotFile(1)) in ws[|ls|].store.caches
    ensures View(Restart.FilesOn(ws[|ls|].store.caches, 0), "/c" + "/" + "p")[CHANGE] == 1
  {
    var st := ws[|ls|].store;
    Reachable(env, ws, ls, |ls|);
    RunLabels(env, ws, ls, |ls|);
    CachesAreFaithful(env, st, 0, "/c" + "/" + "p");
    ViewIsCachedBatches(env, st, Restart.FilesOn(st.caches, 0), "/c" + "/" + "p", CHANGE);
    Restart.FileOnHost(st.caches, 0, "/c" + "/" + "p" + "/" + SnapshotFile(1));
  }

  /** A pending snapshot is shown by a read on the host that wrote it. */
  lemma PendingIsShown(env: Env) returns (ws: seq<World>, ls: seq<Label>)
    requires Dependable(env)
    ensures Run(env, ws, ls) && Init(ws[0])
    ensures 1 in ws[|ls|].store.tables.snapshots && ws[|ls|].store.tables.snapshots[1].parquetFile == "pending"
    ensures View(Restart.FilesOn(ws[|ls|].store.caches, 0), "/c" + "/" + "p")[CHANGE] == 1
  {
    ws, ls := UntilWritten(env);
    WriterSeesItsFile(env, ws, ls);
  }

  /** After its writer crashed and every attempt allowed it timed out, it is given up. */
  lemma UntilFailed(env: Env, maxAttempts: nat) returns (ws: seq<World>, ls: seq<Label>)
    ensures Run(env, ws, ls) && Init(ws[0])
    ensures ws[|ls|].store == StoreWith(maxAttempts, FAILED, map[], {}) && ws[|ls|].writers == map[]
  {
    ws, ls := UntilTried(env, true, maxAttempts, maxAttempts);
    ws, ls := TakesUp(env, ws, ls, true, maxAttempts, maxAttempts);
    ws, ls := Extend(env, ws, ls, Recovers(0, GiveUp));
  }

  /** So is a failed one, whatever the attempt cap. */
  lemma FailedIsShown(env: Env, maxAttempts: nat) returns (ws: seq<World>, ls: seq<Label>)
    requires Dependable(env)
    ensures Run(env, ws, ls) && Init(ws[0])
    ensures 1 in ws[|ls|].store.tables.snapshots && ws[|ls|].store.tables.snapshots[1].parquetFile == "failed"
    ensures View(Restart.FilesOn(ws[|ls|].store.caches, 0), "/c" + "/" + "p")[CHANGE] == 1
  {
    ws, ls := UntilFailed(env, maxAttempts);
    WriterSeesItsFile(env, ws, ls);
  }

  // ------------------------------------------------------------- a failed parent

  /**
   * The latest snapshot that record_changes takes as parent has its real name
   * exactly when recovery has not given it up.
   */
  lemma LatestIsCommitted(env: Env, ws: seq<World>, ls: seq<Label>, i: nat, project: string, m: nat)
    requires Run(env, ws, ls) && Init(ws[0]) && i <= |ls| && LatestSnapshotId(ws[i].store.tables, project, false) == Some(m)
    ensures m in ws[i].store.tables.snapshots
    ensures ws[i].store.tables.snapshots[m].parquetFile == "snapshot_" + Decimal(m) + ".parquet" <==>
            ws[i].store.tables.snapshots[m].parquetFile != "failed"
  {
    Reachable(env, ws, ls, i);
    LatestMeans(ws[i].store.tables, project, m);
    assert SnapshotOK(ws[i].store, m);
    SnapshotFileInjective(m, m);
  }

  /** It may have been: the next writer's parent is a failed snapshot. */
  lemma FailedBecomesParent(env: Env, maxAttempts: nat) returns (ws: seq<World>, ls: seq<Label>)
    ensures Run(env, ws, ls) && Init(ws[0])
    ensures 1 in ws[|ls|].store.tables.snapshots && ws[|ls|].store.tables.snapshots[1].parquetFile == "failed"
    ensures 0 in ws[|ls|].writers && ws[|ls|].writers[0].stage == HasParent(Some(1))
  {
    ws, ls := UntilFailed(env, maxAttempts);
    var t := ws[|ls|].store.tables;
    assert SnapshotIds(t, "p", false) == {1};
    ws, ls := Extend(env, ws, ls, StartWriter(0, WriterIn(Begin)));
    ws, ls := Extend(env, ws, ls, Writes(0, ReadParent));
  }

  // ------------------------------------------------------------------- a fork

  function Call1(upload: Recovery.Attempt): Serial.Request {
    Serial.Request(WriterIn(Begin), Recording.Fate(0, 0, false, upload), [CHANGE])
  }

  /** The first push fails, the second call succeeds: snapshot 1 is queued and overtaken. */
  lemma ForkHappens() returns (h: Recording.Host, rs: seq<Serial.Request>)
    ensures Constraints(h.site.tables) && h.site.tables.snapshots == map[]
    ensures forall k | 0 <= k < |rs| :: rs[k].writer.projectId in h.site.tables.projects
    ensures var t := Serial.History(h, rs).site.tables;
            1 in t.snapshots && 1 in t.pending && t.snapshots[1].parquetFile == PENDING && Serial.Overtaken(t, 1)
  {
    h := Recording.Host(Recovery.Site(Tables(map["p" := PROJECT], map[], map[], 1), map[]), map[]);
    var r1, r2 := Call1(Recovery.Attempt(None, true, None, "timed out")), Call1(Accepting()(0));
    rs := [r1, r2];
    assert rs[..1] == [r1] && [r1][..0] == [];
    var mid := Serial.Served(h, r1);
    assert Serial.History(h, [r1]) == mid;
    assert Serial.History(h, rs) == Serial.Served(mid, r2);
    SnapshotFileInjective(1, 2);
    var t := Serial.Served(mid, r2).site.tables;
    assert 2 in Serial.Settled(t, "p");
  }
}
