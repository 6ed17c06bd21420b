// When an unattended pending snapshot can still be settled: exactly when its
// row is in the push queue.
module Settling {
  import opened Wrappers
  import opened Avu
  import opened Names
  import opened Storage
  import opened CatalogTables
  import opened Protocol
  import opened Invariant
  import opened Safety
  import opened Stranded
  import Draining
  import Recovery
  import RecoveryRefines
  import Restart

  // -------------------------------------------------------------- recovery runs

  /**
   * One run whose uploads succeed commits exactly the pending snapshots that
   * are queued.
   */
  lemma FairRunSettlesTheQueued(run: Recovery.Run, s: nat)
    requires Restart.FairRun(run)
    requires s in run.site.tables.snapshots && run.site.tables.snapshots[s].parquetFile == PENDING
    ensures s in run.After().tables.snapshots
    ensures run.After().tables.snapshots[s].parquetFile != PENDING <==> s in run.site.tables.pending
  {
    Restart.FairRunSettles(run);
  }

  /** A row that is not queued is left alone by a run. */
  lemma RunSpares(run: Recovery.Run, s: nat)
    requires run.Valid() && s !in run.site.tables.pending
    ensures Recovery.SameRow(run.site.tables, run.After().tables, s)
  {
    Recovery.EachRow(run, s);
  }

  /** Between runs nobody else touches the row or the snapshot. */
  ghost predicate Untouched(runs: seq<Recovery.Run>, s: nat)
    requires forall i | 0 <= i < |runs| :: runs[i].Valid()
  {
    forall i | 0 <= i < |runs| - 1 :: Recovery.SameRow(runs[i].After().tables, runs[i + 1].site.tables, s)
  }

  lemma {:induction false} RunsSpare(runs: seq<Recovery.Run>, maxAttempts: int, s: nat)
    requires Draining.Succession(runs, maxAttempts) && runs != [] && Untouched(runs, s)
    requires s !in runs[0].site.tables.pending
    ensures Recovery.SameRow(runs[0].site.tables, runs[|runs| - 1].After().tables, s)
  {
    var m := |runs| - 1;
    if m > 0 {
      RunsSpare(runs[..m], maxAttempts, s);
      assert Recovery.SameRow(runs[m - 1].After().tables, runs[m - 1 + 1].site.tables, s);
    }
    RunSpares(runs[m], s);
  }

  /**
   * In any weather: after as many runs as the queue is heavy, a pending
   * snapshot is over exactly when it was queued.
   */
  lemma DrainingSettlesTheQueued(runs: seq<Recovery.Run>, maxAttempts: int, s: nat)
    requires Draining.Succession(runs, maxAttempts) && runs != [] && Untouched(runs, s)
    requires |runs| >= Draining.Load(Queue(runs[0].site.tables.pending), maxAttempts)
    requires s in runs[0].site.tables.snapshots && runs[0].site.tables.snapshots[s].parquetFile == PENDING
    requires s in runs[0].site.tables.pending ==> BaseName(runs[0].site.tables.pending[s].localPath) != PENDING
    ensures Draining.Over(runs[|runs| - 1].After().tables, s) <==> s in runs[0].site.tables.pending
  {
    if s in runs[0].site.tables.pending {
      forall i | 0 <= i < |runs| - 1 && Draining.Over(runs[i].After().tables, s)
        ensures Draining.Over(runs[i + 1].site.tables, s)
      {
        assert Recovery.SameRow(runs[i].After().tables, runs[i + 1].site.tables, s);
      }
      Draining.DrainedIsSettled(runs, maxAttempts, s);
    } else {
      RunsSpare(runs, maxAttempts, s);
    }
  }

  // ------------------------------------------------------- recovery within the protocol

  ghost predicate Continues(env: Env, ws: seq<World>, ls: seq<Label>, ws': seq<World>, ls': seq<Label>) {
    Run(env, ws', ls') && |ws| <= |ws'| && |ls| <= |ls'| && ws'[..|ws|] == ws && ls'[..|ls|] == ls
  }

  lemma ContinuesTwice(env: Env, ws: seq<World>, ls: seq<Label>, ws1: seq<World>, ls1: seq<Label>, ws2: seq<World>, ls2: seq<Label>)
    requires Continues(env, ws, ls, ws1, ls1) && Continues(env, ws1, ls1, ws2, ls2)
    ensures Continues(env, ws, ls, ws2, ls2)
  {
    assert ws2[..|ws1|][..|ws|] == ws2[..|ws|];
    assert ls2[..|ls1|][..|ls|] == ls2[..|ls|];
  }

  lemma Continue(env: Env, ws: seq<World>, ls: seq<Label>, l: Label) returns (ws': seq<World>, ls': seq<Label>)
    requires Run(env, ws, ls) && Enabled(env, ws[|ls|], l)
    ensures Continues(env, ws, ls, ws', ls')
    ensures |ls'| == |ls| + 1 && ws'[|ls'|] == Step(env, ws[|ls|], l)
  {
    ws', ls' := Extend(env, ws, ls, l);
  }

  /** Everybody crashes or stops; the stores stay as they are. */
  lemma {:induction false} AllStop(env: Env, ws: seq<World>, ls: seq<Label>) returns (ws': seq<World>, ls': seq<Label>)
    requires Run(env, ws, ls)
    ensures Continues(env, ws, ls, ws', ls')
    ensures ws'[|ls'|] == World(ws[|ls|].store, map[], map[])
    decreases |ws[|ls|].writers| + |ws[|ls|].recoverers|
  {
    var w := ws[|ls|];
    if w.writers != map[] {
      var id :| id in w.writers;
      var ws1, ls1 := Continue(env, ws, ls, Writes(id, Crash));
      assert |w.writers - {id}| < |w.writers| by { assert (w.writers - {id}).Keys == w.writers.Keys - {id}; }
      ws', ls' := AllStop(env, ws1, ls1);
      ContinuesTwice(env, ws, ls, ws1, ls1, ws', ls');
    } else if w.recoverers != map[] {
      var id :| id in w.recoverers;
      var ws1, ls1 := Continue(env, ws, ls, Recovers(id, Stop));
      assert |w.recoverers - {id}| < |w.recoverers| by { assert (w.recoverers - {id}).Keys == w.recoverers.Keys - {id}; }
      ws', ls' := AllStop(env, ws1, ls1);
      ContinuesTwice(env, ws, ls, ws1, ls1, ws', ls');
    } else {
      ws', ls' := ws, ls;
    }
  }

  /** A lone recoverer may take any steps its own code allows. */
  lemma {:induction false} LoneRecovererGoes(env: Env, ws: seq<World>, ls: seq<Label>, r: Recoverer, acts: seq<RecovererAct>,
                                             st': Store, r': Recoverer) returns (ws': seq<World>, ls': seq<Label>)
    requires Run(env, ws, ls) && ws[|ls|].writers == map[] && ws[|ls|].recoverers == map[0 := r]
    requires RecoveryRefines.GoMay(env, ws[|ls|].store, r, acts)
    requires RecoveryRefines.Go(ws[|ls|].store, r, acts) == (st', Some(r'))
    ensures Continues(env, ws, ls, ws', ls')
    ensures ws'[|ls'|] == World(st', map[], map[0 := r'])
    decreases |acts|
  {
    if acts == [] {
      ws', ls' := ws, ls;
    } else {
      var (st1, r1) := RecovererStep(ws[|ls|].store, r, acts[0]);
      var ws1, ls1 := Continue(env, ws, ls, Recovers(0, acts[0]));
      assert ws1[|ls1|].recoverers == map[0 := r1.value];
      ws', ls' := LoneRecovererGoes(env, ws1, ls1, r1.value, acts[1..], st', r');
      ContinuesTwice(env, ws, ls, ws1, ls1, ws', ls');
    }
  }

  /** iRODS is down: every upload is refused. */
  function Outage(): nat -> Recovery.Attempt {
    n => Recovery.Attempt(None, true, None, "iRODS is down")
  }

  function OutageRun(st: Store, maxAttempts: int, limit: nat): Recovery.Run {
    Recovery.Run(Restart.SiteOf(st), Restart.FilesOn(st.caches, 0), maxAttempts, limit, Outage())
  }

  /** One recovery run, during an outage, as a piece of the protocol's run. */
  lemma RecoverOnce(env: Env, ws: seq<World>, ls: seq<Label>, maxAttempts: int, limit: nat)
    returns (ws': seq<World>, ls': seq<Label>)
    requires Run(env, ws, ls) && ws[|ls|].writers == map[] && ws[|ls|].recoverers == map[]
    requires Keyed(ws[|ls|].store.tables.pending)
    ensures Continues(env, ws, ls, ws', ls')
    ensures ws'[|ls'|].writers == map[] && ws'[|ls'|].recoverers == map[]
    ensures Restart.SiteOf(ws'[|ls'|].store) == OutageRun(ws[|ls|].store, maxAttempts, limit).After()
  {
    var st := ws[|ls|].store;
    var r := Recoverer(0, maxAttempts, ListPending(st.tables, limit), Next);
    var ws1, ls1 := Continue(env, ws, ls, StartRecovery(0, 0, maxAttempts, limit));
    assert ws1[|ls1|] == World(st, map[], map[0 := r]);
    var acts, st' := LoopLeads(env, st, r);
    var ws2, ls2 := LoneRecovererGoes(env, ws1, ls1, r, acts, st', r.(rows := []));
    ContinuesTwice(env, ws, ls, ws1, ls1, ws2, ls2);
    ws', ls' := RecovererLeaves(env, ws2, ls2, r.(rows := []));
    ContinuesTwice(env, ws, ls, ws2, ls2, ws', ls');
  }

  /** The loop over all rows, during an outage. */
  lemma LoopLeads(env: Env, st: Store, r: Recoverer) returns (acts: seq<RecovererAct>, st': Store)
    requires r.stage.Next?
    ensures RecoveryRefines.GoMay(env, st, r, acts)
    ensures RecoveryRefines.Go(st, r, acts) == (st', Some(r.(rows := [])))
    ensures Restart.SiteOf(st') ==
            Recovery.RecoverRows(Restart.SiteOf(st), Restart.FilesOn(st.caches, r.host), r.maxAttempts, r.rows, Outage()).0
  {
    OutageIsPlausible(env, st, r);
    acts, st' := RecoveryRefines.LoopIsSteps(env, st, r, Outage(), |r.rows|);
    assert r.rows[|r.rows|..] == [] && r.rows[..|r.rows|] == r.rows;
  }

  /** Any environment allows uploads that raise and store nothing. */
  lemma OutageIsPlausible(env: Env, st: Store, r: Recoverer)
    ensures RecoveryRefines.PlausibleWeather(env, st, r, Outage())
  {
  }

  lemma RecovererLeaves(env: Env, ws: seq<World>, ls: seq<Label>, r: Recoverer) returns (ws': seq<World>, ls': seq<Label>)
    requires Run(env, ws, ls) && ws[|ls|].recoverers == map[0 := r]
    ensures Continues(env, ws, ls, ws', ls')
    ensures ws'[|ls'|] == ws[|ls|].(recoverers := map[])
  {
    ws', ls' := Continue(env, ws, ls, Recovers(0, Stop));
    assert map[0 := r] - {0} == map[];
  }

  /**
   * With any attempt cap and any limit of at least one, recovery alone settles
   * a queued snapshot, even while every upload fails.
   */
  lemma {:induction false} RecoverUntilOver(env: Env, ws: seq<World>, ls: seq<Label>, maxAttempts: int, limit: nat, s: nat)
    returns (ws': seq<World>, ls': seq<Label>)
    requires Run(env, ws, ls) && ws[|ls|].writers == map[] && ws[|ls|].recoverers == map[] && limit >= 1
    requires Keyed(ws[|ls|].store.tables.pending) && Draining.InHand(ws[|ls|].store.tables, s)
    ensures Continues(env, ws, ls, ws', ls')
    ensures Draining.Over(ws'[|ls'|].store.tables, s)
    decreases Draining.Load(Queue(ws[|ls|].store.tables.pending), maxAttempts)
  {
    var st := ws[|ls|].store;
    if Draining.Over(st.tables, s) {
      ws', ls' := ws, ls;
    } else {
      var run := OutageRun(st, maxAttempts, limit);
      var ws1, ls1 := RecoverOnce(env, ws, ls, maxAttempts, limit);
      RunLightensAll(run);
      Draining.RunKeepsInHand(run, s);
      ws', ls' := RecoverUntilOver(env, ws1, ls1, maxAttempts, limit, s);
      ContinuesTwice(env, ws, ls, ws1, ls1, ws', ls');
    }
  }

  lemma NoIds(q: seq<PendingPush>)
    ensures q == [] <==> Recovery.Ids(q) == {}
  {
    if q != [] { assert q[0].snapshotId in Recovery.Ids(q); }
  }

  lemma RunLightensAll(run: Recovery.Run)
    requires run.Valid() && run.limit >= 1 && run.site.tables.pending != map[]
    ensures Keyed(run.After().tables.pending)
    ensures Draining.Load(Queue(run.After().tables.pending), run.maxAttempts)
          < Draining.Load(Queue(run.site.tables.pending), run.maxAttempts)
  {
    var q := Queue(run.site.tables.pending);
    var n' := Draining.RunLightens(run, |q|);
    var q' := Queue(run.After().tables.pending);
    assert q[..|q|] == q && q[|q|..] == [];
    NoIds(q'[n'..]);
    assert q'[..n'] == q';
  }

  // -------------------------------------------------------------------- the condition

  /** Pending, and no live writer or recoverer holds it. */
  ghost predicate Unattended(w: World, s: nat) {
    s in w.store.tables.snapshots && w.store.tables.snapshots[s].parquetFile == PENDING && Unheld(w, s)
  }

  /** A queued snapshot can be settled from any reachable state. */
  lemma QueuedCanSettle(env: Env, ws: seq<World>, ls: seq<Label>, maxAttempts: int, limit: nat, s: nat)
    returns (ws': seq<World>, ls': seq<Label>)
    requires Run(env, ws, ls) && Init(ws[0]) && s in ws[|ls|].store.tables.pending && limit >= 1
    ensures Continues(env, ws, ls, ws', ls') && Draining.Over(ws'[|ls'|].store.tables, s)
  {
    var t := ws[|ls|].store.tables;
    Reachable(env, ws, ls, |ls|);
    QueueIsKeyed(t);
    Restart.QueueTargetsDistinct(ws[|ls|].store);
    var ws1, ls1 := AllStop(env, ws, ls);
    ws', ls' := RecoverUntilOver(env, ws1, ls1, maxAttempts, limit, s);
    ContinuesTwice(env, ws, ls, ws1, ls1, ws', ls');
  }

  lemma QueueIsKeyed(t: Tables)
    requires Constraints(t)
    ensures Keyed(t.pending)
  {
    forall s | s in t.pending ensures t.pending[s].snapshotId == s { assert PendingReferences(t, s); }
  }

  /**
   * What a crash leaves is recovered exactly when it is queued. In any
   * reachable state, for a pending snapshot nobody holds: some later state has
   * it committed, failed or removed if and only if its id is in the push queue.
   */
  lemma SettledExactlyWhenQueued(env: Env, ws: seq<World>, ls: seq<Label>, s: nat)
    requires Run(env, ws, ls) && Init(ws[0]) && Unattended(ws[|ls|], s)
    ensures (exists ws': seq<World>, ls': seq<Label> :: Continues(env, ws, ls, ws', ls') && Draining.Over(ws'[|ls'|].store.tables, s))
       <==> s in ws[|ls|].store.tables.pending
  {
    var t := ws[|ls|].store.tables;
    if s in t.pending {
      var ws', ls' := QueuedCanSettle(env, ws, ls, Recovery.DEFAULT_MAX_ATTEMPTS, 1, s);
    } else {
      Reachable(env, ws, ls, |ls|);
      assert References(t, s);
      assert IsStranded(ws[|ls|], s);
      forall ws': seq<World>, ls': seq<Label> | Continues(env, ws, ls, ws', ls') ensures !Draining.Over(ws'[|ls'|].store.tables, s) {
        StaysStranded(env, ws, ls, ws', ls', s);
      }
    }
  }

  lemma StaysStranded(env: Env, ws: seq<World>, ls: seq<Label>, ws': seq<World>, ls': seq<Label>, s: nat)
    requires Run(env, ws, ls) && Continues(env, ws, ls, ws', ls') && IsStranded(ws[|ls|], s)
    ensures IsStranded(ws'[|ls'|], s)
  {
    assert ws'[|ls|] == ws'[..|ws|][|ls|];
    StrandedForever(env, ws', ls', |ls|, |ls'|, s);
  }
}
