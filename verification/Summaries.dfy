// What the counters of a recovery summary mean, over the state before and after
// the run.
module Summaries {
  import opened Wrappers
  import opened Names
  import opened Storage
  import opened CatalogTables
  import opened Protocol
  import opened Safety
  import opened ProtocolTheorems
  import opened Recovery
  import Invariant
  import Restart

  // -------------------------------------------------------------------- counting

  function Positions(outcomes: seq<Outcome>, o: Outcome): set<nat> {
    set i | 0 <= i < |outcomes| && outcomes[i] == o
  }

  lemma PositionsLast(outcomes: seq<Outcome>, o: Outcome)
    requires outcomes != []
    ensures |Positions(outcomes, o)| ==
            |Positions(outcomes[..|outcomes| - 1], o)| + if outcomes[|outcomes| - 1] == o then 1 else 0
  {
    var n := |outcomes| - 1;
    var before, all := Positions(outcomes[..n], o), Positions(outcomes, o);
    assert n !in before;
    if outcomes[n] == o {
      assert all == before + {n};
    } else {
      assert all == before;
    }
  }

  /** Each counter is the number of rows that ended that way. */
  lemma {:induction false} TallyCounts(outcomes: seq<Outcome>)
    ensures var s := Tally(outcomes);
            && s.pushed == |Positions(outcomes, Pushed)|
            && s.committed == |Positions(outcomes, AlreadyCommitted)|
            && s.failed == |Positions(outcomes, GaveUp)|
            && s.orphaned == |Positions(outcomes, Orphaned)|
            && s.missingLocal == |Positions(outcomes, MissingLocal)|
  {
    if outcomes != [] {
      TallyCounts(outcomes[..|outcomes| - 1]);
      PositionsLast(outcomes, Pushed);
      PositionsLast(outcomes, AlreadyCommitted);
      PositionsLast(outcomes, GaveUp);
      PositionsLast(outcomes, Orphaned);
      PositionsLast(outcomes, MissingLocal);
    }
  }

  // ------------------------------------------------------------------ the branches

  /** The row's snapshot was waiting to be committed. */
  predicate WasPending(t: Tables, row: PendingPush) {
    row.snapshotId in t.snapshots && t.snapshots[row.snapshotId].parquetFile == "pending"
  }

  /** Which rows take which branch; a row that is pushed may succeed or fail. */
  ghost predicate Branched(t: Tables, files: map<string, Blob>, maxAttempts: int, row: PendingPush, o: Outcome) {
    && (o.Orphaned? <==> row.snapshotId !in t.snapshots)
    && (o.AlreadyCommitted? <==> row.snapshotId in t.snapshots && t.snapshots[row.snapshotId].parquetFile != "pending")
    && (o.GaveUp? <==> WasPending(t, row) && row.attempts >= maxAttempts)
    && (o.MissingLocal? <==> WasPending(t, row) && row.attempts < maxAttempts && row.localPath !in files)
    && (o.Pushed? || o.PushFailed? <==> WasPending(t, row) && row.attempts < maxAttempts && row.localPath in files)
  }

  /** Each listed row takes the branch that the state before the run prescribes. */
  lemma {:induction false} LoopBranches(site: Site, files: map<string, Blob>, maxAttempts: int, rows: seq<PendingPush>,
                                        weather: nat -> Attempt, i: nat)
    requires Recovery.Listed(rows, site.tables.pending) && i < |rows|
    ensures Branched(site.tables, files, maxAttempts, rows[i], RecoverRows(site, files, maxAttempts, rows, weather).1[i])
    decreases |rows|
  {
    var n := |rows| - 1;
    if i < n {
      LoopBranches(site, files, maxAttempts, rows[..n], weather, i);
    } else {
      assert rows[n].snapshotId !in Ids(rows[..n]);
      LoopKeeps(site, files, maxAttempts, rows[..n], weather, rows[n].snapshotId);
    }
  }

  /** How row i of a run ended, seen in the tables before and after. */
  lemma RowEnds(run: Run, i: nat)
    requires run.Valid() && i < |run.Rows()|
    ensures Branched(run.site.tables, run.files, run.maxAttempts, run.Rows()[i], run.Outcomes()[i])
    ensures Handled(run.site, run.After(), run.Rows()[i], run.Outcomes()[i], run.weather(i))
  {
    var m := run.site.tables.pending;
    ListsDistinct(Queue(m), m, m.Keys);
    LoopEffect(run.site, run.files, run.maxAttempts, run.Rows(), run.weather);
    LoopBranches(run.site, run.files, run.maxAttempts, run.Rows(), run.weather, i);
  }

  /** What a row that stays in the queue records: why it stayed. */
  lemma SurvivorsSayWhy(run: Run, i: nat)
    requires run.Valid() && i < |run.Rows()| && run.Rows()[i].snapshotId in run.After().tables.pending
    ensures var row := run.Rows()[i];
            run.After().tables.pending[row.snapshotId] ==
            row.(attempts := row.attempts + 1,
                 lastError := Some(Truncate(if row.localPath !in run.files then "local parquet missing: " + row.localPath
                                            else run.weather(i).error)))
  {
    RowEnds(run, i);
  }

  // -------------------------------------------------------------------- the summary

  ghost predicate IsPushed(run: Run, i: nat)
    requires run.Valid() && i < |run.Rows()|
  {
    var row := run.Rows()[i];
    WasPending(run.site.tables, row) && row.attempts < run.maxAttempts && row.snapshotId !in run.After().tables.pending
  }

  ghost predicate IsFailed(run: Run, i: nat)
    requires run.Valid() && i < |run.Rows()|
  {
    WasPending(run.site.tables, run.Rows()[i]) && run.Rows()[i].attempts >= run.maxAttempts
  }

  /** A survivor whose file is not on this host. */
  ghost predicate IsMissing(run: Run, i: nat)
    requires run.Valid() && i < |run.Rows()|
  {
    run.Rows()[i].snapshotId in run.After().tables.pending && run.Rows()[i].localPath !in run.files
  }

  ghost predicate IsCommitted(run: Run, i: nat)
    requires run.Valid() && i < |run.Rows()|
  {
    var sid := run.Rows()[i].snapshotId;
    sid in run.site.tables.snapshots && run.site.tables.snapshots[sid].parquetFile != "pending"
  }

  ghost predicate IsOrphaned(run: Run, i: nat)
    requires run.Valid() && i < |run.Rows()|
  {
    run.Rows()[i].snapshotId !in run.site.tables.snapshots
  }

  lemma CountOf(outcomes: seq<Outcome>, o: Outcome, s: set<nat>)
    requires forall i: nat :: i in s <==> i < |outcomes| && outcomes[i] == o
    ensures |s| == |Positions(outcomes, o)|
  {
    assert s == Positions(outcomes, o);
  }

  ghost predicate OutcomeIs(run: Run, i: nat)
    requires run.Valid() && i < |run.Rows()|
  {
    var o := run.Outcomes()[i];
    && (o == Pushed <==> IsPushed(run, i))
    && (o == GaveUp <==> IsFailed(run, i))
    && (o == MissingLocal <==> IsMissing(run, i))
    && (o == AlreadyCommitted <==> IsCommitted(run, i))
    && (o == Orphaned <==> IsOrphaned(run, i))
  }

  lemma OutcomeMeans(run: Run, i: nat)
    requires run.Valid() && i < |run.Rows()|
    ensures OutcomeIs(run, i)
  {
    RowEnds(run, i);
  }

  /**
   * The summary, counter by counter, over the state: pushed are the listed rows
   * that were pending, below the cap, and left the queue; failed those pending
   * at the cap; committed those already settled; orphaned those without a
   * snapshot; missing those still queued whose file is not on this host.
   */
  lemma SummaryCounts(run: Run)
    requires run.Valid()
    ensures var s := Tally(run.Outcomes());
            && s.pushed == |set i: nat | i < |run.Rows()| && IsPushed(run, i)|
            && s.failed == |set i: nat | i < |run.Rows()| && IsFailed(run, i)|
            && s.missingLocal == |set i: nat | i < |run.Rows()| && IsMissing(run, i)|
            && s.committed == |set i: nat | i < |run.Rows()| && IsCommitted(run, i)|
            && s.orphaned == |set i: nat | i < |run.Rows()| && IsOrphaned(run, i)|
  {
    TallyCounts(run.Outcomes());
    CountPushed(run);
    CountGaveUp(run);
    CountMissingLocal(run);
    CountAlreadyCommitted(run);
    CountOrphaned(run);
  }

  lemma CountPushed(run: Run)
    requires run.Valid()
    ensures |Positions(run.Outcomes(), Pushed)| == |set i: nat | i < |run.Rows()| && IsPushed(run, i)|
  {
    var outcomes := run.Outcomes();
    var found := set i: nat | i < |run.Rows()| && IsPushed(run, i);
    forall i: nat ensures i in found <==> i < |outcomes| && outcomes[i] == Pushed {
      if i < |run.Rows()| { OutcomeMeans(run, i); }
    }
    CountOf(outcomes, Pushed, found);
  }

  lemma CountGaveUp(run: Run)
    requires run.Valid()
    ensures |Positions(run.Outcomes(), GaveUp)| == |set i: nat | i < |run.Rows()| && IsFailed(run, i)|
  {
    var outcomes := run.Outcomes();
    var found := set i: nat | i < |run.Rows()| && IsFailed(run, i);
    forall i: nat ensures i in found <==> i < |outcomes| && outcomes[i] == GaveUp {
      if i < |run.Rows()| { OutcomeMeans(run, i); }
    }
    CountOf(outcomes, GaveUp, found);
  }

  lemma CountMissingLocal(run: Run)
    requires run.Valid()
    ensures |Positions(run.Outcomes(), MissingLocal)| == |set i: nat | i < |run.Rows()| && IsMissing(run, i)|
  {
    var outcomes := run.Outcomes();
    var found := set i: nat | i < |run.Rows()| && IsMissing(run, i);
    forall i: nat ensures i in found <==> i < |outcomes| && outcomes[i] == MissingLocal {
      if i < |run.Rows()| { OutcomeMeans(run, i); }
    }
    CountOf(outcomes, MissingLocal, found);
  }

  lemma CountAlreadyCommitted(run: Run)
    requires run.Valid()
    ensures |Positions(run.Outcomes(), AlreadyCommitted)| == |set i: nat | i < |run.Rows()| && IsCommitted(run, i)|
  {
    var outcomes := run.Outcomes();
    var found := set i: nat | i < |run.Rows()| && IsCommitted(run, i);
    forall i: nat ensures i in found <==> i < |outcomes| && outcomes[i] == AlreadyCommitted {
      if i < |run.Rows()| { OutcomeMeans(run, i); }
    }
    CountOf(outcomes, AlreadyCommitted, found);
  }

  lemma CountOrphaned(run: Run)
    requires run.Valid()
    ensures |Positions(run.Outcomes(), Orphaned)| == |set i: nat | i < |run.Rows()| && IsOrphaned(run, i)|
  {
    var outcomes := run.Outcomes();
    var found := set i: nat | i < |run.Rows()| && IsOrphaned(run, i);
    forall i: nat ensures i in found <==> i < |outcomes| && outcomes[i] == Orphaned {
      if i < |run.Rows()| { OutcomeMeans(run, i); }
    }
    CountOf(outcomes, Orphaned, found);
  }

  /** Row i was waiting before the run, and carries this name after it. */
  ghost predicate Became(run: Run, i: nat, file: string)
    requires run.Valid() && i < |run.Rows()|
  {
    var sid := run.Rows()[i].snapshotId;
    && WasPending(run.site.tables, run.Rows()[i])
    && sid in run.After().tables.snapshots && run.After().tables.snapshots[sid].parquetFile == file
  }

  ghost predicate GotItsName(run: Run, i: nat)
    requires run.Valid() && i < |run.Rows()|
  {
    Became(run, i, "snapshot_" + Decimal(run.Rows()[i].snapshotId) + ".parquet")
  }

  /**
   * A run over any state the protocol reaches: pushed are the listed rows whose
   * snapshots went from pending to their real names, failed those that went from
   * pending to failed.
   */
  lemma SummaryInRuns(env: Env, ws: seq<World>, ls: seq<Label>, j: nat, run: Run)
    requires Protocol.Run(env, ws, ls) && Init(ws[0]) && j <= |ls| && run.site == Restart.SiteOf(ws[j].store)
    requires run.Valid()
    ensures Tally(run.Outcomes()).pushed == |set i: nat | i < |run.Rows()| && GotItsName(run, i)|
    ensures Tally(run.Outcomes()).failed == |set i: nat | i < |run.Rows()| && Became(run, i, "failed")|
  {
    Reachable(env, ws, ls, j);
    SummaryOfStore(env, ws[j].store, run);
  }

  lemma SummaryOfStore(env: Env, st: Store, run: Run)
    requires Invariant.StoreOK(env, st) && run.site == Restart.SiteOf(st) && run.Valid()
    ensures Tally(run.Outcomes()).pushed == |set i: nat | i < |run.Rows()| && GotItsName(run, i)|
    ensures Tally(run.Outcomes()).failed == |set i: nat | i < |run.Rows()| && Became(run, i, "failed")|
  {
    SummaryCounts(run);
    forall i: nat | i < |run.Rows()|
      ensures IsPushed(run, i) <==> GotItsName(run, i)
      ensures IsFailed(run, i) <==> Became(run, i, "failed")
    {
      NameAfter(env, st, run, i);
    }
    assert (set i: nat | i < |run.Rows()| && IsPushed(run, i)) == set i: nat | i < |run.Rows()| && GotItsName(run, i);
    assert (set i: nat | i < |run.Rows()| && IsFailed(run, i)) == set i: nat | i < |run.Rows()| && Became(run, i, "failed");
  }

  lemma NameAfter(env: Env, st: Store, run: Run, i: nat)
    requires Invariant.StoreOK(env, st) && run.site == Restart.SiteOf(st) && run.Valid() && i < |run.Rows()|
    ensures IsPushed(run, i) <==> GotItsName(run, i)
    ensures IsFailed(run, i) <==> Became(run, i, "failed")
  {
    var row, m := run.Rows()[i], st.tables.pending;
    RowEnds(run, i);
    ListsDistinct(Queue(m), m, m.Keys);
    RowAddressed(st, row.snapshotId);
    SnapshotFileInjective(row.snapshotId, row.snapshotId);
  }
}
