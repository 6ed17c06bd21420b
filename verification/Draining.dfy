// Repeated recovery runs: the queue empties in a bounded number of runs and no
// row starves, whatever the uploads and the caches do.
module Draining {
  import opened Avu
  import opened Names
  import opened CatalogTables
  import opened Recovery

  /** The runs a row can still take: its failed attempts to come, and the one that drops it. */
  function Weight(row: PendingPush, maxAttempts: int): nat {
    (if row.attempts < maxAttempts then maxAttempts - row.attempts else 0) + 1
  }

  function Load(q: seq<PendingPush>, maxAttempts: int): nat {
    if q == [] then 0 else Load(q[..|q| - 1], maxAttempts) + Weight(q[|q| - 1], maxAttempts)
  }

  lemma {:induction false} LoadOfSum(p: seq<PendingPush>, q: seq<PendingPush>, maxAttempts: int)
    ensures Load(p + q, maxAttempts) == Load(p, maxAttempts) + Load(q, maxAttempts)
  {
    if q == [] {
      assert p + q == p;
    } else {
      LoadOfSum(p, q[..|q| - 1], maxAttempts);
      assert (p + q)[..|p + q| - 1] == p + q[..|q| - 1];
    }
  }

  function Min(a: nat, b: nat): nat {
    if a < b then a else b
  }

  lemma IdsOfSum(p: seq<PendingPush>, q: seq<PendingPush>)
    ensures Ids(p + q) == Ids(p) + Ids(q)
  {
    forall i | 0 <= i < |p| ensures p[i].snapshotId in Ids(p + q) { assert (p + q)[i] == p[i]; }
    forall i | 0 <= i < |q| ensures q[i].snapshotId in Ids(p + q) { assert (p + q)[|p| + i] == q[i]; }
  }

  /** Processing rows lightens them by at least one each. */
  lemma {:induction false} SurvivorsLighter(rows: seq<PendingPush>, outcomes: seq<Outcome>, weather: nat -> Attempt, maxAttempts: int)
    requires |outcomes| == |rows|
    requires forall i | 0 <= i < |rows| && Survives(outcomes[i]) :: rows[i].attempts < maxAttempts
    ensures Load(Survivors(rows, outcomes, weather), maxAttempts) + |rows| <= Load(rows, maxAttempts)
    ensures Ids(Survivors(rows, outcomes, weather)) <= Ids(rows)
  {
    if rows != [] {
      var n := |rows| - 1;
      SurvivorsLighter(rows[..n], outcomes[..n], weather, maxAttempts);
      var front := Survivors(rows[..n], outcomes[..n], weather);
      var last := if Survives(outcomes[n]) then [Retried(rows[n], outcomes[n], weather(n))] else [];
      assert rows == rows[..n] + [rows[n]];
      IdsOfSum(rows[..n], [rows[n]]);
      IdsOfSum(front, last);
      LoadOfSum(front, last, maxAttempts);
      assert [rows[n]][0].snapshotId in Ids([rows[n]]);
    }
  }

  lemma {:induction false} SurvivorsSplit(rows: seq<PendingPush>, outcomes: seq<Outcome>, weather: nat -> Attempt, n: nat)
    returns (tail: seq<PendingPush>)
    requires |outcomes| == |rows| && n <= |rows|
    ensures Survivors(rows, outcomes, weather) == Survivors(rows[..n], outcomes[..n], weather) + tail
    ensures Ids(tail) <= Ids(rows[n..])
  {
    if n < |rows| {
      var m := |rows| - 1;
      var middle := SurvivorsSplit(rows[..m], outcomes[..m], weather, n);
      assert rows[..m][..n] == rows[..n] && outcomes[..m][..n] == outcomes[..n];
      var last := if Survives(outcomes[m]) then [Retried(rows[m], outcomes[m], weather(m))] else [];
      tail := middle + last;
      assert rows[n..] == rows[..m][n..] + [rows[m]];
      IdsOfSum(rows[..m][n..], [rows[m]]);
      IdsOfSum(middle, last);
      assert [rows[m]][0].snapshotId in Ids([rows[m]]);
    } else {
      tail := [];
      assert rows[..n] == rows && outcomes[..n] == outcomes;
    }
  }

  /**
   * One run, seen from the first n rows of the queue: what is left of them
   * comes first in the new queue and is lighter by one for every row processed.
   */
  ghost predicate Lightens(q: seq<PendingPush>, n: nat, q': seq<PendingPush>, n': nat, steps: nat, maxAttempts: int) {
    && n <= |q| && n' <= |q'|
    && Ids(q'[..n']) <= Ids(q[..n])
    && Ids(q'[n'..]) <= Ids(q[n..])
    && Load(q'[..n'], maxAttempts) + steps <= Load(q[..n], maxAttempts)
  }

  lemma RunLightens(run: Run, n: nat) returns (n': nat)
    requires run.Valid() && n <= |run.site.tables.pending|
    ensures Keyed(run.After().tables.pending)
    ensures Lightens(Queue(run.site.tables.pending), n, Queue(run.After().tables.pending), n', Min(run.limit, n), run.maxAttempts)
  {
    var q, rows, outcomes := Queue(run.site.tables.pending), run.Rows(), run.Outcomes();
    RunLeaves(run);
    ListsDistinct(q, run.site.tables.pending, run.site.tables.pending.Keys);
    LoopEffect(run.site, run.files, run.maxAttempts, rows, run.weather);
    if n <= |rows| {
      n' := InsideRun(q, rows, outcomes, run.weather, run.maxAttempts, n);
    } else {
      n' := BeyondRun(q, rows, outcomes, run.weather, run.maxAttempts, n);
    }
  }

  lemma InsideRun(q: seq<PendingPush>, rows: seq<PendingPush>, outcomes: seq<Outcome>, weather: nat -> Attempt,
                  maxAttempts: int, n: nat) returns (n': nat)
    requires |outcomes| == |rows| && rows <= q && n <= |rows|
    requires forall i | 0 <= i < |rows| && Survives(outcomes[i]) :: rows[i].attempts < maxAttempts
    ensures Lightens(q, n, Survivors(rows, outcomes, weather) + q[|rows|..], n', n, maxAttempts)
  {
    var rest := q[|rows|..];
    var left := Survivors(rows[..n], outcomes[..n], weather);
    var tail := SurvivorsSplit(rows, outcomes, weather, n);
    SurvivorsLighter(rows[..n], outcomes[..n], weather, maxAttempts);
    n' := |left|;
    var q' := Survivors(rows, outcomes, weather) + rest;
    assert q'[..n'] == left && q'[n'..] == tail + rest;
    assert q[..n] == rows[..n] && q[n..] == rows[n..] + rest;
    IdsOfSum(tail, rest);
    IdsOfSum(rows[n..], rest);
  }

  lemma BeyondRun(q: seq<PendingPush>, rows: seq<PendingPush>, outcomes: seq<Outcome>, weather: nat -> Attempt,
                  maxAttempts: int, n: nat) returns (n': nat)
    requires |outcomes| == |rows| && rows <= q && |rows| <= n <= |q|
    requires forall i | 0 <= i < |rows| && Survives(outcomes[i]) :: rows[i].attempts < maxAttempts
    ensures Lightens(q, n, Survivors(rows, outcomes, weather) + q[|rows|..], n', |rows|, maxAttempts)
  {
    var kept := Survivors(rows, outcomes, weather);
    var middle := q[|rows|..n];
    SurvivorsLighter(rows, outcomes, weather, maxAttempts);
    n' := |kept| + |middle|;
    var q' := kept + q[|rows|..];
    assert q'[..n'] == kept + middle && q'[n'..] == q[n..];
    assert q[..n] == rows + middle;
    IdsOfSum(kept, middle);
    IdsOfSum(rows, middle);
    LoadOfSum(kept, middle, maxAttempts);
    LoadOfSum(rows, middle, maxAttempts);
  }

  // ---------------------------------------------------------------- many runs

  /**
   * Runs one after another with nothing queued in between. Between runs, and
   * from row to row, iRODS and the cache may do anything.
   */
  ghost predicate Succession(runs: seq<Run>, maxAttempts: int) {
    && (forall i | 0 <= i < |runs| :: runs[i].Valid() && runs[i].maxAttempts == maxAttempts && runs[i].limit >= 1)
    && (forall i | 0 <= i < |runs| - 1 :: runs[i + 1].site.tables.pending == runs[i].After().tables.pending)
  }

  lemma {:induction false} LoadPositive(q: seq<PendingPush>, maxAttempts: int)
    ensures |q| <= Load(q, maxAttempts)
  {
    if q != [] { LoadPositive(q[..|q| - 1], maxAttempts); }
  }

  lemma LightensTwice(q: seq<PendingPush>, n: nat, q1: seq<PendingPush>, n1: nat, q2: seq<PendingPush>, n2: nat,
                      a: nat, b: nat, maxAttempts: int)
    requires Lightens(q, n, q1, n1, a, maxAttempts) && Lightens(q1, n1, q2, n2, b, maxAttempts)
    ensures Lightens(q, n, q2, n2, a + b, maxAttempts)
  {
  }

  lemma NextRun(q: seq<PendingPush>, n: nat, run: Run, n1: nat, steps: nat, k: nat) returns (n': nat, steps': nat)
    requires run.Valid() && run.limit >= 1
    requires Lightens(q, n, Queue(run.site.tables.pending), n1, steps, run.maxAttempts) && (n1 == 0 || k <= steps)
    ensures Keyed(run.After().tables.pending)
    ensures Lightens(q, n, Queue(run.After().tables.pending), n', steps', run.maxAttempts) && (n' == 0 || k + 1 <= steps')
  {
    var q1 := Queue(run.site.tables.pending);
    n' := RunLightens(run, n1);
    var q' := Queue(run.After().tables.pending);
    steps' := steps + Min(run.limit, n1);
    LightensTwice(q, n, q1, n1, q', n', steps, Min(run.limit, n1), run.maxAttempts);
    LoadPositive(q'[..n'], run.maxAttempts);
  }

  /** At least one step per run, until nothing is left of the first n rows. */
  lemma {:induction false} SuccessionLightens(runs: seq<Run>, maxAttempts: int, n: nat) returns (n': nat, steps: nat)
    requires Succession(runs, maxAttempts) && runs != []
    requires n <= |runs[0].site.tables.pending|
    ensures Keyed(runs[|runs| - 1].After().tables.pending)
    ensures Lightens(Queue(runs[0].site.tables.pending), n, Queue(runs[|runs| - 1].After().tables.pending), n', steps, maxAttempts)
    ensures n' == 0 || |runs| <= steps
  {
    var m := |runs| - 1;
    var q := Queue(runs[0].site.tables.pending);
    if m == 0 {
      n', steps := NextRun(q, n, runs[0], n, 0, 0);
    } else {
      var n1, before := SuccessionLightens(runs[..m], maxAttempts, n);
      assert runs[m - 1 + 1].site.tables.pending == runs[m - 1].After().tables.pending;
      n', steps := NextRun(q, n, runs[m], n1, before, m);
    }
  }

  lemma QueueIds(m: map<nat, PendingPush>)
    requires Keyed(m)
    ensures Ids(Queue(m)) == m.Keys
  {
    var q := Queue(m);
    forall s | s in m ensures s in Ids(q) {
      var i :| 0 <= i < |q| && q[i].snapshotId == s;
    }
  }

  /** After enough runs only rows beyond the first n are queued. */
  lemma FirstRowsGone(runs: seq<Run>, maxAttempts: int, n: nat)
    requires Succession(runs, maxAttempts) && runs != []
    requires n <= |runs[0].site.tables.pending|
    requires |runs| >= Load(Queue(runs[0].site.tables.pending)[..n], maxAttempts)
    ensures runs[|runs| - 1].After().tables.pending.Keys <= Ids(Queue(runs[0].site.tables.pending)[n..])
  {
    var after := runs[|runs| - 1].After().tables.pending;
    var n', steps := SuccessionLightens(runs, maxAttempts, n);
    QueueIds(after);
    LoadPositive(Queue(after)[..n'], maxAttempts);
    assert Queue(after)[0..] == Queue(after);
  }

  /**
   * No starvation: the row at place p of the queue is gone after at most as
   * many runs as the rows up to it can still take, with any limit of at least
   * one; and after the load of the whole queue, the queue is empty.
   */
  lemma NoRowStarves(runs: seq<Run>, maxAttempts: int, p: nat)
    requires Succession(runs, maxAttempts) && runs != []
    requires p < |runs[0].site.tables.pending|
    requires |runs| >= Load(Queue(runs[0].site.tables.pending)[..p + 1], maxAttempts)
    ensures Queue(runs[0].site.tables.pending)[p].snapshotId !in runs[|runs| - 1].After().tables.pending
  {
    var before := runs[0].site.tables.pending;
    FirstRowsGone(runs, maxAttempts, p + 1);
    ListsDistinct(Queue(before), before, before.Keys);
    assert Queue(before)[p].snapshotId !in Ids(Queue(before)[p + 1..]);
  }

  /** After as many runs as the queue is heavy, nothing is queued. */
  lemma QueueDrains(runs: seq<Run>, maxAttempts: int)
    requires Succession(runs, maxAttempts) && runs != []
    requires |runs| >= Load(Queue(runs[0].site.tables.pending), maxAttempts)
    ensures runs[|runs| - 1].After().tables.pending == map[]
  {
    var q := Queue(runs[0].site.tables.pending);
    assert q[..|q|] == q && q[|q|..] == [];
    FirstRowsGone(runs, maxAttempts, |q|);
    assert runs[|runs| - 1].After().tables.pending.Keys == {};
  }

  lemma {:induction false} FreshLoad(q: seq<PendingPush>)
    requires forall i | 0 <= i < |q| :: q[i].attempts == 0
    ensures Load(q, DEFAULT_MAX_ATTEMPTS) == 6 * |q|
  {
    if q != [] { FreshLoad(q[..|q| - 1]); }
  }

  /** With the default cap of five attempts the first n rows of a fresh queue are gone after 6 n runs. */
  lemma FreshQueueDrains(runs: seq<Run>, n: nat)
    requires Succession(runs, DEFAULT_MAX_ATTEMPTS) && runs != [] && |runs| >= 6 * n
    requires n <= |runs[0].site.tables.pending|
    requires forall s | s in runs[0].site.tables.pending :: runs[0].site.tables.pending[s].attempts == 0
    ensures forall i | 0 <= i < n ::
              Queue(runs[0].site.tables.pending)[i].snapshotId !in runs[|runs| - 1].After().tables.pending
  {
    var q := Queue(runs[0].site.tables.pending);
    forall i | 0 <= i < n ensures q[i].snapshotId !in runs[|runs| - 1].After().tables.pending {
      FreshLoad(q[..i + 1]);
      NoRowStarves(runs, DEFAULT_MAX_ATTEMPTS, i);
    }
  }

  // ------------------------------------------------------------ what draining leaves

  /** Nothing is left to do for a snapshot: it is gone, committed or failed. */
  ghost predicate Over(t: Tables, s: nat) {
    s !in t.snapshots || t.snapshots[s].parquetFile != PENDING
  }

  /** Still queued under a file that is not called 'pending', or over. */
  ghost predicate InHand(t: Tables, s: nat) {
    (s in t.pending && BaseName(t.pending[s].localPath) != PENDING) || Over(t, s)
  }

  lemma RunKeepsInHand(run: Run, s: nat)
    requires run.Valid() && InHand(run.site.tables, s)
    ensures InHand(run.After().tables, s)
  {
    EachRow(run, s);
  }

  lemma {:induction false} SuccessionKeepsInHand(runs: seq<Run>, maxAttempts: int, s: nat)
    requires Succession(runs, maxAttempts) && runs != [] && InHand(runs[0].site.tables, s)
    requires forall i | 0 <= i < |runs| - 1 && Over(runs[i].After().tables, s) :: Over(runs[i + 1].site.tables, s)
    ensures InHand(runs[|runs| - 1].After().tables, s)
  {
    var m := |runs| - 1;
    if m > 0 {
      SuccessionKeepsInHand(runs[..m], maxAttempts, s);
      assert runs[m - 1 + 1].site.tables.pending == runs[m - 1].After().tables.pending;
      assert Over(runs[m - 1].After().tables, s) ==> Over(runs[m - 1 + 1].site.tables, s);
    }
    RunKeepsInHand(runs[m], s);
  }

  /**
   * Once the queue is drained, every snapshot it held is gone, committed or
   * failed, provided nobody makes a settled row pending again between runs.
   */
  lemma DrainedIsSettled(runs: seq<Run>, maxAttempts: int, s: nat)
    requires Succession(runs, maxAttempts) && runs != []
    requires |runs| >= Load(Queue(runs[0].site.tables.pending), maxAttempts)
    requires s in runs[0].site.tables.pending && BaseName(runs[0].site.tables.pending[s].localPath) != PENDING
    requires forall i | 0 <= i < |runs| - 1 && Over(runs[i].After().tables, s) :: Over(runs[i + 1].site.tables, s)
    ensures var t := runs[|runs| - 1].After().tables;
            s !in t.snapshots || t.snapshots[s].parquetFile != PENDING
  {
    QueueDrains(runs, maxAttempts);
    SuccessionKeepsInHand(runs, maxAttempts, s);
  }
}
