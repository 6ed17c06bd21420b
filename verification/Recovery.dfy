// recover_pending_pushes as one uninterrupted run over the push queue: what it
// leaves of the queue, its summary, and how fast repeated runs drain it.
module Recovery {
  import opened Wrappers
  import opened Avu
  import opened Names
  import opened Storage
  import opened CatalogTables
  import opened Protocol

  const DEFAULT_MAX_ATTEMPTS := 5

  /** The two stores a recovery run changes. */
  datatype Site = Site(tables: Tables, objects: map<string, Blob>)

  /** What iRODS does with one push(): the put, and the fetch that verifies it. */
  datatype Attempt = Attempt(stored: Option<Blob>, raised: bool, answer: Option<Answer>, error: string)

  datatype Outcome = Pushed | AlreadyCommitted | GaveUp | Orphaned | MissingLocal | PushFailed

  function Do(site: Site, c: Call): Site {
    site.(tables := Postgres(site.tables, c).0)
  }

  function AfterPut(site: Site, target: string, stored: Option<Blob>): Site {
    if stored.Some? then site.(objects := site.objects[target := stored.value]) else site
  }

  /** One iteration of the loop. */
  function RecoverRow(site: Site, files: map<string, Blob>, maxAttempts: int, row: PendingPush, u: Attempt): (Site, Outcome) {
    var sid := row.snapshotId;
    if sid !in site.tables.snapshots then
      (Do(site, DeletePending(sid)), Orphaned)
    else if site.tables.snapshots[sid].parquetFile != PENDING then
      (Do(site, DeletePending(sid)), AlreadyCommitted)
    else if row.attempts >= maxAttempts then
      (Do(Do(site, UpdateParquetFile(sid, FAILED)), DeletePending(sid)), GaveUp)
    else if row.localPath !in files then
      (Do(site, BumpPending(sid, MissingFile(row))), MissingLocal)
    else
      var put := AfterPut(site, row.irodsTarget, u.stored);
      if u.raised || !Accepted(Some(files[row.localPath]), u.answer) then
        (Do(put, BumpPending(sid, u.error)), PushFailed)
      else
        (Do(Do(put, UpdateParquetFile(sid, BaseName(row.localPath))), DeletePending(sid)), Pushed)
  }

  /** The sites after each operation of an iteration, in order: what a crash during it can leave. */
  function RowTrace(site: Site, files: map<string, Blob>, maxAttempts: int, row: PendingPush, u: Attempt): seq<Site> {
    var sid := row.snapshotId;
    var put := AfterPut(site, row.irodsTarget, u.stored);
    match RecoverRow(site, files, maxAttempts, row, u).1
    case Orphaned => [Do(site, DeletePending(sid))]
    case AlreadyCommitted => [Do(site, DeletePending(sid))]
    case GaveUp =>
      var failed := Do(site, UpdateParquetFile(sid, FAILED));
      [failed, Do(failed, DeletePending(sid))]
    case MissingLocal => [Do(site, BumpPending(sid, MissingFile(row)))]
    case PushFailed => [put, Do(put, BumpPending(sid, u.error))]
    case Pushed =>
      var named := Do(put, UpdateParquetFile(sid, BaseName(row.localPath)));
      [put, named, Do(named, DeletePending(sid))]
  }

  function RowsTrace(site: Site, files: map<string, Blob>, maxAttempts: int, rows: seq<PendingPush>,
                     weather: nat -> Attempt): seq<Site>
  {
    if rows == [] then [] else
      var n := |rows| - 1;
      var before := RecoverRows(site, files, maxAttempts, rows[..n], weather).0;
      RowsTrace(site, files, maxAttempts, rows[..n], weather) + RowTrace(before, files, maxAttempts, rows[n], weather(n))
  }

  /** The loop over the listed rows; `weather` says what iRODS does for each. */
  function RecoverRows(site: Site, files: map<string, Blob>, maxAttempts: int, rows: seq<PendingPush>,
                       weather: nat -> Attempt): (r: (Site, seq<Outcome>))
    ensures |r.1| == |rows|
  {
    if rows == [] then (site, []) else
      var n := |rows| - 1;
      var (before, outcomes) := RecoverRows(site, files, maxAttempts, rows[..n], weather);
      var (after, outcome) := RecoverRow(before, files, maxAttempts, rows[n], weather(n));
      (after, outcomes + [outcome])
  }

  datatype Run = Run(site: Site, files: map<string, Blob>, maxAttempts: int, limit: nat, weather: nat -> Attempt)
  {
    ghost predicate Valid() { Keyed(site.tables.pending) }

    function Rows(): seq<PendingPush>
      requires Valid()
    {
      ListPending(site.tables, limit)
    }

    function Outcomes(): seq<Outcome>
      requires Valid()
    {
      RecoverRows(site, files, maxAttempts, Rows(), weather).1
    }

    function After(): Site
      requires Valid()
    {
      RecoverRows(site, files, maxAttempts, Rows(), weather).0
    }
  }

  datatype Summary = Summary(pushed: nat, committed: nat, failed: nat, orphaned: nat, missingLocal: nat)

  const NOTHING := Summary(0, 0, 0, 0, 0)

  function Counted(s: Summary, o: Outcome): Summary {
    match o
    case Pushed => s.(pushed := s.pushed + 1)
    case AlreadyCommitted => s.(committed := s.committed + 1)
    case GaveUp => s.(failed := s.failed + 1)
    case Orphaned => s.(orphaned := s.orphaned + 1)
    case MissingLocal => s.(missingLocal := s.missingLocal + 1)
    case PushFailed => s
  }

  function Tally(outcomes: seq<Outcome>): Summary {
    if outcomes == [] then NOTHING else Counted(Tally(outcomes[..|outcomes| - 1]), outcomes[|outcomes| - 1])
  }

  // ----------------------------------------------------------------- what a run leaves

  predicate Survives(o: Outcome) {
    o.MissingLocal? || o.PushFailed?
  }

  function Retried(row: PendingPush, o: Outcome, u: Attempt): PendingPush {
    row.(attempts := row.attempts + 1,
         lastError := Some(Truncate(if o.MissingLocal? then MissingFile(row) else u.error)))
  }

  /** The rows of a run that stay queued, as it leaves them. */
  function Survivors(rows: seq<PendingPush>, outcomes: seq<Outcome>, weather: nat -> Attempt): (q: seq<PendingPush>)
    requires |outcomes| == |rows|
  {
    if rows == [] then [] else
      var n := |rows| - 1;
      Survivors(rows[..n], outcomes[..n], weather)
      + if Survives(outcomes[n]) then [Retried(rows[n], outcomes[n], weather(n))] else []
  }

  /** What one iteration does with its own row and snapshot. */
  ghost predicate Handled(site: Site, after: Site, row: PendingPush, o: Outcome, u: Attempt) {
    var sid := row.snapshotId;
    && (sid in after.tables.pending <==> Survives(o))
    && (Survives(o) ==> after.tables.pending[sid] == Retried(row, o, u))
    && (sid in after.tables.snapshots <==> sid in site.tables.snapshots)
    && (sid !in after.tables.snapshots <==> o.Orphaned?)
    && (sid in after.tables.snapshots ==> Settled(site.tables.snapshots[sid], after.tables.snapshots[sid], row, o))
  }

  ghost predicate Settled(before: Snapshot, after: Snapshot, row: PendingPush, o: Outcome) {
    match o
    case Pushed => before.parquetFile == PENDING && after == before.(parquetFile := BaseName(row.localPath))
    case GaveUp => before.parquetFile == PENDING && after == before.(parquetFile := FAILED)
    case AlreadyCommitted => before.parquetFile != PENDING && after == before
    case _ => before.parquetFile == PENDING && after == before
  }

  ghost predicate SameRow(t: Tables, t': Tables, s: nat) {
    && (s in t'.pending <==> s in t.pending)
    && (s in t.pending ==> t'.pending[s] == t.pending[s])
    && (s in t'.snapshots <==> s in t.snapshots)
    && (s in t.snapshots ==> t'.snapshots[s] == t.snapshots[s])
  }

  /** What one iteration leaves of the queue table. */
  lemma PendingEffect(site: Site, files: map<string, Blob>, maxAttempts: int, row: PendingPush, u: Attempt)
    requires row.snapshotId in site.tables.pending && site.tables.pending[row.snapshotId] == row
    ensures var (after, o) := RecoverRow(site, files, maxAttempts, row, u);
            && after.tables.pending == (if Survives(o) then site.tables.pending[row.snapshotId := Retried(row, o, u)]
                                        else site.tables.pending - {row.snapshotId})
            && (Survives(o) ==> row.attempts < maxAttempts)
  {
  }

  lemma RowEffect(site: Site, files: map<string, Blob>, maxAttempts: int, row: PendingPush, u: Attempt)
    requires row.snapshotId in site.tables.pending && site.tables.pending[row.snapshotId] == row
    ensures var (after, o) := RecoverRow(site, files, maxAttempts, row, u);
            Handled(site, after, row, o, u)
  {
    PendingEffect(site, files, maxAttempts, row, u);
  }

  lemma StatementKeepsOthers(t: Tables, c: Call, sid: nat)
    requires c == DeletePending(sid) || (c.BumpPending? && c.sid == sid) || (c.UpdateParquetFile? && c.sid == sid)
    ensures forall s | s != sid :: SameRow(t, Postgres(t, c).0, s)
  {
  }

  lemma OthersKeep(site: Site, files: map<string, Blob>, maxAttempts: int, row: PendingPush, u: Attempt)
    ensures forall s | s != row.snapshotId :: SameRow(site.tables, RecoverRow(site, files, maxAttempts, row, u).0.tables, s)
  {
    var sid := row.snapshotId;
    var t := site.tables;
    StatementKeepsOthers(t, DeletePending(sid), sid);
    StatementKeepsOthers(t, BumpPending(sid, MissingFile(row)), sid);
    StatementKeepsOthers(t, BumpPending(sid, u.error), sid);
    forall file ensures forall s | s != sid ::
        SameRow(t, Postgres(Postgres(t, UpdateParquetFile(sid, file)).0, DeletePending(sid)).0, s)
    {
      var t' := Postgres(t, UpdateParquetFile(sid, file)).0;
      StatementKeepsOthers(t, UpdateParquetFile(sid, file), sid);
      StatementKeepsOthers(t', DeletePending(sid), sid);
      forall s | s != sid ensures SameRow(t, Postgres(t', DeletePending(sid)).0, s) {
        assert SameRow(t, t', s) && SameRow(t', Postgres(t', DeletePending(sid)).0, s);
      }
    }
  }

  function Ids(rows: seq<PendingPush>): set<nat> {
    set i | 0 <= i < |rows| :: rows[i].snapshotId
  }

  /** Rows as the table holds them, each listed once. */
  ghost predicate Listed(rows: seq<PendingPush>, m: map<nat, PendingPush>) {
    && (forall i | 0 <= i < |rows| :: rows[i].snapshotId in m && m[rows[i].snapshotId] == rows[i])
    && (forall i, j | 0 <= i < j < |rows| :: rows[i].snapshotId != rows[j].snapshotId)
  }

  /** The loop handles each listed row as one iteration would, and nothing else. */
  lemma {:induction false} LoopEffect(site: Site, files: map<string, Blob>, maxAttempts: int, rows: seq<PendingPush>,
                                      weather: nat -> Attempt)
    requires Listed(rows, site.tables.pending)
    ensures var (after, outcomes) := RecoverRows(site, files, maxAttempts, rows, weather);
            && (forall i | 0 <= i < |rows| :: Handled(site, after, rows[i], outcomes[i], weather(i)))
            && (forall i | 0 <= i < |rows| && Survives(outcomes[i]) :: rows[i].attempts < maxAttempts)
            && (forall s | s !in Ids(rows) :: SameRow(site.tables, after.tables, s))
  {
    if rows != [] {
      var n := |rows| - 1;
      LoopEffect(site, files, maxAttempts, rows[..n], weather);
      var (before, outcomes) := RecoverRows(site, files, maxAttempts, rows[..n], weather);
      assert rows[n].snapshotId !in Ids(rows[..n]);
      LoopStep(site, before, outcomes, files, maxAttempts, rows, weather);
    }
  }

  lemma LoopStep(site: Site, before: Site, outcomes: seq<Outcome>, files: map<string, Blob>, maxAttempts: int,
                 rows: seq<PendingPush>, weather: nat -> Attempt)
    requires rows != [] && |outcomes| == |rows| - 1 && Listed(rows, site.tables.pending)
    requires forall i | 0 <= i < |outcomes| :: Handled(site, before, rows[..|outcomes|][i], outcomes[i], weather(i))
    requires forall i | 0 <= i < |outcomes| && Survives(outcomes[i]) :: rows[..|outcomes|][i].attempts < maxAttempts
    requires forall s | s !in Ids(rows[..|outcomes|]) :: SameRow(site.tables, before.tables, s)
    requires rows[|outcomes|].snapshotId !in Ids(rows[..|outcomes|])
    ensures var (after, o) := RecoverRow(before, files, maxAttempts, rows[|outcomes|], weather(|outcomes|));
            var all := outcomes + [o];
            && (forall i | 0 <= i < |rows| :: Handled(site, after, rows[i], all[i], weather(i)))
            && (forall i | 0 <= i < |rows| && Survives(all[i]) :: rows[i].attempts < maxAttempts)
            && (forall s | s !in Ids(rows) :: SameRow(site.tables, after.tables, s))
  {
    var n := |outcomes|;
    var (after, o) := RecoverRow(before, files, maxAttempts, rows[n], weather(n));
    assert SameRow(site.tables, before.tables, rows[n].snapshotId);
    PendingEffect(before, files, maxAttempts, rows[n], weather(n));
    RowEffect(before, files, maxAttempts, rows[n], weather(n));
    OthersKeep(before, files, maxAttempts, rows[n], weather(n));
    forall i | 0 <= i < n ensures Handled(site, after, rows[i], outcomes[i], weather(i)) {
      assert rows[..n][i] == rows[i];
      assert SameRow(before.tables, after.tables, rows[i].snapshotId);
    }
    forall s | s !in Ids(rows) ensures SameRow(site.tables, after.tables, s) {
      assert s != rows[n].snapshotId && s !in Ids(rows[..n]);
      assert SameRow(before.tables, after.tables, s);
    }
  }

  lemma LoopKeeps(site: Site, files: map<string, Blob>, maxAttempts: int, rows: seq<PendingPush>,
                  weather: nat -> Attempt, s: nat)
    requires Listed(rows, site.tables.pending) && s !in Ids(rows)
    ensures SameRow(site.tables, RecoverRows(site, files, maxAttempts, rows, weather).0.tables, s)
  {
    LoopEffect(site, files, maxAttempts, rows, weather);
  }

  // ------------------------------------------------------------------ the queue

  lemma ListsKeyed(q: seq<PendingPush>, m: map<nat, PendingPush>)
    requires Lists(q, m, m.Keys)
    ensures Keyed(m)
  {
    forall s | s in m ensures m[s].snapshotId == s {
      var i :| 0 <= i < |q| && q[i].snapshotId == s;
    }
  }

  lemma ListsDistinct(q: seq<PendingPush>, m: map<nat, PendingPush>, ks: set<nat>)
    requires Lists(q, m, ks)
    ensures Listed(q, m)
  {
    forall i, j | 0 <= i < j < |q| ensures q[i].snapshotId != q[j].snapshotId {
      assert Before(q[i], q[j]);
    }
  }

  /** A retry keeps a row's place in the queue. */
  lemma ListsRetry(q: seq<PendingPush>, n: nat, m: map<nat, PendingPush>, row': PendingPush)
    requires Lists(q, m, m.Keys) && n < |q|
    requires row'.snapshotId == q[n].snapshotId && row'.createdAt == q[n].createdAt
    ensures Lists(q[n := row'], m[row'.snapshotId := row'], m.Keys)
  {
    var q', m' := q[n := row'], m[row'.snapshotId := row'];
    ListsDistinct(q, m, m.Keys);
    forall i, j | 0 <= i < j < |q'| ensures Before(q'[i], q'[j]) {
      assert Before(q[i], q[j]);
    }
    forall s | s in m.Keys ensures exists i :: 0 <= i < |q'| && q'[i].snapshotId == s {
      var i :| 0 <= i < |q| && q[i].snapshotId == s;
      assert q'[i].snapshotId == s;
    }
  }

  ghost predicate Without(q': seq<PendingPush>, q: seq<PendingPush>, n: nat) {
    && n < |q|
    && |q'| == |q| - 1
    && (forall i | 0 <= i < n :: q'[i] == q[i])
    && (forall i | n <= i < |q'| :: q'[i] == q[i + 1])
  }

  lemma WithoutOrdered(q': seq<PendingPush>, q: seq<PendingPush>, n: nat)
    requires Without(q', q, n)
    requires forall i, j | 0 <= i < j < |q| :: Before(q[i], q[j])
    ensures forall i, j | 0 <= i < j < |q'| :: Before(q'[i], q'[j])
  {
    forall i, j | 0 <= i < j < |q'| ensures Before(q'[i], q'[j]) {
      assert Before(q[if i < n then i else i + 1], q[if j < n then j else j + 1]);
    }
  }

  lemma WithoutCovers(q': seq<PendingPush>, q: seq<PendingPush>, n: nat, s: nat, i: nat)
    requires Without(q', q, n) && i < |q| && q[i].snapshotId == s != q[n].snapshotId
    ensures exists j :: 0 <= j < |q'| && q'[j].snapshotId == s
  {
    var j := if i < n then i else i - 1;
    assert q'[j].snapshotId == s;
  }

  lemma ListsDrop(q: seq<PendingPush>, n: nat, q': seq<PendingPush>, m: map<nat, PendingPush>)
    requires Lists(q, m, m.Keys) && Without(q', q, n)
    ensures Lists(q', m - {q[n].snapshotId}, m.Keys - {q[n].snapshotId})
  {
    ListsDistinct(q, m, m.Keys);
    WithoutOrdered(q', q, n);
    forall s | s in m.Keys - {q[n].snapshotId} ensures exists i :: 0 <= i < |q'| && q'[i].snapshotId == s {
      var i :| 0 <= i < |q| && q[i].snapshotId == s;
      WithoutCovers(q', q, n, s, i);
    }
  }

  /** After any prefix of the loop the queue is: survivors, then the rows not yet reached. */
  lemma {:induction false} QueueAfter(site: Site, files: map<string, Blob>, maxAttempts: int, rows: seq<PendingPush>,
                                      rest: seq<PendingPush>, weather: nat -> Attempt)
    requires Lists(rows + rest, site.tables.pending, site.tables.pending.Keys)
    ensures var (after, outcomes) := RecoverRows(site, files, maxAttempts, rows, weather);
            Lists(Survivors(rows, outcomes, weather) + rest, after.tables.pending, after.tables.pending.Keys)
  {
    if rows != [] {
      var n := |rows| - 1;
      assert rows[..n] + ([rows[n]] + rest) == rows + rest;
      QueueAfter(site, files, maxAttempts, rows[..n], [rows[n]] + rest, weather);
      var (before, outcomes) := RecoverRows(site, files, maxAttempts, rows[..n], weather);
      var o := RecoverRow(before, files, maxAttempts, rows[n], weather(n)).1;
      assert (outcomes + [o])[..n] == outcomes;
      QueueStep(before, files, maxAttempts, Survivors(rows[..n], outcomes, weather), rows[n], rest, weather(n));
    }
  }

  lemma QueueStep(site: Site, files: map<string, Blob>, maxAttempts: int, kept: seq<PendingPush>, row: PendingPush,
                  rest: seq<PendingPush>, u: Attempt)
    requires Lists(kept + ([row] + rest), site.tables.pending, site.tables.pending.Keys)
    ensures var (after, o) := RecoverRow(site, files, maxAttempts, row, u);
            Lists(kept + (if Survives(o) then [Retried(row, o, u)] else []) + rest,
                  after.tables.pending, after.tables.pending.Keys)
  {
    var m := site.tables.pending;
    var (after, o) := RecoverRow(site, files, maxAttempts, row, u);
    assert (kept + ([row] + rest))[|kept|] == row;
    PendingEffect(site, files, maxAttempts, row, u);
    if Survives(o) {
      QueueRetry(kept, row, rest, m, Retried(row, o, u));
    } else {
      QueueDrop(kept, row, rest, m);
      assert kept + [] + rest == kept + rest;
    }
  }

  lemma QueueRetry(kept: seq<PendingPush>, row: PendingPush, rest: seq<PendingPush>, m: map<nat, PendingPush>, row': PendingPush)
    requires Lists(kept + ([row] + rest), m, m.Keys)
    requires row'.snapshotId == row.snapshotId && row'.createdAt == row.createdAt
    ensures var m' := m[row.snapshotId := row'];
            Lists(kept + [row'] + rest, m', m'.Keys)
  {
    var q := kept + ([row] + rest);
    assert q[|kept|] == row;
    ListsRetry(q, |kept|, m, row');
    assert q[|kept| := row'] == kept + [row'] + rest;
    assert m[row.snapshotId := row'].Keys == m.Keys;
  }

  lemma QueueDrop(kept: seq<PendingPush>, row: PendingPush, rest: seq<PendingPush>, m: map<nat, PendingPush>)
    requires Lists(kept + ([row] + rest), m, m.Keys)
    ensures var m' := m - {row.snapshotId};
            Lists(kept + rest, m', m'.Keys)
  {
    var q := kept + ([row] + rest);
    assert q[|kept|] == row;
    ListsDrop(q, |kept|, kept + rest, m);
    assert (m - {row.snapshotId}).Keys == m.Keys - {row.snapshotId};
  }

  /** The whole run: survivors keep their places, unprocessed rows follow untouched. */
  lemma RunLeaves(run: Run)
    requires run.Valid()
    ensures Keyed(run.After().tables.pending)
    ensures run.Rows() == Queue(run.site.tables.pending)[..|run.Rows()|]
    ensures Queue(run.After().tables.pending) ==
            Survivors(run.Rows(), run.Outcomes(), run.weather) + Queue(run.site.tables.pending)[|run.Rows()|..]
  {
    var q := Queue(run.site.tables.pending);
    var rows := run.Rows();
    assert rows + q[|rows|..] == q;
    QueueAfter(run.site, run.files, run.maxAttempts, rows, q[|rows|..], run.weather);
    var left := Survivors(rows, run.Outcomes(), run.weather) + q[|rows|..];
    var m := run.After().tables.pending;
    ListsKeyed(left, m);
    DrainOrderUnique(Queue(m), left, m, m.Keys);
  }

  function Dropped(s: Summary): nat {
    s.pushed + s.committed + s.failed + s.orphaned
  }

  lemma {:induction false} SurvivorsCount(rows: seq<PendingPush>, outcomes: seq<Outcome>, weather: nat -> Attempt)
    requires |outcomes| == |rows|
    ensures |rows| == |Survivors(rows, outcomes, weather)| + Dropped(Tally(outcomes))
  {
    if rows != [] {
      var n := |rows| - 1;
      SurvivorsCount(rows[..n], outcomes[..n], weather);
      var s := Tally(outcomes[..n]);
      assert Dropped(Counted(s, outcomes[n])) == Dropped(s) + if Survives(outcomes[n]) then 0 else 1;
    }
  }

  ghost predicate RowAccounted(run: Run, s: nat)
    requires run.Valid()
  {
    var before, after := run.site.tables.pending, run.After().tables.pending;
    && (s in after ==> s in before)
    && (s in before && s !in Ids(run.Rows()) ==> s in after && after[s] == before[s])
    && (s in after && s in Ids(run.Rows()) ==>
          after[s] == before[s].(attempts := before[s].attempts + 1, lastError := after[s].lastError))
  }

  /**
   * Accounting. The queue shrinks by exactly pushed + committed + failed +
   * orphaned; a processed row that survives gained exactly one attempt and is
   * otherwise the same; every other row is untouched; nothing is added.
   */
  lemma Accounting(run: Run)
    requires run.Valid()
    ensures var before, after, s := run.site.tables.pending, run.After().tables.pending, Tally(run.Outcomes());
            |before| == |after| + Dropped(s)
    ensures forall s :: RowAccounted(run, s)
  {
    RunLeaves(run);
    SurvivorsCount(run.Rows(), run.Outcomes(), run.weather);
    forall s ensures RowAccounted(run, s) {
      EachRow(run, s);
    }
  }

  lemma EachRow(run: Run, s: nat)
    requires run.Valid()
    ensures s !in Ids(run.Rows()) ==> SameRow(run.site.tables, run.After().tables, s)
    ensures s in Ids(run.Rows()) ==>
              s in run.site.tables.pending
              && exists i :: 0 <= i < |run.Rows()| && run.Rows()[i] == run.site.tables.pending[s]
                          && Handled(run.site, run.After(), run.Rows()[i], run.Outcomes()[i], run.weather(i))
  {
    var before := run.site.tables.pending;
    ListsDistinct(Queue(before), before, before.Keys);
    LoopEffect(run.site, run.files, run.maxAttempts, run.Rows(), run.weather);
    if s in Ids(run.Rows()) {
      var i :| 0 <= i < |run.Rows()| && run.Rows()[i].snapshotId == s;
    }
  }

  /**
   * The snapshot of a row that left the queue is gone, committed or failed. The
   * code names a committed snapshot after its local path, so a row whose path
   * ended in "/pending" would leave it pending; no run has such a row
   * (ProtocolTheorems.QueueIsAddressed).
   */
  lemma DroppedIsSettled(run: Run, s: nat)
    requires run.Valid() && s in run.site.tables.pending && s !in run.After().tables.pending
    requires s in run.After().tables.snapshots
    ensures var file := BaseName(run.site.tables.pending[s].localPath);
            run.After().tables.snapshots[s].parquetFile != PENDING || file == PENDING
  {
    EachRow(run, s);
  }
}
