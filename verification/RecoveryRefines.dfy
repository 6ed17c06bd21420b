// An uninterrupted recovery run is a run of the protocol's recoverer: the loop
// of recover_pending_pushes takes exactly the small steps whose interleavings
// the protocol's theorems are about.
module RecoveryRefines {
  import opened Wrappers
  import opened Avu
  import opened Names
  import opened Storage
  import opened CatalogTables
  import opened Protocol
  import opened Restart
  import Recovery

  /** The recoverer taking steps one after another. */
  function Go(st: Store, r: Recoverer, acts: seq<RecovererAct>): (Store, Option<Recoverer>)
    decreases |acts|
  {
    if acts == [] then (st, Some(r)) else
      var (st1, r1) := RecovererStep(st, r, acts[0]);
      if r1.None? then (st1, None) else Go(st1, r1.value, acts[1..])
  }

  ghost predicate GoMay(env: Env, st: Store, r: Recoverer, acts: seq<RecovererAct>)
    decreases |acts|
  {
    acts == [] ||
    (var (st1, r1) := RecovererStep(st, r, acts[0]);
     RecovererMay(env, st, r, acts[0]) && r1.Some? && GoMay(env, st1, r1.value, acts[1..]))
  }

  /** The steps that write to the catalog or to iRODS. */
  predicate Writes(a: RecovererAct) {
    a.Drop? || a.GiveUp? || a.Push? || a.Flip? || a.Bump?
  }

  /** The catalog and iRODS after each writing step. */
  function Visited(st: Store, r: Recoverer, acts: seq<RecovererAct>): seq<Site>
    decreases |acts|
  {
    if acts == [] then [] else
      var (st1, r1) := RecovererStep(st, r, acts[0]);
      (if Writes(acts[0]) then [SiteOf(st1)] else []) + if r1.None? then [] else Visited(st1, r1.value, acts[1..])
  }

  /** acts lead from (st, r) to (st', r') by way of the sites seen. */
  ghost predicate Leads(env: Env, st: Store, r: Recoverer, acts: seq<RecovererAct>, st': Store, r': Recoverer, seen: seq<Site>) {
    GoMay(env, st, r, acts) && Go(st, r, acts) == (st', Some(r')) && Visited(st, r, acts) == seen
  }

  lemma {:induction false} VisitedOn(st: Store, r: Recoverer, a: seq<RecovererAct>, st1: Store, r1: Recoverer, b: seq<RecovererAct>,
                                     seen: seq<Site>)
    requires Go(st, r, a) == (st1, Some(r1)) && seen == Visited(st1, r1, b)
    ensures Visited(st, r, a + b) == Visited(st, r, a) + seen
    decreases |a|
  {
    if a == [] {
      assert a + b == b;
    } else {
      var (st', r') := RecovererStep(st, r, a[0]);
      var first := if Writes(a[0]) then [SiteOf(st')] else [];
      VisitedOn(st', r'.value, a[1..], st1, r1, b, seen);
      assert (a + b)[1..] == a[1..] + b;
      Associate(first, Visited(st', r'.value, a[1..]), seen);
    }
  }

  lemma Associate(a: seq<Site>, b: seq<Site>, c: seq<Site>)
    ensures a + (b + c) == a + b + c
  {
  }

  lemma {:induction false} GoOn(env: Env, st: Store, r: Recoverer, a: seq<RecovererAct>, st1: Store, r1: Recoverer, b: seq<RecovererAct>)
    requires GoMay(env, st, r, a) && Go(st, r, a) == (st1, Some(r1)) && GoMay(env, st1, r1, b)
    ensures GoMay(env, st, r, a + b) && Go(st, r, a + b) == Go(st1, r1, b)
    decreases |a|
  {
    if a == [] {
      assert a + b == b;
    } else {
      var (st', r') := RecovererStep(st, r, a[0]);
      GoOn(env, st', r'.value, a[1..], st1, r1, b);
      assert (a + b)[1..] == a[1..] + b;
    }
  }

  lemma LeadsOn(env: Env, st: Store, r: Recoverer, a: seq<RecovererAct>, st1: Store, r1: Recoverer, seen1: seq<Site>,
                b: seq<RecovererAct>, st2: Store, r2: Recoverer, seen2: seq<Site>)
    requires Leads(env, st, r, a, st1, r1, seen1) && Leads(env, st1, r1, b, st2, r2, seen2)
    ensures Leads(env, st, r, a + b, st2, r2, seen1 + seen2)
  {
    GoOn(env, st, r, a, st1, r1, b);
    VisitedOn(st, r, a, st1, r1, b, seen2);
  }

  lemma LeadsOne(env: Env, st: Store, r: Recoverer, a: RecovererAct, st': Store, r': Recoverer)
    requires RecovererMay(env, st, r, a) && RecovererStep(st, r, a) == (st', Some(r'))
    ensures Leads(env, st, r, [a], st', r', if Writes(a) then [SiteOf(st')] else [])
  {
    assert GoMay(env, st', r', []);
    assert [a][1..] == [];
  }

  /** The outcome is one the environment allows. */
  ghost predicate Plausible(env: Env, st: Store, r: Recoverer, u: Recovery.Attempt)
    requires r.rows != []
  {
    && PutMay(env, Lookup(st.caches, RowKey(r)), u.stored, u.raised)
    && AnswerMay(PutObject(st, r.rows[0].irodsTarget, u.stored), r.rows[0].snapshotId, r.rows[0].irodsTarget, u.answer)
  }

  ghost predicate AtRow(r: Recoverer) {
    r.stage.Next? && r.rows != []
  }

  lemma Looks(env: Env, st: Store, r: Recoverer, stage: RecovererStage)
    requires AtRow(r) && LookStep(st, r, r.rows[0]) == (st, Some(r.(stage := stage)))
    ensures Leads(env, st, r, [Look], st, r.(stage := stage), [])
  {
    LeadsOne(env, st, r, Look, st, r.(stage := stage));
  }

  lemma Drops(env: Env, st: Store, r: Recoverer)
    requires r.stage.Dropping? && r.rows != []
    ensures Leads(env, st, r, [Drop], Issue(st, DeletePending(r.rows[0].snapshotId)), r.(stage := Next, rows := r.rows[1..]),
                  [SiteOf(Issue(st, DeletePending(r.rows[0].snapshotId)))])
  {
    LeadsOne(env, st, r, Drop, Issue(st, DeletePending(r.rows[0].snapshotId)), r.(stage := Next, rows := r.rows[1..]));
  }

  lemma Bumps(env: Env, st: Store, r: Recoverer)
    requires r.stage.Bumping? && r.rows != []
    ensures Leads(env, st, r, [Bump], Issue(st, BumpPending(r.rows[0].snapshotId, r.stage.error)), r.(stage := Next, rows := r.rows[1..]),
                  [SiteOf(Issue(st, BumpPending(r.rows[0].snapshotId, r.stage.error)))])
  {
    LeadsOne(env, st, r, Bump, Issue(st, BumpPending(r.rows[0].snapshotId, r.stage.error)), r.(stage := Next, rows := r.rows[1..]));
  }

  lemma GivesUp(env: Env, st: Store, r: Recoverer)
    requires r.stage.GivingUp? && r.rows != [] && r.rows[0].snapshotId in st.tables.snapshots
    ensures Leads(env, st, r, [GiveUp], Issue(st, UpdateParquetFile(r.rows[0].snapshotId, FAILED)), r.(stage := Dropping),
                  [SiteOf(Issue(st, UpdateParquetFile(r.rows[0].snapshotId, FAILED)))])
  {
    LeadsOne(env, st, r, GiveUp, Issue(st, UpdateParquetFile(r.rows[0].snapshotId, FAILED)), r.(stage := Dropping));
  }

  function Flipped(st: Store, row: PendingPush): Store {
    Issue(st, UpdateParquetFile(row.snapshotId, BaseName(row.localPath))).(named := st.named + {row.snapshotId})
  }

  lemma Flips(env: Env, st: Store, r: Recoverer)
    requires r.stage.Flipping? && r.rows != [] && r.rows[0].snapshotId in st.tables.snapshots
    ensures Leads(env, st, r, [Flip], Flipped(st, r.rows[0]), r.(stage := Dropping), [SiteOf(Flipped(st, r.rows[0]))])
  {
    LeadsOne(env, st, r, Flip, Flipped(st, r.rows[0]), r.(stage := Dropping));
  }

  /** From the start of a row to the put, and to the verdict on it. */
  lemma Checks(env: Env, st: Store, r: Recoverer, stage: RecovererStage)
    requires AtRow(r)
    requires LookStep(st, r, r.rows[0]) == (st, Some(r.(stage := Checking)))
    requires stage == if RowKey(r) in st.caches then Pushing else Bumping(MissingFile(r.rows[0]))
    ensures Leads(env, st, r, [Look, Check], st, r.(stage := stage), [])
  {
    Looks(env, st, r, Checking);
    LeadsOne(env, st, r.(stage := Checking), Check, st, r.(stage := stage));
    LeadsOn(env, st, r, [Look], st, r.(stage := Checking), [], [Check], st, r.(stage := stage), []);
    assert [Look] + [Check] == [Look, Check];
  }

  lemma Pushes(env: Env, st: Store, r: Recoverer, u: Recovery.Attempt, stage: RecovererStage)
    requires r.stage.Pushing? && r.rows != [] && Plausible(env, st, r, u)
    requires stage == if u.raised then Bumping(u.error)
                      else if Accepted(Lookup(st.caches, RowKey(r)), u.answer) then Flipping else Bumping(u.error)
    ensures Leads(env, st, r, PushActs(u), PutObject(st, r.rows[0].irodsTarget, u.stored), r.(stage := stage),
                  [SiteOf(PutObject(st, r.rows[0].irodsTarget, u.stored))])
  {
    var st' := PutObject(st, r.rows[0].irodsTarget, u.stored);
    var put := Push(u.stored, u.raised, u.error);
    if u.raised {
      LeadsOne(env, st, r, put, st', r.(stage := stage));
    } else {
      LeadsOne(env, st, r, put, st', r.(stage := Verifying));
      LeadsOne(env, st', r.(stage := Verifying), VerifyPush(u.answer, u.error), st', r.(stage := stage));
      LeadsOn(env, st, r, [put], st', r.(stage := Verifying), [SiteOf(st')],
              [VerifyPush(u.answer, u.error)], st', r.(stage := stage), []);
      assert [put] + [VerifyPush(u.answer, u.error)] == PushActs(u);
    }
  }

  function PushActs(u: Recovery.Attempt): seq<RecovererAct> {
    if u.raised then [Push(u.stored, true, u.error)] else [Push(u.stored, false, u.error), VerifyPush(u.answer, u.error)]
  }

  /** The steps a row takes, by its outcome. */
  function RowActs(o: Recovery.Outcome, u: Recovery.Attempt): seq<RecovererAct> {
    match o
    case Orphaned => [Look] + [Drop]
    case AlreadyCommitted => [Look] + [Drop]
    case GaveUp => [Look] + [GiveUp] + [Drop]
    case MissingLocal => [Look, Check] + [Bump]
    case PushFailed => [Look, Check] + PushActs(u) + [Bump]
    case Pushed => [Look, Check] + PushActs(u) + [Flip] + [Drop]
  }

  function RowOutcome(st: Store, r: Recoverer, u: Recovery.Attempt): (Site, Recovery.Outcome)
    requires r.rows != []
  {
    Recovery.RecoverRow(SiteOf(st), FilesOn(st.caches, r.host), r.maxAttempts, r.rows[0], u)
  }

  function RowSeen(st: Store, r: Recoverer, u: Recovery.Attempt): seq<Site>
    requires r.rows != []
  {
    Recovery.RowTrace(SiteOf(st), FilesOn(st.caches, r.host), r.maxAttempts, r.rows[0], u)
  }

  /** A store with the recovered part of a site in place of its own. */
  ghost predicate Reaches(st: Store, st': Store, site: Site) {
    st' == st.(tables := site.tables, objects := site.objects, named := st'.named)
  }

  /**
   * One iteration of the loop is a sequence of protocol steps, with the same
   * effect; what the catalog and iRODS hold after each of its operations is what
   * they hold after the steps.
   */
  lemma RowIsSteps(env: Env, st: Store, r: Recoverer, u: Recovery.Attempt) returns (st': Store)
    requires AtRow(r) && Plausible(env, st, r, u)
    ensures Leads(env, st, r, RowActs(RowOutcome(st, r, u).1, u), st', r.(rows := r.rows[1..]), RowSeen(st, r, u))
    ensures Reaches(st, st', RowOutcome(st, r, u).0)
  {
    var o := RowOutcome(st, r, u).1;
    FileOnHost(st.caches, r.host, r.rows[0].localPath);
    match o
    case Orphaned => st' := DroppedRow(env, st, r);
    case AlreadyCommitted => st' := DroppedRow(env, st, r);
    case GaveUp => st' := GivenUpRow(env, st, r);
    case MissingLocal => st' := MissingRow(env, st, r);
    case _ =>
      st' := PushedRow(env, st, r, u);
      PushedSite(st, r, u);
  }

  lemma PushedSite(st: Store, r: Recoverer, u: Recovery.Attempt)
    requires AtRow(r) && (RowOutcome(st, r, u).1.Pushed? || RowOutcome(st, r, u).1.PushFailed?)
    ensures var put := PutObject(st, r.rows[0].irodsTarget, u.stored);
            && Reaches(st, if RowOutcome(st, r, u).1.Pushed? then Issue(Flipped(put, r.rows[0]), DeletePending(r.rows[0].snapshotId))
                           else Issue(put, BumpPending(r.rows[0].snapshotId, u.error)), RowOutcome(st, r, u).0)
            && RowKey(r) in st.caches
            && RowSeen(st, r, u) == (if RowOutcome(st, r, u).1.Pushed? then
                                       [SiteOf(put), SiteOf(Flipped(put, r.rows[0])),
                                        SiteOf(Issue(Flipped(put, r.rows[0]), DeletePending(r.rows[0].snapshotId)))]
                                     else [SiteOf(put), SiteOf(Issue(put, BumpPending(r.rows[0].snapshotId, u.error)))])
            && (RowOutcome(st, r, u).1.Pushed? <==> !u.raised && Accepted(Lookup(st.caches, RowKey(r)), u.answer))
            && LookStep(st, r, r.rows[0]).1 == Some(r.(stage := Checking))
  {
    FileOnHost(st.caches, r.host, r.rows[0].localPath);
    var put := PutObject(st, r.rows[0].irodsTarget, u.stored);
    assert SiteOf(put) == Recovery.AfterPut(SiteOf(st), r.rows[0].irodsTarget, u.stored);
  }

  lemma DroppedRow(env: Env, st: Store, r: Recoverer) returns (st': Store)
    requires AtRow(r) && LookStep(st, r, r.rows[0]).1 == Some(r.(stage := Dropping))
    ensures st' == Issue(st, DeletePending(r.rows[0].snapshotId))
    ensures Leads(env, st, r, [Look] + [Drop], st', r.(rows := r.rows[1..]), [SiteOf(st')])
  {
    st' := Issue(st, DeletePending(r.rows[0].snapshotId));
    Looks(env, st, r, Dropping);
    Drops(env, st, r.(stage := Dropping));
    LeadsOn(env, st, r, [Look], st, r.(stage := Dropping), [], [Drop], st', r.(rows := r.rows[1..]), [SiteOf(st')]);
    assert [] + [SiteOf(st')] == [SiteOf(st')];
  }

  lemma GivenUpRow(env: Env, st: Store, r: Recoverer) returns (st': Store)
    requires AtRow(r) && LookStep(st, r, r.rows[0]).1 == Some(r.(stage := GivingUp))
    ensures st' == Issue(Issue(st, UpdateParquetFile(r.rows[0].snapshotId, FAILED)), DeletePending(r.rows[0].snapshotId))
    ensures Leads(env, st, r, [Look] + [GiveUp] + [Drop], st', r.(rows := r.rows[1..]),
                  [SiteOf(Issue(st, UpdateParquetFile(r.rows[0].snapshotId, FAILED))), SiteOf(st')])
  {
    var failed := Issue(st, UpdateParquetFile(r.rows[0].snapshotId, FAILED));
    st' := Issue(failed, DeletePending(r.rows[0].snapshotId));
    Looks(env, st, r, GivingUp);
    GivesUp(env, st, r.(stage := GivingUp));
    LeadsOn(env, st, r, [Look], st, r.(stage := GivingUp), [], [GiveUp], failed, r.(stage := Dropping), [SiteOf(failed)]);
    Drops(env, failed, r.(stage := Dropping));
    LeadsOn(env, st, r, [Look] + [GiveUp], failed, r.(stage := Dropping), [] + [SiteOf(failed)],
            [Drop], st', r.(rows := r.rows[1..]), [SiteOf(st')]);
    assert [] + [SiteOf(failed)] + [SiteOf(st')] == [SiteOf(failed), SiteOf(st')];
  }

  lemma MissingRow(env: Env, st: Store, r: Recoverer) returns (st': Store)
    requires AtRow(r) && LookStep(st, r, r.rows[0]).1 == Some(r.(stage := Checking)) && RowKey(r) !in st.caches
    ensures st' == Issue(st, BumpPending(r.rows[0].snapshotId, MissingFile(r.rows[0])))
    ensures Leads(env, st, r, [Look, Check] + [Bump], st', r.(rows := r.rows[1..]), [SiteOf(st')])
  {
    var bumping := r.(stage := Bumping(MissingFile(r.rows[0])));
    st' := Issue(st, BumpPending(r.rows[0].snapshotId, MissingFile(r.rows[0])));
    Checks(env, st, r, bumping.stage);
    Bumps(env, st, bumping);
    LeadsOn(env, st, r, [Look, Check], st, bumping, [], [Bump], st', r.(rows := r.rows[1..]), [SiteOf(st')]);
    assert [] + [SiteOf(st')] == [SiteOf(st')];
  }

  lemma PushedRow(env: Env, st: Store, r: Recoverer, u: Recovery.Attempt) returns (st': Store)
    requires AtRow(r) && LookStep(st, r, r.rows[0]).1 == Some(r.(stage := Checking)) && RowKey(r) in st.caches
    requires Plausible(env, st, r, u)
    ensures var put := PutObject(st, r.rows[0].irodsTarget, u.stored);
            var good := !u.raised && Accepted(Lookup(st.caches, RowKey(r)), u.answer);
            && st' == (if good then Issue(Flipped(put, r.rows[0]), DeletePending(r.rows[0].snapshotId))
                       else Issue(put, BumpPending(r.rows[0].snapshotId, u.error)))
            && Leads(env, st, r, RowActs(if good then Recovery.Pushed else Recovery.PushFailed, u), st', r.(rows := r.rows[1..]),
                     if good then [SiteOf(put), SiteOf(Flipped(put, r.rows[0])), SiteOf(st')] else [SiteOf(put), SiteOf(st')])
  {
    Checks(env, st, r, Pushing);
    if !u.raised && Accepted(Lookup(st.caches, RowKey(r)), u.answer) {
      st' := CommittedRow(env, st, r, u);
    } else {
      st' := RefusedRow(env, st, r, u);
    }
  }

  lemma CommittedRow(env: Env, st: Store, r: Recoverer, u: Recovery.Attempt) returns (st': Store)
    requires AtRow(r) && RowKey(r) in st.caches && r.rows[0].snapshotId in st.tables.snapshots
    requires Leads(env, st, r, [Look, Check], st, r.(stage := Pushing), []) && Plausible(env, st, r, u)
    requires !u.raised && Accepted(Lookup(st.caches, RowKey(r)), u.answer)
    ensures var put := PutObject(st, r.rows[0].irodsTarget, u.stored);
            && st' == Issue(Flipped(put, r.rows[0]), DeletePending(r.rows[0].snapshotId))
            && Leads(env, st, r, RowActs(Recovery.Pushed, u), st', r.(rows := r.rows[1..]),
                     [SiteOf(put), SiteOf(Flipped(put, r.rows[0])), SiteOf(st')])
  {
    var put := PutObject(st, r.rows[0].irodsTarget, u.stored);
    var flipped := Flipped(put, r.rows[0]);
    st' := Issue(flipped, DeletePending(r.rows[0].snapshotId));
    Pushes(env, st, r.(stage := Pushing), u, Flipping);
    LeadsOn(env, st, r, [Look, Check], st, r.(stage := Pushing), [], PushActs(u), put, r.(stage := Flipping), [SiteOf(put)]);
    Flips(env, put, r.(stage := Flipping));
    LeadsOn(env, st, r, [Look, Check] + PushActs(u), put, r.(stage := Flipping), [] + [SiteOf(put)],
            [Flip], flipped, r.(stage := Dropping), [SiteOf(flipped)]);
    Drops(env, flipped, r.(stage := Dropping));
    LeadsOn(env, st, r, [Look, Check] + PushActs(u) + [Flip], flipped, r.(stage := Dropping), [] + [SiteOf(put)] + [SiteOf(flipped)],
            [Drop], st', r.(rows := r.rows[1..]), [SiteOf(st')]);
    assert [] + [SiteOf(put)] + [SiteOf(flipped)] + [SiteOf(st')] == [SiteOf(put), SiteOf(flipped), SiteOf(st')];
  }

  lemma RefusedRow(env: Env, st: Store, r: Recoverer, u: Recovery.Attempt) returns (st': Store)
    requires AtRow(r) && RowKey(r) in st.caches
    requires Leads(env, st, r, [Look, Check], st, r.(stage := Pushing), []) && Plausible(env, st, r, u)
    requires u.raised || !Accepted(Lookup(st.caches, RowKey(r)), u.answer)
    ensures var put := PutObject(st, r.rows[0].irodsTarget, u.stored);
            && st' == Issue(put, BumpPending(r.rows[0].snapshotId, u.error))
            && Leads(env, st, r, RowActs(Recovery.PushFailed, u), st', r.(rows := r.rows[1..]), [SiteOf(put), SiteOf(st')])
  {
    var put := PutObject(st, r.rows[0].irodsTarget, u.stored);
    var bumping := r.(stage := Bumping(u.error));
    st' := Issue(put, BumpPending(r.rows[0].snapshotId, u.error));
    Pushes(env, st, r.(stage := Pushing), u, Bumping(u.error));
    LeadsOn(env, st, r, [Look, Check], st, r.(stage := Pushing), [], PushActs(u), put, bumping, [SiteOf(put)]);
    Bumps(env, put, bumping);
    LeadsOn(env, st, r, [Look, Check] + PushActs(u), put, bumping, [] + [SiteOf(put)],
            [Bump], st', r.(rows := r.rows[1..]), [SiteOf(st')]);
    assert [] + [SiteOf(put)] + [SiteOf(st')] == [SiteOf(put), SiteOf(st')];
  }

  // --------------------------------------------------------------------- the loop

  function LoopSite(st: Store, r: Recoverer, weather: nat -> Recovery.Attempt, n: nat): Site
    requires n <= |r.rows|
  {
    Recovery.RecoverRows(SiteOf(st), FilesOn(st.caches, r.host), r.maxAttempts, r.rows[..n], weather).0
  }

  ghost predicate PlausibleWeather(env: Env, st: Store, r: Recoverer, weather: nat -> Recovery.Attempt) {
    forall i {:trigger weather(i)} | 0 <= i < |r.rows| ::
      var site := LoopSite(st, r, weather, i);
      Plausible(env, st.(tables := site.tables, objects := site.objects), r.(rows := r.rows[i..]), weather(i))
  }

  lemma LoopSiteNext(st: Store, r: Recoverer, weather: nat -> Recovery.Attempt, n: nat, mid: Store)
    requires 0 < n <= |r.rows| && Reaches(st, mid, LoopSite(st, r, weather, n - 1))
    ensures LoopSite(st, r, weather, n) == RowOutcome(mid, r.(rows := r.rows[n - 1..]), weather(n - 1)).0
    ensures LoopSeen(st, r, weather, n) == LoopSeen(st, r, weather, n - 1) + RowSeen(mid, r.(rows := r.rows[n - 1..]), weather(n - 1))
  {
    assert r.rows[..n][..n - 1] == r.rows[..n - 1];
  }

  function LoopSeen(st: Store, r: Recoverer, weather: nat -> Recovery.Attempt, n: nat): seq<Site>
    requires n <= |r.rows|
  {
    Recovery.RowsTrace(SiteOf(st), FilesOn(st.caches, r.host), r.maxAttempts, r.rows[..n], weather)
  }

  /**
   * The whole loop, uninterrupted, is a run of the recoverer that ends where
   * RecoverRows says, by way of the states its operations leave.
   */
  lemma {:induction false} LoopIsSteps(env: Env, st: Store, r: Recoverer, weather: nat -> Recovery.Attempt, n: nat)
    returns (acts: seq<RecovererAct>, st': Store)
    requires r.stage.Next? && n <= |r.rows| && PlausibleWeather(env, st, r, weather)
    ensures Leads(env, st, r, acts, st', r.(rows := r.rows[n..]), LoopSeen(st, r, weather, n))
    ensures Reaches(st, st', LoopSite(st, r, weather, n))
  {
    if n == 0 {
      acts, st' := [], st;
    } else {
      var before, mid := LoopIsSteps(env, st, r, weather, n - 1);
      var here := r.(rows := r.rows[n - 1..]);
      var site := LoopSite(st, r, weather, n - 1);
      var u := weather(n - 1);
      assert Plausible(env, st.(tables := site.tables, objects := site.objects), here, u);
      st' := RowIsSteps(env, mid, here, u);
      acts := before + RowActs(RowOutcome(mid, here, u).1, u);
      assert r.rows[n - 1..][1..] == r.rows[n..];
      LeadsOn(env, st, r, before, mid, here, LoopSeen(st, r, weather, n - 1),
              RowActs(RowOutcome(mid, here, u).1, u), st', r.(rows := r.rows[n..]), RowSeen(mid, here, u));
      LoopSiteNext(st, r, weather, n, mid);
    }
  }
}
