// Each step of recover_pending_pushes keeps the invariant.
module RecovererSteps {
  import opened Wrappers
  import opened Avu
  import opened Names
  import opened Storage
  import opened CatalogTables
  import opened Protocol
  import opened Invariant
  import opened StoreSteps
  import opened WriterSteps

  ghost predicate RKept(env: Env, st: Store, r: Recoverer, after: (Store, Option<Recoverer>))
    requires r.rows != []
  {
    var (st', r') := after;
    var sid := r.rows[0].snapshotId;
    && Sound(env, st, st', sid)
    && Shares(st, st', sid)
    && (r'.Some? ==>
          && RecovererOK(env, st', r'.value)
          && (MidRow(r'.value) ==> r'.value.rows == r.rows))
  }

  ghost predicate RReady(env: Env, st: Store, r: Recoverer, a: RecovererAct) {
    StoreOK(env, st) && RecovererOK(env, st, r) && RecovererMay(env, st, r, a) && r.rows != []
  }

  /** A queued row's snapshot still exists: the orphan branch is never taken. */
  lemma RowExists(env: Env, st: Store, r: Recoverer)
    requires TablesOK(st) && RecovererOK(env, st, r) && r.rows != []
    ensures RowOK(st, r.rows[0])
    ensures r.rows[0].snapshotId in st.tables.snapshots
    ensures SnapshotFile(r.rows[0].snapshotId) != PENDING
  {
    assert RowOK(st, r.rows[0]);
    assert EntryOK(st, r.rows[0].snapshotId);
    SnapshotFileInjective(r.rows[0].snapshotId, 0);
  }

  lemma TailOK(env: Env, st: Store, st': Store, r: Recoverer)
    requires RecovererOK(env, st, r) && r.rows != []
    requires forall s | s in st.entries :: s in st'.entries && st'.entries[s] == st.entries[s]
    ensures RecovererOK(env, st', r.(stage := Next, rows := r.rows[1..]))
  {
    forall i | 0 <= i < |r.rows[1..]| ensures RowOK(st', r.rows[1..][i]) {
      assert RowOK(st, r.rows[i + 1]);
    }
  }

  lemma LookKeeps(env: Env, st: Store, r: Recoverer)
    requires RReady(env, st, r, Look)
    ensures RKept(env, st, r, LookStep(st, r, r.rows[0]))
  {
    RowExists(env, st, r);
    Unchanged(env, st, r.rows[0].snapshotId);
  }

  lemma DropKeeps(env: Env, st: Store, r: Recoverer)
    requires RReady(env, st, r, Drop)
    ensures RKept(env, st, r, RecovererStep(st, r, Drop))
  {
    Dequeued(env, st, r.rows[0].snapshotId);
    TailOK(env, st, Issue(st, DeletePending(r.rows[0].snapshotId)), r);
  }

  lemma BumpKeeps(env: Env, st: Store, r: Recoverer)
    requires RReady(env, st, r, Bump)
    ensures RKept(env, st, r, RecovererStep(st, r, Bump))
  {
    Bumped(env, st, r.rows[0].snapshotId, r.stage.error);
    TailOK(env, st, Issue(st, BumpPending(r.rows[0].snapshotId, r.stage.error)), r);
  }

  lemma PendingNotNamed(env: Env, st: Store, sid: nat)
    requires DurableOK(env, st) && env.exclusive
    requires sid in st.tables.snapshots && st.tables.snapshots[sid].parquetFile == PENDING
    ensures sid !in st.named
  {
    SnapshotFileInjective(sid, sid);
    forall s | s in st.named ensures s != sid { assert DurableAt(env, st, s); }
  }

  lemma RowsUndisturbed(env: Env, st: Store, st': Store, r: Recoverer)
    requires RecovererOK(env, st, r)
    requires forall s | s in st.entries :: s in st'.entries && st'.entries[s] == st.entries[s]
    ensures forall i | 0 <= i < |r.rows| :: RowOK(st', r.rows[i])
  {
    forall i | 0 <= i < |r.rows| ensures RowOK(st', r.rows[i]) { assert RowOK(st, r.rows[i]); }
  }

  lemma GiveUpKeeps(env: Env, st: Store, r: Recoverer)
    requires RReady(env, st, r, GiveUp)
    ensures RKept(env, st, r, RecovererStep(st, r, GiveUp))
  {
    var sid := r.rows[0].snapshotId;
    RowExists(env, st, r);
    if env.exclusive { PendingNotNamed(env, st, sid); }
    GivenUp(env, st, sid);
    RowsUndisturbed(env, st, Renamed(st, sid, FAILED), r);
  }

  lemma CheckKeeps(env: Env, st: Store, r: Recoverer)
    requires RReady(env, st, r, Check)
    ensures RKept(env, st, r, RecovererStep(st, r, Check))
  {
    RowExists(env, st, r);
    Unchanged(env, st, r.rows[0].snapshotId);
  }

  lemma PushKeeps(env: Env, st: Store, r: Recoverer, stored: Option<Blob>, raised: bool, error: string)
    requires RReady(env, st, r, Push(stored, raised, error))
    ensures RKept(env, st, r, RecovererStep(st, r, Push(stored, raised, error)))
  {
    var sid := r.rows[0].snapshotId;
    RowExists(env, st, r);
    if env.exclusive { PendingNotNamed(env, st, sid); }
    var st' := PutObject(st, r.rows[0].irodsTarget, stored);
    if RowKey(r) in st.caches {
      assert CachedOK(env, st, RowKey(r), sid);
      Put(env, st, sid, RowKey(r), stored, raised);
    } else {
      Unchanged(env, st, sid);
    }
    RowsUndisturbed(env, st, st', r);
  }

  lemma VerifyPushKeeps(env: Env, st: Store, r: Recoverer, answer: Option<Answer>, error: string)
    requires RReady(env, st, r, VerifyPush(answer, error))
    ensures RKept(env, st, r, RecovererStep(st, r, VerifyPush(answer, error)))
  {
    var sid := r.rows[0].snapshotId;
    RowExists(env, st, r);
    Unchanged(env, st, sid);
    if Accepted(Lookup(st.caches, RowKey(r)), answer) {
      AcceptedIsExact(env, st, sid, RowKey(r), answer);
    }
  }

  lemma FlipKeeps(env: Env, st: Store, r: Recoverer)
    requires RReady(env, st, r, Flip)
    ensures RKept(env, st, r, RecovererStep(st, r, Flip))
  {
    var sid := r.rows[0].snapshotId;
    RowExists(env, st, r);
    Named(env, st, sid);
    RowsUndisturbed(env, st, Renamed(st, sid, SnapshotFile(sid)).(named := st.named + {sid}), r);
  }

  lemma {:induction false} RecovererKeeps(env: Env, st: Store, r: Recoverer, a: RecovererAct)
    requires RReady(env, st, r, a)
    ensures RKept(env, st, r, RecovererStep(st, r, a))
  {
    match a
    case Look => LookKeeps(env, st, r);
    case Drop => DropKeeps(env, st, r);
    case GiveUp => GiveUpKeeps(env, st, r);
    case Check => CheckKeeps(env, st, r);
    case Push(stored, raised, error) => PushKeeps(env, st, r, stored, raised, error);
    case VerifyPush(answer, error) => VerifyPushKeeps(env, st, r, answer, error);
    case Flip => FlipKeeps(env, st, r);
    case Bump => BumpKeeps(env, st, r);
    case Stop => Unchanged(env, st, r.rows[0].snapshotId);
  }
}
