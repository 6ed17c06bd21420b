// Where the protocol's guarantees stop: recovery that overlaps a live writer.
module Overlap {
  import opened Wrappers
  import opened Avu
  import opened Names
  import opened Storage
  import opened CatalogTables
  import opened Protocol
  import opened Invariant
  import opened Safety
  import opened ProtocolTheorems
  import Recovery

  const CHANGE := Change("p", 1, "/z/p/f", DataObject, Triple("a", "v", ""), Add, "u", 0, "mesa-mcp", None, None)
  const PROJECT := Project("/z/p", "z", "/z/p/.mesa/ducklake", "u")

  function WriterIn(stage: WriterStage): Writer {
    Writer(0, "/c", "p", PROJECT, "u", None, [CHANGE], true, stage)
  }

  function SnapshotRow1(file: string): Snapshot {
    Snapshot("p", 0, "u", None, None, file)
  }

  /** The queue row of snapshot 1 after n failed attempts. */
  function Row1(n: nat): PendingPush {
    PendingPush(1, LocalPath("/c", "p", SnapshotFile(1)), TargetOf(PROJECT, 1), n, if n == 0 then None else Some("timed out"), 0)
  }

  /** The store when the writer of snapshot 1 has queued and written its file. */
  function StoreWith(n: nat, file: string, objects: map<string, Blob>, named: set<nat>): Store {
    Store(Tables(map["p" := PROJECT], map[1 := SnapshotRow1(file)], map[1 := Row1(n)], 2),
          map[Key(0, LocalPath("/c", "p", SnapshotFile(1))) := Parquet([CHANGE])],
          objects,
          map[1 := Entry("p", PROJECT, [CHANGE], true)],
          map[1 := [CHANGE]],
          named)
  }

  lemma Queued1(t: Tables, n: nat)
    requires t.pending == map[1 := Row1(n)]
    ensures Keyed(t.pending) && ListPending(t, 1) == [Row1(n)]
  {
    var q := Queue(t.pending);
    assert q[0].snapshotId in t.pending;
    assert q == [Row1(n)];
  }

  lemma UntilStarted(env: Env) returns (ws: seq<World>, ls: seq<Label>)
    ensures Run(env, ws, ls) && Init(ws[0])
    ensures ws[|ls|] == World(Store(Tables(map["p" := PROJECT], map[], map[], 1), map[], map[], map[], map[], {}),
                              map[0 := WriterIn(Begin)], map[])
  {
    var w0 := World(Store(Tables(map[], map[], map[], 1), map[], map[], map[], map[], {}), map[], map[]);
    ws, ls := [w0], [];
    ws, ls := Extend(env, ws, ls, Register(RegisterProject("p", "/z/p", "z", Some("/z/p/.mesa/ducklake"), "u")));
    ws, ls := Extend(env, ws, ls, StartWriter(0, WriterIn(Begin)));
  }

  lemma UntilCreated(env: Env) returns (ws: seq<World>, ls: seq<Label>)
    ensures Run(env, ws, ls) && Init(ws[0])
    ensures ws[|ls|] == World(Store(Tables(map["p" := PROJECT], map[1 := SnapshotRow1(PENDING)], map[], 2),
                                    map[], map[], map[1 := Entry("p", PROJECT, [CHANGE], true)], map[], {}),
                              map[0 := WriterIn(Allocated(1))], map[])
  {
    ws, ls := UntilStarted(env);
    ws, ls := Extend(env, ws, ls, Writes(0, ReadParent));
    assert ws[|ls|].writers[0].stage == HasParent(None);
    assert Stamp("p", 1, [CHANGE]) == [CHANGE];
    ws, ls := Extend(env, ws, ls, Writes(0, Create(0)));
  }

  lemma UntilWritten(env: Env) returns (ws: seq<World>, ls: seq<Label>)
    ensures Run(env, ws, ls) && Init(ws[0])
    ensures ws[|ls|] == World(StoreWith(0, PENDING, map[], {}), map[0 := WriterIn(Wrote(1))], map[])
  {
    ws, ls := UntilCreated(env);
    ws, ls := Extend(env, ws, ls, Writes(0, Log(0)));
    assert Stamp("p", 1, [CHANGE]) == [CHANGE];
    ws, ls := Extend(env, ws, ls, Writes(0, Write([CHANGE])));
  }

  function RecovererIn(maxAttempts: nat, n: nat, stage: RecovererStage): Recoverer {
    Recoverer(0, maxAttempts, [Row1(n)], stage)
  }

  /** The writer of snapshot 1: crashed, or alive but slow. */
  function Alive(crashed: bool): map<nat, Writer> {
    if crashed then map[] else map[0 := WriterIn(Wrote(1))]
  }

  /** A recoverer takes the row up, under the writer's eyes or after its crash. */
  lemma TakesUp(env: Env, ws: seq<World>, ls: seq<Label>, crashed: bool, maxAttempts: nat, n: nat)
    returns (ws': seq<World>, ls': seq<Label>)
    requires (crashed || !env.exclusive) && Run(env, ws, ls) && Init(ws[0])
    requires ws[|ls|] == World(StoreWith(n, PENDING, map[], {}), Alive(crashed), map[])
    ensures Run(env, ws', ls') && Init(ws'[0])
    ensures ws'[|ls'|] == World(StoreWith(n, PENDING, map[], {}), Alive(crashed),
                                map[0 := RecovererIn(maxAttempts, n, if n >= maxAttempts then GivingUp else Checking)])
  {
    Queued1(ws[|ls|].store.tables, n);
    ws', ls' := Extend(env, ws, ls, StartRecovery(0, 0, maxAttempts, 1));
    ws', ls' := Extend(env, ws', ls', Recovers(0, Look));
  }

  /** Its upload times out, it counts the attempt and ends. */
  lemma TimesOut(env: Env, ws: seq<World>, ls: seq<Label>, crashed: bool, maxAttempts: nat, n: nat)
    returns (ws': seq<World>, ls': seq<Label>)
    requires Run(env, ws, ls) && Init(ws[0])
    requires ws[|ls|] == World(StoreWith(n, PENDING, map[], {}), Alive(crashed), map[0 := RecovererIn(maxAttempts, n, Checking)])
    ensures Run(env, ws', ls') && Init(ws'[0])
    ensures ws'[|ls'|] == World(StoreWith(n, PENDING, map[], {}), Alive(crashed),
                                map[0 := RecovererIn(maxAttempts, n, Bumping("timed out"))])
  {
    ws', ls' := Extend(env, ws, ls, Recovers(0, Check));
    ws', ls' := Extend(env, ws', ls', Recovers(0, Push(None, true, "timed out")));
  }

  lemma Counts(env: Env, ws: seq<World>, ls: seq<Label>, crashed: bool, maxAttempts: nat, n: nat)
    returns (ws': seq<World>, ls': seq<Label>)
    requires Run(env, ws, ls) && Init(ws[0])
    requires ws[|ls|] == World(StoreWith(n, PENDING, map[], {}), Alive(crashed),
                               map[0 := RecovererIn(maxAttempts, n, Bumping("timed out"))])
    ensures Run(env, ws', ls') && Init(ws'[0])
    ensures ws'[|ls'|] == World(StoreWith(n + 1, PENDING, map[], {}), Alive(crashed), map[])
  {
    ws', ls' := Extend(env, ws, ls, Recovers(0, Bump));
    ws', ls' := Extend(env, ws', ls', Recovers(0, Stop));
  }

  lemma UntilLeft(env: Env, crashed: bool) returns (ws: seq<World>, ls: seq<Label>)
    ensures Run(env, ws, ls) && Init(ws[0])
    ensures ws[|ls|] == World(StoreWith(0, PENDING, map[], {}), Alive(crashed), map[])
  {
    ws, ls := UntilWritten(env);
    if crashed { ws, ls := Extend(env, ws, ls, Writes(0, Crash)); }
  }

  /** The row fails n times. */
  lemma {:induction false} UntilTried(env: Env, crashed: bool, maxAttempts: nat, n: nat) returns (ws: seq<World>, ls: seq<Label>)
    requires (crashed || !env.exclusive) && n <= maxAttempts
    ensures Run(env, ws, ls) && Init(ws[0])
    ensures ws[|ls|] == World(StoreWith(n, PENDING, map[], {}), Alive(crashed), map[])
  {
    if n == 0 {
      ws, ls := UntilLeft(env, crashed);
    } else {
      ws, ls := UntilTried(env, crashed, maxAttempts, n - 1);
      ws, ls := TakesUp(env, ws, ls, crashed, maxAttempts, n - 1);
      ws, ls := TimesOut(env, ws, ls, crashed, maxAttempts, n - 1);
      ws, ls := Counts(env, ws, ls, crashed, maxAttempts, n - 1);
    }
  }

  function Uploading(n: nat, named: set<nat>): Store {
    StoreWith(n, if named == {} then PENDING else SnapshotFile(1), map[TargetOf(PROJECT, 1) := Parquet([CHANGE])], named)
  }

  /** The writer uploads and verifies under the eyes of a recoverer. */
  lemma WriterUploads(env: Env, ws: seq<World>, ls: seq<Label>, n: nat, r: Recoverer) returns (ws': seq<World>, ls': seq<Label>)
    requires Run(env, ws, ls) && Init(ws[0])
    requires ws[|ls|] == World(StoreWith(n, PENDING, map[], {}), map[0 := WriterIn(Wrote(1))], map[0 := r])
    ensures Run(env, ws', ls') && Init(ws'[0])
    ensures ws'[|ls'|] == World(Uploading(n, {}), map[0 := WriterIn(Verified(1))], map[0 := r])
  {
    ws', ls' := Extend(env, ws, ls, Writes(0, Upload(Some(Parquet([CHANGE])), false)));
    ws', ls' := Extend(env, ws', ls', Writes(0, Verify(Some(NoChecksum))));
  }

  /** Then it commits, the recoverer having looked before. */
  lemma UntilOverlapped(env: Env, maxAttempts: nat, n: nat) returns (ws: seq<World>, ls: seq<Label>)
    requires !env.exclusive && n <= maxAttempts
    ensures Run(env, ws, ls) && Init(ws[0])
    ensures ws[|ls|] == World(Uploading(n, {1}), map[0 := WriterIn(Committed(1))],
                              map[0 := RecovererIn(maxAttempts, n, if n >= maxAttempts then GivingUp else Checking)])
  {
    ws, ls := UntilTried(env, false, maxAttempts, n);
    ws, ls := TakesUp(env, ws, ls, false, maxAttempts, n);
    ws, ls := WriterUploads(env, ws, ls, n, RecovererIn(maxAttempts, n, if n >= maxAttempts then GivingUp else Checking));
    ws, ls := Extend(env, ws, ls, Writes(0, Commit));
  }

  /** Overlapping recovery, with any attempt cap, overwrites a committed name with 'failed'. */
  lemma OverlapLosesACommit(env: Env, maxAttempts: nat) returns (ws: seq<World>, ls: seq<Label>)
    requires !env.exclusive
    ensures Run(env, ws, ls) && Init(ws[0]) && |ls| > 0
    ensures 1 in ws[|ls| - 1].store.tables.snapshots && 1 in ws[|ls|].store.tables.snapshots
    ensures ws[|ls| - 1].store.tables.snapshots[1].parquetFile == SnapshotFile(1)
    ensures ws[|ls|].store.tables.snapshots[1].parquetFile == FAILED
  {
    ws, ls := UntilOverlapped(env, maxAttempts, maxAttempts);
    ws, ls := Extend(env, ws, ls, Recovers(0, GiveUp));
  }

  /** With uploads that may damage their target, it also loses the object. */
  lemma OverlapLosesAnObject(env: Env, maxAttempts: nat) returns (ws: seq<World>, ls: seq<Label>)
    requires !env.exclusive && !env.atomicPut && maxAttempts > 0
    ensures Run(env, ws, ls) && Init(ws[0])
    ensures 1 in ws[|ls|].store.tables.snapshots && 1 in ws[|ls|].store.entries && ws[|ls|].store.entries[1].session
    ensures ws[|ls|].store.tables.snapshots[1].parquetFile == SnapshotFile(1)
    ensures !ObjectExact(ws[|ls|].store, 1)
  {
    ws, ls := UntilOverlapped(env, maxAttempts, 0);
    ws, ls := Extend(env, ws, ls, Recovers(0, Check));
    ws, ls := Extend(env, ws, ls, Recovers(0, Push(Some(Damaged(0)), true, "connection lost")));
  }

  // ------------------------------------------------------------- exact conditions

  ghost predicate CommitsDurable(env: Env, ws: seq<World>, ls: seq<Label>) {
    Run(env, ws, ls) && Init(ws[0]) ==>
      forall s | s in ws[|ls|].store.tables.snapshots && s in ws[|ls|].store.entries && ws[|ls|].store.entries[s].session
                 && ws[|ls|].store.tables.snapshots[s].parquetFile == SnapshotFile(s) ::
        ObjectExact(ws[|ls|].store, s)
  }

  /**
   * A committed name always has its object, in every run, exactly when recovery
   * never overlaps a live writer or uploads are atomic.
   */
  lemma DurabilityCondition(env: Env)
    ensures (forall ws: seq<World>, ls: seq<Label> :: CommitsDurable(env, ws, ls)) <==> Dependable(env)
  {
    if Dependable(env) {
      forall ws: seq<World>, ls: seq<Label> ensures CommitsDurable(env, ws, ls) {
        if Run(env, ws, ls) && Init(ws[0]) {
          Reachable(env, ws, ls, |ls|);
          var st := ws[|ls|].store;
          forall s | s in st.tables.snapshots && s in st.entries && st.entries[s].session
                     && st.tables.snapshots[s].parquetFile == SnapshotFile(s)
            ensures ObjectExact(st, s)
          {
            assert SnapshotOK(st, s) && DurableAt(env, st, s);
          }
        }
      }
    } else {
      var ws, ls := OverlapLosesAnObject(env, Recovery.DEFAULT_MAX_ATTEMPTS);
      assert !CommitsDurable(env, ws, ls);
    }
  }

  ghost predicate RowsSettle(env: Env, ws: seq<World>, ls: seq<Label>) {
    Run(env, ws, ls) && Init(ws[0]) ==>
      forall i, s | 0 <= i <= |ls| && s in ws[i].store.tables.snapshots
                    && ws[i].store.tables.snapshots[s].parquetFile != PENDING ::
        s in ws[|ls|].store.tables.snapshots && ws[|ls|].store.tables.snapshots[s] == ws[i].store.tables.snapshots[s]
  }

  /** A settled row never changes again, in every run, exactly when recovery is exclusive. */
  lemma LifecycleCondition(env: Env)
    ensures (forall ws: seq<World>, ls: seq<Label> :: RowsSettle(env, ws, ls)) <==> env.exclusive
  {
    if env.exclusive {
      forall ws: seq<World>, ls: seq<Label> ensures RowsSettle(env, ws, ls) {
        if Run(env, ws, ls) && Init(ws[0]) {
          forall i: nat, s | i <= |ls| && s in ws[i].store.tables.snapshots
                             && ws[i].store.tables.snapshots[s].parquetFile != PENDING
            ensures s in ws[|ls|].store.tables.snapshots && ws[|ls|].store.tables.snapshots[s] == ws[i].store.tables.snapshots[s]
          {
            SnapshotLifecycle(env, ws, ls, i, |ls|, s);
          }
        }
      }
    } else {
      var ws, ls := OverlapLosesACommit(env, Recovery.DEFAULT_MAX_ATTEMPTS);
      SnapshotFileInjective(1, 1);
      assert !RowsSettle(env, ws, ls);
    }
  }
}
