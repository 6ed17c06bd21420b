// The three catalog tables, the statements issued against them, and the two
// backends: Postgres enforces foreign keys and cascades, DuckDB does neither.
module CatalogTables {
  import opened Wrappers
  import opened Avu
  import opened Names

  datatype Project = Project(irodsPath: string, zone: string, ducklakePath: string, createdBy: string)

  datatype Snapshot = Snapshot(
    project: string,
    ts: int,
    actor: string,
    parent: Option<nat>,
    note: Option<string>,
    parquetFile: string)

  datatype PendingPush = PendingPush(
    snapshotId: nat,
    localPath: string,
    irodsTarget: string,
    attempts: nat,
    lastError: Option<string>,
    createdAt: int)

  datatype Tables = Tables(
    projects: map<string, Project>,
    snapshots: map<nat, Snapshot>,
    pending: map<nat, PendingPush>,
    nextId: nat)

  // ----------------------------------------------------------- writing statements

  datatype Call =
    | RegisterProject(id: string, irodsPath: string, zone: string, ducklakePath: Option<string>, createdBy: string)
    | CreateSnapshot(project: string, actor: string, parent: Option<nat>, note: Option<string>, parquetFile: string, now: int)
    | UpdateParquetFile(sid: nat, parquetFile: string)
    | DeleteSnapshot(sid: nat)
    | InsertPending(sid: nat, localPath: string, irodsTarget: string, now: int)
    | DeletePending(sid: nat)
    | BumpPending(sid: nat, error: string)

  datatype Reply =
    | Done
    | ProjectRow(id: string, project: Project)
    | SnapshotRow(sid: nat, snapshot: Snapshot)
    | PendingRow(row: PendingPush)
    | NotFound
    | UniqueViolation
    | ForeignKeyViolation

  const ERROR_MAX_CHARS := 2000

  function Truncate(error: string): string {
    if |error| <= ERROR_MAX_CHARS then error else error[..ERROR_MAX_CHARS]
  }

  /** ducklake_subpath: the default collection, unless the caller names one. */
  function LakePath(irodsPath: string, ducklakePath: Option<string>): string {
    if ducklakePath.Some? && ducklakePath.value != "" then ducklakePath.value
    else StripSlashes(irodsPath) + "/.mesa/ducklake"
  }

  /** The default collection is .mesa/ducklake directly under the project's path. */
  lemma LakePathMeans(irodsPath: string, named: string)
    ensures irodsPath != "" && irodsPath[|irodsPath| - 1] != '/' ==> LakePath(irodsPath, None) == irodsPath + "/.mesa/ducklake"
    ensures LakePath(irodsPath + "/", None) == LakePath(irodsPath, None) == LakePath(irodsPath, Some(""))
    ensures named != "" ==> LakePath(irodsPath, Some(named)) == named
  {
    assert (irodsPath + "/")[..|irodsPath|] == irodsPath;
  }

  /** An error text is stored whole up to 2000 characters, and cut there otherwise. */
  lemma TruncateMeans(error: string)
    ensures Truncate(error) <= error && |Truncate(error)| == if |error| <= 2000 then |error| else 2000
  {
  }

  predicate PathTaken(t: Tables, irodsPath: string) {
    exists p :: p in t.projects && t.projects[p].irodsPath == irodsPath
  }

  /** The statements both backends run unchanged. */
  function Common(t: Tables, c: Call): (Tables, Reply) {
    match c
    case RegisterProject(id, irodsPath, zone, lake, creator) =>
      if id in t.projects || PathTaken(t, irodsPath) then (t, UniqueViolation)
      else
        var row := Project(irodsPath, zone, LakePath(irodsPath, lake), creator);
        (t.(projects := t.projects[id := row]), ProjectRow(id, row))
    case CreateSnapshot(project, actor, parent, note, file, now) =>
      var row := Snapshot(project, now, actor, parent, note, file);
      (t.(snapshots := t.snapshots[t.nextId := row], nextId := t.nextId + 1), SnapshotRow(t.nextId, row))
    case UpdateParquetFile(sid, file) =>
      if sid in t.snapshots then
        var row := t.snapshots[sid].(parquetFile := file);
        (t.(snapshots := t.snapshots[sid := row]), SnapshotRow(sid, row))
      else (t, NotFound)
    case DeleteSnapshot(sid) =>
      (t.(snapshots := t.snapshots - {sid}), Done)
    case InsertPending(sid, local, target, now) =>
      if sid in t.pending then (t, PendingRow(t.pending[sid]))
      else
        var row := PendingPush(sid, local, target, 0, None, now);
        (t.(pending := t.pending[sid := row]), PendingRow(row))
    case DeletePending(sid) =>
      (t.(pending := t.pending - {sid}), Done)
    case BumpPending(sid, error) =>
      if sid in t.pending then
        var row := t.pending[sid].(attempts := t.pending[sid].attempts + 1, lastError := Some(Truncate(error)));
        (t.(pending := t.pending[sid := row]), PendingRow(row))
      else (t, NotFound)
  }

  predicate HasChildren(t: Tables, sid: nat) {
    exists s :: s in t.snapshots && s != sid && t.snapshots[s].parent == Some(sid)
  }

  /** Postgres: REFERENCES checks, and ON DELETE CASCADE on the push queue. */
  function Postgres(t: Tables, c: Call): (Tables, Reply) {
    match c
    case CreateSnapshot(project, _, parent, _, _, _) =>
      if project in t.projects && (parent.None? || parent.value in t.snapshots || parent.value == t.nextId) then
        Common(t, c)
      else (t.(nextId := t.nextId + 1), ForeignKeyViolation)
    case InsertPending(sid, _, _, _) =>
      if sid in t.snapshots || sid in t.pending then Common(t, c) else (t, ForeignKeyViolation)
    case DeleteSnapshot(sid) =>
      if HasChildren(t, sid) then (t, ForeignKeyViolation)
      else (t.(snapshots := t.snapshots - {sid}, pending := t.pending - {sid}), Done)
    case _ => Common(t, c)
  }

  /** DuckDB: no checks; a delete is two statements, the queue row first. */
  function DuckDBStatements(c: Call): seq<Call> {
    if c.DeleteSnapshot? then [DeletePending(c.sid), c] else [c]
  }

  /** The committed states after each statement; a crash leaves one of them. */
  function DuckDBStates(t: Tables, c: Call): (states: seq<Tables>) {
    var ss := DuckDBStatements(c);
    var first := Common(t, ss[0]).0;
    if |ss| == 1 then [first] else [first, Common(first, ss[1]).0]
  }

  function DuckDB(t: Tables, c: Call): (Tables, Reply) {
    var ss := DuckDBStatements(c);
    if |ss| == 1 then Common(t, c) else Common(Common(t, ss[0]).0, ss[1])
  }

  // ------------------------------------------------------------------ refinement

  ghost predicate PathsUnique(projects: map<string, Project>) {
    forall p, q | p in projects && q in projects && projects[p].irodsPath == projects[q].irodsPath :: p == q
  }

  ghost predicate References(t: Tables, s: nat)
    requires s in t.snapshots
  {
    && s < t.nextId
    && t.snapshots[s].project in t.projects
    && (t.snapshots[s].parent.Some? ==> t.snapshots[s].parent.value in t.snapshots)
  }

  ghost predicate PendingReferences(t: Tables, s: nat)
    requires s in t.pending
  {
    s in t.snapshots && t.pending[s].snapshotId == s
  }

  /** What Postgres declares: keys, uniqueness, and the three foreign keys. */
  ghost predicate Constraints(t: Tables) {
    && PathsUnique(t.projects)
    && (forall s {:trigger References(t, s)} | s in t.snapshots :: References(t, s))
    && (forall s {:trigger PendingReferences(t, s)} | s in t.pending :: PendingReferences(t, s))
  }

  /** What a caller has to know before a call for the two backends to agree on it. */
  predicate Legal(t: Tables, c: Call) {
    match c
    case CreateSnapshot(project, _, parent, _, _, _) =>
      project in t.projects && (parent.None? || parent.value in t.snapshots || parent.value == t.nextId)
    case InsertPending(sid, _, _, _) => sid in t.snapshots
    case DeleteSnapshot(sid) => !HasChildren(t, sid)
    case _ => true
  }

  lemma LegalKeepsConstraints(t: Tables, c: Call)
    requires Constraints(t) && Legal(t, c) && !c.DeleteSnapshot?
    ensures Constraints(Common(t, c).0)
  {
    var u := Common(t, c).0;
    forall s | s in u.snapshots ensures References(u, s) {
      if s in t.snapshots { assert References(t, s); }
    }
    forall s | s in u.pending ensures PendingReferences(u, s) {
      if s in t.pending { assert PendingReferences(t, s); }
    }
    if c.RegisterProject? && u != t {
      assert forall p | p in u.projects && p != c.id :: u.projects[p].irodsPath != c.irodsPath;
    }
  }

  lemma LegalDeleteKeepsConstraints(t: Tables, sid: nat)
    requires Constraints(t) && !HasChildren(t, sid) && sid !in t.pending
    ensures Constraints(Common(t, DeleteSnapshot(sid)).0)
  {
    var u := Common(t, DeleteSnapshot(sid)).0;
    forall s | s in u.snapshots ensures References(u, s) {
      assert References(t, s) && s != sid;
      assert t.snapshots[s].parent != Some(sid);
    }
    forall s | s in u.pending ensures PendingReferences(u, s) {
      assert PendingReferences(t, s);
    }
  }

  /**
   * The unconstrained DuckDB file behaves as the constrained Postgres schema
   * exactly on the legal calls, and then keeps every constraint in each state a
   * crash can leave, including between the two statements of a delete.
   */
  lemma BackendsAgree(t: Tables, c: Call)
    requires Constraints(t)
    ensures DuckDB(t, c) == Postgres(t, c) <==> Legal(t, c)
    ensures Legal(t, c) ==> Constraints(Postgres(t, c).0)
    ensures Legal(t, c) ==> forall i | 0 <= i < |DuckDBStates(t, c)| :: Constraints(DuckDBStates(t, c)[i])
  {
    if c.InsertPending? && c.sid in t.pending { assert PendingReferences(t, c.sid); }
    if c.DeleteSnapshot? {
      var mid := Common(t, DeletePending(c.sid)).0;
      assert DuckDBStatements(c) == [DeletePending(c.sid), c];
      assert DuckDBStates(t, c) == [mid, Common(mid, c).0];
      LegalKeepsConstraints(t, DeletePending(c.sid));
      assert HasChildren(mid, c.sid) <==> HasChildren(t, c.sid);
      if Legal(t, c) { LegalDeleteKeepsConstraints(mid, c.sid); }
    } else {
      assert DuckDBStatements(c) == [c];
      assert DuckDBStates(t, c) == [Common(t, c).0];
      if Legal(t, c) { LegalKeepsConstraints(t, c); }
    }
  }

  /** Off the legal calls they differ: queueing a push for a snapshot that does not exist. */
  lemma BackendsDiffer()
    ensures var t, c := Tables(map[], map[], map[], 1), InsertPending(1, "/c/p/snapshot_1.parquet", "/z/p/snapshot_1.parquet", 0);
            && Constraints(t) && !Legal(t, c)
            && Postgres(t, c) == (t, ForeignKeyViolation)
            && DuckDB(t, c).1.PendingRow? && !Constraints(DuckDB(t, c).0)
  {
    var t, c := Tables(map[], map[], map[], 1), InsertPending(1, "/c/p/snapshot_1.parquet", "/z/p/snapshot_1.parquet", 0);
    var u := DuckDB(t, c).0;
    assert 1 in u.pending && !PendingReferences(u, 1);
  }

  /** Deleting the parent first keeps the constraints only if nothing is queued. */
  lemma ChildFirstOrderMatters(t: Tables, sid: nat)
    requires Constraints(t) && Legal(t, DeleteSnapshot(sid))
    ensures Constraints(Common(t, DeleteSnapshot(sid)).0) <==> sid !in t.pending
  {
    var after := Common(t, DeleteSnapshot(sid)).0;
    if sid in t.pending {
      assert !PendingReferences(after, sid);
    } else {
      LegalDeleteKeepsConstraints(t, sid);
    }
  }

  // ------------------------------------------------------------------ reading

  lemma MaxExists(s: set<nat>)
    requires s != {}
    ensures exists m :: m in s && forall x | x in s :: x <= m
  {
    var x :| x in s;
    var rest := s - {x};
    if rest == {} {
      assert s == {x};
    } else {
      MaxExists(rest);
      var m :| m in rest && forall y | y in rest :: y <= m;
      var top := if x > m then x else m;
      forall y | y in s ensures y <= top {
        assert y == x || y in rest;
      }
    }
  }

  function MaxId(s: set<nat>): (m: nat)
    requires s != {}
    ensures m in s && forall x | x in s :: x <= m
  {
    MaxExists(s);
    var m :| m in s && forall x | x in s :: x <= m;
    m
  }

  function SnapshotIds(t: Tables, project: string, includePending: bool): set<nat> {
    set s | s in t.snapshots && t.snapshots[s].project == project && (includePending || t.snapshots[s].parquetFile != PENDING)
  }

  function LatestSnapshotId(t: Tables, project: string, includePending: bool): Option<nat> {
    var ids := SnapshotIds(t, project, includePending);
    if ids == {} then None else Some(MaxId(ids))
  }

  /** The latest id is the largest one of the project whose file name is not "pending", if there is one. */
  lemma LatestMeans(t: Tables, project: string, m: nat)
    ensures LatestSnapshotId(t, project, false) == Some(m) <==>
            && m in t.snapshots && t.snapshots[m].project == project && t.snapshots[m].parquetFile != "pending"
            && forall s | s in t.snapshots && t.snapshots[s].project == project && t.snapshots[s].parquetFile != "pending" :: s <= m
    ensures LatestSnapshotId(t, project, false).None? <==>
            forall s | s in t.snapshots && t.snapshots[s].project == project :: t.snapshots[s].parquetFile == "pending"
  {
    var ids := SnapshotIds(t, project, false);
    forall s ensures s in ids <==>
        s in t.snapshots && t.snapshots[s].project == project && t.snapshots[s].parquetFile != "pending" {}
    if ids == {} {
      forall s | s in t.snapshots && t.snapshots[s].project == project ensures t.snapshots[s].parquetFile == "pending" {
        assert s !in ids;
      }
    }
  }

  /** ORDER BY snapshot_id DESC LIMIT n. */
  function NewestIds(s: set<nat>, limit: nat): (ids: seq<nat>)
    ensures forall i | 0 <= i < |ids| :: ids[i] in s
    ensures forall i, j | 0 <= i < j < |ids| :: ids[j] < ids[i]
    ensures |ids| == if |s| <= limit then |s| else limit
    decreases limit
  {
    if s == {} || limit == 0 then [] else [MaxId(s)] + NewestIds(s - {MaxId(s)}, limit - 1)
  }

  function ListSnapshots(t: Tables, project: string, limit: nat, includePending: bool): seq<nat> {
    NewestIds(SnapshotIds(t, project, includePending), limit)
  }

  /** The limit drops exactly the ids that have `limit` or more newer ones. */
  lemma {:induction false} NewestIdsCover(s: set<nat>, limit: nat, x: nat)
    requires x in s
    ensures x in NewestIds(s, limit) <==> |set y | y in s && y > x| < limit
    decreases limit
  {
    var newer := set y | y in s && y > x;
    if limit > 0 {
      var m := MaxId(s);
      if x == m {
        assert newer == {};
      } else {
        var rest := s - {m};
        assert newer == (set y | y in rest && y > x) + {m};
        NewestIdsCover(rest, limit - 1, x);
      }
    }
  }

  // ------------------------------------------------------------------ the queue

  predicate Before(a: PendingPush, b: PendingPush) {
    a.createdAt < b.createdAt || (a.createdAt == b.createdAt && a.snapshotId < b.snapshotId)
  }

  ghost predicate Keyed(m: map<nat, PendingPush>) {
    forall s | s in m :: m[s].snapshotId == s
  }

  /** q lists the rows of m with keys ks in drain order: created_at, then snapshot_id. */
  ghost predicate Lists(q: seq<PendingPush>, m: map<nat, PendingPush>, ks: set<nat>) {
    && (forall i, j | 0 <= i < j < |q| :: Before(q[i], q[j]))
    && (forall i | 0 <= i < |q| :: q[i].snapshotId in ks && q[i].snapshotId in m && m[q[i].snapshotId] == q[i])
    && (forall s | s in ks :: exists i :: 0 <= i < |q| && q[i].snapshotId == s)
  }

  ghost predicate IsOldest(m: map<nat, PendingPush>, ks: set<nat>, s: nat)
    requires ks <= m.Keys
  {
    s in ks && forall x | x in ks && x != s :: Before(m[s], m[x])
  }

  lemma {:induction false} OldestExists(m: map<nat, PendingPush>, ks: set<nat>)
    requires ks != {} && ks <= m.Keys && Keyed(m)
    ensures exists s :: IsOldest(m, ks, s)
  {
    var x :| x in ks;
    var rest := ks - {x};
    if rest == {} {
      assert ks == rest + {x};
      assert IsOldest(m, ks, x);
    } else {
      OldestExists(m, rest);
      var s :| IsOldest(m, rest, s);
      var oldest := if Before(m[x], m[s]) then x else s;
      forall y | y in ks && y != oldest ensures Before(m[oldest], m[y]) {
        assert y in rest || y == x;
      }
      assert IsOldest(m, ks, oldest);
    }
  }

  function Oldest(m: map<nat, PendingPush>, ks: set<nat>): (s: nat)
    requires ks != {} && ks <= m.Keys && Keyed(m)
    ensures s in ks && forall x | x in ks && x != s :: Before(m[s], m[x])
  {
    OldestExists(m, ks);
    assert exists s :: s in ks && forall x | x in ks && x != s :: Before(m[s], m[x]) by {
      var s :| IsOldest(m, ks, s);
    }
    var s :| s in ks && forall x | x in ks && x != s :: Before(m[s], m[x]);
    s
  }

  function QueueOf(m: map<nat, PendingPush>, ks: set<nat>): (q: seq<PendingPush>)
    requires ks <= m.Keys && Keyed(m)
    ensures |q| == |ks|
    decreases |ks|
  {
    if ks == {} then [] else
      var s := Oldest(m, ks);
      [m[s]] + QueueOf(m, ks - {s})
  }

  /** Putting the oldest row before a listing of the others. */
  lemma ListsCons(row: PendingPush, q: seq<PendingPush>, m: map<nat, PendingPush>, ks: set<nat>)
    requires Lists(q, m, ks) && row.snapshotId in m && m[row.snapshotId] == row
    requires forall i | 0 <= i < |q| :: Before(row, q[i])
    ensures Lists([row] + q, m, ks + {row.snapshotId})
  {
    var all := [row] + q;
    forall i, j | 0 <= i < j < |all| ensures Before(all[i], all[j]) {
      assert i > 0 ==> all[i] == q[i - 1];
      assert all[j] == q[j - 1];
    }
    forall x | x in ks + {row.snapshotId} ensures exists i :: 0 <= i < |all| && all[i].snapshotId == x {
      if x == row.snapshotId {
        assert all[0].snapshotId == x;
      } else {
        var i :| 0 <= i < |q| && q[i].snapshotId == x;
        assert all[i + 1].snapshotId == x;
      }
    }
  }

  lemma {:induction false} QueueOfLists(m: map<nat, PendingPush>, ks: set<nat>)
    requires ks <= m.Keys && Keyed(m)
    ensures Lists(QueueOf(m, ks), m, ks)
    decreases |ks|
  {
    if ks != {} {
      var s := Oldest(m, ks);
      QueueOfLists(m, ks - {s});
      ListsCons(m[s], QueueOf(m, ks - {s}), m, ks - {s});
      assert ks - {s} + {s} == ks;
    }
  }

  /** list_pending_pushes without its limit. */
  function Queue(m: map<nat, PendingPush>): (q: seq<PendingPush>)
    requires Keyed(m)
    ensures Lists(q, m, m.Keys) && |q| == |m|
  {
    QueueOfLists(m, m.Keys);
    QueueOf(m, m.Keys)
  }

  function ListPending(t: Tables, limit: nat): seq<PendingPush>
    requires Keyed(t.pending)
  {
    var q := Queue(t.pending);
    if |q| <= limit then q else q[..limit]
  }

  ghost predicate Sooner(a: PendingPush, b: PendingPush) {
    a.createdAt < b.createdAt || (a.createdAt == b.createdAt && a.snapshotId < b.snapshotId)
  }

  /** The drain order is determined by the table. */
  lemma {:induction false} DrainOrderUnique(p: seq<PendingPush>, q: seq<PendingPush>, m: map<nat, PendingPush>, ks: set<nat>)
    requires Lists(p, m, ks) && Lists(q, m, ks)
    ensures p == q
    decreases |p|
  {
    if p != [] && q != [] {
      SameHead(p, q, m, ks);
      ListsTail(p, m, ks);
      ListsTail(q, m, ks);
      DrainOrderUnique(p[1..], q[1..], m, ks - {p[0].snapshotId});
      assert p == [p[0]] + p[1..] && q == [q[0]] + q[1..];
    } else {
      ListsNothing(p, m, ks);
      ListsNothing(q, m, ks);
    }
  }

  lemma SameHead(p: seq<PendingPush>, q: seq<PendingPush>, m: map<nat, PendingPush>, ks: set<nat>)
    requires Lists(p, m, ks) && Lists(q, m, ks) && p != [] && q != []
    ensures p[0] == q[0]
  {
    var i :| 0 <= i < |p| && p[i].snapshotId == q[0].snapshotId;
    var j :| 0 <= j < |q| && q[j].snapshotId == p[0].snapshotId;
    assert i > 0 ==> Before(p[0], p[i]);
    assert j > 0 ==> Before(q[0], q[j]);
  }

  lemma ListsNothing(q: seq<PendingPush>, m: map<nat, PendingPush>, ks: set<nat>)
    requires Lists(q, m, ks)
    ensures q == [] <==> ks == {}
  {
    if q != [] {
      assert q[0].snapshotId in ks;
    } else {
      assert ks == {};
    }
  }

  lemma ListsTail(q: seq<PendingPush>, m: map<nat, PendingPush>, ks: set<nat>)
    requires Lists(q, m, ks) && q != []
    ensures Lists(q[1..], m, ks - {q[0].snapshotId})
  {
    var tail := q[1..];
    var rest := ks - {q[0].snapshotId};
    forall i | 0 <= i < |tail| ensures tail[i].snapshotId in rest {
      assert tail[i] == q[i + 1];
      assert Before(q[0], q[i + 1]);
    }
    forall x | x in rest ensures exists i :: 0 <= i < |tail| && tail[i].snapshotId == x {
      var i :| 0 <= i < |q| && q[i].snapshotId == x;
      assert tail[i - 1].snapshotId == x;
    }
  }

  /** q holds the oldest rows of m, oldest first, and leaves out only younger ones. */
  ghost predicate HoldsOldest(q: seq<PendingPush>, m: map<nat, PendingPush>) {
    && (forall i | 0 <= i < |q| :: q[i].snapshotId in m && m[q[i].snapshotId] == q[i])
    && (forall i, j | 0 <= i < j < |q| :: Sooner(q[i], q[j]))
    && (forall s, i | s in m && m[s] !in q && 0 <= i < |q| :: Sooner(q[i], m[s]))
  }

  lemma ListingHoldsOldest(t: Tables, limit: nat)
    requires Keyed(t.pending)
    ensures HoldsOldest(ListPending(t, limit), t.pending)
  {
    var all, q := Queue(t.pending), ListPending(t, limit);
    forall i, j | 0 <= i < j < |q| ensures Sooner(q[i], q[j]) { assert Before(all[i], all[j]); }
    forall s, i | s in t.pending && t.pending[s] !in q && 0 <= i < |q| ensures Sooner(q[i], t.pending[s]) {
      var k :| 0 <= k < |all| && all[k].snapshotId == s;
      assert Before(all[i], all[k]);
    }
  }

  /**
   * The listing is the one sequence of at most `limit` rows, and all of them if
   * there are no more, that holds the oldest pushes in order.
   */
  lemma OldestPushesFirst(t: Tables, limit: nat, q: seq<PendingPush>)
    requires Keyed(t.pending)
    ensures q == ListPending(t, limit) <==>
            |q| == (if |t.pending| <= limit then |t.pending| else limit) && HoldsOldest(q, t.pending)
  {
    ListingHoldsOldest(t, limit);
    if |q| == (if |t.pending| <= limit then |t.pending| else limit) && HoldsOldest(q, t.pending) {
      OldestIsPrefix(q, t.pending);
      assert q == Queue(t.pending)[..|q|];
    }
  }

  lemma OldestIsPrefix(q: seq<PendingPush>, m: map<nat, PendingPush>)
    requires Keyed(m) && HoldsOldest(q, m)
    ensures |q| <= |Queue(m)| && q == Queue(m)[..|q|]
  {
    var ids := set i | 0 <= i < |q| :: q[i].snapshotId;
    var rest := QueueOf(m, m.Keys - ids);
    QueueOfLists(m, m.Keys - ids);
    RestFollows(q, rest, m, ids);
    DrainOrderUnique(q + rest, Queue(m), m, m.Keys);
    assert (q + rest)[..|q|] == q;
  }

  lemma RestFollows(q: seq<PendingPush>, rest: seq<PendingPush>, m: map<nat, PendingPush>, ids: set<nat>)
    requires Keyed(m) && HoldsOldest(q, m) && Lists(rest, m, m.Keys - ids)
    requires ids == set i | 0 <= i < |q| :: q[i].snapshotId
    ensures Lists(q + rest, m, m.Keys)
  {
    var all := q + rest;
    forall i, j | 0 <= i < j < |all| ensures Before(all[i], all[j]) {
      if j < |q| {
        assert Sooner(q[i], q[j]);
      } else if i >= |q| {
        assert Before(rest[i - |q|], rest[j - |q|]);
      } else {
        var s := rest[j - |q|].snapshotId;
        assert s !in ids && m[s] !in q;
        assert Sooner(q[i], m[s]);
      }
    }
    forall s | s in m.Keys ensures exists i :: 0 <= i < |all| && all[i].snapshotId == s {
      if s in ids {
        var i :| 0 <= i < |q| && q[i].snapshotId == s;
        assert all[i].snapshotId == s;
      } else {
        assert s in m.Keys - ids;
        var i :| 0 <= i < |rest| && rest[i].snapshotId == s;
        assert all[|q| + i].snapshotId == s;
      }
    }
  }
}
