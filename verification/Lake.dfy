// One project's lake: a directory of snapshot files, and the queries over the
// union of their rows.
module Lake {
  import opened Wrappers
  import opened Avu
  import opened Names
  import opened Storage
  import opened WriteOrder
  import opened Effective
  import opened Cache
  import Protocol

  // ------------------------------------------------------------------ the directory

  /** Matches the glob snapshot_*.parquet. */
  predicate Globbed(name: string) {
    '/' !in name && |name| >= 17 && name[..9] == "snapshot_" && name[|name| - 8..] == ".parquet"
  }

  lemma GlobbedMeans(name: string)
    ensures Globbed(name) <==> '/' !in name && exists middle: string {:trigger "snapshot_" + middle} :: name == "snapshot_" + middle + ".parquet"
  {
    if Globbed(name) {
      var middle := name[9..|name| - 8];
      assert name == "snapshot_" + middle + ".parquet";
    }
  }

  predicate InLake(root: string, path: string) {
    |path| > |root| && path[..|root| + 1] == root + "/" && Globbed(path[|root| + 1..])
  }

  function LakeFiles(files: map<string, Blob>, root: string): set<string> {
    set p | p in files && InLake(root, p)
  }

  lemma SnapshotFileIsInLake(root: string, sid: nat)
    ensures InLake(root, root + "/" + SnapshotFile(sid))
  {
    SnapshotFileInjective(sid, sid);
    var path := root + "/" + SnapshotFile(sid);
    assert path[..|root| + 1] == root + "/" && path[|root| + 1..] == SnapshotFile(sid);
  }

  function RowsOf(b: Blob): seq<Change> {
    if b.Parquet? then b.rows else []
  }

  ghost predicate Readable(files: map<string, Blob>, root: string) {
    forall p | p in LakeFiles(files, root) :: files[p].Parquet?
  }

  ghost function BagOf(files: map<string, Blob>, paths: set<string>): multiset<Change>
    requires paths <= files.Keys
    decreases |paths|
  {
    if paths == {} then multiset{} else
      var p :| p in paths;
      multiset(RowsOf(files[p])) + BagOf(files, paths - {p})
  }

  /** All rows of the lake: the avu_changes view. */
  ghost function View(files: map<string, Blob>, root: string): multiset<Change> {
    BagOf(files, LakeFiles(files, root))
  }

  lemma {:induction false} BagWithout(files: map<string, Blob>, paths: set<string>, p: string)
    requires paths <= files.Keys && p in paths
    ensures BagOf(files, paths) == multiset(RowsOf(files[p])) + BagOf(files, paths - {p})
    decreases |paths|
  {
    var q :| q in paths && BagOf(files, paths) == multiset(RowsOf(files[q])) + BagOf(files, paths - {q});
    if q != p {
      BagWithout(files, paths - {q}, p);
      BagWithout(files, paths - {p}, q);
      assert paths - {q} - {p} == paths - {p} - {q};
    }
  }

  lemma {:induction false} BagFrame(files: map<string, Blob>, files': map<string, Blob>, paths: set<string>)
    requires paths <= files.Keys && paths <= files'.Keys
    requires forall p | p in paths :: files'[p] == files[p]
    ensures BagOf(files', paths) == BagOf(files, paths)
    decreases |paths|
  {
    if paths != {} {
      var p :| p in paths && BagOf(files, paths) == multiset(RowsOf(files[p])) + BagOf(files, paths - {p});
      BagFrame(files, files', paths - {p});
      BagWithout(files', paths, p);
    }
  }

  /** A new file adds its rows to the view and nothing else. */
  lemma NewFileAddsRows(files: map<string, Blob>, root: string, path: string, blob: Blob)
    requires InLake(root, path) && path !in files
    ensures View(files[path := blob], root) == View(files, root) + multiset(RowsOf(blob))
    ensures Readable(files[path := blob], root) <==> Readable(files, root) && blob.Parquet?
  {
    var files' := files[path := blob];
    assert LakeFiles(files', root) == LakeFiles(files, root) + {path};
    BagWithout(files', LakeFiles(files', root), path);
    assert LakeFiles(files', root) - {path} == LakeFiles(files, root);
    BagFrame(files, files', LakeFiles(files, root));
    if Readable(files', root) {
      forall p | p in LakeFiles(files, root) ensures files[p].Parquet? {
        assert p in LakeFiles(files', root);
      }
    }
  }

  // --------------------------------------------------------------------- the queries

  function OfPath(project: string, path: string): Change -> bool {
    (c: Change) => c.project == project && c.path == path
  }

  function NotAfter(ts: int): Change -> bool {
    (c: Change) => c.ts <= ts
  }

  function InRange(project: string, after: nat, until: nat): Change -> bool {
    (c: Change) => c.project == project && after < c.snapshotId <= until
  }

  function UpTo(sid: nat): Change -> bool {
    (c: Change) => c.snapshotId <= sid
  }

  function Beyond(sid: nat): Change -> bool {
    (c: Change) => c.snapshotId > sid
  }

  ghost predicate Descending(s: seq<Change>) {
    forall i, j | 0 <= i < j < |s| :: s[i].ts > s[j].ts || (s[i].ts == s[j].ts && s[i].snapshotId >= s[j].snapshotId)
  }

  ghost predicate Chronological(s: seq<Change>) {
    forall i, j | 0 <= i < j < |s| :: s[i].ts < s[j].ts || (s[i].ts == s[j].ts && s[i].snapshotId <= s[j].snapshotId)
  }

  /** h holds each row of the path as often as the view does, and no other, latest time first, then larger snapshot. */
  ghost predicate IsHistory(h: seq<Change>, view: seq<Change>, project: string, path: string) {
    && Descending(h)
    && forall c :: multiset(h)[c] == if c.project == project && c.path == path then multiset(view)[c] else 0
  }

  lemma HistoryMeans(h: seq<Change>, view: seq<Change>, project: string, path: string)
    ensures IsHistory(h, view, project, path) <==> Newest(h, multiset(Keep(OfPath(project, path), view)))
  {
    var kept := Keep(OfPath(project, path), view);
    forall c: Change ensures multiset(kept)[c] == if c.project == project && c.path == path then multiset(view)[c] else 0 {
      KeepCounts(OfPath(project, path), view, c);
    }
    assert Descending(h) <==> NewestFirst(h) by { DescendingMeans(h); }
  }

  lemma DescendingMeans(s: seq<Change>)
    ensures Descending(s) <==> NewestFirst(s)
  {
    NewestMeans(s);
    if NewestFirst(s) {
      forall i, j | 0 <= i < j < |s| ensures s[i].ts > s[j].ts || (s[i].ts == s[j].ts && s[i].snapshotId >= s[j].snapshotId) {
        OrderedUpTo(s, i, j);
      }
    }
    if Descending(s) {
      forall k | 0 < k < |s|
        ensures s[k - 1].ts > s[k].ts || (s[k - 1].ts == s[k].ts && s[k - 1].snapshotId >= s[k].snapshotId) {}
    }
  }

  lemma ChronologicalMeans(s: seq<Change>)
    ensures Chronological(s) <==> OldestFirst(s)
  {
    var r := Reverse(s);
    DescendingMeans(r);
    if Chronological(s) {
      forall i, j | 0 <= i < j < |r| ensures r[i].ts > r[j].ts || (r[i].ts == r[j].ts && r[i].snapshotId >= r[j].snapshotId) {
        assert r[i] == s[|s| - 1 - i] && r[j] == s[|s| - 1 - j];
      }
      forall i, j | 0 <= i < j < |s| ensures !Newer(s[i], s[j]) {
        assert !Newer(r[|s| - 1 - i], r[|s| - 1 - j]);
      }
    }
    if OldestFirst(s) {
      forall i, j | 0 <= i < j < |r| ensures !Newer(r[j], r[i]) {
        assert !Newer(s[|s| - 1 - j], s[|s| - 1 - i]);
      }
      forall i, j | 0 <= i < j < |s| ensures s[i].ts < s[j].ts || (s[i].ts == s[j].ts && s[i].snapshotId <= s[j].snapshotId) {
        var a, b := r[|s| - 1 - j], r[|s| - 1 - i];
        assert a.ts > b.ts || (a.ts == b.ts && a.snapshotId >= b.snapshotId);
      }
    }
  }

  /** The effective query does not carry target_type. */
  function Projected(s: seq<Change>): (r: seq<Change>)
    ensures |r| == |s|
    ensures forall i | 0 <= i < |s| :: r[i] == s[i].(targetType := DataObject)
  {
    seq(|s|, i requires 0 <= i < |s| => s[i].(targetType := DataObject))
  }

  /**
   * e is newest of its triple among the path's rows up to asOf: each of the
   * others is earlier, or of the same time and not of a larger snapshot.
   */
  ghost predicate Decides(view: seq<Change>, project: string, path: string, asOf: int, e: Change) {
    && e in view && e.project == project && e.path == path && e.ts <= asOf
    && forall d | d in view && d.project == project && d.path == path && d.ts <= asOf && d.triple == e.triple ::
         d.ts < e.ts || (d.ts == e.ts && d.snapshotId <= e.snapshotId)
  }

  /**
   * What an effective set is: no triple twice; every row the add of a row that
   * decides its triple; and a row for every triple that only adds decide.
   */
  ghost predicate IsEffective(rows: seq<Change>, view: seq<Change>, project: string, path: string, asOf: int) {
    && (forall i, j | 0 <= i < j < |rows| :: rows[i].triple != rows[j].triple)
    && (forall c | c in rows :: exists e :: Decides(view, project, path, asOf, e) && e.op.Add? && c == e.(targetType := DataObject))
    && (forall e | Decides(view, project, path, asOf, e) && OnlyAdds(view, project, path, asOf, e.triple) ::
          exists c :: c in rows && c.triple == e.triple)
  }

  ghost predicate OnlyAdds(view: seq<Change>, project: string, path: string, asOf: int, t: Triple) {
    forall d | Decides(view, project, path, asOf, d) && d.triple == t :: d.op.Add?
  }

  lemma DecidesMeans(l: seq<Change>, view: seq<Change>, project: string, path: string, asOf: int, e: Change)
    requires multiset(l) == multiset(Keep(AsOf(project, path, asOf), view))
    ensures Latest(multiset(l), e) <==> Decides(view, project, path, asOf, e)
  {
    var p := AsOf(project, path, asOf);
    forall c ensures c in l <==> c in view && c.project == project && c.path == path && c.ts <= asOf {
      SelectedRows(l, p, view, c);
    }
    if Latest(multiset(l), e) {
      assert e in l;
      forall d | d in view && d.project == project && d.path == path && d.ts <= asOf && d.triple == e.triple
        ensures d.ts < e.ts || (d.ts == e.ts && d.snapshotId <= e.snapshotId)
      {
        assert d in l && !Newer(d, e);
        NewerMeans(d, e);
      }
    }
    if Decides(view, project, path, asOf, e) {
      assert e in l;
      forall d | d in multiset(l) && d.triple == e.triple ensures !Newer(d, e) {
        assert d in l;
        NewerMeans(d, e);
      }
    }
  }

  /** The window query answers with an effective set. */
  lemma WindowIsEffective(l: seq<Change>, view: seq<Change>, project: string, path: string, asOf: int)
    requires Newest(l, multiset(Keep(AsOf(project, path, asOf), view)))
    ensures IsEffective(Projected(Window(l)), view, project, path, asOf)
  {
    var w := Window(l);
    var rows := Projected(w);
    WindowDistinct(l);
    forall c | c in rows
      ensures exists e :: Decides(view, project, path, asOf, e) && e.op.Add? && c == e.(targetType := DataObject)
    {
      var n :| 0 <= n < |rows| && rows[n] == c;
      assert w[n] in w;
      WindowRows(l, w[n]);
      var i: nat :| FirstOf(l, i) && l[i] == w[n];
      FirstIsLatest(l, multiset(l), i);
      DecidesMeans(l, view, project, path, asOf, w[n]);
    }
    forall e | Decides(view, project, path, asOf, e) && OnlyAdds(view, project, path, asOf, e.triple)
      ensures exists c :: c in rows && c.triple == e.triple
    {
      DecidedIsReturned(l, view, project, path, asOf, e);
    }
  }

  lemma DecidedIsReturned(l: seq<Change>, view: seq<Change>, project: string, path: string, asOf: int, e: Change)
    requires Newest(l, multiset(Keep(AsOf(project, path, asOf), view)))
    requires Decides(view, project, path, asOf, e) && OnlyAdds(view, project, path, asOf, e.triple)
    ensures exists c :: c in Projected(Window(l)) && c.triple == e.triple
  {
    DecidesMeans(l, view, project, path, asOf, e);
    assert e in l;
    var k :| 0 <= k < |l| && l[k] == e;
    assert Mentions(l, e.triple);
    var i := FindFirst(l, e.triple);
    FirstIsLatest(l, multiset(l), i);
    DecidesMeans(l, view, project, path, asOf, l[i]);
    WindowRows(l, l[i]);
    assert l[i] in Window(l);
    var n :| 0 <= n < |Window(l)| && Window(l)[n] == l[i];
    assert Projected(Window(l))[n].triple == e.triple;
  }

  /** A triple deleted by a later snapshot at the very time it was added is not bound. */
  lemma LaterSnapshotWins(a: Change, d: Change, asOf: int, rows: seq<Change>)
    requires a.op.Add? && d == a.(op := Delete, snapshotId := a.snapshotId + 1) && a.ts <= asOf
    requires IsEffective(rows, [a, d], a.project, a.path, asOf)
    ensures forall c :: c !in rows
  {
    forall e | Decides([a, d], a.project, a.path, asOf, e) ensures e.op.Delete? {
      assert d in [a, d];
    }
  }

  /** Selecting from a selection. */
  lemma KeepTwice(p: Change -> bool, q: Change -> bool, both: Change -> bool, s: seq<Change>, view: seq<Change>)
    requires multiset(s) == multiset(Keep(q, view))
    requires forall c :: both(c) <==> p(c) && q(c)
    ensures multiset(Keep(p, s)) == multiset(Keep(both, view))
  {
    forall c ensures multiset(Keep(p, s))[c] == multiset(Keep(both, view))[c] {
      KeepCounts(p, s, c);
      KeepCounts(q, view, c);
      KeepCounts(both, view, c);
    }
  }

  /**
   * History and effective set agree: in any newest-first history h of a path,
   * a row is effective as of ts exactly when it is an add and the first row of
   * its triple among those not after ts. Under agreeing ties every effective
   * query binds these triples.
   */
  lemma HistoryDecidesEffective(view: seq<Change>, project: string, path: string, ts: int, h: seq<Change>, l: seq<Change>)
    requires IsHistory(h, view, project, path)
    requires Newest(l, multiset(Keep(AsOf(project, path, ts), view))) && TiesAgree(multiset(l))
    ensures var past := Keep(NotAfter(ts), h);
            && Newest(past, multiset(Keep(AsOf(project, path, ts), view)))
            && Bound(Window(l)) == Bound(Window(past))
            && forall c :: c in Window(past) <==> c.op.Add? && exists i: nat :: FirstOf(past, i) && past[i] == c
  {
    var past := Keep(NotAfter(ts), h);
    HistoryMeans(h, view, project, path);
    KeepTwice(NotAfter(ts), OfPath(project, path), AsOf(project, path, ts), h, view);
    KeepOrdered(NotAfter(ts), h);
    TieIndependence(multiset(l));
    forall c ensures c in Window(past) <==> c.op.Add? && exists i: nat :: FirstOf(past, i) && past[i] == c {
      WindowRows(past, c);
    }
  }

  /**
   * d is an answer diff(a, b) may give: every row of the project beyond a and up
   * to b, adds and deletes alike, as often as in the view, in time order, then
   * by snapshot.
   */
  ghost predicate IsDiff(d: seq<Change>, view: seq<Change>, project: string, a: nat, b: nat) {
    Chronological(d) && HoldsRange(d, view, project, a, b)
  }

  ghost predicate HoldsRange(d: seq<Change>, view: seq<Change>, project: string, a: nat, b: nat) {
    forall c: Change :: multiset(d)[c] == if c.project == project && a < c.snapshotId <= b then multiset(view)[c] else 0
  }

  lemma DiffMeans(d: seq<Change>, view: seq<Change>, project: string, a: nat, b: nat)
    ensures IsDiff(d, view, project, a, b) <==> Oldest(d, multiset(Keep(InRange(project, a, b), view)))
  {
    var kept := Keep(InRange(project, a, b), view);
    forall c: Change ensures multiset(kept)[c] == if c.project == project && a < c.snapshotId <= b then multiset(view)[c] else 0 {
      KeepCounts(InRange(project, a, b), view, c);
    }
    ChronologicalMeans(d);
  }

  /**
   * diff(a, c) is the ordered merge of diff(a, b) and diff(b, c): a
   * chronological sequence is an answer to the first exactly when its rows up
   * to b and beyond b are answers to the other two.
   */
  lemma DiffsMerge(d: seq<Change>, view: seq<Change>, project: string, a: nat, b: nat, c: nat)
    requires a <= b <= c && Chronological(d)
    ensures IsDiff(d, view, project, a, c) <==>
            && IsDiff(Keep(UpTo(b), d), view, project, a, b)
            && IsDiff(Keep(Beyond(b), d), view, project, b, c)
  {
    SplitKeepsOrder(d, UpTo(b));
    SplitKeepsOrder(d, Beyond(b));
    forall x: Change
      ensures multiset(Keep(UpTo(b), d))[x] == if x.snapshotId <= b then multiset(d)[x] else 0
      ensures multiset(Keep(Beyond(b), d))[x] == if x.snapshotId > b then multiset(d)[x] else 0
    {
      KeepCounts(UpTo(b), d, x);
      KeepCounts(Beyond(b), d, x);
    }
    CountsMerge(d, Keep(UpTo(b), d), Keep(Beyond(b), d), view, project, a, b, c);
  }

  lemma SplitKeepsOrder(d: seq<Change>, p: Change -> bool)
    requires Chronological(d)
    ensures Chronological(Keep(p, d))
  {
    ChronologicalMeans(d);
    KeepOrdered(p, d);
    ChronologicalMeans(Keep(p, d));
  }

  lemma CountsMerge(d: seq<Change>, low: seq<Change>, high: seq<Change>, view: seq<Change>, project: string,
                    a: nat, b: nat, c: nat)
    requires a <= b <= c
    requires forall x: Change :: multiset(low)[x] == if x.snapshotId <= b then multiset(d)[x] else 0
    requires forall x: Change :: multiset(high)[x] == if x.snapshotId > b then multiset(d)[x] else 0
    ensures HoldsRange(d, view, project, a, c) <==> HoldsRange(low, view, project, a, b) && HoldsRange(high, view, project, b, c)
  {
    if HoldsRange(low, view, project, a, b) && HoldsRange(high, view, project, b, c) {
      forall x: Change ensures multiset(d)[x] == if x.project == project && a < x.snapshotId <= c then multiset(view)[x] else 0 {
        assert multiset(low)[x] + multiset(high)[x] == multiset(d)[x];
      }
    }
  }

  // -------------------------------------------------------------------- the store

  class LakeStore {
    const disk: LocalDisk
    const root: string

    constructor (disk: LocalDisk, root: string)
      ensures this.disk == disk && this.root == root
    {
      this.disk, this.root := disk, root;
    }

    /** Stamps the rows with their owner and stores them in file order, as one file. */
    method WriteChanges(project: string, sid: nat, changes: seq<Change>, size: nat, now: int, fails: bool)
      returns (relative: Option<string>, ghost rows: seq<Change>)
      modifies disk
      ensures relative == if changes != [] && !fails then Some(SnapshotFile(sid)) else None
      ensures relative.None? ==> disk.files == old(disk.files)
      ensures relative.Some? ==>
                && FileOf(rows, Stamp(project, sid, changes))
                && disk.Contents() == old(disk.Contents())[root + "/" + SnapshotFile(sid) := Parquet(rows)]
                && (root + "/" + SnapshotFile(sid) !in old(disk.files) ==>
                      View(disk.Contents(), root) == old(View(disk.Contents(), root)) + multiset(Stamp(project, sid, changes)))
    {
      if changes == [] || fails {
        return None, [];
      }
      var staged := Stamp(project, sid, changes);
      rows := Arranged(staged);
      ArrangedIsFile(staged);
      SnapshotFileIsInLake(root, sid);
      var path := root + "/" + SnapshotFile(sid);
      if path !in disk.files { NewFileAddsRows(disk.Contents(), root, path, Parquet(rows)); }
      disk.Store(path, Parquet(Arranged(staged)), size, now);
      relative := Some(SnapshotFile(sid));
    }

    /** The view over all files of the directory; reading a damaged one raises. */
    method OpenReadCon() returns (view: Option<seq<Change>>)
      ensures view.Some? <==> Readable(disk.Contents(), root)
      ensures view.Some? ==> multiset(view.value) == View(disk.Contents(), root)
    {
      var files := disk.Contents();
      var left := LakeFiles(files, root);
      var rows: seq<Change> := [];
      while left != {}
        invariant left <= LakeFiles(files, root)
        invariant forall p | p in LakeFiles(files, root) - left :: files[p].Parquet?
        invariant multiset(rows) + BagOf(files, left) == View(files, root)
        decreases left
      {
        var p :| p in left;
        if !files[p].Parquet? {
          return None;
        }
        BagWithout(files, left, p);
        rows := rows + files[p].rows;
        left := left - {p};
      }
      view := Some(rows);
    }

    method ReadEffectiveAvus(project: string, path: string, asOf: int)
      returns (r: Option<seq<Change>>, ghost view: seq<Change>, ghost l: seq<Change>)
      ensures r.Some? <==> Readable(disk.Contents(), root)
      ensures r.Some? ==>
                && multiset(view) == View(disk.Contents(), root)
                && Newest(l, multiset(Keep(AsOf(project, path, asOf), view)))
                && r.value == Projected(Window(l))
                && IsEffective(r.value, view, project, path, asOf)
    {
      var con := OpenReadCon();
      if con.None? {
        return None, [], [];
      }
      var events := SortNewest(Keep(AsOf(project, path, asOf), con.value));
      r, view, l := Some(Projected(Window(events))), con.value, events;
      WindowIsEffective(l, view, project, path, asOf);
    }

    method ReadHistory(project: string, path: string, limit: nat)
      returns (r: Option<seq<Change>>, ghost view: seq<Change>, ghost h: seq<Change>)
      ensures r.Some? <==> Readable(disk.Contents(), root)
      ensures r.Some? ==>
                && multiset(view) == View(disk.Contents(), root)
                && IsHistory(h, view, project, path)
                && r.value <= h && (|r.value| == limit || r.value == h) && |r.value| <= limit
    {
      var con := OpenReadCon();
      if con.None? {
        return None, [], [];
      }
      var events := SortNewest(Keep(OfPath(project, path), con.value));
      r := Some(if |events| <= limit then events else events[..limit]);
      view, h := con.value, events;
      HistoryMeans(h, view, project, path);
    }

    /** Exclusive of the smaller endpoint, inclusive of the larger, in either order. */
    method Diff(project: string, fromSid: nat, toSid: nat)
      returns (r: Option<seq<Change>>, ghost view: seq<Change>)
      ensures r.Some? <==> Readable(disk.Contents(), root)
      ensures r.Some? ==>
                && multiset(view) == View(disk.Contents(), root)
                && (fromSid <= toSid ==> IsDiff(r.value, view, project, fromSid, toSid))
                && (toSid <= fromSid ==> IsDiff(r.value, view, project, toSid, fromSid))
    {
      var a, b := fromSid, toSid;
      if a > b {
        a, b := b, a;
      }
      var con := OpenReadCon();
      if con.None? {
        return None, [];
      }
      var events := SortNewest(Keep(InRange(project, a, b), con.value));
      ReverseBag(events);
      r, view := Some(Reverse(events)), con.value;
      DiffMeans(r.value, view, project, a, b);
    }
  }
}
