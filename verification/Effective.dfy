// The effective-AVU query (partition by triple, newest first, keep a last
// `add`) against the reference it must equal: replaying the append-only log.
module Effective {
  import opened Avu

  function AsOf(project: string, path: string, ts: int): Change -> bool {
    (c: Change) => c.project == project && c.path == path && c.ts <= ts
  }

  function Between(project: string, path: string, after: int, until: int): Change -> bool {
    (c: Change) => c.project == project && c.path == path && after < c.ts <= until
  }

  // ---------------------------------------------------------------- the query

  function Count(t: Triple, s: seq<Change>): nat {
    if s == [] then 0
    else Count(t, s[..|s| - 1]) + if s[|s| - 1].triple == t then 1 else 0
  }

  /** ROW_NUMBER() of a row within its partition, given the rows ordered before it. */
  function RowNumber(before: seq<Change>, c: Change): nat {
    1 + Count(c.triple, before)
  }

  /** WHERE rn = 1 AND op = 'add', over the rows in window order. */
  function Window(l: seq<Change>): seq<Change> {
    if l == [] then [] else
      var before, c := l[..|l| - 1], l[|l| - 1];
      Window(before) + if RowNumber(before, c) == 1 && c.op.Add? then [c] else []
  }

  function Bound(rows: seq<Change>): set<Triple> {
    set c | c in rows :: c.triple
  }

  // ----------------------------------------------------------------- the reference

  function Apply(bound: map<Triple, Change>, c: Change): map<Triple, Change> {
    if c.op.Add? then bound[c.triple := c] else bound - {c.triple}
  }

  /** Applying events one at a time, oldest first, to what is already bound. */
  function Fold(bound: map<Triple, Change>, s: seq<Change>): map<Triple, Change> {
    if s == [] then bound else Apply(Fold(bound, s[..|s| - 1]), s[|s| - 1])
  }

  function Replay(s: seq<Change>): map<Triple, Change> {
    Fold(map[], s)
  }

  // ------------------------------------------------------------------- proofs

  ghost predicate FirstOf(l: seq<Change>, i: nat) {
    i < |l| && forall j | 0 <= j < i :: l[j].triple != l[i].triple
  }

  ghost predicate LastOf(s: seq<Change>, i: nat) {
    i < |s| && forall j | i < j < |s| :: s[j].triple != s[i].triple
  }

  ghost predicate Mentions(s: seq<Change>, t: Triple) {
    exists i :: 0 <= i < |s| && s[i].triple == t
  }

  lemma {:induction false} FindFirst(l: seq<Change>, t: Triple) returns (i: nat)
    requires Mentions(l, t)
    ensures FirstOf(l, i) && l[i].triple == t
  {
    if l[0].triple == t {
      i := 0;
    } else {
      assert Mentions(l[1..], t) by {
        var k :| 0 <= k < |l| && l[k].triple == t;
        assert l[1..][k - 1] == l[k];
      }
      var j := FindFirst(l[1..], t);
      i := j + 1;
      forall k | 0 <= k < i ensures l[k].triple != l[i].triple {
        assert k > 0 ==> l[k] == l[1..][k - 1];
      }
    }
  }

  lemma FindLast(s: seq<Change>, t: Triple) returns (i: nat)
    requires Mentions(s, t)
    ensures LastOf(s, i) && s[i].triple == t
  {
    var l := Reverse(s);
    assert Mentions(l, t) by {
      var k :| 0 <= k < |s| && s[k].triple == t;
      assert l[|s| - 1 - k] == s[k];
    }
    var j := FindFirst(l, t);
    i := |s| - 1 - j;
    forall k | i < k < |s| ensures s[k].triple != s[i].triple {
      assert l[|s| - 1 - k] == s[k];
    }
  }

  lemma {:induction false} CountZero(t: Triple, s: seq<Change>)
    ensures Count(t, s) == 0 <==> !Mentions(s, t)
  {
    if s != [] {
      CountZero(t, s[..|s| - 1]);
      if Mentions(s, t) && s[|s| - 1].triple != t {
        var k :| 0 <= k < |s| && s[k].triple == t;
        assert s[..|s| - 1][k].triple == t;
      }
    }
  }

  lemma FirstOfFront(l: seq<Change>, i: nat)
    requires i < |l|
    ensures i < |l| - 1 ==> (FirstOf(l, i) <==> FirstOf(l[..|l| - 1], i))
    ensures i == |l| - 1 ==> (FirstOf(l, i) <==> !Mentions(l[..i], l[i].triple))
  {
    var before := l[..|l| - 1];
    forall j | 0 <= j < |l| - 1 ensures before[j] == l[j] {}
  }

  /** The query keeps exactly the first row of each triple, when that row is an add. */
  lemma {:induction false} WindowRows(l: seq<Change>, c: Change)
    ensures c in Window(l) <==> c.op.Add? && exists i: nat :: FirstOf(l, i) && l[i] == c
  {
    if l != [] {
      var n := |l| - 1;
      var before := l[..n];
      WindowRows(before, c);
      CountZero(l[n].triple, before);
      FirstOfFront(l, n);
      if c in Window(before) {
        var i: nat :| FirstOf(before, i) && before[i] == c;
        FirstOfFront(l, i);
        assert FirstOf(l, i) && l[i] == c;
      }
      if c.op.Add? && exists i: nat :: FirstOf(l, i) && l[i] == c {
        var i: nat :| FirstOf(l, i) && l[i] == c;
        FirstOfFront(l, i);
        assert i < n ==> FirstOf(before, i) && before[i] == c;
      }
    }
  }

  /** No triple is returned twice. */
  lemma {:induction false} WindowDistinct(l: seq<Change>)
    ensures forall i, j | 0 <= i < j < |Window(l)| :: Window(l)[i].triple != Window(l)[j].triple
  {
    if l != [] {
      var before := l[..|l| - 1];
      WindowDistinct(before);
      CountZero(l[|l| - 1].triple, before);
      forall i | 0 <= i < |Window(before)|
        ensures Mentions(before, Window(before)[i].triple)
      {
        WindowRows(before, Window(before)[i]);
      }
    }
  }

  /** Whether the query binds a triple is decided by its first row. */
  lemma WindowDecides(l: seq<Change>, i: nat)
    requires FirstOf(l, i)
    ensures l[i].triple in Bound(Window(l)) <==> l[i].op.Add?
  {
    if l[i].op.Add? {
      WindowRows(l, l[i]);
      assert l[i] in Window(l);
    }
    if l[i].triple in Bound(Window(l)) {
      var c :| c in Window(l) && c.triple == l[i].triple;
      WindowRows(l, c);
      var j: nat :| FirstOf(l, j) && l[j] == c;
      assert i == j;
    }
  }

  lemma WindowMentions(l: seq<Change>, t: Triple)
    requires t in Bound(Window(l))
    ensures Mentions(l, t)
  {
    var c :| c in Window(l) && c.triple == t;
    WindowRows(l, c);
  }

  lemma {:induction false} FoldUntouched(bound: map<Triple, Change>, s: seq<Change>, t: Triple)
    requires !Mentions(s, t)
    ensures t in Fold(bound, s) <==> t in bound
    ensures t in bound ==> Fold(bound, s)[t] == bound[t]
  {
    if s != [] {
      var front := s[..|s| - 1];
      forall k | 0 <= k < |front| ensures front[k].triple != t { assert front[k] == s[k]; }
      FoldUntouched(bound, front, t);
      assert s[|s| - 1].triple != t;
    }
  }

  /** Replay remembers, for each triple, its last event. */
  lemma {:induction false} FoldDecides(bound: map<Triple, Change>, s: seq<Change>, i: nat)
    requires LastOf(s, i)
    ensures s[i].triple in Fold(bound, s) <==> s[i].op.Add?
    ensures s[i].op.Add? ==> Fold(bound, s)[s[i].triple] == s[i]
  {
    var n := |s| - 1;
    if i < n {
      assert LastOf(s[..n], i);
      FoldDecides(bound, s[..n], i);
      assert s[n].triple != s[i].triple;
    }
  }

  lemma FirstInReverse(l: seq<Change>, k: nat)
    requires LastOf(Reverse(l), k)
    ensures FirstOf(l, |l| - 1 - k)
  {
    var i := |l| - 1 - k;
    forall j | 0 <= j < i ensures l[j].triple != l[i].triple {
      assert Reverse(l)[|l| - 1 - j] == l[j];
    }
  }

  /**
   * The window query over any row order equals replay of the same rows in the
   * opposite order, row for row.
   */
  lemma WindowIsReplay(l: seq<Change>, c: Change)
    ensures c in Window(l) <==>
            c.triple in Replay(Reverse(l)) && Replay(Reverse(l))[c.triple] == c
  {
    var m := Reverse(l);
    if Mentions(m, c.triple) {
      var k := FindLast(m, c.triple);
      FoldDecides(map[], m, k);
      FirstInReverse(l, k);
      WindowHolds(l, |l| - 1 - k, c);
    } else {
      FoldUntouched(map[], m, c.triple);
      NotMentioned(l, c);
    }
  }

  /** A triple's first row decides which of its rows the query returns. */
  lemma WindowHolds(l: seq<Change>, i: nat, c: Change)
    requires FirstOf(l, i) && l[i].triple == c.triple
    ensures c in Window(l) <==> c.op.Add? && c == l[i]
  {
    WindowRows(l, c);
    if c in Window(l) {
      var j: nat :| FirstOf(l, j) && l[j] == c;
      assert i == j;
    }
  }

  lemma NotMentioned(l: seq<Change>, c: Change)
    requires !Mentions(Reverse(l), c.triple)
    ensures c !in Window(l)
  {
    WindowRows(l, c);
    forall i | 0 <= i < |l| ensures l[i].triple != c.triple {
      assert Reverse(l)[|l| - 1 - i] == l[i];
    }
  }

  // --------------------------------------------------------- ties and row order

  /** A row that no row of its triple is newer than. */
  ghost predicate Latest(rows: multiset<Change>, a: Change) {
    a in rows && forall c | c in rows && c.triple == a.triple :: !Newer(c, a)
  }

  /** Rows that tie as newest of a triple agree on whether it is bound. */
  ghost predicate TiesAgree(rows: multiset<Change>) {
    forall a, b | Latest(rows, a) && Latest(rows, b) && a.triple == b.triple :: a.op == b.op
  }

  lemma FirstIsLatest(l: seq<Change>, rows: multiset<Change>, i: nat)
    requires Avu.Newest(l, rows) && FirstOf(l, i)
    ensures Latest(rows, l[i])
  {
    assert l[i] in rows;
    forall c | c in rows && c.triple == l[i].triple ensures !Newer(c, l[i]) {
      assert c in l;
    }
  }

  lemma LastIsLatest(s: seq<Change>, rows: multiset<Change>, i: nat)
    requires Oldest(s, rows) && LastOf(s, i)
    ensures Latest(rows, s[i])
  {
    assert s[i] in rows;
    forall c | c in rows && c.triple == s[i].triple ensures !Newer(c, s[i]) {
      assert c in s;
    }
  }

  /**
   * For every tie-breaking on either side, the triples the query binds are the
   * triples that replay in time order leaves bound.
   */
  lemma QueryIsReplay(l: seq<Change>, m: seq<Change>, rows: multiset<Change>)
    requires Avu.Newest(l, rows) && Oldest(m, rows) && TiesAgree(rows)
    ensures Bound(Window(l)) == Replay(m).Keys
  {
    forall t
      ensures t in Bound(Window(l)) <==> t in Replay(m)
    {
      SameMentions(l, m, t);
      if Mentions(l, t) {
        var i := FindFirst(l, t);
        var k := FindLast(m, t);
        WindowDecides(l, i);
        FoldDecides(map[], m, k);
        FirstIsLatest(l, rows, i);
        LastIsLatest(m, rows, k);
      } else {
        FoldUntouched(map[], m, t);
        if t in Bound(Window(l)) { WindowMentions(l, t); }
      }
    }
  }

  lemma SameMentions(l: seq<Change>, m: seq<Change>, t: Triple)
    requires multiset(l) == multiset(m)
    ensures Mentions(l, t) <==> Mentions(m, t)
  {
    if Mentions(l, t) {
      var i :| 0 <= i < |l| && l[i].triple == t;
      assert l[i] in multiset(m);
    }
    if Mentions(m, t) {
      var i :| 0 <= i < |m| && m[i].triple == t;
      assert m[i] in multiset(l);
    }
  }

  /** Exchanging two rows with equal keys gives another order the engine may use. */
  lemma SwapTied(s: seq<Change>, i: nat, k: nat) returns (l: seq<Change>)
    requires NewestFirst(s) && i <= k < |s|
    requires !Newer(s[i], s[k]) && !Newer(s[k], s[i])
    ensures l == s[i := s[k]][k := s[i]]
    ensures Avu.Newest(l, multiset(s))
  {
    l := s[i := s[k]][k := s[i]];
    forall p, q | 0 <= p < q < |l| ensures !Newer(l[q], l[p]) {
      assert !Newer(s[q], s[p]);
      assert p < i ==> !Newer(s[i], s[p]);
      assert p < k ==> !Newer(s[k], s[p]);
      assert i < q ==> !Newer(s[q], s[i]);
      assert k < q ==> !Newer(s[q], s[k]);
    }
  }

  /** Bringing a latest row of a triple to the front of its ties. */
  lemma Promote(rows: multiset<Change>, a: Change) returns (l: seq<Change>, i: nat)
    requires Latest(rows, a)
    ensures Avu.Newest(l, rows) && FirstOf(l, i) && l[i] == a
  {
    var sorted := SortNewest(SeqOf(rows));
    assert a in multiset(sorted);
    var k :| 0 <= k < |sorted| && sorted[k] == a;
    i := FindFirst(sorted, a.triple);
    FirstIsLatest(sorted, rows, i);
    l := SwapTied(sorted, i, k);
    FirstStays(sorted, i, k);
  }

  lemma FirstStays(s: seq<Change>, i: nat, k: nat)
    requires FirstOf(s, i) && i <= k < |s| && s[k].triple == s[i].triple
    ensures FirstOf(s[i := s[k]][k := s[i]], i)
  {
    var l := s[i := s[k]][k := s[i]];
    forall j | 0 <= j < i ensures l[j].triple != l[i].triple {
      assert l[j] == s[j];
    }
  }

  ghost function SeqOf(rows: multiset<Change>): (s: seq<Change>)
    ensures multiset(s) == rows
    decreases |rows|
  {
    if rows == multiset{} then [] else
      var c :| c in rows;
      [c] + SeqOf(rows - multiset{c})
  }

  /**
   * The query's answer is independent of tie-breaking and file order exactly
   * when the tied newest events of each triple agree on op.
   */
  lemma TieIndependence(rows: multiset<Change>)
    ensures (forall l, l' | Avu.Newest(l, rows) && Avu.Newest(l', rows) :: Bound(Window(l)) == Bound(Window(l')))
       <==> TiesAgree(rows)
  {
    if TiesAgree(rows) {
      forall l, l' | Avu.Newest(l, rows) && Avu.Newest(l', rows)
        ensures Bound(Window(l)) == Bound(Window(l'))
      {
        var m := Reverse(l);
        ReverseBag(l);
        QueryIsReplay(l, m, rows);
        QueryIsReplay(l', m, rows);
      }
    }
    if !TiesAgree(rows) {
      var a, b :| Latest(rows, a) && Latest(rows, b) && a.triple == b.triple && a.op != b.op;
      var l, i := Promote(rows, a);
      var l', j := Promote(rows, b);
      WindowDecides(l, i);
      WindowDecides(l', j);
      assert Bound(Window(l)) != Bound(Window(l'));
    }
  }

  // -------------------------------------------------------------- time travel

  /** A newest-first order puts a latest row's op on its triple. */
  lemma LatestDecides(l: seq<Change>, rows: multiset<Change>, a: Change)
    requires Avu.Newest(l, rows) && Latest(rows, a) && TiesAgree(rows)
    ensures a.triple in Bound(Window(l)) <==> a.op.Add?
  {
    assert a in multiset(l);
    var j :| 0 <= j < |l| && l[j] == a;
    var i := FindFirst(l, a.triple);
    WindowDecides(l, i);
    FirstIsLatest(l, rows, i);
  }

  lemma SelectedRows(l: seq<Change>, p: Change -> bool, log: seq<Change>, c: Change)
    requires multiset(l) == multiset(Keep(p, log))
    ensures c in l <==> c in log && p(c)
  {
    KeepMembers(p, log);
    assert c in l <==> c in multiset(l);
    assert c in Keep(p, log) <==> c in multiset(Keep(p, log));
  }

  /**
   * The state at `until` is the state at `after` with the events in between
   * replayed on it. Only ties still newest at `until` have to agree.
   */
  lemma TimeTravelComposes(log: seq<Change>, project: string, path: string, after: int, until: int,
                           l1: seq<Change>, m: seq<Change>, l2: seq<Change>)
    requires after <= until
    requires Avu.Newest(l1, multiset(Keep(AsOf(project, path, after), log)))
    requires Oldest(m, multiset(Keep(Between(project, path, after, until), log)))
    requires Avu.Newest(l2, multiset(Keep(AsOf(project, path, until), log)))
    requires TiesAgree(multiset(l2))
    ensures Bound(Window(l2)) == Fold(Replay(Window(l1)), m).Keys
  {
    forall c
      ensures c in l2 <==> c in l1 || c in m
      ensures c in l1 ==> c.ts <= after
      ensures c in m ==> c.ts > after
    {
      SelectedRows(l1, AsOf(project, path, after), log, c);
      SelectedRows(m, Between(project, path, after, until), log, c);
      SelectedRows(l2, AsOf(project, path, until), log, c);
    }
    forall t
      ensures t in Bound(Window(l2)) <==> t in Fold(Replay(Window(l1)), m)
    {
      ComposesAt(l1, m, l2, after, t);
    }
  }

  lemma ComposesAt(l1: seq<Change>, m: seq<Change>, l2: seq<Change>, after: int, t: Triple)
    requires NewestFirst(l1) && OldestFirst(m) && NewestFirst(l2) && TiesAgree(multiset(l2))
    requires forall c :: c in l2 <==> c in l1 || c in m
    requires forall c | c in l1 :: c.ts <= after
    requires forall c | c in m :: c.ts > after
    ensures t in Bound(Window(l2)) <==> t in Fold(Replay(Window(l1)), m)
  {
    var bound := Replay(Window(l1));
    if Mentions(m, t) {
      var k := FindLast(m, t);
      FoldDecides(bound, m, k);
      LastIsLatest(m, multiset(m), k);
      LatestOfUnion(l1, m, l2, m[k]);
      LatestDecides(l2, multiset(l2), m[k]);
    } else {
      FoldUntouched(bound, m, t);
      ReplayOfWindow(l1);
      if Mentions(l1, t) {
        var i := FindFirst(l1, t);
        WindowDecides(l1, i);
        FirstIsLatest(l1, multiset(l1), i);
        LatestOfUnion(m, l1, l2, l1[i]);
        LatestDecides(l2, multiset(l2), l1[i]);
      } else {
        if t in Bound(Window(l1)) { WindowMentions(l1, t); }
        forall j | 0 <= j < |l2| ensures l2[j].triple != t {
          assert l2[j] in l2;
        }
        if t in Bound(Window(l2)) { WindowMentions(l2, t); }
      }
    }
  }

  lemma LatestOfUnion(others: seq<Change>, own: seq<Change>, all: seq<Change>, a: Change)
    requires Latest(multiset(own), a)
    requires forall c :: c in all <==> c in others || c in own
    requires forall c | c in others && c.triple == a.triple :: !Newer(c, a)
    ensures Latest(multiset(all), a)
  {
    assert a in own && a in all;
    forall c | c in multiset(all) && c.triple == a.triple ensures !Newer(c, a) {
      assert c in all;
      assert c in own ==> c in multiset(own);
    }
  }

  /** An effective set, replayed, binds its own triples. */
  lemma ReplayOfWindow(l: seq<Change>)
    ensures Replay(Window(l)).Keys == Bound(Window(l))
  {
    var w := Window(l);
    forall t
      ensures t in Replay(w) <==> t in Bound(w)
    {
      if Mentions(w, t) {
        var k := FindLast(w, t);
        WindowRows(l, w[k]);
        FoldDecides(map[], w, k);
      } else {
        FoldUntouched(map[], w, t);
      }
    }
  }

  /**
   * Recording a snapshot whose events are all later than `ts` changes no answer
   * the query may give as of `ts`, whatever order the files are read in.
   */
  lemma {:induction false} PastIsStable(log: seq<Change>, recorded: seq<Change>, view: seq<Change>,
                     project: string, path: string, ts: int, l: seq<Change>)
    requires multiset(view) == multiset(log) + multiset(recorded)
    requires forall c | c in recorded :: c.ts > ts
    ensures Avu.Newest(l, multiset(Keep(AsOf(project, path, ts), view)))
       <==> Avu.Newest(l, multiset(Keep(AsOf(project, path, ts), log)))
  {
    var p := AsOf(project, path, ts);
    forall c
      ensures multiset(Keep(p, view))[c] == multiset(Keep(p, log))[c]
    {
      KeepCounts(p, view, c);
      KeepCounts(p, log, c);
      if c in multiset(recorded) { assert c in recorded; }
    }
    assert multiset(Keep(p, view)) == multiset(Keep(p, log));
  }
}
