// The order in which a snapshot's rows are written, and when it determines the
// file.
module WriteOrder {
  import opened Avu

  // ------------------------------------------------------------------ the sort key

  /** Binary string order. */
  predicate Before(s: string, t: string) {
    t != [] && (s == [] || s[0] < t[0] || (s[0] == t[0] && Before(s[1..], t[1..])))
  }

  lemma {:induction false} BeforeIsTotal(s: string, t: string)
    ensures Before(s, t) || Before(t, s) || s == t
    ensures !(Before(s, t) && Before(t, s)) && (s == t ==> !Before(s, t))
    decreases |s|
  {
    if s != [] && t != [] && s[0] == t[0] {
      BeforeIsTotal(s[1..], t[1..]);
      assert s == [s[0]] + s[1..] && t == [t[0]] + t[1..];
    }
  }

  lemma {:induction false} BeforeIsTransitive(s: string, t: string, u: string)
    requires Before(s, t) && Before(t, u)
    ensures Before(s, u)
    decreases |s|
  {
    if s != [] && s[0] == t[0] == u[0] {
      BeforeIsTransitive(s[1..], t[1..], u[1..]);
    }
  }

  /** The order of a dictionary: at the first difference the smaller character, or the end, comes first. */
  lemma {:induction false} BeforeMeans(s: string, t: string)
    ensures Before(s, t) <==>
            exists k :: 0 <= k <= |s| && k < |t| && s[..k] == t[..k] && (k == |s| || s[k] < t[k])
    decreases |s|
  {
    if s != [] && t != [] && s[0] == t[0] {
      BeforeMeans(s[1..], t[1..]);
      if Before(s, t) {
        var k :| 0 <= k <= |s[1..]| && k < |t[1..]| && s[1..][..k] == t[1..][..k] && (k == |s[1..]| || s[1..][k] < t[1..][k]);
        assert s[..k + 1] == [s[0]] + s[1..][..k] && t[..k + 1] == [t[0]] + t[1..][..k];
      }
      if k: nat :| 0 <= k <= |s| && k < |t| && s[..k] == t[..k] && (k == |s| || s[k] < t[k]) {
        assert k > 0;
        assert s[1..][..k - 1] == s[..k][1..] && t[1..][..k - 1] == t[..k][1..];
      }
    } else if t != [] {
      assert s[..0] == t[..0];
      if k: nat :| 0 <= k <= |s| && k < |t| && s[..k] == t[..k] && (k == |s| || s[k] < t[k]) {
        assert k > 0 ==> s[..k][0] == t[..k][0];
      }
    }
  }

  /** ORDER BY ts, attribute, value, unit: a comes strictly before b. */
  predicate Precedes(a: Change, b: Change) {
    var x, y := a.triple, b.triple;
    a.ts < b.ts || (a.ts == b.ts &&
      (Before(x.attribute, y.attribute) || (x.attribute == y.attribute &&
        (Before(x.value, y.value) || (x.value == y.value && Before(x.unit, y.unit))))))
  }

  predicate SameKey(a: Change, b: Change) {
    a.ts == b.ts && a.triple == b.triple
  }

  lemma PrecedesIsTotal(a: Change, b: Change)
    ensures Precedes(a, b) || Precedes(b, a) || SameKey(a, b)
    ensures !(Precedes(a, b) && Precedes(b, a)) && (SameKey(a, b) ==> !Precedes(a, b))
  {
    BeforeIsTotal(a.triple.attribute, b.triple.attribute);
    BeforeIsTotal(a.triple.value, b.triple.value);
    BeforeIsTotal(a.triple.unit, b.triple.unit);
  }

  lemma PrecedesIsTransitive(a: Change, b: Change, c: Change)
    requires !Precedes(b, a) && !Precedes(c, b)
    ensures !Precedes(c, a)
  {
    PrecedesIsTotal(a, b);
    PrecedesIsTotal(b, c);
    PrecedesIsTotal(a, c);
    if Precedes(a, b) && Precedes(b, c) { StrictTransitive(a, b, c); }
  }

  lemma StrictTransitive(a: Change, b: Change, c: Change)
    requires Precedes(a, b) && Precedes(b, c)
    ensures Precedes(a, c)
  {
    var x, y, z := a.triple, b.triple, c.triple;
    if Before(x.attribute, y.attribute) && Before(y.attribute, z.attribute) {
      BeforeIsTransitive(x.attribute, y.attribute, z.attribute);
    }
    if Before(x.value, y.value) && Before(y.value, z.value) { BeforeIsTransitive(x.value, y.value, z.value); }
    if Before(x.unit, y.unit) && Before(y.unit, z.unit) { BeforeIsTransitive(x.unit, y.unit, z.unit); }
  }

  // -------------------------------------------------------------------- the file

  ghost predicate InFileOrder(rows: seq<Change>) {
    forall i, j {:trigger Precedes(rows[j], rows[i])} | 0 <= i < j < |rows| :: !Precedes(rows[j], rows[i])
  }

  /** The files a write of the changes may produce: rows with equal keys come in any order. */
  ghost predicate FileOf(rows: seq<Change>, changes: seq<Change>) {
    multiset(rows) == multiset(changes) && InFileOrder(rows)
  }

  /** Rows of a file follow ts first, then attribute, then value, then unit. */
  lemma FileOrderMeans(rows: seq<Change>, changes: seq<Change>, i: nat, j: nat)
    requires FileOf(rows, changes) && i < j < |rows|
    ensures var x, y := rows[i].triple, rows[j].triple;
            && rows[i].ts <= rows[j].ts
            && (rows[i].ts == rows[j].ts ==> x.attribute == y.attribute || Before(x.attribute, y.attribute))
            && (rows[i].ts == rows[j].ts && x.attribute == y.attribute ==> x.value == y.value || Before(x.value, y.value))
            && (rows[i].ts == rows[j].ts && x.attribute == y.attribute && x.value == y.value ==>
                  x.unit == y.unit || Before(x.unit, y.unit))
  {
    var x, y := rows[i].triple, rows[j].triple;
    assert !Precedes(rows[j], rows[i]);
    BeforeIsTotal(x.attribute, y.attribute);
    BeforeIsTotal(x.value, y.value);
    BeforeIsTotal(x.unit, y.unit);
  }

  /** What a row says, but for its owner. */
  predicate SameEvent(c: Change, d: Change) {
    && c.path == d.path && c.targetType == d.targetType && c.triple == d.triple && c.op == d.op && c.actor == d.actor
    && c.ts == d.ts && c.source == d.source && c.viaTicket == d.viaTicket && c.ruleInvocation == d.ruleInvocation
  }

  /** Every row of a snapshot's file is one of the changes, owned by the snapshot and its project; every change is there. */
  lemma FileIsStamped(rows: seq<Change>, project: string, sid: nat, changes: seq<Change>)
    requires FileOf(rows, Stamp(project, sid, changes))
    ensures |rows| == |changes|
    ensures forall c | c in rows :: c.project == project && c.snapshotId == sid && exists d :: d in changes && SameEvent(c, d)
    ensures forall d | d in changes :: exists c :: c in rows && SameEvent(c, d)
  {
    var stamped := Stamp(project, sid, changes);
    assert |rows| == |multiset(rows)| == |multiset(stamped)|;
    forall c | c in rows
      ensures c.project == project && c.snapshotId == sid && exists d :: d in changes && SameEvent(c, d)
    {
      assert c in multiset(stamped);
      var i :| 0 <= i < |stamped| && stamped[i] == c;
      assert changes[i] in changes && SameEvent(c, changes[i]);
    }
    forall d | d in changes ensures exists c :: c in rows && SameEvent(c, d) {
      var i :| 0 <= i < |changes| && changes[i] == d;
      assert stamped[i] in multiset(rows) && SameEvent(stamped[i], d);
    }
  }

  ghost predicate NonePrecedes(s: seq<Change>, c: Change) {
    forall i {:trigger Precedes(s[i], c)} | 0 <= i < |s| :: !Precedes(s[i], c)
  }

  lemma InOrderParts(s: seq<Change>)
    requires s != [] && InFileOrder(s)
    ensures InFileOrder(s[1..]) && NonePrecedes(s[1..], s[0])
  {
    var t := s[1..];
    forall i, j | 0 <= i < j < |t| ensures !Precedes(t[j], t[i]) { assert !Precedes(s[j + 1], s[i + 1]); }
    forall i | 0 <= i < |t| ensures !Precedes(t[i], s[0]) { assert !Precedes(s[i + 1], s[0]); }
  }

  lemma InOrderWhole(c: Change, s: seq<Change>)
    requires InFileOrder(s) && NonePrecedes(s, c)
    ensures InFileOrder([c] + s)
  {
    var t := [c] + s;
    forall i, j | 0 <= i < j < |t| ensures !Precedes(t[j], t[i]) {
      assert t[j] == s[j - 1];
      if i > 0 { assert t[i] == s[i - 1]; }
    }
  }

  lemma NonePrecedesIn(s: seq<Change>, c: Change, d: Change)
    requires NonePrecedes(s, c) && d in s
    ensures !Precedes(d, c)
  {
    var i :| 0 <= i < |s| && s[i] == d;
  }

  function Place(c: Change, s: seq<Change>): seq<Change> {
    if s == [] || !Precedes(s[0], c) then [c] + s else [s[0]] + Place(c, s[1..])
  }

  lemma {:induction false} PlaceBag(c: Change, s: seq<Change>)
    ensures multiset(Place(c, s)) == multiset(s) + multiset{c}
  {
    if s != [] {
      PlaceBag(c, s[1..]);
      assert s == [s[0]] + s[1..];
    }
  }

  lemma {:induction false} PlaceKeepsOrder(c: Change, s: seq<Change>)
    requires InFileOrder(s)
    ensures InFileOrder(Place(c, s))
  {
    if s == [] {
    } else if Precedes(s[0], c) {
      InOrderParts(s);
      PlaceKeepsOrder(c, s[1..]);
      PlaceBag(c, s[1..]);
      PrecedesIsTotal(s[0], c);
      var rest := Place(c, s[1..]);
      forall i | 0 <= i < |rest| ensures !Precedes(rest[i], s[0]) {
        assert rest[i] in multiset(rest);
        if rest[i] != c { NonePrecedesIn(s[1..], s[0], rest[i]); }
      }
      InOrderWhole(s[0], rest);
    } else {
      forall i | 0 <= i < |s| ensures !Precedes(s[i], c) {
        if i > 0 {
          assert !Precedes(s[i], s[0]);
          PrecedesIsTransitive(c, s[0], s[i]);
        }
      }
      InOrderWhole(c, s);
    }
  }

  /** COPY (SELECT ... ORDER BY ...): one of the files. */
  function Arranged(changes: seq<Change>): seq<Change> {
    if changes == [] then [] else Place(changes[|changes| - 1], Arranged(changes[..|changes| - 1]))
  }

  lemma {:induction false} ArrangedIsFile(changes: seq<Change>)
    ensures FileOf(Arranged(changes), changes)
  {
    if changes != [] {
      var front, c := changes[..|changes| - 1], changes[|changes| - 1];
      ArrangedIsFile(front);
      PlaceBag(c, Arranged(front));
      PlaceKeepsOrder(c, Arranged(front));
      assert changes == front + [c];
    }
  }

  // -------------------------------------------------------------- one file, or several

  /** Rows that tie in the sort key are the same row. */
  ghost predicate KeysDecide(changes: seq<Change>) {
    forall a, b | a in changes && b in changes && SameKey(a, b) :: a == b
  }

  lemma {:induction false} OneFile(f: seq<Change>, g: seq<Change>)
    requires InFileOrder(f) && InFileOrder(g) && multiset(f) == multiset(g) && KeysDecide(f)
    ensures f == g
  {
    assert |f| == |multiset(f)| == |multiset(g)| == |g|;
    if f != [] {
      assert f[0] in multiset(g) && g[0] in multiset(f);
      SameFirst(f, g);
      InOrderParts(f);
      InOrderParts(g);
      SameTails(f, g);
      OneFile(f[1..], g[1..]);
      assert f == [f[0]] + f[1..] && g == [g[0]] + g[1..];
    }
  }

  lemma SameTails(f: seq<Change>, g: seq<Change>)
    requires f != [] && g != [] && f[0] == g[0] && multiset(f) == multiset(g)
    ensures multiset(f[1..]) == multiset(g[1..])
  {
    assert f == [f[0]] + f[1..] && g == [g[0]] + g[1..];
    assert multiset(f[1..]) == multiset(f) - multiset{f[0]};
    assert multiset(g[1..]) == multiset(g) - multiset{g[0]};
  }

  lemma SameFirst(f: seq<Change>, g: seq<Change>)
    requires InFileOrder(f) && InFileOrder(g) && KeysDecide(f)
    requires f != [] && g != [] && f[0] in g && g[0] in f
    ensures f[0] == g[0]
  {
    InOrderParts(f);
    InOrderParts(g);
    if f[0] != g[0] {
      NonePrecedesIn(f[1..], f[0], g[0]);
      NonePrecedesIn(g[1..], g[0], f[0]);
      PrecedesIsTotal(f[0], g[0]);
    }
  }

  /** Two tied rows go in either order. */
  lemma {:induction false} PlacedTwice(a: Change, b: Change, s: seq<Change>)
    requires SameKey(a, b) && a != b
    ensures Place(a, Place(b, s)) != Place(b, Place(a, s))
  {
    PrecedesIsTotal(a, b);
    PrecedesIsTotal(b, a);
    if s == [] || !Precedes(s[0], a) {
      assert Place(a, Place(b, s))[0] == a;
      assert Place(b, Place(a, s))[0] == b;
    } else {
      PlacedTwice(a, b, s[1..]);
      assert Place(a, Place(b, s))[1..] == Place(a, Place(b, s[1..]));
      assert Place(b, Place(a, s))[1..] == Place(b, Place(a, s[1..]));
    }
  }

  lemma Without(s: seq<Change>, c: Change) returns (rest: seq<Change>)
    requires c in s
    ensures multiset(s) == multiset(rest) + multiset{c}
  {
    var i :| 0 <= i < |s| && s[i] == c;
    rest := s[..i] + s[i + 1..];
    assert s == s[..i] + [s[i]] + s[i + 1..];
  }

  lemma TwoFiles(changes: seq<Change>, a: Change, b: Change) returns (f: seq<Change>, g: seq<Change>)
    requires a in changes && b in changes && SameKey(a, b) && a != b
    ensures FileOf(f, changes) && FileOf(g, changes) && f != g
  {
    var fewer := Without(changes, a);
    assert b in multiset(changes);
    assert b in multiset(fewer);
    var rest := Without(fewer, b);
    var base := Arranged(rest);
    ArrangedIsFile(rest);
    f, g := Place(a, Place(b, base)), Place(b, Place(a, base));
    PlaceBag(b, base);
    PlaceBag(a, base);
    PlaceBag(a, Place(b, base));
    PlaceBag(b, Place(a, base));
    PlaceKeepsOrder(b, base);
    PlaceKeepsOrder(a, base);
    PlaceKeepsOrder(a, Place(b, base));
    PlaceKeepsOrder(b, Place(a, base));
    PlacedTwice(a, b, base);
  }

  /**
   * The ORDER BY determines the file exactly when rows that tie in
   * (ts, attribute, value, unit) are the same row.
   */
  lemma FileIsDetermined(changes: seq<Change>)
    ensures (forall f, g | FileOf(f, changes) && FileOf(g, changes) :: f == g) <==> KeysDecide(changes)
  {
    if KeysDecide(changes) {
      forall f, g | FileOf(f, changes) && FileOf(g, changes) ensures f == g {
        forall a, b | a in f && b in f && SameKey(a, b) ensures a == b {
          assert a in multiset(changes) && b in multiset(changes);
        }
        OneFile(f, g);
      }
    } else {
      var a, b :| a in changes && b in changes && SameKey(a, b) && a != b;
      var f, g := TwoFiles(changes, a, b);
    }
  }

  /** It need not: an add and a delete of one triple at one time go in either order. */
  lemma TiedEventsGiveTwoFiles(c: Change)
    requires c.op.Add?
    ensures var d := c.(op := Delete); FileOf([c, d], [c, d]) && FileOf([d, c], [c, d])
  {
    var d := c.(op := Delete);
    PrecedesIsTotal(c, d);
    PrecedesIsTotal(d, c);
    assert multiset([d, c]) == multiset([c, d]);
  }
}
