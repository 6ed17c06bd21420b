// AVU change events, the rows of a snapshot's Parquet file.
module Avu {
  import opened Wrappers

  datatype Op = Add | Delete

  datatype TargetType = DataObject | Collection | Resource | User

  datatype Triple = Triple(attribute: string, value: string, unit: string)

  datatype Change = Change(
    project: string,
    snapshotId: nat,
    path: string,
    targetType: TargetType,
    triple: Triple,
    op: Op,
    actor: string,
    ts: int,
    source: string,
    viaTicket: Option<string>,
    ruleInvocation: Option<string>)

  /** The key (ts, snapshot_id) that every query orders by, newest first. */
  predicate Newer(a: Change, b: Change) {
    a.ts > b.ts || (a.ts == b.ts && a.snapshotId > b.snapshotId)
  }

  /** Not newer: earlier, or of the same time and not of a larger snapshot. */
  lemma NewerMeans(a: Change, b: Change)
    ensures !Newer(a, b) <==> a.ts < b.ts || (a.ts == b.ts && a.snapshotId <= b.snapshotId)
  {
  }

  ghost predicate NewestFirst(s: seq<Change>) {
    forall i, j | 0 <= i < j < |s| :: !Newer(s[j], s[i])
  }

  ghost predicate OldestFirst(s: seq<Change>) {
    forall i, j | 0 <= i < j < |s| :: !Newer(s[i], s[j])
  }

  /**
   * The results a SQL engine may give for `ORDER BY ts DESC, snapshot_id DESC`
   * over a bag of rows: rows with equal keys come in any order.
   */
  ghost predicate Newest(l: seq<Change>, rows: multiset<Change>) {
    multiset(l) == rows && NewestFirst(l)
  }

  ghost predicate Oldest(l: seq<Change>, rows: multiset<Change>) {
    multiset(l) == rows && OldestFirst(l)
  }

  lemma {:induction false} OrderedUpTo(s: seq<Change>, i: nat, j: nat)
    requires i < j < |s|
    requires forall k | 0 < k < |s| :: s[k - 1].ts > s[k].ts || (s[k - 1].ts == s[k].ts && s[k - 1].snapshotId >= s[k].snapshotId)
    ensures s[i].ts > s[j].ts || (s[i].ts == s[j].ts && s[i].snapshotId >= s[j].snapshotId)
  {
    if i < j - 1 { OrderedUpTo(s, i, j - 1); }
    assert s[j - 1].ts > s[j].ts || (s[j - 1].ts == s[j].ts && s[j - 1].snapshotId >= s[j].snapshotId);
  }

  /**
   * Newest first: from each row to the next the time falls, or it stays and the
   * snapshot id does not rise.
   */
  lemma NewestMeans(s: seq<Change>)
    ensures NewestFirst(s) <==>
            forall k | 0 < k < |s| :: s[k - 1].ts > s[k].ts || (s[k - 1].ts == s[k].ts && s[k - 1].snapshotId >= s[k].snapshotId)
  {
    if NewestFirst(s) {
      forall k | 0 < k < |s|
        ensures s[k - 1].ts > s[k].ts || (s[k - 1].ts == s[k].ts && s[k - 1].snapshotId >= s[k].snapshotId)
      {
        assert !Newer(s[k], s[k - 1]);
      }
    }
    if forall k | 0 < k < |s| :: s[k - 1].ts > s[k].ts || (s[k - 1].ts == s[k].ts && s[k - 1].snapshotId >= s[k].snapshotId) {
      forall i, j | 0 <= i < j < |s| ensures !Newer(s[j], s[i]) { OrderedUpTo(s, i, j); }
    }
  }

  /** The WHERE clause: rows of a sequence that satisfy a condition, in order. */
  function Keep(p: Change -> bool, s: seq<Change>): (r: seq<Change>) {
    if s == [] then []
    else Keep(p, s[..|s| - 1]) + (if p(s[|s| - 1]) then [s[|s| - 1]] else [])
  }

  /** Rows overwritten with the owner that record_changes assigns to them. */
  function Stamp(project: string, sid: nat, changes: seq<Change>): (r: seq<Change>)
    ensures |r| == |changes|
    ensures forall i | 0 <= i < |r| :: r[i] == changes[i].(project := project, snapshotId := sid)
  {
    seq(|changes|, i requires 0 <= i < |changes| => changes[i].(project := project, snapshotId := sid))
  }

  lemma {:induction false} KeepCounts(p: Change -> bool, s: seq<Change>, c: Change)
    ensures multiset(Keep(p, s))[c] == if p(c) then multiset(s)[c] else 0
  {
    if s != [] {
      KeepCounts(p, s[..|s| - 1], c);
      assert s == s[..|s| - 1] + [s[|s| - 1]];
    }
  }

  /** Selecting commutes with reordering. */
  lemma KeepBag(p: Change -> bool, s: seq<Change>, t: seq<Change>)
    requires multiset(s) == multiset(t)
    ensures multiset(Keep(p, s)) == multiset(Keep(p, t))
  {
    forall c
      ensures multiset(Keep(p, s))[c] == multiset(Keep(p, t))[c]
    {
      KeepCounts(p, s, c);
      KeepCounts(p, t, c);
    }
  }

  lemma {:induction false} KeepMembers(p: Change -> bool, s: seq<Change>)
    ensures forall c :: c in Keep(p, s) <==> c in s && p(c)
  {
    if s != [] {
      KeepMembers(p, s[..|s| - 1]);
      assert s == s[..|s| - 1] + [s[|s| - 1]];
    }
  }

  lemma {:induction false} KeepOrdered(p: Change -> bool, s: seq<Change>)
    ensures NewestFirst(s) ==> NewestFirst(Keep(p, s))
    ensures OldestFirst(s) ==> OldestFirst(Keep(p, s))
  {
    if s != [] {
      var front := s[..|s| - 1];
      KeepOrdered(p, front);
      KeepMembers(p, front);
      var k := Keep(p, front);
      forall i | 0 <= i < |k|
        ensures exists j :: 0 <= j < |front| && s[j] == k[i]
      {
        assert k[i] in k;
      }
    }
  }

  /** A sorted linearisation exists, so the query results below are never vacuous. */
  function SortNewest(s: seq<Change>): (r: seq<Change>)
    ensures Newest(r, multiset(s))
  {
    if s == [] then [] else
      assert s == s[..|s| - 1] + [s[|s| - 1]];
      var sorted := SortNewest(s[..|s| - 1]);
      InsertKeepsOrder(s[|s| - 1], sorted);
      Insert(s[|s| - 1], sorted)
  }

  function Insert(c: Change, s: seq<Change>): seq<Change> {
    if s == [] then [c]
    else if Newer(c, s[0]) then [c] + s
    else [s[0]] + Insert(c, s[1..])
  }

  lemma {:induction false} InsertBag(c: Change, s: seq<Change>)
    ensures multiset(Insert(c, s)) == multiset(s) + multiset{c}
  {
    if s != [] && !Newer(c, s[0]) {
      InsertBag(c, s[1..]);
      assert s == [s[0]] + s[1..];
    }
  }

  lemma {:induction false} InsertKeepsOrder(c: Change, s: seq<Change>)
    requires NewestFirst(s)
    ensures Newest(Insert(c, s), multiset(s) + multiset{c})
  {
    InsertBag(c, s);
    if s != [] && !Newer(c, s[0]) {
      var rest := Insert(c, s[1..]);
      InsertKeepsOrder(c, s[1..]);
      forall j | 0 <= j < |rest| ensures !Newer(rest[j], s[0]) {
        assert rest[j] in multiset(s[1..]) + multiset{c};
      }
    }
  }

  function Reverse(s: seq<Change>): (r: seq<Change>)
    ensures |r| == |s|
    ensures forall i | 0 <= i < |s| :: r[i] == s[|s| - 1 - i]
  {
    seq(|s|, i requires 0 <= i < |s| => s[|s| - 1 - i])
  }

  lemma {:induction false} ReverseBag(s: seq<Change>)
    ensures multiset(Reverse(s)) == multiset(s)
  {
    if s != [] {
      ReverseBag(s[1..]);
      assert s == [s[0]] + s[1..];
      assert Reverse(s) == Reverse(s[1..]) + [s[0]];
    }
  }
}
