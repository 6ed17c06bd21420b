// The migration runner: discovery, and ordered, resumable application recorded
// in mesa.schema_versions.
module Migrations {
  import opened Wrappers
  import opened Names

  // -------------------------------------------------------------------- discovery

  datatype Entry = Entry(name: string, isFile: bool)

  /** How many digits the name starts with. */
  function Digits(name: string): (k: nat)
    ensures k <= |name| && (forall i | 0 <= i < k :: Digit(name[i])) && (k < |name| ==> !Digit(name[k]))
  {
    if name == "" || !Digit(name[0]) then 0 else 1 + Digits(name[1..])
  }

  /** The end of the title, before ".sql" and at most one newline. */
  function TitleEnd(name: string): Option<nat> {
    var n := if name != "" && name[|name| - 1] == '\n' then |name| - 1 else |name|;
    if n >= 4 && name[n - 4..n] == ".sql" then Some(n - 4) else None
  }

  /** The version, when k digits, an underscore and a title up to `end` make up the name. */
  function VersionAt(name: string, k: nat, end: Option<nat>): Option<nat>
    requires k <= |name| && (forall i | 0 <= i < k :: Digit(name[i])) && (end.Some? ==> end.value <= |name|)
  {
    if k > 0 && end.Some? && k + 1 < end.value && name[k] == '_' && '/' !in name[k + 1..end.value] then
      Some(Number(name[..k]))
    else None
  }

  /** Files called <digits>_<title>.sql have a version; other entries have none. */
  function VersionOf(e: Entry): Option<nat> {
    if e.isFile then VersionAt(e.name, Digits(e.name), TitleEnd(e.name)) else None
  }

  function Zeros(n: nat): string {
    seq(n, i => '0')
  }

  lemma {:induction false} NumberOfPadded(zeros: nat, digits: string)
    requires forall i | 0 <= i < |digits| :: Digit(digits[i])
    ensures forall i | 0 <= i < |Zeros(zeros) + digits| :: Digit((Zeros(zeros) + digits)[i])
    ensures Number(Zeros(zeros) + digits) == Number(digits)
    decreases zeros, |digits|
  {
    var s := Zeros(zeros) + digits;
    if digits == "" {
      if zeros > 0 {
        assert s[..|s| - 1] == Zeros(zeros - 1) + "";
        NumberOfPadded(zeros - 1, "");
      }
    } else {
      assert s[..|s| - 1] == Zeros(zeros) + digits[..|digits| - 1];
      NumberOfPadded(zeros, digits[..|digits| - 1]);
    }
  }

  lemma {:induction false} DigitsOf(digits: string, rest: string)
    requires (forall i | 0 <= i < |digits| :: Digit(digits[i])) && rest != "" && !Digit(rest[0])
    ensures Digits(digits + rest) == |digits|
  {
    if digits == "" {
      assert digits + rest == rest;
    } else {
      DigitsOf(digits[1..], rest);
      assert (digits + rest)[1..] == digits[1..] + rest;
    }
  }

  lemma VersionAtTitle(name: string, digits: string, title: string)
    requires digits != "" && (forall i | 0 <= i < |digits| :: Digit(digits[i])) && title != "" && '/' !in title
    requires name == digits + ("_" + title + ".sql")
    ensures TitleEnd(name) == Some(|name| - 4) && VersionAt(name, |digits|, Some(|name| - 4)) == Some(Number(digits))
  {
    assert name[..|digits|] == digits;
    assert name[|name| - 1] == 'l' && name[|name| - 4..|name|] == ".sql";
    assert name[|digits| + 1..|name| - 4] == title;
  }

  /** A version is read back from any zero-padded name it is written in. */
  lemma VersionReadsBack(version: nat, zeros: nat, title: string)
    requires title != "" && '/' !in title
    ensures VersionOf(Entry(Zeros(zeros) + Decimal(version) + ("_" + title + ".sql"), true)) == Some(version)
  {
    DecimalDigits(version);
    NumberOfPadded(zeros, Decimal(version));
    var digits := Zeros(zeros) + Decimal(version);
    DigitsOf(digits, "_" + title + ".sql");
    VersionAtTitle(digits + ("_" + title + ".sql"), digits, title);
  }

  lemma OnlyTitled(name: string, v: nat)
    requires VersionOf(Entry(name, true)) == Some(v)
    ensures exists digits, title, end ::
              && name == digits + "_" + title + ".sql" + end && (end == "" || end == "\n")
              && digits != "" && (forall i | 0 <= i < |digits| :: Digit(digits[i])) && Number(digits) == v
              && title != "" && '/' !in title
  {
    var k, end := Digits(name), TitleEnd(name).value;
    var digits, title, tail := name[..k], name[k + 1..end], name[end + 4..];
    assert name == digits + "_" + title + ".sql" + tail;
    if tail != "" { assert tail == [name[|name| - 1]]; }
  }

  datatype Migration = Migration(version: nat, name: string)

  ghost predicate Ascending(ms: seq<Migration>) {
    forall i, j | 0 <= i < j < |ms| :: ms[i].version < ms[j].version
  }

  datatype Matched = Matched(name: string, version: Option<nat>)

  function MatchAll(entries: seq<Entry>): (ms: seq<Matched>)
    ensures |ms| == |entries|
    ensures forall i | 0 <= i < |entries| :: ms[i] == Matched(entries[i].name, VersionOf(entries[i]))
  {
    seq(|entries|, i requires 0 <= i < |entries| => Matched(entries[i].name, VersionOf(entries[i])))
  }

  /** Two entries claim one version. */
  ghost predicate Clash(entries: seq<Matched>) {
    exists i, j :: 0 <= i < j < |entries| && entries[i].version.Some? && entries[i].version == entries[j].version
  }

  predicate IsLeast(s: set<nat>, v: nat) {
    v in s && forall w | w in s :: v <= w
  }

  lemma {:induction false} LeastExists(s: set<nat>, v: nat)
    requires v in s
    ensures exists w :: IsLeast(s, w)
    decreases v
  {
    if !IsLeast(s, v) {
      var w :| w in s && w < v;
      LeastExists(s, w);
    }
  }

  lemma LeastOf(s: set<nat>)
    requires s != {}
    ensures exists v :: v in s && IsLeast(s, v)
  {
    var x :| x in s;
    LeastExists(s, x);
    var v :| IsLeast(s, v);
  }

  function Least(s: set<nat>): (v: nat)
    requires s != {}
    ensures IsLeast(s, v)
  {
    LeastOf(s);
    var v: nat :| v in s && IsLeast(s, v);
    v
  }

  /** sorted(found.items()). */
  function SortedItems(found: map<nat, string>): seq<Migration>
    decreases |found|
  {
    if found == map[] then [] else
      var v := Least(found.Keys);
      [Migration(v, found[v])] + SortedItems(found - {v})
  }

  lemma {:induction false} SortedItemsMeans(found: map<nat, string>)
    ensures Ascending(SortedItems(found))
    ensures forall m :: m in SortedItems(found) <==> m.version in found && found[m.version] == m.name
    decreases |found|
  {
    if found != map[] {
      var v := Least(found.Keys);
      var rest := SortedItems(found - {v});
      SortedItemsMeans(found - {v});
      forall i | 0 <= i < |rest| ensures v < rest[i].version {
        assert rest[i] in rest;
      }
    }
  }

  /**
   * _discover_migrations. Finds every versioned file, ascending, or raises when
   * two share a version.
   */
  method Discover(directory: seq<Entry>) returns (r: Option<seq<Migration>>)
    ensures r.None? <==> Clash(MatchAll(directory))
    ensures r.Some? ==> Ascending(r.value)
    ensures r.Some? ==> forall m :: m in r.value <==> Matched(m.name, Some(m.version)) in MatchAll(directory)
  {
    r := Collect(MatchAll(directory));
  }

  method Collect(entries: seq<Matched>) returns (r: Option<seq<Migration>>)
    ensures r.None? <==> Clash(entries)
    ensures r.Some? ==> Ascending(r.value)
    ensures r.Some? ==> forall m :: m in r.value <==> Matched(m.name, Some(m.version)) in entries
  {
    var found: map<nat, string> := map[];
    for i := 0 to |entries|
      invariant forall j | 0 <= j < i && entries[j].version.Some? ::
                  entries[j].version.value in found && found[entries[j].version.value] == entries[j].name
      invariant forall v | v in found :: exists j :: 0 <= j < i && entries[j] == Matched(found[v], Some(v))
      invariant !Clash(entries[..i])
    {
      if entries[i].version.Some? {
        var version := entries[i].version.value;
        if version in found {
          return None;
        }
        found := found[version := entries[i].name];
      }
    }
    assert entries[..|entries|] == entries;
    SortedItemsMeans(found);
    r := Some(SortedItems(found));
  }

  // ------------------------------------------------------------------- application

  /** What runs so far executed, in order, and the rows of schema_versions. */
  datatype Database = Database(executed: seq<Migration>, versions: set<nat>)

  predicate Wanted(m: Migration, versions: set<nat>, target: Option<nat>) {
    m.version !in versions && (target.None? || m.version <= target.value)
  }

  /** The migrations a run has to apply, in order. */
  function Pending(ms: seq<Migration>, versions: set<nat>, target: Option<nat>): seq<Migration> {
    if ms == [] then []
    else if Wanted(ms[0], versions, target) then [ms[0]] + Pending(ms[1..], versions, target)
    else Pending(ms[1..], versions, target)
  }

  function Versions(ms: seq<Migration>): set<nat> {
    if ms == [] then {} else {ms[0].version} + Versions(ms[1..])
  }

  lemma {:induction false} VersionsOfSum(a: seq<Migration>, b: seq<Migration>)
    ensures Versions(a + b) == Versions(a) + Versions(b)
  {
    if a == [] {
      assert a + b == b;
    } else {
      VersionsOfSum(a[1..], b);
      assert (a + b)[1..] == a[1..] + b;
    }
  }

  class Runner {
    var db: Database

    constructor ()
      ensures db == Database([], {})
    {
      db := Database([], {});
    }

    /** One migration in its transaction, with its row: all of it, or nothing. */
    method ApplyOne(m: Migration, fails: bool) returns (ok: bool)
      modifies this
      ensures ok <==> !fails
      ensures db == if ok then Database(old(db).executed + [m], old(db).versions + {m.version}) else old(db)
    {
      ok := !fails;
      if ok {
        db := Database(db.executed + [m], db.versions + {m.version});
      }
    }

    /**
     * apply_migrations over the discovered files. A run applies the pending
     * migrations in order and stops at the first failure, which leaves no trace.
     */
    method Apply(ms: seq<Migration>, target: Option<nat>, fails: Migration -> bool)
      returns (count: nat, failed: Option<Migration>, ghost done: seq<Migration>)
      requires Ascending(ms)
      modifies this
      ensures var todo := Pending(ms, old(db).versions, target);
              && count == |done| && done <= todo
              && db == Database(old(db).executed + done, old(db).versions + Versions(done))
              && (forall i | 0 <= i < count :: !fails(done[i]))
              && (failed.None? ==> done == todo)
              && (failed.Some? ==> count < |todo| && failed.value == todo[count] && fails(failed.value))
    {
      count, failed, done := 0, None, [];
      var already := db.versions;
      var i := 0;
      while i < |ms|
        invariant 0 <= i <= |ms| && count == |done|
        invariant Progress(ms, already, target, done, Pending(ms[i..], already, target), fails)
        invariant db == Database(old(db).executed + done, already + Versions(done))
      {
        PendingFrom(ms, i, already, target);
        if ms[i].version !in already {
          if target.Some? && ms[i].version > target.value {
            NothingBeyond(ms[i..], already, target);
            break;
          }
          var ok := ApplyOne(ms[i], fails(ms[i]));
          if !ok {
            failed := Some(ms[i]);
            return;
          }
          ProgressNext(ms, already, target, done, ms[i], Pending(ms[i + 1..], already, target), fails);
          VersionsOfSum(done, [ms[i]]);
          count, done := count + 1, done + [ms[i]];
        }
        i := i + 1;
      }
    }
  }

  /** Of the pending migrations, `done` were applied and `rest` are still to come. */
  ghost predicate Progress(ms: seq<Migration>, versions: set<nat>, target: Option<nat>, done: seq<Migration>,
                           rest: seq<Migration>, fails: Migration -> bool) {
    done + rest == Pending(ms, versions, target) && forall j | 0 <= j < |done| :: !fails(done[j])
  }

  lemma ProgressNext(ms: seq<Migration>, versions: set<nat>, target: Option<nat>, done: seq<Migration>,
                     m: Migration, rest: seq<Migration>, fails: Migration -> bool)
    requires Progress(ms, versions, target, done, [m] + rest, fails) && !fails(m)
    ensures Progress(ms, versions, target, done + [m], rest, fails)
  {
    assert done + ([m] + rest) == done + [m] + rest;
  }

  lemma PendingFrom(ms: seq<Migration>, i: nat, versions: set<nat>, target: Option<nat>)
    requires i < |ms|
    ensures var rest := Pending(ms[i + 1..], versions, target);
            Pending(ms[i..], versions, target) == if Wanted(ms[i], versions, target) then [ms[i]] + rest else rest
  {
    assert ms[i..][1..] == ms[i + 1..];
  }

  /** Past the target everything is past the target. */
  lemma {:induction false} NothingBeyond(ms: seq<Migration>, versions: set<nat>, target: Option<nat>)
    requires Ascending(ms) && target.Some? && (ms != [] ==> ms[0].version > target.value)
    ensures Pending(ms, versions, target) == []
  {
    if ms != [] {
      NothingBeyond(ms[1..], versions, target);
    }
  }

  // ------------------------------------------------------------ runs after one another

  lemma {:induction false} PendingFrame(ms: seq<Migration>, versions: set<nat>, versions': set<nat>, target: Option<nat>)
    requires forall i | 0 <= i < |ms| :: ms[i].version in versions <==> ms[i].version in versions'
    ensures Pending(ms, versions, target) == Pending(ms, versions', target)
  {
    if ms != [] {
      assert ms[0].version in versions <==> ms[0].version in versions';
      PendingFrame(ms[1..], versions, versions', target);
    }
  }

  /** A run picks up exactly where the last one stopped. */
  lemma {:induction false} Resumes(ms: seq<Migration>, versions: set<nat>, target: Option<nat>, count: nat)
    requires Ascending(ms) && count <= |Pending(ms, versions, target)|
    ensures var todo := Pending(ms, versions, target);
            Pending(ms, versions + Versions(todo[..count]), target) == todo[count..]
  {
    var todo := Pending(ms, versions, target);
    if count == 0 {
      assert versions + Versions(todo[..0]) == versions;
    } else if !Wanted(ms[0], versions, target) {
      Resumes(ms[1..], versions, target, count);
    } else {
      var rest := Pending(ms[1..], versions, target);
      var more := versions + Versions(rest[..count - 1]);
      assert todo == [ms[0]] + rest;
      assert todo[..count][1..] == rest[..count - 1];
      assert versions + Versions(todo[..count]) == more + {ms[0].version};
      PendingFrame(ms[1..], more, more + {ms[0].version}, target);
      Resumes(ms[1..], versions, target, count - 1);
    }
  }

  /** A run to a target does the first part of the full run. */
  lemma {:induction false} TargetIsPrefix(ms: seq<Migration>, versions: set<nat>, target: nat)
    requires Ascending(ms)
    ensures Pending(ms, versions, Some(target)) <= Pending(ms, versions, None)
  {
    if ms != [] {
      if ms[0].version > target {
        NothingBeyond(ms, versions, Some(target));
      } else {
        TargetIsPrefix(ms[1..], versions, target);
      }
    }
  }

  /**
   * A staged run to any target followed by a full run executes the same
   * migrations in the same order as one full run, and a third run has nothing
   * to do.
   */
  lemma StagedEqualsFull(ms: seq<Migration>, versions: set<nat>, target: nat)
    requires Ascending(ms)
    ensures var first := Pending(ms, versions, Some(target));
            var second := Pending(ms, versions + Versions(first), None);
            && first + second == Pending(ms, versions, None)
            && Pending(ms, versions + Versions(first) + Versions(second), None) == []
  {
    var all, first := Pending(ms, versions, None), Pending(ms, versions, Some(target));
    TargetIsPrefix(ms, versions, target);
    assert first == all[..|first|];
    Resumes(ms, versions, None, |first|);
    Resumes(ms, versions, None, |all|);
    assert all[..|all|] == all && all[|all|..] == [];
    VersionsOfSum(first, all[|first|..]);
    assert first + all[|first|..] == all;
    assert versions + Versions(all) == versions + Versions(first) + Versions(all[|first|..]);
  }

  lemma {:induction false} PendingMembers(ms: seq<Migration>, versions: set<nat>, target: Option<nat>)
    requires Ascending(ms)
    ensures Ascending(Pending(ms, versions, target))
    ensures forall m :: m in Pending(ms, versions, target) <==>
              m in ms && m.version !in versions && (target.Some? ==> m.version <= target.value)
  {
    if ms != [] {
      PendingMembers(ms[1..], versions, target);
      var rest := Pending(ms[1..], versions, target);
      assert ms == [ms[0]] + ms[1..];
      forall i | 0 <= i < |rest| ensures ms[0].version < rest[i].version {
        assert rest[i] in ms[1..];
      }
    }
  }

  /** When a run stops at a failure, it has applied exactly the wanted migrations below it. */
  lemma BelowTheFailure(ms: seq<Migration>, versions: set<nat>, target: Option<nat>, count: nat, m: Migration)
    requires Ascending(ms) && count < |Pending(ms, versions, target)|
    ensures var todo := Pending(ms, versions, target);
            m in todo[..count] <==>
              m in ms && m.version !in versions && (target.Some? ==> m.version <= target.value) && m.version < todo[count].version
  {
    var todo := Pending(ms, versions, target);
    PendingMembers(ms, versions, target);
    if m in todo {
      var i :| 0 <= i < |todo| && todo[i] == m;
      assert i < count ==> todo[..count][i] == m;
    }
  }

  /** The returned count is the growth of schema_versions. */
  lemma {:induction false} CountIsGrowth(ms: seq<Migration>, versions: set<nat>, target: Option<nat>, count: nat)
    requires Ascending(ms) && count <= |Pending(ms, versions, target)|
    ensures |versions + Versions(Pending(ms, versions, target)[..count])| == |versions| + count
  {
    var todo := Pending(ms, versions, target);
    if count == 0 {
      assert versions + Versions(todo[..0]) == versions;
    } else if !Wanted(ms[0], versions, target) {
      CountIsGrowth(ms[1..], versions, target, count);
    } else {
      var more := versions + {ms[0].version};
      var rest := Pending(ms[1..], versions, target);
      PendingFrame(ms[1..], versions, more, target);
      CountIsGrowth(ms[1..], more, target, count - 1);
      assert todo[..count][1..] == rest[..count - 1];
      assert versions + Versions(todo[..count]) == more + Versions(rest[..count - 1]);
    }
  }
}
