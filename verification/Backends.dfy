// The two catalog backends over whole call sequences: the same replies and
// tables, and every constraint at every cut, between any two statements.
module Backends {
  import opened Wrappers
  import opened Names
  import opened CatalogTables
  import opened Protocol
  import opened Invariant
  import opened Safety
  import opened ProtocolTheorems

  /** A backend answering calls one after another. */
  function OnPostgres(t: Tables, calls: seq<Call>): (r: (Tables, seq<Reply>))
    ensures |r.1| == |calls|
  {
    if calls == [] then (t, []) else
      var (before, replies) := OnPostgres(t, calls[..|calls| - 1]);
      var (after, reply) := Postgres(before, calls[|calls| - 1]);
      (after, replies + [reply])
  }

  function OnDuckDB(t: Tables, calls: seq<Call>): (r: (Tables, seq<Reply>))
    ensures |r.1| == |calls|
  {
    if calls == [] then (t, []) else
      var (before, replies) := OnDuckDB(t, calls[..|calls| - 1]);
      var (after, reply) := DuckDB(before, calls[|calls| - 1]);
      (after, replies + [reply])
  }

  /** Each call is legal when its turn comes. */
  ghost predicate LegalInTurn(t: Tables, calls: seq<Call>) {
    forall i | 0 <= i < |calls| :: Legal(OnPostgres(t, calls[..i]).0, calls[i])
  }

  lemma LegalFront(t: Tables, calls: seq<Call>)
    requires LegalInTurn(t, calls) && calls != []
    ensures LegalInTurn(t, calls[..|calls| - 1])
    ensures Legal(OnPostgres(t, calls[..|calls| - 1]).0, calls[|calls| - 1])
  {
    var front := calls[..|calls| - 1];
    forall i | 0 <= i < |front| ensures Legal(OnPostgres(t, front[..i]).0, front[i]) {
      assert front[..i] == calls[..i];
    }
  }

  /** Two equal stores, one of each kind, give the same replies and stay equal. */
  lemma {:induction false} SequencesAgree(t: Tables, calls: seq<Call>)
    requires Constraints(t) && LegalInTurn(t, calls)
    ensures OnDuckDB(t, calls) == OnPostgres(t, calls)
    ensures Constraints(OnPostgres(t, calls).0)
  {
    if calls != [] {
      LegalFront(t, calls);
      SequencesAgree(t, calls[..|calls| - 1]);
      BackendsAgree(OnPostgres(t, calls[..|calls| - 1]).0, calls[|calls| - 1]);
    }
  }

  // ------------------------------------------------------------- statement by statement

  /** The statements a DuckDB store runs for a sequence of calls. */
  function Statements(calls: seq<Call>): seq<Call> {
    if calls == [] then [] else Statements(calls[..|calls| - 1]) + DuckDBStatements(calls[|calls| - 1])
  }

  function Executed(t: Tables, statements: seq<Call>): Tables {
    if statements == [] then t else Common(Executed(t, statements[..|statements| - 1]), statements[|statements| - 1]).0
  }

  lemma {:induction false} ExecutedInTwo(t: Tables, a: seq<Call>, b: seq<Call>)
    ensures Executed(t, a + b) == Executed(Executed(t, a), b)
  {
    if b == [] {
      assert a + b == a;
    } else {
      ExecutedInTwo(t, a, b[..|b| - 1]);
      assert (a + b)[..|a + b| - 1] == a + b[..|b| - 1];
    }
  }

  lemma {:induction false} StatementsAreCalls(t: Tables, calls: seq<Call>)
    ensures Executed(t, Statements(calls)) == OnDuckDB(t, calls).0
  {
    if calls != [] {
      var front, c := calls[..|calls| - 1], calls[|calls| - 1];
      StatementsAreCalls(t, front);
      ExecutedInTwo(t, Statements(front), DuckDBStatements(c));
      OneCall(Executed(t, Statements(front)), c);
    }
  }

  lemma ExecutedOne(t: Tables, c: Call)
    ensures Executed(t, [c]) == Common(t, c).0
  {
    assert [c][..0] == [];
  }

  lemma OneCall(t: Tables, c: Call)
    ensures Executed(t, DuckDBStatements(c)) == DuckDB(t, c).0
    ensures forall k | 0 <= k < |DuckDBStatements(c)| ::
              Executed(t, DuckDBStatements(c)[..k + 1]) == DuckDBStates(t, c)[k]
  {
    var ss := DuckDBStatements(c);
    ExecutedOne(t, ss[0]);
    assert ss[..1] == [ss[0]];
    if c.DeleteSnapshot? {
      assert ss[..2] == ss == [ss[0]] + [ss[1]];
      ExecutedInTwo(t, [ss[0]], [ss[1]]);
      ExecutedOne(Common(t, ss[0]).0, ss[1]);
    }
  }

  lemma {:induction false} ConstraintsAtCut(t: Tables, calls: seq<Call>, k: nat)
    requires Constraints(t) && LegalInTurn(t, calls) && k <= |Statements(calls)|
    ensures Constraints(Executed(t, Statements(calls)[..k]))
  {
    var all := Statements(calls);
    if calls == [] {
      assert all[..k] == [];
    } else {
      LegalFront(t, calls);
      var front, c := calls[..|calls| - 1], calls[|calls| - 1];
      var before := Statements(front);
      if k <= |before| {
        assert all[..k] == before[..k];
        ConstraintsAtCut(t, front, k);
      } else {
        CutInLast(t, front, c, k - |before|);
        assert all[..k] == before + DuckDBStatements(c)[..k - |before|];
      }
    }
  }

  /**
   * Cut anywhere. A crash may stop a DuckDB store between any two of its
   * statements, in the middle of a delete included: every constraint holds at
   * the cut, and running the rest from there ends in the tables of a Postgres
   * store that answered all the calls.
   */
  lemma CutAnywhere(t: Tables, calls: seq<Call>, k: nat)
    requires Constraints(t) && LegalInTurn(t, calls) && k <= |Statements(calls)|
    ensures Constraints(Executed(t, Statements(calls)[..k]))
    ensures Executed(Executed(t, Statements(calls)[..k]), Statements(calls)[k..]) == OnPostgres(t, calls).0
  {
    ConstraintsAtCut(t, calls, k);
    RestOfTheStatements(t, Statements(calls), k);
    StatementsAreCalls(t, calls);
    SequencesAgree(t, calls);
  }

  lemma RestOfTheStatements(t: Tables, all: seq<Call>, k: nat)
    requires k <= |all|
    ensures Executed(Executed(t, all[..k]), all[k..]) == Executed(t, all)
  {
    ExecutedInTwo(t, all[..k], all[k..]);
    assert all[..k] + all[k..] == all;
  }

  lemma CutInLast(t: Tables, front: seq<Call>, c: Call, k: nat)
    requires Constraints(t) && LegalInTurn(t, front) && Legal(OnPostgres(t, front).0, c)
    requires 0 < k <= |DuckDBStatements(c)|
    ensures Constraints(Executed(t, Statements(front) + DuckDBStatements(c)[..k]))
  {
    SequencesAgree(t, front);
    StatementsAreCalls(t, front);
    ExecutedInTwo(t, Statements(front), DuckDBStatements(c)[..k]);
    var mid := OnPostgres(t, front).0;
    BackendsAgree(mid, c);
    OneCall(mid, c);
    assert Executed(mid, DuckDBStatements(c)[..k - 1 + 1]) == DuckDBStates(mid, c)[k - 1];
  }

  // -------------------------------------------------------------- the protocol's calls

  function Issued(c: Option<Call>): seq<Call> {
    if c.Some? then [c.value] else []
  }

  /** The writing calls the first i steps of a run issue to the catalog. */
  function CallsOf(ws: seq<World>, ls: seq<Label>, i: nat): seq<Call>
    requires i <= |ls| < |ws|
  {
    if i == 0 then []
    else CallsOf(ws, ls, i - 1) + Issued(LabelCall(ws[i - 1], ls[i - 1]))
  }

  const EMPTY := Tables(map[], map[], map[], 1)

  lemma {:induction false} CallsAreLegal(env: Env, ws: seq<World>, ls: seq<Label>, i: nat, calls: seq<Call>)
    requires Run(env, ws, ls) && Init(ws[0]) && i <= |ls| && calls == CallsOf(ws, ls, i)
    ensures LegalInTurn(EMPTY, calls)
    ensures OnPostgres(EMPTY, calls).0 == ws[i].store.tables
    decreases i
  {
    if i == 0 {
      NoCalls(EMPTY);
    } else {
      var before := CallsOf(ws, ls, i - 1);
      CallsAreLegal(env, ws, ls, i - 1, before);
      OneMoreStep(env, ws, ls, i - 1, before, calls);
    }
  }

  lemma NoCalls(t: Tables)
    ensures LegalInTurn(t, []) && OnPostgres(t, []).0 == t
  {
  }

  lemma OneMoreStep(env: Env, ws: seq<World>, ls: seq<Label>, i: nat, calls: seq<Call>, more: seq<Call>)
    requires Run(env, ws, ls) && Init(ws[0]) && i < |ls|
    requires LegalInTurn(EMPTY, calls) && OnPostgres(EMPTY, calls).0 == ws[i].store.tables
    requires more == calls + Issued(LabelCall(ws[i], ls[i]))
    ensures LegalInTurn(EMPTY, more)
    ensures OnPostgres(EMPTY, more).0 == ws[i + 1].store.tables
  {
    StepIsLegal(env, ws, ls, i);
    LegalMore(EMPTY, calls, LabelCall(ws[i], ls[i]));
  }

  lemma StepIsLegal(env: Env, ws: seq<World>, ls: seq<Label>, i: nat)
    requires Run(env, ws, ls) && Init(ws[0]) && i < |ls|
    ensures LabelCall(ws[i], ls[i]).Some? ==> Legal(ws[i].store.tables, LabelCall(ws[i], ls[i]).value)
    ensures ws[i + 1].store.tables ==
            if LabelCall(ws[i], ls[i]).Some? then Postgres(ws[i].store.tables, LabelCall(ws[i], ls[i]).value).0
            else ws[i].store.tables
  {
    RunStep(env, ws, ls, i);
    StepTables(env, ws[i], ls[i]);
    if LabelCall(ws[i], ls[i]).Some? {
      Reachable(env, ws, ls, i);
      StepCallIsLegal(env, ws[i], ls[i]);
    }
  }

  lemma LegalMore(t: Tables, calls: seq<Call>, c: Option<Call>)
    requires LegalInTurn(t, calls) && (c.Some? ==> Legal(OnPostgres(t, calls).0, c.value))
    ensures LegalInTurn(t, calls + Issued(c))
    ensures OnPostgres(t, calls + Issued(c)).0 ==
            if c.Some? then Postgres(OnPostgres(t, calls).0, c.value).0 else OnPostgres(t, calls).0
  {
    if c.Some? {
      LegalNext(t, calls, c.value);
    } else {
      assert calls + [] == calls;
    }
  }

  lemma LegalNext(t: Tables, calls: seq<Call>, c: Call)
    requires LegalInTurn(t, calls) && Legal(OnPostgres(t, calls).0, c)
    ensures LegalInTurn(t, calls + [c]) && OnPostgres(t, calls + [c]).0 == Postgres(OnPostgres(t, calls).0, c).0
  {
    var more := calls + [c];
    assert more[..|more| - 1] == calls;
    forall i | 0 <= i < |more| ensures Legal(OnPostgres(t, more[..i]).0, more[i]) {
      assert i < |calls| ==> more[..i] == calls[..i];
    }
  }

  /**
   * The protocol on a DuckDB file. In every run, with any writers, recoverers
   * and crashes, the calls issued so far, answered by a DuckDB store that
   * started empty, get the replies Postgres gives and leave the same tables;
   * and a crash between any two of its statements leaves every constraint.
   */
  lemma EveryRunOnDuckDB(env: Env, ws: seq<World>, ls: seq<Label>, i: nat)
    requires Run(env, ws, ls) && Init(ws[0]) && i <= |ls|
    ensures OnDuckDB(EMPTY, CallsOf(ws, ls, i)) == OnPostgres(EMPTY, CallsOf(ws, ls, i))
    ensures OnDuckDB(EMPTY, CallsOf(ws, ls, i)).0 == ws[i].store.tables
    ensures forall k | 0 <= k <= |Statements(CallsOf(ws, ls, i))| ::
              Constraints(Executed(EMPTY, Statements(CallsOf(ws, ls, i))[..k]))
  {
    var calls := CallsOf(ws, ls, i);
    CallsAreLegal(env, ws, ls, i, calls);
    SequencesAgree(EMPTY, calls);
    forall k | 0 <= k <= |Statements(calls)| ensures Constraints(Executed(EMPTY, Statements(calls)[..k])) {
      CutAnywhere(EMPTY, calls, k);
    }
  }
}
