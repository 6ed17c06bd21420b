// bind_as_variables and _sql_literal: rewriting the placeholders of a SQL text
// without touching its string literals.
module Binding {
  import opened Wrappers
  import opened Names

  /** The session variable that carries parameter n. */
  function Variable(n: nat): string {
    "_mesa_p" + Decimal(n)
  }

  function Placeholder(n: nat): string {
    InQuotes("getvariable(", Variable(n), ")")
  }

  function InQuotes(open: string, text: string, close: string): string {
    open + ("'" + (text + ("'" + close)))
  }

  /** Inside a string literal: every quote flips it. */
  predicate InString(before: string) {
    before != [] && InString(before[..|before| - 1]) != (before[|before| - 1] == '\'')
  }

  predicate Unquoted(sql: string, i: nat)
    requires i < |sql|
  {
    sql[i] == '?' && !InString(sql[..i])
  }

  /** How many placeholders a text has. */
  function Placeholders(sql: string): nat {
    if sql == [] then 0 else
      Placeholders(sql[..|sql| - 1]) + if Unquoted(sql, |sql| - 1) then 1 else 0
  }

  /** What stands for the character at i: itself, or the next variable. */
  function Piece(sql: string, i: nat): string
    requires i < |sql|
  {
    if Unquoted(sql, i) then Placeholder(Placeholders(sql[..i])) else [sql[i]]
  }

  function Bound(sql: string): string {
    if sql == [] then [] else Bound(sql[..|sql| - 1]) + Piece(sql, |sql| - 1)
  }

  /** The scanner: one pass, three variables. None is the ValueError. */
  method BindAsVariables(sql: string, params: nat) returns (r: Option<string>)
    ensures r == if Placeholders(sql) == params then Some(Bound(sql)) else None
  {
    var out, n, inString := "", 0, false;
    for i := 0 to |sql|
      invariant out == Bound(sql[..i])
      invariant n == Placeholders(sql[..i])
      invariant inString <==> InString(sql[..i])
    {
      assert sql[..i + 1][..i] == sql[..i];
      var ch := sql[i];
      if ch == '\'' {
        inString := !inString;
      }
      if ch == '?' && !inString {
        out := out + Placeholder(n);
        n := n + 1;
      } else {
        out := out + [ch];
      }
    }
    assert sql[..|sql|] == sql;
    if n != params {
      return None;
    }
    r := Some(out);
  }

  // ------------------------------------------------------------------------ quotes

  lemma {:induction false} InStringOfSum(a: string, b: string)
    ensures InString(a + b) <==> InString(a) != InString(b)
  {
    if b == [] {
      assert a + b == a;
    } else {
      InStringOfSum(a, b[..|b| - 1]);
      assert (a + b)[..|a + b| - 1] == a + b[..|b| - 1];
    }
  }

  /** No quote and no question mark. */
  predicate Plain(s: string) {
    forall i | 0 <= i < |s| :: s[i] != '\'' && s[i] != '?'
  }

  lemma {:induction false} PlainIsBalanced(s: string)
    requires Plain(s)
    ensures !InString(s)
  {
    if s != [] { PlainIsBalanced(s[..|s| - 1]); }
  }

  lemma {:induction false} DecimalIsPlain(n: nat)
    ensures Plain(Decimal(n))
  {
    if n >= 10 { DecimalIsPlain(n / 10); }
  }

  lemma InStringOfOne(c: char)
    ensures InString([c]) <==> c == '\''
  {
    assert [c][..0] == [];
  }

  lemma InQuotesIsBalanced(open: string, text: string, close: string)
    requires Plain(open) && Plain(text) && Plain(close)
    ensures !InString(InQuotes(open, text, close))
  {
    PlainIsBalanced(open);
    PlainIsBalanced(text);
    PlainIsBalanced(close);
    InStringOfOne('\'');
    InStringOfSum("'", close);
    InStringOfSum(text, "'" + close);
    InStringOfSum("'", text + ("'" + close));
    InStringOfSum(open, "'" + (text + ("'" + close)));
  }

  lemma PlaceholderIsBalanced(n: nat)
    ensures !InString(Placeholder(n)) && '?' !in Placeholder(n)
  {
    DecimalIsPlain(n);
    InQuotesIsBalanced("getvariable(", Variable(n), ")");
  }

  /** Quote parity is preserved at every boundary. */
  lemma {:induction false} ParityKept(sql: string)
    ensures InString(Bound(sql)) <==> InString(sql)
  {
    if sql != [] {
      var front := sql[..|sql| - 1];
      ParityKept(front);
      InStringOfSum(Bound(front), Piece(sql, |sql| - 1));
      PlaceholderIsBalanced(Placeholders(front));
      InStringOfOne(sql[|sql| - 1]);
    }
  }

  // --------------------------------------------------------------- what the rewrite is

  lemma {:induction false} BoundPrefix(sql: string, i: nat)
    requires i <= |sql|
    ensures Bound(sql[..i]) <= Bound(sql)
    ensures Placeholders(sql[..i]) <= Placeholders(sql)
  {
    if i == |sql| {
      assert sql[..i] == sql;
    } else {
      BoundPrefix(sql[..|sql| - 1], i);
      assert sql[..|sql| - 1][..i] == sql[..i];
    }
  }

  /**
   * Every character keeps its place: at the boundary before character i the
   * output carries on with the character itself, or, at the k-th unquoted
   * placeholder, with variable k.
   */
  lemma {:induction false} EachCharacter(sql: string, i: nat)
    requires i < |sql|
    ensures !Unquoted(sql, i) ==> Bound(sql[..i]) + [sql[i]] <= Bound(sql)
    ensures Unquoted(sql, i) ==>
              && Bound(sql[..i]) + Placeholder(Placeholders(sql[..i])) <= Bound(sql)
              && Placeholders(sql[..i]) < Placeholders(sql)
  {
    var next := sql[..i + 1];
    assert next[..i] == sql[..i];
    assert Bound(next) == Bound(sql[..i]) + Piece(next, i);
    BoundPrefix(sql, i + 1);
  }

  /** A text without unquoted placeholders binds to itself. */
  lemma {:induction false} NothingToBind(sql: string)
    requires Placeholders(sql) == 0
    ensures Bound(sql) == sql
  {
    if sql != [] {
      NothingToBind(sql[..|sql| - 1]);
      assert sql == sql[..|sql| - 1] + [sql[|sql| - 1]];
    }
  }

  lemma {:induction false} NoMarksNoPlaceholders(a: string, b: string)
    requires '?' !in b
    ensures Placeholders(a + b) == Placeholders(a)
  {
    if b == [] {
      assert a + b == a;
    } else {
      NoMarksNoPlaceholders(a, b[..|b| - 1]);
      assert (a + b)[..|a + b| - 1] == a + b[..|b| - 1];
    }
  }

  /** The output has no placeholder left. */
  lemma {:induction false} NoneLeft(sql: string)
    ensures Placeholders(Bound(sql)) == 0
  {
    if sql != [] {
      var n := |sql| - 1;
      NoneLeft(sql[..n]);
      ParityKept(sql[..n]);
      if Unquoted(sql, n) {
        PlaceholderIsBalanced(Placeholders(sql[..n]));
        NoMarksNoPlaceholders(Bound(sql[..n]), Placeholder(Placeholders(sql[..n])));
      } else {
        var out := Bound(sql[..n]) + [sql[n]];
        assert out[..|out| - 1] == Bound(sql[..n]);
      }
    }
  }

  /** Binding again, with no parameters, changes nothing. */
  lemma RebindsToItself(sql: string)
    ensures Placeholders(Bound(sql)) == 0 && Bound(Bound(sql)) == Bound(sql)
  {
    NoneLeft(sql);
    NothingToBind(Bound(sql));
  }

  // ----------------------------------------------------------------------- literals

  /** text.replace("'", "''"). */
  function Doubled(text: string): string {
    if text == [] then [] else Escaped(text[0]) + Doubled(text[1..])
  }

  function SqlLiteral(text: string): string {
    "'" + Doubled(text) + "'"
  }

  /** How SQL reads the inside of a literal: two quotes are one, a single quote ends it. */
  function ReadBody(s: string): Option<(string, string)> {
    if s == [] then None
    else if s[0] != '\'' then
      var rest := ReadBody(s[1..]);
      if rest.None? then None else Some(([s[0]] + rest.value.0, rest.value.1))
    else if |s| >= 2 && s[1] == '\'' then
      var rest := ReadBody(s[2..]);
      if rest.None? then None else Some(("'" + rest.value.0, rest.value.1))
    else Some(("", s[1..]))
  }

  function ReadLiteral(s: string): Option<(string, string)> {
    if s == [] || s[0] != '\'' then None else ReadBody(s[1..])
  }

  lemma {:induction false} BodyReadsBack(text: string, rest: string)
    requires rest == [] || rest[0] != '\''
    ensures ReadBody(Doubled(text) + "'" + rest) == Some((text, rest))
  {
    var s := Doubled(text) + "'" + rest;
    if text == [] {
      assert s == "'" + rest;
    } else {
      BodyReadsBack(text[1..], rest);
      var tail := Doubled(text[1..]) + "'" + rest;
      if text[0] == '\'' {
        assert s == "''" + tail && s[2..] == tail;
        assert text == "'" + text[1..];
      } else {
        assert s == [text[0]] + tail && s[1..] == tail;
        assert text == [text[0]] + text[1..];
      }
    }
  }

  lemma {:induction false} DoubledIsBalanced(text: string)
    ensures !InString(Doubled(text))
  {
    if text != [] {
      DoubledIsBalanced(text[1..]);
      EscapedIsBalanced(text[0]);
      InStringOfSum(Escaped(text[0]), Doubled(text[1..]));
    }
  }

  lemma EscapedIsBalanced(c: char)
    ensures !InString(Escaped(c))
  {
    InStringOfOne(c);
    InStringOfSum("'", "'");
    assert "''" == "'" + "'";
  }

  lemma LiteralIsBalanced(text: string)
    ensures !InString(SqlLiteral(text))
  {
    DoubledIsBalanced(text);
    InStringOfOne('\'');
    InStringOfSum("'", Doubled(text));
    InStringOfSum("'" + Doubled(text), "'");
  }

  lemma Associate(a: string, b: string, c: string)
    ensures a + (b + c) == a + b + c
  {
  }

  function Escaped(c: char): string {
    if c == '\'' then "''" else [c]
  }

  /** Inside a literal nothing is a placeholder. */
  lemma {:induction false} StaysInString(before: string, text: string)
    requires InString(before)
    ensures Bound(before + Doubled(text)) == Bound(before) + Doubled(text)
    ensures InString(before + Doubled(text))
    decreases text
  {
    if text == [] {
      assert before + [] == before;
    } else {
      var head, tail := Escaped(text[0]), Doubled(text[1..]);
      EscapedIsBalanced(text[0]);
      InStringOfSum(before, head);
      PassesHead(before, text[0]);
      StaysInString(before + head, text[1..]);
      Associate(before, head, tail);
      Associate(Bound(before), head, tail);
    }
  }

  lemma PassesOne(before: string, c: char)
    requires c == '?' ==> InString(before)
    ensures Bound(before + [c]) == Bound(before) + [c]
  {
    assert (before + [c])[..|before|] == before;
  }

  lemma PassesHead(before: string, c: char)
    requires InString(before)
    ensures Bound(before + Escaped(c)) == Bound(before) + Escaped(c)
  {
    PassesOne(before, c);
    if c == '\'' {
      PassesQuote(before);
      PassesQuote(before + "'");
      assert "''" == "'" + "'";
      Associate(before, "'", "'");
      Associate(Bound(before), "'", "'");
    }
  }

  lemma PassesQuote(before: string)
    ensures Bound(before + "'") == Bound(before) + "'"
  {
    PassesOne(before, '\'');
  }

  /**
   * A literal, wherever it is spliced into a statement, passes through the
   * rewrite unchanged and leaves the quoting as it was.
   */
  lemma LiteralPasses(before: string, text: string)
    requires !InString(before)
    ensures Bound(before + SqlLiteral(text)) == Bound(before) + SqlLiteral(text)
    ensures !InString(before + SqlLiteral(text))
  {
    var body := Doubled(text);
    LiteralIsBalanced(text);
    InStringOfSum(before, SqlLiteral(text));
    OpensString(before);
    PassesQuote(before);
    StaysInString(before + "'", text);
    PassesQuote(before + "'" + body);
    Associate(before, "'", body);
    Associate(before, "'" + body, "'");
    Associate(Bound(before), "'", body);
    Associate(Bound(before), "'" + body, "'");
  }

  lemma OpensString(before: string)
    ensures InString(before + "'") <==> !InString(before)
  {
    InStringOfOne('\'');
    InStringOfSum(before, "'");
  }

  /** SQL reads a literal back as the text it was made from, and no further. */
  lemma LiteralReadsBack(text: string, rest: string)
    requires rest == [] || rest[0] != '\''
    ensures ReadLiteral(SqlLiteral(text) + rest) == Some((text, rest))
  {
    BodyReadsBack(text, rest);
    assert (SqlLiteral(text) + rest)[1..] == Doubled(text) + "'" + rest;
  }

  // ----------------------------------------------------- what a placeholder reads

  lemma {:induction false} DoubledPlain(text: string)
    requires Plain(text)
    ensures Doubled(text) == text
  {
    if text != "" {
      DoubledPlain(text[1..]);
      assert text == [text[0]] + text[1..];
    }
  }

  lemma VariableInjective(m: nat, n: nat)
    ensures Variable(m) == Variable(n) ==> m == n
  {
    assert Variable(m)[7..] == Decimal(m) && Variable(n)[7..] == Decimal(n);
    if Decimal(m) == Decimal(n) { DecimalInjective(m, n); }
  }

  /** Reading getvariable('name') at the start of a text: the name, and what follows. */
  function GetVariable(s: string): Option<(string, string)> {
    if |s| < 12 || s[..12] != "getvariable(" then None else
      var literal := ReadLiteral(s[12..]);
      if literal.None? || literal.value.1 == "" || literal.value.1[0] != ')' then None
      else Some((literal.value.0, literal.value.1[1..]))
  }

  lemma GetVariableOf(tail: string, name: string, rest: string)
    requires ReadLiteral(tail) == Some((name, ")" + rest))
    ensures GetVariable("getvariable(" + tail) == Some((name, rest))
  {
    var s := "getvariable(" + tail;
    assert s[..12] == "getvariable(" && s[12..] == tail;
    assert (")" + rest)[1..] == rest;
  }

  lemma InQuotesParts(open: string, text: string, close: string, rest: string)
    ensures InQuotes(open, text, close) + rest == open + ("'" + text + "'" + (close + rest))
  {
  }

  lemma PlaceholderReads(n: nat, rest: string)
    ensures GetVariable(Placeholder(n) + rest) == Some((Variable(n), rest))
  {
    DecimalIsPlain(n);
    DoubledPlain(Variable(n));
    LiteralReadsBack(Variable(n), ")" + rest);
    InQuotesParts("getvariable(", Variable(n), ")", rest);
    GetVariableOf(SqlLiteral(Variable(n)) + (")" + rest), Variable(n), rest);
  }

  /** Distinct parameters have distinct placeholders, each spelling its own variable. */
  lemma PlaceholderSpells(m: nat, n: nat)
    ensures Placeholder(n) == "getvariable(" + ("'" + ("_mesa_p" + Decimal(n)) + "'" + ")")
    ensures Placeholder(m) == Placeholder(n) ==> m == n
  {
    InQuotesParts("getvariable(", Variable(n), ")", "");
    assert Placeholder(n) + "" == Placeholder(n) && ")" + "" == ")";
    PlaceholderReads(m, "");
    PlaceholderReads(n, "");
    VariableInjective(m, n);
  }

  /** The variables of a cursor on which the parameters have been set, one by one. */
  function Variables<V>(params: seq<V>): map<string, V> {
    if params == [] then map[] else
      var n := |params| - 1;
      Variables(params[..n])[Variable(n) := params[n]]
  }

  lemma {:induction false} VariablesHold<V>(params: seq<V>, k: nat)
    requires k < |params|
    ensures Variable(k) in Variables(params) && Variables(params)[Variable(k)] == params[k]
  {
    var n := |params| - 1;
    if k < n {
      VariablesHold(params[..n], k);
      VariableInjective(k, n);
    }
  }

  function QuotesBefore(sql: string, i: nat): set<nat>
    requires i <= |sql|
  {
    set j | 0 <= j < i && sql[j] == '\''
  }

  /** The question marks before i that an even number of quotes precedes. */
  function MarksBefore(sql: string, i: nat): set<nat>
    requires i <= |sql|
  {
    set j | 0 <= j < i && sql[j] == '?' && |QuotesBefore(sql, j)| % 2 == 0
  }

  /** The scanner is inside a literal when it has passed an odd number of quotes. */
  lemma {:induction false} QuotesCounted(sql: string, i: nat)
    requires i <= |sql|
    ensures InString(sql[..i]) <==> |QuotesBefore(sql, i)| % 2 == 1
  {
    if i > 0 {
      QuotesCounted(sql, i - 1);
      assert sql[..i][..i - 1] == sql[..i - 1];
      if sql[i - 1] == '\'' {
        assert QuotesBefore(sql, i) == QuotesBefore(sql, i - 1) + {i - 1};
      } else {
        assert QuotesBefore(sql, i) == QuotesBefore(sql, i - 1);
      }
    }
  }

  /** The scanner counts the question marks outside string literals. */
  lemma {:induction false} PlaceholdersCounted(sql: string, i: nat)
    requires i <= |sql|
    ensures Placeholders(sql[..i]) == |MarksBefore(sql, i)|
  {
    if i > 0 {
      PlaceholdersCounted(sql, i - 1);
      QuotesCounted(sql, i - 1);
      assert sql[..i][..i - 1] == sql[..i - 1];
      if sql[i - 1] == '?' && |QuotesBefore(sql, i - 1)| % 2 == 0 {
        assert MarksBefore(sql, i) == MarksBefore(sql, i - 1) + {i - 1};
      } else {
        assert MarksBefore(sql, i) == MarksBefore(sql, i - 1);
      }
    }
  }

  /**
   * Binding is faithful. With the parameters set as session variables, what the
   * bound text reads in the place of the k-th question mark outside string
   * literals is parameter k.
   */
  lemma ReadsItsParameter<V>(sql: string, params: seq<V>, i: nat)
    requires i < |sql| && i in MarksBefore(sql, i + 1) && |MarksBefore(sql, |sql|)| == |params|
    ensures |Bound(sql[..i])| <= |Bound(sql)| && |MarksBefore(sql, i)| < |params|
    ensures var read := GetVariable(Bound(sql)[|Bound(sql[..i])|..]);
            && read.Some? && read.value.0 in Variables(params)
            && Variables(params)[read.value.0] == params[|MarksBefore(sql, i)|]
  {
    assert sql[..|sql|] == sql;
    QuotesCounted(sql, i);
    PlaceholdersCounted(sql, i);
    PlaceholdersCounted(sql, |sql|);
    EachCharacter(sql, i);
    var k, at := Placeholders(sql[..i]), |Bound(sql[..i])|;
    var after := Bound(sql)[at + |Placeholder(k)|..];
    assert Bound(sql)[at..] == Placeholder(k) + after;
    PlaceholderReads(k, after);
    VariablesHold(params, k);
  }
}
