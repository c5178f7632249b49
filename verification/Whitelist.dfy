/** The whitelist of the query builder (internal/gateway/querybuilder.go) is written as regular
    expressions. This module gives regular expressions their meaning, spells out the four of the
    source, and proves that the builder's predicates accept exactly the texts that these match. */
module Whitelist {
  import opened Strings
  import opened SqlLexer
  import opened SqlPieces
  import opened QueryBuilder

  datatype Regex =
    | Text(text: string)
    | Class(ranges: seq<(char, char)>)
    | Then(first: Regex, second: Regex)
    | Or(left: Regex, right: Regex)
    | Many(body: Regex)

  predicate InClass(ranges: seq<(char, char)>, c: char) { exists r | r in ranges :: r.0 <= c <= r.1 }

  /** The expression matches the whole text. */
  ghost predicate Matches(re: Regex, s: string)
    decreases re, |s|
  {
    match re
    case Text(t) => s == t
    case Class(rs) => |s| == 1 && InClass(rs, s[0])
    case Then(a, b) => exists k | 0 <= k <= |s| :: Matches(a, s[..k]) && Matches(b, s[k..])
    case Or(a, b) => Matches(a, s) || Matches(b, s)
    case Many(a) => s == [] || exists k | 0 < k <= |s| :: Matches(a, s[..k]) && Matches(re, s[k..])
  }

  function Maybe(re: Regex): Regex { Or(Text(""), re) }

  // ---- The expressions of the source ----

  const START := Class([('A', 'Z'), ('a', 'z'), ('_', '_')])
  const PART := Class([('A', 'Z'), ('a', 'z'), ('0', '9'), ('_', '_')])
  const WORD := Then(START, Many(PART))

  /** aliasRE */
  const ALIAS := WORD

  /** identifierRE */
  const IDENTIFIER := Then(WORD, Maybe(Then(Text("."), WORD)))

  const AS_WORD := Then(Text(" AS "), WORD)

  /** selectColRE */
  const SELECT_COLUMN := Then(IDENTIFIER, Maybe(AS_WORD))

  const AGGREGATE := Or(Text("COUNT"), Or(Text("SUM"), Or(Text("AVG"), Or(Text("MIN"), Text("MAX")))))
  const ARGUMENT := Or(IDENTIFIER, Text("*"))

  const CALL := Then(AGGREGATE, Then(Text("("), Then(ARGUMENT, Text(")"))))

  /** selectAggRE */
  const SELECT_AGGREGATE := Then(CALL, Maybe(AS_WORD))

  // ---- Matching, one construct at a time ----

  lemma ThenMatches(a: Regex, b: Regex, x: string, y: string)
    requires Matches(a, x) && Matches(b, y)
    ensures Matches(Then(a, b), x + y)
  {
    var s := x + y;
    assert s[..|x|] == x && s[|x|..] == y;
  }

  lemma ThenSplits(a: Regex, b: Regex, s: string) returns (x: string, y: string)
    requires Matches(Then(a, b), s)
    ensures s == x + y && Matches(a, x) && Matches(b, y)
  {
    var k :| 0 <= k <= |s| && Matches(a, s[..k]) && Matches(b, s[k..]);
    x, y := s[..k], s[k..];
  }

  lemma StartIs(c: char)
    ensures InClass([('A', 'Z'), ('a', 'z'), ('_', '_')], c) <==> IsIdentStart(c)
  {
    var rs := [('A', 'Z'), ('a', 'z'), ('_', '_')];
    assert rs[0] in rs && rs[1] in rs && rs[2] in rs;
  }

  lemma PartIs(c: char)
    ensures InClass([('A', 'Z'), ('a', 'z'), ('0', '9'), ('_', '_')], c) <==> IsIdentPart(c)
  {
    var rs := [('A', 'Z'), ('a', 'z'), ('0', '9'), ('_', '_')];
    assert rs[0] in rs && rs[1] in rs && rs[2] in rs && rs[3] in rs;
  }

  lemma {:induction false} PartsMatch(s: string)
    ensures Matches(Many(PART), s) <==> forall c | c in s :: IsIdentPart(c)
    decreases |s|
  {
    if s != [] {
      PartIs(s[0]);
      PartsMatch(s[1..]);
      assert s == [s[0]] + s[1..] && s[..1] == [s[0]];
      if Matches(Many(PART), s) {
        var k :| 0 < k <= |s| && Matches(PART, s[..k]) && Matches(Many(PART), s[k..]);
        assert k == 1 && s[..k][0] == s[0];
      }
      if forall c | c in s :: IsIdentPart(c) {
        assert Matches(PART, s[..1]) && Matches(Many(PART), s[1..]);
      }
    }
  }

  /** aliasRE */
  lemma AliasIff(s: string)
    ensures IsAlias(s) <==> Matches(ALIAS, s)
  {
    hide InClass;
    if s != [] {
      StartIs(s[0]);
      PartsMatch(s[1..]);
      assert s[..1] == [s[0]] && s == [s[0]] + s[1..];
      StartIsPart(s[0]);
    }
    if Matches(WORD, s) {
      var k :| 0 <= k <= |s| && Matches(START, s[..k]) && Matches(Many(PART), s[k..]);
      assert k == 1 && s[..k][0] == s[0];
    }
    if IsAlias(s) {
      assert Matches(START, s[..1]);
      assert Matches(Many(PART), s[1..]);
    }
  }

  lemma StartIsPart(c: char) ensures IsIdentStart(c) ==> IsIdentPart(c) {}

  lemma MaybeIs(re: Regex, s: string)
    ensures Matches(Maybe(re), s) <==> s == "" || Matches(re, s)
  {
  }

  /** A text, then an expression. */
  lemma TextThen(t: string, re: Regex, s: string)
    ensures Matches(Then(Text(t), re), s) <==> |t| <= |s| && s[..|t|] == t && Matches(re, s[|t|..])
  {
  }

  lemma TextIs(t: string) ensures Matches(Text(t), t) {}

  lemma DottedMatches(a: string, b: string)
    requires IsAlias(a) && IsAlias(b)
    ensures Matches(IDENTIFIER, a + ("." + b)) && Matches(IDENTIFIER, a)
  {
    hide IsAlias, Matches;
    var tail := Then(Text("."), WORD);
    AliasIff(a);
    AliasIff(b);
    TextIs(".");
    ThenMatches(Text("."), WORD, ".", b);
    MaybeIs(tail, "." + b);
    ThenMatches(WORD, Maybe(tail), a, "." + b);
    MaybeIs(tail, "");
    ThenMatches(WORD, Maybe(tail), a, "");
    assert a + "" == a;
  }

  lemma MatchesDotted(s: string)
    requires Matches(IDENTIFIER, s)
    ensures SafeIdent(s)
  {
    hide Matches, IsAlias;
    var tail := Then(Text("."), WORD);
    var x, y := ThenSplits(WORD, Maybe(tail), s);
    MaybeIs(tail, y);
    AliasIff(x);
    if y == "" {
      assert s == x;
    } else {
      TextThen(".", WORD, y);
      AliasIff(y[1..]);
      assert y[..1][0] == y[0] && s[..|x|] == x && s[|x|] == y[0] && s[|x| + 1..] == y[1..];
      AliasNotEmpty(x);
      AliasNotEmpty(y[1..]);
    }
  }

  /** identifierRE */
  lemma IdentifierIff(s: string)
    ensures SafeIdent(s) <==> Matches(IDENTIFIER, s)
  {
    hide Matches, IsAlias;
    if SafeIdent(s) {
      if IsAlias(s) {
        DottedMatches(s, s);
      } else {
        var i :| 0 < i < |s| && s[i] == '.' && IsAlias(s[..i]) && IsAlias(s[i + 1..]);
        DottedMatches(s[..i], s[i + 1..]);
        assert s == s[..i] + ("." + s[i + 1..]);
      }
    }
    if Matches(IDENTIFIER, s) { MatchesDotted(s); }
  }

  lemma AliasNotEmpty(x: string) ensures IsAlias(x) ==> x != [] {}

  lemma AsWordIff(s: string)
    ensures Matches(AS_WORD, s) <==> |s| >= 4 && s[..4] == " AS " && IsAlias(s[4..])
  {
    TextThen(" AS ", WORD, s);
    if |s| >= 4 { AliasIff(s[4..]); }
  }

  /** An expression that may be followed by an alias. */
  lemma AliasedIff(re: Regex, s: string)
    ensures Matches(Then(re, Maybe(AS_WORD)), s)
        <==> Matches(re, s) || exists i | 0 <= i < |s| :: AliasAt(s, i) && Matches(re, s[..i])
  {
    hide IsAlias, Matches;
    if Matches(Then(re, Maybe(AS_WORD)), s) {
      var x, y := ThenSplits(re, Maybe(AS_WORD), s);
      MaybeIs(AS_WORD, y);
      AsWordIff(y);
      if y == "" { assert s == x; } else { AliasedAt(x, y); }
    }
    if Matches(re, s) {
      MaybeIs(AS_WORD, "");
      ThenMatches(re, Maybe(AS_WORD), s, "");
      assert s + "" == s;
    }
    if i :| 0 <= i < |s| && AliasAt(s, i) && Matches(re, s[..i]) {
      var y := s[i..];
      assert y[..4] == s[i..i + 4] && y[4..] == s[i + 4..];
      AsWordIff(y);
      MaybeIs(AS_WORD, y);
      ThenMatches(re, Maybe(AS_WORD), s[..i], y);
      assert s == s[..i] + y;
    }
  }

  lemma AliasedAt(x: string, y: string)
    requires |y| >= 4 && y[..4] == " AS " && IsAlias(y[4..])
    ensures var s := x + y; AliasAt(s, |x|) && s[..|x|] == x && |x| < |s|
  {
    hide IsAlias;
    var s := x + y;
    assert s[|x|..|x| + 4] == y[..4] && s[|x| + 4..] == y[4..];
  }

  /** selectColRE */
  lemma SelectColumnIff(s: string)
    ensures SelectColumn(s) <==> Matches(SELECT_COLUMN, s)
  {
    hide SafeIdent, AliasAt, Matches;
    AliasedIff(IDENTIFIER, s);
    IdentifierIff(s);
    forall i | 0 <= i < |s| ensures SafeIdent(s[..i]) <==> Matches(IDENTIFIER, s[..i]) { IdentifierIff(s[..i]); }
  }

  lemma ArgumentIff(s: string)
    ensures Matches(ARGUMENT, s) <==> s == "*" || SafeIdent(s)
  {
    IdentifierIff(s);
    hide SafeIdent;
  }

  lemma TextEnds(re: Regex, t: string, s: string)
    ensures Matches(Then(re, Text(t)), s)
        <==> |t| <= |s| && s[|s| - |t|..] == t && Matches(re, s[..|s| - |t|])
  {
    if Matches(Then(re, Text(t)), s) {
      var x, y := ThenSplits(re, Text(t), s);
      assert s[|x|..] == y && s[..|x|] == x && y == t;
    }
    if |t| <= |s| && s[|s| - |t|..] == t && Matches(re, s[..|s| - |t|]) {
      ThenMatches(re, Text(t), s[..|s| - |t|], t);
      assert s == s[..|s| - |t|] + t;
    }
  }

  /** A bracketed argument. */
  lemma BracketIff(s: string)
    ensures Matches(Then(Text("("), Then(ARGUMENT, Text(")"))), s)
        <==> |s| >= 2 && s[0] == '(' && s[|s| - 1] == ')' && (s[1..|s| - 1] == "*" || SafeIdent(s[1..|s| - 1]))
  {
    hide SafeIdent, Matches;
    TextThen("(", Then(ARGUMENT, Text(")")), s);
    if |s| >= 1 {
      assert s[..1] == [s[0]];
      TextEnds(ARGUMENT, ")", s[1..]);
      if |s| >= 2 {
        assert s[1..][|s| - 2..] == [s[|s| - 1]] && s[1..][..|s| - 2] == s[1..|s| - 1];
        ArgumentIff(s[1..|s| - 1]);
      }
    }
  }

  lemma CallOfIff(fn: string, s: string)
    ensures CallOf(fn, s) <==> Matches(Then(Text(fn), Then(Text("("), Then(ARGUMENT, Text(")")))), s)
  {
    hide SafeIdent;
    var bracket := Then(Text("("), Then(ARGUMENT, Text(")")));
    TextThen(fn, bracket, s);
    var n := |fn|;
    if n <= |s| {
      var u := s[n..];
      BracketIff(u);
      if n + 2 <= |s| {
        assert u[0] == s[n] && u[|u| - 1] == s[|s| - 1] && u[1..|u| - 1] == s[n + 1..|s| - 1];
        assert s[..n + 1] == s[..n] + [s[n]];
        assert (fn + "(")[..n] == fn && (fn + "(")[n] == '(' && s[..n + 1][..n] == s[..n];
      }
    }
  }

  lemma OrThen(a: Regex, b: Regex, c: Regex, s: string)
    ensures Matches(Then(Or(a, b), c), s) <==> Matches(Then(a, c), s) || Matches(Then(b, c), s)
  {
    if Matches(Then(Or(a, b), c), s) { var x, y := ThenSplits(Or(a, b), c, s); }
    if Matches(Then(a, c), s) { var x, y := ThenSplits(a, c, s); ThenMatches(Or(a, b), c, x, y); }
    if Matches(Then(b, c), s) { var x, y := ThenSplits(b, c, s); ThenMatches(Or(a, b), c, x, y); }
  }

  lemma CallIff(s: string)
    ensures AggCall(s) <==> Matches(CALL, s)
  {
    hide Matches, CallOf;
    var bracket := Then(Text("("), Then(ARGUMENT, Text(")")));
    CallOfIff("COUNT", s);
    CallOfIff("SUM", s);
    CallOfIff("AVG", s);
    CallOfIff("MIN", s);
    CallOfIff("MAX", s);
    OrThen(Text("MIN"), Text("MAX"), bracket, s);
    OrThen(Text("AVG"), Or(Text("MIN"), Text("MAX")), bracket, s);
    OrThen(Text("SUM"), Or(Text("AVG"), Or(Text("MIN"), Text("MAX"))), bracket, s);
    OrThen(Text("COUNT"), Or(Text("SUM"), Or(Text("AVG"), Or(Text("MIN"), Text("MAX")))), bracket, s);
  }

  /** selectAggRE */
  lemma SelectAggregateIff(s: string)
    ensures SelectAggregate(s) <==> Matches(SELECT_AGGREGATE, s)
  {
    hide AggCall, AliasAt, Matches;
    AliasedIff(CALL, s);
    CallIff(s);
    forall i | 0 <= i < |s| ensures AggCall(s[..i]) <==> Matches(CALL, s[..i]) { CallIff(s[..i]); }
  }
}
