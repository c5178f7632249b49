/** What a bound query looks like to the database that reads it: the template's own lexemes with a
    placeholder where each parameter was (internal/connectors/bind.go:18-48). This holds exactly when
    the binder and the database agree on where quotes and comments open. */
module Rereading {
  import opened SqlLexer
  import opened Whitespace
  import opened Strings

  /** PlaceholderForDialect */
  function Placeholder(d: Dialect): nat -> string {
    match d
    case Postgres => (n: nat) => "$" + Itoa(n)
    case SqlServer => (n: nat) => "@p" + Itoa(n)
    case Oracle => (n: nat) => ":" + Itoa(n)
    case _ => (n: nat) => "?"
  }

  /** How the database reads a bound query: its own quoting and comments. A dollar sign is code, as it
      introduces placeholders. */
  function Reader(d: Dialect): Rules { Rules(d, false, true) }

  // ---- Text that is code whatever follows it ----

  predicate CodeChar(c: char) { c !in {'`', '#', '[', '"', '\'', '-', '/', 'q', ':'} }

  lemma CodeCharHead(r: Rules, s: string)
    requires !r.dollar && s != [] && CodeChar(s[0])
    ensures Head(r, s) == Take(Code(s[0]), 1)
  {
  }

  /** The text reads as its characters, and what follows as if it stood alone. */
  ghost predicate ReadsAsCode(r: Rules, t: string, x: string) {
    Lex(r, t + x) == Scan(Spell(t) + Lex(r, x).toks, Lex(r, x).rest)
  }

  lemma CodeConcat(r: Rules, t: string, u: string, x: string)
    requires ReadsAsCode(r, t, u + x) && ReadsAsCode(r, u, x)
    ensures ReadsAsCode(r, t + u, x)
  {
    hide Lex;
    assert t + (u + x) == t + u + x;
    assert Spell(t) + (Spell(u) + Lex(r, x).toks) == Spell(t + u) + Lex(r, x).toks;
  }

  lemma CodeStep(r: Rules, c: char, x: string)
    requires Head(r, [c] + x) == Take(Code(c), 1)
    ensures ReadsAsCode(r, [c], x)
  {
    hide Lex, Head;
    var s := [c] + x;
    ScanCons(r, s);
    assert s[1..] == x && Lex(r, s).toks == [Code(c)] + Lex(r, x).toks && Spell([c]) == [Code(c)];
  }

  lemma {:induction false} CodeRun(r: Rules, t: string, x: string)
    requires !r.dollar && forall c | c in t :: CodeChar(c)
    ensures ReadsAsCode(r, t, x)
  {
    hide Lex, Head, CodeChar;
    if t == [] {
      assert t + x == x && Spell(t) + Lex(r, x).toks == Lex(r, x).toks;
    } else {
      assert t[0] in t && t == [t[0]] + t[1..];
      CodeRun(r, t[1..], x);
      CodeCharHead(r, [t[0]] + (t[1..] + x));
      CodeStep(r, t[0], t[1..] + x);
      CodeConcat(r, [t[0]], t[1..], x);
    }
  }

  lemma DigitsAreCode(n: nat)
    ensures forall c | c in Itoa(n) :: CodeChar(c)
  {
  }

  /** A placeholder is read as code. */
  lemma PlaceholderIsCode(d: Dialect, n: nat, x: string)
    ensures ReadsAsCode(Reader(d), Placeholder(d)(n), x)
    ensures var p := Placeholder(d)(n); p != [] && p[0] in {'$', '@', ':', '?'}
  {
    hide Lex, Itoa, Head;
    var r, digits := Reader(d), Itoa(n);
    DigitsAreCode(n);
    CodeRun(r, digits, x);
    match d {
      case Postgres =>
        CodeRun(r, "$", digits + x);
        CodeConcat(r, "$", digits, x);
      case SqlServer =>
        CodeRun(r, "@p", digits + x);
        CodeConcat(r, "@p", digits, x);
      case Oracle =>
        ColonDigit(r, digits + x);
        CodeStep(r, ':', digits + x);
        assert [':'] == ":";
        CodeConcat(r, ":", digits, x);
      case _ =>
        CodeRun(r, "?", x);
    }
  }

  lemma ColonDigit(r: Rules, x: string)
    requires x != [] && '0' <= x[0] <= '9'
    ensures Head(r, [':'] + x) == Take(Code(':'), 1)
  {
    assert ([':'] + x)[1] == x[0];
  }

  // ---- Lexemes before changed text ----

  /** Text that can stand for `rest`: it begins alike, or with a placeholder for a parameter. */
  predicate StandsFor(x: string, rest: string) {
    && (x == [] <==> rest == [])
    && (rest != [] ==> x[0] == rest[0] || (rest[0] == ':' && x[0] in {'$', '@', ':', '?'}))
    && (rest != [] && rest[0] == '\'' ==> (|x| > 1 <==> |rest| > 1))
  }

  lemma StandsQuote(x: string, rest: string, q: char)
    requires StandsFor(x, rest) && q in {'\'', '"', '`', ']'}
    ensures (x == [] <==> rest == []) && (rest != [] && rest[0] != q ==> x[0] != q)
  {
  }

  lemma {:induction false} QuotedSwap(t: string, rest: string, x: string, q: char)
    requires StandsFor(x, rest) && q in {'\'', '"', '`', ']'} && QuotedLen(t + rest, q) == |t|
    ensures QuotedLen(t + x, q) == |t|
    decreases |t|
  {
    StandsQuote(x, rest, q);
    var u, v := t + rest, t + x;
    if t == [] {
      assert u == rest && v == x;
    } else {
      hide QuotedLen, StandsFor;
      QuotedUnfolds(u, q);
      QuotedUnfolds(v, q);
      assert u[0] == t[0] && v[0] == t[0] && u[1..] == t[1..] + rest && v[1..] == t[1..] + x;
      if t[0] != q {
        QuotedSwap(t[1..], rest, x, q);
      } else if |t| > 1 {
        assert u[1] == t[1] && v[1] == t[1] && u[2..] == t[2..] + rest && v[2..] == t[2..] + x;
        QuotedSwap(t[2..], rest, x, q);
      } else {
        assert rest != [] ==> u[1] == rest[0] && v[1] == x[0];
      }
    }
  }

  lemma {:induction false} LineSwap(t: string, rest: string, x: string)
    requires StandsFor(x, rest) && LineLen(t + rest) == |t|
    ensures LineLen(t + x) == |t|
  {
    if t == [] {
      assert t + rest == rest && t + x == x;
    } else {
      assert (t + rest)[1..] == t[1..] + rest && (t + x)[1..] == t[1..] + x;
      LineSwap(t[1..], rest, x);
    }
  }

  lemma {:induction false} BlockSwap(t: string, rest: string, x: string)
    requires StandsFor(x, rest) && BlockLen(t + rest) == |t|
    ensures BlockLen(t + x) == |t|
  {
    var u, v := t + rest, t + x;
    if t == [] {
      assert u == rest && v == x;
    } else {
      assert u[0] == t[0] && v[0] == t[0] && u[1..] == t[1..] + rest && v[1..] == t[1..] + x;
      if |t| > 1 { assert u[1] == t[1] && v[1] == t[1]; }
      if !(|t| > 1 && t[0] == '*' && t[1] == '/') { BlockSwap(t[1..], rest, x); }
    }
  }

  lemma QQuoteSwap(t: string, rest: string, x: string)
    requires OpensQQuote(t + rest) && |t| > 2 && QQuoteLen(t + rest) == |t|
    ensures OpensQQuote(t + x) && QQuoteLen(t + x) == |t|
  {
    hide FindFrom;
    var u, v := t + rest, t + x;
    assert u[0] == t[0] && u[1] == t[1] && u[2] == t[2] && v[0] == t[0] && v[1] == t[1] && v[2] == t[2];
    var pat := [Closer(t[2]), '\''];
    var i := FindFrom(u, pat, 3);
    assert OccursAt(t, pat, i) by { assert u[i..i + 2] == t[i..i + 2]; }
    var j := FindFrom(t, pat, 3);
    assert j <= |t|;
    FindExtends(t, pat, 3, rest);
    FindExtends(t, pat, 3, x);
  }

  lemma RegionSwap(r: Rules, t: string, rest: string, x: string)
    requires StandsFor(x, rest) && t != [] && !r.dollar && OpensRegion(r, t + rest) && RegionLen(t + rest) == |t|
    ensures OpensRegion(r, t + x) && RegionLen(t + x) == |t|
  {
    hide QuotedLen, LineLen, BlockLen, QQuoteLen, FindFrom;
    var u, v, c := t + rest, t + x, t[0];
    assert u[0] == c && v[0] == c && u[1..] == t[1..] + rest && v[1..] == t[1..] + x;
    if c == '#' || c == '-' {
      if c == '-' { LongLine(u); assert u[1] == t[1] && v[1] == t[1]; }
      LineSwap(t, rest, x);
    } else if c == '/' {
      assert u[1] == t[1] && v[1] == t[1] && u[2..] == t[2..] + rest && v[2..] == t[2..] + x;
      BlockSwap(t[2..], rest, x);
    } else if c == 'q' {
      LongQQuote(u);
      QQuoteSwap(t, rest, x);
    } else {
      QuotedSwap(t[1..], rest, x, if c == '[' then ']' else c);
    }
  }

  lemma LongLine(s: string)
    requires |s| > 1 && s[0] == '-' && s[1] == '-'
    ensures LineLen(s) > 1
  {
    assert s[1..][0] == '-';
  }

  lemma LongQQuote(s: string)
    requires OpensQQuote(s) && QQuoteLen(s) > 0
    ensures QQuoteLen(s) > 2
  {
  }

  lemma CodeSwap(r: Rules, t: string, rest: string, x: string)
    requires StandsFor(x, rest) && t != [] && !r.dollar && !OpensRegion(r, t + rest)
    requires var h := CodeHead(r.named, t + rest); h.len == |t| && !h.lexeme.Param?
    ensures !OpensRegion(r, t + x) && CodeHead(r.named, t + x) == CodeHead(r.named, t + rest)
  {
    var u, v := t + rest, t + x;
    assert u[0] == t[0] && v[0] == t[0];
    if |t| > 1 {
      assert u[1] == t[1] && v[1] == t[1];
    } else if rest != [] {
      assert u[1] == rest[0] && v[1] == x[0];
    }
  }

  lemma HeadSwap(r: Rules, t: string, rest: string, x: string)
    requires StandsFor(x, rest) && t != [] && !r.dollar
    requires var h := Head(r, t + rest); h.Take? && h.len == |t| && !h.lexeme.Param?
    ensures Head(r, t + x) == Head(r, t + rest)
  {
    hide RegionLen, CodeHead, OpensRegion;
    if OpensRegion(r, t + rest) {
      RegionSwap(r, t, rest, x);
      assert (t + x)[..|t|] == t && (t + rest)[..|t|] == t;
    } else {
      CodeSwap(r, t, rest, x);
    }
  }

  // ---- Reading a bound template ----

  lemma BoundStandsFor(d: Dialect, n: nat, b: Rules, s: string)
    requires Lex(b, s).rest == []
    ensures StandsFor(Bound(Placeholder(d), n, Lex(b, s).toks), s)
  {
    hide Lex, RegionLen, Placeholder;
    if s == [] {
      ScanEnd(b, s);
    } else {
      if Head(b, s).Stuck? { ScanEnd(b, s); }
      var h := Head(b, s);
      ScanCons(b, s);
      PlaceholderIsCode(d, n + 1, "");
      var rest := s[h.len..];
      if s[0] == '\'' {
        QuoteLong(s);
        assert h == Take(Opaque(s[..RegionLen(s)]), RegionLen(s));
        if |s| == 1 { ScanEnd(b, rest); }
      }
    }
  }

  lemma QuoteLong(s: string)
    requires s != [] && s[0] == '\''
    ensures 1 <= RegionLen(s) <= |s| && (|s| > 1 ==> RegionLen(s) > 1)
  {
    if |s| > 1 { assert s[1..] != []; }
  }

  /** The lexemes with each parameter replaced by the characters of its placeholder. */
  function Placed(ph: nat -> string, n: nat, toks: seq<Lexeme>): seq<Lexeme>
    decreases |toks|
  {
    if toks == [] then []
    else if toks[0].Param? then Spell(ph(n + 1)) + Placed(ph, n + 1, toks[1..])
    else [toks[0]] + Placed(ph, n, toks[1..])
  }

  /** The database reads the bound text as the binder read the template. */
  ghost predicate Rereads(d: Dialect, n: nat, b: Rules, s: string) {
    var ph, toks := Placeholder(d), Lex(b, s).toks;
    Lex(Reader(d), Bound(ph, n, toks)) == Scan(Placed(ph, n, toks), [])
  }

  lemma SameHead(a: Rules, b: Rules, s: string)
    requires s != [] && a.named == b.named && Special(a, s) == Special(b, s)
    ensures Head(a, s) == Head(b, s)
  {
  }

  lemma RereadParam(d: Dialect, n: nat, b: Rules, s: string)
    requires s != [] && Head(b, s).Take? && Head(b, s).lexeme.Param?
    ensures Rereads(d, n, b, s) <==> Rereads(d, n + 1, b, s[Head(b, s).len..])
  {
    hide Lex, Head, Placeholder;
    var ph, rest := Placeholder(d), s[Head(b, s).len..];
    ScanCons(b, s);
    var toks := Lex(b, rest).toks;
    var x := Bound(ph, n + 1, toks);
    PlaceholderIsCode(d, n + 1, x);
    assert Lex(b, s).toks[1..] == toks;
    var p, y, z := Spell(ph(n + 1)), Lex(Reader(d), x).toks, Placed(ph, n + 1, toks);
    assert (p + y)[|p|..] == y && (p + z)[|p|..] == z;
  }

  lemma RereadSame(d: Dialect, n: nat, b: Rules, s: string)
    requires s != [] && b.named && Head(b, s).Take? && !Head(b, s).lexeme.Param? && Lex(b, s).rest == []
    requires Special(b, s) == Special(Reader(d), s)
    ensures Rereads(d, n, b, s) <==> Rereads(d, n, b, s[Head(b, s).len..])
  {
    var ph, r, h := Placeholder(d), Reader(d), Head(b, s);
    var t, rest := s[..h.len], s[h.len..];
    SameHead(b, r, s);
    hide Lex, Head, Placeholder, Special, StandsFor;
    ScanCons(b, s);
    BoundStandsFor(d, n, b, rest);
    var toks := Lex(b, rest).toks;
    var x := Bound(ph, n, toks);
    assert t + rest == s;
    HeadSwap(r, t, rest, x);
    ScanCons(r, t + x);
    assert (t + x)[h.len..] == x && Lex(b, s).toks[1..] == toks;
    var y, z := Lex(r, x).toks, Placed(ph, n, toks);
    assert Lex(r, t + x).toks == [h.lexeme] + y;
    assert ([h.lexeme] + y)[1..] == y && ([h.lexeme] + z)[1..] == z;
  }

  /** Where only one of the two opens a region, they part. */
  lemma RereadDrift(d: Dialect, n: nat, b: Rules, s: string)
    requires s != [] && b.named && Lex(b, s).rest == [] && Special(b, s) != Special(Reader(d), s)
    ensures !Rereads(d, n, b, s)
  {
    var ph, r := Placeholder(d), Reader(d);
    if Head(b, s).Stuck? { ScanEnd(b, s); }
    var h := Head(b, s);
    var rest := s[h.len..];
    hide Lex, Placeholder, RegionLen;
    ScanCons(b, s);
    var toks := Lex(b, rest).toks;
    var x := Bound(ph, n, toks);
    BoundStandsFor(d, n, b, rest);
    assert !h.lexeme.Param? && Lex(b, s).toks[1..] == toks;
    var text := Text(h.lexeme) + x;
    assert Bound(ph, n, Lex(b, s).toks) == text && text[0] == s[0];
    assert Placed(ph, n, Lex(b, s).toks)[0] == h.lexeme;
    DriftHead(d, b, s, x);
    if Head(r, text).Take? { ScanCons(r, text); } else { ScanEnd(r, text); }
  }

  lemma DriftHead(d: Dialect, b: Rules, s: string, x: string)
    requires s != [] && b.named && Head(b, s).Take? && Special(b, s) != Special(Reader(d), s)
    requires StandsFor(x, s[Head(b, s).len..])
    ensures var h, g := Head(b, s), Head(Reader(d), Text(Head(b, s).lexeme) + x); g.Stuck? || g.lexeme != h.lexeme
  {
    hide RegionLen;
    var h := Head(b, s);
    var text := Text(h.lexeme) + x;
    assert text[0] == s[0];
    if !Special(b, s) {
      assert h == Take(Code(s[0]), 1);
      if s[0] == 'q' { assert text[1] == x[0] && s[1..][0] == s[1]; }
    }
  }

  /** For every template that scans: the database reads the bound text as the template's own lexemes,
      each parameter a placeholder in code position, if and only if the binder and the database agree
      on every opener met. */
  lemma {:induction false} RereadIff(d: Dialect, n: nat, b: Rules, s: string)
    requires b.named && Lex(b, s).rest == []
    ensures Rereads(d, n, b, s) <==> NoDrift(b, Reader(d), s)
    decreases |s|
  {
    var r := Reader(d);
    if s == [] {
      ScanEnd(b, s);
      ScanEnd(r, s);
      forall k: nat ensures After(b, s, k) == s {}
    } else {
      if Head(b, s).Stuck? { ScanEnd(b, s); }
      if Special(b, s) != Special(r, s) {
        RereadDrift(d, n, b, s);
        assert After(b, s, 0) == s;
      } else {
        hide Lex, Head, Special, NoDrift, Rereads;
        NoDriftNext(b, r, s);
        ScanCons(b, s);
        var rest := s[Head(b, s).len..];
        if Head(b, s).lexeme.Param? {
          RereadParam(d, n, b, s);
          RereadIff(d, n + 1, b, rest);
        } else {
          RereadSame(d, n, b, s);
          RereadIff(d, n, b, rest);
        }
      }
    }
  }
}
