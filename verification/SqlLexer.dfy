/** The lexical structure of a SQL template, as one dialect-indexed lexer.

    Three hand-written scanners (internal/connectors/bind.go) read templates: the
    binder, the parameter extractor and the literal stripper. This module defines the
    lexer they are meant to share; `Scanners` proves each loop against it. A lexer may
    get stuck on a dollar or q quote that never closes: the loops then spin for ever. */
module SqlLexer {

  datatype Dialect = Plain | Postgres | MySql | SqlServer | Oracle

  /** Which regions a scanner knows about: the dialect's quoting, dollar quotes, and
      (for the binder and the extractor, not the stripper) `::` and `:name`. */
  datatype Rules = Rules(dialect: Dialect, dollar: bool, named: bool)

  function BindRules(d: Dialect): Rules { Rules(d, d.Postgres?, true) }
  function ExtractRules(d: Dialect): Rules { Rules(d, true, true) }
  function StripRules(d: Dialect): Rules { Rules(d, true, false) }

  datatype Lexeme = Code(c: char) | Cast | Opaque(text: string) | Param(name: string)

  datatype Step = Stuck | Take(lexeme: Lexeme, len: nat)

  /** What a scan yields: the lexemes read, and the text it is stuck on ("" when it ended). */
  datatype Scan = Scan(toks: seq<Lexeme>, rest: string)

  predicate IsIdentStart(c: char) { c == '_' || 'a' <= c <= 'z' || 'A' <= c <= 'Z' }

  predicate IsIdentPart(c: char) { IsIdentStart(c) || '0' <= c <= '9' }

  // ---- Lengths of regions, measured from the front of the remaining text ----

  /** Characters up to and including the closing `q`; a doubled `q` is an escape. */
  function QuotedLen(s: string, q: char): (n: nat)
    ensures n <= |s|
  {
    if s == [] then 0
    else if s[0] != q then 1 + QuotedLen(s[1..], q)
    else if |s| > 1 && s[1] == q then 2 + QuotedLen(s[2..], q)
    else 1
  }

  /** Characters before the end of the line. */
  function LineLen(s: string): (n: nat)
    ensures n <= |s|
  {
    if s == [] || s[0] == '\n' then 0 else 1 + LineLen(s[1..])
  }

  /** Characters up to and including the end of a block comment. */
  function BlockLen(s: string): (n: nat)
    ensures n <= |s|
  {
    if s == [] then 0
    else if |s| > 1 && s[0] == '*' && s[1] == '/' then 2
    else 1 + BlockLen(s[1..])
  }

  function IdentLen(s: string): (n: nat)
    ensures n <= |s|
    ensures forall i | 0 <= i < n :: IsIdentPart(s[i])
    ensures n < |s| ==> !IsIdentPart(s[n])
  {
    if s == [] || !IsIdentPart(s[0]) then 0 else 1 + IdentLen(s[1..])
  }

  function TagRun(s: string): (n: nat)
    ensures n <= |s|
    ensures forall i | 0 <= i < n :: IsIdentPart(s[i]) || s[i] == '$'
    ensures n < |s| ==> !IsIdentPart(s[n]) && s[n] != '$'
  {
    if s == [] || !(IsIdentPart(s[0]) || s[0] == '$') then 0 else 1 + TagRun(s[1..])
  }

  predicate OccursAt(s: string, pat: string, i: nat) { i + |pat| <= |s| && s[i..i + |pat|] == pat }

  /** First occurrence of `pat` at or after `from`, or |s| + 1 when there is none. */
  function FindFrom(s: string, pat: string, from: nat): (i: nat)
    ensures i <= |s| ==> from <= i && OccursAt(s, pat, i)
    ensures i <= |s| || i == |s| + 1
    ensures forall j | from <= j < i :: !OccursAt(s, pat, j)
    decreases |s| + 1 - from
  {
    if from + |pat| > |s| then |s| + 1
    else if OccursAt(s, pat, from) then from
    else FindFrom(s, pat, from + 1)
  }

  /** Length of the dollar quote that opens `s`; 0 when the tag is malformed or never closes. */
  function DollarLen(s: string): (n: nat)
    requires s != [] && s[0] == '$'
    ensures n <= |s|
  {
    var tag := 1 + TagRun(s[1..]);
    if tag == 1 || s[tag - 1] != '$' then 0
    else var i := FindFrom(s, s[..tag], tag); if i > |s| then 0 else i + tag
  }

  function Closer(c: char): char {
    match c case '[' => ']' case '(' => ')' case '{' => '}' case '<' => '>' case _ => c
  }

  predicate OpensQQuote(s: string) { |s| > 2 && s[0] == 'q' && s[1] == '\'' }

  /** Length of the Oracle q quote that opens `s`; 0 when it never closes. */
  function QQuoteLen(s: string): (n: nat)
    requires OpensQQuote(s)
    ensures n <= |s|
  {
    var i := FindFrom(s, [Closer(s[2]), '\''], 3);
    if i > |s| then 0 else i + 2
  }

  // ---- One lexeme ----

  /** A region only some rule sets know opens here. */
  predicate Special(r: Rules, s: string)
  {
    s != [] &&
    (|| (r.dollar && s[0] == '$')
     || (r.dialect.MySql? && (s[0] == '`' || s[0] == '#'))
     || (r.dialect.SqlServer? && s[0] == '[')
     || (r.dialect.Oracle? && OpensQQuote(s)))
  }

  /** A region every rule set knows opens here. */
  predicate CommonRegion(s: string)
  {
    s != [] &&
    (|| s[0] == '"' || s[0] == '\''
     || (|s| > 1 && s[0] == '-' && s[1] == '-')
     || (|s| > 1 && s[0] == '/' && s[1] == '*'))
  }

  predicate OpensRegion(r: Rules, s: string) { Special(r, s) || CommonRegion(s) }

  /** Length of the region that opens `s`, fixed by its first character alone; 0 when it
      is a dollar or q quote that never closes. */
  function RegionLen(s: string): (n: nat)
    ensures n <= |s|
  {
    if s == [] then 0
    else match s[0]
      case '$' => DollarLen(s)
      case '[' => 1 + QuotedLen(s[1..], ']')
      case '#' => LineLen(s)
      case '-' => LineLen(s)
      case '/' => if |s| > 1 then 2 + BlockLen(s[2..]) else 1
      case 'q' => if OpensQQuote(s) then QQuoteLen(s) else 0
      case c => 1 + QuotedLen(s[1..], c)
  }

  function CodeHead(named: bool, s: string): (h: Step)
    requires s != []
    ensures h.Take? && 1 <= h.len <= |s| && Text(h.lexeme) == s[..h.len] && !h.lexeme.Opaque?
  {
    if named && s[0] == ':' && |s| > 1 && s[1] == ':' then Take(Cast, 2)
    else if named && s[0] == ':' && |s| > 1 && IsIdentStart(s[1]) then
      var n := 1 + IdentLen(s[1..]); Take(Param(s[1..n]), n)
    else Take(Code(s[0]), 1)
  }

  function Head(r: Rules, s: string): (h: Step)
    requires s != []
    ensures h.Take? ==> 1 <= h.len <= |s| && Text(h.lexeme) == s[..h.len]
  {
    if OpensRegion(r, s) then
      var n := RegionLen(s); if n == 0 then Stuck else Take(Opaque(s[..n]), n)
    else CodeHead(r.named, s)
  }

  function Lex(r: Rules, s: string): (sc: Scan)
    decreases |s|
  {
    if s == [] then Scan([], [])
    else match Head(r, s)
      case Stuck => Scan([], s)
      case Take(l, n) => var t := Lex(r, s[n..]); Scan([l] + t.toks, t.rest)
  }

  // ---- Readings of a lexeme sequence ----

  function Text(l: Lexeme): string {
    match l case Code(c) => [c] case Cast => "::" case Opaque(t) => t case Param(n) => ":" + n
  }

  function Render(toks: seq<Lexeme>): string {
    if toks == [] then "" else Text(toks[0]) + Render(toks[1..])
  }

  function ParamNames(toks: seq<Lexeme>): seq<string> {
    if toks == [] then []
    else (if toks[0].Param? then [toks[0].name] else []) + ParamNames(toks[1..])
  }

  /** The text with the k-th parameter replaced by `ph(n + k)` and the rest verbatim. */
  function Bound(ph: nat -> string, n: nat, toks: seq<Lexeme>): string
    decreases |toks|
  {
    if toks == [] then ""
    else if toks[0].Param? then ph(n + 1) + Bound(ph, n + 1, toks[1..])
    else Text(toks[0]) + Bound(ph, n, toks[1..])
  }

  lemma BoundHead(ph: nat -> string, n: nat, toks: seq<Lexeme>)
    requires toks != []
    ensures Bound(ph, n, toks) == if toks[0].Param? then ph(n + 1) + Bound(ph, n + 1, toks[1..])
        else Text(toks[0]) + Bound(ph, n, toks[1..])
  {
  }

  /** The text with the opaque regions deleted. */
  function Stripped(toks: seq<Lexeme>): string {
    if toks == [] then ""
    else (if toks[0].Opaque? then "" else Text(toks[0])) + Stripped(toks[1..])
  }

  lemma {:induction false} LexCons(l: Lexeme, ts: seq<Lexeme>)
    ensures ([l] + ts)[1..] == ts && ([l] + ts)[0] == l
  {
  }

  lemma ScanCons(r: Rules, s: string)
    requires s != [] && Head(r, s).Take?
    ensures var h := Head(r, s);
      && Lex(r, s).toks != []
      && Lex(r, s).toks[0] == h.lexeme
      && Lex(r, s).toks[1..] == Lex(r, s[h.len..]).toks
      && Lex(r, s).rest == Lex(r, s[h.len..]).rest
  {
    LexCons(Head(r, s).lexeme, Lex(r, s[Head(r, s).len..]).toks);
  }

  lemma ScanEnd(r: Rules, s: string)
    requires s == [] || Head(r, s).Stuck?
    ensures Lex(r, s) == Scan([], s)
  {
  }

  /** Nothing is lost or invented: the lexemes spell the text back. */
  lemma {:induction false} Lossless(r: Rules, s: string)
    ensures Render(Lex(r, s).toks) + Lex(r, s).rest == s
    decreases |s|
  {
    hide Head, Lex;
    if s != [] && Head(r, s).Take? {
      var h := Head(r, s);
      ScanCons(r, s);
      Lossless(r, s[h.len..]);
      assert s == s[..h.len] + s[h.len..];
    } else {
      ScanEnd(r, s);
    }
  }

  // ---- Progress ----

  /** The remaining text after `k` turns of a scanner's outer loop. */
  function After(r: Rules, s: string, k: nat): string
    decreases k
  {
    if k == 0 || s == [] || Head(r, s).Stuck? then s
    else After(r, s[Head(r, s).len..], k - 1)
  }

  /** At a code position, a dollar or q quote this scanner handles is never closed. */
  predicate Unclosed(r: Rules, s: string)
  {
    s != [] &&
    (|| (r.dollar && s[0] == '$' && DollarLen(s) == 0)
     || (r.dialect.Oracle? && OpensQQuote(s) && QQuoteLen(s) == 0))
  }

  lemma StuckIffUnclosed(r: Rules, s: string)
    ensures s != [] && Head(r, s).Stuck? <==> Unclosed(r, s)
  {
    if s != [] && s[0] == '#' { assert LineLen(s) > 0; }
  }

  ghost predicate Halts(r: Rules, s: string) { exists k: nat :: After(r, s, k) == [] }

  ghost predicate Spins(r: Rules, s: string) { exists k: nat :: Unclosed(r, After(r, s, k)) }

  lemma AfterNext(r: Rules, s: string, k: nat)
    requires s != [] && Head(r, s).Take?
    ensures After(r, s, k + 1) == After(r, s[Head(r, s).len..], k)
  {
  }

  lemma HaltsNext(r: Rules, s: string)
    requires s != [] && Head(r, s).Take?
    ensures Halts(r, s) <==> Halts(r, s[Head(r, s).len..])
    ensures Spins(r, s) <==> Spins(r, s[Head(r, s).len..])
  {
    var t := s[Head(r, s).len..];
    StuckIffUnclosed(r, s);
    assert After(r, s, 0) == s;
    if k: nat :| After(r, s, k) == [] { AfterNext(r, s, k - 1); }
    if k: nat :| After(r, t, k) == [] { AfterNext(r, s, k); }
    if k: nat :| Unclosed(r, After(r, s, k)) { AfterNext(r, s, k - 1); }
    if k: nat :| Unclosed(r, After(r, t, k)) { AfterNext(r, s, k); }
  }

  /** The loop reaches the end of the text exactly when the lexer leaves no rest, and
      otherwise it turns for ever on an unclosed dollar or q quote in code position. */
  lemma {:induction false} TerminatesIff(r: Rules, s: string)
    ensures Halts(r, s) <==> Lex(r, s).rest == []
    ensures Spins(r, s) <==> Lex(r, s).rest != []
    decreases |s|
  {
    StuckIffUnclosed(r, s);
    if s != [] && Head(r, s).Take? {
      HaltsNext(r, s);
      TerminatesIff(r, s[Head(r, s).len..]);
    } else {
      assert After(r, s, 0) == s;
      forall k: nat ensures After(r, s, k) == s {}
    }
  }

  /** The shortest template that does: a lone dollar sign. */
  lemma LoneDollarSpins(r: Rules)
    requires r.dollar
    ensures Spins(r, "$") && Lex(r, "$") == Scan([], "$")
  {
    assert "$"[1..] == "";
    assert After(r, "$", 0) == "$";
    assert Unclosed(r, After(r, "$", 0));
    StuckIffUnclosed(r, "$");
  }

  /** Rules without dollar and q quotes (in particular the plain binder's) never get stuck. */
  lemma {:induction false} PlainTerminates(r: Rules, s: string)
    requires !r.dollar && !r.dialect.Oracle?
    ensures Lex(r, s).rest == []
    decreases |s|
  {
    StuckIffUnclosed(r, s);
    if s != [] { PlainTerminates(r, s[Head(r, s).len..]); }
  }

  // ---- When two rule sets read the same lexemes ----

  lemma DriftDiffers(a: Rules, b: Rules, s: string)
    requires s != [] && a.named == b.named && Special(a, s) && !Special(b, s)
    ensures Lex(a, s) != Lex(b, s)
  {
    assert !OpensRegion(b, s);
    ScanCons(b, s);
    if Head(a, s).Take? { ScanCons(a, s); }
  }

  /** At every code position `a` reaches, both rule sets agree on whether a dialect
      region opens there. */
  ghost predicate NoDrift(a: Rules, b: Rules, s: string)
  {
    forall k: nat :: Special(a, After(a, s, k)) == Special(b, After(a, s, k))
  }

  lemma NoDriftNext(a: Rules, b: Rules, s: string)
    requires s != [] && Head(a, s).Take? && Special(a, s) == Special(b, s)
    ensures NoDrift(a, b, s) <==> NoDrift(a, b, s[Head(a, s).len..])
  {
    var t := s[Head(a, s).len..];
    forall k: nat ensures After(a, s, k + 1) == After(a, t, k) { AfterNext(a, s, k); }
    if NoDrift(a, b, t) {
      forall k: nat ensures Special(a, After(a, s, k)) == Special(b, After(a, s, k)) {
        if k == 0 { assert After(a, s, k) == s; } else { assert After(a, s, (k - 1) + 1) == After(a, t, k - 1); }
      }
    }
  }

  /** Two rule sets yield the same lexemes exactly when they never drift apart. */
  lemma {:induction false} SameLexemesIff(a: Rules, b: Rules, s: string)
    requires a.named == b.named
    ensures Lex(a, s) == Lex(b, s) <==> NoDrift(a, b, s)
    decreases |s|
  {
    assert After(a, s, 0) == s;
    if s != [] && Special(a, s) != Special(b, s) {
      if Special(a, s) { DriftDiffers(a, b, s); } else { DriftDiffers(b, a, s); }
    } else if s == [] || Head(a, s).Stuck? {
      forall k: nat ensures After(a, s, k) == s {}
    } else {
      SameLexemesIff(a, b, s[Head(a, s).len..]);
      NoDriftNext(a, b, s);
      ScanCons(a, s); ScanCons(b, s);
    }
  }

  predicate DollarAt(s: string) { s != [] && s[0] == '$' }

  ghost predicate MeetsNoDollar(r: Rules, s: string) { forall k: nat :: !DollarAt(After(r, s, k)) }

  ghost predicate MeetsNoSpecial(r: Rules, e: Rules, s: string) { forall k: nat :: !Special(e, After(r, s, k)) }

  /** Binder and extractor: the same lexemes for every template on Postgres, and
      elsewhere exactly when the binder never meets a `$` in code position. */
  lemma BindExtractAgree(d: Dialect, s: string)
    ensures Lex(BindRules(d), s) == Lex(ExtractRules(d), s) <==> d.Postgres? || MeetsNoDollar(BindRules(d), s)
  {
    var b, e := BindRules(d), ExtractRules(d);
    SameLexemesIff(b, e, s);
    if !d.Postgres? {
      if NoDrift(b, e, s) {
        forall k: nat ensures !DollarAt(After(b, s, k)) {
          assert Special(b, After(b, s, k)) == Special(e, After(b, s, k));
        }
      }
      if MeetsNoDollar(b, s) {
        forall k: nat ensures Special(b, After(b, s, k)) == Special(e, After(b, s, k)) {
          assert !DollarAt(After(b, s, k));
        }
      }
    }
  }

  /** The live connectors bind with the plain rules whatever the dialect: they read what
      the extractor read exactly when no dialect-only region opens in code position. */
  lemma PlainExtractAgree(d: Dialect, s: string)
    ensures Lex(BindRules(Plain), s) == Lex(ExtractRules(d), s) <==>
            MeetsNoSpecial(BindRules(Plain), ExtractRules(d), s)
  {
    var b, e := BindRules(Plain), ExtractRules(d);
    SameLexemesIff(b, e, s);
    if NoDrift(b, e, s) {
      forall k: nat ensures !Special(e, After(b, s, k)) {
        assert Special(b, After(b, s, k)) == Special(e, After(b, s, k));
      }
    }
    if MeetsNoSpecial(b, e, s) {
      forall k: nat ensures Special(b, After(b, s, k)) == Special(e, After(b, s, k)) {
        assert !Special(e, After(b, s, k));
      }
    }
  }

  // ---- The stripper, which does not know parameters ----

  function Spell(name: string): seq<Lexeme> {
    seq(|name|, i requires 0 <= i < |name| => Code(name[i]))
  }

  /** Casts and parameters spelled out as code characters. */
  function Unnamed(toks: seq<Lexeme>): seq<Lexeme> {
    if toks == [] then []
    else (match toks[0]
          case Cast => [Code(':'), Code(':')]
          case Param(n) => [Code(':')] + Spell(n)
          case l => [l]) + Unnamed(toks[1..])
  }

  /** An Oracle parameter whose name ends in `q` runs into a quote: its last letter and
      the quote read as the opening of a q quote to a scanner that does not know parameters. */
  predicate NameMeetsQuote(d: Dialect, s: string)
  {
    d.Oracle? && |s| > 1 && s[0] == ':' && IsIdentStart(s[1]) && OpensQQuote(s[IdentLen(s[1..])..])
  }

  lemma IdentIsCode(r: Rules, s: string)
    requires s != [] && IsIdentPart(s[0]) && (r.dialect.Oracle? ==> !OpensQQuote(s))
    ensures Head(r, s) == Take(Code(s[0]), 1)
  {
  }

  /** Identifier characters are code to the stripper, up to such a collision. */
  lemma {:induction false} StripName(d: Dialect, name: string, rest: string)
    requires forall c | c in name :: IsIdentPart(c)
    requires name != [] && d.Oracle? ==> !OpensQQuote([name[|name| - 1]] + rest)
    ensures var t := Lex(StripRules(d), rest);
      Lex(StripRules(d), name + rest) == Scan(Spell(name) + t.toks, t.rest)
    decreases |name|
  {
    hide Head, Lex;
    var r := StripRules(d);
    if name == [] {
      assert name + rest == rest;
    } else {
      var s := name + rest;
      assert s[1..] == name[1..] + rest;
      if |name| > 1 { assert s[1] == name[1] && name[1] in name; } else { assert s == [name[0]] + rest; }
      IdentIsCode(r, s);
      ScanCons(r, s);
      if |name| > 1 { assert name[1..][|name| - 2] == name[|name| - 1]; }
      StripName(d, name[1..], rest);
      assert Spell(name) == [Code(name[0])] + Spell(name[1..]);
    }
  }

  ghost predicate NamesMeetNoQuote(d: Dialect, s: string)
  {
    forall k: nat :: !NameMeetsQuote(d, After(ExtractRules(d), s, k))
  }

  lemma NamesMeetNoQuoteNext(d: Dialect, s: string)
    requires s != [] && Head(ExtractRules(d), s).Take? && !NameMeetsQuote(d, s)
    ensures NamesMeetNoQuote(d, s) <==> NamesMeetNoQuote(d, s[Head(ExtractRules(d), s).len..])
  {
    var r := ExtractRules(d);
    var t := s[Head(r, s).len..];
    forall k: nat ensures After(r, s, k + 1) == After(r, t, k) { AfterNext(r, s, k); }
    if NamesMeetNoQuote(d, t) {
      forall k: nat ensures !NameMeetsQuote(d, After(r, s, k)) {
        if k == 0 { assert After(r, s, k) == s; } else { assert After(r, s, (k - 1) + 1) == After(r, t, k - 1); }
      }
    }
  }

  lemma ColonIsCode(r: Rules, s: string)
    requires s != [] && s[0] == ':' && !r.named
    ensures Head(r, s) == Take(Code(':'), 1)
  {
  }

  /** Where the extractor reads a cast or a parameter the stripper reads a colon;
      everywhere else they read the same lexeme. */
  lemma NamedHead(d: Dialect, s: string)
    requires s != []
    ensures var h, g := Head(ExtractRules(d), s), Head(StripRules(d), s);
      match h
      case Take(Cast, n) => n == 2 && |s| > 1 && s[0] == s[1] == ':' && g == Take(Code(':'), 1)
      case Take(Param(name), n) =>
        && n == 1 + IdentLen(s[1..]) && name == s[1..n] && name != [] && g == Take(Code(':'), 1)
        && s[0] == ':' && IsIdentStart(s[1]) && forall c | c in name :: IsIdentPart(c)
      case _ => g == h
  {
  }

  /** One lexeme of the extractor, as the stripper reads it. */
  lemma StripHead(d: Dialect, s: string)
    requires s != [] && Head(ExtractRules(d), s).Take? && !NameMeetsQuote(d, s)
    ensures var h := Head(ExtractRules(d), s);
      var t := Lex(StripRules(d), s[h.len..]);
      Lex(StripRules(d), s) == Scan(Unnamed([h.lexeme]) + t.toks, t.rest)
  {
    hide Head, Lex;
    var e, r := ExtractRules(d), StripRules(d);
    var h := Head(e, s);
    NamedHead(d, s);
    ScanCons(r, s);
    assert [h.lexeme][1..] == [];
    if h.lexeme.Cast? {
      ColonIsCode(r, s[1..]);
      ScanCons(r, s[1..]);
      assert s[1..][1..] == s[2..];
    } else if h.lexeme.Param? {
      var name, rest := h.lexeme.name, s[h.len..];
      assert s[1..] == name + rest;
      assert [name[|name| - 1]] + rest == s[|name|..];
      StripName(d, name, rest);
    }
  }

  lemma UnnamedCons(l: Lexeme, ts: seq<Lexeme>)
    ensures Unnamed([l] + ts) == Unnamed([l]) + Unnamed(ts)
  {
    LexCons(l, ts);
    assert [l][1..] == [];
  }

  lemma SpecialToks(r: Rules, s: string)
    requires Special(r, s)
    ensures Lex(r, s).toks == [] || Lex(r, s).toks[0].Opaque?
  {
  }

  /** At a collision the stripper either stops or skips a q quote that the extractor reads. */
  lemma CollisionDiffers(d: Dialect, s: string)
    requires NameMeetsQuote(d, s)
    ensures Lex(StripRules(d), s).toks != Unnamed(Lex(ExtractRules(d), s).toks)
  {
    hide Head, Lex, Unnamed, Special, OpensQQuote;
    CollisionRead(d, s);
    CollisionStripped(d, s);
  }

  /** The extractor's reading of a collision has the name's last letter after the name's others. */
  lemma CollisionRead(d: Dialect, s: string)
    requires NameMeetsQuote(d, s)
    ensures var toks, n := Unnamed(Lex(ExtractRules(d), s).toks), IdentLen(s[1..]); n < |toks| && toks[n] == Code('q')
  {
    hide Head, Lex, Unnamed;
    var e, n := ExtractRules(d), IdentLen(s[1..]);
    ParamHead(e, s);
    ScanCons(e, s);
    var h, more := Head(e, s), Lex(e, s[n + 1..]).toks;
    UnnamedCons(h.lexeme, more);
    assert Lex(e, s).toks == [h.lexeme] + more;
    UnnamedParam(s[1..n + 1]);
    assert ([Code(':')] + Spell(s[1..n + 1]))[n] == Code('q');
  }

  lemma UnnamedParam(name: string)
    ensures Unnamed([Param(name)]) == [Code(':')] + Spell(name)
  {
    assert [Param(name)][1..] == [];
  }

  /** The stripper's reading has an opaque region there, or nothing. */
  lemma CollisionStripped(d: Dialect, s: string)
    requires NameMeetsQuote(d, s)
    ensures var toks, n := Lex(StripRules(d), s).toks, IdentLen(s[1..]); n < |toks| ==> toks[n].Opaque?
  {
    hide Head, Lex, Special;
    var r, n := StripRules(d), IdentLen(s[1..]);
    ColonIsCode(r, s);
    ScanCons(r, s);
    var front, back := s[1..n], s[n..];
    assert s[1..] == front + back;
    assert forall i | 0 <= i < |front| :: front[i] == s[1..][i];
    StripName(d, front, back);
    SpecialToks(r, back);
    assert Lex(r, s).toks == [Code(':')] + Spell(front) + Lex(r, back).toks;
  }

  lemma ParamHead(r: Rules, s: string)
    requires r.named && |s| > 1 && s[0] == ':' && IsIdentStart(s[1])
    ensures var n := IdentLen(s[1..]); n > 0 && Head(r, s) == Take(Param(s[1..n + 1]), n + 1)
  {
  }

  ghost predicate SameRegions(d: Dialect, s: string)
  {
    && Lex(StripRules(d), s).toks == Unnamed(Lex(ExtractRules(d), s).toks)
    && Lex(StripRules(d), s).rest == Lex(ExtractRules(d), s).rest
  }

  lemma SameRegionsNext(d: Dialect, s: string)
    requires s != [] && Head(ExtractRules(d), s).Take? && !NameMeetsQuote(d, s)
    ensures SameRegions(d, s) <==> SameRegions(d, s[Head(ExtractRules(d), s).len..])
  {
    hide Head, Lex, Unnamed, NameMeetsQuote;
    var e := ExtractRules(d);
    var h := Head(e, s);
    var t := s[h.len..];
    ScanCons(e, s);
    StripHead(d, s);
    UnnamedCons(h.lexeme, Lex(e, t).toks);
    var x, y, z := Unnamed([h.lexeme]), Lex(StripRules(d), t).toks, Unnamed(Lex(e, t).toks);
    assert Lex(e, s).toks == [h.lexeme] + Lex(e, t).toks;
    assert (x + y)[|x|..] == y && (x + z)[|x|..] == z;
  }

  lemma StuckRegions(d: Dialect, s: string)
    requires s == [] || Head(ExtractRules(d), s).Stuck?
    ensures SameRegions(d, s) && NamesMeetNoQuote(d, s)
  {
    if s != [] { NamedHead(d, s); }
    forall k: nat ensures After(ExtractRules(d), s, k) == s {}
  }

  /** Extractor and stripper see the same regions exactly when no Oracle parameter name
      ending in `q` runs into a quote. */
  lemma {:induction false} StripExtractAgree(d: Dialect, s: string)
    ensures SameRegions(d, s) <==> NamesMeetNoQuote(d, s)
    decreases |s|
  {
    var e := ExtractRules(d);
    if NameMeetsQuote(d, s) {
      CollisionDiffers(d, s);
      assert After(e, s, 0) == s;
    } else if s == [] || Head(e, s).Stuck? {
      StuckRegions(d, s);
    } else {
      SameRegionsNext(d, s);
      NamesMeetNoQuoteNext(d, s);
      StripExtractAgree(d, s[Head(e, s).len..]);
    }
  }
}
