/** SQL text with holes: literal text in which no scanner sees a region, and named
    parameters. Whatever the rules, scanning it finds the holes and nothing else. */
module SqlPieces {
  import opened SqlLexer
  import opened Scanners

  predicate IsAlias(s: string) { s != [] && IsIdentStart(s[0]) && forall c | c in s :: IsIdentPart(c) }

  // ---- Text that no scanner treats specially ----

  predicate QuietChar(c: char) { c !in {'$', '`', '#', '[', '"', '\'', '-', '/', ':'} }

  predicate Quiet(s: string) { forall c | c in s :: QuietChar(c) }

  lemma QuietConcat(a: string, b: string)
    ensures Quiet(a + b) <==> Quiet(a) && Quiet(b)
  {
    assert forall c :: c in a + b <==> c in a || c in b;
  }

  lemma AliasQuiet(s: string)
    requires IsAlias(s)
    ensures Quiet(s)
  {
  }

  // ---- SQL with holes ----

  datatype Piece = Lit(text: string) | Hole(key: string, value: string)

  function RenderPieces(ps: seq<Piece>): string {
    if ps == [] then ""
    else (match ps[0] case Lit(t) => t case Hole(k, _) => ":" + k) + RenderPieces(ps[1..])
  }

  function HoleValues(ps: seq<Piece>): seq<string> {
    if ps == [] then [] else (if ps[0].Hole? then [ps[0].value] else []) + HoleValues(ps[1..])
  }

  function HoleKeys(ps: seq<Piece>): seq<string> {
    if ps == [] then [] else (if ps[0].Hole? then [ps[0].key] else []) + HoleKeys(ps[1..])
  }

  lemma {:induction false} PiecesConcat(a: seq<Piece>, b: seq<Piece>)
    ensures RenderPieces(a + b) == RenderPieces(a) + RenderPieces(b)
    ensures HoleValues(a + b) == HoleValues(a) + HoleValues(b)
  {
    if a == [] {
      assert a + b == b;
    } else {
      assert (a + b)[0] == a[0] && (a + b)[1..] == a[1..] + b;
      PiecesConcat(a[1..], b);
    }
  }

  lemma {:induction false} KeysConcat(a: seq<Piece>, b: seq<Piece>)
    ensures HoleKeys(a + b) == HoleKeys(a) + HoleKeys(b)
  {
    if a == [] {
      assert a + b == b;
    } else {
      assert (a + b)[0] == a[0] && (a + b)[1..] == a[1..] + b;
      KeysConcat(a[1..], b);
    }
  }

  /** Pieces without their keys: what they say, whatever the parameters are called. */
  function Blank(ps: seq<Piece>): (bs: seq<Piece>)
    ensures |bs| == |ps|
  {
    seq(|ps|, i requires 0 <= i < |ps| => if ps[i].Hole? then Hole("", ps[i].value) else ps[i])
  }

  lemma BlankConcat(a: seq<Piece>, b: seq<Piece>)
    ensures Blank(a + b) == Blank(a) + Blank(b)
  {
  }

  /** The text with the k-th hole filled by ph(n + k). */
  function Filled(ph: nat -> string, n: nat, ps: seq<Piece>): string
    decreases |ps|
  {
    if ps == [] then ""
    else if ps[0].Lit? then ps[0].text + Filled(ph, n, ps[1..])
    else ph(n + 1) + Filled(ph, n + 1, ps[1..])
  }

  lemma {:induction false} FilledBlank(ph: nat -> string, n: nat, ps: seq<Piece>)
    ensures Filled(ph, n, Blank(ps)) == Filled(ph, n, ps)
    decreases |ps|
  {
    if ps != [] {
      assert Blank(ps)[1..] == Blank(ps[1..]);
      FilledBlank(ph, if ps[0].Lit? then n else n + 1, ps[1..]);
    }
  }

  lemma PieceUnit(p: Piece)
    ensures RenderPieces([p]) == (match p case Lit(t) => t case Hole(k, _) => ":" + k)
    ensures HoleValues([p]) == if p.Hole? then [p.value] else []
    ensures HoleKeys([p]) == if p.Hole? then [p.key] else []
  {
    assert [p][1..] == [];
  }

  /** Literals are quiet, keys are identifiers, and no key runs into what follows it. */
  ghost predicate Bindable(ps: seq<Piece>)
  {
    && (forall i | 0 <= i < |ps| :: if ps[i].Lit? then Quiet(ps[i].text) else IsAlias(ps[i].key))
    && (forall i | 0 <= i < |ps| - 1 && ps[i].Hole? ::
          ps[i + 1].Lit? && ps[i + 1].text != "" && !IsIdentPart(ps[i + 1].text[0]))
  }

  /** Every key is an identifier. */
  predicate AliasHoles(ps: seq<Piece>) { forall i | 0 <= i < |ps| && ps[i].Hole? :: IsAlias(ps[i].key) }

  lemma AliasConcat(a: seq<Piece>, b: seq<Piece>)
    ensures AliasHoles(a + b) <==> AliasHoles(a) && AliasHoles(b)
  {
    hide IsAlias;
    var s := a + b;
    assert forall i | 0 <= i < |a| :: s[i] == a[i];
    assert forall i | 0 <= i < |b| :: s[|a| + i] == b[i];
  }

  lemma {:induction false} AliasKeys(ps: seq<Piece>)
    ensures AliasHoles(ps) <==> forall k | k in HoleKeys(ps) :: IsAlias(k)
  {
    hide IsAlias;
    if ps != [] {
      AliasKeys(ps[1..]);
      assert ps == [ps[0]] + ps[1..];
      AliasConcat([ps[0]], ps[1..]);
      assert AliasHoles([ps[0]]) <==> (ps[0].Hole? ==> IsAlias(ps[0].key)) by {
        if ps[0].Hole? { assert [ps[0]][0] == ps[0]; }
      }
    }
  }

  lemma BindableConcat(a: seq<Piece>, b: seq<Piece>)
    requires Bindable(a) && Bindable(b)
    requires b != [] ==> b[0].Lit? && b[0].text != "" && !IsIdentPart(b[0].text[0])
    ensures Bindable(a + b)
  {
  }

  ghost predicate Stored(ps: seq<Piece>, params: map<string, string>)
  {
    forall i | 0 <= i < |ps| && ps[i].Hole? :: ps[i].key in params && params[ps[i].key] == ps[i].value
  }

  ghost predicate Extends(m: map<string, string>, n: map<string, string>)
  {
    forall k | k in m :: k in n && n[k] == m[k]
  }

  // ---- Scanning SQL with holes, under any rules ----

  predicate NoOpaque(toks: seq<Lexeme>) { forall l | l in toks :: !l.Opaque? }

  predicate NoLeadingQuote(s: string) { s == [] || s[0] != '\'' }

  lemma QuietHead(r: Rules, s: string)
    requires s != [] && QuietChar(s[0]) && (|s| > 1 ==> s[1] != '\'')
    ensures Head(r, s) == Take(Code(s[0]), 1)
  {
  }

  lemma NoOpaqueCons(r: Rules, s: string)
    requires s != [] && Head(r, s).Take? && !Head(r, s).lexeme.Opaque?
    requires NoOpaque(Lex(r, s[Head(r, s).len..]).toks)
    ensures NoOpaque(Lex(r, s).toks)
  {
    hide Lex, Head;
    ScanCons(r, s);
    var toks := Lex(r, s).toks;
    assert toks == [toks[0]] + toks[1..];
  }

  lemma {:induction false} QuietScan(r: Rules, t: string, rest: string)
    requires Quiet(t) && NoLeadingQuote(rest) && NoOpaque(Lex(r, rest).toks)
    ensures ParamNames(Lex(r, t + rest).toks) == ParamNames(Lex(r, rest).toks)
    ensures Lex(r, t + rest).rest == Lex(r, rest).rest
    ensures NoOpaque(Lex(r, t + rest).toks)
  {
    hide Lex, Head, NoOpaque;
    if t == [] {
      assert t + rest == rest;
    } else {
      var s := t + rest;
      assert s[0] == t[0] && s[1..] == t[1..] + rest && t[0] in t;
      if |t| > 1 { assert s[1] == t[1] && t[1] in t; } else if |s| > 1 { assert s[1] == rest[0]; }
      QuietScan(r, t[1..], rest);
      QuietHead(r, s);
      ScanCons(r, s);
      NoOpaqueCons(r, s);
    }
  }

  lemma {:induction false} IdentRun(t: string, rest: string)
    requires (forall c | c in t :: IsIdentPart(c)) && (rest == [] || !IsIdentPart(rest[0]))
    ensures IdentLen(t + rest) == |t|
  {
    if t == [] {
      assert t + rest == rest;
    } else {
      assert (t + rest)[0] == t[0] && (t + rest)[1..] == t[1..] + rest;
      IdentRun(t[1..], rest);
    }
  }

  lemma KeyScan(r: Rules, key: string, rest: string)
    requires r.named && IsAlias(key) && (rest == [] || !IsIdentPart(rest[0])) && NoOpaque(Lex(r, rest).toks)
    ensures ParamNames(Lex(r, ":" + key + rest).toks) == [key] + ParamNames(Lex(r, rest).toks)
    ensures Lex(r, ":" + key + rest).rest == Lex(r, rest).rest
    ensures NoOpaque(Lex(r, ":" + key + rest).toks)
  {
    hide Lex, NoOpaque;
    var s := ":" + key + rest;
    assert s[1..] == key + rest && s[1] == key[0];
    IdentRun(key, rest);
    assert s[1..1 + |key|] == key && s[1 + |key|..] == rest;
    assert !OpensRegion(r, s);
    assert Head(r, s) == Take(Param(key), 1 + |key|);
    ScanCons(r, s);
    NoOpaqueCons(r, s);
  }

  lemma {:induction false} PiecesLead(ps: seq<Piece>)
    requires Bindable(ps)
    ensures NoLeadingQuote(RenderPieces(ps))
    ensures ps != [] && ps[0].Lit? && ps[0].text != ""
        ==> RenderPieces(ps) != [] && RenderPieces(ps)[0] == ps[0].text[0]
  {
    if ps != [] {
      PiecesLead(ps[1..]);
      if ps[0].Lit? && ps[0].text != "" { assert ps[0].text[0] in ps[0].text; }
    }
  }

  /** Under every rule set that knows parameters, SQL with holes has no quoted or comment
      region, scans to its end, and its parameters are its holes in order. */
  lemma {:induction false} PiecesScan(r: Rules, ps: seq<Piece>)
    requires r.named && Bindable(ps)
    ensures ParamNames(Lex(r, RenderPieces(ps)).toks) == HoleKeys(ps)
    ensures Lex(r, RenderPieces(ps)).rest == []
    ensures NoOpaque(Lex(r, RenderPieces(ps)).toks)
  {
    if ps == [] {
      ScanEnd(r, RenderPieces(ps));
    } else {
      hide Lex, NoOpaque;
      var rest := RenderPieces(ps[1..]);
      assert Bindable(ps[1..]);
      PiecesScan(r, ps[1..]);
      PiecesLead(ps[1..]);
      if ps[0].Lit? {
        QuietScan(r, ps[0].text, rest);
      } else {
        if |ps| > 1 { assert ps[1..][0] == ps[1]; }
        KeyScan(r, ps[0].key, rest);
      }
    }
  }

  /** The names a scan reads are identifiers. */
  lemma {:induction false} NamesAreAliases(r: Rules, s: string)
    ensures forall k | k in ParamNames(Lex(r, s).toks) :: IsAlias(k)
    decreases |s|
  {
    if s != [] && Head(r, s).Take? {
      var h := Head(r, s);
      NamesAreAliases(r, s[h.len..]);
      ScanCons(r, s);
      if h.lexeme.Param? { assert h.lexeme.name == s[1..h.len]; }
    } else {
      ScanEnd(r, s);
    }
  }

  lemma QuietFirst(r: Rules, t: string, rest: string)
    requires t != [] && Quiet(t) && NoLeadingQuote(rest)
    ensures Head(r, t + rest) == Take(Code(t[0]), 1) && (t + rest)[1..] == t[1..] + rest && Quiet(t[1..])
  {
    hide Head;
    var s := t + rest;
    assert s[0] == t[0] && s[1..] == t[1..] + rest && t[0] in t;
    if |t| > 1 { assert s[1] == t[1] && t[1] in t; } else if |s| > 1 { assert s[1] == rest[0]; }
    QuietHead(r, s);
  }

  lemma {:induction false} QuietBound(ph: nat -> string, n: nat, r: Rules, t: string, rest: string)
    requires Quiet(t) && NoLeadingQuote(rest)
    ensures Bound(ph, n, Lex(r, t + rest).toks) == t + Bound(ph, n, Lex(r, rest).toks)
    decreases |t|
  {
    hide Lex, Head, Bound, Quiet, NoLeadingQuote;
    if t == [] {
      assert t + rest == rest;
    } else {
      QuietFirst(r, t, rest);
      QuietBound(ph, n, r, t[1..], rest);
      ScanCons(r, t + rest);
      CodeBound(ph, n, Lex(r, t + rest).toks, t[0]);
      HeadTail(t, Bound(ph, n, Lex(r, rest).toks));
    }
  }

  lemma HeadTail(t: string, tail: string)
    requires t != []
    ensures [t[0]] + (t[1..] + tail) == t + tail
  {
  }

  lemma CodeBound(ph: nat -> string, n: nat, toks: seq<Lexeme>, c: char)
    requires toks != [] && toks[0] == Code(c)
    ensures Bound(ph, n, toks) == [c] + Bound(ph, n, toks[1..])
  {
  }

  lemma KeyBound(ph: nat -> string, n: nat, r: Rules, key: string, rest: string)
    requires r.named && IsAlias(key) && (rest == [] || !IsIdentPart(rest[0]))
    ensures Bound(ph, n, Lex(r, ":" + key + rest).toks) == ph(n + 1) + Bound(ph, n + 1, Lex(r, rest).toks)
  {
    var s := ":" + key + rest;
    IdentRun(key, rest);
    assert s[1..] == key + rest && s[1] == key[0];
    ParamHead(r, s);
    assert s[1..|key| + 1] == key && s[|key| + 1..] == rest;
    ScanCons(r, s);
    BoundHead(ph, n, Lex(r, s).toks);
  }

  /** Binding SQL with holes fills the holes and leaves the rest of the text alone. */
  lemma {:induction false} PiecesFill(ph: nat -> string, n: nat, r: Rules, ps: seq<Piece>)
    requires r.named && Bindable(ps)
    ensures Bound(ph, n, Lex(r, RenderPieces(ps)).toks) == Filled(ph, n, ps)
    decreases |ps|
  {
    if ps == [] {
      ScanEnd(r, RenderPieces(ps));
    } else {
      hide Lex, Bound;
      var rest := RenderPieces(ps[1..]);
      assert Bindable(ps[1..]);
      PiecesLead(ps[1..]);
      if ps[0].Lit? {
        PiecesFill(ph, n, r, ps[1..]);
        QuietBound(ph, n, r, ps[0].text, rest);
      } else {
        PiecesFill(ph, n + 1, r, ps[1..]);
        if |ps| > 1 { assert ps[1..][0] == ps[1]; }
        KeyBound(ph, n, r, ps[0].key, rest);
      }
    }
  }

  lemma StoredTail(ps: seq<Piece>, params: map<string, string>)
    requires Stored(ps, params) && ps != []
    ensures Stored(ps[1..], params) && (ps[0].Hole? ==> ps[0].key in params && params[ps[0].key] == ps[0].value)
  {
    assert forall i | 0 <= i < |ps| - 1 :: ps[1..][i] == ps[i + 1];
  }

  lemma {:induction false} HolesAreStored(ps: seq<Piece>, params: map<string, string>)
    requires Stored(ps, params)
    ensures forall k | k in HoleKeys(ps) :: k in params
    ensures ValuesOf(params, HoleKeys(ps)) == HoleValues(ps)
  {
    if ps != [] {
      StoredTail(ps, params);
      hide Stored;
      HolesAreStored(ps[1..], params);
    }
  }

  /** Binding SQL with holes, in any dialect, numbers the holes and supplies exactly their
      values in order. */
  lemma PiecesBind(d: Dialect, ps: seq<Piece>, params: map<string, string>, ph: nat -> string)
    requires Bindable(ps) && Stored(ps, params)
    ensures var o := BindMeaning(BindRules(d), RenderPieces(ps), params, ph);
      o.BoundQuery? && o.args == HoleValues(ps) && o.sql == Filled(ph, 0, ps)
  {
    hide Lex, Bound, Filled;
    PiecesFill(ph, 0, BindRules(d), ps);
    PiecesScan(BindRules(d), ps);
    HolesAreStored(ps, params);
    FirstMissingAt(HoleKeys(ps), params.Keys, |HoleKeys(ps)|);
  }
}
