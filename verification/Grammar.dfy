/** The templates the scanners are for, written out token by token: what each token looks like, where
    it ends, and what may follow it. `SqlLexer` measures text; this module prints it. The two are
    proved to be each other's inverse. */
module Grammar {
  import opened SqlLexer
  import opened SqlPieces
  import opened Scanners
  import opened Whitespace

  /** A token by what it holds: a quote's body is the text it stands for, delimiters not doubled. */
  datatype Token =
    | Char(c: char)
    | CastOp
    | Name(name: string)
    | Quoted(quote: char, body: string)
    | Bracketed(body: string)
    | Dashes(body: string)
    | Hash(body: string)
    | Block(body: string)
    | Dollar(tag: string, body: string)
    | QQuote(opener: char, body: string)

  function Doubled(body: string, q: char): string {
    if body == [] then [] else (if body[0] == q then [q, q] else [body[0]]) + Doubled(body[1..], q)
  }

  function Delimiter(tag: string): string { "$" + tag + "$" }

  /** The bracket that closes an Oracle quote; any other character closes itself. */
  function Match(c: char): char {
    if c == '[' then ']' else if c == '(' then ')' else if c == '{' then '}' else if c == '<' then '>' else c
  }

  function Print(t: Token): string {
    match t
    case Char(c) => [c]
    case CastOp => "::"
    case Name(n) => ":" + n
    case Quoted(q, b) => [q] + (Doubled(b, q) + [q])
    case Bracketed(b) => "[" + (Doubled(b, ']') + "]")
    case Dashes(b) => "--" + b
    case Hash(b) => "#" + b
    case Block(b) => "/*" + (b + "*/")
    case Dollar(tag, b) => Delimiter(tag) + (b + Delimiter(tag))
    case QQuote(c, b) => "q'" + [c] + (b + [Match(c), '\''])
  }

  function PrintAll(ts: seq<Token>): string { if ts == [] then "" else Print(ts[0]) + PrintAll(ts[1..]) }

  /** What a token stands for in a scan. */
  function Meant(t: Token): Lexeme {
    match t
    case Char(c) => Code(c)
    case CastOp => Cast
    case Name(n) => Param(n)
    case _ => Opaque(Print(t))
  }

  function AllMeant(ts: seq<Token>): seq<Lexeme> { if ts == [] then [] else [Meant(ts[0])] + AllMeant(ts[1..]) }

  predicate Begins(s: string, c: char) { s != [] && s[0] == c }

  predicate TagChar(c: char) { IsIdentPart(c) || c == '$' }

  /** `pat` ends `body + pat` and is found nowhere before. */
  predicate OnlyAtEnd(body: string, pat: string) { forall j | 0 <= j < |body| :: !OccursAt(body + pat, pat, j) }

  predicate NoTerminator(b: string) { forall i | 0 <= i < |b| - 1 :: !(b[i] == '*' && b[i + 1] == '/') }

  /** The character opens nothing here. */
  predicate OpensNothing(r: Rules, c: char, rest: string) {
    && c != '\'' && c != '"'
    && (c == '-' ==> !Begins(rest, '-'))
    && (c == '/' ==> !Begins(rest, '*'))
    && (r.dollar ==> c != '$')
    && (r.dialect.MySql? ==> c != '`' && c != '#')
    && (r.dialect.SqlServer? ==> c != '[')
    && (r.dialect.Oracle? && c == 'q' ==> !Begins(rest, '\'') || rest == "'")
    && (r.named && c == ':' ==> rest == [] || (rest[0] != ':' && !IsIdentStart(rest[0])))
  }

  predicate QuoteKnown(r: Rules, q: char) { q == '\'' || q == '"' || (r.dialect.MySql? && q == '`') }

  /** The rules know this token, its body is one it can hold, and what follows does not prolong it. */
  predicate Fits(r: Rules, t: Token, rest: string) {
    match t
    case Char(c) => OpensNothing(r, c, rest)
    case CastOp => r.named
    case Name(n) => r.named && IsAlias(n) && (rest == [] || !IsIdentPart(rest[0]))
    case Quoted(q, _) => QuoteKnown(r, q) && !Begins(rest, q)
    case Bracketed(_) => r.dialect.SqlServer? && !Begins(rest, ']')
    case Dashes(b) => '\n' !in b && (rest == [] || rest[0] == '\n')
    case Hash(b) => r.dialect.MySql? && '\n' !in b && (rest == [] || rest[0] == '\n')
    case Block(b) => NoTerminator(b)
    case Dollar(tag, b) =>
      && r.dollar && (forall c | c in tag :: TagChar(c)) && b != [] && !TagChar(b[0])
      && OnlyAtEnd(b, Delimiter(tag))
    case QQuote(c, b) => r.dialect.Oracle? && OnlyAtEnd(b, [Match(c), '\''])
  }

  /** A last quote or comment that is not closed. */
  datatype Tail = NoTail | OpenQuote(quote: char, body: string) | OpenBracket(body: string) | OpenBlock(body: string)

  function PrintTail(t: Tail): string {
    match t
    case NoTail => ""
    case OpenQuote(q, b) => [q] + Doubled(b, q)
    case OpenBracket(b) => "[" + Doubled(b, ']')
    case OpenBlock(b) => "/*" + b
  }

  predicate TailFits(r: Rules, t: Tail) {
    match t
    case NoTail => true
    case OpenQuote(q, _) => QuoteKnown(r, q)
    case OpenBracket(_) => r.dialect.SqlServer?
    case OpenBlock(b) => NoTerminator(b)
  }

  function TailMeant(t: Tail): seq<Lexeme> { if t.NoTail? then [] else [Opaque(PrintTail(t))] }

  function Source(ts: seq<Token>, tail: Tail): string { PrintAll(ts) + PrintTail(tail) }

  predicate Written(r: Rules, ts: seq<Token>, tail: Tail) {
    if ts == [] then TailFits(r, tail) else Fits(r, ts[0], Source(ts[1..], tail)) && Written(r, ts[1..], tail)
  }

  // ---- Measuring what was printed ----

  lemma {:induction false} QuotedPrinted(body: string, q: char, rest: string)
    requires !Begins(rest, q)
    ensures QuotedLen(Doubled(body, q) + [q] + rest, q) == |Doubled(body, q)| + 1
  {
    hide QuotedLen, Doubled;
    var s := Doubled(body, q) + [q] + rest;
    QuotedUnfolds(s, q);
    if body == [] {
      NoneDoubled(q);
      assert s == [q] + rest;
    } else {
      var more := Doubled(body[1..], q) + [q] + rest;
      QuotedPrinted(body[1..], q, rest);
      DoubledCons(body[0], body[1..], q);
      assert body == [body[0]] + body[1..];
      if body[0] == q { assert s[..2] == [q, q] && s[2..] == more; } else { assert s[1..] == more; }
    }
  }

  lemma {:induction false} QuotedOpen(body: string, q: char)
    ensures QuotedLen(Doubled(body, q), q) == |Doubled(body, q)|
  {
    if body != [] {
      var s, more := Doubled(body, q), Doubled(body[1..], q);
      QuotedOpen(body[1..], q);
      if body[0] == q { assert s[..2] == [q, q] && s[2..] == more; } else { assert s[1..] == more; }
    }
  }

  lemma {:induction false} BlockPrinted(b: string, rest: string)
    requires NoTerminator(b)
    ensures BlockLen(b + "*/" + rest) == |b| + 2
  {
    var s := b + "*/" + rest;
    if b == [] {
      assert s[0] == '*' && s[1] == '/';
    } else {
      assert s[1..] == b[1..] + "*/" + rest;
      assert s[0] == b[0] && s[1] == (if |b| > 1 then b[1] else '*');
      NoTerminatorTail(b);
      BlockPrinted(b[1..], rest);
    }
  }

  lemma NoTerminatorTail(b: string)
    requires b != [] && NoTerminator(b)
    ensures NoTerminator(b[1..])
  {
    assert forall i | 0 <= i < |b| - 1 :: b[1..][i] == b[i + 1];
  }

  lemma {:induction false} BlockOpen(b: string)
    requires NoTerminator(b)
    ensures BlockLen(b) == |b|
  {
    if b != [] {
      NoTerminatorTail(b);
      BlockOpen(b[1..]);
    }
  }

  lemma {:induction false} LinePrinted(b: string, rest: string)
    requires '\n' !in b && (rest == [] || rest[0] == '\n')
    ensures LineLen(b + rest) == |b|
  {
    if b == [] {
      assert b + rest == rest;
    } else {
      assert (b + rest)[0] == b[0] && (b + rest)[1..] == b[1..] + rest && b[0] in b;
      LinePrinted(b[1..], rest);
    }
  }

  lemma {:induction false} TagPrinted(tag: string, rest: string)
    requires (forall c | c in tag :: TagChar(c)) && (rest == [] || !TagChar(rest[0]))
    ensures TagRun(tag + rest) == |tag|
  {
    if tag == [] {
      assert tag + rest == rest;
    } else {
      assert (tag + rest)[0] == tag[0] && (tag + rest)[1..] == tag[1..] + rest && tag[0] in tag;
      TagPrinted(tag[1..], rest);
    }
  }

  /** A pattern that ends a body, and does not occur before, is found there. */
  lemma FoundAtEnd(front: string, body: string, pat: string, rest: string)
    requires OnlyAtEnd(body, pat)
    ensures FindFrom(front + (body + pat) + rest, pat, |front|) == |front| + |body|
  {
    var s, k := front + (body + pat) + rest, |front| + |body|;
    assert s[k..k + |pat|] == pat;
    assert OccursAt(s, pat, k);
    forall j | |front| <= j < k ensures !OccursAt(s, pat, j) {
      assert s[j..j + |pat|] == (body + pat)[j - |front|..j - |front| + |pat|];
      assert !OccursAt(body + pat, pat, j - |front|);
    }
  }

  // ---- Reading what was printed ----

  lemma CharHead(r: Rules, c: char, rest: string)
    requires OpensNothing(r, c, rest)
    ensures Head(r, [c] + rest) == Take(Code(c), 1)
  {
    var s := [c] + rest;
    assert s[0] == c && s[1..] == rest;
    if |s| > 1 { assert s[1] == rest[0]; }
  }

  lemma CastHead(r: Rules, rest: string)
    requires r.named
    ensures Head(r, "::" + rest) == Take(Cast, 2)
  {
  }

  lemma NameHead(r: Rules, n: string, rest: string)
    requires r.named && IsAlias(n) && (rest == [] || !IsIdentPart(rest[0]))
    ensures Head(r, ":" + n + rest) == Take(Param(n), 1 + |n|)
  {
    var s := ":" + n + rest;
    assert s[1..] == n + rest && s[1] == n[0];
    IdentRun(n, rest);
    ParamHead(r, s);
    assert s[1..1 + |n|] == n;
  }

  /** A region whose length is known is read whole. */
  lemma RegionHead(r: Rules, t: string, rest: string)
    requires t != [] && OpensRegion(r, t + rest) && RegionLen(t + rest) == |t|
    ensures Head(r, t + rest) == Take(Opaque(t), |t|)
  {
    hide OpensRegion, RegionLen;
    assert (t + rest)[..|t|] == t;
  }

  lemma QuotedHead(r: Rules, q: char, b: string, rest: string)
    requires QuoteKnown(r, q) && !Begins(rest, q)
    ensures Head(r, Print(Quoted(q, b)) + rest) == Take(Opaque(Print(Quoted(q, b))), |Print(Quoted(q, b))|)
  {
    hide QuotedLen, Head;
    var t, s := Print(Quoted(q, b)), Print(Quoted(q, b)) + rest;
    QuotedPrinted(b, q, rest);
    assert s[0] == q && s[1..] == Doubled(b, q) + [q] + rest;
    RegionHead(r, t, rest);
  }

  lemma BracketedHead(r: Rules, b: string, rest: string)
    requires r.dialect.SqlServer? && !Begins(rest, ']')
    ensures Head(r, Print(Bracketed(b)) + rest) == Take(Opaque(Print(Bracketed(b))), |Print(Bracketed(b))|)
  {
    hide QuotedLen, Head;
    var t, s := Print(Bracketed(b)), Print(Bracketed(b)) + rest;
    QuotedPrinted(b, ']', rest);
    assert s[0] == '[' && s[1..] == Doubled(b, ']') + [']'] + rest;
    RegionHead(r, t, rest);
  }

  lemma LineHead(r: Rules, t: string, rest: string)
    requires '\n' !in t && (rest == [] || rest[0] == '\n')
    requires (t != [] && t[0] == '#' && r.dialect.MySql?) || (|t| > 1 && t[0] == '-' && t[1] == '-')
    ensures Head(r, t + rest) == Take(Opaque(t), |t|)
  {
    hide LineLen, Head;
    var s := t + rest;
    LinePrinted(t, rest);
    assert s[0] == t[0];
    if t[0] == '-' { assert s[1] == '-'; }
    RegionHead(r, t, rest);
  }

  lemma BlockHead(r: Rules, b: string, rest: string)
    requires NoTerminator(b)
    ensures Head(r, Print(Block(b)) + rest) == Take(Opaque(Print(Block(b))), |Print(Block(b))|)
  {
    hide BlockLen, Head;
    var t, s := Print(Block(b)), Print(Block(b)) + rest;
    BlockPrinted(b, rest);
    assert s[0] == '/' && s[1] == '*' && s[2..] == b + "*/" + rest;
    RegionHead(r, t, rest);
  }

  lemma DollarHead(r: Rules, tag: string, b: string, rest: string)
    requires Fits(r, Dollar(tag, b), rest)
    ensures var t := Print(Dollar(tag, b)); Head(r, t + rest) == Take(Opaque(t), |t|)
  {
    hide Head;
    var t, d := Print(Dollar(tag, b)), Delimiter(tag);
    var s := t + rest;
    DollarPrinted(tag, b, rest);
    assert s[0] == '$';
    hide DollarLen;
    RegionHead(r, t, rest);
  }

  lemma DollarPrinted(tag: string, b: string, rest: string)
    requires (forall c | c in tag :: TagChar(c)) && b != [] && !TagChar(b[0]) && OnlyAtEnd(b, Delimiter(tag))
    ensures var s := Print(Dollar(tag, b)) + rest; s[0] == '$' && DollarLen(s) == |Print(Dollar(tag, b))|
  {
    hide FindFrom, TagRun, OnlyAtEnd, TagChar, Print, DollarLen;
    var d := Delimiter(tag);
    var s := Print(Dollar(tag, b)) + rest;
    DollarText(tag, b, rest);
    TagChars(tag);
    TagPrinted(tag + "$", b + d + rest);
    DollarMeasured(s);
    FoundAtEnd(d, b, d, rest);
  }

  lemma TagChars(tag: string)
    requires forall c | c in tag :: TagChar(c)
    ensures forall c | c in tag + "$" :: TagChar(c)
  {
  }

  lemma DollarText(tag: string, b: string, rest: string)
    ensures var d, t := Delimiter(tag), Print(Dollar(tag, b));
      var s := t + rest;
      && |d| == |tag| + 2 && |t| == |d| + |b| + |d| && s == d + (b + d) + rest
      && s[0] == '$' && s[1..] == (tag + "$") + (b + d + rest) && s[..|d|] == d && s[|d| - 1] == '$'
      && (b + d + rest)[0] == (if b == [] then '$' else b[0])
  {
    var d := Delimiter(tag);
    assert d[1..] == tag + "$";
    var u := b + d + rest;
    assert d + (b + d) + rest == d + u;
    assert (d + u)[1..] == d[1..] + u;
  }

  lemma DollarMeasured(s: string)
    requires s != [] && s[0] == '$'
    ensures var k := 1 + TagRun(s[1..]);
      DollarLen(s) == if k == 1 || s[k - 1] != '$' then 0
        else var i := FindFrom(s, s[..k], k); if i > |s| then 0 else i + k
  {
    hide FindFrom, TagRun;
  }

  lemma QQuoteHead(r: Rules, c: char, b: string, rest: string)
    requires r.dialect.Oracle? && OnlyAtEnd(b, [Match(c), '\''])
    ensures var t := Print(QQuote(c, b)); Head(r, t + rest) == Take(Opaque(t), |t|)
  {
    hide Head, FindFrom, OnlyAtEnd;
    var t, open, close := Print(QQuote(c, b)), "q'" + [c], [Match(c), '\''];
    var s := t + rest;
    assert s == open + (b + close) + rest;
    assert s[0] == 'q' && s[1] == '\'' && s[2] == c && Closer(c) == Match(c);
    FoundAtEnd(open, b, close, rest);
    assert QQuoteLen(s) == |t|;
    RegionHead(r, t, rest);
  }

  /** One token: where it fits it is read, whole, as what it stands for. */
  lemma TokenHead(r: Rules, t: Token, rest: string)
    requires Fits(r, t, rest)
    ensures Print(t) != [] && Head(r, Print(t) + rest) == Take(Meant(t), |Print(t)|)
  {
    hide Head, OnlyAtEnd, NoTerminator, OpensNothing, Doubled;
    match t {
      case Char(c) => CharHead(r, c, rest);
      case CastOp => CastHead(r, rest);
      case Name(n) => NameHead(r, n, rest);
      case Quoted(q, b) => QuotedHead(r, q, b, rest);
      case Bracketed(b) => BracketedHead(r, b, rest);
      case Dashes(b) => LineHead(r, "--" + b, rest);
      case Hash(b) => LineHead(r, "#" + b, rest);
      case Block(b) => BlockHead(r, b, rest);
      case Dollar(tag, b) => DollarHead(r, tag, b, rest);
      case QQuote(c, b) => QQuoteHead(r, c, b, rest);
    }
  }

  /** An unclosed quote or block comment reaches to the end. */
  lemma TailRead(r: Rules, t: Tail)
    requires TailFits(r, t)
    ensures Lex(r, PrintTail(t)) == Scan(TailMeant(t), [])
  {
    hide Lex, QuotedLen, BlockLen, Head;
    var s := PrintTail(t);
    assert s + "" == s;
    match t {
      case NoTail =>
      case OpenQuote(q, b) =>
        QuotedOpen(b, q);
        assert s[1..] == Doubled(b, q);
        RegionHead(r, s, "");
      case OpenBracket(b) =>
        QuotedOpen(b, ']');
        assert s[1..] == Doubled(b, ']');
        RegionHead(r, s, "");
      case OpenBlock(b) =>
        BlockOpen(b);
        assert s[2..] == b;
        RegionHead(r, s, "");
    }
    if t.NoTail? {
      ScanEnd(r, s);
    } else {
      assert s[|s|..] == [];
      ScanEnd(r, []);
      ScanCons(r, s);
      assert Lex(r, s).toks == [Opaque(s)] + Lex(r, s).toks[1..];
    }
  }

  /** What follows a token that fits is scanned as if it stood alone, whether or not that ends. */
  lemma TokenReads(r: Rules, t: Token, rest: string)
    requires Fits(r, t, rest)
    ensures Lex(r, Print(t) + rest) == Scan([Meant(t)] + Lex(r, rest).toks, Lex(r, rest).rest)
  {
    hide Lex, Head, Fits, Print, Meant;
    var s := Print(t) + rest;
    TokenHead(r, t, rest);
    assert s[|Print(t)|..] == rest;
    ScanCons(r, s);
    var toks := Lex(r, s).toks;
    assert toks == [toks[0]] + toks[1..];
  }

  lemma SourceNext(r: Rules, ts: seq<Token>, tail: Tail)
    requires ts != []
    ensures Source(ts, tail) == Print(ts[0]) + Source(ts[1..], tail)
    ensures AllMeant(ts) == [Meant(ts[0])] + AllMeant(ts[1..])
    ensures Written(r, ts, tail) <==> Fits(r, ts[0], Source(ts[1..], tail)) && Written(r, ts[1..], tail)
  {
    hide Print, PrintTail, Meant, Fits;
    assert Print(ts[0]) + PrintAll(ts[1..]) + PrintTail(tail) == Print(ts[0]) + (PrintAll(ts[1..]) + PrintTail(tail));
  }

  lemma SourceEnds(r: Rules, tail: Tail)
    ensures Source([], tail) == PrintTail(tail) && AllMeant([]) == [] && (Written(r, [], tail) <==> TailFits(r, tail))
  {
    hide PrintTail;
    assert "" + PrintTail(tail) == PrintTail(tail);
  }

  /** Every written template is read as its tokens, under every rule set that they are written for. */
  lemma {:induction false} WrittenReads(r: Rules, ts: seq<Token>, tail: Tail)
    requires Written(r, ts, tail)
    ensures Lex(r, Source(ts, tail)) == Scan(AllMeant(ts) + TailMeant(tail), [])
  {
    hide Lex, Written, Source, Fits, Print, PrintTail, AllMeant, Meant, TailMeant, TailFits;
    if ts == [] {
      SourceEnds(r, tail);
      TailRead(r, tail);
      assert [] + TailMeant(tail) == TailMeant(tail);
    } else {
      SourceNext(r, ts, tail);
      WrittenReads(r, ts[1..], tail);
      TokenReads(r, ts[0], Source(ts[1..], tail));
      var first, more, last := [Meant(ts[0])], AllMeant(ts[1..]), TailMeant(tail);
      assert first + (more + last) == first + more + last;
    }
  }

  // ---- Every scanned template was written ----

  lemma {:induction false} Undouble(s: string, q: char) returns (body: string, closed: bool)
    ensures var n := QuotedLen(s, q);
      if closed then s[..n] == Doubled(body, q) + [q] && !Begins(s[n..], q) else n == |s| && s == Doubled(body, q)
    decreases |s|
  {
    hide QuotedLen, Doubled;
    if s != [] { QuotedUnfolds(s, q); }
    NoneDoubled(q);
    if s == [] {
      body, closed := [], false;
    } else if s[0] != q {
      body, closed := Undouble(s[1..], q);
      DoubledCons(s[0], body, q);
      body := [s[0]] + body;
      assert s == [s[0]] + s[1..];
      Prefixed([s[0]], s[1..], QuotedLen(s[1..], q));
    } else if |s| > 1 && s[1] == q {
      body, closed := Undouble(s[2..], q);
      DoubledCons(q, body, q);
      body := [q] + body;
      assert s == [q, q] + s[2..];
      Prefixed([q, q], s[2..], QuotedLen(s[2..], q));
    } else {
      body, closed := [], true;
    }
  }

  lemma NoneDoubled(q: char)
    ensures Doubled([], q) == [] && QuotedLen([], q) == 0
  {
  }

  lemma Prefixed(a: string, s: string, n: nat)
    requires n <= |s|
    ensures (a + s)[..|a| + n] == a + s[..n] && (a + s)[|a| + n..] == s[n..]
  {
  }

  lemma DoubledCons(c: char, body: string, q: char)
    ensures Doubled([c] + body, q) == (if c == q then [q, q] else [c]) + Doubled(body, q)
  {
    assert ([c] + body)[1..] == body;
  }

  lemma {:induction false} BlockSplits(s: string) returns (b: string, closed: bool)
    ensures NoTerminator(b)
    ensures var n := BlockLen(s); if closed then s[..n] == b + "*/" else n == |s| && s == b
    decreases |s|
  {
    if s == [] {
      b, closed := [], false;
    } else if |s| > 1 && s[0] == '*' && s[1] == '/' {
      b, closed := [], true;
    } else {
      b, closed := BlockSplits(s[1..]);
      assert s == [s[0]] + s[1..];
      var n := BlockLen(s[1..]);
      if closed { assert s[..n + 1] == [s[0]] + s[1..][..n]; }
      if b != [] { assert s[1] == b[0] by { assert s[1] == s[1..][0] && (closed ==> s[1..][0] == s[1..][..n][0]); } }
      b := [s[0]] + b;
    }
  }

  lemma TagSplits(s: string, k: nat)
    requires s != [] && s[0] == '$' && k == 1 + TagRun(s[1..]) && k > 1 && s[k - 1] == '$'
    ensures s[..k] == Delimiter(s[1..k - 1]) && (forall c | c in s[1..k - 1] :: TagChar(c))
    ensures k < |s| ==> !TagChar(s[k])
  {
    hide TagRun;
    forall c | c in s[1..k - 1] ensures TagChar(c) {
      var j :| 0 <= j < k - 2 && s[1..k - 1][j] == c;
      assert s[1..][j] == c;
    }
    if k < |s| { assert s[1..][k - 1] == s[k]; }
  }

  /** Between the first pattern and its next occurrence there is no other. */
  lemma FirstMatch(s: string, pat: string, k: nat)
    requires k <= |s| && FindFrom(s, pat, k) <= |s|
    ensures var i := FindFrom(s, pat, k);
      i + |pat| <= |s| && OnlyAtEnd(s[k..i], pat) && s[k..i + |pat|] == s[k..i] + pat
  {
    var i := FindFrom(s, pat, k);
    hide FindFrom;
    assert k <= i && OccursAt(s, pat, i) && forall j | k <= j < i :: !OccursAt(s, pat, j);
    NoneBetween(s, pat, k, i);
  }

  lemma NoneBetween(s: string, pat: string, k: nat, i: nat)
    requires k <= i && OccursAt(s, pat, i) && forall j | k <= j < i :: !OccursAt(s, pat, j)
    ensures i + |pat| <= |s| && OnlyAtEnd(s[k..i], pat) && s[k..i + |pat|] == s[k..i] + pat
  {
    var b := s[k..i];
    assert s[k..i + |pat|] == b + s[i..i + |pat|];
    forall j | 0 <= j < |b| ensures !OccursAt(b + pat, pat, j) {
      assert !OccursAt(s, pat, k + j);
      OccursWithin(s, b + pat, pat, k, j);
    }
  }

  lemma OccursWithin(s: string, t: string, pat: string, k: nat, j: nat)
    requires k + |t| <= |s| && s[k..k + |t|] == t
    ensures OccursAt(t, pat, j) ==> OccursAt(s, pat, k + j)
  {
    if j + |pat| <= |t| {
      var u, v := t[j..j + |pat|], s[k + j..k + j + |pat|];
      forall m | 0 <= m < |pat| ensures u[m] == v[m] { assert t[j + m] == s[k..k + |t|][j + m] == s[k + (j + m)]; }
      assert u == v;
    }
  }

  lemma DollarSplits(s: string) returns (tag: string, b: string)
    requires s != [] && s[0] == '$' && DollarLen(s) > 0
    ensures (forall c | c in tag :: TagChar(c)) && b != [] && !TagChar(b[0]) && OnlyAtEnd(b, Delimiter(tag))
    ensures s[..DollarLen(s)] == Print(Dollar(tag, b))
  {
    hide DollarLen, TagRun, FindFrom, OnlyAtEnd, TagChar, Delimiter, OccursAt;
    DollarMeasured(s);
    var k := 1 + TagRun(s[1..]);
    var d := s[..k];
    var i := FindFrom(s, d, k);
    TagSplits(s, k);
    FirstMatch(s, d, k);
    tag, b := s[1..k - 1], s[k..i];
    assert s[..i + k] == d + s[k..i + k];
    DollarTags();
    NotAtOnce(s, d, k, i);
  }

  lemma NotAtOnce(s: string, d: string, k: nat, i: nat)
    requires k <= i <= i + |d| <= |s| && d != [] && d[0] == '$' && s[k..i + |d|] == s[k..i] + d && s[k] != '$'
    ensures s[k..i] != [] && s[k..i][0] == s[k]
  {
    assert s[k..i + |d|][0] == s[k];
  }

  lemma DollarTags() ensures TagChar('$') {}

  lemma QQuoteSplits(s: string) returns (c: char, b: string)
    requires OpensQQuote(s) && QQuoteLen(s) > 0
    ensures OnlyAtEnd(b, [Match(c), '\'']) && s[..QQuoteLen(s)] == Print(QQuote(c, b))
  {
    c := s[2];
    var close := [Match(c), '\''];
    assert Closer(c) == Match(c);
    var i := FindFrom(s, close, 3);
    assert QQuoteLen(s) == i + 2;
    hide FindFrom, QQuoteLen, OnlyAtEnd;
    FirstMatch(s, close, 3);
    b := s[3..i];
    assert s[..i + 2] == s[..3] + s[3..i + 2] && s[..3] == "q'" + [c];
  }

  lemma {:induction false} LineSplits(s: string)
    ensures var n := LineLen(s); '\n' !in s[..n] && (n == |s| || s[n] == '\n')
  {
    if s != [] && s[0] != '\n' {
      LineSplits(s[1..]);
      var n := LineLen(s[1..]);
      assert s[..n + 1] == [s[0]] + s[1..][..n];
    }
  }

  /** The token, or the unclosed end, that the next step of a scan reads. */
  ghost predicate Parsed(r: Rules, s: string, n: nat, t: Token, tail: Tail) {
    if tail.NoTail? then n <= |s| && s[..n] == Print(t) && Fits(r, t, s[n..])
    else n == |s| && s == PrintTail(tail) && TailFits(r, tail)
  }

  lemma QuoteParsed(r: Rules, s: string) returns (t: Token, tail: Tail)
    requires s != [] && QuoteKnown(r, s[0])
    ensures Parsed(r, s, 1 + QuotedLen(s[1..], s[0]), t, tail)
  {
    hide QuotedLen, Doubled;
    var q, n := s[0], QuotedLen(s[1..], s[0]);
    var b, closed := Undouble(s[1..], q);
    assert s == [q] + s[1..] && s[..n + 1] == [q] + s[1..][..n] && s[1..][n..] == s[n + 1..];
    t, tail := Quoted(q, b), if closed then NoTail else OpenQuote(q, b);
  }

  lemma BracketParsed(r: Rules, s: string) returns (t: Token, tail: Tail)
    requires s != [] && s[0] == '[' && r.dialect.SqlServer?
    ensures Parsed(r, s, 1 + QuotedLen(s[1..], ']'), t, tail)
  {
    hide QuotedLen, Doubled;
    var n := QuotedLen(s[1..], ']');
    var b, closed := Undouble(s[1..], ']');
    assert s == "[" + s[1..] && s[..n + 1] == "[" + s[1..][..n] && s[1..][n..] == s[n + 1..];
    t, tail := Bracketed(b), if closed then NoTail else OpenBracket(b);
  }

  lemma BlockParsed(r: Rules, s: string) returns (t: Token, tail: Tail)
    requires |s| > 1 && s[0] == '/' && s[1] == '*'
    ensures Parsed(r, s, 2 + BlockLen(s[2..]), t, tail)
  {
    hide BlockLen, NoTerminator;
    var n := BlockLen(s[2..]);
    var b, closed := BlockSplits(s[2..]);
    assert s == "/*" + s[2..] && s[..n + 2] == "/*" + s[2..][..n] && s[2..][n..] == s[n + 2..];
    t, tail := Block(b), if closed then NoTail else OpenBlock(b);
  }

  lemma LineParsed(r: Rules, s: string) returns (t: Token)
    requires (s != [] && s[0] == '#' && r.dialect.MySql?) || (|s| > 1 && s[0] == '-' && s[1] == '-')
    ensures Parsed(r, s, LineLen(s), t, NoTail)
  {
    LineSplits(s);
    var n := LineLen(s);
    if s[0] == '#' {
      t := Hash(s[1..n]);
      assert s[..n] == "#" + s[1..n] && forall c | c in s[1..n] :: c in s[..n];
    } else {
      assert LineLen(s[1..]) >= 1;
      t := Dashes(s[2..n]);
      assert s[..n] == "--" + s[2..n] && forall c | c in s[2..n] :: c in s[..n];
    }
  }

  lemma CodeParsed(r: Rules, s: string) returns (t: Token)
    requires s != [] && !OpensRegion(r, s)
    ensures Parsed(r, s, CodeHead(r.named, s).len, t, NoTail)
  {
    hide IdentLen;
    var h := CodeHead(r.named, s);
    match h.lexeme {
      case Cast => t := CastOp;
      case Param(n) =>
        t := Name(n);
        assert n == s[1..h.len] && n[0] == s[1];
        assert forall i | 0 <= i < |n| :: n[i] == s[1..][i];
        if h.len < |s| { assert s[h.len] == s[1..][h.len - 1]; }
      case Code(c) =>
        t := Char(c);
        if |s| > 1 { assert s[1..][0] == s[1]; }
        if |s| == 2 { assert s[1..] == [s[1]]; }
    }
  }

  lemma RegionParsed(r: Rules, s: string) returns (t: Token, tail: Tail)
    requires OpensRegion(r, s) && RegionLen(s) > 0
    ensures Parsed(r, s, RegionLen(s), t, tail)
  {
    hide QuotedLen, LineLen, BlockLen, DollarLen, QQuoteLen, Parsed;
    t, tail := CastOp, NoTail;
    if s[0] == '$' {
      var tag, b := DollarSplits(s);
      t := Dollar(tag, b);
      FoundToken(r, s, DollarLen(s), t);
    } else if s[0] == 'q' {
      var c, b := QQuoteSplits(s);
      t := QQuote(c, b);
      FoundToken(r, s, QQuoteLen(s), t);
    } else if s[0] == '[' {
      t, tail := BracketParsed(r, s);
    } else if s[0] == '#' || s[0] == '-' {
      t := LineParsed(r, s);
    } else if s[0] == '/' {
      t, tail := BlockParsed(r, s);
    } else {
      t, tail := QuoteParsed(r, s);
    }
  }

  lemma FoundToken(r: Rules, s: string, n: nat, t: Token)
    requires n <= |s| && s[..n] == Print(t) && Fits(r, t, s[n..])
    ensures Parsed(r, s, n, t, NoTail)
  {
  }

  /** Every template that scans to its end is written in some way. */
  lemma {:induction false} ScannedIsWritten(r: Rules, s: string) returns (ts: seq<Token>, tail: Tail)
    requires Lex(r, s).rest == []
    ensures Written(r, ts, tail) && s == Source(ts, tail)
    decreases |s|
  {
    hide Lex, Head, Fits, Print, PrintTail, TailFits, Written, Source;
    ts, tail := [], NoTail;
    if s == [] {
      NothingWritten(r);
    } else if Head(r, s).Stuck? {
      ScanEnd(r, s);
    } else {
      var n, t, open := NextParsed(r, s);
      ScanCons(r, s);
      if open.NoTail? {
        var more;
        more, tail := ScannedIsWritten(r, s[n..]);
        ts := [t] + more;
        assert ts[1..] == more;
        assert s == s[..n] + s[n..];
        SourceNext(r, ts, tail);
      } else {
        tail := open;
        SourceEnds(r, tail);
      }
    }
  }

  lemma NothingWritten(r: Rules)
    ensures Written(r, [], NoTail) && Source([], NoTail) == ""
  {
  }

  lemma NextParsed(r: Rules, s: string) returns (n: nat, t: Token, tail: Tail)
    requires s != [] && Head(r, s).Take?
    ensures n == Head(r, s).len && Parsed(r, s, n, t, tail)
  {
    hide RegionLen, CodeHead, OpensRegion, Parsed;
    n, tail := Head(r, s).len, NoTail;
    if OpensRegion(r, s) { t, tail := RegionParsed(r, s); } else { t := CodeParsed(r, s); }
  }

  /** So the lexer and the grammar say the same: a template scans to its end if and only if it is
      written in tokens, and then it is read as these. */
  lemma ScansIffWritten(r: Rules, s: string)
    ensures Lex(r, s).rest == [] <==> exists ts, tail :: Written(r, ts, tail) && s == Source(ts, tail)
    ensures forall ts, tail | Written(r, ts, tail) && s == Source(ts, tail) ::
      Lex(r, s).toks == AllMeant(ts) + TailMeant(tail)
  {
    hide Lex, Written, Source;
    if Lex(r, s).rest == [] {
      var ts, tail := ScannedIsWritten(r, s);
    }
    forall ts, tail | Written(r, ts, tail) && s == Source(ts, tail)
      ensures Lex(r, s) == Scan(AllMeant(ts) + TailMeant(tail), [])
    {
      WrittenReads(r, ts, tail);
    }
  }

  // ---- What the three scanners make of a written template ----

  function NamesIn(ts: seq<Token>): seq<string> {
    if ts == [] then [] else (if ts[0].Name? then [ts[0].name] else []) + NamesIn(ts[1..])
  }

  /** The text with the k-th name replaced by `ph(n + k)`. */
  function Substituted(ph: nat -> string, n: nat, ts: seq<Token>): string
    decreases |ts|
  {
    if ts == [] then ""
    else if ts[0].Name? then ph(n + 1) + Substituted(ph, n + 1, ts[1..])
    else Print(ts[0]) + Substituted(ph, n, ts[1..])
  }

  /** The text outside quotes and comments. */
  function CodeOf(ts: seq<Token>): string {
    if ts == [] then ""
    else (if ts[0].Char? || ts[0].CastOp? || ts[0].Name? then Print(ts[0]) else "") + CodeOf(ts[1..])
  }

  lemma MeantText(t: Token)
    ensures Text(Meant(t)) == Print(t)
  {
  }

  lemma {:induction false} ReadingsOf(ts: seq<Token>, last: seq<Lexeme>)
    requires last == [] || (|last| == 1 && last[0].Opaque?)
    ensures ParamNames(AllMeant(ts) + last) == NamesIn(ts) && Stripped(AllMeant(ts) + last) == CodeOf(ts)
  {
    hide Print;
    var toks := AllMeant(ts) + last;
    if ts == [] {
      assert toks == last;
      if last != [] { assert last[1..] == []; }
    } else {
      assert toks[0] == Meant(ts[0]) && toks[1..] == AllMeant(ts[1..]) + last;
      MeantText(ts[0]);
      ReadingsOf(ts[1..], last);
    }
  }

  lemma MeantNext(ts: seq<Token>, last: seq<Lexeme>)
    requires ts != []
    ensures var toks := AllMeant(ts) + last;
      toks != [] && toks[0] == Meant(ts[0]) && toks[1..] == AllMeant(ts[1..]) + last
  {
    hide Meant;
    var first, more := [Meant(ts[0])], AllMeant(ts[1..]);
    assert AllMeant(ts) == first + more;
    hide AllMeant;
    assert first + more + last == first + (more + last);
  }

  lemma TailBound(ph: nat -> string, n: nat, tail: Tail)
    ensures Bound(ph, n, TailMeant(tail)) == PrintTail(tail)
  {
    hide Bound, PrintTail;
    NoTailPrinted();
    NothingBound(ph, n);
    var toks := TailMeant(tail);
    if toks != [] {
      BoundHead(ph, n, toks);
      assert toks[1..] == [];
    }
  }

  lemma {:induction false} BoundOf(ph: nat -> string, n: nat, ts: seq<Token>, tail: Tail)
    ensures Bound(ph, n, AllMeant(ts) + TailMeant(tail)) == Substituted(ph, n, ts) + PrintTail(tail)
    decreases |ts|
  {
    hide Bound, Print, PrintTail, TailMeant, Meant;
    var toks := AllMeant(ts) + TailMeant(tail);
    if ts == [] {
      assert toks == TailMeant(tail);
      TailBound(ph, n, tail);
    } else {
      MeantNext(ts, TailMeant(tail));
      hide AllMeant;
      MeantText(ts[0]);
      MeantParam(ts[0]);
      BoundHead(ph, n, toks);
      var m := if ts[0].Name? then n + 1 else n;
      BoundOf(ph, m, ts[1..], tail);
      Grouped(if ts[0].Name? then ph(n + 1) else Print(ts[0]), Substituted(ph, m, ts[1..]), PrintTail(tail));
    }
  }

  lemma MeantParam(t: Token) ensures Meant(t).Param? <==> t.Name? {}

  lemma Grouped(a: string, b: string, c: string) ensures a + (b + c) == a + b + c {}

  lemma NoTailPrinted() ensures PrintTail(NoTail) == "" {}

  /** Binding a written template replaces its names, in order, by the placeholders, touches nothing
      else, and passes their values; or it reports the first name without a value. */
  lemma BindsWritten<V>(r: Rules, ts: seq<Token>, tail: Tail, params: map<string, V>, ph: nat -> string)
    requires Written(r, ts, tail)
    ensures var names, o := NamesIn(ts), BindMeaning(r, Source(ts, tail), params, ph);
      if forall x | x in names :: x in params
      then o.BoundQuery? && o.sql == Substituted(ph, 0, ts) + PrintTail(tail)
        && |o.args| == |names| && forall i | 0 <= i < |names| :: o.args[i] == params[names[i]]
      else o.MissingParam? && exists i | 0 <= i < |names| ::
        o.name == names[i] && names[i] !in params && forall j | 0 <= j < i :: names[j] in params
  {
    hide Lex, Written, Source, Bound, ParamNames, AllMeant, PrintTail, NamesIn, Substituted, FirstMissing;
    WrittenReads(r, ts, tail);
    ReadingsOf(ts, TailMeant(tail));
    BoundOf(ph, 0, ts, tail);
    var names := NamesIn(ts);
    var m := FirstMissing(names, params.Keys);
    if forall x | x in names :: x in params {
      assert forall i | 0 <= i < |names| :: names[i] in names && names[i] in params;
    } else {
      var x :| x in names && x !in params;
      var i :| 0 <= i < |names| && names[i] == x;
      assert m <= i;
    }
  }

  /** Extraction finds exactly its names, and stripping leaves exactly its code. */
  lemma ExtractsWritten(r: Rules, ts: seq<Token>, tail: Tail)
    requires Written(r, ts, tail)
    ensures ParamNames(Lex(r, Source(ts, tail)).toks) == NamesIn(ts)
    ensures Stripped(Lex(r, Source(ts, tail)).toks) == CodeOf(ts)
  {
    hide Lex, Written, Source, AllMeant, PrintTail, ParamNames, Stripped, NamesIn, CodeOf;
    WrittenReads(r, ts, tail);
    ReadingsOf(ts, TailMeant(tail));
  }

  // ---- Dollar quotes as Postgres defines them ----

  /** A Postgres dollar quote, its tag an identifier or empty, is read as one region if and only if its
      body begins with a character that is neither a dollar sign nor part of an identifier. */
  lemma DollarReadIff(r: Rules, tag: string, b: string, rest: string)
    requires r.dollar && (forall c | c in tag :: IsIdentPart(c)) && OnlyAtEnd(b, Delimiter(tag))
    ensures var t := Print(Dollar(tag, b));
      Head(r, t + rest) == Take(Opaque(t), |t|) <==> b != [] && !TagChar(b[0])
  {
    hide OnlyAtEnd, Head;
    if b != [] && !TagChar(b[0]) {
      DollarHead(r, tag, b, rest);
    } else {
      LongerTag(tag, b, rest);
      TakesLen(r, Print(Dollar(tag, b)) + rest);
    }
  }

  lemma TakesLen(r: Rules, s: string)
    requires r.dollar && s != [] && s[0] == '$'
    ensures Head(r, s).Take? ==> Head(r, s).len == DollarLen(s)
  {
    hide DollarLen;
  }

  /** The opening tag swallows the beginning of the body. */
  lemma LongerTag(tag: string, b: string, rest: string)
    requires (forall c | c in tag :: IsIdentPart(c)) && OnlyAtEnd(b, Delimiter(tag)) && (b == [] || TagChar(b[0]))
    ensures var s := Print(Dollar(tag, b)) + rest; s[0] == '$' && DollarLen(s) != |Print(Dollar(tag, b))|
  {
    hide FindFrom, TagRun, OnlyAtEnd, TagChar, DollarLen, Print;
    var d, t := Delimiter(tag), Print(Dollar(tag, b));
    var s := t + rest;
    DollarText(tag, b, rest);
    RunsOn(tag, b, rest);
    DollarMeasured(s);
    var k := 1 + TagRun(s[1..]);
    NoLonger(d, b, rest, k);
  }

  /** An occurrence of a longer tag does not end where the shorter one is found. */
  lemma NoLonger(d: string, b: string, rest: string, k: nat)
    requires OnlyAtEnd(b, d)
    requires var s := d + (b + d) + rest; |d| < k <= |s|
    ensures var s := d + (b + d) + rest; FindFrom(s, s[..k], k) + k != |d| + |b| + |d|
  {
    hide FindFrom;
    var s := d + (b + d) + rest;
    forall i: nat | k <= i && i + k == |d| + |b| + |d| ensures !OccursAt(s, s[..k], i) {
      var j := i - |d|;
      assert !OccursAt(b + d, d, j);
      assert (b + d)[j..j + |d|] == s[i..i + |d|];
      assert s[i..i + k][..|d|] == s[i..i + |d|] && s[..k][..|d|] == d;
    }
  }

  lemma RunsOn(tag: string, b: string, rest: string)
    requires (forall c | c in tag :: IsIdentPart(c)) && (b == [] || TagChar(b[0]))
    ensures var s := Print(Dollar(tag, b)) + rest; TagRun(s[1..]) > |tag| + 1
  {
    hide Print;
    DollarText(tag, b, rest);
    var v := b + Delimiter(tag) + rest;
    var u := tag + "$" + v;
    assert forall i | 0 <= i < |tag| :: u[i] == tag[i] && tag[i] in tag;
    assert u[|tag|] == '$' && u[|tag| + 1] == v[0];
  }

  /** The family that comes up: a quoted word makes every scanner that knows dollar quotes spin. */
  lemma QuotedWordSpins(r: Rules, tag: string, b: string)
    requires r.dollar && (forall c | c in tag :: TagChar(c)) && forall c | c in b :: TagChar(c)
    ensures Spins(r, Print(Dollar(tag, b)))
  {
    var s := Print(Dollar(tag, b));
    assert s[0] == '$' && s[|s| - 1] == '$';
    forall c | c in s[1..] ensures TagChar(c) {
      var d := Delimiter(tag);
      assert c in d || c in b;
      assert forall x | x in d :: x == '$' || x in tag;
    }
    TagPrinted(s[1..], "");
    assert s[1..] + "" == s[1..];
    assert DollarLen(s) == 0;
    assert After(r, s, 0) == s && Unclosed(r, After(r, s, 0));
  }
}
