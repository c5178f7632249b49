/** Text appended to a query, as pagination appends its clause after a space
    (internal/connectors/pagination.go:20-36): it is read on its own exactly when the query does not
    end inside a quote or a comment. */
module Appending {
  import opened SqlLexer
  import opened Whitespace
  import opened Strings

  /** Text that begins with a space. */
  predicate Spaced(c: string) { c != [] && c[0] == ' ' }

  /** Text that begins with white space or a semicolon. */
  predicate Apart(c: string) { c != [] && (IsSpace(c[0]) || c[0] == ';') }

  lemma ApartIsNot(c: string, x: char)
    requires Apart(c) && (x in {'/', '-', '*', ':', '\'', '$', '"', '`', ']', '['} || IsIdentPart(x))
    ensures c != [] && c[0] != x
  {
  }

  /** A length measured on `s`, on `s` and the text, and on `s` and one space: either neither makes a
      difference, or the region reached the end of `s` and a space lengthens it. */
  predicate Alike(len: nat, withText: nat, withSpace: nat, size: nat, spaced: bool) {
    || (withText == len && withSpace == len)
    || (len == size && withSpace > size && (spaced ==> withText > size))
  }

  lemma {:induction false} QuotedOn(s: string, q: char, c: string)
    requires Apart(c) && q in {'\'', '"', '`', ']'}
    ensures Alike(QuotedLen(s, q), QuotedLen(s + c, q), QuotedLen(s + " ", q), |s|, Spaced(c))
    decreases |s|
  {
    hide Apart, QuotedLen;
    var t, u := s + c, s + " ";
    ApartIsNot(c, q);
    QuotedUnfolds(t, q);
    QuotedUnfolds(u, q);
    if s == [] {
      assert t == c && u == " ";
      QuotedNone(q);
    } else {
      QuotedUnfolds(s, q);
      assert t[0] == s[0] && u[0] == s[0] && t[1..] == s[1..] + c && u[1..] == s[1..] + " ";
      if s[0] != q {
        QuotedOn(s[1..], q, c);
      } else if |s| > 1 {
        assert t[1] == s[1] && u[1] == s[1] && t[2..] == s[2..] + c && u[2..] == s[2..] + " ";
        QuotedOn(s[2..], q, c);
      } else {
        assert t[1] == c[0] && u[1] == ' ';
      }
    }
  }

  lemma QuotedNone(q: char) ensures QuotedLen([], q) == 0 {}

  lemma {:induction false} LineOn(s: string, c: string)
    requires Apart(c)
    ensures Alike(LineLen(s), LineLen(s + c), LineLen(s + " "), |s|, Spaced(c))
  {
    if s == [] {
      assert s + c == c && s + " " == " ";
    } else {
      assert (s + c)[1..] == s[1..] + c && (s + " ")[1..] == s[1..] + " ";
      LineOn(s[1..], c);
    }
  }

  lemma {:induction false} BlockOn(s: string, c: string)
    requires Apart(c)
    ensures Alike(BlockLen(s), BlockLen(s + c), BlockLen(s + " "), |s|, Spaced(c))
  {
    if s == [] {
      assert s + c == c && s + " " == " ";
    } else {
      var t, u := s + c, s + " ";
      assert t[0] == s[0] && u[0] == s[0] && t[1..] == s[1..] + c && u[1..] == s[1..] + " ";
      ApartIsNot(c, '/');
      if |s| > 1 { assert t[1] == s[1] && u[1] == s[1]; } else { assert t[1] == c[0] && u[1] == ' '; }
      BlockOn(s[1..], c);
    }
  }

  lemma {:induction false} IdentOn(s: string, c: string)
    requires Apart(c)
    ensures IdentLen(s + c) == IdentLen(s)
  {
    if s == [] {
      assert s + c == c;
      if IsIdentPart(c[0]) { ApartIsNot(c, c[0]); }
    } else {
      assert (s + c)[1..] == s[1..] + c;
      IdentOn(s[1..], c);
    }
  }

  lemma {:induction false} TagOn(s: string, c: string)
    requires Apart(c)
    ensures TagRun(s + c) == TagRun(s)
  {
    if s == [] {
      assert s + c == c;
      ApartIsNot(c, '$');
      if IsIdentPart(c[0]) { ApartIsNot(c, c[0]); }
    } else {
      assert (s + c)[1..] == s[1..] + c;
      TagOn(s[1..], c);
    }
  }

  lemma DollarOn(s: string, c: string)
    requires Apart(c) && s != [] && s[0] == '$' && DollarLen(s) > 0
    ensures DollarLen(s + c) == DollarLen(s)
  {
    hide TagRun, FindFrom;
    assert (s + c)[1..] == s[1..] + c;
    TagOn(s[1..], c);
    var tag := 1 + TagRun(s[1..]);
    assert (s + c)[..tag] == s[..tag];
    FindExtends(s, s[..tag], tag, c);
  }

  lemma RegionOn(s: string, c: string)
    requires Apart(c) && s != [] && RegionLen(s) > 0
    requires CommonRegion(s) || s[0] in {'$', '`', '#', '['} || OpensQQuote(s)
    ensures Alike(RegionLen(s), RegionLen(s + c), RegionLen(s + " "), |s|, Spaced(c))
  {
    hide QuotedLen, LineLen, BlockLen, DollarLen, QQuoteLen;
    var t, u, x := s + c, s + " ", s[0];
    assert t[0] == x && u[0] == x && t[1..] == s[1..] + c && u[1..] == s[1..] + " ";
    if x == '$' {
      DollarOn(s, c);
      DollarOn(s, " ");
    } else if x == '#' || x == '-' {
      LineOn(s, c);
    } else if x == '/' {
      assert t[2..] == s[2..] + c && u[2..] == s[2..] + " ";
      BlockOn(s[2..], c);
    } else if x == 'q' {
      assert t[1] == s[1] && u[1] == s[1];
      QQuoteExtends(s, c);
      QQuoteExtends(s, " ");
    } else {
      QuotedOn(s[1..], if x == '[' then ']' else x, c);
    }
  }

  lemma OpensOn(r: Rules, s: string, c: string)
    requires Apart(c) && s != []
    ensures OpensRegion(r, s + c) == OpensRegion(r, s) || (s == "q'" && r.dialect.Oracle? && OpensQQuote(s + c))
  {
    var t := s + c;
    if |s| > 1 {
      assert t[1] == s[1];
    } else {
      assert t[1] == c[0];
      ApartIsNot(c, '-');
      ApartIsNot(c, '*');
      ApartIsNot(c, '\'');
    }
  }

  lemma CodeOn(named: bool, s: string, c: string)
    requires Apart(c) && s != []
    ensures CodeHead(named, s + c) == CodeHead(named, s)
  {
    var t := s + c;
    assert t[0] == s[0] && t[1..] == s[1..] + c;
    if |s| > 1 {
      assert t[1] == s[1];
      IdentOn(s[1..], c);
      var n := 1 + IdentLen(s[1..]);
      assert t[1..n] == s[1..n];
    } else {
      assert t[1] == c[0];
      ApartIsNot(c, ':');
      if IsIdentPart(c[0]) { ApartIsNot(c, c[0]); }
    }
  }

  lemma LoneQCode(named: bool)
    ensures CodeHead(named, "q'") == Take(Code('q'), 1)
  {
  }

  /** A region that an appended space would lengthen: a quote or a comment left open. */
  predicate Open(l: Lexeme) { l.Opaque? && RegionLen(l.text + " ") > |l.text| }

  /** The next lexeme with text appended: the same, or a last region left open that now reaches
      further, or an Oracle `q'` that the space makes into an opener. */
  lemma HeadOn(r: Rules, s: string, c: string)
    requires Apart(c) && s != [] && Head(r, s).Take?
    ensures
      var h, g := Head(r, s), Head(r, s + c);
      || (g == h && (h.len == |s| ==> !Open(h.lexeme)))
      || (h.len == |s| && Open(h.lexeme) && (Spaced(c) ==> g.Take? && g.lexeme.Opaque? && g.len > |s|))
      || (s == "q'" && h == Take(Code('q'), 1) && (g.Stuck? || g.lexeme.Opaque?))
  {
    hide RegionLen, CodeHead;
    OpensOn(r, s, c);
    if OpensRegion(r, s) {
      RegionOn(s, c);
      var n := RegionLen(s);
      assert (s + c)[..n] == s[..n];
      if n == |s| { assert s[..n] == s; }
    } else {
      CodeOn(r.named, s, c);
      if s == "q'" { assert CodeHead(r.named, s) == Take(Code('q'), 1) by { LoneQCode(r.named); } }
    }
  }

  /** The text scans to its end, and not from inside a region left open. */
  predicate Closed(r: Rules, s: string) {
    var sc := Lex(r, s);
    sc.rest == [] && (sc.toks == [] || !Open(sc.toks[|sc.toks| - 1]))
  }

  lemma ClosedNext(r: Rules, s: string)
    requires s != [] && Head(r, s).Take?
    ensures var h := Head(r, s);
      Closed(r, s) <==> if h.len == |s| then !Open(h.lexeme) else Closed(r, s[h.len..])
  {
    hide Lex, Head, Open;
    var h := Head(r, s);
    var rest := s[h.len..];
    ScanCons(r, s);
    if rest == [] {
      ScanEnd(r, rest);
    } else if Head(r, rest).Take? {
      ScanCons(r, rest);
    } else {
      ScanEnd(r, rest);
    }
  }

  /** The scan of both is the scan of the one and then the scan of the other. */
  ghost predicate ReadApart(r: Rules, s: string, c: string) {
    var a, b := Lex(r, s), Lex(r, c);
    Lex(r, s + c) == Scan(a.toks + b.toks, b.rest)
  }

  lemma FirstApart(r: Rules, s: string, c: string)
    requires Spaced(c) && s != [] && ReadApart(r, s, c)
    ensures var toks := Lex(r, s).toks;
      Lex(r, s + c).toks != [] && Lex(r, s + c).toks[0] == if toks == [] then Code(' ') else toks[0]
  {
    hide Lex, Head;
    SpaceIsCode(r, c);
    ScanCons(r, c);
  }

  lemma StuckApart(r: Rules, s: string, c: string)
    requires Spaced(c) && s != [] && Head(r, s).Stuck?
    ensures !ReadApart(r, s, c)
  {
    hide Lex, RegionLen, Apart;
    ScanEnd(r, s);
    SpacedIsApart(c);
    OpensOn(r, s, c);
    if ReadApart(r, s, c) { FirstApart(r, s, c); }
    if Head(r, s + c).Take? { ScanCons(r, s + c); } else { ScanEnd(r, s + c); }
  }

  lemma NextApart(r: Rules, s: string, c: string)
    requires Apart(c) && s != [] && Head(r, s).Take? && Head(r, s + c) == Head(r, s)
    ensures ReadApart(r, s, c) <==> ReadApart(r, s[Head(r, s).len..], c)
  {
    hide Lex, Head;
    var h := Head(r, s);
    var rest := s[h.len..];
    ScanCons(r, s);
    ScanCons(r, s + c);
    assert (s + c)[h.len..] == rest + c;
    var a, b, both := Lex(r, rest).toks, Lex(r, c).toks, Lex(r, rest + c).toks;
    assert Lex(r, s).toks == [h.lexeme] + a && Lex(r, s + c).toks == [h.lexeme] + both;
    assert [h.lexeme] + (a + b) == [h.lexeme] + a + b;
    assert ([h.lexeme] + both)[1..] == both && ([h.lexeme] + (a + b))[1..] == a + b;
  }

  lemma ChangedApart(r: Rules, s: string, c: string)
    requires Spaced(c) && s != [] && Head(r, s).Take?
    requires var h, g := Head(r, s), Head(r, s + c); g.Stuck? || g.lexeme != h.lexeme
    ensures !ReadApart(r, s, c)
  {
    hide Lex, Head;
    ScanCons(r, s);
    if ReadApart(r, s, c) { FirstApart(r, s, c); }
    if Head(r, s + c).Take? { ScanCons(r, s + c); } else { ScanEnd(r, s + c); }
  }

  lemma SpacedIsApart(c: string)
    requires Spaced(c)
    ensures Apart(c)
  {
  }

  /** For every rule set and text: what is appended after a space is read on its own if and only if
      the text scans to its end and does not leave a region open; and if so, what is appended after
      other white space or a semicolon is read on its own as well. */
  lemma {:induction false} ReadApartIff(r: Rules, s: string, c: string)
    requires Apart(c)
    ensures Closed(r, s) ==> ReadApart(r, s, c)
    ensures Spaced(c) ==> (ReadApart(r, s, c) <==> Closed(r, s))
    decreases |s|
  {
    hide Lex, Head, Open, Apart;
    if s == [] {
      ScanEnd(r, s);
      assert s + c == c;
      assert [] + Lex(r, c).toks == Lex(r, c).toks;
    } else if Head(r, s).Stuck? {
      ScanEnd(r, s);
      if Spaced(c) { StuckApart(r, s, c); }
    } else {
      HeadOn(r, s, c);
      ClosedNext(r, s);
      var h, g := Head(r, s), Head(r, s + c);
      if g == h {
        NextApart(r, s, c);
        ReadApartIff(r, s[h.len..], c);
        if h.len == |s| { ScanEnd(r, s[h.len..]); assert s[h.len..] == []; }
      } else {
        if s == "q'" { LoneQOpen(r); }
        if Spaced(c) {
          if g.Take? { assert |Text(g.lexeme)| == g.len; }
          ChangedApart(r, s, c);
        }
      }
    }
  }

  lemma LoneQOpen(r: Rules)
    ensures !Closed(r, "q'")
  {
    assert "q'"[1..] == "'" && "'"[1..] == "" && "'"[..1] == "'";
    assert Head(r, "q'") == Take(Code('q'), 1) && Head(r, "'") == Take(Opaque("'"), 1);
    assert ("'" + " ")[1..] == " " && " "[1..] == "";
    ClosedNext(r, "q'");
    ClosedNext(r, "'");
  }
}
