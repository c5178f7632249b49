/** Publishing validates the trimmed template but the gateway binds the untrimmed one
    (internal/gateway/validate.go:35, querybuilder.go:70): surrounding white space does
    not change which parameters a scanner finds. */
module Whitespace {
  import opened SqlLexer
  import opened Strings

  lemma SpaceIsCode(r: Rules, s: string)
    requires s != [] && IsSpace(s[0])
    ensures Head(r, s) == Take(Code(s[0]), 1)
  {
  }

  lemma {:induction false} LeadingSpace(r: Rules, pre: string, s: string)
    requires AllSpace(pre)
    ensures ParamNames(Lex(r, pre + s).toks) == ParamNames(Lex(r, s).toks)
    ensures Lex(r, pre + s).rest == Lex(r, s).rest
  {
    hide Lex, Head, IsSpace;
    if pre == [] {
      assert pre + s == s;
    } else {
      var t := pre + s;
      assert t[0] == pre[0] && t[1..] == pre[1..] + s;
      assert pre[0] in pre;
      SpaceIsCode(r, t);
      ScanCons(r, t);
      LeadingSpace(r, pre[1..], s);
    }
  }

  // ---- Regions are local: appended spaces only lengthen one that reached the end ----

  lemma QuotedUnfolds(s: string, q: char)
    requires s != []
    ensures QuotedLen(s, q) ==
      if s[0] != q then 1 + QuotedLen(s[1..], q)
      else if |s| > 1 && s[1] == q then 2 + QuotedLen(s[2..], q)
      else 1
  {
  }

  lemma {:induction false} QuotedExtends(s: string, q: char, w: string)
    requires AllSpace(w) && !IsSpace(q)
    ensures QuotedLen(s + w, q) == QuotedLen(s, q) || (QuotedLen(s, q) == |s| && QuotedLen(s + w, q) >= |s|)
    decreases |s|
  {
    hide IsSpace;
    if s != [] {
      var t := s + w;
      assert t[0] == s[0] && t[1..] == s[1..] + w;
      if s[0] != q {
        QuotedExtends(s[1..], q, w);
      } else if |s| > 1 {
        assert t[1] == s[1] && t[2..] == s[2..] + w;
        QuotedExtends(s[2..], q, w);
      } else if w != [] {
        assert t[1] == w[0] && w[0] in w;
      }
    }
  }

  lemma {:induction false} LineExtends(s: string, w: string)
    ensures LineLen(s + w) == LineLen(s) || (LineLen(s) == |s| && LineLen(s + w) >= |s|)
  {
    if s != [] {
      assert (s + w)[1..] == s[1..] + w;
      LineExtends(s[1..], w);
    }
  }

  lemma NotSpace(c: char)
    requires c in {'/', '-', '*', ':', '\'', '$', '"', '`', ']'} || IsIdentPart(c)
    ensures !IsSpace(c)
  {
  }

  lemma {:induction false} BlockExtends(s: string, w: string)
    requires AllSpace(w)
    ensures BlockLen(s + w) == BlockLen(s) || (BlockLen(s) == |s| && BlockLen(s + w) >= |s|)
  {
    hide IsSpace;
    NotSpace('/');
    if s != [] {
      var t := s + w;
      assert t[0] == s[0] && t[1..] == s[1..] + w;
      if |s| > 1 { assert t[1] == s[1]; } else if w != [] { assert t[1] == w[0] && w[0] in w; }
      BlockExtends(s[1..], w);
    }
  }

  lemma {:induction false} IdentExtends(s: string, w: string)
    requires AllSpace(w)
    ensures IdentLen(s + w) == IdentLen(s)
  {
    hide IsSpace;
    if s != [] {
      assert (s + w)[1..] == s[1..] + w;
      IdentExtends(s[1..], w);
    } else if w != [] {
      assert (s + w)[0] == w[0] && w[0] in w;
      if IsIdentPart(w[0]) { NotSpace(w[0]); }
    }
  }

  lemma {:induction false} TagExtends(s: string, w: string)
    requires AllSpace(w)
    ensures TagRun(s + w) == TagRun(s)
  {
    hide IsSpace;
    if s != [] {
      assert (s + w)[1..] == s[1..] + w;
      TagExtends(s[1..], w);
    } else if w != [] {
      assert (s + w)[0] == w[0] && w[0] in w;
      NotSpace('$');
      if IsIdentPart(w[0]) { NotSpace(w[0]); }
    }
  }

  lemma {:induction false} FindExtends(s: string, pat: string, from: nat, w: string)
    requires FindFrom(s, pat, from) <= |s|
    ensures FindFrom(s + w, pat, from) == FindFrom(s, pat, from)
    decreases |s| - from
  {
    assert (s + w)[from..from + |pat|] == s[from..from + |pat|];
    if !OccursAt(s, pat, from) { FindExtends(s, pat, from + 1, w); }
  }

  /** A pattern that ends in no space and is not found is not found with spaces appended. */
  lemma {:induction false} NotFoundExtends(s: string, pat: string, from: nat, w: string)
    requires AllSpace(w) && pat != [] && !IsSpace(pat[|pat| - 1]) && FindFrom(s, pat, from) > |s|
    ensures FindFrom(s + w, pat, from) > |s + w|
    decreases |s + w| + 1 - from
  {
    hide IsSpace;
    var t, end := s + w, from + |pat|;
    if end <= |t| {
      if end <= |s| {
        assert t[from..end] == s[from..end];
      } else {
        assert t[from..end][|pat| - 1] == t[end - 1] && t[end - 1] == w[end - 1 - |s|] && w[end - 1 - |s|] in w;
      }
      NotFoundExtends(s, pat, from + 1, w);
    }
  }

  lemma DollarStaysOpen(s: string, w: string)
    requires AllSpace(w) && s != [] && s[0] == '$' && DollarLen(s) == 0
    ensures DollarLen(s + w) == 0
  {
    hide IsSpace, TagRun, FindFrom;
    assert (s + w)[1..] == s[1..] + w;
    TagExtends(s[1..], w);
    var tag := 1 + TagRun(s[1..]);
    assert (s + w)[..tag] == s[..tag];
    if tag > 1 && s[tag - 1] == '$' {
      NotSpace('$');
      NotFoundExtends(s, s[..tag], tag, w);
    }
  }

  lemma QQuoteStaysOpen(s: string, w: string)
    requires AllSpace(w) && OpensQQuote(s) && QQuoteLen(s) == 0
    ensures OpensQQuote(s + w) && QQuoteLen(s + w) == 0
  {
    hide IsSpace, FindFrom;
    NotSpace('\'');
    NotFoundExtends(s, [Closer(s[2]), '\''], 3, w);
  }

  lemma StuckExtends(r: Rules, s: string, w: string)
    requires AllSpace(w) && s != [] && Head(r, s).Stuck?
    ensures Head(r, s + w).Stuck?
  {
    hide IsSpace, Head, DollarLen, QQuoteLen;
    StuckIffUnclosed(r, s);
    if r.dollar && s[0] == '$' { DollarStaysOpen(s, w); } else { QQuoteStaysOpen(s, w); }
    StuckIffUnclosed(r, s + w);
  }

  lemma DollarExtends(s: string, w: string)
    requires AllSpace(w) && s != [] && s[0] == '$' && DollarLen(s) > 0
    ensures DollarLen(s + w) == DollarLen(s)
  {
    hide IsSpace, TagRun, FindFrom;
    assert (s + w)[1..] == s[1..] + w;
    TagExtends(s[1..], w);
    var tag := 1 + TagRun(s[1..]);
    assert (s + w)[..tag] == s[..tag];
    FindExtends(s, s[..tag], tag, w);
  }

  lemma QQuoteExtends(s: string, w: string)
    requires OpensQQuote(s) && QQuoteLen(s) > 0
    ensures QQuoteLen(s + w) == QQuoteLen(s)
  {
    FindExtends(s, [Closer(s[2]), '\''], 3, w);
  }

  lemma RegionExtends(s: string, w: string)
    requires AllSpace(w) && s != [] && RegionLen(s) > 0
    requires CommonRegion(s) || s[0] in {'$', '`', '#', '['} || OpensQQuote(s)
    ensures RegionLen(s + w) == RegionLen(s) || (RegionLen(s) == |s| && RegionLen(s + w) >= |s|)
  {
    hide IsSpace, DollarLen, QQuoteLen, QuotedLen, LineLen, BlockLen;
    var t, c := s + w, s[0];
    assert t[0] == c && t[1..] == s[1..] + w;
    if c == '$' { DollarExtends(s, w); }
    else if c == '#' || c == '-' { LineExtends(s, w); }
    else if c == '/' { assert t[2..] == s[2..] + w; BlockExtends(s[2..], w); }
    else if c == 'q' { assert t[1] == s[1]; QQuoteExtends(s, w); }
    else {
      var q := if c == '[' then ']' else c;
      NotSpace(q);
      QuotedExtends(s[1..], q, w);
    }
  }

  lemma OpensExtends(r: Rules, s: string, w: string)
    requires AllSpace(w) && s != []
    ensures OpensRegion(r, s + w) == OpensRegion(r, s)
        || (s == "q'" && r.dialect.Oracle? && w != [] && OpensQQuote(s + w))
  {
    var t := s + w;
    if |s| > 1 { assert t[1] == s[1]; } else if w != [] { assert t[1] == w[0] && w[0] in w; }
  }

  lemma CodeExtends(named: bool, s: string, w: string)
    requires AllSpace(w) && s != []
    ensures CodeHead(named, s + w) == CodeHead(named, s)
  {
    hide IsSpace;
    var t := s + w;
    assert t[0] == s[0] && t[1..] == s[1..] + w;
    NotSpace(':');
    if |s| > 1 {
      assert t[1] == s[1];
      IdentExtends(s[1..], w);
      var n := 1 + IdentLen(s[1..]);
      assert t[1..n] == s[1..n];
    } else if w != [] {
      assert t[1] == w[0] && w[0] in w;
      if IsIdentStart(w[0]) { NotSpace(w[0]); }
    }
  }

  /** Appended spaces leave the next lexeme alone, unless it is a region that already
      reached the end, or a lone trailing `q'`. */
  lemma HeadExtends(r: Rules, s: string, w: string)
    requires AllSpace(w) && s != [] && Head(r, s).Take?
    ensures
      var h, g := Head(r, s), Head(r, s + w);
      || g == h
      || (h.lexeme.Opaque? && h.len == |s| && g.Take? && g.lexeme.Opaque? && g.len >= |s|)
      || s == "q'"
  {
    hide IsSpace, RegionLen, CodeHead;
    OpensExtends(r, s, w);
    if s != "q'" {
      if OpensRegion(r, s) {
        RegionExtends(s, w);
        var n := RegionLen(s);
        assert (s + w)[..n] == s[..n];
      } else {
        CodeExtends(r.named, s, w);
      }
    }
  }

  lemma SpaceScans(r: Rules, w: string)
    requires AllSpace(w)
    ensures ParamNames(Lex(r, w).toks) == [] && Lex(r, w).rest == []
  {
    LeadingSpace(r, w, []);
    assert w + [] == w;
  }

  /** A lone `q'` followed by spaces holds no parameter, and is the one thing that spaces can leave
      open: an Oracle scanner takes the first space for the opening bracket. */
  lemma LoneQQuote(r: Rules, w: string)
    requires AllSpace(w)
    ensures ParamNames(Lex(r, "q'" + w).toks) == []
    ensures Lex(r, "q'" + w).rest == [] <==> !r.dialect.Oracle? || w == []
  {
    hide IsSpace;
    var s := "q'" + w;
    if OpensRegion(r, s) {
      LoneQQuoteStuck(r, w);
      ScanEnd(r, s);
    } else {
      var t := s[1..];
      assert t == "'" + w && t[1..] == w;
      QuotedToEnd(w);
      assert t[..1 + |w|] == t && t[1 + |w|..] == [];
      assert Head(r, s) == Take(Code('q'), 1) && Head(r, t) == Take(Opaque(t), 1 + |w|);
      hide Lex, Head;
      ScanCons(r, s);
      ScanCons(r, t);
      ScanEnd(r, []);
      assert ParamNames(Lex(r, t).toks) == [];
    }
  }

  lemma LoneQQuoteStuck(r: Rules, w: string)
    requires AllSpace(w) && OpensRegion(r, "q'" + w)
    ensures Head(r, "q'" + w).Stuck? && w != [] && r.dialect.Oracle?
  {
    hide IsSpace, FindFrom;
    var s := "q'" + w;
    var close := [Closer(s[2]), '\''];
    NotSpace('\'');
    forall i | 3 <= i && i + 2 <= |s| ensures !OccursAt(s, close, i) {
      assert s[i..i + 2][1] == s[i + 1] && s[i + 1] == w[i - 1] && w[i - 1] in w;
    }
    assert FindFrom(s, close, 3) > |s|;
  }

  lemma {:induction false} QuotedToEnd(w: string)
    requires AllSpace(w)
    ensures QuotedLen(w, '\'') == |w|
  {
    if w != [] {
      assert w[0] in w;
      QuotedToEnd(w[1..]);
    }
  }

  /** The scan comes to a lone `q'` at the very end of the text. */
  ghost predicate EndsInQ(r: Rules, s: string) { exists k: nat :: After(r, s, k) == "q'" }

  lemma EndsInQNext(r: Rules, s: string)
    requires s != [] && Head(r, s).Take? && s != "q'"
    ensures EndsInQ(r, s) <==> EndsInQ(r, s[Head(r, s).len..])
  {
    var t := s[Head(r, s).len..];
    assert After(r, s, 0) == s;
    if k: nat :| After(r, s, k) == "q'" { AfterNext(r, s, k - 1); }
    if k: nat :| After(r, t, k) == "q'" { AfterNext(r, s, k); }
  }

  lemma EndsInQStops(r: Rules, s: string)
    requires s == [] || s == "q'" || Head(r, s).Stuck?
    ensures EndsInQ(r, s) <==> s == "q'"
  {
    assert After(r, s, 0) == s;
    if s != "q'" { forall k: nat ensures After(r, s, k) == s {} }
  }

  /** Spaces at the end of a text leave its parameters alone, whether or not its scan gets stuck.
      They also leave alone whether it gets stuck, except that an Oracle scanner gets stuck on a
      lone `q'` that spaces follow. */
  lemma {:induction false} TrailingSpace(r: Rules, s: string, w: string)
    requires AllSpace(w)
    ensures ParamNames(Lex(r, s + w).toks) == ParamNames(Lex(r, s).toks)
    ensures Lex(r, s + w).rest == [] <==> Lex(r, s).rest == [] && !(r.dialect.Oracle? && w != [] && EndsInQ(r, s))
    decreases |s|
  {
    hide Lex, Head, IsSpace, EndsInQ;
    if s == [] {
      assert s + w == w;
      ScanEnd(r, s);
      SpaceScans(r, w);
      EndsInQStops(r, s);
    } else if s == "q'" {
      LoneQQuote(r, w);
      LoneQQuote(r, []);
      assert s + [] == s;
      EndsInQStops(r, s);
    } else if Head(r, s).Stuck? {
      StuckExtends(r, s, w);
      ScanEnd(r, s);
      ScanEnd(r, s + w);
    } else {
      HeadExtends(r, s, w);
      EndsInQNext(r, s);
      var h, g, t := Head(r, s), Head(r, s + w), s + w;
      ScanCons(r, s);
      ScanCons(r, t);
      if g == h {
        assert t[h.len..] == s[h.len..] + w;
        TrailingSpace(r, s[h.len..], w);
      } else {
        assert s[h.len..] == [];
        ScanEnd(r, s[h.len..]);
        EndsInQStops(r, s[h.len..]);
        assert t[g.len..] == w[g.len - |s|..];
        SpaceScans(r, w[g.len - |s|..]);
      }
    }
  }

  predicate EndsInSpace(s: string) { s != [] && IsSpace(s[|s| - 1]) }

  /** A lone `q'` and then spaces, at the end of a text an Oracle scanner reads. */
  ghost predicate SpacedQ(r: Rules, s: string) { r.dialect.Oracle? && EndsInSpace(s) && EndsInQ(r, TrimSpace(s)) }

  lemma TrimmedTail(s: string)
    ensures TrimLeft(s) != [] ==> (EndsInSpace(s) <==> TrimSpace(s) != TrimLeft(s))
  {
    hide IsSpace;
    var pre := TrimLeftSplits(s);
    var t := TrimLeft(s);
    if t != [] {
      assert s[|s| - 1] == t[|t| - 1];
      if IsSpace(t[|t| - 1]) { var post := TrimRightSplits(t[..|t| - 1]); }
    }
  }

  /** A template has the parameters of its trimmed form, under every rule set. */
  lemma TrimKeepsNames(r: Rules, s: string)
    ensures ParamNames(Lex(r, s).toks) == ParamNames(Lex(r, TrimSpace(s)).toks)
  {
    hide Lex;
    var pre, post := TrimSplits(s);
    TrailingSpace(r, TrimSpace(s), post);
    LeadingSpace(r, pre, TrimSpace(s) + post);
    assert pre + (TrimSpace(s) + post) == pre + TrimSpace(s) + post;
  }

  /** A template scans to its end exactly when its trimmed form does, but for that case. */
  lemma TrimScansIff(r: Rules, s: string)
    ensures Lex(r, s).rest == [] <==> Lex(r, TrimSpace(s)).rest == [] && !SpacedQ(r, s)
  {
    hide Lex, EndsInQ, TrimRight, IsSpace;
    var pre := TrimLeftSplits(s);
    var post := TrimRightSplits(TrimLeft(s));
    TrailingSpace(r, TrimSpace(s), post);
    LeadingSpace(r, pre, TrimLeft(s));
    TrimmedTail(s);
    if TrimLeft(s) == [] {
      assert TrimSpace(s) == [] && post == [];
      EndsInQStops(r, []);
    }
    assert post == [] <==> TrimSpace(s) == TrimLeft(s);
  }
}
