/** The three scanner loops of internal/connectors/bind.go, each proved to read the
    lexemes of `SqlLexer`. Where the Go loop would turn for ever without advancing its
    index (on an unclosed dollar or q quote), the method reports that as an outcome. */
module Scanners {
  import opened SqlLexer

  datatype BindOutcome<V> = BoundQuery(sql: string, args: seq<V>) | MissingParam(name: string) | BindSpins

  datatype Outcome<T> = Finished(value: T) | Spinning

  // ---- Region helpers ----

  /** skipDelimited and skipBracketIdentifier (with `]`), and the string-literal loops. */
  method SkipDelimited(runes: string, start: nat, quote: char) returns (end: nat)
    requires start < |runes|
    ensures end == start + 1 + QuotedLen(runes[start + 1..], quote)
  {
    hide QuotedLen;
    var i := start + 1;
    QuotedNone(runes, quote);
    while i < |runes|
      invariant start < i <= |runes|
      invariant start + 1 + QuotedLen(runes[start + 1..], quote) == i + QuotedLen(runes[i..], quote)
    {
      QuotedNext(runes, i, quote);
      if runes[i] == quote {
        if i + 1 < |runes| && runes[i + 1] == quote {
          i := i + 2;
          continue;
        }
        return i + 1;
      }
      i := i + 1;
    }
    return |runes|;
  }

  /** copyDelimited and copyBracketIdentifier: the same region, copied verbatim. */
  method CopyDelimited(runes: string, start: nat, quote: char, out0: string) returns (end: nat, out: string)
    requires start < |runes|
    ensures end == start + 1 + QuotedLen(runes[start + 1..], quote)
    ensures out == out0 + runes[start..end]
  {
    hide QuotedLen;
    out := out0 + [runes[start]];
    var i := start + 1;
    QuotedNone(runes, quote);
    while i < |runes|
      invariant start < i <= |runes|
      invariant start + 1 + QuotedLen(runes[start + 1..], quote) == i + QuotedLen(runes[i..], quote)
      invariant out == out0 + runes[start..i]
    {
      QuotedNext(runes, i, quote);
      SliceSnoc(out0, runes, start, i);
      out := out + [runes[i]];
      if runes[i] == quote {
        if i + 1 < |runes| && runes[i + 1] == quote {
          SliceSnoc(out0, runes, start, i + 1);
          out := out + [quote];
          i := i + 2;
          continue;
        }
        return i + 1, out;
      }
      i := i + 1;
    }
    return |runes|, out;
  }

  lemma SliceSnoc(out0: string, runes: string, start: nat, i: nat)
    requires start <= i < |runes|
    ensures out0 + runes[start..i] + [runes[i]] == out0 + runes[start..i + 1]
  {
  }

  lemma QuotedNone(runes: string, quote: char)
    ensures QuotedLen(runes[|runes|..], quote) == 0
  {
  }

  lemma QuotedNext(runes: string, i: nat, quote: char)
    requires i < |runes|
    ensures QuotedLen(runes[i..], quote) ==
      if runes[i] != quote then 1 + QuotedLen(runes[i + 1..], quote)
      else if i + 1 < |runes| && runes[i + 1] == quote then 2 + QuotedLen(runes[i + 2..], quote)
      else 1
  {
    assert runes[i..][1..] == runes[i + 1..];
    if i + 1 < |runes| { assert runes[i..][2..] == runes[i + 2..]; }
  }

  method SkipLine(runes: string, start: nat) returns (end: nat)
    requires start <= |runes|
    ensures end == start + LineLen(runes[start..])
  {
    end := start;
    while end < |runes| && runes[end] != '\n'
      invariant start <= end <= |runes|
      invariant start + LineLen(runes[start..]) == end + LineLen(runes[end..])
    {
      assert runes[end..][1..] == runes[end + 1..];
      end := end + 1;
    }
  }

  /** The binder's `#` loop also copies the newline that ends the comment. */
  method CopyHashLine(runes: string, start: nat, out0: string) returns (end: nat, out: string)
    requires start < |runes|
    ensures var n := start + LineLen(runes[start..]); end == if n < |runes| then n + 1 else n
    ensures out == out0 + runes[start..end]
  {
    end, out := start, out0;
    while end < |runes|
      invariant start <= end <= |runes|
      invariant start + LineLen(runes[start..]) == end + LineLen(runes[end..])
      invariant out == out0 + runes[start..end]
    {
      assert runes[end..][1..] == runes[end + 1..];
      SliceSnoc(out0, runes, start, end);
      out := out + [runes[end]];
      if runes[end] == '\n' { return end + 1, out; }
      end := end + 1;
    }
  }

  /** Index just past the end of the comment whose opener ends before `start`. */
  method SkipBlock(runes: string, start: nat) returns (end: nat)
    requires start <= |runes|
    ensures end == start + BlockLen(runes[start..])
  {
    var i := start;
    while i < |runes|
      invariant start <= i <= |runes|
      invariant start + BlockLen(runes[start..]) == i + BlockLen(runes[i..])
    {
      assert runes[i..][1..] == runes[i + 1..];
      if runes[i] == '*' && i + 1 < |runes| && runes[i + 1] == '/' { return i + 2; }
      i := i + 1;
    }
    return i;
  }

  method IdentEnd(runes: string, start: nat) returns (end: nat)
    requires start <= |runes|
    ensures end == start + IdentLen(runes[start..])
  {
    end := start;
    while end < |runes| && IsIdentPart(runes[end])
      invariant start <= end <= |runes|
      invariant start + IdentLen(runes[start..]) == end + IdentLen(runes[end..])
    {
      assert runes[end..][1..] == runes[end + 1..];
      end := end + 1;
    }
  }

  method TagEnd(runes: string, start: nat) returns (end: nat)
    requires start <= |runes|
    ensures end == start + TagRun(runes[start..])
  {
    end := start;
    while end < |runes| && (IsIdentPart(runes[end]) || runes[end] == '$')
      invariant start <= end <= |runes|
      invariant start + TagRun(runes[start..]) == end + TagRun(runes[end..])
    {
      assert runes[end..][1..] == runes[end + 1..];
      end := end + 1;
    }
  }

  /** The search loop of both quote-end helpers, relative to the opening position. */
  method FindAfter(runes: string, start: nat, pat: string, from: nat) returns (i: nat)
    requires start <= from && start <= |runes|
    ensures var k := FindFrom(runes[start..], pat, from - start);
        i == if k > |runes| - start then 0 else start + k + |pat|
  {
    ghost var s := runes[start..];
    i := from;
    while i + |pat| <= |runes|
      invariant from <= i
      invariant FindFrom(s, pat, from - start) == FindFrom(s, pat, i - start)
    {
      assert s[i - start..i - start + |pat|] == runes[i..i + |pat|];
      if runes[i..i + |pat|] == pat { return i + |pat|; }
      i := i + 1;
    }
    return 0;
  }

  method DollarQuoteEnd(runes: string, start: nat) returns (end: nat)
    requires start < |runes| && runes[start] == '$'
    ensures var n := DollarLen(runes[start..]); end == if n == 0 then 0 else start + n
  {
    hide TagRun, FindFrom;
    var endTag := TagEnd(runes, start + 1);
    assert runes[start..][1..] == runes[start + 1..];
    if endTag == start + 1 || runes[endTag - 1] != '$' { return 0; }
    assert runes[start..endTag] == runes[start..][..endTag - start];
    end := FindAfter(runes, start, runes[start..endTag], endTag);
  }

  method OracleQuoteEnd(runes: string, start: nat) returns (end: nat)
    requires start < |runes| && OpensQQuote(runes[start..])
    ensures var n := QQuoteLen(runes[start..]); end == if n == 0 then 0 else start + n
  {
    hide FindFrom;
    end := FindAfter(runes, start, [Closer(runes[start + 2]), '\''], start + 3);
  }

  // ---- Moving one lexeme ahead ----

  lemma Advance(r: Rules, s: string, i: nat)
    requires i < |s| && Head(r, s[i..]).Take?
    ensures
      var h := Head(r, s[i..]);
      var j := i + h.len;
      && i < j <= |s|
      && Text(h.lexeme) == s[i..j]
      && Lex(r, s[i..]).toks == [h.lexeme] + Lex(r, s[j..]).toks
      && Lex(r, s[i..]).rest == Lex(r, s[j..]).rest
  {
    hide Lex, Head;
    var h := Head(r, s[i..]);
    ScanCons(r, s[i..]);
    assert s[i..][h.len..] == s[i + h.len..];
    assert s[i..][..h.len] == s[i..i + h.len];
  }

  /** A region recognised at `i` is one opaque lexeme, or leaves the scan stuck. */
  lemma RegionAdvance(r: Rules, s: string, i: nat)
    requires i < |s| && OpensRegion(r, s[i..])
    ensures var n := RegionLen(s[i..]);
      if n == 0 then Lex(r, s[i..]) == Scan([], s[i..])
      else i + n <= |s| && Lex(r, s[i..]).toks == [Opaque(s[i..i + n])] + Lex(r, s[i + n..]).toks
           && Lex(r, s[i..]).rest == Lex(r, s[i + n..]).rest
  {
    hide RegionLen, Lex;
    if RegionLen(s[i..]) > 0 {
      Advance(r, s, i);
      assert s[i..][..RegionLen(s[i..])] == s[i..i + RegionLen(s[i..])];
    } else { ScanEnd(r, s[i..]); }
  }

  /** The dialect switch at the top of every scanner loop. */
  method RegionAt(r: Rules, s: string, i: nat) returns (known: bool, end: nat)
    requires i < |s|
    ensures known == OpensRegion(r, s[i..])
    ensures known ==> var n := RegionLen(s[i..]); end == if n == 0 then 0 else i + n
  {
    hide DollarLen, QQuoteLen, QuotedLen, BlockLen;
    var c := s[i];
    known, end := true, 0;
    assert s[i..][0] == c && s[i..][1..] == s[i + 1..];
    if r.dollar && c == '$' {
      end := DollarQuoteEnd(s, i);
    } else if r.dialect.MySql? && c == '`' {
      end := SkipDelimited(s, i, '`');
    } else if r.dialect.SqlServer? && c == '[' {
      end := SkipDelimited(s, i, ']');
    } else if c == '"' {
      end := SkipDelimited(s, i, '"');
    } else if r.dialect.MySql? && c == '#' {
      end := SkipLine(s, i);
    } else if r.dialect.Oracle? && c == 'q' && i + 2 < |s| && s[i + 1] == '\'' {
      end := OracleQuoteEnd(s, i);
    } else if c == '\'' {
      end := SkipDelimited(s, i, '\'');
    } else if c == '-' && i + 1 < |s| && s[i + 1] == '-' {
      end := SkipLine(s, i);
    } else if c == '/' && i + 1 < |s| && s[i + 1] == '*' {
      assert s[i..][2..] == s[i + 2..];
      end := SkipBlock(s, i + 2);
    } else {
      known := false;
    }
  }

  // ---- Bind ----

  function ValuesOf<V>(params: map<string, V>, names: seq<string>): (vs: seq<V>)
    requires forall x | x in names :: x in params
  {
    seq(|names|, k requires 0 <= k < |names| => assert names[k] in names; params[names[k]])
  }

  function FirstMissing(names: seq<string>, have: set<string>): (m: nat)
    ensures m <= |names|
    ensures forall k | 0 <= k < m :: names[k] in have
    ensures m < |names| ==> names[m] !in have
  {
    if names == [] || names[0] !in have then 0 else 1 + FirstMissing(names[1..], have)
  }

  lemma FirstMissingAt(names: seq<string>, have: set<string>, k: nat)
    requires k <= |names| && forall j | 0 <= j < k :: names[j] in have
    requires k < |names| ==> names[k] !in have
    ensures FirstMissing(names, have) == k
  {
  }

  /** What binding means: the k-th parameter lexeme becomes ph(k) and supplies the k-th
      argument, everything else is copied; the first parameter without a value is an error. */
  ghost function BindMeaning<V>(r: Rules, s: string, params: map<string, V>, ph: nat -> string): BindOutcome<V>
  {
    var sc := Lex(r, s);
    var names := ParamNames(sc.toks);
    var m := FirstMissing(names, params.Keys);
    if m < |names| then MissingParam(names[m])
    else if sc.rest != [] then BindSpins
    else BoundQuery(Bound(ph, 0, sc.toks), ValuesOf(params, names))
  }

  /** The same switch in the binder, which copies the region as it goes. The newline that
      ends a `#` comment is copied with it. */
  method CopyRegionAt(r: Rules, s: string, i: nat, out0: string) returns (known: bool, end: nat, out: string)
    requires i < |s|
    ensures known == OpensRegion(r, s[i..])
    ensures known ==> var n := RegionLen(s[i..]);
      if n == 0 then end == 0
      else end == (if s[i] == '#' && i + n < |s| then i + n + 1 else i + n) && out == out0 + s[i..end]
  {
    hide DollarLen, QQuoteLen, QuotedLen, BlockLen;
    var c := s[i];
    known, end, out := true, 0, out0;
    assert s[i..][0] == c && s[i..][1..] == s[i + 1..];
    if r.dollar && c == '$' {
      end := DollarQuoteEnd(s, i);
      if end > 0 { out := out + s[i..end]; }
    } else if r.dialect.MySql? && c == '`' {
      end, out := CopyDelimited(s, i, '`', out);
    } else if r.dialect.SqlServer? && c == '[' {
      end, out := CopyDelimited(s, i, ']', out);
    } else if c == '"' {
      end, out := CopyDelimited(s, i, '"', out);
    } else if r.dialect.MySql? && c == '#' {
      end, out := CopyHashLine(s, i, out);
    } else if r.dialect.Oracle? && c == 'q' && i + 2 < |s| && s[i + 1] == '\'' {
      end := OracleQuoteEnd(s, i);
      if end > 0 { out := out + s[i..end]; }
    } else if c == '\'' {
      end, out := CopyDelimited(s, i, '\'', out);
    } else if c == '-' && i + 1 < |s| && s[i + 1] == '-' {
      end := SkipLine(s, i);
      out := out + s[i..end];
    } else if c == '/' && i + 1 < |s| && s[i + 1] == '*' {
      assert s[i..][2..] == s[i + 2..];
      end := SkipBlock(s, i + 2);
      out := out + s[i..end];
    } else {
      known := false;
    }
  }

  /** How far the binder has come: what it wrote and bound, and what is left to read. */
  ghost predicate BindProgress<V>(r: Rules, s: string, params: map<string, V>, ph: nat -> string,
                                  i: nat, out: string, args: seq<V>, names: seq<string>)
  {
    && i <= |s|
    && Lex(r, s).rest == Lex(r, s[i..]).rest
    && Bound(ph, 0, Lex(r, s).toks) == out + Bound(ph, |names|, Lex(r, s[i..]).toks)
    && ParamNames(Lex(r, s).toks) == names + ParamNames(Lex(r, s[i..]).toks)
    && (forall x | x in names :: x in params)
    && args == ValuesOf(params, names)
  }

  lemma BindStarts<V>(r: Rules, s: string, params: map<string, V>, ph: nat -> string)
    ensures BindProgress(r, s, params, ph, 0, "", [], [])
  {
    hide Lex;
    assert s[0..] == s;
    assert ParamNames(Lex(r, s).toks) == [] + ParamNames(Lex(r, s).toks);
  }

  lemma BindCopies<V>(r: Rules, s: string, params: map<string, V>, ph: nat -> string,
                      i: nat, out: string, args: seq<V>, names: seq<string>, l: Lexeme, j: nat)
    requires BindProgress(r, s, params, ph, i, out, args, names) && i < j <= |s| && !l.Param?
    requires Text(l) == s[i..j]
    requires Lex(r, s[i..]).toks == [l] + Lex(r, s[j..]).toks && Lex(r, s[i..]).rest == Lex(r, s[j..]).rest
    ensures BindProgress(r, s, params, ph, j, out + s[i..j], args, names)
  {
    hide Lex;
    LexCons(l, Lex(r, s[j..]).toks);
  }

  lemma BindSubstitutes<V>(r: Rules, s: string, params: map<string, V>, ph: nat -> string,
                           i: nat, out: string, args: seq<V>, names: seq<string>, name: string, j: nat)
    requires BindProgress(r, s, params, ph, i, out, args, names) && i < j <= |s| && name in params
    requires Lex(r, s[i..]).toks == [Param(name)] + Lex(r, s[j..]).toks && Lex(r, s[i..]).rest == Lex(r, s[j..]).rest
    ensures BindProgress(r, s, params, ph, j, out + ph(|names| + 1), args + [params[name]], names + [name])
  {
    hide Lex;
    LexCons(Param(name), Lex(r, s[j..]).toks);
    var rest := ParamNames(Lex(r, s[j..]).toks);
    assert names + ([name] + rest) == (names + [name]) + rest;
    var bound := Bound(ph, |names| + 1, Lex(r, s[j..]).toks);
    assert out + (ph(|names| + 1) + bound) == (out + ph(|names| + 1)) + bound;
  }

  lemma BindMisses<V>(r: Rules, s: string, params: map<string, V>, ph: nat -> string,
                      i: nat, out: string, args: seq<V>, names: seq<string>, name: string, j: nat)
    requires BindProgress(r, s, params, ph, i, out, args, names) && i < j <= |s| && name !in params
    requires Lex(r, s[i..]).toks == [Param(name)] + Lex(r, s[j..]).toks
    ensures BindMeaning(r, s, params, ph) == MissingParam(name)
  {
    hide Lex;
    LexCons(Param(name), Lex(r, s[j..]).toks);
    var all := ParamNames(Lex(r, s).toks);
    assert all == names + ([name] + ParamNames(Lex(r, s[j..]).toks));
    FirstMissingAt(all, params.Keys, |names|);
  }

  lemma BindEnds<V>(r: Rules, s: string, params: map<string, V>, ph: nat -> string,
                    i: nat, out: string, args: seq<V>, names: seq<string>)
    requires BindProgress(r, s, params, ph, i, out, args, names)
    requires Lex(r, s[i..]) == Scan([], s[i..])
    ensures BindMeaning(r, s, params, ph) == if i == |s| then BoundQuery(out, args) else BindSpins
  {
    hide Lex, Bound, ParamNames, ValuesOf, FirstMissing;
    NothingBound(ph, |names|);
    assert out + "" == out && names + [] == names;
    FirstMissingAt(names, params.Keys, |names|);
  }

  lemma NothingBound(ph: nat -> string, n: nat)
    ensures Bound(ph, n, []) == "" && ParamNames([]) == []
  {
  }

  lemma HashLine(r: Rules, s: string, i: nat)
    requires i < |s| && s[i] == '#' && OpensRegion(r, s[i..])
    ensures var j := i + RegionLen(s[i..]);
      i < j && (j < |s| ==> Lex(r, s[j..]).toks == [Code('\n')] + Lex(r, s[j + 1..]).toks
                             && Lex(r, s[j..]).rest == Lex(r, s[j + 1..]).rest && s[j] == '\n')
  {
    hide Lex;
    var j := i + LineLen(s[i..]);
    LineStops(s[i..]);
    if j < |s| {
      assert s[i..][j - i] == s[j] && s[j..][0] == '\n';
      CodeAdvance(r, s, j);
    }
  }

  /** A copied region, with the newline that ends a `#` comment. */
  lemma BindCopiesRegion<V>(r: Rules, s: string, params: map<string, V>, ph: nat -> string,
                            i: nat, out: string, args: seq<V>, names: seq<string>)
    requires BindProgress(r, s, params, ph, i, out, args, names)
    requires i < |s| && OpensRegion(r, s[i..]) && RegionLen(s[i..]) > 0
    ensures var n := RegionLen(s[i..]);
      var end := if s[i] == '#' && i + n < |s| then i + n + 1 else i + n;
      BindProgress(r, s, params, ph, end, out + s[i..end], args, names)
  {
    hide Lex, RegionLen, OpensRegion, BindProgress;
    var j := i + RegionLen(s[i..]);
    RegionAdvance(r, s, i);
    BindCopies(r, s, params, ph, i, out, args, names, Opaque(s[i..j]), j);
    if s[i] == '#' && j < |s| {
      HashLine(r, s, i);
      BindCopies(r, s, params, ph, j, out + s[i..j], args, names, Code('\n'), j + 1);
      assert out + s[i..j] + s[j..j + 1] == out + s[i..j + 1];
    }
  }

  lemma {:induction false} LineStops(s: string)
    ensures LineLen(s) < |s| ==> s[LineLen(s)] == '\n'
  {
    if s != [] && s[0] != '\n' { LineStops(s[1..]); }
  }

  /** Bind and BindDialect: the loop computes the meaning of the template for every
      template, parameter map, placeholder style and dialect. */
  method BindDialect<V>(s: string, params: map<string, V>, ph: nat -> string, d: Dialect) returns (o: BindOutcome<V>)
    ensures o == BindMeaning(BindRules(d), s, params, ph)
  {
    hide Lex, Bound, ParamNames, RegionLen, OpensRegion, Head, BindMeaning, BindProgress;
    hide IdentLen, IsIdentStart, ValuesOf;
    var r := BindRules(d);
    var i, n := 0, 0;
    var out: string, args: seq<V> := "", [];
    ghost var names: seq<string> := [];
    BindStarts(r, s, params, ph);
    while i < |s|
      invariant i <= |s|
      invariant BindProgress(r, s, params, ph, i, out, args, names)
      invariant n == |names|
    {
      var known, end, copied := CopyRegionAt(r, s, i, out);
      if known {
        if end == 0 {
          RegionAdvance(r, s, i);
          BindEnds(r, s, params, ph, i, out, args, names);
          return BindSpins;
        }
        BindCopiesRegion(r, s, params, ph, i, out, args, names);
        i, out := end, copied;
      } else if s[i] == ':' && i + 1 < |s| && s[i + 1] == ':' {
        CodeAdvance(r, s, i);
        BindCopies(r, s, params, ph, i, out, args, names, Cast, i + 2);
        out := out + "::";
        i := i + 2;
      } else if s[i] == ':' && i + 1 < |s| && IsIdentStart(s[i + 1]) {
        var j := IdentEnd(s, i + 1);
        var name := s[i + 1..j];
        CodeAdvance(r, s, i);
        if name !in params {
          BindMisses(r, s, params, ph, i, out, args, names, name, j);
          return MissingParam(name);
        }
        BindSubstitutes(r, s, params, ph, i, out, args, names, name, j);
        n := n + 1;
        out := out + ph(n);
        args := args + [params[name]];
        names := names + [name];
        i := j;
      } else {
        CodeAdvance(r, s, i);
        BindCopies(r, s, params, ph, i, out, args, names, Code(s[i]), i + 1);
        out := out + [s[i]];
        i := i + 1;
      }
    }
    assert s[i..] == [];
    ScanEnd(r, s[i..]);
    BindEnds(r, s, params, ph, i, out, args, names);
    return BoundQuery(out, args);
  }

  /** Outside regions: a cast, a parameter, or one code character. */
  lemma CodeAdvance(r: Rules, s: string, i: nat)
    requires i < |s| && !OpensRegion(r, s[i..])
    ensures var h := CodeHead(r.named, s[i..]); var j := i + h.len;
      && Lex(r, s[i..]).toks == [h.lexeme] + Lex(r, s[j..]).toks
      && Lex(r, s[i..]).rest == Lex(r, s[j..]).rest
      && Text(h.lexeme) == s[i..j]
      && (r.named && s[i] == ':' && i + 1 < |s| && s[i + 1] == ':' ==> h == Take(Cast, 2))
      && (r.named && s[i] == ':' && i + 1 < |s| && IsIdentStart(s[i + 1]) ==>
            h == Take(Param(s[i + 1..j]), 1 + IdentLen(s[i + 1..])))
      && (!(r.named && s[i] == ':' && i + 1 < |s| && (s[i + 1] == ':' || IsIdentStart(s[i + 1])))
          ==> h == Take(Code(s[i]), 1))
  {
    hide Lex, IdentLen;
    Advance(r, s, i);
    assert s[i..][1..] == s[i + 1..];
    if i + 1 < |s| { assert s[i..][1] == s[i + 1]; }
    var h := CodeHead(r.named, s[i..]);
    if h.lexeme.Param? { assert s[i..][1..h.len] == s[i + 1..i + h.len]; }
  }

  // ---- Extract ----

  /** First-occurrence dedupe. */
  function Deduped(names: seq<string>): (ds: seq<string>)
    ensures forall x :: x in ds <==> x in names
    ensures forall i, j | 0 <= i < j < |ds| :: ds[i] != ds[j]
  {
    if names == [] then []
    else
      var front := Deduped(names[..|names| - 1]);
      var last := names[|names| - 1];
      assert forall x :: x in names <==> x in names[..|names| - 1] || x == last;
      if last in front then front else front + [last]
  }

  lemma DedupedSnoc(names: seq<string>, x: string)
    ensures Deduped(names + [x]) == if x in names then Deduped(names) else Deduped(names) + [x]
  {
    assert (names + [x])[..|names|] == names;
  }

  /** The names keep the order of their first occurrences. */
  lemma {:induction false} DedupedKeepsOrder(names: seq<string>, i: nat, j: nat) returns (p: nat)
    requires i < j < |Deduped(names)|
    ensures p < |names| && names[p] == Deduped(names)[i] && Deduped(names)[j] !in names[..p + 1]
  {
    var n := |names| - 1;
    var front := Deduped(names[..n]);
    if j < |front| {
      p := DedupedKeepsOrder(names[..n], i, j);
      assert names[..n][..p + 1] == names[..p + 1];
    } else {
      assert front[i] in names[..n];
      p :| 0 <= p < n && names[..n][p] == front[i];
      assert forall x | x in names[..p + 1] :: x in names[..n];
    }
  }

  lemma NamesStep(r: Rules, s: string, i: nat, l: Lexeme, j: nat)
    requires i <= j <= |s| && Lex(r, s[i..]).toks == [l] + Lex(r, s[j..]).toks
    ensures ParamNames(Lex(r, s[i..]).toks) ==
            (if l.Param? then [l.name] else []) + ParamNames(Lex(r, s[j..]).toks)
    ensures Stripped(Lex(r, s[i..]).toks) ==
            (if l.Opaque? then "" else Text(l)) + Stripped(Lex(r, s[j..]).toks)
  {
    hide Lex;
    LexCons(l, Lex(r, s[j..]).toks);
  }

  /** How far the extractor has come. */
  ghost predicate ExtractProgress(r: Rules, s: string, i: nat, names: seq<string>, seen: set<string>,
      order: seq<string>)
  {
    && i <= |s|
    && Lex(r, s).rest == Lex(r, s[i..]).rest
    && ParamNames(Lex(r, s).toks) == names + ParamNames(Lex(r, s[i..]).toks)
    && order == Deduped(names) && forall x :: x in seen <==> x in names
  }

  lemma ExtractStarts(r: Rules, s: string)
    ensures ExtractProgress(r, s, 0, [], {}, [])
  {
    hide Lex;
    assert s[0..] == s;
    assert ParamNames(Lex(r, s).toks) == [] + ParamNames(Lex(r, s).toks);
  }

  lemma ExtractSkips(r: Rules, s: string, i: nat, names: seq<string>, seen: set<string>, order: seq<string>,
      l: Lexeme, j: nat)
    requires ExtractProgress(r, s, i, names, seen, order) && i < j <= |s| && !l.Param?
    requires Lex(r, s[i..]).toks == [l] + Lex(r, s[j..]).toks && Lex(r, s[i..]).rest == Lex(r, s[j..]).rest
    ensures ExtractProgress(r, s, j, names, seen, order)
  {
    hide Lex, ParamNames, Stripped, Deduped;
    NamesStep(r, s, i, l, j);
  }

  lemma ExtractAdds(r: Rules, s: string, i: nat, names: seq<string>, seen: set<string>, order: seq<string>,
      name: string, j: nat)
    requires ExtractProgress(r, s, i, names, seen, order) && i < j <= |s|
    requires Lex(r, s[i..]).toks == [Param(name)] + Lex(r, s[j..]).toks && Lex(r, s[i..]).rest == Lex(r, s[j..]).rest
    ensures if name in seen then ExtractProgress(r, s, j, names + [name], seen, order)
            else ExtractProgress(r, s, j, names + [name], seen + {name}, order + [name])
  {
    hide Lex, ParamNames, Stripped, Deduped;
    NamesStep(r, s, i, Param(name), j);
    DedupedSnoc(names, name);
    var rest := ParamNames(Lex(r, s[j..]).toks);
    assert names + ([name] + rest) == (names + [name]) + rest;
  }

  lemma ExtractEnds(r: Rules, s: string, i: nat, names: seq<string>, seen: set<string>, order: seq<string>)
    requires ExtractProgress(r, s, i, names, seen, order) && Lex(r, s[i..]) == Scan([], s[i..])
    ensures Lex(r, s).rest == s[i..] && order == Deduped(ParamNames(Lex(r, s).toks))
  {
    hide Lex, Deduped;
    assert names + [] == names;
  }

  /** ExtractParamNamesDialect: the distinct names of the parameter lexemes, in order. */
  method ExtractParamNamesDialect(s: string, d: Dialect) returns (o: Outcome<seq<string>>)
    ensures var sc := Lex(ExtractRules(d), s);
      o == if sc.rest != [] then Spinning else Finished(Deduped(ParamNames(sc.toks)))
  {
    hide Lex, ParamNames, RegionLen, OpensRegion, Head, Deduped, ExtractProgress;
    var r := ExtractRules(d);
    var order: seq<string>, seen: set<string>, i := [], {}, 0;
    ghost var names: seq<string> := [];
    ExtractStarts(r, s);
    while i < |s|
      invariant i <= |s|
      invariant ExtractProgress(r, s, i, names, seen, order)
    {
      var known, end := RegionAt(r, s, i);
      if known {
        RegionAdvance(r, s, i);
        if end == 0 {
          ExtractEnds(r, s, i, names, seen, order);
          return Spinning;
        }
        ExtractSkips(r, s, i, names, seen, order, Opaque(s[i..end]), end);
        i := end;
      } else if s[i] == ':' && i + 1 < |s| && s[i + 1] == ':' {
        CodeAdvance(r, s, i);
        ExtractSkips(r, s, i, names, seen, order, Cast, i + 2);
        i := i + 2;
      } else if s[i] == ':' && i + 1 < |s| && IsIdentStart(s[i + 1]) {
        var j := IdentEnd(s, i + 1);
        var name := s[i + 1..j];
        CodeAdvance(r, s, i);
        ExtractAdds(r, s, i, names, seen, order, name, j);
        if name !in seen {
          seen := seen + {name};
          order := order + [name];
        }
        names := names + [name];
        i := j;
      } else {
        CodeAdvance(r, s, i);
        ExtractSkips(r, s, i, names, seen, order, Code(s[i]), i + 1);
        i := i + 1;
      }
    }
    assert s[i..] == [];
    ScanEnd(r, s[i..]);
    ExtractEnds(r, s, i, names, seen, order);
    return Finished(order);
  }

  // ---- Strip ----

  /** StripDialect: the text with exactly the opaque regions deleted. */
  method StripDialect(s: string, d: Dialect) returns (o: Outcome<string>)
    ensures var sc := Lex(StripRules(d), s);
      o == if sc.rest != [] then Spinning else Finished(Stripped(sc.toks))
  {
    hide Lex, Stripped, RegionLen, OpensRegion, Head;
    var r := StripRules(d);
    var b: string, i := "", 0;
    assert s[0..] == s;
    assert Stripped(Lex(r, s).toks) == "" + Stripped(Lex(r, s).toks);
    while i < |s|
      invariant i <= |s|
      invariant Lex(r, s).rest == Lex(r, s[i..]).rest
      invariant Stripped(Lex(r, s).toks) == b + Stripped(Lex(r, s[i..]).toks)
    {
      var known, end := RegionAt(r, s, i);
      if known {
        RegionAdvance(r, s, i);
        if end == 0 { return Spinning; }
        NamesStep(r, s, i, Opaque(s[i..end]), end);
        i := end;
      } else {
        CodeAdvance(r, s, i);
        NamesStep(r, s, i, Code(s[i]), i + 1);
        b := b + [s[i]];
        i := i + 1;
      }
    }
    assert s[i..] == [];
    ScanEnd(r, s[i..]);
    assert Stripped([]) == "" by { NothingStripped(); }
    assert b + "" == b;
    return Finished(b);
  }

  lemma NothingStripped() ensures Stripped([]) == "" {}
}
