/** Placeholders and pagination: what reaches the driver after binding
    (internal/connectors/pagination.go, bind.go:18-42) and the page window the gateway
    computes (internal/gatewaysvc/service.go:436-474). */
module Pagination {
  import opened Strings
  import opened SqlLexer
  import opened Scanners
  import opened Appending
  import opened Rereading
  import opened Options
  import opened SqlWords
  import opened PageClauses
  import Publish
  import Statements

  lemma PlaceholderEnds(d: Dialect, n: nat)
    ensures var p := Placeholder(d)(n); p != [] && !IsSpace(p[0]) && !IsSpace(p[|p| - 1]) && p[|p| - 1] != ';'
  {
    var s := Itoa(n);
    assert '0' <= s[|s| - 1] <= '9';
  }

  // ---- Text woven with numbered placeholders ----

  /** texts[0] ph(n+1) texts[1] ph(n+2) ... */
  function Weave(ph: nat -> string, n: nat, texts: seq<string>): string
    requires texts != []
    decreases |texts|
  {
    if |texts| == 1 then texts[0] else texts[0] + ph(n + 1) + Weave(ph, n + 1, texts[1..])
  }

  /** The literal text between the parameters of a template. */
  function Segments(toks: seq<Lexeme>): (texts: seq<string>)
    ensures |texts| == |ParamNames(toks)| + 1
  {
    if toks == [] then [""]
    else
      var t := Segments(toks[1..]);
      if toks[0].Param? then [""] + t else [Text(toks[0]) + t[0]] + t[1..]
  }

  /** Bound text is the template's own segments woven with the placeholders 1, 2, ... */
  lemma {:induction false} BoundWeaves(ph: nat -> string, n: nat, toks: seq<Lexeme>)
    ensures Bound(ph, n, toks) == Weave(ph, n, Segments(toks))
    decreases |toks|
  {
    if toks != [] {
      hide Weave, Bound, Text;
      BoundHead(ph, n, toks);
      var t := Segments(toks[1..]);
      if toks[0].Param? {
        BoundWeaves(ph, n + 1, toks[1..]);
        WeaveSlot(ph, n, t);
      } else {
        BoundWeaves(ph, n, toks[1..]);
        WeaveText(ph, n, Text(toks[0]), t);
      }
    }
  }

  lemma WeaveSlot(ph: nat -> string, n: nat, texts: seq<string>)
    requires texts != []
    ensures Weave(ph, n, [""] + texts) == ph(n + 1) + Weave(ph, n + 1, texts)
  {
    assert ([""] + texts)[1..] == texts && "" + ph(n + 1) == ph(n + 1);
  }

  lemma WeaveText(ph: nat -> string, n: nat, t: string, texts: seq<string>)
    requires texts != []
    ensures Weave(ph, n, [t + texts[0]] + texts[1..]) == t + Weave(ph, n, texts)
  {
    var u := [t + texts[0]] + texts[1..];
    assert u[1..] == texts[1..];
    if |texts| > 1 {
      var more := Weave(ph, n + 1, texts[1..]);
      assert t + texts[0] + ph(n + 1) + more == t + (texts[0] + ph(n + 1) + more);
    }
  }

  /** Weaving on: the second text's placeholders continue the numbering of the first. */
  lemma {:induction false} WeaveGlue(ph: nat -> string, n: nat, texts: seq<string>, more: seq<string>)
    requires texts != [] && more != []
    ensures Weave(ph, n, Glue(texts, more)) == Weave(ph, n, texts) + Weave(ph, n + |texts| - 1, more)
    decreases |texts|
  {
    var all := Glue(texts, more);
    if |texts| == 1 {
      assert all[0] == texts[0] + more[0] && all[1..] == more[1..];
      if |more| > 1 { Regroup(texts[0], more[0], ph(n + 1), Weave(ph, n + 1, more[1..])); }
    } else {
      assert all[1..] == Glue(texts[1..], more) && all[0] == texts[0];
      WeaveGlue(ph, n + 1, texts[1..], more);
      Assoc(texts[0] + ph(n + 1), Weave(ph, n + 1, texts[1..]), Weave(ph, n + |texts| - 1, more));
    }
  }

  lemma Regroup(x: string, y: string, p: string, rest: string)
    ensures (x + y) + p + rest == x + (y + p + rest)
  {
    Assoc(x, y, p);
    Assoc(x, y + p, rest);
  }

  function Glue(texts: seq<string>, more: seq<string>): (all: seq<string>)
    requires texts != [] && more != []
    ensures |all| == |texts| + |more| - 1
  {
    texts[..|texts| - 1] + [texts[|texts| - 1] + more[0]] + more[1..]
  }

  // ---- Trimming only touches the outer texts ----

  lemma {:induction false} TrimLeftConcat(a: string, b: string)
    requires b != [] && !IsSpace(b[0])
    ensures TrimLeft(a + b) == TrimLeft(a) + b
  {
    if a == [] {
      assert a + b == b;
    } else {
      assert (a + b)[0] == a[0] && (a + b)[1..] == a[1..] + b;
      if IsSpace(a[0]) { TrimLeftConcat(a[1..], b); }
    }
  }

  lemma {:induction false} TrimRightConcat(a: string, b: string)
    requires a != [] && !IsSpace(a[|a| - 1])
    ensures TrimRight(a + b) == a + TrimRight(b)
  {
    if b == [] {
      assert a + b == a;
    } else {
      var s := a + b;
      assert s[|s| - 1] == b[|b| - 1] && s[..|s| - 1] == a + b[..|b| - 1];
      if IsSpace(b[|b| - 1]) { TrimRightConcat(a, b[..|b| - 1]); }
    }
  }

  /** strings.TrimSuffix(s, ";") */
  function TrimSemicolon(s: string): (t: string)
    ensures s == t || s == t + ";"
    ensures s == t ==> s == [] || s[|s| - 1] != ';'
  {
    if s != [] && s[|s| - 1] == ';' then s[..|s| - 1] else s
  }

  lemma TrimSemicolonConcat(a: string, b: string)
    requires a != [] && a[|a| - 1] != ';'
    ensures TrimSemicolon(a + b) == a + TrimSemicolon(b)
  {
    if b == [] { assert a + b == a; } else { assert (a + b)[..|a + b| - 1] == a + b[..|b| - 1]; }
  }

  lemma TrimLeftWeave(d: Dialect, texts: seq<string>)
    requires texts != []
    ensures TrimLeft(Weave(Placeholder(d), 0, texts)) == Weave(Placeholder(d), 0, texts[0 := TrimLeft(texts[0])])
  {
    hide IsSpace, TrimLeft, Placeholder;
    if |texts| > 1 {
      var ph := Placeholder(d);
      var rest := ph(1) + Weave(ph, 1, texts[1..]);
      PlaceholderEnds(d, 1);
      assert Weave(ph, 0, texts) == texts[0] + rest;
      TrimLeftConcat(texts[0], rest);
      assert texts[0 := TrimLeft(texts[0])][1..] == texts[1..];
    }
  }

  lemma {:induction false} TrimTailWeave(d: Dialect, n: nat, texts: seq<string>)
    requires texts != []
    ensures var k, ph := |texts| - 1, Placeholder(d);
      && TrimRight(Weave(ph, n, texts)) == Weave(ph, n, texts[k := TrimRight(texts[k])])
      && TrimSemicolon(Weave(ph, n, texts)) == Weave(ph, n, texts[k := TrimSemicolon(texts[k])])
    decreases |texts|
  {
    hide IsSpace, TrimRight, TrimSemicolon, Placeholder;
    if |texts| > 1 {
      var k, ph := |texts| - 1, Placeholder(d);
      var front := texts[0] + ph(n + 1);
      PlaceholderEnds(d, n + 1);
      assert front[|front| - 1] == ph(n + 1)[|ph(n + 1)| - 1];
      TrimRightConcat(front, Weave(ph, n + 1, texts[1..]));
      TrimSemicolonConcat(front, Weave(ph, n + 1, texts[1..]));
      TrimTailWeave(d, n + 1, texts[1..]);
      assert texts[k := TrimRight(texts[k])][1..] == texts[1..][k - 1 := TrimRight(texts[k])];
      assert texts[k := TrimSemicolon(texts[k])][1..] == texts[1..][k - 1 := TrimSemicolon(texts[k])];
    }
  }

  /** The outer texts trimmed, the inner ones as they are. */
  function TrimTexts(texts: seq<string>): (trimmed: seq<string>)
    requires texts != []
    ensures |trimmed| == |texts| && forall i | 0 < i < |texts| - 1 :: trimmed[i] == texts[i]
    ensures |texts| == 1 ==> trimmed == [TrimSemicolon(TrimSpace(texts[0]))]
    ensures |texts| > 1 ==>
      trimmed[0] == TrimLeft(texts[0]) && trimmed[|texts| - 1] == TrimSemicolon(TrimRight(texts[|texts| - 1]))
  {
    var k := |texts| - 1;
    var left := texts[0 := TrimLeft(texts[0])];
    left[k := TrimSemicolon(TrimRight(left[k]))]
  }

  /** Trimming the query and dropping a semicolon trims its outer texts and nothing else. */
  lemma TrimWeave(d: Dialect, texts: seq<string>)
    requires texts != []
    ensures TrimSemicolon(TrimSpace(Weave(Placeholder(d), 0, texts))) == Weave(Placeholder(d), 0, TrimTexts(texts))
  {
    hide TrimLeft, TrimRight, TrimSemicolon, Weave, Placeholder;
    var k := |texts| - 1;
    TrimLeftWeave(d, texts);
    var a := texts[0 := TrimLeft(texts[0])];
    TrimTailWeave(d, 0, a);
    var b := a[k := TrimRight(a[k])];
    TrimTailWeave(d, 0, b);
    assert b[k := TrimSemicolon(b[k])] == TrimTexts(texts);
  }

  // ---- ApplyPagination ----

  datatype Arg<V> = Bind(value: V) | Number(n: int)

  datatype Page<V> = Page(sql: string, args: seq<Arg<V>>)

  function ApplyPagination<V>(hasOrderBy: string -> bool, query: string, args: seq<Arg<V>>, d: Dialect, limit: int,
      offset0: int): (pg: Page<V>)
    ensures limit <= 0 ==> pg == Page(query, args)
    ensures limit > 0 && d.Plain? ==> pg == Page(BaseOf(query), args)
  {
    if limit <= 0 then Page(query, args)
    else
      var offset := if offset0 < 0 then 0 else offset0;
      var base := TrimSemicolon(TrimSpace(query));
      var n := |args|;
      match d
      case Postgres =>
        Page(base + " LIMIT $" + Itoa(n + 1) + " OFFSET $" + Itoa(n + 2), args + [Number(limit), Number(offset)])
      case MySql => Page(base + " LIMIT ?, ?", args + [Number(offset), Number(limit)])
      case SqlServer =>
        var ordered := if hasOrderBy(base) then base else base + " ORDER BY (SELECT 1)";
        Page(ordered + " OFFSET @p" + Itoa(n + 1) + " ROWS FETCH NEXT @p" + Itoa(n + 2) + " ROWS ONLY",
             args + [Number(offset), Number(limit)])
      case Oracle =>
        Page(base + " OFFSET :" + Itoa(n + 1) + " ROWS FETCH NEXT :" + Itoa(n + 2) + " ROWS ONLY",
             args + [Number(offset), Number(limit)])
      case Plain => Page(base, args)
  }

  /** What a dialect's clause reads in its two slots, and the text around them. */
  datatype Clause = Clause(before: string, between: string, after: string, limitFirst: bool)

  function PageClause(d: Dialect): Clause
  {
    match d
    case Postgres => Clause(" LIMIT ", " OFFSET ", "", true)
    case MySql => Clause(" LIMIT ", ", ", "", false)
    case _ => Clause(" OFFSET ", " ROWS FETCH NEXT ", " ROWS ONLY", false)
  }

  /** The clause on its own continues the numbering. */
  lemma ClauseText(d: Dialect, base: string, n: nat)
    requires !d.Plain?
    ensures var c, ph := PageClause(d), Placeholder(d);
      base + Weave(ph, n, [c.before, c.between, c.after]) ==
      match d
      case Postgres => base + " LIMIT $" + Itoa(n + 1) + " OFFSET $" + Itoa(n + 2)
      case MySql => base + " LIMIT ?, ?"
      case SqlServer => base + " OFFSET @p" + Itoa(n + 1) + " ROWS FETCH NEXT @p" + Itoa(n + 2) + " ROWS ONLY"
      case Oracle => base + " OFFSET :" + Itoa(n + 1) + " ROWS FETCH NEXT :" + Itoa(n + 2) + " ROWS ONLY"
  {
    hide Itoa, Weave;
    var c, ph := PageClause(d), Placeholder(d);
    WeaveThree(ph, n, c.before, c.between, c.after);
    match d {
      case Postgres =>
        Spliced(base, " LIMIT ", "$", Itoa(n + 1), " OFFSET ", Itoa(n + 2), "");
        assert " LIMIT " + "$" == " LIMIT $" && " OFFSET " + "$" == " OFFSET $";
        EndsThere(base + " LIMIT $" + Itoa(n + 1) + " OFFSET $" + Itoa(n + 2));
      case MySql =>
        assert " LIMIT " + "?" + (", " + "?" + "") == " LIMIT ?, ?";
      case SqlServer =>
        Spliced(base, " OFFSET ", "@p", Itoa(n + 1), " ROWS FETCH NEXT ", Itoa(n + 2), " ROWS ONLY");
        assert " OFFSET " + "@p" == " OFFSET @p" && " ROWS FETCH NEXT " + "@p" == " ROWS FETCH NEXT @p";
      case Oracle =>
        Spliced(base, " OFFSET ", ":", Itoa(n + 1), " ROWS FETCH NEXT ", Itoa(n + 2), " ROWS ONLY");
        assert " OFFSET " + ":" == " OFFSET :" && " ROWS FETCH NEXT " + ":" == " ROWS FETCH NEXT :";
    }
  }

  lemma WeaveThree(ph: nat -> string, n: nat, a: string, b: string, c: string)
    ensures Weave(ph, n, [a, b, c]) == a + ph(n + 1) + (b + ph(n + 2) + c)
  {
    assert [a, b, c][1..] == [b, c] && [b, c][1..] == [c];
    assert Weave(ph, n + 1, [b, c]) == b + ph(n + 2) + c;
  }

  lemma EndsThere(s: string) ensures s + "" == s {}

  lemma Spliced(base: string, b: string, p: string, i: string, m: string, k: string, a: string)
    ensures base + (b + (p + i) + (m + (p + k) + a)) == base + (b + p) + i + (m + p) + k + a
  {
    var left, right := b + (p + i), m + (p + k) + a;
    assert left == (b + p) + i;
    assert right == ((m + p) + k) + a;
    assert base + (left + right) == (base + left) + right;
    assert base + ((b + p) + i) == base + (b + p) + i;
    var head := base + (b + p) + i;
    assert head + (((m + p) + k) + a) == head + (m + p) + k + a;
  }

  /** The query is these texts woven with the placeholders 1..|args|, one for each argument. */
  ghost predicate Matched<V>(d: Dialect, texts: seq<string>, sql: string, args: seq<V>)
  {
    |texts| == |args| + 1 && sql == Weave(Placeholder(d), 0, texts)
  }

  const DEFAULT_ORDER := " ORDER BY (SELECT 1)"

  /** What ends the last text of a query: the order SQL Server insists on, and the clause. */
  function Ending(hasOrderBy: string -> bool, sql: string, d: Dialect): string {
    (if d.SqlServer? && !hasOrderBy(TrimSemicolon(TrimSpace(sql))) then DEFAULT_ORDER else "") + PageClause(d).before
  }

  /** The texts of a paginated query: its own, the outer ones trimmed, then the clause's. */
  function PagedTexts(hasOrderBy: string -> bool, texts: seq<string>, sql: string, d: Dialect): (paged: seq<string>)
    requires texts != []
    ensures var n := |texts| - 1;
      && |paged| == n + 3
      && (forall i | 0 <= i < n :: paged[i] == TrimTexts(texts)[i])
      && paged[n] == TrimTexts(texts)[n] + Ending(hasOrderBy, sql, d)
      && paged[n + 1] == PageClause(d).between && paged[n + 2] == PageClause(d).after
  {
    Glue(TrimTexts(texts), [Ending(hasOrderBy, sql, d), PageClause(d).between, PageClause(d).after])
  }

  function PageArgs<V>(d: Dialect, limit: int, offset: int): seq<Arg<V>> {
    var off := if offset < 0 then 0 else offset;
    if PageClause(d).limitFirst then [Number(limit), Number(off)] else [Number(off), Number(limit)]
  }

  function BaseOf(sql: string): string { TrimSemicolon(TrimSpace(sql)) }

  /** What pagination appends to the trimmed query. */
  function TailOf(hasOrderBy: string -> bool, sql: string, d: Dialect, n: nat): string {
    Weave(Placeholder(d), n, [Ending(hasOrderBy, sql, d), PageClause(d).between, PageClause(d).after])
  }

  lemma AppendsTail<V>(hasOrderBy: string -> bool, sql: string, args: seq<Arg<V>>, d: Dialect, limit: int, offset: int)
    requires !d.Plain? && limit > 0
    ensures var pg := ApplyPagination(hasOrderBy, sql, args, d, limit, offset);
      pg.args == args + PageArgs(d, limit, offset) && pg.sql == BaseOf(sql) + TailOf(hasOrderBy, sql, d, |args|)
  {
    hide TrimSpace, TrimSemicolon, Placeholder, Itoa, Weave;
    var ph, c, n := Placeholder(d), PageClause(d), |args|;
    var base := BaseOf(sql);
    var order := if d.SqlServer? && !hasOrderBy(base) then DEFAULT_ORDER else "";
    WeavePrefix(ph, n, order, c);
    Assoc(base, order, Weave(ph, n, [c.before, c.between, c.after]));
    ClauseText(d, base + order, n);
    if order == "" { EndsThere(base); }
  }

  /** Paginating a matched query gives a matched query: two more placeholders, numbered on,
      with limit and offset in the slots the dialect's clause reads them from. */
  lemma PaginationMatches<V>(hasOrderBy: string -> bool, texts: seq<string>, sql: string, args: seq<Arg<V>>, d: Dialect,
                             limit: int, offset: int)
    requires !d.Plain? && limit > 0 && Matched(d, texts, sql, args)
    ensures var pg := ApplyPagination(hasOrderBy, sql, args, d, limit, offset);
      pg.args == args + PageArgs(d, limit, offset) && Matched(d, PagedTexts(hasOrderBy, texts, sql, d), pg.sql, pg.args)
  {
    hide TrimSpace, TrimSemicolon, Placeholder, Weave, TrimTexts, ApplyPagination, Ending;
    AppendsTail(hasOrderBy, sql, args, d, limit, offset);
    TrimWeave(d, texts);
    WeaveGlue(Placeholder(d), 0, TrimTexts(texts),
              [Ending(hasOrderBy, sql, d), PageClause(d).between, PageClause(d).after]);
  }

  // ---- What the database reads ----

  predicate AllCode(t: string) { forall c | c in t :: CodeChar(c) }

  lemma AllCodeConcat(a: string, b: string)
    ensures AllCode(a + b) <==> AllCode(a) && AllCode(b)
  {
    hide CodeChar;
    assert forall c :: c in a + b <==> c in a || c in b;
  }

  lemma LimitIsCode() ensures AllCode(" LIMIT ") && AllCode(", ") && AllCode("") {}
  lemma OffsetIsCode() ensures AllCode(" OFFSET ") {}
  lemma FetchIsCode() ensures AllCode(" ROWS FETCH NEXT ") {}
  lemma OnlyIsCode() ensures AllCode(" ROWS ONLY") {}
  lemma OrderIsCode() ensures AllCode(DEFAULT_ORDER) {}

  lemma ClauseIsCode(hasOrderBy: string -> bool, sql: string, d: Dialect)
    ensures AllCode(Ending(hasOrderBy, sql, d)) && AllCode(PageClause(d).between) && AllCode(PageClause(d).after)
    ensures Spaced(Ending(hasOrderBy, sql, d))
  {
    LimitIsCode();
    OffsetIsCode();
    FetchIsCode();
    OnlyIsCode();
    OrderIsCode();
    hide AllCode, TrimSpace, TrimSemicolon;
    AllCodeConcat("", PageClause(d).before);
    AllCodeConcat(DEFAULT_ORDER, PageClause(d).before);
  }

  /** On its own, all of the appended text is code, its two placeholders included. */
  lemma TailIsCode(hasOrderBy: string -> bool, sql: string, d: Dialect, n: nat)
    ensures var tail := TailOf(hasOrderBy, sql, d, n); Spaced(tail) && Lex(Reader(d), tail) == Scan(Spell(tail), [])
  {
    hide Lex, Weave, Placeholder, Ending;
    var r, ph, c := Reader(d), Placeholder(d), PageClause(d);
    var a, p, b, q, e := Ending(hasOrderBy, sql, d), ph(n + 1), c.between, ph(n + 2), c.after;
    ClauseIsCode(hasOrderBy, sql, d);
    WeaveThree(ph, n, a, b, e);
    var tail := a + p + (b + q + e);
    CodeRun(r, e, "");
    PlaceholderIsCode(d, n + 2, e + "");
    CodeConcat(r, q, e, "");
    CodeRun(r, b, q + e + "");
    CodeConcat(r, b, q + e, "");
    assert b + (q + e) == b + q + e;
    PlaceholderIsCode(d, n + 1, b + q + e + "");
    CodeConcat(r, p, b + q + e, "");
    CodeRun(r, a, p + (b + q + e) + "");
    CodeConcat(r, a, p + (b + q + e), "");
    assert a + (p + (b + q + e)) == tail && tail + "" == tail && tail[0] == a[0];
    ScanEnd(r, "");
    assert Spell(tail) + [] == Spell(tail);
  }

  /** The database reads the appended clause as code after the query. */
  ghost predicate ClauseRead(hasOrderBy: string -> bool, sql: string, d: Dialect, n: nat, paged: string) {
    Lex(Reader(d), paged) == Scan(Lex(Reader(d), BaseOf(sql)).toks + Spell(TailOf(hasOrderBy, sql, d, n)), [])
  }

  /** For every query: the clause, with its two placeholders, is read as code after the query if and
      only if the query, trimmed, does not end inside a quote or a comment. */
  lemma ClauseReadIff<V>(hasOrderBy: string -> bool, sql: string, args: seq<Arg<V>>, d: Dialect, limit: int,
                         offset: int)
    requires !d.Plain? && limit > 0
    ensures ClauseRead(hasOrderBy, sql, d, |args|, ApplyPagination(hasOrderBy, sql, args, d, limit, offset).sql) <==>
            Closed(Reader(d), BaseOf(sql))
  {
    hide Lex, BaseOf, TailOf, Closed, ApplyPagination, Apart;
    var tail := TailOf(hasOrderBy, sql, d, |args|);
    AppendsTail(hasOrderBy, sql, args, d, limit, offset);
    TailIsCode(hasOrderBy, sql, d, |args|);
    SpacedIsApart(tail);
    ReadApartIff(Reader(d), BaseOf(sql), tail);
  }

  /** The ends that trimming drops. */
  lemma TrimmedEnds(sql: string) returns (pre: string, end: string)
    ensures sql == pre + (BaseOf(sql) + end)
    ensures (forall c | c in pre :: CodeChar(c)) && (forall c | c in end :: CodeChar(c)) && (end != "" ==> Apart(end))
  {
    hide TrimSpace, CodeChar, Apart, AllSpace, TrimSemicolon;
    var post;
    pre, post := TrimSplits(sql);
    var t := TrimSpace(sql);
    var semi := if t == TrimSemicolon(t) then "" else ";";
    end := semi + post;
    SemicolonDropped(t);
    EndsAreCode(pre, post, end);
    Assoc(TrimSemicolon(t), semi, post);
    Assoc(pre, t, post);
  }

  /** Trimming drops code from the ends of a query that leaves nothing open, and no other lexeme. */
  lemma TrimmedRead(sql: string, d: Dialect) returns (pre: string, end: string)
    requires Closed(Reader(d), BaseOf(sql))
    ensures sql == pre + (BaseOf(sql) + end)
    ensures Lex(Reader(d), sql) == Scan(Spell(pre) + (Lex(Reader(d), BaseOf(sql)).toks + Spell(end)), [])
  {
    hide Lex, BaseOf, Closed, CodeChar, Apart;
    var r, base := Reader(d), BaseOf(sql);
    pre, end := TrimmedEnds(sql);
    CodeRun(r, pre, base + end);
    CodeRun(r, end, "");
    ScanEnd(r, "");
    EndsThere(end);
    assert Spell(end) + [] == Spell(end);
    if end == "" {
      EndsThere(base);
      ClosedEnds(r, base);
    } else {
      ReadApartIff(r, base, end);
    }
  }

  lemma ClosedEnds(r: Rules, s: string)
    requires Closed(r, s)
    ensures Lex(r, s).rest == []
  {
  }

  lemma SemicolonDropped(s: string)
    ensures s == TrimSemicolon(s) + if s == TrimSemicolon(s) then "" else ";"
  {
  }

  lemma EndsAreCode(pre: string, post: string, end: string)
    requires AllSpace(pre) && AllSpace(post) && (end == "" + post || end == ";" + post)
    ensures (forall c | c in pre :: CodeChar(c)) && (forall c | c in end :: CodeChar(c)) && (end != "" ==> Apart(end))
  {
    forall c | c in pre ensures CodeChar(c) {}
    forall c | c in end ensures CodeChar(c) { if c != ';' { assert c in post; } }
    if end != "" && end[0] != ';' { assert end[0] in post; }
  }

  lemma WeavePrefix(ph: nat -> string, n: nat, order: string, c: Clause)
    ensures Weave(ph, n, [order + c.before, c.between, c.after]) == order + Weave(ph, n, [c.before, c.between, c.after])
  {
    hide Weave;
    WeaveThree(ph, n, order + c.before, c.between, c.after);
    WeaveThree(ph, n, c.before, c.between, c.after);
    Assoc(order, c.before, ph(n + 1));
    Assoc(order, c.before + ph(n + 1), c.between + ph(n + 2) + c.after);
  }

  lemma Assoc(a: string, b: string, c: string) ensures a + b + c == a + (b + c) {}

  function AsArgs<V>(vs: seq<V>): seq<Arg<V>> { seq(|vs|, i requires 0 <= i < |vs| => Bind(vs[i])) }

  /** Binding a template, by any rules, weaves the template's own texts with one placeholder for
      each of its parameters, and passes the parameters' values in that order... */
  lemma BindingMatches<V>(r: Rules, s: string, params: map<string, V>, d: Dialect)
    requires BindMeaning(r, s, params, Placeholder(d)).BoundQuery?
    ensures var o, toks := BindMeaning(r, s, params, Placeholder(d)), Lex(r, s).toks;
      && Matched(d, Segments(toks), o.sql, o.args)
      && |o.args| == |ParamNames(toks)|
      && forall k | 0 <= k < |o.args| :: ParamNames(toks)[k] in params && o.args[k] == params[ParamNames(toks)[k]]
  {
    hide Lex, Weave, Placeholder;
    var toks := Lex(r, s).toks;
    BoundWeaves(Placeholder(d), 0, toks);
  }

  /** For every query and dialect: the last words of the paginated query ask for as many rows as the
      limit says, and skip as many as the offset says, none for a negative one. */
  lemma PageAsksFor<V>(hasOrderBy: string -> bool, sql: string, args: seq<Arg<V>>, d: Dialect, limit: int, offset: int)
    requires !d.Plain? && limit > 0
    ensures var pg := ApplyPagination(hasOrderBy, sql, args, d, limit, offset);
      RowsAsked(d, pg.sql, pg.args) == (Some(Number(limit)), Some(Number(if offset < 0 then 0 else offset)))
  {
    hide Words, Itoa, TrimSpace, TrimSemicolon, OffsetFetch, LimitOffset, LimitPair;
    var n, pg := |args|, ApplyPagination(hasOrderBy, sql, args, d, limit, offset);
    var base := TrimSemicolon(TrimSpace(sql));
    match d {
      case Postgres => PostgresAsks(base, n, pg.args);
      case MySql => MySqlAsks(base, n, pg.args);
      case SqlServer =>
        var ordered := if hasOrderBy(base) then base else base + " ORDER BY (SELECT 1)";
        FetchSpelled(ordered, " OFFSET @p", " ROWS FETCH NEXT @p", "@p", Itoa(n + 1), Itoa(n + 2));
        FetchAsks("@p", ordered, n, pg.args);
      case Oracle =>
        FetchSpelled(base, " OFFSET :", " ROWS FETCH NEXT :", ":", Itoa(n + 1), Itoa(n + 2));
        FetchAsks(":", base, n, pg.args);
    }
  }

  /** Before the clause stand the words of the query and, for SQL Server, an order where it has none. */
  lemma PageKeepsWords<V>(hasOrderBy: string -> bool, sql: string, args: seq<Arg<V>>, d: Dialect, limit: int,
                          offset: int) returns (clause: seq<string>)
    requires !d.Plain? && limit > 0
    ensures var base := BaseOf(sql);
      var supplied := if d.SqlServer? && !hasOrderBy(base) then ["ORDER", "BY", "(", "SELECT", "1", ")"] else [];
      Words(ApplyPagination(hasOrderBy, sql, args, d, limit, offset).sql) == Words(base) + supplied + clause
    ensures |clause| == if d.SqlServer? || d.Oracle? then 8 else 4
  {
    hide Words, Itoa, TrimSpace, TrimSemicolon, OneWord;
    var n, base := |args|, BaseOf(sql);
    assert Words(base) + [] == Words(base);
    match d {
      case Postgres => clause := PostgresClause(base, n);
      case MySql =>
        PairWords(base);
        clause := ["LIMIT", "?", ",", "?"];
      case SqlServer =>
        var ordered := if hasOrderBy(base) then base else base + " ORDER BY (SELECT 1)";
        OrderSupplied(base);
        FetchSpelled(ordered, " OFFSET @p", " ROWS FETCH NEXT @p", "@p", Itoa(n + 1), Itoa(n + 2));
        clause := FetchClause("@p", ordered, n);
      case Oracle =>
        FetchSpelled(base, " OFFSET :", " ROWS FETCH NEXT :", ":", Itoa(n + 1), Itoa(n + 2));
        clause := FetchClause(":", base, n);
    }
  }

  /** ...and the whole connector path, bind then paginate, adds the clause's two placeholders after
      them, with the texts of the template between the placeholders untouched. The database reads the
      bound query as the template's own lexemes exactly when it agrees with the binder on what opens a
      quote or a comment, and reads the clause as code exactly when the trimmed query leaves none open. */
  method BindAndPaginate<V>(hasOrderBy: string -> bool, template: string, params: map<string, V>,
                            rules: Dialect, d: Dialect, limit: int, offset: int)
    returns (failed: bool, pg: Page<V>)
    requires !d.Plain? && limit > 0
    ensures failed <==> !BindMeaning(BindRules(rules), template, params, Placeholder(d)).BoundQuery?
    ensures !failed ==>
      var b := BindRules(rules);
      var o, toks := BindMeaning(b, template, params, Placeholder(d)), Lex(b, template).toks;
      && pg.args == AsArgs(o.args) + PageArgs(d, limit, offset)
      && Matched(d, PagedTexts(hasOrderBy, Segments(toks), o.sql, d), pg.sql, pg.args)
      && RowsAsked(d, pg.sql, pg.args) == (Some(Number(limit)), Some(Number(if offset < 0 then 0 else offset)))
      && (Rereads(d, 0, b, template) <==> NoDrift(b, Reader(d), template))
      && (ClauseRead(hasOrderBy, o.sql, d, |o.args|, pg.sql) <==> Closed(Reader(d), BaseOf(o.sql)))
  {
    pg := Page("", []);
    var o := BindDialect(template, params, Placeholder(d), rules);
    failed := !o.BoundQuery?;
    if !failed {
      var args := AsArgs(o.args);
      pg := ApplyPagination(hasOrderBy, o.sql, args, d, limit, offset);
      ghost var b := BindRules(rules);
      assert Lex(b, template).rest == [];
      hide BindMeaning, Weave, Placeholder, PagedTexts, Lex, Segments, Rereads, NoDrift, ClauseRead, Closed, BaseOf;
      hide ApplyPagination, RowsAsked;
      PageAsksFor(hasOrderBy, o.sql, args, d, limit, offset);
      BindingMatches(b, template, params, d);
      PaginationMatches(hasOrderBy, Segments(Lex(b, template).toks), o.sql, args, d, limit, offset);
      RereadIff(d, 0, b, template);
      ClauseReadIff(hasOrderBy, o.sql, args, d, limit, offset);
    }
  }

  /** Both together: the database reads the lexemes of the template, a placeholder in code position
      for each parameter, outer white space and a last semicolon dropped, and then the clause. */
  lemma PagedReads<V>(hasOrderBy: string -> bool, template: string, params: map<string, V>, b: Rules, d: Dialect,
                      limit: int, offset: int) returns (pre: string, core: seq<Lexeme>, end: string)
    requires !d.Plain? && limit > 0 && b.named
    requires var o := BindMeaning(b, template, params, Placeholder(d));
      o.BoundQuery? && NoDrift(b, Reader(d), template) && Closed(Reader(d), BaseOf(o.sql))
    ensures var o := BindMeaning(b, template, params, Placeholder(d));
      && Placed(Placeholder(d), 0, Lex(b, template).toks) == Spell(pre) + (core + Spell(end))
      && Lex(Reader(d), ApplyPagination(hasOrderBy, o.sql, AsArgs(o.args), d, limit, offset).sql)
         == Scan(core + Spell(TailOf(hasOrderBy, o.sql, d, |o.args|)), [])
  {
    var o := BindMeaning(b, template, params, Placeholder(d));
    assert Lex(b, template).rest == [] && o.sql == Bound(Placeholder(d), 0, Lex(b, template).toks);
    hide BindMeaning, Weave, Placeholder, Lex, NoDrift, Closed, BaseOf, ApplyPagination, TailOf, Placed, Bound;
    RereadIff(d, 0, b, template);
    pre, end := TrimmedRead(o.sql, d);
    core := Lex(Reader(d), BaseOf(o.sql)).toks;
    ClauseReadIff(hasOrderBy, o.sql, AsArgs(o.args), d, limit, offset);
  }

  const COMMENTED := "a--b"

  lemma CommentReads(r: Rules, more: string)
    requires '\n' !in more
    ensures Lex(r, COMMENTED + more) == Scan([Code('a'), Opaque("--b" + more)], [])
  {
    var s, t := COMMENTED + more, "--b" + more;
    assert s[1..] == t && s[0] == 'a';
    LineToEnd(t);
    assert t[..|t|] == t && t[|t|..] == [];
    assert Head(r, s) == Take(Code('a'), 1) && Head(r, t) == Take(Opaque(t), |t|);
    hide Lex, Head;
    ScanCons(r, s);
    ScanCons(r, t);
    ScanEnd(r, []);
    var toks := Lex(r, s).toks;
    assert toks[1..] == [Opaque(t)];
  }

  lemma {:induction false} LineToEnd(t: string)
    requires '\n' !in t
    ensures LineLen(t) == |t|
  {
    if t != [] { LineToEnd(t[1..]); }
  }

  /** A Postgres template that ends in a comment is accepted, and the comment swallows the clause:
      two arguments are passed and no placeholder is read. */
  lemma ClauseSwallowed<V, W>(env: Publish.Env<W>, hasOrderBy: string -> bool, limit: int, offset: int)
    requires limit > 0
    ensures var api := Publish.ApiDefinition("POST", Postgres, COMMENTED, Publish.NoBuilder, true, 1);
      var pg := ApplyPagination<V>(hasOrderBy, COMMENTED, [], Postgres, limit, offset);
      && Publish.Publishable(env, api, []) && |pg.args| == 2
      && Lex(Reader(Postgres), pg.sql).toks == [Code('a'), Opaque("--b LIMIT $1 OFFSET $2")]
  {
    hide Lex, ApplyPagination, Publish.Publishable;
    CommentAccepted(env);
    CommentPaged<V>(hasOrderBy, limit, offset);
    assert "--b" + " LIMIT $1 OFFSET $2" == "--b LIMIT $1 OFFSET $2";
    CommentReads(Reader(Postgres), " LIMIT $1 OFFSET $2");
  }

  lemma CommentPaged<V>(hasOrderBy: string -> bool, limit: int, offset: int)
    requires limit > 0
    ensures var pg := ApplyPagination<V>(hasOrderBy, COMMENTED, [], Postgres, limit, offset);
      |pg.args| == 2 && pg.sql == COMMENTED + " LIMIT $1 OFFSET $2"
  {
    CommentTrims();
    hide TrimSpace, TrimSemicolon;
    assert Itoa(1) == "1" && Itoa(2) == "2";
    hide Itoa;
    assert COMMENTED + " LIMIT $" + "1" + " OFFSET $" + "2" == COMMENTED + " LIMIT $1 OFFSET $2";
  }

  lemma CommentTrims()
    ensures TrimSpace(COMMENTED) == COMMENTED && TrimSemicolon(COMMENTED) == COMMENTED
    ensures TrimSemicolons(COMMENTED) == COMMENTED
  {
  }

  lemma CommentAccepted<W>(env: Publish.Env<W>)
    ensures Publish.Publishable(env, Publish.ApiDefinition("POST", Postgres, COMMENTED, Publish.NoBuilder, true, 1), [])
  {
    hide Lex, TrimSpace, TrimSemicolon, TrimSemicolons, Stripped, ParamNames, Publish.Publishable;
    CommentTrims();
    assert COMMENTED + "" == COMMENTED && "--b" + "" == "--b";
    CommentReads(StripRules(Postgres), "");
    CommentReads(ExtractRules(Postgres), "");
    CommentKeeps();
    Statements.WriteAccepted(env, Postgres, COMMENTED, []);
  }

  lemma CommentKeeps()
    ensures Stripped([Code('a'), Opaque("--b")]) == "a" && ParamNames([Code('a'), Opaque("--b")]) == []
  {
    Statements.StripOpaque("--b");
    assert [Code('a'), Opaque("--b")][1..] == [Opaque("--b")];
  }

  // ---- The page window ----

  const MAX_INT64 := 0x7FFF_FFFF_FFFF_FFFF

  /** 64-bit two's complement wrap-around. */
  function Wrap64(x: int): int { (x + MAX_INT64 + 1) % (2 * (MAX_INT64 + 1)) - (MAX_INT64 + 1) }

  /** A query value parsed by Atoi: absent, malformed and out-of-range values are all None. */
  datatype Parsed = NoNumber | Parsed(n: int)

  predicate InRange(p: Parsed) { p.Parsed? ==> -MAX_INT64 - 1 <= p.n <= MAX_INT64 }

  datatype Limits = Limits(apiDefault: int, apiMax: int, gatewayDefault: int, gatewayMax: int)

  function EffectiveLimit(l: Limits, asked: Parsed): int
  {
    var a := if asked.Parsed? && asked.n > 0 then asked.n else l.apiDefault;
    var b := if l.apiMax > 0 && a > l.apiMax then l.apiMax else a;
    var c := if l.gatewayMax > 0 && b > l.gatewayMax then l.gatewayMax else b;
    var e := if c <= 0 then l.gatewayDefault else c;
    if e <= 0 then 100 else e
  }

  /** A published API (default limit above zero) is served within every positive cap. */
  lemma LimitWithinCaps(l: Limits, asked: Parsed)
    ensures EffectiveLimit(l, asked) >= 1
    ensures l.apiDefault > 0 && l.apiMax > 0 ==> EffectiveLimit(l, asked) <= l.apiMax
    ensures l.apiDefault > 0 && l.gatewayMax > 0 ==> EffectiveLimit(l, asked) <= l.gatewayMax
    ensures l.apiDefault > 0 && asked.Parsed? && asked.n > 0 ==> EffectiveLimit(l, asked) <= asked.n
  {
  }

  /** Every number that bounds a limit: what is asked for, or else the API's default, and the caps. */
  function Bounds(l: Limits, asked: Parsed): set<int> {
    {if asked.Parsed? && asked.n > 0 then asked.n else l.apiDefault}
    + (if l.apiMax > 0 then {l.apiMax} else {}) + (if l.gatewayMax > 0 then {l.gatewayMax} else {})
  }

  /** The limit is exactly the least of them, unless nothing is asked for and there is no default: then
      it is the gateway's default, or 100 without one. */
  lemma LimitIsLeast(l: Limits, asked: Parsed)
    ensures var n, bounds := EffectiveLimit(l, asked), Bounds(l, asked);
      if (asked.Parsed? && asked.n > 0) || l.apiDefault > 0 then n in bounds && forall b | b in bounds :: n <= b
      else n == if l.gatewayDefault > 0 then l.gatewayDefault else 100
  {
  }

  datatype Window = Window(limit: int, offset: int, page: int)

  function PageWindow(limit: int, page: Parsed, offset: Parsed): Window
    requires limit >= 1
  {
    var w := if page.Parsed? && page.n > 0 then Window(limit, Wrap64((page.n - 1) * limit), page.n)
        else Window(limit, 0, 1);
    if offset.Parsed? && offset.n >= 0 then Window(limit, offset.n, Wrap64(offset.n / limit + 1)) else w
  }

  /** An explicit offset is taken as it is; otherwise a page begins at its first row, unless that row's
      number does not fit 64 bits; and without either the window is the first page. */
  lemma WindowStarts(limit: int, page: Parsed, offset: Parsed)
    requires 1 <= limit <= MAX_INT64 && InRange(page) && InRange(offset)
    ensures var w := PageWindow(limit, page, offset);
      && w.limit == limit
      && (offset.Parsed? && offset.n >= 0 ==> w.offset == offset.n)
      && (!(offset.Parsed? && offset.n >= 0) && page.Parsed? && page.n > 0 ==>
          w.page == page.n && (w.offset == (page.n - 1) * limit <==> (page.n - 1) * limit <= MAX_INT64))
      && (!(offset.Parsed? && offset.n >= 0) && !(page.Parsed? && page.n > 0) ==> w.page == 1 && w.offset == 0)
  {
    hide Wrap64;
    if page.Parsed? && page.n > 0 {
      NonNegative(page.n - 1, limit);
      WrapFits((page.n - 1) * limit);
    }
  }

  predicate OnPage(w: Window) { (w.page - 1) * w.limit <= w.offset < w.page * w.limit }

  lemma WrapFits(x: int)
    requires x >= 0
    ensures Wrap64(x) == x <==> x <= MAX_INT64
    ensures x > MAX_INT64 ==> Wrap64(x) < x
  {
  }

  /** The offset lies on the reported page exactly when the multiplication (or, for an
      explicit offset, the page number) stays within 64 bits. */
  lemma OnPageIff(limit: int, page: Parsed, offset: Parsed)
    requires 1 <= limit <= MAX_INT64 && InRange(page) && InRange(offset)
    ensures OnPage(PageWindow(limit, page, offset)) <==>
      if offset.Parsed? && offset.n >= 0 then offset.n / limit < MAX_INT64
      else if page.Parsed? && page.n > 0 then (page.n - 1) * limit <= MAX_INT64
      else true
  {
    hide Wrap64;
    if offset.Parsed? && offset.n >= 0 {
      OffsetOnPage(limit, offset.n);
    } else if page.Parsed? && page.n > 0 {
      StartsPage(limit, page.n);
    }
  }

  lemma OffsetOnPage(limit: int, n: nat)
    requires 1 <= limit <= MAX_INT64 && n <= MAX_INT64
    ensures OnPage(Window(limit, n, Wrap64(n / limit + 1))) <==> n / limit < MAX_INT64
  {
    var q := n / limit;
    QuotientInRange(n, limit);
    WrapFits(q + 1);
    if q == MAX_INT64 {
      assert Wrap64(q + 1) == -MAX_INT64 - 1;
      NegativePage(limit);
    } else {
      hide Wrap64;
      Within(n, limit, q);
    }
  }

  lemma Within(n: nat, limit: int, q: int)
    requires limit >= 1 && q == n / limit
    ensures q * limit <= n < (q + 1) * limit
  {
    assert n == q * limit + n % limit;
    assert (q + 1) * limit == q * limit + limit;
  }

  lemma StartsPage(limit: int, page: int)
    requires 1 <= limit && page > 0
    ensures OnPage(Window(limit, Wrap64((page - 1) * limit), page)) <==> (page - 1) * limit <= MAX_INT64
  {
    hide Wrap64;
    var x := (page - 1) * limit;
    NonNegative(page - 1, limit);
    WrapFits(x);
    assert page * limit == x + limit;
  }

  lemma NonNegative(a: int, b: int)
    requires a >= 0 && b >= 0
    ensures a * b >= 0
  {
  }

  lemma QuotientInRange(n: nat, limit: int)
    requires limit >= 1
    ensures 0 <= n / limit <= n
  {
  }

  lemma NegativePage(limit: int)
    requires limit >= 1
    ensures (-MAX_INT64 - 1) * limit < 0
  {
  }

  /** Witness: page 2^62 + 1 of 4 rows wraps round to the first row. */
  lemma PageOverflows()
    ensures PageWindow(4, Parsed(0x4000_0000_0000_0001), NoNumber) == Window(4, 0, 0x4000_0000_0000_0001)
  {
  }
}
