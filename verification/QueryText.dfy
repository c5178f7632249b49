/** The whole query as text (internal/gateway/querybuilder.go): its words, clause by clause, the order
    it asks for, and how a request's own texts are taken apart. */
module QueryText {
  import opened Options
  import opened Strings
  import opened SqlPieces
  import opened SqlWords
  import opened QueryBuilder
  import opened QueryMeaning

  // ---- SELECT, FROM and JOIN ----

  lemma HeadWords(c: Config)
    requires SafeIdent(c.baseTable)
    ensures Words(HeadText(c)) == ["SELECT"] + Listed(c.select) + ["FROM", c.baseTable]
  {
    hide Words, SafeIdent, OneWord, Listed, Join;
    var cols := Join(c.select, ", ");
    JoinListed(c.select);
    ColumnIsWord(c.baseTable);
    WordIs(c.baseTable);
    ClauseWords();
    WordThen("FROM", c.baseTable);
    WordsSplit(cols, ' ', "FROM" + " " + c.baseTable);
    var rest := cols + " " + ("FROM" + " " + c.baseTable);
    WordThen("SELECT", rest);
    assert HeadText(c) == "SELECT" + " " + rest by {
      assert "SELECT " == "SELECT" + " " && " FROM " + c.baseTable == " " + ("FROM" + " " + c.baseTable);
      assert "SELECT " + cols + " FROM " + c.baseTable == "SELECT " + (cols + (" FROM " + c.baseTable));
    }
    assert ["SELECT"] + (Words(cols) + [] + (["FROM"] + [c.baseTable]))
        == ["SELECT"] + Words(cols) + ["FROM", c.baseTable];
  }

  lemma ClauseWords()
    ensures OneWord("SELECT") && OneWord("FROM") && OneWord("JOIN") && OneWord("ON") && OneWord("=")
    ensures OneWord("WHERE") && OneWord("GROUP") && OneWord("ORDER") && OneWord("BY")
  {
  }

  /** `INNER JOIN table alias ON left = right` */
  function OneJoin(j: JoinConfig): seq<string> {
    [Upper(j.kind), "JOIN", j.table] + (if j.alias != "" then [j.alias] else []) + ["ON", j.left, "=", j.right]
  }

  function AllJoins(js: seq<JoinConfig>): seq<string> {
    if js == [] then [] else OneJoin(js[0]) + AllJoins(js[1..])
  }

  lemma KindIsWord(kind: string)
    requires Lower(kind) in {"inner", "left"}
    ensures OneWord(Upper(kind))
  {
    assert |Lower(kind)| == |kind| == |Upper(kind)| && |kind| > 0;
    forall c | c in Upper(kind) ensures !Breaks(c) {
      var i :| 0 <= i < |kind| && Upper(kind)[i] == c;
      assert Lower(kind)[i] == LowerChar(kind[i]);
      assert Lower(kind)[i] in {'i', 'n', 'e', 'r', 'l', 'f', 't'};
    }
  }

  lemma OnWords(left: string, right: string)
    requires OneWord(left) && OneWord(right)
    ensures Words("ON" + " " + (left + " " + ("=" + " " + right))) == ["ON", left, "=", right]
  {
    hide Words, OneWord;
    ClauseWords();
    WordIs(right);
    WordThen("=", right);
    WordThen(left, "=" + " " + right);
    WordThen("ON", left + " " + ("=" + " " + right));
    assert ["ON"] + ([left] + (["="] + [right])) == ["ON", left, "=", right];
  }

  lemma JoinText3(j: JoinConfig)
    requires j.op == "="
    ensures var on := "ON" + " " + (j.left + " " + ("=" + " " + j.right));
      var named := if j.alias != "" then j.alias + " " + on else on;
      JoinText(j) == " " + (Upper(j.kind) + " " + ("JOIN" + " " + (j.table + " " + named)))
  {
    hide Upper;
    var on := "ON" + " " + (j.left + " " + ("=" + " " + j.right));
    var a := if j.alias != "" then " " + j.alias else "";
    var front := " " + Upper(j.kind) + " JOIN " + j.table;
    OnText(front + a, j.left, j.right);
    assert front + a + " " + on == front + (a + " " + on);
    JoinedText(Upper(j.kind), j.table, a + " " + on);
    var named := if j.alias != "" then j.alias + " " + on else on;
    assert a + " " + on == " " + named;
    assert j.table + (" " + named) == j.table + " " + named;
  }

  lemma OnText(x: string, l: string, r: string)
    ensures x + " ON " + l + " " + "=" + " " + r == x + " " + ("ON" + " " + (l + " " + ("=" + " " + r)))
  {
    var eq := "=" + " " + r;
    assert x + " ON " + l + " " + "=" + " " + r == x + " ON " + l + " " + eq;
    assert x + " ON " == x + " " + ("ON" + " ");
    assert x + " ON " + l + " " + eq == x + " ON " + (l + " " + eq);
    assert x + " " + ("ON" + " ") + (l + " " + eq) == x + " " + ("ON" + " " + (l + " " + eq));
  }

  lemma JoinedText(k: string, t: string, rest: string)
    ensures " " + k + " JOIN " + t + rest == " " + (k + " " + ("JOIN" + " " + (t + rest)))
  {
    assert " " + k + " JOIN " + t + rest == " " + k + " JOIN " + (t + rest);
    assert " " + k + " JOIN " == " " + k + (" " + ("JOIN" + " "));
    var u := t + rest;
    assert " " + k + (" " + ("JOIN" + " ")) + u == " " + k + (" " + ("JOIN" + " " + u));
    assert " " + k + (" " + ("JOIN" + " " + u)) == " " + (k + " " + ("JOIN" + " " + u));
  }

  lemma JoinWords(j: JoinConfig)
    requires SafeJoin(j)
    ensures Words(JoinText(j)) == OneJoin(j) && JoinText(j)[0] == ' '
  {
    hide Words, OneWord, SafeIdent, IsAlias, Lower, Upper, JoinText;
    var on := "ON" + " " + (j.left + " " + ("=" + " " + j.right));
    var named := if j.alias != "" then j.alias + " " + on else on;
    JoinText3(j);
    ColumnIsWord(j.table);
    ColumnIsWord(j.left);
    ColumnIsWord(j.right);
    KindIsWord(j.kind);
    ClauseWords();
    OnWords(j.left, j.right);
    if j.alias != "" {
      AliasIsWord(j.alias);
      WordThen(j.alias, on);
    }
    WordThen(j.table, named);
    WordThen("JOIN", j.table + " " + named);
    WordThen(Upper(j.kind), "JOIN" + " " + (j.table + " " + named));
    WordsMark(' ', Upper(j.kind) + " " + ("JOIN" + " " + (j.table + " " + named)));
    var k := Upper(j.kind);
    assert [] + ([k] + (["JOIN"] + ([j.table] + Words(named)))) == [k, "JOIN", j.table] + Words(named);
    assert [k, "JOIN", j.table] + [] + Words(on) == [k, "JOIN", j.table] + Words(on);
    assert [k, "JOIN", j.table] + ([j.alias] + Words(on)) == [k, "JOIN", j.table] + [j.alias] + Words(on);
  }

  lemma {:induction false} AllJoinsSnoc(js: seq<JoinConfig>, j: JoinConfig)
    ensures AllJoins(js + [j]) == AllJoins(js) + OneJoin(j)
  {
    hide OneJoin;
    var all := js + [j];
    if js == [] {
      assert all[1..] == [] && all[0] == j;
      assert OneJoin(j) + [] == [] + OneJoin(j);
    } else {
      assert all[0] == js[0] && all[1..] == js[1..] + [j];
      AllJoinsSnoc(js[1..], j);
      assert OneJoin(js[0]) + (AllJoins(js[1..]) + OneJoin(j)) == OneJoin(js[0]) + AllJoins(js[1..]) + OneJoin(j);
    }
  }

  lemma {:induction false} JoinsWords(start: string, js: seq<JoinConfig>)
    requires forall j | j in js :: SafeJoin(j)
    ensures Words(start + JoinsText(js)) == Words(start) + AllJoins(js)
  {
    hide Words, SafeJoin, JoinText, OneJoin, AllJoins;
    if js == [] {
      assert start + JoinsText([]) == start && Words(start) + AllJoins([]) == Words(start) by { NoJoins(); }
    } else {
      var n := |js| - 1;
      var front, j := js[..n], js[n];
      assert js == front + [j] && j in js && forall x | x in front :: x in js;
      JoinsWords(start, front);
      JoinWords(j);
      SpacedWords(start + JoinsText(front), JoinText(j));
      AllJoinsSnoc(front, j);
      assert start + (JoinsText(front) + JoinText(j)) == start + JoinsText(front) + JoinText(j);
      assert Words(start) + AllJoins(front) + OneJoin(j) == Words(start) + (AllJoins(front) + OneJoin(j));
    }
  }

  lemma NoJoins() ensures AllJoins([]) == [] {}

  // ---- ORDER BY ----

  /** `column ASC, column DESC, ...` read as columns, each with whether it descends. */
  function ReadOrder(ws: seq<string>): Option<seq<(string, bool)>>
    decreases |ws|
  {
    if |ws| < 2 || (ws[1] != "ASC" && ws[1] != "DESC") then None
    else if |ws| == 2 then Some([(ws[0], ws[1] == "DESC")])
    else if ws[2] != "," then None
    else match ReadOrder(ws[3..]) case None => None case Some(o) => Some([(ws[0], ws[1] == "DESC")] + o)
  }

  predicate Descends(token: string) { token != "" && token[0] == '-' }

  function Sorted(token: string): string { if Descends(token) then token[1..] else token }

  /** What the sort tokens ask for: the column of each name, descending behind a minus sign. */
  function WantedOrder(cols: map<string, string>, tokens: seq<string>): seq<(string, bool)>
    requires forall t | t in tokens :: Sorted(t) in cols
  {
    if tokens == [] then []
    else
      assert tokens[0] in tokens;
      [(cols[Sorted(tokens[0])], Descends(tokens[0]))] + WantedOrder(cols, tokens[1..])
  }

  lemma SortedIs(token: string)
    ensures SortName(token) == Sorted(token) && SortDir(token) == (if Descends(token) then " DESC" else " ASC")
  {
    if Descends(token) { assert token[..1] == "-"; } else if token != "" { assert token[..1][0] == token[0]; }
  }

  lemma TermWords(column: string, token: string)
    requires SafeIdent(column)
    ensures Words(column + SortDir(token)) == [column, if Descends(token) then "DESC" else "ASC"]
  {
    hide Words, SafeIdent, OneWord;
    SortedIs(token);
    ColumnIsWord(column);
    KeywordsAreWords();
    var dir := if Descends(token) then "DESC" else "ASC";
    WordIs(dir);
    WordThen(column, dir);
    assert column + SortDir(token) == column + " " + dir;
    assert [column] + [dir] == [column, dir];
  }

  /** The order text is read as what the tokens ask for. */
  lemma {:induction false} OrderReads(cols: map<string, string>, tokens: seq<string>)
    requires tokens != [] && (forall t | t in tokens :: SortName(t) in cols && Sorted(t) in cols)
    requires forall n | n in cols :: SafeIdent(cols[n])
    ensures ReadOrder(Words(Join(SortTerms(cols, tokens), ", "))) == Some(WantedOrder(cols, tokens))
  {
    hide Words, SafeIdent, SortName, SortDir, Sorted, Descends;
    var t := tokens[0];
    assert t in tokens;
    SortedIs(t);
    var column := cols[Sorted(t)];
    TermWords(column, t);
    var terms := SortTerms(cols, tokens);
    assert terms[0] == column + SortDir(t);
    var first := Words(terms[0]);
    if |tokens| == 1 {
      assert tokens[1..] == [] && WantedOrder(cols, tokens[1..]) == [];
      assert terms == [terms[0]] && Join(terms, ", ") == terms[0];
      assert WantedOrder(cols, tokens) == [(column, Descends(t))];
      assert "ASC" != "DESC" by { assert |"ASC"| == 3 && |"DESC"| == 4; }
    } else {
      assert "ASC" != "DESC" by { assert |"ASC"| == 3 && |"DESC"| == 4; }
      assert forall u | u in tokens[1..] :: u in tokens;
      OrderReads(cols, tokens[1..]);
      assert terms[1..] == SortTerms(cols, tokens[1..]);
      var more := Join(terms[1..], ", ");
      CommaWords(terms[0], more);
      var ws := first + [","] + Words(more);
      assert ws[3..] == Words(more) && ws[2] == "," && ws[0] == first[0] && ws[1] == first[1];
    }
  }

  /** Where a name is declared twice, the later column counts. */
  lemma {:induction false} LastSortable(cols: seq<SortableColumn>, i: nat)
    requires i < |cols| && forall j | i < j < |cols| :: cols[j].name != cols[i].name
    ensures cols[i].name in SortColumns(cols) && SortColumns(cols)[cols[i].name] == cols[i].column
  {
    var n := |cols| - 1;
    if i < n { LastSortable(cols[..n], i); }
  }

  // ---- GROUP BY, and the whole ----

  function GroupWords(groupBy: seq<string>): seq<string> {
    if groupBy == [] then [] else ["GROUP", "BY"] + Listed(groupBy)
  }

  lemma ByWords(w: string, list: string)
    requires OneWord(w)
    ensures Words(" " + w + " BY " + list) == [w, "BY"] + Words(list)
  {
    hide Words, OneWord;
    ClauseWords();
    WordThen("BY", list);
    WordThen(w, "BY" + " " + list);
    WordsMark(' ', w + " " + ("BY" + " " + list));
    assert " " + w + " BY " + list == " " + (w + " " + ("BY" + " " + list)) by {
      assert " BY " + list == " " + ("BY" + " " + list);
    }
    assert [] + ([w] + (["BY"] + Words(list))) == [w, "BY"] + Words(list);
  }

  lemma TailWords(groupBy: seq<string>, order: string)
    ensures Words(TailText(groupBy, order))
        == GroupWords(groupBy) + (if order == "" then [] else ["ORDER", "BY"] + Words(order))
    ensures TailText(groupBy, order) == "" || TailText(groupBy, order)[0] == ' '
  {
    hide Words, Listed, Join, OneWord;
    NoWords();
    ClauseWords();
    var g := if groupBy != [] then " GROUP BY " + Join(groupBy, ", ") else "";
    var o := if order != "" then " ORDER BY " + order else "";
    SpacedWords(g, o);
    JoinListed(groupBy);
    ByWords("GROUP", Join(groupBy, ", "));
    ByWords("ORDER", order);
    assert " " + "GROUP" + " BY " == " GROUP BY " && " " + "ORDER" + " BY " == " ORDER BY ";
  }

  /** The words of a query, part by part; `where` and `order` are the words of the conditions and of
      the order. */
  function QueryWords(c: Config, where: seq<string>, order: seq<string>): seq<string> {
    (["SELECT"] + Listed(c.select) + ["FROM", c.baseTable] + AllJoins(c.joins))
    + (if where == [] then [] else ["WHERE"] + where)
    + (GroupWords(c.groupBy) + (if order == [] then [] else ["ORDER", "BY"] + order))
  }

  /** The query's conditions and order, as its words spell them. */
  ghost predicate Spells(params: map<string, string>, where: seq<string>, cs: seq<Cond>, order: seq<string>,
                         wanted: seq<(string, bool)>)
  {
    && (if where == [] then cs == [] else ReadWhere(params, where) == Some(cs))
    && (if order == [] then wanted == [] else ReadOrder(order) == Some(wanted))
  }

  /** The sort tokens: those of the request, or else those of the configuration. */
  function AskedTokens(c: Config, query: Query): seq<string> {
    var given := "sort" in query && query["sort"] != [] && query["sort"][0] != "";
    SplitCSV(if given then query["sort"][0] else c.defaultSort)
  }

  lemma TokensAsked(c: Config, query: Query)
    ensures SortTokens(c, SortParam(query)) == AskedTokens(c, query)
  {
    OneItem("");
    hide SplitCSV;
  }

  function AskedOrder(c: Config, query: Query): seq<(string, bool)>
    requires Buildable(c, query)
  {
    TokensAsked(c, query);
    SortedAll(AskedTokens(c, query));
    WantedOrder(SortColumns(c.sortable), AskedTokens(c, query))
  }

  lemma SortedAll(tokens: seq<string>)
    ensures forall t | t in tokens :: Sorted(t) == SortName(t)
  {
    forall t | t in tokens ensures Sorted(t) == SortName(t) { SortedIs(t); }
  }

  lemma SortablesSafe(c: Config)
    requires Valid(c)
    ensures forall n | n in SortColumns(c.sortable) :: SafeIdent(SortColumns(c.sortable)[n])
  {
    hide SafeIdent, SafeSelect;
  }

  lemma OrderSpelled(c: Config, query: Query)
    requires Buildable(c, query)
    ensures var text := OrderText(c, query);
      && (text == "" <==> Words(text) == []) && (text == "" ==> AskedOrder(c, query) == [])
      && (text != "" ==> ReadOrder(Words(text)) == Some(AskedOrder(c, query)))
  {
    hide Words, SortTokens, SortColumns, SortName, SafeIdent, SafeSelect, KnownNames, FilterOk, ReadOrder;
    var tokens, cols := SortTokens(c, SortParam(query)), SortColumns(c.sortable);
    TokensAsked(c, query);
    SortedAll(tokens);
    NoWords();
    if tokens == [] {
      assert SortTerms(cols, tokens) == [] && Join([], ", ") == "";
    } else {
      SortablesSafe(c);
      OrderReads(cols, tokens);
      hide Join, SortTerms;
      NothingOrdered();
    }
  }

  lemma NothingOrdered() ensures ReadOrder([]).None? {}

  lemma StartWords(c: Config)
    requires Valid(c)
    ensures Words(HeadText(c) + JoinsText(c.joins))
        == ["SELECT"] + Listed(c.select) + ["FROM", c.baseTable] + AllJoins(c.joins)
  {
    hide Words, SafeIdent, SafeSelect, Lower, IsAlias, HeadText, JoinsText, AllJoins, Listed;
    HeadWords(c);
    JoinsWords(HeadText(c), c.joins);
  }

  /** A built query, read back word by word: the configured columns, table and joins, the conditions
      that the request stands for, and the configured grouping and order asked for. */
  lemma QuerySpells(c: Config, query: Query, ps: seq<Piece>, params: map<string, string>)
    returns (where: seq<string>, order: seq<string>)
    requires Buildable(c, query) && Blank(ps) == QueryPieces(c, query) && AliasHoles(ps) && Stored(ps, params)
    ensures FiltersOk(c.filters, query)
    ensures Words(RenderPieces(ps)) == QueryWords(c, where, order)
    ensures Spells(params, where, CondsOf(c.filters, query), order, AskedOrder(c, query))
  {
    hide Words, RenderPieces, WherePieces, OrderText, TailText, HeadText, JoinsText, Listed, AllJoins, ReadWhere,
        ReadOrder, CondsOf, AskedOrder, AliasHoles, Stored, Blank, SafeIdent, SafeSelect, FilterOk, KnownNames;
    hide SortTokens, SortName, SortColumns, GroupWords;
    var start, tail := HeadText(c) + JoinsText(c.joins), TailText(c.groupBy, OrderText(c, query));
    var wp := WherePieces(c.filters, query);
    var wps := QuerySplits(ps, start, wp, tail, params);
    StartWords(c);
    TailWords(c.groupBy, OrderText(c, query));
    OrderSpelled(c, query);
    order := Words(OrderText(c, query));
    WhereReads(c.filters, query, wps, params);
    where := if wps == [] then [] else Words(RenderPieces(wps));
    WhereThere(params, wps, CondsOf(c.filters, query));
    QueryRead(start, wps, tail, where);
  }

  lemma WhereThere(params: map<string, string>, wps: seq<Piece>, cs: seq<Cond>)
    requires WhereSpells(params, wps, cs)
    ensures wps != [] ==> Words(RenderPieces(wps)) != []
  {
    hide RenderPieces, Words;
    if wps != [] && Words(RenderPieces(wps)) == [] { NoWhere(params); }
  }

  lemma NoWhere(params: map<string, string>) ensures ReadWhere(params, []).None? {}

  function QueryOf(start: string, wps: seq<Piece>, tail: string): seq<Piece> {
    (if wps == [] then [Lit(start)] else [Lit(start), Lit(" WHERE ")] + wps) + (if tail == "" then [] else [Lit(tail)])
  }

  /** The pieces of a query, the keys filled in. */
  lemma QuerySplits(ps: seq<Piece>, start: string, wp: seq<Piece>, tail: string, params: map<string, string>)
    returns (wps: seq<Piece>)
    requires Blank(ps) == QueryOf(start, wp, tail) && AliasHoles(ps) && Stored(ps, params)
    ensures Blank(wps) == wp && ps == QueryOf(start, wps, tail) && AliasHoles(wps) && Stored(wps, params)
  {
    hide IsAlias;
    var front := if wp == [] then [Lit(start)] else [Lit(start), Lit(" WHERE ")] + wp;
    var back: seq<Piece> := if tail == "" then [] else [Lit(tail)];
    BlankSplit(ps, front, back);
    var a, b := ps[..|front|], ps[|front|..];
    LitsAre(b, back);
    var lits: seq<Piece> := if wp == [] then [Lit(start)] else [Lit(start), Lit(" WHERE ")];
    assert front == lits + wp;
    BlankSplit(a, lits, wp);
    wps := a[|lits|..];
    LitsAre(a[..|lits|], lits);
    assert |wps| == |Blank(wps)|;
    StoredPart(lits, wps, b, params);
    AliasConcat(a, b);
    AliasConcat(lits, wps);
  }

  lemma LitsAre(ps: seq<Piece>, lits: seq<Piece>)
    requires Blank(ps) == lits && forall l | l in lits :: l.Lit?
    ensures ps == lits
  {
    forall i | 0 <= i < |ps| ensures ps[i] == lits[i] { assert Blank(ps)[i] == lits[i] && lits[i] in lits; }
  }

  lemma WhereRendered(start: string, wps: seq<Piece>)
    ensures RenderPieces([Lit(start)]) == start
    ensures RenderPieces([Lit(start), Lit(" WHERE ")] + wps) == start + " WHERE " + RenderPieces(wps)
  {
    hide RenderPieces;
    var lits := [Lit(start), Lit(" WHERE ")];
    PieceUnit(Lit(start));
    PieceUnit(Lit(" WHERE "));
    PiecesConcat([Lit(start)], [Lit(" WHERE ")]);
    assert [Lit(start)] + [Lit(" WHERE ")] == lits;
    PiecesConcat(lits, wps);
  }

  lemma QueryRead(start: string, wps: seq<Piece>, tail: string, where: seq<string>)
    requires where == (if wps == [] then [] else Words(RenderPieces(wps))) && (wps != [] ==> where != [])
    requires tail == "" || tail[0] == ' '
    ensures Words(RenderPieces(QueryOf(start, wps, tail)))
        == Words(start) + (if where == [] then [] else ["WHERE"] + where) + Words(tail)
  {
    hide Words, RenderPieces, OneWord;
    var w := RenderPieces(wps);
    var text := if wps == [] then start else start + " WHERE " + w;
    QueryRendered(start, wps, tail);
    SpacedWords(text, tail);
    if wps == [] {
      assert Words(start) + [] == Words(start);
    } else {
      hide RenderPieces;
      WhereWords(start, w);
    }
  }

  lemma WhereWords(start: string, w: string)
    ensures Words(start + " WHERE " + w) == Words(start) + (["WHERE"] + Words(w))
  {
    hide Words, OneWord;
    ClauseWords();
    WordThen("WHERE", w);
    WordsSplit(start, ' ', "WHERE" + " " + w);
    assert start + " WHERE " + w == start + " " + ("WHERE" + " " + w);
    assert Words(start) + [] + (["WHERE"] + Words(w)) == Words(start) + (["WHERE"] + Words(w));
  }

  lemma QueryRendered(start: string, wps: seq<Piece>, tail: string)
    ensures RenderPieces(QueryOf(start, wps, tail))
        == (if wps == [] then start else start + " WHERE " + RenderPieces(wps)) + tail
  {
    hide RenderPieces;
    var front := if wps == [] then [Lit(start)] else [Lit(start), Lit(" WHERE ")] + wps;
    WhereRendered(start, wps);
    if tail == "" {
      assert front + [] == front && RenderPieces(front) + "" == RenderPieces(front);
    } else {
      PiecesConcat(front, [Lit(tail)]);
      PieceUnit(Lit(tail));
    }
  }

  /** End to end: whatever the request, what is built spells the conditions and the order that the
      request stands for, and these are met by exactly the rows that it asks for. */
  method BuildAsked(c: Config, query: Query, ghost e: Engine, ghost row: Row)
    returns (r: BuildResult, ghost where: seq<string>, ghost order: seq<string>)
    ensures r.Built? <==> Buildable(c, query)
    ensures r.Built? ==> FiltersOk(c.filters, query)
    ensures r.Built? && PlainUsed(c.filters, query) ==>
      && Words(r.sql) == QueryWords(c, where, order)
      && Spells(r.params, where, CondsOf(c.filters, query), order, AskedOrder(c, query))
    ensures r.Built? ==>
      (Passes(e, CondsOf(c.filters, query), row) <==> forall f | f in c.filters :: Asked(e, f, query, row))
  {
    hide Words, QueryWords, Spells, CondsOf, AskedOrder, PlainUsed, Passes, Asked, RenderPieces, AliasHoles, Bindable;
    hide Stored, QueryPieces, Blank, FilterOk, KnownNames, Valid, HoleKeys, HoleValues, FilterValues, KeysFit;
    ghost var ps;
    r, ps := Build(c, query);
    where, order := [], [];
    if r.Built? {
      assert FiltersOk(c.filters, query);
      RowsAsked(e, c.filters, query, row);
      if PlainUsed(c.filters, query) {
        BindableAlias(ps);
        where, order := QuerySpells(c, query, ps, r.params);
      }
    }
  }

  lemma BindableAlias(ps: seq<Piece>)
    requires Bindable(ps)
    ensures AliasHoles(ps)
  {
    hide IsAlias, Quiet;
  }

  // ---- How a request's texts are taken apart ----

  /** `op:argument`: the first colon ends the operator, whose case and outer blanks do not matter. */
  lemma OperatorSpelled(op: string, raw: string)
    requires ':' !in op
    ensures OperatorOf(op + ":" + raw)
        == if Lower(TrimSpace(op)) == "" then Operator("eq", op + ":" + raw) else Operator(Lower(TrimSpace(op)), raw)
  {
    hide Lower, TrimSpace, IndexOf;
    var v := op + ":" + raw;
    assert v[|op|] == ':' && forall k | 0 <= k < |op| :: v[k] == op[k] && op[k] in op;
    assert IndexOf(v, ':') == |op|;
    assert v[..|op|] == op && v[|op| + 1..] == raw;
  }

  /** Without a colon the value itself is compared. */
  lemma NoOperator(v: string)
    requires ':' !in v
    ensures OperatorOf(v) == Operator("eq", v)
  {
    hide Lower, TrimSpace, IndexOf;
    assert forall k | 0 <= k < |v| :: v[k] in v;
    assert IndexOf(v, ':') == |v|;
  }

  lemma {:induction false} TrimmedAppend(a: seq<string>, b: seq<string>)
    ensures NonEmptyTrimmed(a + b) == NonEmptyTrimmed(a) + NonEmptyTrimmed(b)
  {
    hide TrimSpace;
    if a == [] {
      assert a + b == b;
    } else {
      assert (a + b)[0] == a[0] && (a + b)[1..] == a[1..] + b;
      TrimmedAppend(a[1..], b);
    }
  }

  /** One item of a comma-separated list: trimmed, and dropped when nothing is left. */
  lemma OneItem(x: string)
    requires ',' !in x
    ensures SplitCSV(x) == if TrimSpace(x) == "" then [] else [TrimSpace(x)]
  {
    hide TrimSpace, IndexOf;
    assert forall k | 0 <= k < |x| :: x[k] in x;
    assert IndexOf(x, ',') == |x|;
    assert Split(x, ',') == [x] && [x][1..] == [];
    assert NonEmptyTrimmed([]) == [];
  }

  /** At a comma the items are those before and those after. */
  lemma ItemsSplit(x: string, rest: string)
    requires ',' !in x
    ensures SplitCSV(x + "," + rest) == SplitCSV(x) + SplitCSV(rest)
  {
    hide TrimSpace, IndexOf;
    var v := x + "," + rest;
    assert v[|x|] == ',' && forall k | 0 <= k < |x| :: v[k] == x[k] && x[k] in x;
    assert IndexOf(v, ',') == |x|;
    assert v[..|x|] == x && v[|x| + 1..] == rest;
    assert forall k | 0 <= k < |x| :: x[k] in x;
    assert IndexOf(x, ',') == |x|;
    assert Split(v, ',') == [x] + Split(rest, ',') && Split(x, ',') == [x];
    hide Split;
    TrimmedAppend([x], Split(rest, ','));
  }
}
