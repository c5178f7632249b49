/** Why filter names matter to the query builder (internal/gateway/querybuilder.go): validation takes
    any non-empty name, so a generated key need not be an identifier, and the binder may read it as
    the key of another filter. */
module FilterNames {
  import opened Options
  import opened Strings
  import opened SqlLexer
  import opened Scanners
  import opened SqlPieces
  import opened QueryBuilder

  const FIRST := FilterConfig("0", "a", [])
  const SECOND := FilterConfig("0_0 x", "b", [])
  const TWO_FILTERS := Config("t", ["a"], [], [], [FIRST, SECOND], [], "")

  const KEY := "ddag_filter_0_0"

  function Asking(u: string, w: string): Query { map["0" := [u], "0_0 x" := [w]] }

  /** A value that names no operator. */
  predicate Bare(v: string) { v != "" && ':' !in v }

  lemma BareIsEq(v: string)
    requires Bare(v)
    ensures OperatorOf(v) == Operator("eq", v) && ClauseOk(OperatorOf(v)) && ClauseValues(OperatorOf(v)) == [v]
  {
    assert forall k | 0 <= k < |v| :: v[k] in v && v[k] != ':';
    assert IndexOf(v, ':') == |v|;
  }

  lemma AskedFor(u: string, w: string)
    requires Bare(u) && Bare(w)
    ensures FirstValue(Asking(u, w), "0") == Some(u) && FirstValue(Asking(u, w), "0_0 x") == Some(w)
  {
    assert "0" != "0_0 x" by { assert |"0"| != |"0_0 x"|; }
  }

  lemma Configured()
    ensures Valid(TWO_FILTERS)
  {
    assert IsAlias("t") && IsAlias("a") && IsAlias("b");
    assert |"0"| == 1 && |"0_0 x"| == 5;
  }

  lemma Known(u: string, w: string)
    ensures KnownNames(TWO_FILTERS, Asking(u, w))
  {
    assert FIRST in TWO_FILTERS.filters && SECOND in TWO_FILTERS.filters by {
      assert TWO_FILTERS.filters[0] == FIRST && TWO_FILTERS.filters[1] == SECOND;
    }
    assert FIRST.name == "0" && SECOND.name == "0_0 x";
  }

  lemma Asked(u: string, w: string)
    requires Bare(u) && Bare(w)
    ensures FilterOk(FIRST, Asking(u, w)) && FilterOk(SECOND, Asking(u, w))
    ensures FilterValuesOf(FIRST, Asking(u, w)) == [u] && FilterValuesOf(SECOND, Asking(u, w)) == [w]
  {
    hide FirstValue, OperatorOf, ClauseOk, ClauseValues;
    AskedFor(u, w);
    BareIsEq(u);
    BareIsEq(w);
  }

  lemma Unsorted(u: string, w: string)
    ensures SortParam(Asking(u, w)) == "" && SortTokens(TWO_FILTERS, "") == []
    ensures SortTerms(SortColumns([]), []) == [] && Join([], ", ") == "" && TailText([], "") == ""
  {
    assert |"sort"| == 4 && |"0"| == 1 && |"0_0 x"| == 5;
  }

  lemma CanBuild(u: string, w: string)
    requires Bare(u) && Bare(w)
    ensures Buildable(TWO_FILTERS, Asking(u, w)) && OrderText(TWO_FILTERS, Asking(u, w)) == ""
  {
    hide Valid, KnownNames, FilterOk, SortTokens, SortParam, SortColumns, Asking, SortName, Join;
    Configured();
    Known(u, w);
    Asked(u, w);
    Unsorted(u, w);
  }

  lemma TwoFront<T>(x: T, y: T)
    ensures [x, y][..1] == [x] && [x][..0] == [] && [x, y] == [x] + [y] && [x] == [] + [x]
  {
  }

  lemma Values(u: string, w: string)
    requires Bare(u) && Bare(w)
    ensures FilterValues([FIRST, SECOND], Asking(u, w)) == [u, w]
  {
    hide FilterValuesOf, Asking, Bare, PlainUsed, SafeColumns;
    TwoFront(FIRST, SECOND);
    Asked(u, w);
    assert FilterValues([], Asking(u, w)) == [];
    FilterSnoc([], FIRST, Asking(u, w));
    FilterSnoc([FIRST], SECOND, Asking(u, w));
  }

  lemma Says(u: string, w: string)
    requires Bare(u) && Bare(w)
    ensures FiltersOk([FIRST, SECOND], Asking(u, w))
    ensures WherePieces([FIRST, SECOND], Asking(u, w))
        == [Lit("a = "), Hole("", u), Lit(" AND "), Lit("b = "), Hole("", w)]
  {
    hide FirstValue, OperatorOf, Asking, FilterOk, ClauseOk, Bare, ClausePieces, AndThen, FiltersOk;
    var q := Asking(u, w);
    TwoFront(FIRST, SECOND);
    Asked(u, w);
    AskedFor(u, w);
    BareIsEq(u);
    BareIsEq(w);
    ClauseIs(FIRST, u);
    ClauseIs(SECOND, w);
    NoFilters(q);
    hide WherePieces;
    WhereSnoc([], FIRST, q);
    WhereSnoc([FIRST], SECOND, q);
    Joined("a = ", u, "b = ", w);
  }

  lemma NoFilters(q: Query)
    ensures FiltersOk([], q) && WherePieces([], q) == []
  {
  }

  lemma Joined(a: string, u: string, b: string, w: string)
    ensures AndThen([], [Lit(a), Hole("", u)]) == [Lit(a), Hole("", u)]
    ensures AndThen([Lit(a), Hole("", u)], [Lit(b), Hole("", w)])
        == [Lit(a), Hole("", u), Lit(" AND "), Lit(b), Hole("", w)]
  {
  }

  lemma ClauseIs(f: FilterConfig, v: string)
    ensures ClauseOk(Operator("eq", v))
    ensures ClausePieces(f, Operator("eq", v)) == [Lit(f.column + " = "), Hole("", v)]
    ensures FIRST.column + " = " == "a = " && SECOND.column + " = " == "b = "
  {
  }

  lemma NamedKeys(u: string, w: string)
    requires Bare(u) && Bare(w)
    ensures WhereKeys([FIRST, SECOND], Asking(u, w)) == [KEY, KEY + " x_0"]
  {
    hide FilterValuesOf, Asking, Bare, NewKeys;
    var q := Asking(u, w);
    TwoFront(FIRST, SECOND);
    Asked(u, w);
    FirstKey();
    SecondKey();
    KeysSnoc([], FIRST, q);
    KeysSnoc([FIRST], SECOND, q);
    assert WhereKeys([], q) == [] && [] + [KEY] == [KEY] && [KEY] + [KEY + " x_0"] == [KEY, KEY + " x_0"];
  }

  lemma FirstKey()
    ensures NewKeys(Base(FIRST), 1, Elements([])) == [KEY]
  {
    assert Sanitize("0") == "0" && Itoa(0) == "0";
    assert Base(FIRST) == "ddag_filter_0" && Key("ddag_filter_0", 0) == KEY;
    OneNewKey(Base(FIRST), Elements([]));
  }

  lemma SecondKey()
    ensures NewKeys(Base(SECOND), 1, Elements([KEY])) == [KEY + " x_0"]
  {
    assert Sanitize("0_0 x") == "0_0 x" && Itoa(0) == "0";
    assert Base(SECOND) == "ddag_filter_0_0 x" && Key("ddag_filter_0_0 x", 0) == KEY + " x_0";
    OneNewKey(Base(SECOND), Elements([KEY]));
  }

  lemma OneNewKey(base: string, taken: set<string>)
    requires forall k | k in taken :: !HasPrefix(k, base + "_")
    ensures NewKeys(base, 1, taken) == [Key(base, 0)]
  {
    assert NewKeys(base, 0, taken) == [] && taken + Elements([]) == taken;
    var none := set k | k in taken && HasPrefix(k, base + "_");
    assert none == {};
  }

  /** What the builder writes: the second key is not an identifier. */
  function Written(u: string, w: string): seq<Piece> { Opening(u) + [Hole(KEY + " x_0", w)] }

  /** What the binder reads: the first key once more, and then some text. */
  function ReadAs(u: string): seq<Piece> { Opening(u) + [Hole(KEY, u), Lit(" x_0")] }

  function Opening(u: string): seq<Piece> {
    [Lit("SELECT a FROM t"), Lit(" WHERE "), Lit("a = "), Hole(KEY, u), Lit(" AND "), Lit("b = ")]
  }

  lemma QuerySays(u: string, w: string)
    requires Bare(u) && Bare(w) && Buildable(TWO_FILTERS, Asking(u, w))
    ensures QueryPieces(TWO_FILTERS, Asking(u, w)) == Blank(Written(u, w))
  {
    hide Buildable, Asking, Bare, WherePieces, OrderText, HeadText, JoinsText, TailText;
    CanBuild(u, w);
    Says(u, w);
    Unsorted(u, w);
    Start();
  }

  lemma Start()
    ensures HeadText(TWO_FILTERS) + JoinsText([]) == "SELECT a FROM t"
  {
    assert Join(["a"], ", ") == "a";
  }

  /** Pieces are settled by what they say and by their keys. */
  lemma {:induction false} PiecesSettled(a: seq<Piece>, b: seq<Piece>)
    requires Blank(a) == Blank(b) && HoleKeys(a) == HoleKeys(b)
    ensures a == b
  {
    hide Blank, HoleKeys;
    assert |a| == |Blank(a)| == |Blank(b)| == |b|;
    if a != [] {
      HeadBlank(a);
      HeadBlank(b);
      HeadKeys(a, b);
      PiecesSettled(a[1..], b[1..]);
      assert a == [a[0]] + a[1..] && b == [b[0]] + b[1..];
    }
  }

  lemma HeadBlank(a: seq<Piece>)
    requires a != []
    ensures Blank(a)[0] == (if a[0].Hole? then Hole("", a[0].value) else a[0]) && Blank(a)[1..] == Blank(a[1..])
  {
  }

  lemma HeadKeys(a: seq<Piece>, b: seq<Piece>)
    requires a != [] && b != [] && HoleKeys(a) == HoleKeys(b) && (a[0].Hole? <==> b[0].Hole?)
    ensures HoleKeys(a[1..]) == HoleKeys(b[1..]) && (a[0].Hole? ==> a[0].key == b[0].key)
  {
    if a[0].Hole? {
      assert HoleKeys(a)[0] == a[0].key && HoleKeys(a)[1..] == HoleKeys(a[1..]);
      assert HoleKeys(b)[0] == b[0].key && HoleKeys(b)[1..] == HoleKeys(b[1..]);
    }
  }

  lemma OpeningKeys(u: string)
    ensures HoleKeys(Opening(u)) == [KEY] && HoleValues(Opening(u)) == [u]
  {
    var a, b := [Lit("SELECT a FROM t"), Lit(" WHERE "), Lit("a = ")], [Hole(KEY, u), Lit(" AND "), Lit("b = ")];
    assert Opening(u) == a + b;
    KeysConcat(a, b);
    PiecesConcat(a, b);
    ThreeLits("SELECT a FROM t", " WHERE ", "a = ");
    HoleThenLits(KEY, u, " AND ", "b = ");
  }

  lemma ThreeLits(s: string, t: string, v: string)
    ensures var ps := [Lit(s), Lit(t), Lit(v)]; HoleKeys(ps) == [] && HoleValues(ps) == []
  {
    var ps: seq<Piece> := [Lit(s), Lit(t), Lit(v)];
    assert ps[1..] == [Lit(t), Lit(v)] && ps[1..][1..] == [Lit(v)];
    PieceUnit(Lit(v));
  }

  lemma HoleThenLits(k: string, u: string, s: string, t: string)
    ensures var ps := [Hole(k, u), Lit(s), Lit(t)]; HoleKeys(ps) == [k] && HoleValues(ps) == [u]
  {
    var ps: seq<Piece> := [Hole(k, u), Lit(s), Lit(t)];
    assert ps[1..] == [Lit(s), Lit(t)] && ps[1..][1..] == [Lit(t)];
    PieceUnit(Lit(t));
  }

  lemma WrittenKeys(u: string, w: string)
    ensures HoleKeys(Written(u, w)) == [KEY, KEY + " x_0"]
    ensures HoleValues(ReadAs(u)) == [u, u]
    ensures RenderPieces(Written(u, w)) == RenderPieces(ReadAs(u))
  {
    hide HoleKeys, HoleValues, RenderPieces, Opening;
    OpeningKeys(u);
    var end, again := [Hole(KEY + " x_0", w)], [Hole(KEY, u), Lit(" x_0")];
    PieceUnit(end[0]);
    PieceUnit(again[0]);
    PieceUnit(again[1]);
    KeysConcat(Opening(u), end);
    PiecesConcat(Opening(u), end);
    PiecesConcat(Opening(u), again);
    assert again == [again[0]] + [again[1]];
    PiecesConcat([again[0]], [again[1]]);
    assert ":" + (KEY + " x_0") == ":" + KEY + " x_0";
  }

  lemma ReadAsBinds(u: string, params: map<string, string>)
    requires KEY in params && params[KEY] == u
    ensures Bindable(ReadAs(u)) && Stored(ReadAs(u), params)
  {
    hide Quiet, IsAlias;
    KeyNames();
    LitsQuiet();
    var ps := ReadAs(u);
    assert ps == [Lit("SELECT a FROM t"), Lit(" WHERE "), Lit("a = "), Hole(KEY, u), Lit(" AND "), Lit("b = "),
                  Hole(KEY, u), Lit(" x_0")];
  }

  lemma KeyNames()
    ensures IsAlias(KEY)
  {
  }

  lemma LitsQuiet()
    ensures Quiet("SELECT a FROM t") && Quiet(" WHERE ") && Quiet("a = ") && Quiet(" AND ") && Quiet("b = ")
    ensures Quiet(" x_0")
  {
  }

  /** With filters `0` and `0_0 x`, a request that gives `0` the value u and `0_0 x` the value w is
      built, with its own key for each value; yet in every dialect the value of `0` is bound twice
      and that of `0_0 x` never. */
  method BoundTwice(u: string, w: string, declared: map<string, string>, ph: nat -> string, d: Dialect)
    returns (r: BuildResult, o: BindOutcome<string>)
    requires Bare(u) && Bare(w)
    ensures r.Built? && r.params.Keys == {KEY, KEY + " x_0"} && r.params[KEY] == u && r.params[KEY + " x_0"] == w
    ensures FilterValues(TWO_FILTERS.filters, Asking(u, w)) == [u, w]
    ensures o.BoundQuery? && o.args == [u, u]
  {
    hide Bindable, AliasHoles, RenderPieces, HoleValues, HoleKeys, FilterValues, Lex, BindMeaning, Buildable, PlainUsed,
        NoOpaque, WhereKeys, QueryPieces, Blank, Filled, Asking, Bare, Opening, ParamNames;
    ghost var ps;
    r, o, ps := BuildAndBind(TWO_FILTERS, Asking(u, w), declared, ph, d);
    CanBuild(u, w);
    Values(u, w);
    NamedKeys(u, w);
    QuerySays(u, w);
    WrittenKeys(u, w);
    PiecesSettled(ps, Written(u, w));
    StoredBoth(u, w, r.params);
    ReadAsBinds(u, declared + r.params);
    PiecesBind(d, ReadAs(u), declared + r.params, ph);
  }

  lemma StoredBoth(u: string, w: string, params: map<string, string>)
    requires Stored(Written(u, w), params)
    ensures KEY in params && params[KEY] == u && KEY + " x_0" in params && params[KEY + " x_0"] == w
  {
    var ps := Written(u, w);
    assert ps[3] == Hole(KEY, u) && ps[6] == Hole(KEY + " x_0", w);
  }
}
