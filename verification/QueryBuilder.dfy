/** The dynamic query builder (internal/gateway/querybuilder.go): SQL text assembled from a
    whitelisted configuration, with every client value carried by a generated parameter. */
module QueryBuilder {
  import opened Options
  import opened Strings
  import opened SqlLexer
  import opened Scanners
  import opened SqlPieces

  // ---- Generated parameter keys ----

  function Key(base: string, n: nat): string { base + "_" + Itoa(n) }

  function CountPrefix(keys: set<string>, p: string): nat { |set k | k in keys && HasPrefix(k, p)| }

  /** The base and the number can be read back from a key: the digits hold no underscore. */
  lemma KeyInjective(b: string, m: nat, c: string, n: nat)
    requires Key(b, m) == Key(c, n)
    ensures b == c && m == n
  {
    LastUnderscore(b, m);
    LastUnderscore(c, n);
    var k := Key(b, m);
    assert |b| == |c|;
    assert b == k[..|b|] && c == k[..|c|] && Itoa(m) == k[|b| + 1..] && Itoa(n) == k[|c| + 1..];
    ItoaInjective(m, n);
  }

  lemma LastUnderscore(b: string, m: nat)
    ensures var k := Key(b, m); k[|b|] == '_' && forall x | |b| < x < |k| :: k[x] != '_'
  {
    var k := Key(b, m);
    forall x | |b| < x < |k| ensures k[x] != '_' {
      assert k[x] == Itoa(m)[x - |b| - 1];
    }
  }

  /** Every key was generated when fewer keys carried its base. */
  ghost predicate Generated(keys: set<string>)
  {
    forall k | k in keys :: exists b: string, m: nat :: k == Key(b, m) && m < CountPrefix(keys, b + "_")
  }

  lemma CountGrows(keys: set<string>, k: string, p: string)
    ensures CountPrefix(keys, p) <= CountPrefix(keys + {k}, p)
    ensures k !in keys && HasPrefix(k, p) ==> CountPrefix(keys + {k}, p) == CountPrefix(keys, p) + 1
  {
    var a, b := set x | x in keys && HasPrefix(x, p), set x | x in keys + {k} && HasPrefix(x, p);
    if HasPrefix(k, p) && k !in keys { assert b == a + {k}; } else { assert b == a; }
  }

  /** The next key of any base is fresh, whatever bases the other keys came from. */
  lemma FreshKey(keys: set<string>, base: string)
    requires Generated(keys)
    ensures var k := Key(base, CountPrefix(keys, base + "_")); k !in keys && Generated(keys + {k})
  {
    var n := CountPrefix(keys, base + "_");
    var k := Key(base, n);
    if k in keys {
      var b: string, m: nat :| k == Key(b, m) && m < CountPrefix(keys, b + "_");
      KeyInjective(b, m, base, n);
      assert false;
    }
    CountGrows(keys, k, base + "_");
    assert HasPrefix(k, base + "_");
    forall x | x in keys + {k} ensures exists b: string, m: nat
        :: x == Key(b, m) && m < CountPrefix(keys + {k}, b + "_") {
      if x in keys {
        var b: string, m: nat :| x == Key(b, m) && m < CountPrefix(keys, b + "_");
        CountGrows(keys, k, b + "_");
      } else {
        assert x == Key(base, n) && n < CountPrefix(keys + {k}, base + "_");
      }
    }
  }

  function Elements(keys: seq<string>): set<string> { set k | k in keys }

  /** The next n keys of a base, when these keys are taken. */
  function NewKeys(base: string, n: nat, taken: set<string>): (keys: seq<string>)
    ensures |keys| == n
  {
    if n == 0 then []
    else
      var front := NewKeys(base, n - 1, taken);
      front + [Key(base, CountPrefix(taken + Elements(front), base + "_"))]
  }

  lemma ElementsConcat(a: seq<string>, b: seq<string>)
    ensures Elements(a + b) == Elements(a) + Elements(b)
  {
  }

  /** The holes carry the next n keys of a base, and these are all that is added to the map. */
  ghost predicate Keyed(base: string, n: nat, ps: seq<Piece>, params0: map<string, string>, params: map<string, string>)
  {
    HoleKeys(ps) == NewKeys(base, n, params0.Keys) && params.Keys == params0.Keys + Elements(HoleKeys(ps))
  }

  lemma KeyedNone(base: string, ps: seq<Piece>, params: map<string, string>)
    requires HoleKeys(ps) == []
    ensures Keyed(base, 0, ps, params, params)
  {
  }

  lemma KeyedNext(base: string, n: nat, ps: seq<Piece>, more: seq<Piece>, v: string, params0: map<string, string>,
                  params1: map<string, string>, params: map<string, string>)
    requires var key := Key(base, CountPrefix(params1.Keys, base + "_"));
      HoleKeys(more) == [key] && params == params1[key := v]
    requires Keyed(base, n, ps, params0, params1)
    ensures Keyed(base, n + 1, ps + more, params0, params)
  {
    hide HoleKeys, Key, CountPrefix;
    KeysConcat(ps, more);
    ElementsConcat(HoleKeys(ps), HoleKeys(more));
  }

  lemma KeyedOne(base: string, ps: seq<Piece>, v: string, params0: map<string, string>, params: map<string, string>)
    requires var key := Key(base, CountPrefix(params0.Keys, base + "_"));
      HoleKeys(ps) == [key] && params == params0[key := v]
    ensures Keyed(base, 1, ps, params0, params)
  {
    hide Key, CountPrefix;
    KeyedNone(base, [], params0);
    KeyedNext(base, 0, [], ps, v, params0, params0, params);
    assert [] + ps == ps;
  }

  lemma KeyedAround(base: string, n: nat, l: seq<Piece>, ps: seq<Piece>, r: seq<Piece>,
                    params0: map<string, string>, params: map<string, string>)
    requires Keyed(base, n, ps, params0, params) && HoleKeys(l) == HoleKeys(r) == []
    ensures Keyed(base, n, l + ps + r, params0, params)
  {
    hide HoleKeys, NewKeys;
    KeysConcat(l, ps);
    KeysConcat(l + ps, r);
    assert [] + HoleKeys(ps) + [] == HoleKeys(ps);
  }

  // ---- Configuration ----

  datatype JoinConfig = JoinConfig(kind: string, table: string, alias: string, left: string, op: string, right: string)
  datatype FilterConfig = FilterConfig(name: string, column: string, operators: seq<string>)
  datatype SortableColumn = SortableColumn(name: string, column: string)
  datatype Config = Config(baseTable: string, select: seq<string>, joins: seq<JoinConfig>, groupBy: seq<string>,
                           filters: seq<FilterConfig>, sortable: seq<SortableColumn>, defaultSort: string)

  type Query = map<string, seq<string>>

  /** identifierRE */
  predicate SafeIdent(s: string) {
    IsAlias(s) || exists i | 0 < i < |s| :: s[i] == '.' && IsAlias(s[..i]) && IsAlias(s[i + 1..])
  }

  predicate AliasAt(s: string, i: nat) { i + 4 <= |s| && s[i..i + 4] == " AS " && IsAlias(s[i + 4..]) }

  predicate CallOf(fn: string, s: string) {
    && |fn| + 2 <= |s| && s[..|fn| + 1] == fn + "(" && s[|s| - 1] == ')'
    && var inner := s[|fn| + 1..|s| - 1]; inner == "*" || SafeIdent(inner)
  }

  predicate AggCall(s: string) {
    CallOf("COUNT", s) || CallOf("SUM", s) || CallOf("AVG", s) || CallOf("MIN", s) || CallOf("MAX", s)
  }

  /** selectColRE */
  predicate SelectColumn(s: string) {
    SafeIdent(s) || exists i | 0 <= i < |s| :: AliasAt(s, i) && SafeIdent(s[..i])
  }

  /** selectAggRE */
  predicate SelectAggregate(s: string) {
    AggCall(s) || exists i | 0 <= i < |s| :: AliasAt(s, i) && AggCall(s[..i])
  }

  predicate SafeSelect(v: string) { SelectColumn(v) || SelectAggregate(Upper(TrimSpace(v))) }

  predicate SafeJoin(j: JoinConfig) {
    && Lower(j.kind) in {"inner", "left"} && SafeIdent(j.table) && (j.alias == "" || IsAlias(j.alias))
    && SafeIdent(j.left) && SafeIdent(j.right) && j.op == "="
  }

  predicate Valid(c: Config)
  {
    && SafeIdent(c.baseTable)
    && c.select != []
    && (forall v | v in c.select :: SafeSelect(v))
    && (forall g | g in c.groupBy :: SafeIdent(g))
    && (forall j | j in c.joins :: SafeJoin(j))
    && (forall f | f in c.filters :: f.name != "" && SafeIdent(f.column))
    && (forall s | s in c.sortable :: s.name != "" && SafeIdent(s.column))
  }

  method Validate(c: Config) returns (ok: bool)
    ensures ok <==> Valid(c)
  {
    hide SafeIdent, SafeSelect, Lower, IsAlias;
    if !SafeIdent(c.baseTable) || |c.select| == 0 { return false; }
    for i := 0 to |c.select|
      invariant forall k | 0 <= k < i :: SafeSelect(c.select[k])
    {
      if !SafeSelect(c.select[i]) { return false; }
    }
    for i := 0 to |c.groupBy|
      invariant forall k | 0 <= k < i :: SafeIdent(c.groupBy[k])
    {
      if !SafeIdent(c.groupBy[i]) { return false; }
    }
    for i := 0 to |c.joins|
      invariant forall k | 0 <= k < i :: SafeJoin(c.joins[k])
    {
      var j := c.joins[i];
      assert j in c.joins;
      var kind := Lower(j.kind);
      if kind != "inner" && kind != "left" { return false; }
      if !SafeIdent(j.table) || (j.alias != "" && !IsAlias(j.alias)) { return false; }
      if !SafeIdent(j.left) || !SafeIdent(j.right) || j.op != "=" { return false; }
    }
    for i := 0 to |c.filters|
      invariant forall k | 0 <= k < i :: c.filters[k].name != "" && SafeIdent(c.filters[k].column)
    {
      if c.filters[i].name == "" || !SafeIdent(c.filters[i].column) { return false; }
    }
    for i := 0 to |c.sortable|
      invariant forall k | 0 <= k < i :: c.sortable[k].name != "" && SafeIdent(c.sortable[k].column)
    {
      if c.sortable[i].name == "" || !SafeIdent(c.sortable[i].column) { return false; }
    }
    return true;
  }

  // ---- Whitelisted text is quiet ----

  lemma DotQuiet() ensures Quiet(".") {}

  lemma IdentQuiet(s: string)
    requires SafeIdent(s)
    ensures Quiet(s)
  {
    hide IsAlias, Quiet;
    if IsAlias(s) {
      AliasQuiet(s);
    } else {
      var i :| 0 < i < |s| && s[i] == '.' && IsAlias(s[..i]) && IsAlias(s[i + 1..]);
      AliasQuiet(s[..i]);
      AliasQuiet(s[i + 1..]);
      DotQuiet();
      assert s == s[..i] + "." + s[i + 1..];
      QuietConcat(s[..i], ".");
      QuietConcat(s[..i] + ".", s[i + 1..]);
    }
  }

  lemma CallQuiet(fn: string, s: string)
    requires CallOf(fn, s) && Quiet(fn)
    ensures Quiet(s)
  {
    var inner := s[|fn| + 1..|s| - 1];
    if inner != "*" { IdentQuiet(inner); }
    hide SafeIdent;
    assert s == fn + "(" + inner + ")";
    QuietConcat(fn, "(");
    QuietConcat(fn + "(", inner);
    QuietConcat(fn + "(" + inner, ")");
  }

  lemma AggQuiet(s: string)
    requires AggCall(s)
    ensures Quiet(s)
  {
    hide CallOf;
    if CallOf("COUNT", s) { CallQuiet("COUNT", s); }
    else if CallOf("SUM", s) { CallQuiet("SUM", s); }
    else if CallOf("AVG", s) { CallQuiet("AVG", s); }
    else if CallOf("MIN", s) { CallQuiet("MIN", s); }
    else { CallQuiet("MAX", s); }
  }

  lemma AliasedQuiet(s: string, i: nat)
    requires AliasAt(s, i) && Quiet(s[..i])
    ensures Quiet(s)
  {
    AliasQuiet(s[i + 4..]);
    hide IsAlias;
    assert s == s[..i] + " AS " + s[i + 4..];
    QuietConcat(s[..i], " AS ");
    QuietConcat(s[..i] + " AS ", s[i + 4..]);
  }

  lemma UpperQuiet(s: string)
    requires Quiet(Upper(s))
    ensures Quiet(s)
  {
    forall c | c in s ensures QuietChar(c) {
      var i :| 0 <= i < |s| && s[i] == c;
      assert Upper(s)[i] in Upper(s);
    }
  }

  /** Although the aggregate form is matched on the upper-cased, trimmed text, the text
      itself, which is what goes into the SQL, holds no quote or comment character. */
  lemma SelectQuiet(v: string)
    requires SafeSelect(v)
    ensures Quiet(v)
  {
    hide SafeIdent, AggCall, AliasAt, Quiet, TrimSpace, Upper;
    if SelectColumn(v) {
      if SafeIdent(v) {
        IdentQuiet(v);
      } else {
        var i :| 0 <= i < |v| && AliasAt(v, i) && SafeIdent(v[..i]);
        IdentQuiet(v[..i]);
        AliasedQuiet(v, i);
      }
    } else {
      var u := Upper(TrimSpace(v));
      if AggCall(u) {
        AggQuiet(u);
      } else {
        var i :| 0 <= i < |u| && AliasAt(u, i) && AggCall(u[..i]);
        AggQuiet(u[..i]);
        AliasedQuiet(u, i);
      }
      UpperQuiet(TrimSpace(v));
      UntrimmedQuiet(v);
    }
  }

  lemma UntrimmedQuiet(v: string)
    requires Quiet(TrimSpace(v))
    ensures Quiet(v)
  {
    var pre, post := TrimSplits(v);
    QuietConcat(pre, TrimSpace(v));
    QuietConcat(pre + TrimSpace(v), post);
  }

  // ---- One filter ----

  datatype Operator = Operator(op: string, raw: string)

  /** splitOperator, with the default operator filled in as `where` does. */
  function OperatorOf(v: string): Operator
  {
    var i := IndexOf(v, ':');
    if i == |v| then Operator("eq", v)
    else
      var op := Lower(TrimSpace(v[..i]));
      if op == "" then Operator("eq", v) else Operator(op, v[i + 1..])
  }

  function NonEmptyTrimmed(parts: seq<string>): seq<string> {
    if parts == [] then []
    else (if TrimSpace(parts[0]) == "" then [] else [TrimSpace(parts[0])]) + NonEmptyTrimmed(parts[1..])
  }

  function SplitCSV(v: string): seq<string> { NonEmptyTrimmed(Split(v, ',')) }

  predicate OperatorAllowed(f: FilterConfig, op: string) {
    op in f.operators || (f.operators == [] && op == "eq")
  }

  /** operatorAllowed: among those the filter lists, or `eq` when it lists none. */
  method IsAllowed(f: FilterConfig, op: string) returns (ok: bool)
    ensures ok <==> OperatorAllowed(f, op)
  {
    for i := 0 to |f.operators|
      invariant forall k | 0 <= k < i :: f.operators[k] != op
    {
      if f.operators[i] == op { return true; }
    }
    return |f.operators| == 0 && op == "eq";
  }

  const COMPARISONS: map<string, string> :=
    map["eq" := " = ", "neq" := " <> ", "gt" := " > ", "gte" := " >= ", "lt" := " < ", "lte" := " <= "]

  /** The values one clause binds. */
  function ClauseValues(o: Operator): seq<string>
  {
    match o.op
    case "like" => ["%" + o.raw + "%"]
    case "between" => SplitCSV(o.raw)
    case "in" => SplitCSV(o.raw)
    case "isnull" => []
    case _ => [o.raw]
  }

  predicate ClauseOk(o: Operator)
  {
    match o.op
    case "like" => true
    case "between" => |SplitCSV(o.raw)| == 2
    case "in" => |SplitCSV(o.raw)| > 0
    case "isnull" => true
    case op => op in COMPARISONS
  }

  /** Filter names whose generated keys are identifiers. */
  predicate PlainName(name: string) { forall c | c in name :: IsIdentPart(c) || c == '.' || c == '-' }

  function Sanitize(v: string): string {
    seq(|v|, i requires 0 <= i < |v| => if v[i] == '.' || v[i] == '-' then '_' else v[i])
  }

  function Base(f: FilterConfig): string { "ddag_filter_" + Sanitize(f.name) }

  lemma KeyIsAlias(f: FilterConfig, n: nat)
    requires PlainName(f.name)
    ensures IsAlias(Key(Base(f), n))
  {
    var k := Key(Base(f), n);
    forall c | c in k ensures IsIdentPart(c) {
      var i :| 0 <= i < |k| && k[i] == c;
      var z := Sanitize(f.name);
      if i < 12 { assert c == "ddag_filter_"[i]; }
      else if i < 12 + |z| { assert c == z[i - 12] && f.name[i - 12] in f.name; }
      else if i > 12 + |z| { assert c == Itoa(n)[i - 13 - |z|]; }
    }
    assert k[0] == 'd';
  }

  /** A key is an identifier exactly when its filter's name is plain. */
  lemma KeyIsAliasIff(f: FilterConfig, n: nat)
    ensures IsAlias(Key(Base(f), n)) <==> PlainName(f.name)
  {
    if PlainName(f.name) {
      KeyIsAlias(f, n);
    } else {
      var i :| 0 <= i < |f.name| && !(IsIdentPart(f.name[i]) || f.name[i] == '.' || f.name[i] == '-');
      var k := Key(Base(f), n);
      assert Sanitize(f.name)[i] == f.name[i];
      assert k[12 + i] == f.name[i] && k[12 + i] in k;
    }
  }

  /** One value under a fresh key: nothing already stored is overwritten. */
  method Add(f: FilterConfig, v: string, params0: map<string, string>)
    returns (holder: string, params: map<string, string>, ghost hole: Piece)
    requires Generated(params0.Keys)
    ensures hole.Hole? && hole.value == v && holder == ":" + hole.key
    ensures hole.key == Key(Base(f), CountPrefix(params0.Keys, Base(f) + "_"))
    ensures hole.key !in params0 && params == params0[hole.key := v]
    ensures Generated(params.Keys)
    ensures IsAlias(hole.key) <==> PlainName(f.name)
  {
    hide IsAlias, PlainName;
    var base := Base(f);
    var key := Key(base, CountPrefix(params0.Keys, base + "_"));
    FreshKey(params0.Keys, base);
    params := params0[key := v];
    assert params.Keys == params0.Keys + {key};
    KeyIsAliasIff(f, CountPrefix(params0.Keys, base + "_"));
    holder, hole := ":" + key, Hole(key, v);
  }

  /** One hole per value, separated by commas. */
  function HolderPieces(values: seq<string>): seq<Piece> {
    if values == [] then []
    else if |values| == 1 then [Hole("", values[0])]
    else HolderPieces(values[..|values| - 1]) + [Lit(", "), Hole("", values[|values| - 1])]
  }

  predicate SaysNull(raw: string) { Lower(TrimSpace(raw)) == "true" }

  /** What one clause says, whatever its parameters are called. */
  function ClausePieces(f: FilterConfig, o: Operator): seq<Piece>
    requires ClauseOk(o)
  {
    match o.op
    case "like" => [Lit(f.column + " LIKE "), Hole("", "%" + o.raw + "%")]
    case "between" =>
      var parts := SplitCSV(o.raw);
      [Lit(f.column + " BETWEEN "), Hole("", parts[0]), Lit(" AND "), Hole("", parts[1])]
    case "in" => [Lit(f.column + " IN (")] + HolderPieces(SplitCSV(o.raw)) + [Lit(")")]
    case "isnull" => [Lit(f.column + (if SaysNull(o.raw) then " IS NULL" else " IS NOT NULL"))]
    case op => [Lit(f.column + COMPARISONS[op]), Hole("", o.raw)]
  }

  datatype Clause = Clause(sql: string) | ClauseError

  /** A clause whose keys, if it has any, are identifiers. */
  predicate PlainClause(f: FilterConfig, o: Operator) { ClauseValues(o) == [] || PlainName(f.name) }

  /** What every clause guarantees about its text, its holes and the parameter map. */
  ghost predicate ClauseFits(f: FilterConfig, o: Operator, sql: string, ps: seq<Piece>,
                             params0: map<string, string>, params: map<string, string>)
    requires ClauseOk(o)
  {
    && sql == RenderPieces(ps) && HoleValues(ps) == ClauseValues(o) && Blank(ps) == ClausePieces(f, o)
    && Extends(params0, params) && Stored(ps, params) && Generated(params.Keys)
    && (PlainClause(f, o) && SafeIdent(f.column) ==> Bindable(ps)) && (AliasHoles(ps) ==> PlainClause(f, o))
    && ps != [] && ps[0].Lit? && Keyed(Base(f), |ClauseValues(o)|, ps, params0, params)
  }

  lemma OneHole(lit: string, hole: Piece)
    requires hole.Hole?
    ensures var ps := [Lit(lit), hole];
      RenderPieces(ps) == lit + (":" + hole.key) && HoleValues(ps) == [hole.value] && HoleKeys(ps) == [hole.key]
      && (Quiet(lit) && IsAlias(hole.key) ==> Bindable(ps)) && (AliasHoles(ps) <==> IsAlias(hole.key))
  {
    hide RenderPieces, HoleValues, HoleKeys, Quiet, IsAlias;
    assert [Lit(lit), hole][1] == hole;
    PieceUnit(Lit(lit));
    PieceUnit(hole);
    KeysConcat([Lit(lit)], [hole]);
    PiecesConcat([Lit(lit)], [hole]);
    assert [Lit(lit)] + [hole] == [Lit(lit), hole];
  }

  method CompareClause(f: FilterConfig, o: Operator, text: string, v: string, params0: map<string, string>)
    returns (sql: string, params: map<string, string>, ghost ps: seq<Piece>)
    requires Generated(params0.Keys) && Quiet(text) && ClauseOk(o) && ClauseValues(o) == [v]
    requires ClausePieces(f, o) == [Lit(f.column + text), Hole("", v)]
    ensures ClauseFits(f, o, sql, ps, params0, params)
  {
    hide Quiet, SafeIdent, IsAlias, Generated, PlainName, ClauseValues, ClausePieces, ClauseOk, Bindable, AliasHoles,
        Keyed, Key, CountPrefix, Base, HoleKeys, HoleValues, RenderPieces;
    ghost var hole: Piece;
    var holder;
    holder, params, hole := Add(f, v, params0);
    sql := f.column + text + holder;
    OneHole(f.column + text, hole);
    ps := [Lit(f.column + text), hole];
    KeyedOne(Base(f), ps, v, params0, params);
    if SafeIdent(f.column) { IdentQuiet(f.column); QuietConcat(f.column, text); }
  }

  /** `col BETWEEN :a AND :b` */
  method BetweenClause(f: FilterConfig, o: Operator, params0: map<string, string>)
    returns (sql: string, params: map<string, string>, ghost ps: seq<Piece>)
    requires Generated(params0.Keys) && o.op == "between" && ClauseOk(o)
    ensures ClauseFits(f, o, sql, ps, params0, params)
  {
    hide Quiet, SafeIdent, IsAlias, Generated, PlainName, SplitCSV, Bindable, AliasHoles, RenderPieces, HoleValues,
        Keyed, Key, CountPrefix, Base, HoleKeys;
    var parts := SplitCSV(o.raw);
    ghost var h1: Piece, h2: Piece;
    var a, b, mid;
    a, mid, h1 := Add(f, parts[0], params0);
    b, params, h2 := Add(f, parts[1], mid);
    sql := f.column + " BETWEEN " + a + " AND " + b;
    ghost var left, right := [Lit(f.column + " BETWEEN "), h1], [Lit(" AND "), h2];
    OneHole(f.column + " BETWEEN ", h1);
    OneHole(" AND ", h2);
    PiecesConcat(left, right);
    AliasConcat(left, right);
    ps := left + right;
    KeyedOne(Base(f), left, parts[0], params0, mid);
    KeyedNext(Base(f), 1, left, right, parts[1], params0, mid, params);
    assert parts == [parts[0]] + [parts[1]];
    if SafeIdent(f.column) && PlainName(f.name) {
      IdentQuiet(f.column);
      assert Quiet(" BETWEEN ") && Quiet(" AND ") by { KeywordsQuiet(); }
      QuietConcat(f.column, " BETWEEN ");
      BindableConcat(left, right);
    }
  }

  lemma KeywordsQuiet()
    ensures Quiet(" BETWEEN ") && Quiet(" AND ") && Quiet(" IN (") && Quiet(", ") && Quiet(")")
    ensures Quiet(" IS NULL") && Quiet(" IS NOT NULL") && Quiet(" LIKE ")
  {
  }

  /** One hole per value, separated by commas. */
  ghost predicate HoldersFit(f: FilterConfig, values: seq<string>, holders: seq<string>, hs: seq<Piece>,
                             params0: map<string, string>, params: map<string, string>)
  {
    && holders != [] && values != [] && Join(holders, ", ") == RenderPieces(hs) && HoleValues(hs) == values
        && Blank(hs) == HolderPieces(values)
    && Extends(params0, params) && Stored(hs, params) && Generated(params.Keys)
    && (PlainName(f.name) ==> Bindable(hs)) && (AliasHoles(hs) ==> PlainName(f.name))
    && Keyed(Base(f), |values|, hs, params0, params)
  }

  lemma HoldersStart(f: FilterConfig, holder: string, h: Piece,
                     params0: map<string, string>, params: map<string, string>)
    requires h.Hole? && holder == ":" + h.key && h.key !in params0 && params == params0[h.key := h.value]
    requires h.key == Key(Base(f), CountPrefix(params0.Keys, Base(f) + "_"))
    requires Generated(params.Keys) && (IsAlias(h.key) <==> PlainName(f.name))
    ensures HoldersFit(f, [h.value], [holder], [h], params0, params)
  {
    hide IsAlias, Generated, PlainName, RenderPieces, HoleValues, Bindable, Keyed, Key, CountPrefix, Base, HoleKeys;
    PieceUnit(h);
    KeyedOne(Base(f), [h], h.value, params0, params);
    assert [h][0] == h;
    if IsAlias(h.key) { HoleBindable(h); }
  }

  lemma HoldersAdd(f: FilterConfig, values: seq<string>, holders: seq<string>, hs: seq<Piece>, holder: string, h: Piece,
                   params0: map<string, string>, params1: map<string, string>, params: map<string, string>)
    requires HoldersFit(f, values, holders, hs, params0, params1)
    requires h.Hole? && holder == ":" + h.key && h.key !in params1 && params == params1[h.key := h.value]
    requires h.key == Key(Base(f), CountPrefix(params1.Keys, Base(f) + "_"))
    requires Generated(params.Keys) && (IsAlias(h.key) <==> PlainName(f.name))
    ensures HoldersFit(f, values + [h.value], holders + [holder], hs + [Lit(", "), h], params0, params)
  {
    StoreFresh(hs, h, params0, params1, params);
    AliasConcat(hs, [Lit(", "), h]);
    hide IsAlias, Generated, PlainName, RenderPieces, HoleValues, Join, Bindable, AliasHoles, Quiet, Stored, Extends,
        Keyed, Key, CountPrefix, Base, HoleKeys;
    JoinSnoc(holders, holder, ", ");
    OneHole(", ", h);
    KeyedNext(Base(f), |values|, hs, [Lit(", "), h], h.value, params0, params1, params);
    PiecesConcat(hs, [Lit(", "), h]);
    BlankHolders(values, hs, h);
    Assoc(Join(holders, ", "), ", ", holder);
    if PlainName(f.name) {
      KeywordsQuiet();
      BindableConcat(hs, [Lit(", "), h]);
    }
  }

  lemma BlankHolders(values: seq<string>, hs: seq<Piece>, h: Piece)
    requires h.Hole? && Blank(hs) == HolderPieces(values) && values != []
    ensures Blank(hs + [Lit(", "), h]) == HolderPieces(values + [h.value])
  {
    BlankConcat(hs, [Lit(", "), h]);
    assert Blank([Lit(", "), h]) == [Lit(", "), Hole("", h.value)];
    var more := values + [h.value];
    assert more[..|values|] == values && more[|values|] == h.value;
  }

  lemma Assoc(a: string, b: string, c: string) ensures a + b + c == a + (b + c) {}

  lemma StoreFresh(hs: seq<Piece>, h: Piece, params0: map<string, string>, params1: map<string, string>,
      params: map<string, string>)
    requires Extends(params0, params1) && Stored(hs, params1)
    requires h.Hole? && h.key !in params1 && params == params1[h.key := h.value]
    ensures Extends(params0, params) && Stored(hs + [Lit(", "), h], params)
  {
  }

  method InHolders(f: FilterConfig, parts: seq<string>, params0: map<string, string>)
    returns (holders: seq<string>, params: map<string, string>, ghost hs: seq<Piece>)
    requires Generated(params0.Keys) && parts != []
    ensures HoldersFit(f, parts, holders, hs, params0, params)
  {
    hide IsAlias, Generated, PlainName, HoldersFit, Key, CountPrefix, Base;
    ghost var h: Piece;
    var holder;
    holder, params, h := Add(f, parts[0], params0);
    holders, hs := [holder], [h];
    HoldersStart(f, holder, h, params0, params);
    assert parts[..1] == [parts[0]];
    for k := 1 to |parts|
      invariant HoldersFit(f, parts[..k], holders, hs, params0, params) && Generated(params.Keys)
    {
      var params1 := params;
      holder, params, h := Add(f, parts[k], params1);
      HoldersAdd(f, parts[..k], holders, hs, holder, h, params0, params1, params);
      assert parts[..k + 1] == parts[..k] + [parts[k]];
      holders := holders + [holder];
      hs := hs + [Lit(", "), h];
    }
    assert parts[..|parts|] == parts;
  }

  lemma HoleBindable(h: Piece)
    requires h.Hole? && IsAlias(h.key)
    ensures Bindable([h])
  {
  }

  /** `col IN (:a, :b, ...)` */
  method InClause(f: FilterConfig, o: Operator, params0: map<string, string>)
    returns (sql: string, params: map<string, string>, ghost ps: seq<Piece>)
    requires Generated(params0.Keys) && o.op == "in" && ClauseOk(o)
    ensures ClauseFits(f, o, sql, ps, params0, params)
  {
    hide Quiet, SafeIdent, Generated, PlainName, SplitCSV, HolderPieces, RenderPieces, HoleValues, Join, Bindable,
        AliasHoles, Keyed, HoleKeys, Base;
    KeywordsQuiet();
    ghost var hs: seq<Piece>;
    var holders;
    holders, params, hs := InHolders(f, SplitCSV(o.raw), params0);
    sql := f.column + " IN (" + Join(holders, ", ") + ")";
    ghost var l, r := Lit(f.column + " IN ("), Lit(")");
    PieceUnit(l);
    PieceUnit(r);
    PiecesConcat([l], hs);
    PiecesConcat([l] + hs, [r]);
    ps := [l] + hs + [r];
    BlankConcat([l], hs);
    BlankConcat([l] + hs, [r]);
    AliasConcat([l], hs);
    AliasConcat([l] + hs, [r]);
    assert Blank([l]) == [l] && Blank([r]) == [r];
    KeyedAround(Base(f), |SplitCSV(o.raw)|, [l], hs, [r], params0, params);
    if SafeIdent(f.column) && PlainName(f.name) {
      IdentQuiet(f.column);
      QuietConcat(f.column, " IN (");
      LitThenPieces(l, hs);
      LitBindable(")");
      BindableConcat([l] + hs, [r]);
    }
  }

  lemma LitThenPieces(l: Piece, ps: seq<Piece>)
    requires l.Lit? && Quiet(l.text) && Bindable(ps)
    ensures Bindable([l] + ps)
  {
  }

  method NullClause(f: FilterConfig, o: Operator, params0: map<string, string>)
    returns (sql: string, params: map<string, string>, ghost ps: seq<Piece>)
    requires Generated(params0.Keys) && o.op == "isnull"
    ensures ClauseFits(f, o, sql, ps, params0, params)
  {
    hide Quiet, SafeIdent, Generated, PlainName, SaysNull, Keyed, HoleKeys, Base, RenderPieces, HoleValues;
    params := params0;
    var text := if SaysNull(o.raw) then " IS NULL" else " IS NOT NULL";
    sql := f.column + text;
    ps := [Lit(sql)];
    PieceUnit(Lit(sql));
    KeyedNone(Base(f), ps, params);
    if SafeIdent(f.column) {
      KeywordsQuiet();
      IdentQuiet(f.column);
      QuietConcat(f.column, text);
    }
  }

  lemma ComparisonsQuiet(op: string)
    requires op in COMPARISONS
    ensures Quiet(COMPARISONS[op]) && op !in {"like", "between", "in", "isnull"}
  {
  }

  method BuildWhereClause(f: FilterConfig, o: Operator, params0: map<string, string>)
    returns (c: Clause, params: map<string, string>, ghost ps: seq<Piece>)
    requires Generated(params0.Keys)
    ensures c.Clause? <==> ClauseOk(o)
    ensures c.Clause? ==> ClauseFits(f, o, c.sql, ps, params0, params)
  {
    hide Quiet, SafeIdent, Generated, PlainName, ClauseFits, SplitCSV, HolderPieces, SaysNull;
    params, ps := params0, [];
    var sql;
    KeywordsQuiet();
    if o.op in COMPARISONS {
      ComparisonsQuiet(o.op);
      sql, params, ps := CompareClause(f, o, COMPARISONS[o.op], o.raw, params0);
    } else if o.op == "like" {
      sql, params, ps := CompareClause(f, o, " LIKE ", "%" + o.raw + "%", params0);
    } else if o.op == "between" {
      if |SplitCSV(o.raw)| != 2 { return ClauseError, params, ps; }
      sql, params, ps := BetweenClause(f, o, params0);
    } else if o.op == "in" {
      if |SplitCSV(o.raw)| == 0 { return ClauseError, params, ps; }
      sql, params, ps := InClause(f, o, params0);
    } else if o.op == "isnull" {
      sql, params, ps := NullClause(f, o, params0);
    } else {
      return ClauseError, params, ps;
    }
    return Clause(sql), params, ps;
  }

  // ---- WHERE ----

  function FirstValue(query: Query, name: string): Option<string> {
    if name in query && query[name] != [] && query[name][0] != "" then Some(query[name][0]) else None
  }

  function FilterValuesOf(f: FilterConfig, query: Query): seq<string> {
    match FirstValue(query, f.name) case None => [] case Some(v) => ClauseValues(OperatorOf(v))
  }

  /** The values the whole WHERE binds: clause values in filter order. */
  function FilterValues(fs: seq<FilterConfig>, query: Query): seq<string> {
    if fs == [] then [] else FilterValues(fs[..|fs| - 1], query) + FilterValuesOf(fs[|fs| - 1], query)
  }

  predicate FilterOk(f: FilterConfig, query: Query) {
    match FirstValue(query, f.name)
    case None => true
    case Some(v) => OperatorAllowed(f, OperatorOf(v).op) && ClauseOk(OperatorOf(v))
  }

  /** Every query key that carries a value is a filter or one of the reserved names. */
  predicate KnownNames(c: Config, query: Query) { forall name | name in query :: NameKnown(c, query, name) }

  predicate NameKnown(c: Config, query: Query, name: string) {
    || name in {"page", "limit", "offset", "sort"} || FirstValue(query, name).None?
    || exists f | f in c.filters :: f.name == name
  }

  predicate SafeColumns(fs: seq<FilterConfig>) { forall f | f in fs :: SafeIdent(f.column) }

  /** Every filter that this query gives a value to bind has a plain name. */
  predicate PlainUsed(fs: seq<FilterConfig>, query: Query) {
    forall f | f in fs :: FilterValuesOf(f, query) == [] || PlainName(f.name)
  }

  predicate FiltersOk(fs: seq<FilterConfig>, query: Query) { forall f | f in fs :: FilterOk(f, query) }

  /** What the whole WHERE says: the clauses in filter order, joined by AND. */
  function WherePieces(fs: seq<FilterConfig>, query: Query): seq<Piece>
    requires FiltersOk(fs, query)
  {
    if fs == [] then []
    else
      var f := fs[|fs| - 1];
      assert f in fs;
      var front := WherePieces(fs[..|fs| - 1], query);
      match FirstValue(query, f.name) case None => front case Some(v) => AndThen(front, ClausePieces(f, OperatorOf(v)))
  }

  /** The keys of the whole WHERE: for each clause the next keys of its filter. */
  function WhereKeys(fs: seq<FilterConfig>, query: Query): seq<string> {
    if fs == [] then []
    else
      var f, front := fs[|fs| - 1], WhereKeys(fs[..|fs| - 1], query);
      front + NewKeys(Base(f), |FilterValuesOf(f, query)|, Elements(front))
  }

  ghost predicate KeysFit(fs: seq<FilterConfig>, query: Query, ps: seq<Piece>, params: map<string, string>) {
    HoleKeys(ps) == WhereKeys(fs, query) && params.Keys == Elements(HoleKeys(ps))
  }

  lemma KeysAdd(fs: seq<FilterConfig>, f: FilterConfig, query: Query, ps: seq<Piece>, cps: seq<Piece>,
                params0: map<string, string>, params: map<string, string>)
    requires KeysFit(fs, query, ps, params0) && Keyed(Base(f), |FilterValuesOf(f, query)|, cps, params0, params)
    ensures KeysFit(fs + [f], query, AndThen(ps, cps), params)
  {
    hide HoleKeys, NewKeys, FilterValuesOf, Base;
    KeysSnoc(fs, f, query);
    AndThenKeys(ps, cps);
    ElementsConcat(HoleKeys(ps), HoleKeys(cps));
  }

  lemma KeysSnoc(fs: seq<FilterConfig>, f: FilterConfig, query: Query)
    ensures WhereKeys(fs + [f], query)
        == WhereKeys(fs, query) + NewKeys(Base(f), |FilterValuesOf(f, query)|, Elements(WhereKeys(fs, query)))
  {
    hide NewKeys, FilterValuesOf, Base, Elements;
    assert (fs + [f])[..|fs|] == fs && (fs + [f])[|fs|] == f;
  }

  lemma AndThenKeys(ps: seq<Piece>, cps: seq<Piece>)
    ensures HoleKeys(AndThen(ps, cps)) == HoleKeys(ps) + HoleKeys(cps)
  {
    hide HoleKeys;
    PieceUnit(Lit(" AND "));
    KeysConcat(ps, [Lit(" AND ")]);
    KeysConcat(ps + [Lit(" AND ")], cps);
    assert HoleKeys(ps) + [] == HoleKeys(ps);
    assert ps == [] ==> HoleKeys(ps) == [] by { EmptyPieces(); }
  }

  lemma {:induction false} NewKeysFresh(base: string, n: nat, taken: set<string>)
    requires Generated(taken)
    ensures var keys := NewKeys(base, n, taken);
      && Generated(taken + Elements(keys)) && taken !! Elements(keys)
      && forall i, j | 0 <= i < j < n :: keys[i] != keys[j]
  {
    hide Generated, Key, CountPrefix;
    if n == 0 {
      assert taken + Elements([]) == taken;
    } else {
      var front := NewKeys(base, n - 1, taken);
      NewKeysFresh(base, n - 1, taken);
      FreshKey(taken + Elements(front), base);
      var key := Key(base, CountPrefix(taken + Elements(front), base + "_"));
      ElementsConcat(front, [key]);
      assert taken + Elements(front + [key]) == taken + Elements(front) + {key};
      assert forall i | 0 <= i < n - 1 :: front[i] in Elements(front);
    }
  }

  /** No two values of a query share a parameter, whatever the filters are called. */
  lemma {:induction false} KeysDistinct(fs: seq<FilterConfig>, query: Query)
    ensures var keys := WhereKeys(fs, query); forall i, j | 0 <= i < j < |keys| :: keys[i] != keys[j]
    ensures Generated(Elements(WhereKeys(fs, query)))
  {
    hide Generated, NewKeys, FilterValuesOf, Base;
    if fs == [] {
      NothingGenerated();
    } else {
      var f, front := fs[|fs| - 1], WhereKeys(fs[..|fs| - 1], query);
      KeysDistinct(fs[..|fs| - 1], query);
      var n := |FilterValuesOf(f, query)|;
      var more := NewKeys(Base(f), n, Elements(front));
      NewKeysFresh(Base(f), n, Elements(front));
      ElementsConcat(front, more);
      assert forall i | 0 <= i < |front| :: front[i] in Elements(front);
      assert forall j | 0 <= j < |more| :: more[j] in Elements(more);
    }
  }

  lemma NothingGenerated()
    ensures Generated(Elements([]))
  {
  }

  datatype WhereResult = Conditions(clauses: seq<string>, params: map<string, string>) | WhereError

  ghost predicate WhereFits(fs: seq<FilterConfig>, query: Query, clauses: seq<string>,
                            params: map<string, string>, ps: seq<Piece>)
  {
    && FiltersOk(fs, query) && Blank(ps) == WherePieces(fs, query)
    && Join(clauses, " AND ") == RenderPieces(ps) && HoleValues(ps) == FilterValues(fs, query)
    && Stored(ps, params) && Generated(params.Keys)
    && (clauses == [] <==> ps == [])
    && (PlainUsed(fs, query) && SafeColumns(fs) ==> Bindable(ps)) && (AliasHoles(ps) ==> PlainUsed(fs, query))
    && KeysFit(fs, query, ps, params)
  }

  lemma AddClause(fs: seq<FilterConfig>, f: FilterConfig, query: Query, v: string, clauses: seq<string>, sql: string,
                  params0: map<string, string>, params: map<string, string>, ps: seq<Piece>, cps: seq<Piece>)
    requires WhereFits(fs, query, clauses, params0, ps) && FirstValue(query, f.name) == Some(v)
    requires FilterOk(f, query) && ClauseOk(OperatorOf(v))
    requires ClauseFits(f, OperatorOf(v), sql, cps, params0, params)
    ensures WhereFits(fs + [f], query, clauses + [sql], params, AndThen(ps, cps))
  {
    AndThenText(ps, cps);
    StoredExtends(ps, params0, params);
    FilterSnoc(fs, f, query);
    WhereSnoc(fs, f, query);
    BlankAnd(ps, cps);
    hide WherePieces, ClausePieces, Blank, FilterOk, FiltersOk, ClauseOk, Keyed, KeysFit, Base;
    KeysAdd(fs, f, query, ps, cps, params0, params);
    hide Generated, ClauseValues, Join, RenderPieces, HoleValues, Bindable, PlainName, SafeIdent, OperatorOf,
      AndThen, Stored, Extends, FilterValues, PlainUsed, SafeColumns, AliasHoles;
    JoinSnoc(clauses, sql, " AND ");
  }

  lemma FilterSnoc(fs: seq<FilterConfig>, f: FilterConfig, query: Query)
    ensures FilterValues(fs + [f], query) == FilterValues(fs, query) + FilterValuesOf(f, query)
    ensures PlainUsed(fs + [f], query)
        <==> PlainUsed(fs, query) && (FilterValuesOf(f, query) == [] || PlainName(f.name))
    ensures SafeColumns(fs + [f]) <==> SafeColumns(fs) && SafeIdent(f.column)
  {
    hide FilterValuesOf, PlainName, SafeIdent;
    assert (fs + [f])[..|fs|] == fs && (fs + [f])[|fs|] == f;
    assert forall x | x in fs :: x in fs + [f];
    assert f in fs + [f];
  }

  lemma WhereSnoc(fs: seq<FilterConfig>, f: FilterConfig, query: Query)
    requires FiltersOk(fs, query) && FilterOk(f, query)
    ensures FiltersOk(fs + [f], query)
    ensures WherePieces(fs + [f], query) == (match FirstValue(query, f.name)
              case None => WherePieces(fs, query)
              case Some(v) => AndThen(WherePieces(fs, query), ClausePieces(f, OperatorOf(v))))
  {
    hide FilterOk, ClausePieces, OperatorOf, ClauseOk, FirstValue;
    FiltersOkSnoc(fs, f, query);
    assert (fs + [f])[..|fs|] == fs && (fs + [f])[|fs|] == f;
  }

  lemma FiltersOkSnoc(fs: seq<FilterConfig>, f: FilterConfig, query: Query)
    requires FiltersOk(fs, query) && FilterOk(f, query)
    ensures FiltersOk(fs + [f], query)
  {
    hide FilterOk;
  }

  lemma BlankAnd(ps: seq<Piece>, cps: seq<Piece>)
    ensures Blank(AndThen(ps, cps)) == AndThen(Blank(ps), Blank(cps))
  {
    BlankConcat(ps, [Lit(" AND ")]);
    BlankConcat(ps + [Lit(" AND ")], cps);
    assert Blank([Lit(" AND ")]) == [Lit(" AND ")];
  }

  lemma StoredExtends(ps: seq<Piece>, params0: map<string, string>, params: map<string, string>)
    requires Extends(params0, params) && Stored(ps, params0)
    ensures Stored(ps, params)
  {
  }

  /** Clauses joined by AND. */
  function AndThen(ps: seq<Piece>, cps: seq<Piece>): seq<Piece> {
    if ps == [] then cps else ps + [Lit(" AND ")] + cps
  }

  lemma AndThenText(ps: seq<Piece>, cps: seq<Piece>)
    requires cps != [] && cps[0].Lit?
    ensures var r := AndThen(ps, cps);
      && r != []
      && RenderPieces(r) == (if ps == [] then RenderPieces(cps) else RenderPieces(ps) + " AND " + RenderPieces(cps))
      && HoleValues(r) == HoleValues(ps) + HoleValues(cps)
      && (Bindable(ps) && Bindable(cps) ==> Bindable(r))
      && (AliasHoles(r) <==> AliasHoles(ps) && AliasHoles(cps))
      && forall params | Stored(ps, params) && Stored(cps, params) :: Stored(r, params)
  {
    hide RenderPieces, HoleValues, HoleKeys, Bindable, IsAlias, AliasHoles;
    EmptyPieces();
    if ps != [] {
      var sep := [Lit(" AND ")];
      LitsAlias(sep[0]);
      AliasConcat(ps, sep);
      AliasConcat(ps + sep, cps);
      PieceUnit(sep[0]);
      PiecesConcat(ps, sep);
      PiecesConcat(ps + sep, cps);
      if Bindable(ps) && Bindable(cps) {
        KeywordsQuiet();
        LitThenPieces(sep[0], cps);
        BindableConcat(ps, sep + cps);
        assert ps + (sep + cps) == ps + sep + cps;
      }
    }
  }

  lemma LitsAlias(l: Piece)
    requires l.Lit?
    ensures AliasHoles([l])
  {
  }

  lemma EmptyPieces() ensures RenderPieces([]) == "" && HoleValues([]) == [] && HoleKeys([]) == [] && AliasHoles([]) {}

  /** The check of the query's names, in whatever order its map is walked. */
  method NamesKnown(c: Config, query: Query) returns (ok: bool)
    ensures ok <==> KnownNames(c, query)
  {
    var filters: set<string> := {};
    for i := 0 to |c.filters|
      invariant filters == set k | 0 <= k < i :: c.filters[k].name
    {
      filters := filters + {c.filters[i].name};
    }
    assert forall name :: name in filters <==> exists f | f in c.filters :: f.name == name;
    var rest := query.Keys;
    while rest != {}
      invariant rest <= query.Keys
      invariant forall name | name in query.Keys - rest :: NameKnown(c, query, name)
      decreases |rest|
    {
      var name :| name in rest;
      rest := rest - {name};
      if name == "page" || name == "limit" || name == "offset" || name == "sort" { continue; }
      if |query[name]| == 0 || query[name][0] == "" { continue; }
      if name !in filters { return false; }
    }
    return true;
  }

  method Where(c: Config, query: Query) returns (r: WhereResult, ghost ps: seq<Piece>)
    ensures r.Conditions? <==> KnownNames(c, query) && forall f | f in c.filters :: FilterOk(f, query)
    ensures r.Conditions? ==> WhereFits(c.filters, query, r.clauses, r.params, ps)
  {
    hide WhereFits, ClauseFits, Generated, FilterValues, KnownNames, ClauseOk, OperatorOf, OperatorAllowed;
    ps := [];
    var known := NamesKnown(c, query);
    if !known { return WhereError, ps; }
    var clauses: seq<string>, params: map<string, string> := [], map[];
    WhereStarts(query);
    for i := 0 to |c.filters|
      invariant WhereFits(c.filters[..i], query, clauses, params, ps)
      invariant forall k | 0 <= k < i :: FilterOk(c.filters[k], query)
    {
      var f := c.filters[i];
      assert f in c.filters;
      assert c.filters[..i + 1] == c.filters[..i] + [f];
      WhereIsGenerated(c.filters[..i], query, clauses, params, ps);
      match FirstValue(query, f.name) {
        case None =>
          SkipFilter(c.filters[..i], f, query, clauses, params, ps);
        case Some(v) =>
          var o := OperatorOf(v);
          var allowed := IsAllowed(f, o.op);
          if !allowed { return WhereError, ps; }
          ghost var cps: seq<Piece>;
          var clause, params'; clause, params', cps := BuildWhereClause(f, o, params);
          if clause.ClauseError? { return WhereError, ps; }
          assert FilterOk(f, query);
          AddClause(c.filters[..i], f, query, v, clauses, clause.sql, params, params', ps, cps);
          clauses, params := clauses + [clause.sql], params';
          ps := AndThen(ps, cps);
      }
    }
    assert c.filters[..|c.filters|] == c.filters;
    return Conditions(clauses, params), ps;
  }

  lemma WhereIsGenerated(fs: seq<FilterConfig>, query: Query, clauses: seq<string>, params: map<string, string>,
      ps: seq<Piece>)
    requires WhereFits(fs, query, clauses, params, ps)
    ensures Generated(params.Keys)
  {
  }

  lemma WhereSays(fs: seq<FilterConfig>, query: Query, clauses: seq<string>, params: map<string, string>,
      ps: seq<Piece>)
    requires WhereFits(fs, query, clauses, params, ps)
    ensures FiltersOk(fs, query) && Blank(ps) == WherePieces(fs, query) && (clauses == [] <==> ps == [])
    ensures KeysFit(fs, query, ps, params)
  {
  }

  lemma WhereStarts(query: Query)
    ensures WhereFits([], query, [], map[], [])
  {
  }

  lemma SkipFilter(fs: seq<FilterConfig>, f: FilterConfig, query: Query, clauses: seq<string>,
                   params: map<string, string>, ps: seq<Piece>)
    requires WhereFits(fs, query, clauses, params, ps) && FirstValue(query, f.name).None?
    ensures WhereFits(fs + [f], query, clauses, params, ps)
  {
    FilterSnoc(fs, f, query);
    WhereSnoc(fs, f, query);
    KeysSnoc(fs, f, query);
    hide Generated, Join, RenderPieces, HoleValues, HoleKeys, Bindable, AliasHoles, PlainUsed, SafeColumns,
        FilterValues, WherePieces, WhereKeys, Blank;
    assert FilterValues(fs, query) + [] == FilterValues(fs, query);
    assert WhereKeys(fs, query) + [] == WhereKeys(fs, query);
  }

  // ---- ORDER BY ----

  /** The last column declared under a name. */
  function SortColumns(cols: seq<SortableColumn>): (m: map<string, string>)
    ensures forall n | n in m :: exists s | s in cols :: s.column == m[n]
    ensures forall n :: n in m <==> exists s | s in cols :: s.name == n
  {
    if cols == [] then map[]
    else
      var n := |cols| - 1;
      assert cols == cols[..n] + [cols[n]];
      SortColumns(cols[..n])[cols[n].name := cols[n].column]
  }

  function SortName(token: string): string { if HasPrefix(token, "-") then token[1..] else token }

  function SortDir(token: string): string { if HasPrefix(token, "-") then " DESC" else " ASC" }

  function SortTerms(cols: map<string, string>, tokens: seq<string>): seq<string>
    requires forall t | t in tokens :: SortName(t) in cols
  {
    seq(|tokens|, i requires 0 <= i < |tokens| => assert tokens[i] in tokens;
        cols[SortName(tokens[i])] + SortDir(tokens[i]))
  }

  lemma SortTermsAre(cols: map<string, string>, tokens: seq<string>, parts: seq<string>)
    requires |parts| == |tokens|
    requires forall k | 0 <= k < |tokens| ::
      SortName(tokens[k]) in cols && parts[k] == cols[SortName(tokens[k])] + SortDir(tokens[k])
    ensures (forall t | t in tokens :: SortName(t) in cols) && parts == SortTerms(cols, tokens)
  {
  }

  datatype OrderResult = Order(text: string) | OrderError

  function SortTokens(c: Config, raw: string): seq<string> {
    var text := if raw == "" then c.defaultSort else raw;
    if text == "" then [] else SplitCSV(text)
  }

  method OrderBy(c: Config, raw: string) returns (r: OrderResult)
    ensures var tokens, cols := SortTokens(c, raw), SortColumns(c.sortable);
      && (r.Order? <==> forall t | t in tokens :: SortName(t) in cols)
      && (r.Order? ==> r.text == Join(SortTerms(cols, tokens), ", "))
  {
    hide SortTokens, Join, SortName, SortDir, SortColumns;
    var cols := SortColumns(c.sortable);
    var tokens := SortTokens(c, raw);
    var parts: seq<string> := [];
    for i := 0 to |tokens|
      invariant |parts| == i
      invariant forall k | 0 <= k < i
          :: SortName(tokens[k]) in cols && parts[k] == cols[SortName(tokens[k])] + SortDir(tokens[k])
    {
      var name := SortName(tokens[i]);
      if name !in cols { return OrderError; }
      parts := parts + [cols[name] + SortDir(tokens[i])];
    }
    SortTermsAre(cols, tokens, parts);
    return Order(Join(parts, ", "));
  }

  lemma {:induction false} JoinQuiet(parts: seq<string>, sep: string)
    requires (forall p | p in parts :: Quiet(p)) && Quiet(sep)
    ensures Quiet(Join(parts, sep))
  {
    hide Quiet;
    if |parts| == 1 {
      assert parts[0] in parts;
    } else if |parts| > 1 {
      assert parts[0] in parts && forall p | p in parts[1..] :: p in parts;
      JoinQuiet(parts[1..], sep);
      QuietConcat(parts[0], sep);
      QuietConcat(parts[0] + sep, Join(parts[1..], sep));
    } else {
      assert Quiet("") by { EmptyQuiet(); }
    }
  }

  lemma EmptyQuiet() ensures Quiet("") {}

  lemma OrderQuiet(c: Config, tokens: seq<string>)
    requires Valid(c) && forall t | t in tokens :: SortName(t) in SortColumns(c.sortable)
    ensures Quiet(Join(SortTerms(SortColumns(c.sortable), tokens), ", "))
  {
    hide Quiet, SafeIdent, SafeSelect;
    var cols := SortColumns(c.sortable);
    var terms := SortTerms(cols, tokens);
    forall t | t in terms ensures Quiet(t) {
      var i :| 0 <= i < |terms| && terms[i] == t;
      assert tokens[i] in tokens;
      var col := cols[SortName(tokens[i])];
      var s :| s in c.sortable && s.column == col;
      IdentQuiet(col);
      DirQuiet(tokens[i]);
      QuietConcat(col, SortDir(tokens[i]));
    }
    KeywordsQuiet();
    JoinQuiet(terms, ", ");
  }

  lemma DirQuiet(token: string) ensures Quiet(SortDir(token)) {}

  // ---- The whole query ----

  function JoinText(j: JoinConfig): string {
    " " + Upper(j.kind) + " JOIN " + j.table + (if j.alias != "" then " " + j.alias else "")
    + " ON " + j.left + " " + j.op + " " + j.right
  }

  lemma Quiet3(a: string, b: string, c: string)
    requires Quiet(a) && Quiet(b) && Quiet(c)
    ensures Quiet(a + b + c)
  {
    QuietConcat(a, b);
    QuietConcat(a + b, c);
  }

  /** The join keyword is written upper-cased but checked lower-cased. */
  lemma KindQuiet(kind: string)
    requires Lower(kind) in {"inner", "left"}
    ensures Quiet(Upper(kind))
  {
    forall c | c in Upper(kind) ensures QuietChar(c) {
      var i :| 0 <= i < |kind| && Upper(kind)[i] == c;
      assert Lower(kind)[i] == LowerChar(kind[i]);
      assert Lower(kind)[i] in {'i', 'n', 'e', 'r', 'l', 'f', 't'};
    }
  }

  lemma JoinTextQuiet(j: JoinConfig)
    requires SafeJoin(j)
    ensures Quiet(JoinText(j))
  {
    KindQuiet(j.kind);
    IdentQuiet(j.table); IdentQuiet(j.left); IdentQuiet(j.right);
    if j.alias != "" { AliasQuiet(j.alias); }
    SpacersQuiet();
    hide Quiet, SafeIdent, Upper, Lower, IsAlias;
    Quiet3(" ", Upper(j.kind), " JOIN ");
    if j.alias != "" { QuietConcat(" ", j.alias); }
    var alias := if j.alias != "" then " " + j.alias else "";
    Quiet3(" " + Upper(j.kind) + " JOIN ", j.table, alias);
    Quiet3(" " + Upper(j.kind) + " JOIN " + j.table + alias, " ON ", j.left);
    Quiet3(" " + Upper(j.kind) + " JOIN " + j.table + alias + " ON " + j.left, " ", j.op);
    Quiet3(" " + Upper(j.kind) + " JOIN " + j.table + alias + " ON " + j.left + " " + j.op, " ", j.right);
  }

  lemma SpacersQuiet()
    ensures Quiet("") && Quiet(" ") && Quiet(" JOIN ") && Quiet(" ON ") && Quiet("=") && Quiet("SELECT ")
        && Quiet(" FROM ")
    ensures Quiet(" WHERE ") && Quiet(" GROUP BY ") && Quiet(" ORDER BY ")
  {
  }

  function HeadText(c: Config): string { "SELECT " + Join(c.select, ", ") + " FROM " + c.baseTable }

  function JoinsText(js: seq<JoinConfig>): string {
    if js == [] then "" else JoinsText(js[..|js| - 1]) + JoinText(js[|js| - 1])
  }

  lemma {:induction false} JoinsQuiet(js: seq<JoinConfig>)
    requires forall j | j in js :: SafeJoin(j)
    ensures Quiet(JoinsText(js))
  {
    if js != [] {
      var n := |js| - 1;
      assert js[n] in js && forall j | j in js[..n] :: j in js;
      JoinsQuiet(js[..n]);
      JoinTextQuiet(js[n]);
      QuietConcat(JoinsText(js[..n]), JoinText(js[n]));
    }
  }

  lemma HeadQuiet(c: Config)
    requires Valid(c)
    ensures Quiet(HeadText(c) + JoinsText(c.joins))
  {
    forall v | v in c.select ensures Quiet(v) { SelectQuiet(v); }
    hide SafeSelect, Quiet;
    KeywordsQuiet();
    SpacersQuiet();
    JoinQuiet(c.select, ", ");
    IdentQuiet(c.baseTable);
    Quiet3("SELECT ", Join(c.select, ", "), " FROM ");
    JoinsQuiet(c.joins);
    Quiet3("SELECT " + Join(c.select, ", ") + " FROM ", c.baseTable, JoinsText(c.joins));
  }

  function TailText(groupBy: seq<string>, order: string): string {
    (if groupBy != [] then " GROUP BY " + Join(groupBy, ", ") else "")
        + (if order != "" then " ORDER BY " + order else "")
  }

  lemma TailQuiet(c: Config, order: string)
    requires Valid(c) && Quiet(order)
    ensures Quiet(TailText(c.groupBy, order))
    ensures TailText(c.groupBy, order) != "" ==> TailText(c.groupBy, order)[0] == ' '
  {
    forall g | g in c.groupBy ensures Quiet(g) { IdentQuiet(g); }
    hide Quiet, SafeSelect, SafeIdent;
    KeywordsQuiet();
    SpacersQuiet();
    JoinQuiet(c.groupBy, ", ");
    QuietConcat(" GROUP BY ", Join(c.groupBy, ", "));
    QuietConcat(" ORDER BY ", order);
    QuietConcat(if c.groupBy != [] then " GROUP BY " + Join(c.groupBy, ", ") else "",
                if order != "" then " ORDER BY " + order else "");
  }

  datatype BuildResult = Built(sql: string, params: map<string, string>) | BuildError

  function SortParam(query: Query): string { if "sort" in query && query["sort"] != [] then query["sort"][0] else "" }

  predicate Buildable(c: Config, query: Query)
  {
    && Valid(c) && KnownNames(c, query) && (forall f | f in c.filters :: FilterOk(f, query))
    && forall t | t in SortTokens(c, SortParam(query)) :: SortName(t) in SortColumns(c.sortable)
  }

  function OrderText(c: Config, query: Query): string
    requires Buildable(c, query)
  {
    Join(SortTerms(SortColumns(c.sortable), SortTokens(c, SortParam(query))), ", ")
  }

  /** The query a configuration and a request stand for. */
  function QueryPieces(c: Config, query: Query): seq<Piece>
    requires Buildable(c, query)
  {
    var start := HeadText(c) + JoinsText(c.joins);
    var where := WherePieces(c.filters, query);
    var tail := TailText(c.groupBy, OrderText(c, query));
    (if where == [] then [Lit(start)] else [Lit(start), Lit(" WHERE ")] + where)
        + (if tail == "" then [] else [Lit(tail)])
  }

  lemma QueryBlank(c: Config, query: Query, wps: seq<Piece>, ps: seq<Piece>)
    requires Buildable(c, query) && Blank(wps) == WherePieces(c.filters, query)
    requires var start, tail := HeadText(c) + JoinsText(c.joins), TailText(c.groupBy, OrderText(c, query));
      ps == (if wps == [] then [Lit(start)] else [Lit(start), Lit(" WHERE ")] + wps)
          + (if tail == "" then [] else [Lit(tail)])
    ensures Blank(ps) == QueryPieces(c, query)
  {
    hide Buildable, HeadText, JoinsText, TailText, OrderText, WherePieces;
    var start, tail := Lit(HeadText(c) + JoinsText(c.joins)), TailText(c.groupBy, OrderText(c, query));
    assert Blank([start, Lit(" WHERE ")]) == [start, Lit(" WHERE ")] && Blank([start]) == [start];
    BlankConcat([start, Lit(" WHERE ")], wps);
    var front := if wps == [] then [start] else [start, Lit(" WHERE ")] + wps;
    var back := if tail == "" then [] else [Lit(tail)];
    assert Blank(back) == back;
    BlankConcat(front, back);
  }

  /** The text so far is SQL with holes for these values. */
  ghost predicate Assembled(b: string, ps: seq<Piece>, values: seq<string>, params: map<string, string>, plain: bool)
  {
    && b == RenderPieces(ps) && HoleValues(ps) == values && Stored(ps, params)
    && (plain ==> Bindable(ps)) && (AliasHoles(ps) ==> plain)
  }

  lemma StartText(b: string, params: map<string, string>)
    requires Quiet(b)
    ensures Assembled(b, [Lit(b)], [], params, true)
  {
    hide Quiet;
    PieceUnit(Lit(b));
    LitBindable(b);
  }

  lemma ColumnsSafe(c: Config)
    requires Valid(c)
    ensures SafeColumns(c.filters)
  {
    hide SafeIdent, SafeSelect, SafeJoin;
  }

  lemma AppendWhere(c: Config, query: Query, b: string, where: WhereResult, wps: seq<Piece>)
    requires Valid(c) && Quiet(b) && where.Conditions? && WhereFits(c.filters, query, where.clauses, where.params, wps)
    ensures
      var plain := PlainUsed(c.filters, query);
      var b' := if where.clauses == [] then b else b + " WHERE " + Join(where.clauses, " AND ");
      var ps := if where.clauses == [] then [Lit(b)] else [Lit(b), Lit(" WHERE ")] + wps;
      Assembled(b', ps, FilterValues(c.filters, query), where.params, plain)
  {
    hide Quiet, SafeIdent, SafeSelect, Generated, Join, Bindable, RenderPieces, HoleValues, FilterValues, PlainName;
    hide WherePieces, FiltersOk, Blank, AliasHoles, PlainUsed, KeysFit, SafeColumns;
    ColumnsSafe(c);
    hide Valid;
    EmptyPieces();
    StartText(b, where.params);
    SpacersQuiet();
    if where.clauses != [] {
      var front := [Lit(b), Lit(" WHERE ")];
      PieceUnit(Lit(" WHERE "));
      PiecesConcat([Lit(b)], [Lit(" WHERE ")]);
      assert [Lit(b)] + [Lit(" WHERE ")] == front;
      PiecesConcat(front, wps);
      AliasConcat(front, wps);
      if PlainUsed(c.filters, query) {
        LitThenPieces(Lit(" WHERE "), wps);
        LitThenPieces(Lit(b), [Lit(" WHERE ")] + wps);
        assert [Lit(b)] + ([Lit(" WHERE ")] + wps) == front + wps;
      }
    }
  }

  lemma AppendText(b: string, ps: seq<Piece>, values: seq<string>, params: map<string, string>, plain: bool,
      tail: string)
    requires Assembled(b, ps, values, params, plain) && Quiet(tail) && (tail != "" ==> tail[0] == ' ')
    ensures Assembled(b + tail, if tail == "" then ps else ps + [Lit(tail)], values, params, plain)
  {
    hide Quiet, Bindable, AliasHoles, RenderPieces, HoleValues;
    if tail == "" {
      assert b + tail == b;
    } else {
      PieceUnit(Lit(tail));
      PiecesConcat(ps, [Lit(tail)]);
      AliasConcat(ps, [Lit(tail)]);
      assert values + [] == values;
      LitBindable(tail);
      if plain { BindableConcat(ps, [Lit(tail)]); }
    }
  }

  /** Build assembles the query exactly when the configuration and the request are
      acceptable; the text is SQL with holes whose values are the filter values in filter
      order, each stored under its own key. */
  method Build(c: Config, query: Query) returns (r: BuildResult, ghost ps: seq<Piece>)
    ensures r.Built? <==> Buildable(c, query)
    ensures r.Built? ==>
      Assembled(r.sql, ps, FilterValues(c.filters, query), r.params, PlainUsed(c.filters, query))
    ensures r.Built? ==> Blank(ps) == QueryPieces(c, query)
    ensures r.Built? ==> KeysFit(c.filters, query, ps, r.params)
  {
    hide KeysFit, HoleKeys;
    hide QueryPieces, WherePieces, Blank, SortTerms, SortTokens, SortColumns, SortName;
    hide Quiet, Valid, Join, KnownNames, FilterOk, FilterValues, PlainUsed, Assembled, WhereFits, TailText, HeadText,
        JoinText;
    ps := [];
    var valid := Validate(c);
    if !valid { return BuildError, ps; }
    var b := HeadText(c);
    for i := 0 to |c.joins|
      invariant b == HeadText(c) + JoinsText(c.joins[..i])
    {
      assert c.joins[..i + 1][..i] == c.joins[..i];
      b := b + JoinText(c.joins[i]);
    }
    assert c.joins[..|c.joins|] == c.joins;
    HeadQuiet(c);
    var where; ghost var wps;
    where, wps := Where(c, query);
    if where.WhereError? { return BuildError, ps; }
    assert Blank(wps) == WherePieces(c.filters, query) && (where.clauses == [] <==> wps == [])
        && KeysFit(c.filters, query, wps, where.params) by {
      WhereSays(c.filters, query, where.clauses, where.params, wps);
    }
    AppendWhere(c, query, b, where, wps);
    ps := if where.clauses == [] then [Lit(b)] else [Lit(b), Lit(" WHERE ")] + wps;
    if where.clauses != [] {
      b := b + " WHERE " + Join(where.clauses, " AND ");
    }
    var order := OrderBy(c, SortParam(query));
    if order.OrderError? { return BuildError, ps; }
    OrderQuiet(c, SortTokens(c, SortParam(query)));
    TailQuiet(c, order.text);
    var tail := TailText(c.groupBy, order.text);
    AppendText(b, ps, FilterValues(c.filters, query), where.params, PlainUsed(c.filters, query), tail);
    ghost var front := ps;
    ps := if tail == "" then ps else ps + [Lit(tail)];
    QueryKeys(c.filters, query, wps, front, tail, ps, where.params);
    assert tail == "" ==> front + [] == front;
    QueryBlank(c, query, wps, ps);
    return Built(b + tail, where.params), ps;
  }

  lemma QueryKeys(fs: seq<FilterConfig>, query: Query, wps: seq<Piece>, front: seq<Piece>, tail: string,
                  ps: seq<Piece>, params: map<string, string>)
    requires KeysFit(fs, query, wps, params)
    requires front != [] && front[0].Lit? && front[1..] == (if wps == [] then [] else [Lit(" WHERE ")] + wps)
    requires ps == if tail == "" then front else front + [Lit(tail)]
    ensures KeysFit(fs, query, ps, params)
  {
    hide WhereKeys, HoleKeys, Elements;
    EmptyPieces();
    var mid := if wps == [] then [] else [Lit(" WHERE ")] + wps;
    assert front == [front[0]] + mid;
    PieceUnit(front[0]);
    PieceUnit(Lit(" WHERE "));
    PieceUnit(Lit(tail));
    KeysConcat([front[0]], mid);
    KeysConcat([Lit(" WHERE ")], wps);
    KeysConcat(front, [Lit(tail)]);
    assert [] + HoleKeys(wps) == HoleKeys(wps) && [] + HoleKeys(mid) == HoleKeys(mid)
        && HoleKeys(front) + [] == HoleKeys(front);
  }

  lemma LitBindable(t: string)
    requires Quiet(t)
    ensures Bindable([Lit(t)])
  {
  }

  /** End to end: the binder reads exactly the generated keys, in order, if and only if every filter
      that the query gives a value has a plain name. Then, in any dialect and whatever the declared
      parameters are, binding gives the query's own text with the driver's placeholders numbered
      through it and passes exactly the clause values, in filter order. */
  method BuildAndBind(c: Config, query: Query, declared: map<string, string>, ph: nat -> string, d: Dialect)
    returns (r: BuildResult, o: BindOutcome<string>, ghost ps: seq<Piece>)
    ensures r.Built? <==> Buildable(c, query)
    ensures r.Built? ==> r.sql == RenderPieces(ps) && Blank(ps) == QueryPieces(c, query)
    ensures r.Built? ==> HoleKeys(ps) == WhereKeys(c.filters, query) && r.params.Keys == Elements(HoleKeys(ps))
    ensures r.Built? ==> HoleValues(ps) == FilterValues(c.filters, query) && Stored(ps, r.params)
    ensures r.Built? ==> o == BindMeaning(BindRules(d), r.sql, declared + r.params, ph)
    ensures r.Built? ==> (ParamNames(Lex(BindRules(d), r.sql).toks) == HoleKeys(ps) <==> PlainUsed(c.filters, query))
    ensures r.Built? && PlainUsed(c.filters, query) ==>
      && o.BoundQuery? && o.args == FilterValues(c.filters, query)
      && o.sql == Filled(ph, 0, QueryPieces(c, query))
      && NoOpaque(Lex(BindRules(d), r.sql).toks)
  {
    hide Bindable, AliasHoles, RenderPieces, HoleValues, HoleKeys, FilterValues, Lex, BindMeaning, Buildable,
        PlainUsed, NoOpaque;
    hide QueryPieces, Blank, Filled, Stored, IsAlias;
    r, ps := Build(c, query);
    if r.BuildError? { return r, BindSpins, ps; }
    var merged := declared + r.params;
    o := BindDialect(r.sql, merged, ph, d);
    StoredMerged(ps, declared, r.params);
    FilledBlank(ph, 0, ps);
    NamesAreAliases(BindRules(d), r.sql);
    AliasKeys(ps);
    if PlainUsed(c.filters, query) {
      PiecesBind(d, ps, merged, ph);
      PiecesScan(BindRules(d), ps);
    }
  }

  lemma StoredMerged(ps: seq<Piece>, declared: map<string, string>, params: map<string, string>)
    requires Stored(ps, params)
    ensures Stored(ps, declared + params)
  {
  }

  /** Why the names matter: a filter `0_0 x` gets a key that the binder reads as that of filter `0`. */
  lemma KeyMisread(r: Rules, rest: string, operators: seq<string>)
    requires r.named && NoOpaque(Lex(r, " x_0" + rest).toks)
    ensures var f, g := FilterConfig("0", "a", operators), FilterConfig("0_0 x", "b", operators);
      var names := ParamNames(Lex(r, ":" + Key(Base(g), 0) + rest).toks); names != [] && names[0] == Key(Base(f), 0)
  {
    hide Lex;
    var f, g := FilterConfig("0", "a", operators), FilterConfig("0_0 x", "b", operators);
    assert Sanitize("0") == "0" && Sanitize("0_0 x") == "0_0 x" && Itoa(0) == "0";
    var key := Key(Base(f), 0);
    assert Key(Base(g), 0) == key + " x_0";
    assert ":" + Key(Base(g), 0) + rest == ":" + key + (" x_0" + rest);
    KeyIsAliasIff(f, 0);
    KeyScan(r, key, " x_0" + rest);
  }
}
