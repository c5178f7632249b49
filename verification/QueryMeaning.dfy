/** What a built query asks for, read off its text: the words of the SQL, the conditions and the order
    that they spell, and the rows that meet them. The builder (internal/gateway/querybuilder.go) writes
    text; the definitions here only read it, and share no table with it. */
module QueryMeaning {
  import opened Options
  import opened Strings
  import opened SqlLexer
  import opened SqlPieces
  import opened SqlWords
  import opened QueryBuilder

  // ---- Words of the configuration ----

  lemma ColumnIsWord(s: string)
    requires SafeIdent(s)
    ensures OneWord(s)
  {
    hide IsAlias, OneWord;
    if IsAlias(s) {
      AliasIsWord(s);
    } else {
      var i :| 0 < i < |s| && s[i] == '.' && IsAlias(s[..i]) && IsAlias(s[i + 1..]);
      AliasIsWord(s[..i]);
      AliasIsWord(s[i + 1..]);
      assert s == s[..i] + "." + s[i + 1..];
      DottedIsWord(s[..i], s[i + 1..]);
    }
  }

  lemma DottedIsWord(a: string, b: string)
    requires OneWord(a) && OneWord(b)
    ensures OneWord(a + "." + b)
  {
    forall c | c in a + "." + b ensures !Breaks(c) {
      assert c in a || c in "." || c in b;
    }
  }

  lemma AliasIsWord(s: string)
    requires IsAlias(s)
    ensures OneWord(s)
  {
  }

  lemma KeyIsWord(k: string)
    requires IsAlias(k)
    ensures OneWord(":" + k)
  {
  }

  // ---- Conditions ----

  datatype Rel = Equal | Different | Above | AtLeast | Below | AtMost

  datatype Cond =
    | Compare(column: string, rel: Rel, value: string)
    | Matches(column: string, pattern: string)
    | Within(column: string, lo: string, hi: string)
    | OneOf(column: string, values: seq<string>)
    | Null(column: string)
    | NotNull(column: string)

  function RelOf(w: string): Option<Rel> {
    if w == "=" then Some(Equal)
    else if w == "<>" then Some(Different)
    else if w == ">" then Some(Above)
    else if w == ">=" then Some(AtLeast)
    else if w == "<" then Some(Below)
    else if w == "<=" then Some(AtMost)
    else None
  }

  /** The value a parameter stands for. */
  function Held(params: map<string, string>, w: string): Option<string> {
    if w != "" && w[0] == ':' && w[1..] in params then Some(params[w[1..]]) else None
  }

  datatype Read<T> = Misread | Read(value: T, rest: seq<string>)

  /** `:a, :b, ... )` */
  function ReadList(params: map<string, string>, ws: seq<string>): (r: Read<seq<string>>)
    ensures r.Read? ==> |r.rest| < |ws|
    decreases |ws|
  {
    if |ws| < 2 || Held(params, ws[0]).None? then Misread
    else if ws[1] == ")" then Read([Held(params, ws[0]).value], ws[2..])
    else if ws[1] != "," then Misread
    else match ReadList(params, ws[2..])
      case Misread => Misread
      case Read(vs, rest) => Read([Held(params, ws[0]).value] + vs, rest)
  }

  function ReadClause(params: map<string, string>, ws: seq<string>): (r: Read<Cond>)
    ensures r.Read? ==> |r.rest| < |ws|
  {
    if |ws| < 3 then Misread
    else if ws[1] == "IN" && ws[2] == "(" then
      match ReadList(params, ws[3..]) case Misread => Misread case Read(vs, rest) => Read(OneOf(ws[0], vs), rest)
    else if ws[1] == "IS" then
      if ws[2] == "NULL" then Read(Null(ws[0]), ws[3..])
      else if ws[2] == "NOT" && |ws| > 3 && ws[3] == "NULL" then Read(NotNull(ws[0]), ws[4..])
      else Misread
    else match Held(params, ws[2])
      case None => Misread
      case Some(v) =>
        if RelOf(ws[1]).Some? then Read(Compare(ws[0], RelOf(ws[1]).value, v), ws[3..])
        else if ws[1] == "LIKE" then Read(Matches(ws[0], v), ws[3..])
        else if ws[1] == "BETWEEN" && |ws| > 4 && ws[3] == "AND" && Held(params, ws[4]).Some?
        then Read(Within(ws[0], v, Held(params, ws[4]).value), ws[5..])
        else Misread
  }

  /** Clauses joined by AND, up to the end of the words. */
  function ReadWhere(params: map<string, string>, ws: seq<string>): Option<seq<Cond>>
    decreases |ws|
  {
    match ReadClause(params, ws)
    case Misread => None
    case Read(c, rest) =>
      if rest == [] then Some([c])
      else if rest[0] != "AND" then None
      else match ReadWhere(params, rest[1..]) case None => None case Some(cs) => Some([c] + cs)
  }

  // ---- What the operators mean ----

  /** How the database compares the values of a column. */
  datatype Engine = Engine(equal: (string, string) -> bool, less: (string, string) -> bool)

  /** SQL patterns: `%` stands for any text, `_` for any character. */
  predicate LikeMatch(x: string, p: string)
    decreases |p|
  {
    if p == [] then x == []
    else if p[0] == '%' then exists i | 0 <= i <= |x| :: LikeMatch(x[i..], p[1..])
    else x != [] && (p[0] == '_' || p[0] == x[0]) && LikeMatch(x[1..], p[1..])
  }

  /** A column's value, None for NULL, meets a condition; a comparison with NULL is never met. */
  predicate Holds(e: Engine, c: Cond, x: Option<string>) {
    match c
    case Null(_) => x.None?
    case NotNull(_) => x.Some?
    case Compare(_, rel, v) => x.Some? && (match rel
      case Equal => e.equal(x.value, v)
      case Different => !e.equal(x.value, v)
      case Above => e.less(v, x.value)
      case AtLeast => !e.less(x.value, v)
      case Below => e.less(x.value, v)
      case AtMost => !e.less(v, x.value))
    case Matches(_, p) => x.Some? && LikeMatch(x.value, p)
    case Within(_, lo, hi) => x.Some? && !e.less(x.value, lo) && !e.less(hi, x.value)
    case OneOf(_, vs) => x.Some? && exists v | v in vs :: e.equal(x.value, v)
  }

  /** Some part of the text matches the pattern. */
  predicate Contains(x: string, p: string) { exists i, j | 0 <= i <= j <= |x| :: LikeMatch(x[i..j], p) }

  /** What a client asks of a column by an operator and its argument. */
  predicate Wants(e: Engine, o: Operator, x: Option<string>) {
    match x
    case None => o.op == "isnull" && Lower(TrimSpace(o.raw)) == "true"
    case Some(y) =>
      if o.op == "isnull" then Lower(TrimSpace(o.raw)) != "true"
      else if o.op == "eq" then e.equal(y, o.raw)
      else if o.op == "neq" then !e.equal(y, o.raw)
      else if o.op == "gt" then e.less(o.raw, y)
      else if o.op == "gte" then !e.less(y, o.raw)
      else if o.op == "lt" then e.less(y, o.raw)
      else if o.op == "lte" then !e.less(o.raw, y)
      else if o.op == "like" then Contains(y, o.raw)
      else if o.op == "between" then
        var parts := SplitCSV(o.raw);
        |parts| == 2 && !e.less(y, parts[0]) && !e.less(parts[1], y)
      else o.op == "in" && exists v | v in SplitCSV(o.raw) :: e.equal(y, v)
  }

  // ---- Patterns ----

  lemma {:induction false} AnyTail(x: string, p: string)
    ensures LikeMatch(x, p + "%") <==> exists j | 0 <= j <= |x| :: LikeMatch(x[..j], p)
    decreases |p|, 1
  {
    var q := p + "%";
    if p == [] {
      assert q[1..] == [] && x[|x|..] == [] && x[..0] == [];
      assert LikeMatch(x[|x|..], []);
      assert LikeMatch(x[..0], []);
    } else {
      assert q[0] == p[0] && q[1..] == p[1..] + "%";
      if p[0] == '%' {
        AnyTailBehindAny(x, p);
      } else if x != [] {
        AnyTail(x[1..], p[1..]);
        AnyTailBehindOne(x, p);
      } else {
        assert forall j | 0 <= j <= |x| :: x[..j] == [];
      }
    }
  }

  lemma AnyTailBehindOne(x: string, p: string)
    requires x != [] && p != [] && p[0] != '%'
    ensures (exists j | 0 <= j <= |x| :: LikeMatch(x[..j], p))
        <==> (p[0] == '_' || p[0] == x[0]) && exists j | 0 <= j <= |x| - 1 :: LikeMatch(x[1..][..j], p[1..])
  {
    if j :| 0 <= j <= |x| && LikeMatch(x[..j], p) {
      assert j > 0 && x[..j][1..] == x[1..][..j - 1];
    }
    if j :| 0 <= j <= |x| - 1 && LikeMatch(x[1..][..j], p[1..]) {
      assert x[..j + 1][1..] == x[1..][..j];
      if p[0] == '_' || p[0] == x[0] { assert LikeMatch(x[..j + 1], p); }
    }
  }

  lemma {:induction false} AnyTailBehindAny(x: string, p: string)
    requires p != [] && p[0] == '%'
    ensures LikeMatch(x, p + "%") <==> exists j | 0 <= j <= |x| :: LikeMatch(x[..j], p)
    decreases |p|, 0
  {
    var q := p + "%";
    assert q[0] == '%' && q[1..] == p[1..] + "%";
    if LikeMatch(x, q) {
      var i :| 0 <= i <= |x| && LikeMatch(x[i..], q[1..]);
      AnyTail(x[i..], p[1..]);
      var k :| 0 <= k <= |x[i..]| && LikeMatch(x[i..][..k], p[1..]);
      assert x[..i + k][i..] == x[i..][..k];
      assert LikeMatch(x[..i + k], p);
    }
    if j :| 0 <= j <= |x| && LikeMatch(x[..j], p) {
      var i :| 0 <= i <= j && LikeMatch(x[..j][i..], p[1..]);
      assert x[..j][i..] == x[i..][..j - i];
      AnyTail(x[i..], p[1..]);
      assert LikeMatch(x[i..], q[1..]);
    }
  }

  /** A pattern between two `%` is looked for anywhere in the text. */
  lemma LikeContains(x: string, p: string)
    ensures LikeMatch(x, "%" + p + "%") <==> Contains(x, p)
  {
    var q := "%" + p + "%";
    assert q[1..] == p + "%";
    if LikeMatch(x, q) {
      var i :| 0 <= i <= |x| && LikeMatch(x[i..], p + "%");
      AnyTail(x[i..], p);
      var k :| 0 <= k <= |x[i..]| && LikeMatch(x[i..][..k], p);
      assert x[i..][..k] == x[i..i + k];
    }
    if Contains(x, p) {
      var i, j :| 0 <= i <= j <= |x| && LikeMatch(x[i..j], p);
      assert x[i..j] == x[i..][..j - i];
      AnyTail(x[i..], p);
      assert LikeMatch(x[i..], q[1..]);
    }
  }

  /** Without wildcards that is to hold the text itself. */
  lemma {:induction false} LiteralMatch(x: string, p: string)
    requires '%' !in p && '_' !in p
    ensures LikeMatch(x, p) <==> x == p
  {
    if p != [] && x != [] {
      assert p[0] in p && forall c | c in p[1..] :: c in p;
      LiteralMatch(x[1..], p[1..]);
      assert p == [p[0]] + p[1..] && x == [x[0]] + x[1..];
    } else if p != [] {
      assert p[0] in p;
    }
  }

  // ---- Reading a clause back ----

  /** The condition a filter's clause should say. */
  function CondOf(column: string, o: Operator): Cond
    requires ClauseOk(o)
  {
    match o.op
    case "like" => Matches(column, "%" + o.raw + "%")
    case "between" => Within(column, SplitCSV(o.raw)[0], SplitCSV(o.raw)[1])
    case "in" => OneOf(column, SplitCSV(o.raw))
    case "isnull" => if Lower(TrimSpace(o.raw)) == "true" then Null(column) else NotNull(column)
    case "eq" => Compare(column, Equal, o.raw)
    case "neq" => Compare(column, Different, o.raw)
    case "gt" => Compare(column, Above, o.raw)
    case "gte" => Compare(column, AtLeast, o.raw)
    case "lt" => Compare(column, Below, o.raw)
    case _ => Compare(column, AtMost, o.raw)
  }

  /** Which is met by exactly the values that the client asks for. */
  lemma CondMeans(e: Engine, column: string, o: Operator, x: Option<string>)
    requires ClauseOk(o)
    ensures Holds(e, CondOf(column, o), x) <==> Wants(e, o, x)
  {
    hide SplitCSV, LikeMatch, Contains;
    if o.op == "like" && x.Some? { LikeContains(x.value, o.raw); }
    assert o.op !in {"like", "between", "in", "isnull"} ==> o.op in {"eq", "neq", "gt", "gte", "lt", "lte"};
  }

  /** Two words and a parameter. */
  lemma TwoAndHole(column: string, w: string, hole: Piece, params: map<string, string>)
    requires OneWord(column) && OneWord(w) && hole.Hole? && IsAlias(hole.key) && Stored([hole], params)
    ensures Words(column + (" " + w + " ") + (":" + hole.key)) == [column, w, ":" + hole.key]
    ensures Held(params, ":" + hole.key) == Some(hole.value)
  {
    hide Words, OneWord, IsAlias;
    var key := ":" + hole.key;
    KeyIsWord(hole.key);
    WordIs(key);
    WordThen(w, key);
    WordThen(column, w + " " + key);
    assert column + (" " + w + " ") + key == column + " " + (w + " " + key);
    assert [column] + ([w] + [key]) == [column, w, key];
    assert [hole][0] == hole && key[1..] == hole.key;
  }

  lemma ShapeOfTwo(ps: seq<Piece>, lit: string, v: string)
    requires Blank(ps) == [Lit(lit), Hole("", v)]
    ensures |ps| == 2 && ps[0] == Lit(lit) && ps[1].Hole? && ps[1].value == v
  {
    assert Blank(ps)[0] == Lit(lit) && Blank(ps)[1] == Hole("", v);
  }

  /** A comparison or a pattern: the column, the operator's word, and the parameter. */
  lemma SimpleReads(ps: seq<Piece>, column: string, w: string, v: string, params: map<string, string>)
    requires OneWord(column) && OneWord(w) && Blank(ps) == [Lit(column + (" " + w + " ")), Hole("", v)]
    requires AliasHoles(ps) && Stored(ps, params)
    ensures exists k :: Words(RenderPieces(ps)) == [column, w, ":" + k] && Held(params, ":" + k) == Some(v)
  {
    hide Words, OneWord, IsAlias;
    ShapeOfTwo(ps, column + (" " + w + " "), v);
    var hole := ps[1];
    assert Stored([hole], params) by { assert [hole][0] == ps[1]; }
    TwoAndHole(column, w, hole, params);
    assert ps == [ps[0], hole];
    OneHole(ps[0].text, hole);
  }

  lemma SimpleClause(params: map<string, string>, column: string, w: string, k: string, v: string)
    requires Held(params, ":" + k) == Some(v)
    ensures RelOf(w).Some? ==>
      ReadClause(params, [column, w, ":" + k]) == Read(Compare(column, RelOf(w).value, v), [])
    ensures w == "LIKE" ==> ReadClause(params, [column, w, ":" + k]) == Read(Matches(column, v), [])
  {
    hide Held;
    var ws := [column, w, ":" + k];
    assert ws[3..] == [] && ws[1] == w && ws[2] == ":" + k;
  }

  lemma CompareReads(f: FilterConfig, o: Operator, ps: seq<Piece>, params: map<string, string>)
    requires o.op in COMPARISONS && SafeIdent(f.column) && Blank(ps) == ClausePieces(f, o)
    requires AliasHoles(ps) && Stored(ps, params)
    ensures ReadClause(params, Words(RenderPieces(ps))) == Read(CondOf(f.column, o), [])
  {
    hide Words, OneWord, SafeIdent, AliasHoles, Stored, Blank, RenderPieces, Held, ReadClause;
    ColumnIsWord(f.column);
    KeywordsAreWords();
    var w := Symbol(o.op);
    SymbolWritten(o.op);
    SimpleReads(ps, f.column, w, o.raw, params);
    var k :| Words(RenderPieces(ps)) == [f.column, w, ":" + k] && Held(params, ":" + k) == Some(o.raw);
    SimpleClause(params, f.column, w, k, o.raw);
  }

  function Symbol(op: string): string {
    match op
    case "eq" => "="
    case "neq" => "<>"
    case "gt" => ">"
    case "gte" => ">="
    case "lt" => "<"
    case _ => "<="
  }

  lemma SymbolWritten(op: string)
    requires op in COMPARISONS
    ensures COMPARISONS[op] == " " + Symbol(op) + " " && op in {"eq", "neq", "gt", "gte", "lt", "lte"}
  {
  }

  lemma LikeReads(f: FilterConfig, o: Operator, ps: seq<Piece>, params: map<string, string>)
    requires o.op == "like" && SafeIdent(f.column) && Blank(ps) == ClausePieces(f, o)
    requires AliasHoles(ps) && Stored(ps, params)
    ensures ReadClause(params, Words(RenderPieces(ps))) == Read(CondOf(f.column, o), [])
  {
    hide Words, OneWord, SafeIdent, AliasHoles, Stored, Blank, RenderPieces, Held, ReadClause;
    ColumnIsWord(f.column);
    KeywordsAreWords();
    assert " " + "LIKE" + " " == " LIKE ";
    var v := "%" + o.raw + "%";
    SimpleReads(ps, f.column, "LIKE", v, params);
    var k :| Words(RenderPieces(ps)) == [f.column, "LIKE", ":" + k] && Held(params, ":" + k) == Some(v);
    SimpleClause(params, f.column, "LIKE", k, v);
  }

  lemma ShapeOfFour(ps: seq<Piece>, a: string, v: string, b: string, w: string)
    requires Blank(ps) == [Lit(a), Hole("", v), Lit(b), Hole("", w)]
    ensures |ps| == 4 && ps[0] == Lit(a) && ps[1].Hole? && ps[1].value == v && ps[2] == Lit(b)
    ensures ps[3].Hole? && ps[3].value == w
  {
    assert Blank(ps)[0] == Lit(a) && Blank(ps)[1] == Hole("", v);
    assert Blank(ps)[2] == Lit(b) && Blank(ps)[3] == Hole("", w);
  }

  lemma BetweenWords(column: string, j: string, k: string)
    requires OneWord(column) && IsAlias(j) && IsAlias(k)
    ensures Words(column + " BETWEEN " + (":" + j) + (" AND " + (":" + k)))
        == [column, "BETWEEN", ":" + j, "AND", ":" + k]
  {
    hide Words, OneWord, IsAlias;
    KeywordsAreWords();
    KeyIsWord(j);
    KeyIsWord(k);
    var a, b := ":" + j, ":" + k;
    WordIs(b);
    WordThen("AND", b);
    WordThen(a, "AND" + " " + b);
    WordThen("BETWEEN", a + " " + ("AND" + " " + b));
    WordThen(column, "BETWEEN" + " " + (a + " " + ("AND" + " " + b)));
    BetweenText(column, a, b);
    assert [column] + (["BETWEEN"] + ([a] + (["AND"] + [b]))) == [column, "BETWEEN", a, "AND", b];
  }

  lemma BetweenText(column: string, a: string, b: string)
    ensures column + " BETWEEN " + a + (" AND " + b)
        == column + " " + ("BETWEEN" + " " + (a + " " + ("AND" + " " + b)))
  {
    assert " AND " + b == " " + ("AND" + " " + b);
    assert " BETWEEN " + a == " " + ("BETWEEN" + " " + a);
  }

  lemma BetweenReads(f: FilterConfig, o: Operator, ps: seq<Piece>, params: map<string, string>)
    requires o.op == "between" && ClauseOk(o) && SafeIdent(f.column) && Blank(ps) == ClausePieces(f, o)
    requires AliasHoles(ps) && Stored(ps, params)
    ensures ReadClause(params, Words(RenderPieces(ps))) == Read(CondOf(f.column, o), [])
  {
    hide Words, OneWord, SafeIdent, SplitCSV, RenderPieces, IsAlias;
    var parts := SplitCSV(o.raw);
    ShapeOfFour(ps, f.column + " BETWEEN ", parts[0], " AND ", parts[1]);
    var g, h := ps[1], ps[3];
    var left, right := [ps[0], g], [ps[2], h];
    assert ps == left + right;
    OneHole(ps[0].text, g);
    OneHole(ps[2].text, h);
    PiecesConcat(left, right);
    ColumnIsWord(f.column);
    BetweenWords(f.column, g.key, h.key);
    assert (":" + g.key)[1..] == g.key && (":" + h.key)[1..] == h.key;
    hide Blank, AliasHoles, Stored;
    WithinRead(params, f.column, g.key, parts[0], h.key, parts[1]);
  }

  lemma WithinRead(params: map<string, string>, column: string, j: string, lo: string, k: string, hi: string)
    requires Held(params, ":" + j) == Some(lo) && Held(params, ":" + k) == Some(hi)
    ensures ReadClause(params, [column, "BETWEEN", ":" + j, "AND", ":" + k]) == Read(Within(column, lo, hi), [])
  {
    hide Held;
    var ws := [column, "BETWEEN", ":" + j, "AND", ":" + k];
    assert ws[5..] == [] && ws[2] == ":" + j && ws[4] == ":" + k;
  }

  lemma NullWords(column: string)
    requires OneWord(column)
    ensures Words(column + " IS NULL") == [column, "IS", "NULL"]
    ensures Words(column + " IS NOT NULL") == [column, "IS", "NOT", "NULL"]
  {
    hide Words, OneWord;
    KeywordsAreWords();
    WordIs("NULL");
    WordThen("IS", "NULL");
    WordThen("NOT", "NULL");
    WordThen("IS", "NOT" + " " + "NULL");
    WordThen(column, "IS" + " " + "NULL");
    WordThen(column, "IS" + " " + ("NOT" + " " + "NULL"));
    assert column + " IS NULL" == column + " " + ("IS" + " " + "NULL");
    assert column + " IS NOT NULL" == column + " " + ("IS" + " " + ("NOT" + " " + "NULL"));
    assert [column] + (["IS"] + ["NULL"]) == [column, "IS", "NULL"];
    assert [column] + (["IS"] + (["NOT"] + ["NULL"])) == [column, "IS", "NOT", "NULL"];
  }

  lemma NullReads(f: FilterConfig, o: Operator, ps: seq<Piece>, params: map<string, string>)
    requires o.op == "isnull" && SafeIdent(f.column) && Blank(ps) == ClausePieces(f, o)
    ensures ReadClause(params, Words(RenderPieces(ps))) == Read(CondOf(f.column, o), [])
  {
    hide Words, OneWord, SafeIdent, RenderPieces, Lower, TrimSpace;
    assert |ps| == 1 && Blank(ps)[0] == ps[0] && ps == [ps[0]];
    PieceUnit(ps[0]);
    ColumnIsWord(f.column);
    NullWords(f.column);
    assert [f.column, "IS", "NULL"][3..] == [] && [f.column, "IS", "NOT", "NULL"][4..] == [];
    assert "NULL" != "NOT" by { assert |"NULL"| == 4 && |"NOT"| == 3; }
  }

  // ---- Lists of parameters ----

  function Commas(keys: seq<string>): seq<string>
    requires keys != []
  {
    if |keys| == 1 then [":" + keys[0]] else [":" + keys[0], ","] + Commas(keys[1..])
  }

  lemma {:induction false} CommasSnoc(keys: seq<string>, k: string)
    requires keys != []
    ensures Commas(keys + [k]) == Commas(keys) + [",", ":" + k]
  {
    var all := keys + [k];
    assert all[0] == keys[0] && all[1..] == keys[1..] + [k];
    if |keys| == 1 {
      assert all[1..] == [k];
    } else {
      CommasSnoc(keys[1..], k);
    }
  }

  /** The words of a list of holes. */
  lemma {:induction false} HolderWords(hs: seq<Piece>, values: seq<string>)
    requires values != [] && Blank(hs) == HolderPieces(values) && AliasHoles(hs)
    ensures HoleKeys(hs) != [] && Words(RenderPieces(hs)) == Commas(HoleKeys(hs)) && HoleValues(hs) == values
    decreases |values|
  {
    hide Words, RenderPieces, HoleKeys, HoleValues, IsAlias;
    var n := |values| - 1;
    if n == 0 {
      assert Blank(hs)[0] == Hole("", values[0]) && hs == [hs[0]];
      PieceUnit(hs[0]);
      assert IsAlias(hs[0].key);
      KeyIsWord(hs[0].key);
      WordIs(":" + hs[0].key);
    } else {
      var m := |hs| - 2;
      var front, more := HolderPieces(values[..n]), [Lit(", "), Hole("", values[n])];
      BlankSplit(hs, front, more);
      var a, b := hs[..m], hs[m..];
      ShapeOfTwo(b, ", ", values[n]);
      var h := b[1];
      assert b == [Lit(", "), h] && IsAlias(h.key) && AliasHoles(a) by { AliasConcat(a, b); assert hs == a + b; }
      HolderWords(a, values[..n]);
      NextHolder(a, h);
      assert values == values[..n] + [values[n]];
    }
  }

  lemma NextHolder(a: seq<Piece>, h: Piece)
    requires h.Hole? && IsAlias(h.key) && HoleKeys(a) != [] && Words(RenderPieces(a)) == Commas(HoleKeys(a))
    ensures var hs := a + [Lit(", "), h];
      && HoleKeys(hs) == HoleKeys(a) + [h.key] && HoleValues(hs) == HoleValues(a) + [h.value]
      && Words(RenderPieces(hs)) == Commas(HoleKeys(hs))
  {
    hide Words, RenderPieces, HoleKeys, HoleValues, IsAlias, Commas, OneWord;
    OneHole(", ", h);
    PiecesConcat(a, [Lit(", "), h]);
    KeysConcat(a, [Lit(", "), h]);
    CommasSnoc(HoleKeys(a), h.key);
    var t, key := RenderPieces(a), ":" + h.key;
    KeyIsWord(h.key);
    WordIs(key);
    WordsSplit(t, ',', " " + key);
    WordsMark(' ', key);
    assert t + (", " + key) == t + "," + (" " + key) && Mark(' ') + [key] == [key];
    assert Words(t) + [","] + [key] == Words(t) + [",", key];
  }

  lemma BlankSplit(ps: seq<Piece>, a: seq<Piece>, b: seq<Piece>)
    requires Blank(ps) == a + b
    ensures |ps| == |a| + |b| && Blank(ps[..|a|]) == a && Blank(ps[|a|..]) == b && ps == ps[..|a|] + ps[|a|..]
  {
    assert |ps| == |a + b|;
    var x, y := ps[..|a|], ps[|a|..];
    assert ps == x + y;
    BlankConcat(x, y);
    assert (Blank(x) + Blank(y))[..|a|] == Blank(x) && (Blank(x) + Blank(y))[|a|..] == Blank(y);
    assert (a + b)[..|a|] == a && (a + b)[|a|..] == b;
  }

  lemma {:induction false} ListReads(params: map<string, string>, keys: seq<string>, values: seq<string>)
    requires |keys| == |values| > 0 && forall i | 0 <= i < |keys| :: Held(params, ":" + keys[i]) == Some(values[i])
    ensures ReadList(params, Commas(keys) + [")"]) == Read(values, [])
  {
    hide Held;
    var ws := Commas(keys) + [")"];
    assert Held(params, ":" + keys[0]) == Some(values[0]);
    if |keys| == 1 {
      assert ws == [":" + keys[0], ")"] && ws[2..] == [] && values == [values[0]];
    } else {
      assert ws[0] == ":" + keys[0] && ws[1] == "," && ws[2..] == Commas(keys[1..]) + [")"];
      ListReads(params, keys[1..], values[1..]);
      assert values == [values[0]] + values[1..];
    }
  }

  lemma {:induction false} StoredHeld(ps: seq<Piece>, params: map<string, string>)
    requires Stored(ps, params)
    ensures |HoleKeys(ps)| == |HoleValues(ps)|
    ensures forall i | 0 <= i < |HoleKeys(ps)| :: Held(params, ":" + HoleKeys(ps)[i]) == Some(HoleValues(ps)[i])
  {
    if ps != [] {
      assert Stored(ps[1..], params);
      StoredHeld(ps[1..], params);
      if ps[0].Hole? { assert (":" + ps[0].key)[1..] == ps[0].key; }
    }
  }

  lemma InWords(column: string, list: string)
    requires OneWord(column)
    ensures Words(column + " IN (" + list + ")") == [column, "IN", "("] + (Words(list) + [")"])
  {
    hide Words, OneWord;
    KeywordsAreWords();
    WordsSplit(list, ')', "");
    NoWords();
    var closed := list + ")";
    assert list + ")" + "" == closed && Words(list) + [")"] + [] == Words(list) + [")"];
    WordsMark('(', closed);
    var open := "(" + closed;
    WordThen("IN", open);
    WordThen(column, "IN" + " " + open);
    assert column + " IN (" + list + ")" == column + " " + ("IN" + " " + open) by {
      assert " IN (" == " " + ("IN" + " " + "(");
    }
    assert [column] + (["IN"] + (["("] + Words(closed))) == [column, "IN", "("] + Words(closed);
  }

  lemma InReads(f: FilterConfig, o: Operator, ps: seq<Piece>, params: map<string, string>)
    requires o.op == "in" && ClauseOk(o) && SafeIdent(f.column) && Blank(ps) == ClausePieces(f, o)
    requires AliasHoles(ps) && Stored(ps, params)
    ensures ReadClause(params, Words(RenderPieces(ps))) == Read(CondOf(f.column, o), [])
  {
    hide Words, OneWord, SafeIdent, SplitCSV, RenderPieces, HoleKeys, HoleValues, IsAlias, HolderPieces, Commas;
    var values := SplitCSV(o.raw);
    var l, mid, r := Lit(f.column + " IN ("), HolderPieces(values), Lit(")");
    BlankSplit(ps, [l] + mid, [r]);
    var front := ps[..|ps| - 1];
    BlankSplit(front, [l], mid);
    var hs := front[1..];
    assert ps[0] == l by { assert Blank(ps)[0] == l; }
    assert ps[|ps| - 1] == r by { assert Blank(ps)[|ps| - 1] == r; }
    assert ps == [l] + hs + [r];
    InPieces(l, hs, r);
    AliasConcat([l], hs);
    AliasConcat([l] + hs, [r]);
    StoredPart([l], hs, [r], params);
    hide Blank, AliasHoles, Stored;
    HolderWords(hs, values);
    StoredHeld(hs, params);
    ColumnIsWord(f.column);
    InWords(f.column, RenderPieces(hs));
    ListReads(params, HoleKeys(hs), values);
    OneOfRead(params, f.column, Commas(HoleKeys(hs)) + [")"], values);
  }

  lemma StoredPart(a: seq<Piece>, b: seq<Piece>, c: seq<Piece>, params: map<string, string>)
    requires Stored(a + b + c, params)
    ensures Stored(a, params) && Stored(b, params) && Stored(c, params)
  {
    var s := a + b + c;
    assert forall i | 0 <= i < |a| :: s[i] == a[i];
    assert forall i | 0 <= i < |b| :: s[|a| + i] == b[i];
    assert forall i | 0 <= i < |c| :: s[|a| + |b| + i] == c[i];
  }

  lemma InPieces(l: Piece, hs: seq<Piece>, r: Piece)
    requires l.Lit? && r.Lit?
    ensures RenderPieces([l] + hs + [r]) == l.text + RenderPieces(hs) + r.text
  {
    hide RenderPieces;
    PieceUnit(l);
    PieceUnit(r);
    PiecesConcat([l], hs);
    PiecesConcat([l] + hs, [r]);
  }

  lemma OneOfRead(params: map<string, string>, column: string, ws: seq<string>, values: seq<string>)
    requires ReadList(params, ws) == Read(values, [])
    ensures ReadClause(params, [column, "IN", "("] + ws) == Read(OneOf(column, values), [])
  {
    hide ReadList;
    var all := [column, "IN", "("] + ws;
    assert all[3..] == ws && all[1] == "IN" && all[2] == "(";
  }

  /** Every clause is read as the condition its operator stands for. */
  lemma ClauseReads(f: FilterConfig, o: Operator, ps: seq<Piece>, params: map<string, string>)
    requires ClauseOk(o) && SafeIdent(f.column) && Blank(ps) == ClausePieces(f, o)
    requires AliasHoles(ps) && Stored(ps, params)
    ensures ReadClause(params, Words(RenderPieces(ps))) == Read(CondOf(f.column, o), [])
  {
    hide Words, SafeIdent, SplitCSV, RenderPieces, AliasHoles, Stored, Blank, ClausePieces, ReadClause, CondOf;
    match o.op {
      case "like" => LikeReads(f, o, ps, params);
      case "between" => BetweenReads(f, o, ps, params);
      case "in" => InReads(f, o, ps, params);
      case "isnull" => NullReads(f, o, ps, params);
      case _ => CompareReads(f, o, ps, params);
    }
  }

  // ---- Reading the WHERE back ----

  lemma {:induction false} ListReadsOn(params: map<string, string>, ws: seq<string>, more: seq<string>)
    requires ReadList(params, ws).Read?
    ensures var r := ReadList(params, ws); ReadList(params, ws + more) == Read(r.value, r.rest + more)
    decreases |ws|
  {
    hide Held;
    var all := ws + more;
    assert all[0] == ws[0] && all[1] == ws[1] && all[2..] == ws[2..] + more;
    if ws[1] != ")" { ListReadsOn(params, ws[2..], more); }
  }

  /** What follows a clause does not change how it is read. */
  lemma ReadsOn(params: map<string, string>, ws: seq<string>, more: seq<string>)
    requires ReadClause(params, ws).Read?
    ensures var r := ReadClause(params, ws); ReadClause(params, ws + more) == Read(r.value, r.rest + more)
  {
    hide Held, ReadList, RelOf;
    var all := ws + more;
    assert forall i | 0 <= i < |ws| :: all[i] == ws[i];
    assert all[3..] == ws[3..] + more;
    if |ws| > 3 { assert all[4..] == ws[4..] + more; }
    if |ws| > 4 { assert all[5..] == ws[5..] + more; }
    if ws[1] == "IN" && ws[2] == "(" { ListReadsOn(params, ws[3..], more); }
  }

  lemma {:induction false} ReadWhereSnoc(params: map<string, string>, ws: seq<string>, vs: seq<string>, c: Cond)
    requires ReadWhere(params, ws).Some? && ReadClause(params, vs) == Read(c, [])
    ensures ReadWhere(params, ws + (["AND"] + vs)) == Some(ReadWhere(params, ws).value + [c])
    decreases |ws|
  {
    hide ReadClause;
    var more := ["AND"] + vs;
    var r := ReadClause(params, ws);
    ReadsOn(params, ws, more);
    assert more[1..] == vs && ReadWhere(params, vs) == Some([c]);
    if r.rest == [] {
      assert r.rest + more == more;
    } else {
      assert (r.rest + more)[0] == r.rest[0] && (r.rest + more)[1..] == r.rest[1..] + more;
      ReadWhereSnoc(params, r.rest[1..], vs, c);
      var cs := ReadWhere(params, r.rest[1..]).value;
      assert [r.value] + (cs + [c]) == [r.value] + cs + [c];
    }
  }

  /** The conditions a request stands for, in filter order. */
  function CondsOf(fs: seq<FilterConfig>, query: Query): seq<Cond>
    requires FiltersOk(fs, query)
  {
    if fs == [] then []
    else
      var f := fs[|fs| - 1];
      assert f in fs;
      CondsOf(fs[..|fs| - 1], query)
      + match FirstValue(query, f.name) case None => [] case Some(v) => [CondOf(f.column, OperatorOf(v))]
  }

  ghost predicate WhereSpells(params: map<string, string>, wps: seq<Piece>, cs: seq<Cond>) {
    if wps == [] then cs == [] else ReadWhere(params, Words(RenderPieces(wps))) == Some(cs)
  }

  /** The WHERE is read as the conditions of the filters that the request gives a value. */
  lemma {:induction false} WhereReads(fs: seq<FilterConfig>, query: Query, wps: seq<Piece>, params: map<string, string>)
    requires FiltersOk(fs, query) && SafeColumns(fs) && Blank(wps) == WherePieces(fs, query)
    requires AliasHoles(wps) && Stored(wps, params)
    ensures WhereSpells(params, wps, CondsOf(fs, query))
  {
    hide WhereSpells, FirstValue, OperatorOf, ClauseOk, CondOf, ClausePieces, SafeIdent, AliasHoles, Stored;
    if fs == [] {
      NothingSpelled(params);
    } else {
      var front, f := fs[..|fs| - 1], fs[|fs| - 1];
      assert f in fs && forall g | g in front :: g in fs;
      assert FilterOk(f, query);
      match FirstValue(query, f.name) {
        case None =>
          WhereReads(front, query, wps, params);
          assert CondsOf(front, query) + [] == CondsOf(front, query);
        case Some(v) =>
          var o := OperatorOf(v);
          var wp, cp := WherePieces(front, query), ClausePieces(f, o);
          var a, cps := SplitAnd(wps, wp, cp, params);
          WhereReads(front, query, a, params);
          ClauseReads(f, o, cps, params);
          SpellsNext(params, a, cps, CondsOf(front, query), CondOf(f.column, o));
      }
    }
  }

  lemma NothingSpelled(params: map<string, string>) ensures WhereSpells(params, [], []) {}

  lemma SplitAnd(ps: seq<Piece>, wp: seq<Piece>, cp: seq<Piece>, params: map<string, string>)
    returns (a: seq<Piece>, cps: seq<Piece>)
    requires Blank(ps) == AndThen(wp, cp) && AliasHoles(ps) && Stored(ps, params)
    ensures Blank(a) == wp && Blank(cps) == cp && ps == AndThen(a, cps)
    ensures AliasHoles(a) && AliasHoles(cps) && Stored(a, params) && Stored(cps, params)
  {
    hide IsAlias;
    if wp == [] {
      a, cps := [], ps;
    } else {
      BlankSplit(ps, wp + [Lit(" AND ")], cp);
      var front := ps[..|wp| + 1];
      cps := ps[|wp| + 1..];
      BlankSplit(front, wp, [Lit(" AND ")]);
      a := front[..|wp|];
      var sep := front[|wp|..];
      assert sep == [Lit(" AND ")] by { assert Blank(sep)[0] == Lit(" AND "); }
      AliasConcat(front, cps);
      AliasConcat(a, sep);
      StoredPart(a, sep, cps, params);
      assert |a| == |Blank(a)|;
    }
  }

  lemma AndWords(s: string, t: string)
    ensures Words(s + " AND " + t) == Words(s) + (["AND"] + Words(t))
  {
    hide Words, OneWord;
    KeywordsAreWords();
    WordThen("AND", t);
    WordsSplit(s, ' ', "AND" + " " + t);
    assert s + " AND " + t == s + " " + ("AND" + " " + t);
    assert Words(s) + [] + (["AND"] + Words(t)) == Words(s) + (["AND"] + Words(t));
  }

  lemma SpellsNext(params: map<string, string>, a: seq<Piece>, cps: seq<Piece>, cs: seq<Cond>, c: Cond)
    requires WhereSpells(params, a, cs) && ReadClause(params, Words(RenderPieces(cps))) == Read(c, [])
    ensures WhereSpells(params, AndThen(a, cps), cs + [c])
  {
    hide ReadClause, RenderPieces, Words;
    var ws := Words(RenderPieces(cps));
    assert ReadWhere(params, ws) == Some([c]);
    if a == [] {
      assert cs + [c] == [c];
      assert cps != [] by { if cps == [] { NothingRead(params); } }
    } else {
      AndRendered(a, cps);
      AndWords(RenderPieces(a), RenderPieces(cps));
      ReadWhereSnoc(params, Words(RenderPieces(a)), ws, c);
    }
  }

  lemma NothingRead(params: map<string, string>)
    ensures ReadClause(params, Words(RenderPieces([]))).Misread?
  {
  }

  lemma AndRendered(a: seq<Piece>, cps: seq<Piece>)
    requires a != []
    ensures RenderPieces(AndThen(a, cps)) == RenderPieces(a) + " AND " + RenderPieces(cps)
  {
    hide RenderPieces;
    PieceUnit(Lit(" AND "));
    PiecesConcat(a, [Lit(" AND ")]);
    PiecesConcat(a + [Lit(" AND ")], cps);
  }

  /** A row, as the value of each column. */
  type Row = string -> Option<string>

  predicate Passes(e: Engine, cs: seq<Cond>, row: Row) { forall c | c in cs :: Holds(e, c, row(c.column)) }

  /** The row has what the request asks of this filter, if it asks for anything. */
  predicate Asked(e: Engine, f: FilterConfig, query: Query, row: Row) {
    f.name in query && query[f.name] != [] && query[f.name][0] != "" ==>
      Wants(e, OperatorOf(query[f.name][0]), row(f.column))
  }

  /** A row passes the conditions if and only if it has what the request asks of every filter. */
  lemma {:induction false} RowsAsked(e: Engine, fs: seq<FilterConfig>, query: Query, row: Row)
    requires FiltersOk(fs, query)
    ensures Passes(e, CondsOf(fs, query), row) <==> forall f | f in fs :: Asked(e, f, query, row)
  {
    hide OperatorOf, ClauseOk, CondOf, Holds, Wants;
    if fs != [] {
      var front, f := fs[..|fs| - 1], fs[|fs| - 1];
      assert fs == front + [f] && f in fs && forall g | g in front :: g in fs;
      assert FilterOk(f, query);
      RowsAsked(e, front, query, row);
      var cs := CondsOf(front, query);
      match FirstValue(query, f.name) {
        case None => assert cs + [] == cs;
        case Some(v) =>
          var c := CondOf(f.column, OperatorOf(v));
          CondColumn(f.column, OperatorOf(v));
          CondMeans(e, f.column, OperatorOf(v), row(f.column));
          assert forall x :: x in cs + [c] <==> x in cs || x == c;
      }
    }
  }

  lemma CondColumn(column: string, o: Operator)
    requires ClauseOk(o)
    ensures CondOf(column, o).column == column
  {
  }
}
