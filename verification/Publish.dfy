/** Publish validation (internal/gateway/validate.go), parameter resolution
    (internal/gateway/params.go) and the promise that joins them to the binder: a
    published template never runs into a parameter without a value. */
module Publish {
  import opened Options
  import opened Strings
  import opened SqlLexer
  import opened Scanners
  import opened QueryBuilder
  import opened Whitespace

  datatype Source = FromPath | FromQuery | FromBody | FromElsewhere

  datatype ApiParameter = ApiParameter(name: string, source: Source, paramType: string, required: bool,
                                       default: Option<string>, maxLength: Option<int>, rule: Option<string>)

  /** What `response_mapping` holds: no builder, an unreadable one, or a configuration. */
  datatype Mapping = NoBuilder | Unreadable | Builder(config: Config)

  datatype ApiDefinition = ApiDefinition(verb: string, dialect: Dialect, template: string, mapping: Mapping,
                                         isWrite: bool, defaultLimit: int)

  datatype Reason = BadBuilder | NoLimit | EmptyTemplate | SideEffects | ManyStatements | Undeclared | Unused | BadRule

  datatype Verdict = Accepted | Rejected(reason: Reason) | NeverReturns

  /** The parts the model leaves abstract: the write-keyword regexp, regexp compilation and
      matching, and the typed parsing of a raw value. */
  datatype Env<!V> = Env(isWriteSql: string -> bool, compiles: string -> bool, matches: (string, string) -> bool,
                         coerce: (ApiParameter, string) -> Option<V>)

  predicate IsRead(verb: string) { Upper(TrimSpace(verb)) in {"GET", "QUERY"} }

  // ---- ValidateForPublish ----

  function Names(params: seq<ApiParameter>): set<string> { set p | p in params :: p.name }

  predicate RuleOk<V>(env: Env<V>, p: ApiParameter) {
    p.rule.None? || p.rule.value == "" || env.compiles(p.rule.value)
  }

  /** No statement separator is left once the literals, the comments and the trailing
      semicolons are taken away. */
  predicate SingleStatement(q: string, d: Dialect)
  {
    var sc := Lex(StripRules(d), TrimSemicolons(q));
    sc.rest == [] && ';' !in Stripped(sc.toks)
  }

  /** What acceptance of a hand-written template means. */
  ghost predicate TemplateOk<V>(env: Env<V>, api: ApiDefinition, params: seq<ApiParameter>)
  {
    var q := TrimSpace(api.template);
    var stripped, extracted := Lex(StripRules(api.dialect), q), Lex(ExtractRules(api.dialect), q);
    && q != ""
    && (IsRead(api.verb) || !api.isWrite ==> stripped.rest == [] && !env.isWriteSql(Stripped(stripped.toks)))
    && SingleStatement(q, api.dialect)
    && extracted.rest == []
    && (forall x :: x in ParamNames(extracted.toks) <==> x in Names(params))
    && api.defaultLimit > 0
    && forall p | p in params && p.rule.Some? && p.rule.value != "" :: env.compiles(p.rule.value)
  }

  ghost predicate Publishable<V>(env: Env<V>, api: ApiDefinition, params: seq<ApiParameter>)
  {
    match api.mapping
    case Unreadable => false
    case Builder(c) => Valid(c) && api.defaultLimit > 0
    case NoBuilder => TemplateOk(env, api, params)
  }

  /** Validation hangs: the first scan that the checks come to and that gets stuck. */
  ghost predicate Hangs<V>(env: Env<V>, api: ApiDefinition) {
    var q, strip := TrimSpace(api.template), StripRules(api.dialect);
    var stripped, single := Lex(strip, q), Lex(strip, TrimSemicolons(q));
    var screened := IsRead(api.verb) || !api.isWrite;
    && api.mapping.NoBuilder? && q != ""
    && (if screened && stripped.rest != [] then true
        else if screened && env.isWriteSql(Stripped(stripped.toks)) then false
        else if single.rest != [] then true
        else if ';' in Stripped(single.toks) then false
        else Lex(ExtractRules(api.dialect), q).rest != [])
  }

  method HasMultipleStatements(q: string, d: Dialect) returns (o: Outcome<bool>)
    ensures o.Spinning? <==> Lex(StripRules(d), TrimSemicolons(TrimSpace(q))).rest != []
    ensures o.Finished? ==> (o.value <==> !SingleStatement(TrimSpace(q), d))
  {
    var trimmed := TrimSemicolons(TrimSpace(q));
    var stripped := StripDialect(trimmed, d);
    match stripped {
      case Spinning => o := Spinning;
      case Finished(text) => o := Finished(';' in text);
    }
  }

  lemma {:induction false} TrimRightIdem(s: string)
    ensures TrimRight(TrimRight(s)) == TrimRight(s)
  {
    if s != [] && IsSpace(s[|s| - 1]) { TrimRightIdem(s[..|s| - 1]); }
  }

  lemma {:induction false} TrimRightHead(s: string)
    ensures s != [] && !IsSpace(s[0]) ==> TrimRight(s) != [] && TrimRight(s)[0] == s[0]
  {
    if |s| > 1 && IsSpace(s[|s| - 1]) { TrimRightHead(s[..|s| - 1]); }
  }

  lemma TrimIdem(s: string)
    ensures TrimSpace(TrimSpace(s)) == TrimSpace(s)
  {
    var pre := TrimLeftSplits(s);
    TrimRightHead(TrimLeft(s));
    TrimRightIdem(TrimLeft(s));
  }

  /** Every name used is declared, and every name declared is used. */
  method CompareNames(params: seq<ApiParameter>, used: seq<string>) returns (reason: Option<Reason>)
    ensures reason.None? <==> forall x :: x in used <==> x in Names(params)
    ensures reason.Some? ==> reason.value == if exists x | x in used :: x !in Names(params) then Undeclared else Unused
  {
    var declared: set<string> := {};
    for i := 0 to |params|
      invariant declared == Names(params[..i])
    {
      assert params[..i + 1] == params[..i] + [params[i]];
      declared := declared + {params[i].name};
    }
    assert params[..|params|] == params;
    for i := 0 to |used|
      invariant forall k | 0 <= k < i :: used[k] in declared
    {
      if used[i] !in declared {
        assert used[i] in used;
        return Some(Undeclared);
      }
    }
    if exists name | name in declared :: name !in used { return Some(Unused); }
    return None;
  }

  method ValidateParameterRegexes<V>(env: Env<V>, params: seq<ApiParameter>) returns (ok: bool)
    ensures ok <==> forall p | p in params :: RuleOk(env, p)
  {
    for i := 0 to |params|
      invariant forall k | 0 <= k < i :: RuleOk(env, params[k])
    {
      if !RuleOk(env, params[i]) {
        assert params[i] in params;
        return false;
      }
    }
    return true;
  }

  method ValidateForPublish<V>(env: Env<V>, api: ApiDefinition, params: seq<ApiParameter>) returns (v: Verdict)
    ensures v.Accepted? <==> Publishable(env, api, params)
    ensures v.NeverReturns? <==> Hangs(env, api)
  {
    hide Lex, ParamNames, Stripped, Valid, TrimSpace, TrimSemicolons, IsRead, Names;
    if api.mapping.Unreadable? { return Rejected(BadBuilder); }
    if api.mapping.Builder? {
      if !Valid(api.mapping.config) { return Rejected(BadBuilder); }
      if api.defaultLimit <= 0 { return Rejected(NoLimit); }
      return Accepted;
    }
    var q, d := TrimSpace(api.template), api.dialect;
    if q == "" { return Rejected(EmptyTemplate); }
    if IsRead(api.verb) || !api.isWrite {
      var stripped := StripDialect(q, d);
      if stripped.Spinning? { return NeverReturns; }
      if env.isWriteSql(stripped.value) { return Rejected(SideEffects); }
    }
    var many := HasMultipleStatements(q, d);
    TrimIdem(api.template);
    if many.Spinning? { return NeverReturns; }
    if many.value { return Rejected(ManyStatements); }

    var used := ExtractParamNamesDialect(q, d);
    if used.Spinning? { return NeverReturns; }
    var reason := CompareNames(params, used.value);
    if reason.Some? { return Rejected(reason.value); }
    if api.defaultLimit <= 0 { return Rejected(NoLimit); }
    var compiled := ValidateParameterRegexes(env, params);
    if !compiled { return Rejected(BadRule); }
    return Accepted;
  }

  /** Apart from trailing semicolons, and unless a name runs into a quote, a template passes as one
      statement exactly when the extractor scans it to its end and reads no `;` as code. */
  lemma SingleStatementIff(q: string, d: Dialect)
    requires NamesMeetNoQuote(d, TrimSemicolons(q))
    ensures var sc := Lex(ExtractRules(d), TrimSemicolons(q));
      SingleStatement(q, d) <==> sc.rest == [] && Code(';') !in sc.toks
  {
    hide Lex, NamesMeetNoQuote, Stripped, TrimSemicolons;
    var s := TrimSemicolons(q);
    StripExtractAgree(d, s);
    NamesAreNames(ExtractRules(d), s);
    SemicolonStripped(Lex(ExtractRules(d), s).toks);
  }

  /** What is bound then is one statement too: in an accepted template, apart from trailing
      semicolons, the binder reads no `;` as code. */
  lemma BindsOneStatement<V>(env: Env<V>, api: ApiDefinition, params: seq<ApiParameter>)
    requires api.mapping.NoBuilder? && Publishable(env, api, params)
    requires var s := TrimSemicolons(TrimSpace(api.template));
      NamesMeetNoQuote(api.dialect, s) && (api.dialect.Postgres? || MeetsNoDollar(BindRules(api.dialect), s))
    ensures Code(';') !in Lex(BindRules(api.dialect), TrimSemicolons(TrimSpace(api.template))).toks
  {
    hide Lex, NamesMeetNoQuote, MeetsNoDollar, TrimSemicolons, TrimSpace, SingleStatement;
    SingleStatementIff(TrimSpace(api.template), api.dialect);
    BindExtractAgree(api.dialect, TrimSemicolons(TrimSpace(api.template)));
  }

  /** Parameter names are spelled with identifier characters. */
  predicate NamesSpelled(toks: seq<Lexeme>) {
    forall l | l in toks && l.Param? :: forall c | c in l.name :: IsIdentPart(c)
  }

  lemma {:induction false} NamesAreNames(r: Rules, s: string)
    ensures NamesSpelled(Lex(r, s).toks)
    decreases |s|
  {
    if s != [] && Head(r, s).Take? {
      var h := Head(r, s);
      NamesAreNames(r, s[h.len..]);
      ScanCons(r, s);
      var toks := Lex(r, s).toks;
      assert toks == [toks[0]] + toks[1..];
    } else {
      ScanEnd(r, s);
    }
  }

  lemma {:induction false} SemicolonStripped(toks: seq<Lexeme>)
    requires NamesSpelled(toks)
    ensures ';' in Stripped(Unnamed(toks)) <==> Code(';') in toks
  {
    if toks != [] {
      assert toks == [toks[0]] + toks[1..];
      SemicolonStripped(toks[1..]);
      UnnamedCons(toks[0], toks[1..]);
      StrippedConcat(Unnamed([toks[0]]), Unnamed(toks[1..]));
      StrippedOne(toks[0]);
    }
  }

  lemma {:induction false} StrippedConcat(a: seq<Lexeme>, b: seq<Lexeme>)
    ensures Stripped(a + b) == Stripped(a) + Stripped(b)
  {
    hide Stripped;
    if a == [] {
      assert a + b == b;
      NothingStripped();
    } else {
      assert (a + b)[0] == a[0] && (a + b)[1..] == a[1..] + b;
      StrippedConcat(a[1..], b);
      StrippedNext(a);
      StrippedNext(a + b);
    }
  }

  lemma NothingStripped() ensures Stripped([]) == "" {}

  lemma StrippedNext(toks: seq<Lexeme>)
    requires toks != []
    ensures Stripped(toks) == (if toks[0].Opaque? then "" else Text(toks[0])) + Stripped(toks[1..])
  {
  }

  lemma {:induction false} StrippedSpell(name: string)
    ensures Stripped(Spell(name)) == name
  {
    if name != [] {
      assert Spell(name)[1..] == Spell(name[1..]);
      StrippedSpell(name[1..]);
    }
  }

  lemma StrippedOne(l: Lexeme)
    requires l.Param? ==> forall c | c in l.name :: IsIdentPart(c)
    ensures ';' in Stripped(Unnamed([l])) <==> l == Code(';')
  {
    assert [l][1..] == [];
    match l {
      case Code(c) => assert Stripped([l]) == [c];
      case Cast => assert [Code(':'), Code(':')][1..] == [Code(':')] && Stripped([Code(':')]) == ":";
      case Opaque(_) => assert Stripped([l]) == "";
      case Param(n) =>
        StrippedSpell(n);
        StrippedConcat([Code(':')], Spell(n));
        assert Unnamed([l]) == [Code(':')] + Spell(n);
        assert Stripped([Code(':')]) == ":";
    }
  }

  // ---- ResolveParams ----

  datatype Request = Request(path: map<string, string>, query: map<string, seq<string>>,
                             body: map<string, Option<string>>)

  /** rawValue: a body value is given by its printed form, None standing for JSON null. */
  function RawValue(p: ApiParameter, r: Request): Option<string>
  {
    match p.source
    case FromPath => if p.name in r.path then Some(r.path[p.name]) else None
    case FromQuery => if p.name in r.query && r.query[p.name] != [] then Some(r.query[p.name][0]) else None
    case FromBody => if p.name in r.body then r.body[p.name] else None
    case FromElsewhere => None
  }

  /** Bytes of the UTF-8 form, which is what `len` counts. */
  function ByteLen(s: string): nat
  {
    if s == [] then 0
    else
      var c := s[0] as int;
      (if c < 0x80 then 1 else if c < 0x800 then 2 else if c < 0x10000 then 3 else 4) + ByteLen(s[1..])
  }

  lemma {:induction false} BytesAdd(a: string, b: string)
    ensures ByteLen(a + b) == ByteLen(a) + ByteLen(b)
  {
    if a == [] {
      assert a + b == b;
    } else {
      assert (a + b)[0] == a[0] && (a + b)[1..] == a[1..] + b;
      BytesAdd(a[1..], b);
    }
  }

  /** One to four bytes: seven bits fit one byte, eleven two, sixteen three. */
  lemma BytesOf(c: char)
    ensures 1 <= ByteLen([c]) <= 4
    ensures ByteLen([c]) <= 1 <==> c as int <= 127
    ensures ByteLen([c]) <= 2 <==> c as int <= 2047
    ensures ByteLen([c]) <= 3 <==> c as int <= 65535
  {
    assert [c][1..] == [] && ByteLen([]) == 0;
  }

  datatype Resolved<V> = Absent | Given(value: V) | Refused

  /** One declared parameter: default, required, length, rule and type, in that order. */
  function ResolveOne<V>(env: Env<V>, p: ApiParameter, r: Request): Resolved<V>
  {
    var raw := RawValue(p, r);
    var text := if raw.Some? && raw.value != "" then raw else p.default;
    match text
    case None => if p.required then Refused else Absent
    case Some(t) =>
      if p.maxLength.Some? && p.maxLength.value > 0 && ByteLen(t) > p.maxLength.value then Refused
      else if p.rule.Some? && p.rule.value != "" && env.compiles(p.rule.value) && !env.matches(p.rule.value, t)
          then Refused
      else match env.coerce(p, t) case None => Refused case Some(v) => Given(v)
  }

  function ValueOf<V>(o: Resolved<V>): Option<V> { match o case Given(v) => Some(v) case _ => None }

  /** No later declaration has the same name. */
  predicate LastNamed(params: seq<ApiParameter>, i: nat)
    requires i < |params|
  {
    forall j | i < j < |params| :: params[j].name != params[i].name
  }

  /** Every declared name has a last declaration. */
  lemma {:induction false} LastDeclared(params: seq<ApiParameter>, name: string)
    requires name in Names(params)
    ensures exists i | 0 <= i < |params| :: LastNamed(params, i) && params[i].name == name
  {
    var n := |params| - 1;
    if params[n].name == name {
      assert LastNamed(params, n);
    } else {
      NamesSnoc(params);
      LastDeclared(params[..n], name);
      var i :| 0 <= i < n && LastNamed(params[..n], i) && params[..n][i].name == name;
      assert forall j | i < j < n :: params[..n][j] == params[j];
      assert LastNamed(params, i);
    }
  }

  /** What the loop has stored once it is through these parameters. */
  function Resolutions<V>(env: Env<V>, params: seq<ApiParameter>, r: Request): map<string, Option<V>> {
    if params == [] then map[]
    else
      var p := params[|params| - 1];
      Resolutions(env, params[..|params| - 1], r)[p.name := ValueOf(ResolveOne(env, p, r))]
  }

  lemma {:induction false} ResolutionsAre<V>(env: Env<V>, params: seq<ApiParameter>, r: Request)
    ensures Resolutions(env, params, r).Keys == Names(params)
    ensures forall i | 0 <= i < |params| && LastNamed(params, i) ::
      params[i].name in Names(params)
          && Resolutions(env, params, r)[params[i].name] == ValueOf(ResolveOne(env, params[i], r))
  {
    hide ResolveOne, ValueOf, Names;
    if params == [] {
      NoNames();
    } else {
      var n := |params| - 1;
      var front, p := params[..n], params[n];
      ResolutionsAre(env, front, r);
      NamesSnoc(params);
      hide Resolutions;
      ResolutionsSnoc(env, params, r);
      forall i | 0 <= i < n && LastNamed(params, i)
        ensures LastNamed(front, i) && params[i].name != p.name
      {
      }
    }
  }

  lemma NoNames() ensures Names([]) == {} {}

  lemma NamesSnoc(params: seq<ApiParameter>)
    requires params != []
    ensures Names(params) == Names(params[..|params| - 1]) + {params[|params| - 1].name}
  {
    assert params == params[..|params| - 1] + [params[|params| - 1]];
  }

  lemma ResolutionsSnoc<V>(env: Env<V>, params: seq<ApiParameter>, r: Request)
    requires params != []
    ensures var p := params[|params| - 1];
      Resolutions(env, params, r)
          == Resolutions(env, params[..|params| - 1], r)[p.name := ValueOf(ResolveOne(env, p, r))]
  {
    hide ResolveOne, ValueOf;
  }

  /** The request holds this text, which is not empty, where the parameter is declared to come from:
      the path entry, the first value of the query or the value in the body. */
  predicate Holds(p: ApiParameter, r: Request, t: string) {
    t != "" &&
    match p.source
    case FromPath => p.name in r.path && r.path[p.name] == t
    case FromQuery => p.name in r.query && r.query[p.name] != [] && r.query[p.name][0] == t
    case FromBody => p.name in r.body && r.body[p.name] == Some(t)
    case FromElsewhere => false
  }

  ghost predicate HoldsNone(p: ApiParameter, r: Request) { forall t :: !Holds(p, r, t) }

  /** The text that counts: the request's own, or else the default. */
  ghost predicate Counts(p: ApiParameter, r: Request, t: string) {
    Holds(p, r, t) || (HoldsNone(p, r) && p.default == Some(t))
  }

  /** Short enough, matched by the rule if that compiles, and of the declared type. */
  predicate Fit<V>(env: Env<V>, p: ApiParameter, t: string) {
    && (p.maxLength.Some? && p.maxLength.value > 0 ==> ByteLen(t) <= p.maxLength.value)
    && (p.rule.Some? && p.rule.value != "" && env.compiles(p.rule.value) ==> env.matches(p.rule.value, t))
    && env.coerce(p, t).Some?
  }

  /** A required parameter that has no text, or one whose text does not fit. */
  ghost predicate Unresolvable<V>(env: Env<V>, p: ApiParameter, r: Request) {
    || (p.required && p.default.None? && HoldsNone(p, r))
    || exists t :: Counts(p, r, t) && !Fit(env, p, t)
  }

  /** The text that counts, read as the declared type; nothing if there is none. */
  ghost predicate Supplies<V>(env: Env<V>, p: ApiParameter, r: Request, v: Option<V>) {
    && (forall t | Counts(p, r, t) :: v == env.coerce(p, t))
    && (HoldsNone(p, r) && p.default.None? ==> v == None)
  }

  lemma RawHolds(p: ApiParameter, r: Request)
    ensures var raw := RawValue(p, r);
      && (forall t :: Holds(p, r, t) <==> raw == Some(t) && t != "")
      && (HoldsNone(p, r) <==> raw.None? || raw.value == "")
  {
    var raw := RawValue(p, r);
    assert forall t :: Holds(p, r, t) <==> raw == Some(t) && t != "";
    if raw.Some? { assert Holds(p, r, raw.value) <==> raw.value != ""; }
  }

  lemma ResolveMeans<V>(env: Env<V>, p: ApiParameter, r: Request)
    ensures ResolveOne(env, p, r).Refused? <==> Unresolvable(env, p, r)
    ensures !ResolveOne(env, p, r).Refused? ==> Supplies(env, p, r, ValueOf(ResolveOne(env, p, r)))
  {
    RawHolds(p, r);
    hide RawValue, ByteLen, Holds, HoldsNone;
    var raw := RawValue(p, r);
    var text := if raw.Some? && raw.value != "" then raw else p.default;
    assert forall t :: Counts(p, r, t) <==> text == Some(t);
    if text.Some? { assert Counts(p, r, text.value); }
  }

  /** Every declared name gets what its last declaration supplies: a text that the request holds
      before the default, None for an absent optional one. The request is refused exactly when some
      declared parameter cannot be resolved. */
  method ResolveParams<V>(env: Env<V>, params: seq<ApiParameter>, r: Request)
      returns (res: Option<map<string, Option<V>>>)
    ensures res.None? <==> exists p | p in params :: Unresolvable(env, p, r)
    ensures res.Some? ==> res.value.Keys == Names(params)
    ensures res.Some? ==> forall i | 0 <= i < |params| && LastNamed(params, i) ::
      Supplies(env, params[i], r, res.value[params[i].name])
    ensures res.Some? ==> forall name | name in res.value ::
      exists i | 0 <= i < |params| :: LastNamed(params, i) && params[i].name == name
  {
    hide ResolveOne, Unresolvable, Supplies;
    forall p ensures
      (ResolveOne(env, p, r).Refused? <==> Unresolvable(env, p, r))
      && (!ResolveOne(env, p, r).Refused? ==> Supplies(env, p, r, ValueOf(ResolveOne(env, p, r))))
    {
      ResolveMeans(env, p, r);
    }
    var out: map<string, Option<V>> := map[];
    for i := 0 to |params|
      invariant out == Resolutions(env, params[..i], r)
      invariant forall k | 0 <= k < i :: !ResolveOne(env, params[k], r).Refused?
    {
      var p := params[i];
      assert params[..i + 1][..i] == params[..i] && p in params;
      match ResolveOne(env, p, r) {
        case Refused => return None;
        case Absent => out := out[p.name := None];
        case Given(v) => out := out[p.name := Some(v)];
      }
    }
    assert params[..|params|] == params;
    ResolutionsAre(env, params, r);
    forall name | name in out ensures exists i | 0 <= i < |params| :: LastNamed(params, i) && params[i].name == name {
      LastDeclared(params, name);
    }
    return Some(out);
  }

  /** What publication checks, resolution can rely on: no rule of an accepted API is skipped because
      it does not compile, so every text that fits was matched by it. */
  lemma RulesEnforced<V>(env: Env<V>, api: ApiDefinition, params: seq<ApiParameter>, p: ApiParameter, t: string)
    requires api.mapping.NoBuilder? && Publishable(env, api, params) && p in params && Fit(env, p, t)
    ensures p.rule.Some? && p.rule.value != "" ==> env.matches(p.rule.value, t)
  {
    hide Lex, TrimSpace, SingleStatement, ParamNames, Stripped, IsRead, Names, ByteLen;
  }

  // ---- End to end ----

  /** For an accepted template and resolved values, binding under rules `b` reports a
      missing parameter exactly when `b` reads a parameter the extractor did not. */
  lemma MissingIff<V, W>(env: Env<W>, api: ApiDefinition, params: seq<ApiParameter>, values: map<string, V>,
                         b: Rules, ph: nat -> string)
    requires api.mapping.NoBuilder? && Publishable(env, api, params) && values.Keys == Names(params)
    ensures BindMeaning(b, api.template, values, ph).MissingParam? <==>
      exists x :: x in ParamNames(Lex(b, TrimSpace(api.template)).toks)
               && x !in ParamNames(Lex(ExtractRules(api.dialect), TrimSpace(api.template)).toks)
  {
    hide Lex, ParamNames, TrimSpace;
    TrimKeepsNames(b, api.template);
    var names := ParamNames(Lex(b, api.template).toks);
    var m := FirstMissing(names, values.Keys);
    if m < |names| { assert names[m] in names; }
  }

  /** Binding never ends exactly when nothing is missing before the scan gets stuck: on an opener
      that is not closed, or on a lone `q'` that only spaces follow, which validation trims away. */
  lemma SpinsIff<V, W>(env: Env<W>, api: ApiDefinition, params: seq<ApiParameter>, values: map<string, V>,
                       b: Rules, ph: nat -> string)
    requires api.mapping.NoBuilder? && Publishable(env, api, params) && values.Keys == Names(params)
    ensures var o := BindMeaning(b, api.template, values, ph);
      o.BindSpins? <==> !o.MissingParam? && (Spins(b, TrimSpace(api.template)) || SpacedQ(b, api.template))
  {
    hide Lex, TrimSpace, Publishable, SpacedQ, Spins, ParamNames;
    TrimScansIff(b, api.template);
    TerminatesIff(b, TrimSpace(api.template));
  }

  /** The promise: whenever the binder's rules read the trimmed template as the extractor did, an
      accepted template never lacks a parameter, and it is bound unless it ends in that case. */
  lemma PublishedBindsIff<V, W>(env: Env<W>, api: ApiDefinition, params: seq<ApiParameter>, values: map<string, V>,
                                b: Rules, ph: nat -> string)
    requires api.mapping.NoBuilder? && Publishable(env, api, params) && values.Keys == Names(params)
    requires NoDrift(b, ExtractRules(api.dialect), TrimSpace(api.template)) && b.named
    ensures !BindMeaning(b, api.template, values, ph).MissingParam?
    ensures BindMeaning(b, api.template, values, ph).BoundQuery? <==> !SpacedQ(b, api.template)
  {
    hide Lex, ParamNames, TrimSpace, NoDrift, BindMeaning, SingleStatement, SpacedQ, Spins;
    SameLexemesIff(b, ExtractRules(api.dialect), TrimSpace(api.template));
    MissingIff(env, api, params, values, b, ph);
    SpinsIff(env, api, params, values, b, ph);
    TerminatesIff(b, TrimSpace(api.template));
  }

  /** Binding by dialect: on Postgres every accepted template is bound; elsewhere so is every one
      without a `$` in code position, unless an Oracle template ends in a lone `q'` and spaces. */
  lemma DialectBindsIff<V, W>(env: Env<W>, api: ApiDefinition, params: seq<ApiParameter>, values: map<string, V>,
                              ph: nat -> string)
    requires api.mapping.NoBuilder? && Publishable(env, api, params) && values.Keys == Names(params)
    requires api.dialect.Postgres? || MeetsNoDollar(BindRules(api.dialect), TrimSpace(api.template))
    ensures !BindMeaning(BindRules(api.dialect), api.template, values, ph).MissingParam?
    ensures BindMeaning(BindRules(api.dialect), api.template, values, ph).BoundQuery? <==>
            !SpacedQ(BindRules(api.dialect), api.template)
  {
    hide Lex, TrimSpace, BindMeaning, Publishable, MeetsNoDollar, NoDrift, SpacedQ;
    BindExtractAgree(api.dialect, TrimSpace(api.template));
    SameLexemesIff(BindRules(api.dialect), ExtractRules(api.dialect), TrimSpace(api.template));
    PublishedBindsIff(env, api, params, values, BindRules(api.dialect), ph);
  }

  /** The connectors' plain binding always ends, and binds an accepted template if and only if it
      reads no name that extraction in the API's dialect does not. */
  lemma LiveBindsIff<V, W>(env: Env<W>, api: ApiDefinition, params: seq<ApiParameter>, values: map<string, V>,
                           ph: nat -> string)
    requires api.mapping.NoBuilder? && Publishable(env, api, params) && values.Keys == Names(params)
    ensures !BindMeaning(BindRules(Plain), api.template, values, ph).BindSpins?
    ensures BindMeaning(BindRules(Plain), api.template, values, ph).BoundQuery? <==>
      forall x :: x in ParamNames(Lex(BindRules(Plain), TrimSpace(api.template)).toks)
              ==> x in ParamNames(Lex(ExtractRules(api.dialect), TrimSpace(api.template)).toks)
  {
    hide Lex, TrimSpace, Publishable, ParamNames;
    PlainTerminates(BindRules(Plain), api.template);
    MissingIff(env, api, params, values, BindRules(Plain), ph);
  }

  /** In particular it binds every accepted template in which no dollar quote and no dialect-only
      quote opens in code position. */
  lemma LiveBindSucceeds<V, W>(env: Env<W>, api: ApiDefinition, params: seq<ApiParameter>, values: map<string, V>,
                               ph: nat -> string)
    requires api.mapping.NoBuilder? && Publishable(env, api, params) && values.Keys == Names(params)
    requires MeetsNoSpecial(BindRules(Plain), ExtractRules(api.dialect), TrimSpace(api.template))
    ensures BindMeaning(BindRules(Plain), api.template, values, ph).BoundQuery?
  {
    hide Lex, TrimSpace, Publishable, MeetsNoSpecial, ParamNames, BindMeaning;
    PlainExtractAgree(api.dialect, TrimSpace(api.template));
    LiveBindsIff(env, api, params, values, ph);
  }

  // ---- The promise fails where the readings drift apart ----

  const DOLLAR_QUOTED := "$$:x$$"

  lemma DollarQuotedLen()
    ensures DollarLen(DOLLAR_QUOTED) == 6
  {
    var s := DOLLAR_QUOTED;
    assert s[1..] == "$:x$$" && s[1..][1..] == ":x$$";
    assert TagRun(s[1..]) == 1;
    assert s[..2] == "$$" && s[2..4] == ":x" && s[3..5] == "x$" && s[4..6] == "$$";
    assert FindFrom(s, "$$", 4) == 4;
    assert FindFrom(s, "$$", 3) == 4;
    assert FindFrom(s, "$$", 2) == 4;
  }

  lemma DollarQuotedIsOpaque(r: Rules)
    requires r.dollar
    ensures Lex(r, DOLLAR_QUOTED) == Scan([Opaque(DOLLAR_QUOTED)], [])
  {
    var s := DOLLAR_QUOTED;
    DollarQuotedLen();
    hide DollarLen;
    assert s[..6] == s && s[6..] == [];
    assert Head(r, s) == Take(Opaque(s), 6);
    ScanEnd(r, []);
  }

  lemma DollarCodeHeads(r: Rules)
    requires !r.dollar && r.named
    ensures Head(r, "$$:x$$") == Take(Code('$'), 1) && Head(r, "$:x$$") == Take(Code('$'), 1)
    ensures Head(r, "$$") == Take(Code('$'), 1) && Head(r, "$") == Take(Code('$'), 1)
  {
    hide Head;
    DollarIsCode(r, "$$:x$$");
    DollarIsCode(r, "$:x$$");
    DollarIsCode(r, "$$");
    DollarIsCode(r, "$");
  }

  lemma DollarIsCode(r: Rules, s: string)
    requires !r.dollar && s != [] && s[0] == '$'
    ensures Head(r, s) == Take(Code('$'), 1)
  {
  }

  lemma DollarParamHead(r: Rules)
    requires !r.dollar && r.named
    ensures Head(r, ":x$$") == Take(Param("x"), 2)
  {
    assert ":x$$"[1..] == "x$$" && "x$$"[1..] == "$$";
    assert IdentLen("$$") == 0 && IdentLen("x$$") == 1;
    assert ":x$$"[1..2] == "x";
  }

  lemma DollarQuotedHoldsParam(r: Rules)
    requires !r.dollar && r.named
    ensures ParamNames(Lex(r, DOLLAR_QUOTED).toks) == ["x"]
  {
    DollarCodeHeads(r);
    DollarParamHead(r);
    hide Lex, Head;
    assert "$$:x$$"[1..] == "$:x$$" && "$:x$$"[1..] == ":x$$" && ":x$$"[2..] == "$$" && "$$"[1..] == "$"
        && "$"[1..] == "";
    ScanCons(r, "$$:x$$");
    ScanCons(r, "$:x$$");
    ScanCons(r, ":x$$");
    ScanCons(r, "$$");
    ScanCons(r, "$");
    ScanEnd(r, "");
    assert ParamNames(Lex(r, "$").toks) == [];
    assert ParamNames(Lex(r, "$$").toks) == [];
    assert ParamNames(Lex(r, ":x$$").toks) == ["x"];
    assert ParamNames(Lex(r, "$:x$$").toks) == ["x"];
  }

  /** A template whose only text is a dollar quote around `:x` is accepted, with no declared
      parameter, in every dialect. */
  lemma DollarQuotedAccepted<V>(env: Env<V>, d: Dialect)
    ensures Publishable(env, ApiDefinition("POST", d, DOLLAR_QUOTED, NoBuilder, true, 1), [])
  {
    var s := DOLLAR_QUOTED;
    assert TrimSpace(s) == s && TrimSemicolons(s) == s;
    PostIsWrite();
    DollarQuotedIsOpaque(StripRules(d));
    DollarQuotedIsOpaque(ExtractRules(d));
    assert [Opaque(s)][1..] == [];
  }

  /** Yet binding it fails for want of `x`: by dialect everywhere but on Postgres, and with
      the connectors' plain binder in every dialect, Postgres included. */
  lemma PromiseFails<V, W>(env: Env<W>, d: Dialect, b: Dialect, ph: nat -> string)
    requires b == Plain || (b == d && !d.Postgres?)
    ensures var api := ApiDefinition("POST", d, DOLLAR_QUOTED, NoBuilder, true, 1);
      Publishable(env, api, []) && BindMeaning<V>(BindRules(b), api.template, map[], ph) == MissingParam("x")
  {
    DollarQuotedAccepted(env, d);
    DollarQuotedHoldsParam(BindRules(b));
  }

  const SPACED_Q := "q' "

  lemma LoneQHeads(r: Rules)
    ensures Head(r, "q'") == Take(Code('q'), 1) && Head(r, "'") == Take(Opaque("'"), 1)
  {
    assert "'"[1..] == "" && "'"[..1] == "'";
  }

  lemma LoneQScans(r: Rules)
    ensures Lex(r, "q'") == Scan([Code('q'), Opaque("'")], "")
  {
    LoneQHeads(r);
    hide Lex, Head;
    assert "q'"[1..] == "'" && "'"[1..] == "";
    ScanCons(r, "q'");
    ScanCons(r, "'");
    ScanEnd(r, "");
    var toks := Lex(r, "q'").toks;
    assert toks[1..] == [Opaque("'")];
  }

  lemma LoneQReads()
    ensures ParamNames([Code('q'), Opaque("'")]) == [] && Stripped([Code('q'), Opaque("'")]) == "q"
  {
    assert [Code('q'), Opaque("'")][1..] == [Opaque("'")] && [Opaque("'")][1..] == [];
    assert ParamNames([Opaque("'")]) == [] && Stripped([Opaque("'")]) == "";
  }

  lemma SpacedQTrims()
    ensures TrimSpace(SPACED_Q) == "q'" && TrimSemicolons("q'") == "q'" && "q'" + " " == SPACED_Q
  {
    var s := SPACED_Q;
    assert s[..2] == "q'" && s[2] == ' ';
    assert TrimLeft(s) == s && TrimRight("q'") == "q'";
  }

  lemma PostIsWrite()
    ensures !IsRead("POST")
  {
    assert TrimSpace("POST") == "POST";
    assert |Upper("POST")| == 4 && Upper("POST")[0] == 'P';
  }

  /** An Oracle template that is only `q'` and a space is accepted, since validation trims it,
      and dialect binding of it never ends. */
  lemma SpacedQSpins<V, W>(env: Env<W>, ph: nat -> string)
    ensures var api := ApiDefinition("POST", Oracle, SPACED_Q, NoBuilder, true, 1);
      Publishable(env, api, []) && BindMeaning<V>(BindRules(Oracle), api.template, map[], ph) == BindSpins
  {
    hide Lex, Stripped, ParamNames, TrimSpace, TrimSemicolons, IsRead;
    SpacedQTrims();
    PostIsWrite();
    LoneQScans(StripRules(Oracle));
    LoneQScans(ExtractRules(Oracle));
    LoneQReads();
    LoneQQuote(BindRules(Oracle), " ");
  }
}
