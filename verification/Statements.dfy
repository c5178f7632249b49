/** How far the one-statement check (internal/gateway/validate.go) holds for what is bound. The check
    reads dollar quotes in every dialect and does not know `:name`; the binder reads them only for
    Postgres, and knows it. */
module Statements {
  import opened Options
  import opened Strings
  import opened SqlLexer
  import opened Publish
  import Grammar

  /** The text the check is about: the template without trailing semicolons. */
  function Statement(api: ApiDefinition): string { TrimSemicolons(TrimSpace(api.template)) }

  ghost predicate AcceptedTemplate<V>(env: Env<V>, d: Dialect, api: ApiDefinition, params: seq<ApiParameter>) {
    api.dialect == d && api.mapping.NoBuilder? && Publishable(env, api, params)
  }

  predicate OneStatement(d: Dialect, api: ApiDefinition) { Code(';') !in Lex(BindRules(d), Statement(api)).toks }

  function WriteApi(d: Dialect, s: string): ApiDefinition { ApiDefinition("POST", d, s, NoBuilder, true, 1) }

  /** A write template that needs no trimming is accepted once the scans agree to it. */
  lemma WriteAccepted<V>(env: Env<V>, d: Dialect, s: string, params: seq<ApiParameter>)
    requires s != "" && TrimSpace(s) == s && TrimSemicolons(s) == s
    requires Lex(StripRules(d), s).rest == [] && ';' !in Stripped(Lex(StripRules(d), s).toks)
    requires Lex(ExtractRules(d), s).rest == []
    requires forall x :: x in ParamNames(Lex(ExtractRules(d), s).toks) <==> x in Names(params)
    requires forall p | p in params :: RuleOk(env, p)
    ensures AcceptedTemplate(env, d, WriteApi(d, s), params) && Statement(WriteApi(d, s)) == s
  {
    PostIsWrite();
    hide Lex, TrimSpace, TrimSemicolons, IsRead, Stripped, ParamNames, Names;
  }

  lemma StripOpaque(t: string)
    ensures Stripped([Opaque(t)]) == "" && ParamNames([Opaque(t)]) == []
  {
    assert [Opaque(t)][1..] == [];
  }

  /** An accepted API that answers GET or QUERY, in any spelling, or that is not marked as a write, has
      no write statement outside its quotes and comments. */
  lemma ReadsNeverWrite<V>(env: Env<V>, api: ApiDefinition, params: seq<ApiParameter>, ts: seq<Grammar.Token>,
                           tail: Grammar.Tail)
    requires api.mapping.NoBuilder? && Publishable(env, api, params)
    requires Grammar.Written(StripRules(api.dialect), ts, tail) && TrimSpace(api.template) == Grammar.Source(ts, tail)
    requires Upper(TrimSpace(api.verb)) == "GET" || Upper(TrimSpace(api.verb)) == "QUERY" || !api.isWrite
    ensures !env.isWriteSql(Grammar.CodeOf(ts))
  {
    hide Lex, TrimSpace, Upper, Stripped, ParamNames, SingleStatement, Names, Grammar.Written, Grammar.Source,
        Grammar.CodeOf;
    Grammar.ExtractsWritten(StripRules(api.dialect), ts, tail);
  }

  // ---- A semicolon in a dollar quote ----

  const SEMICOLON_QUOTED := "$$;$$"

  lemma SemicolonQuoteLen()
    ensures DollarLen(SEMICOLON_QUOTED) == 5
  {
    var s := SEMICOLON_QUOTED;
    assert s[1..] == "$;$$" && s[1..][1..] == ";$$";
    assert TagRun(s[1..]) == 1;
    assert s[..2] == "$$" && s[2..4] == ";$" && s[3..5] == "$$";
    assert FindFrom(s, "$$", 3) == 3;
    assert FindFrom(s, "$$", 2) == 3;
  }

  lemma SemicolonIsOpaque(r: Rules)
    requires r.dollar
    ensures Lex(r, SEMICOLON_QUOTED) == Scan([Opaque(SEMICOLON_QUOTED)], [])
  {
    var s := SEMICOLON_QUOTED;
    SemicolonQuoteLen();
    hide DollarLen;
    assert s[..5] == s && s[5..] == [];
    assert Head(r, s) == Take(Opaque(s), 5);
    ScanEnd(r, []);
  }

  lemma DollarsAreCode(r: Rules, s: string)
    requires !r.dollar && s != [] && s[0] in {'$', ';'}
    ensures Head(r, s) == Take(Code(s[0]), 1)
  {
  }

  lemma SemicolonIsCode(r: Rules)
    requires !r.dollar
    ensures Code(';') in Lex(r, SEMICOLON_QUOTED).toks
  {
    DollarsAreCode(r, "$$;$$");
    DollarsAreCode(r, "$;$$");
    DollarsAreCode(r, ";$$");
    hide Lex, Head;
    assert "$$;$$"[1..] == "$;$$" && "$;$$"[1..] == ";$$";
    ScanCons(r, "$$;$$");
    ScanCons(r, "$;$$");
    ScanCons(r, ";$$");
    var toks := Lex(r, "$$;$$").toks;
    assert toks[1..][1..][0] == Code(';') && toks[2] == toks[1..][1..][0];
  }

  lemma SemicolonTrims()
    ensures TrimSpace(SEMICOLON_QUOTED) == SEMICOLON_QUOTED == TrimSemicolons(SEMICOLON_QUOTED)
  {
  }

  /** Outside Postgres the check takes `$$;$$` for one quote, and the binder for code. */
  lemma QuotedSemicolonPasses<V>(env: Env<V>, d: Dialect)
    requires !d.Postgres?
    ensures AcceptedTemplate(env, d, WriteApi(d, SEMICOLON_QUOTED), [])
    ensures !OneStatement(d, WriteApi(d, SEMICOLON_QUOTED))
  {
    hide Lex, TrimSpace, TrimSemicolons, Stripped, ParamNames, Statement, AcceptedTemplate, WriteApi;
    SemicolonTrims();
    SemicolonIsOpaque(StripRules(d));
    SemicolonIsOpaque(ExtractRules(d));
    SemicolonIsCode(BindRules(d));
    StripOpaque(SEMICOLON_QUOTED);
    WriteAccepted(env, d, SEMICOLON_QUOTED, []);
  }

  // ---- A name that runs into a quote ----

  const NAME_MEETS_QUOTE := ":q'x';x'"

  lemma MeetingTrims()
    ensures TrimSpace(NAME_MEETS_QUOTE) == NAME_MEETS_QUOTE == TrimSemicolons(NAME_MEETS_QUOTE)
  {
  }

  lemma MeetingQuoteLen()
    ensures QQuoteLen("q'x';x'") == 7
  {
    var s := "q'x';x'";
    assert s[3..5] == "';" && s[4..6] == ";x" && s[5..7] == "x'" && Closer('x') == 'x';
    assert FindFrom(s, "x'", 5) == 5;
    assert FindFrom(s, "x'", 4) == 5;
    assert FindFrom(s, "x'", 3) == 5;
  }

  /** The check reads a colon and a q quote. */
  lemma MeetingStrips()
    ensures Lex(StripRules(Oracle), NAME_MEETS_QUOTE) == Scan([Code(':'), Opaque("q'x';x'")], [])
  {
    var r := StripRules(Oracle);
    MeetingQuoteLen();
    hide QQuoteLen;
    assert "q'x';x'"[..7] == "q'x';x'" && "q'x';x'"[7..] == "" && ":q'x';x'"[1..] == "q'x';x'";
    assert Head(r, "q'x';x'") == Take(Opaque("q'x';x'"), 7);
    assert Head(r, ":q'x';x'") == Take(Code(':'), 1);
    hide Head, Lex;
    ScanCons(r, ":q'x';x'");
    ScanCons(r, "q'x';x'");
    ScanEnd(r, "");
    var toks := Lex(r, ":q'x';x'").toks;
    assert toks == [toks[0]] + toks[1..] && toks[1..] == [toks[1..][0]] + toks[1..][1..];
  }

  lemma MeetingParam(r: Rules)
    requires r.named
    ensures Head(r, ":q'x';x'") == Take(Param("q"), 2)
  {
    assert IdentLen("q'x';x'") == 1 by {
      assert "q'x';x'"[1..] == "'x';x'" && IdentLen("'x';x'") == 0;
    }
    ParamHead(r, ":q'x';x'");
    hide Head, IdentLen;
    assert ":q'x';x'"[1..] == "q'x';x'" && ":q'x';x'"[1..2] == "q";
  }

  lemma MeetingQuote(r: Rules)
    ensures Head(r, "'x';x'") == Take(Opaque("'x'"), 3)
  {
    assert "'x';x'"[1..] == "x';x'" && "x';x'"[1..] == "';x'" && "'x';x'"[..3] == "'x'";
    assert QuotedLen("';x'", '\'') == 1 && QuotedLen("x';x'", '\'') == 2;
  }

  lemma MeetingRest(r: Rules)
    ensures Head(r, ";x'") == Take(Code(';'), 1) && Head(r, "x'") == Take(Code('x'), 1)
    ensures Head(r, "'") == Take(Opaque("'"), 1)
  {
    LoneQHeads(r);
  }

  /** Extraction and the binder read the parameter `q`, a string, and then the semicolon. */
  lemma MeetingReads(r: Rules)
    requires r.named
    ensures Lex(r, NAME_MEETS_QUOTE) == Scan([Param("q"), Opaque("'x'"), Code(';'), Code('x'), Opaque("'")], [])
  {
    hide Head, Lex;
    MeetingParam(r);
    MeetingQuote(r);
    MeetingRest(r);
    assert ":q'x';x'"[2..] == "'x';x'" && "'x';x'"[3..] == ";x'" && ";x'"[1..] == "x'" && "x'"[1..] == "'"
        && "'"[1..] == "";
    ScanEnd(r, "");
    Prepends(r, "'", [], "");
    Prepends(r, "x'", [Opaque("'")], "");
    Prepends(r, ";x'", [Code('x'), Opaque("'")], "");
    Prepends(r, "'x';x'", [Code(';'), Code('x'), Opaque("'")], "");
    Prepends(r, ":q'x';x'", [Opaque("'x'"), Code(';'), Code('x'), Opaque("'")], "");
  }

  lemma Prepends(r: Rules, s: string, toks: seq<Lexeme>, rest: string)
    requires s != [] && Head(r, s).Take? && Lex(r, s[Head(r, s).len..]) == Scan(toks, rest)
    ensures Lex(r, s) == Scan([Head(r, s).lexeme] + toks, rest)
  {
  }

  /** On Oracle even without a `$`: the check skips a quote that begins with the last letter of a
      parameter's name, and the binder reads the name and then the semicolon. */
  lemma MeetingSemicolonPasses<V>(env: Env<V>, p: ApiParameter)
    requires p.name == "q" && RuleOk(env, p)
    ensures AcceptedTemplate(env, Oracle, WriteApi(Oracle, NAME_MEETS_QUOTE), [p])
    ensures !OneStatement(Oracle, WriteApi(Oracle, NAME_MEETS_QUOTE))
  {
    hide Lex, TrimSpace, TrimSemicolons, Stripped, ParamNames, RuleOk, AcceptedTemplate, Statement, Names, WriteApi;
    MeetingTrims();
    MeetingStrips();
    MeetingReads(ExtractRules(Oracle));
    MeetingNames();
    OneName(p);
    WriteAccepted(env, Oracle, NAME_MEETS_QUOTE, [p]);
    MeetingHolds();
  }

  lemma OneName(p: ApiParameter)
    ensures Names([p]) == {p.name}
  {
  }

  lemma MeetingHolds()
    ensures Code(';') in Lex(BindRules(Oracle), NAME_MEETS_QUOTE).toks
  {
    hide Lex;
    MeetingReads(BindRules(Oracle));
    assert [Param("q"), Opaque("'x'"), Code(';'), Code('x'), Opaque("'")][2] == Code(';');
  }

  lemma MeetingNames()
    ensures Stripped([Code(':'), Opaque("q'x';x'")]) == ":"
    ensures ParamNames([Param("q"), Opaque("'x'"), Code(';'), Code('x'), Opaque("'")]) == ["q"]
  {
    StripOpaque("q'x';x'");
    StripOpaque("'");
    assert [Code(':'), Opaque("q'x';x'")][1..] == [Opaque("q'x';x'")];
    assert [Code('x'), Opaque("'")][1..] == [Opaque("'")];
    assert ParamNames([Code('x'), Opaque("'")]) == [];
    assert [Code(';'), Code('x'), Opaque("'")][1..] == [Code('x'), Opaque("'")];
    assert ParamNames([Code(';'), Code('x'), Opaque("'")]) == [];
    assert [Opaque("'x'"), Code(';'), Code('x'), Opaque("'")][1..] == [Code(';'), Code('x'), Opaque("'")];
    assert ParamNames([Opaque("'x'"), Code(';'), Code('x'), Opaque("'")]) == [];
    assert [Param("q"), Opaque("'x'"), Code(';'), Code('x'), Opaque("'")][1..]
        == [Opaque("'x'"), Code(';'), Code('x'), Opaque("'")];
  }

  // ---- Exactly where the promise holds ----

  lemma NamesMeetNoQuoteElsewhere(d: Dialect, s: string)
    requires !d.Oracle?
    ensures NamesMeetNoQuote(d, s)
  {
  }

  /** The check keeps its promise for a dialect, that is the binder reads no `;` as code in any
      accepted template, trailing ones apart, if and only if the dialect is Postgres. */
  lemma OneStatementIff<V>(env: Env<V>, d: Dialect)
    ensures (forall api, params | AcceptedTemplate(env, d, api, params) :: OneStatement(d, api)) <==> d.Postgres?
  {
    hide Lex, Publishable, NamesMeetNoQuote, TrimSpace, TrimSemicolons;
    if d.Postgres? {
      forall api, params | AcceptedTemplate(env, d, api, params) ensures OneStatement(d, api) {
        NamesMeetNoQuoteElsewhere(d, Statement(api));
        BindsOneStatement(env, api, params);
      }
    } else {
      QuotedSemicolonPasses(env, d);
    }
  }
}
