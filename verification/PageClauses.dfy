/** What the clause that pagination appends (internal/connectors/pagination.go) asks the database for,
    read from the words of the query and the list of its arguments and from nothing else. */
module PageClauses {
  import opened Options
  import opened Strings
  import opened SqlLexer
  import opened SqlWords

  /** The argument that a numbered placeholder names. */
  function Named<T>(prefix: string, w: string, args: seq<T>): Option<T> {
    var digits := if HasPrefix(w, prefix) then w[|prefix|..] else "";
    if digits != "" && AllDigits(digits) && 1 <= NumberOf(digits) <= |args| then Some(args[NumberOf(digits) - 1])
    else None
  }

  /** The n-th word from the end. */
  function FromEnd(ws: seq<string>, n: nat): string { if 1 <= n <= |ws| then ws[|ws| - n] else "" }

  /** `LIMIT count OFFSET start`, each a numbered placeholder: the arguments named, count first. */
  function LimitOffset<T>(prefix: string, ws: seq<string>, args: seq<T>): (Option<T>, Option<T>) {
    if FromEnd(ws, 4) == "LIMIT" && FromEnd(ws, 2) == "OFFSET"
    then (Named(prefix, FromEnd(ws, 3), args), Named(prefix, FromEnd(ws, 1), args))
    else (None, None)
  }

  /** `OFFSET start ROWS FETCH NEXT count ROWS ONLY` */
  function OffsetFetch<T>(prefix: string, ws: seq<string>, args: seq<T>): (Option<T>, Option<T>) {
    if FromEnd(ws, 8) == "OFFSET" && FromEnd(ws, 6) == "ROWS" && FromEnd(ws, 5) == "FETCH" && FromEnd(ws, 4) == "NEXT"
       && FromEnd(ws, 2) == "ROWS" && FromEnd(ws, 1) == "ONLY"
    then (Named(prefix, FromEnd(ws, 3), args), Named(prefix, FromEnd(ws, 7), args))
    else (None, None)
  }

  /** `LIMIT start, count`, where the placeholders stand for the last two arguments in their order. */
  function LimitPair<T>(ws: seq<string>, args: seq<T>): (Option<T>, Option<T>) {
    if FromEnd(ws, 4) == "LIMIT" && FromEnd(ws, 3) == "?" && FromEnd(ws, 2) == "," && FromEnd(ws, 1) == "?"
       && |args| > 1
    then (Some(args[|args| - 1]), Some(args[|args| - 2]))
    else (None, None)
  }

  /** How many rows the query asks for, and how many it skips, as the dialect reads its last words. */
  function RowsAsked<T>(d: Dialect, sql: string, args: seq<T>): (Option<T>, Option<T>) {
    match d
    case Postgres => LimitOffset("$", Words(sql), args)
    case MySql => LimitPair(Words(sql), args)
    case SqlServer => OffsetFetch("@p", Words(sql), args)
    case Oracle => OffsetFetch(":", Words(sql), args)
    case Plain => (None, None)
  }

  lemma NumberNamed<T>(prefix: string, n: nat, args: seq<T>)
    requires 1 <= n <= |args|
    ensures Named(prefix, prefix + Itoa(n), args) == Some(args[n - 1])
  {
    ItoaRoundTrip(n);
    var w := prefix + Itoa(n);
    assert w[..|prefix|] == prefix && w[|prefix|..] == Itoa(n);
  }

  lemma PlaceholderIsWord(prefix: string, n: nat)
    requires prefix in {"$", "@p", ":"}
    ensures OneWord(prefix + Itoa(n))
  {
    var s := Itoa(n);
    forall c | c in prefix + s ensures !Breaks(c) {
      if c in s {
        var i :| 0 <= i < |s| && s[i] == c;
      }
    }
  }

  lemma PageWords()
    ensures OneWord("LIMIT") && OneWord("OFFSET") && OneWord("ROWS") && OneWord("FETCH") && OneWord("NEXT")
    ensures OneWord("ONLY") && OneWord("?")
  {
  }

  lemma LimitOffsetWords(base: string, a: string, b: string)
    requires OneWord(a) && OneWord(b)
    ensures Words(base + (" LIMIT " + a + (" OFFSET " + b))) == Words(base) + ["LIMIT", a, "OFFSET", b]
  {
    hide Words, OneWord;
    PageWords();
    WordIs(b);
    WordThen("OFFSET", b);
    WordThen(a, "OFFSET" + " " + b);
    var tail := a + " " + ("OFFSET" + " " + b);
    WordThen("LIMIT", tail);
    WordsSplit(base, ' ', "LIMIT" + " " + tail);
    assert " LIMIT " + a + (" OFFSET " + b) == " " + ("LIMIT" + " " + tail) by {
      assert " OFFSET " + b == " " + ("OFFSET" + " " + b) && " LIMIT " + a == " " + ("LIMIT" + " " + a);
    }
    assert base + (" " + ("LIMIT" + " " + tail)) == base + " " + ("LIMIT" + " " + tail);
    assert Words(base) + [] + (["LIMIT"] + ([a] + (["OFFSET"] + [b]))) == Words(base) + ["LIMIT", a, "OFFSET", b];
  }

  lemma OffsetFetchWords(base: string, a: string, b: string)
    requires OneWord(a) && OneWord(b)
    ensures Words(base + (" OFFSET " + a + (" ROWS FETCH NEXT " + b + " ROWS ONLY")))
        == Words(base) + ["OFFSET", a, "ROWS", "FETCH", "NEXT", b, "ROWS", "ONLY"]
  {
    hide Words, OneWord;
    PageWords();
    var only := "ROWS" + " " + "ONLY";
    WordIs("ONLY");
    WordThen("ROWS", "ONLY");
    WordThen(b, only);
    var next := "NEXT" + " " + (b + " " + only);
    WordThen("NEXT", b + " " + only);
    WordThen("FETCH", next);
    WordThen("ROWS", "FETCH" + " " + next);
    var rows := "ROWS" + " " + ("FETCH" + " " + next);
    WordThen(a, rows);
    WordThen("OFFSET", a + " " + rows);
    WordsSplit(base, ' ', "OFFSET" + " " + (a + " " + rows));
    FetchText(base, a, b);
    assert Words(base) + []
        + (["OFFSET"] + ([a] + (["ROWS"] + (["FETCH"] + (["NEXT"] + ([b] + (["ROWS"] + ["ONLY"])))))))
        == Words(base) + ["OFFSET", a, "ROWS", "FETCH", "NEXT", b, "ROWS", "ONLY"];
  }

  lemma FetchText(base: string, a: string, b: string)
    ensures base + (" OFFSET " + a + (" ROWS FETCH NEXT " + b + " ROWS ONLY"))
        == base + " " + ("OFFSET" + " " + (a + " " + ("ROWS" + " " + ("FETCH" + " " + ("NEXT" + " "
           + (b + " " + ("ROWS" + " " + "ONLY")))))))
  {
    var only := "ROWS" + " " + "ONLY";
    assert b + " ROWS ONLY" == b + " " + only;
    var next := "NEXT" + " " + (b + " " + only);
    assert " ROWS FETCH NEXT " + b + " ROWS ONLY" == " " + ("ROWS" + " " + ("FETCH" + " " + next)) by {
      assert " ROWS FETCH NEXT " == " " + ("ROWS" + " " + ("FETCH" + " " + ("NEXT" + " ")));
      assert " ROWS FETCH NEXT " + b + " ROWS ONLY" == " ROWS FETCH NEXT " + (b + " ROWS ONLY");
    }
    var rows := "ROWS" + " " + ("FETCH" + " " + next);
    assert " OFFSET " + a + (" " + rows) == " " + ("OFFSET" + " " + (a + " " + rows)) by {
      assert " OFFSET " + a == " " + ("OFFSET" + " " + a);
    }
    assert base + (" " + ("OFFSET" + " " + (a + " " + rows))) == base + " " + ("OFFSET" + " " + (a + " " + rows));
  }

  lemma PairWords(base: string)
    ensures Words(base + " LIMIT ?, ?") == Words(base) + ["LIMIT", "?", ",", "?"]
  {
    hide Words, OneWord;
    PageWords();
    WordIs("?");
    CommaWords("?", "?");
    WordThen("LIMIT", "?" + ", " + "?");
    WordsSplit(base, ' ', "LIMIT" + " " + ("?" + ", " + "?"));
    assert base + " LIMIT ?, ?" == base + " " + ("LIMIT" + " " + ("?" + ", " + "?"));
    assert Words(base) + [] + (["LIMIT"] + (["?"] + [","] + ["?"])) == Words(base) + ["LIMIT", "?", ",", "?"];
  }

  lemma EndsWith(ws: seq<string>, last: seq<string>, n: nat)
    requires 1 <= n <= |last|
    ensures FromEnd(ws + last, n) == last[|last| - n]
  {
  }

  lemma EndsInFour(ws: seq<string>, a: string, b: string, c: string, e: string)
    ensures var all := ws + [a, b, c, e];
      FromEnd(all, 4) == a && FromEnd(all, 3) == b && FromEnd(all, 2) == c && FromEnd(all, 1) == e
  {
  }

  lemma PostgresClause(base: string, n: nat) returns (clause: seq<string>)
    ensures clause == ["LIMIT", "$" + Itoa(n + 1), "OFFSET", "$" + Itoa(n + 2)]
    ensures Words(base + " LIMIT $" + Itoa(n + 1) + " OFFSET $" + Itoa(n + 2)) == Words(base) + clause
  {
    hide Words, OneWord, Itoa;
    var a, b := "$" + Itoa(n + 1), "$" + Itoa(n + 2);
    clause := ["LIMIT", a, "OFFSET", b];
    PlaceholderIsWord("$", n + 1);
    PlaceholderIsWord("$", n + 2);
    LimitOffsetWords(base, a, b);
    assert base + " LIMIT $" + Itoa(n + 1) + " OFFSET $" + Itoa(n + 2) == base + (" LIMIT " + a + (" OFFSET " + b)) by {
      assert " LIMIT " + a == " LIMIT $" + Itoa(n + 1) && " OFFSET " + b == " OFFSET $" + Itoa(n + 2);
      assert base + (" LIMIT $" + Itoa(n + 1) + (" OFFSET $" + Itoa(n + 2)))
          == base + " LIMIT $" + Itoa(n + 1) + " OFFSET $" + Itoa(n + 2);
    }
  }

  lemma PostgresAsks<T>(base: string, n: nat, args: seq<T>)
    requires |args| == n + 2
    ensures RowsAsked(Postgres, base + " LIMIT $" + Itoa(n + 1) + " OFFSET $" + Itoa(n + 2), args)
        == (Some(args[n]), Some(args[n + 1]))
  {
    hide Words, Itoa, FromEnd, Named;
    var clause := PostgresClause(base, n);
    EndsInFour(Words(base), clause[0], clause[1], clause[2], clause[3]);
    NumberNamed("$", n + 1, args);
    NumberNamed("$", n + 2, args);
  }

  lemma MySqlAsks<T>(base: string, n: nat, args: seq<T>)
    requires |args| == n + 2
    ensures RowsAsked(MySql, base + " LIMIT ?, ?", args) == (Some(args[n + 1]), Some(args[n]))
  {
    hide Words, FromEnd;
    PairWords(base);
    EndsInFour(Words(base), "LIMIT", "?", ",", "?");
  }

  lemma FetchClause(p: string, base: string, n: nat) returns (clause: seq<string>)
    requires p in {"@p", ":"}
    ensures clause == ["OFFSET", p + Itoa(n + 1), "ROWS", "FETCH", "NEXT", p + Itoa(n + 2), "ROWS", "ONLY"]
    ensures Words(base + (" OFFSET " + (p + Itoa(n + 1)) + (" ROWS FETCH NEXT " + (p + Itoa(n + 2)) + " ROWS ONLY")))
        == Words(base) + clause
  {
    hide Words, OneWord, Itoa;
    var a, b := p + Itoa(n + 1), p + Itoa(n + 2);
    clause := ["OFFSET", a, "ROWS", "FETCH", "NEXT", b, "ROWS", "ONLY"];
    PlaceholderIsWord(p, n + 1);
    PlaceholderIsWord(p, n + 2);
    OffsetFetchWords(base, a, b);
  }

  lemma FetchAsks<T>(p: string, base: string, n: nat, args: seq<T>)
    requires |args| == n + 2 && p in {"@p", ":"}
    ensures OffsetFetch(p, Words(base + (" OFFSET " + (p + Itoa(n + 1)) + (" ROWS FETCH NEXT " + (p + Itoa(n + 2))
        + " ROWS ONLY"))), args) == (Some(args[n + 1]), Some(args[n]))
  {
    hide Words, Itoa, FromEnd, Named;
    var last := FetchClause(p, base, n);
    forall k | 1 <= k <= 8 ensures FromEnd(Words(base) + last, k) == last[8 - k] { EndsWith(Words(base), last, k); }
    NumberNamed(p, n + 1, args);
    NumberNamed(p, n + 2, args);
  }

  lemma OrderSupplied(base: string)
    ensures Words(base + " ORDER BY (SELECT 1)") == Words(base) + ["ORDER", "BY", "(", "SELECT", "1", ")"]
  {
    hide Words, OneWord;
    OrderWords();
    NoWords();
    WordIs("1");
    WordsSplit("1", ')', "");
    WordThen("SELECT", "1)");
    assert "1" + ")" + "" == "1)";
    WordsMark('(', "SELECT" + " " + "1)");
    var sub := "(" + ("SELECT" + " " + "1)");
    WordThen("BY", sub);
    WordThen("ORDER", "BY" + " " + sub);
    WordsSplit(base, ' ', "ORDER" + " " + ("BY" + " " + sub));
    assert " ORDER BY (SELECT 1)" == " " + ("ORDER" + " " + ("BY" + " " + sub));
    assert base + (" " + ("ORDER" + " " + ("BY" + " " + sub))) == base + " " + ("ORDER" + " " + ("BY" + " " + sub));
    assert Words(base) + [] + (["ORDER"] + (["BY"] + (["("] + (["SELECT"] + (["1"] + [")"] + [])))))
        == Words(base) + ["ORDER", "BY", "(", "SELECT", "1", ")"];
  }

  lemma OrderWords()
    ensures OneWord("ORDER") && OneWord("BY") && OneWord("SELECT") && OneWord("1")
  {
  }

  lemma FetchSpelled(base: string, q: string, r: string, p: string, i: string, k: string)
    requires q == " OFFSET " + p && r == " ROWS FETCH NEXT " + p
    ensures base + q + i + r + k + " ROWS ONLY"
        == base + (" OFFSET " + (p + i) + (" ROWS FETCH NEXT " + (p + k) + " ROWS ONLY"))
  {
    assert " OFFSET " + (p + i) == q + i && " ROWS FETCH NEXT " + (p + k) == r + k;
    var end := r + k + " ROWS ONLY";
    assert base + q + i + r + k + " ROWS ONLY" == base + q + i + end;
    assert base + (q + i + end) == base + q + i + end;
  }
}
