/** SQL text as a sequence of words, for reading generated clauses back. */
module SqlWords {
  import opened Strings

  predicate Punct(c: char) { c == '(' || c == ')' || c == ',' }

  predicate Breaks(c: char) { c == ' ' || Punct(c) }

  function Run(s: string): (n: nat)
    ensures n <= |s| && (forall i | 0 <= i < n :: !Breaks(s[i])) && (n < |s| ==> Breaks(s[n]))
  {
    if s == [] || Breaks(s[0]) then 0 else 1 + Run(s[1..])
  }

  /** The words of a text: blanks separate them, brackets and commas stand alone. */
  function Words(s: string): seq<string>
    decreases |s|
  {
    if s == [] then []
    else if s[0] == ' ' then Words(s[1..])
    else if Punct(s[0]) then [[s[0]]] + Words(s[1..])
    else [s[..Run(s)]] + Words(s[Run(s)..])
  }

  function Mark(c: char): seq<string> { if c == ' ' then [] else [[c]] }

  lemma {:induction false} RunStops(a: string, c: char, b: string)
    requires Breaks(c)
    ensures Run(a + [c] + b) == Run(a)
  {
    var s := a + [c] + b;
    if a == [] {
      assert s[0] == c;
    } else {
      assert s[0] == a[0] && s[1..] == a[1..] + [c] + b;
      RunStops(a[1..], c, b);
    }
  }

  /** At a blank, a bracket or a comma the words of a text are those before and those after. */
  lemma {:induction false} WordsSplit(a: string, c: char, b: string)
    requires Breaks(c)
    ensures Words(a + [c] + b) == Words(a) + Mark(c) + Words(b)
    decreases |a|
  {
    hide Run, Words, Mark, Breaks;
    var s := a + [c] + b;
    if a == [] {
      assert s == [c] + b && s[1..] == b;
      NoWords();
      WordsMark(c, b);
      assert [] + Mark(c) + Words(b) == Mark(c) + Words(b);
    } else {
      var n := Step(a);
      RunStops(a, c, b);
      WordsNext(a);
      WordsNext(s);
      assert s[0] == a[0] && s[..n] == a[..n] && s[n..] == a[n..] + [c] + b;
      WordsSplit(a[n..], c, b);
      Regroup(First(a), Words(a[n..]), Mark(c), Words(b));
    }
  }

  function Step(s: string): (n: nat)
    requires s != []
    ensures 0 < n <= |s|
  {
    if Breaks(s[0]) then 1 else Run(s)
  }

  function First(s: string): seq<string>
    requires s != []
  {
    if s[0] == ' ' then [] else [s[..Step(s)]]
  }

  lemma WordsNext(s: string)
    requires s != []
    ensures Words(s) == First(s) + Words(s[Step(s)..])
  {
    hide Run;
    if Breaks(s[0]) { assert s[..1] == [s[0]]; }
  }

  lemma WordsMark(c: char, b: string)
    requires Breaks(c)
    ensures Words([c] + b) == Mark(c) + Words(b)
  {
    assert ([c] + b)[1..] == b;
  }

  lemma Regroup<T>(w: seq<T>, x: seq<T>, y: seq<T>, z: seq<T>)
    ensures w + (x + y + z) == w + x + y + z
  {
  }

  predicate OneWord(w: string) { w != [] && forall c | c in w :: !Breaks(c) }

  lemma {:induction false} RunAll(w: string)
    requires forall c | c in w :: !Breaks(c)
    ensures Run(w) == |w|
  {
    if w != [] { RunAll(w[1..]); }
  }

  lemma WordIs(w: string)
    requires OneWord(w)
    ensures Words(w) == [w]
  {
    RunAll(w);
    assert w[0] in w && w[..|w|] == w && w[|w|..] == [];
  }

  lemma NoWords() ensures Words("") == [] {}

  /** A word, a blank, and the rest. */
  lemma WordThen(w: string, rest: string)
    requires OneWord(w)
    ensures Words(w + " " + rest) == [w] + Words(rest)
  {
    hide Words, OneWord;
    WordIs(w);
    WordsSplit(w, ' ', rest);
    assert [w] + [] + Words(rest) == [w] + Words(rest);
  }

  /** Text that begins with a blank adds its words. */
  lemma SpacedWords(a: string, b: string)
    requires b == "" || b[0] == ' '
    ensures Words(a + b) == Words(a) + Words(b)
  {
    hide Words;
    if b == "" {
      NoWords();
      assert a + b == a && Words(a) + [] == Words(a);
    } else {
      WordsSplit(a, ' ', b[1..]);
      WordsMark(' ', b[1..]);
      assert b == [' '] + b[1..] && a + b == a + [' '] + b[1..];
      assert Words(a) + [] + Words(b[1..]) == Words(a) + ([] + Words(b[1..]));
    }
  }

  lemma CommaWords(a: string, b: string)
    ensures Words(a + ", " + b) == Words(a) + [","] + Words(b)
  {
    hide Words;
    WordsSplit(a, ',', " " + b);
    WordsMark(' ', b);
    assert a + ", " + b == a + "," + (" " + b);
    assert Mark(' ') + Words(b) == Words(b);
  }

  // ---- Comma-separated lists ----

  /** The words of several texts with commas between them. */
  function Listed(parts: seq<string>): seq<string> {
    if parts == [] then [] else if |parts| == 1 then Words(parts[0]) else Words(parts[0]) + [","] + Listed(parts[1..])
  }

  lemma {:induction false} JoinListed(parts: seq<string>)
    ensures Words(Join(parts, ", ")) == Listed(parts)
  {
    hide Words;
    if parts == [] {
      NoWords();
    } else if |parts| > 1 {
      JoinListed(parts[1..]);
      CommaWords(parts[0], Join(parts[1..], ", "));
    }
  }

  lemma KeywordsAreWords()
    ensures OneWord("=") && OneWord("<>") && OneWord(">") && OneWord(">=") && OneWord("<") && OneWord("<=")
    ensures OneWord("LIKE") && OneWord("BETWEEN") && OneWord("AND") && OneWord("IN") && OneWord("IS")
    ensures OneWord("NOT") && OneWord("NULL") && OneWord("ASC") && OneWord("DESC")
  {
  }
}
