/** The few string operations of the Go standard library the gateway relies on. */
module Strings {

  /** unicode.IsSpace */
  predicate IsSpace(c: char)
  {
    || '\t' <= c <= '\r' || c == ' ' || c == '\U{0085}' || c == '\U{00A0}' || c == '\U{1680}'
    || '\U{2000}' <= c <= '\U{200A}' || c == '\U{2028}' || c == '\U{2029}' || c == '\U{202F}'
    || c == '\U{205F}' || c == '\U{3000}'
  }

  /** The 25 code points with the property White_Space. */
  lemma SpaceIff(c: char)
    ensures IsSpace(c) <==> c as int in {9, 10, 11, 12, 13, 32, 133, 160, 5760, 8192, 8193, 8194, 8195, 8196, 8197,
                                         8198, 8199, 8200, 8201, 8202, 8232, 8233, 8239, 8287, 12288}
  {
  }

  predicate AllSpace(s: string) { forall c | c in s :: IsSpace(c) }

  function TrimLeft(s: string): string {
    if s != [] && IsSpace(s[0]) then TrimLeft(s[1..]) else s
  }

  function TrimRight(s: string): string {
    if s != [] && IsSpace(s[|s| - 1]) then TrimRight(s[..|s| - 1]) else s
  }

  function TrimSpace(s: string): string { TrimRight(TrimLeft(s)) }

  /** strings.TrimRight(s, ";") */
  function TrimSemicolons(s: string): (t: string)
    ensures t <= s && (forall i | |t| <= i < |s| :: s[i] == ';') && (t == [] || t[|t| - 1] != ';')
  {
    if s != [] && s[|s| - 1] == ';' then TrimSemicolons(s[..|s| - 1]) else s
  }

  lemma {:induction false} TrimLeftSplits(s: string) returns (pre: string)
    ensures s == pre + TrimLeft(s) && AllSpace(pre)
    ensures TrimLeft(s) != [] ==> !IsSpace(TrimLeft(s)[0])
  {
    pre := [];
    if s != [] && IsSpace(s[0]) {
      var p := TrimLeftSplits(s[1..]);
      pre := [s[0]] + p;
      assert s == [s[0]] + s[1..];
    }
  }

  lemma {:induction false} TrimRightSplits(s: string) returns (post: string)
    ensures s == TrimRight(s) + post && AllSpace(post)
    ensures TrimRight(s) != [] ==> !IsSpace(TrimRight(s)[|TrimRight(s)| - 1])
  {
    post := [];
    if s != [] && IsSpace(s[|s| - 1]) {
      var p := TrimRightSplits(s[..|s| - 1]);
      post := p + [s[|s| - 1]];
    }
  }

  /** TrimSpace removes spaces from both ends and nothing else. */
  lemma TrimSplits(s: string) returns (pre: string, post: string)
    ensures s == pre + TrimSpace(s) + post && AllSpace(pre) && AllSpace(post)
  {
    pre := TrimLeftSplits(s);
    post := TrimRightSplits(TrimLeft(s));
    assert pre + (TrimSpace(s) + post) == pre + TrimSpace(s) + post;
  }

  // ---- Case mapping ----

  /** unicode.ToUpper as far as ASCII results go: besides a-z, only the dotless i and the
      long s map into ASCII. Every other character is left alone. */
  function UpperChar(c: char): char {
    if 'a' <= c <= 'z' then ((c as int) - 32) as char
    else if c == '\U{0131}' then 'I' else if c == '\U{017F}' then 'S' else c
  }

  /** unicode.ToLower as far as ASCII results go. */
  function LowerChar(c: char): char {
    if 'A' <= c <= 'Z' then ((c as int) + 32) as char
    else if c == '\U{0130}' then 'i' else if c == '\U{212A}' then 'k' else c
  }

  const SMALL := "abcdefghijklmnopqrstuvwxyz"
  const LARGE := "ABCDEFGHIJKLMNOPQRSTUVWXYZ"

  lemma Letters(i: nat)
    requires i < 26
    ensures SMALL[i] as int == 97 + i && LARGE[i] as int == 65 + i
  {
  }

  /** Letter by letter, the one is the other's inverse. */
  lemma CaseOf(i: nat)
    requires i < 26
    ensures UpperChar(SMALL[i]) == LARGE[i] == UpperChar(LARGE[i])
    ensures LowerChar(LARGE[i]) == SMALL[i] == LowerChar(SMALL[i])
  {
    Letters(i);
  }

  /** Besides the letters, each maps two characters and no other. */
  lemma CaseElsewhere(c: char)
    ensures UpperChar(c) != c && (c as int < 97 || c as int > 122) ==>
      (c as int == 305 && UpperChar(c) == 'I') || (c as int == 383 && UpperChar(c) == 'S')
    ensures LowerChar(c) != c && (c as int < 65 || c as int > 90) ==>
      (c as int == 304 && LowerChar(c) == 'i') || (c as int == 8490 && LowerChar(c) == 'k')
    ensures UpperChar('\U{0131}') == 'I' && UpperChar('\U{017F}') == 'S'
    ensures LowerChar('\U{0130}') == 'i' && LowerChar('\U{212A}') == 'k'
  {
  }

  function Upper(s: string): string { seq(|s|, i requires 0 <= i < |s| => UpperChar(s[i])) }

  function Lower(s: string): string { seq(|s|, i requires 0 <= i < |s| => LowerChar(s[i])) }

  // ---- Splitting and joining ----

  function IndexOf(s: string, c: char): (i: nat)
    ensures i <= |s| && (i < |s| ==> s[i] == c) && forall k | 0 <= k < i :: s[k] != c
  {
    if s == [] || s[0] == c then 0 else 1 + IndexOf(s[1..], c)
  }

  function Split(s: string, sep: char): (parts: seq<string>)
    ensures parts != []
    decreases |s|
  {
    var i := IndexOf(s, sep);
    if i == |s| then [s] else [s[..i]] + Split(s[i + 1..], sep)
  }

  function Join(parts: seq<string>, sep: string): string {
    if parts == [] then "" else if |parts| == 1 then parts[0] else parts[0] + sep + Join(parts[1..], sep)
  }

  lemma {:induction false} JoinSnoc(parts: seq<string>, x: string, sep: string)
    ensures Join(parts + [x], sep) == if parts == [] then x else Join(parts, sep) + sep + x
  {
    var all := parts + [x];
    if |parts| > 0 {
      assert all[0] == parts[0] && all[1..] == parts[1..] + [x];
      JoinSnoc(parts[1..], x, sep);
      if |parts| > 1 {
        assert parts[0] + sep + (Join(parts[1..], sep) + sep + x) == (parts[0] + sep + Join(parts[1..], sep)) + sep + x;
      }
    }
  }

  predicate HasPrefix(s: string, p: string) { |p| <= |s| && s[..|p|] == p }

  // ---- Decimal numbers ----

  function Digit(n: nat): (c: char)
    requires n < 10
    ensures '0' <= c <= '9'
  {
    ((n + 48) as char)
  }

  function Itoa(n: nat): (s: string)
    ensures s != [] && AllDigits(s)
  {
    if n < 10 then [Digit(n)] else Itoa(n / 10) + [Digit(n % 10)]
  }

  predicate AllDigits(s: string) { forall i | 0 <= i < |s| :: '0' <= s[i] <= '9' }

  function NumberOf(s: string): nat
    requires AllDigits(s)
  {
    if s == [] then 0
    else NumberOf(s[..|s| - 1]) * 10 + (s[|s| - 1] as int - 48)
  }

  /** Reading the digits back gives the number. */
  lemma {:induction false} ItoaRoundTrip(n: nat)
    ensures NumberOf(Itoa(n)) == n
  {
    if n >= 10 {
      ItoaRoundTrip(n / 10);
      assert Itoa(n)[..|Itoa(n)| - 1] == Itoa(n / 10);
    }
  }

  lemma ItoaInjective(a: nat, b: nat)
    requires Itoa(a) == Itoa(b)
    ensures a == b
  {
    ItoaRoundTrip(a);
    ItoaRoundTrip(b);
  }
}
