/** The text that encoding/json writes for a value, object keys in order, as the cache key
    hashes it (internal/cache/cache.go:47-69). */
module JsonText {
  import opened Options
  import opened Strings
  import opened JsonDiff

  // ---- Strings ----

  /** Control characters, HTML characters and the two line separators without a short escape. */
  predicate NeedsHex(c: char) {
    c < ' ' || c in {'<', '>', '&', '\U{2028}', '\U{2029}'}
  }

  function HexDigit(n: nat): (c: char)
    requires n < 16
  {
    if n < 10 then (n + 48) as char else (n + 87) as char
  }

  function Hex4(n: nat): (s: string)
    requires n < 0x10000
    ensures |s| == 4
  {
    [HexDigit(n / 4096), HexDigit(n / 256 % 16), HexDigit(n / 16 % 16), HexDigit(n % 16)]
  }

  lemma Digits16(n: nat)
    requires n < 0x10000
    ensures n == n / 4096 * 4096 + n / 256 % 16 * 256 + n / 16 % 16 * 16 + n % 16
  {
    assert n / 16 == n / 256 * 16 + n / 16 % 16;
    assert n / 256 == n / 4096 * 16 + n / 256 % 16;
  }

  /** The letter after the backslash of a short escape, or a space when there is none. */
  function Short(c: char): char {
    match c
    case '"' => '"'
    case '\\' => '\\'
    case '\n' => 'n'
    case '\r' => 'r'
    case '\t' => 't'
    case '\U{0008}' => 'b'
    case '\U{000C}' => 'f'
    case _ => ' '
  }

  function EscapeChar(c: char): (s: string)
    ensures s != [] && s[0] != '"'
  {
    if Short(c) != ' ' then ['\\', Short(c)]
    else if NeedsHex(c) then ['\\', 'u'] + Hex4(c as nat)
    else [c]
  }

  function EscapeText(s: string): string {
    if s == [] then [] else EscapeChar(s[0]) + EscapeText(s[1..])
  }

  function Quote(s: string): string { ['"'] + EscapeText(s) + ['"'] }

  // ---- Reading a string back, as section 7 of RFC 8259 has it ----

  function HexValue(c: char): Option<nat> {
    if '0' <= c <= '9' then Some((c - '0') as nat)
    else if 'a' <= c <= 'f' then Some(10 + (c - 'a') as nat)
    else if 'A' <= c <= 'F' then Some(10 + (c - 'A') as nat)
    else None
  }

  /** The character that four hexadecimal digits name, unless it is half of a pair. */
  function ReadHex(s: string): Option<char>
    requires |s| == 4
  {
    var a, b, c, d := HexValue(s[0]), HexValue(s[1]), HexValue(s[2]), HexValue(s[3]);
    if a.None? || b.None? || c.None? || d.None? then None
    else
      var n := ((a.value * 16 + b.value) * 16 + c.value) * 16 + d.value;
      if n < 0xD800 || 0xE000 <= n < 0x10000 then Some(n as char) else None
  }

  /** What follows a backslash. */
  function ReadEscape(s: string): (r: Option<(char, string)>)
    ensures r.Some? ==> |r.value.1| < |s|
  {
    if s == [] then None
    else if s[0] == 'u' then
      if |s| < 5 then None
      else match ReadHex(s[1..5]) case None => None case Some(c) => Some((c, s[5..]))
    else match s[0]
      case '"' => Some(('"', s[1..]))
      case '\\' => Some(('\\', s[1..]))
      case '/' => Some(('/', s[1..]))
      case 'b' => Some(('\U{0008}', s[1..]))
      case 'f' => Some(('\U{000C}', s[1..]))
      case 'n' => Some(('\n', s[1..]))
      case 'r' => Some(('\r', s[1..]))
      case 't' => Some(('\t', s[1..]))
      case _ => None
  }

  /** A string up to its closing quote, and what follows; control characters must be escaped. */
  function ReadText(s: string): (r: Option<(string, string)>)
    ensures r.Some? ==> |r.value.1| < |s|
    decreases |s|
  {
    if s == [] || s[0] < ' ' then None
    else if s[0] == '"' then Some(([], s[1..]))
    else if s[0] != '\\' then
      match ReadText(s[1..]) case None => None case Some((t, rest)) => Some(([s[0]] + t, rest))
    else match ReadEscape(s[1..])
      case None => None
      case Some((c, more)) =>
        match ReadText(more) case None => None case Some((t, rest)) => Some(([c] + t, rest))
  }

  lemma HexDigitReads(n: nat)
    requires n < 16
    ensures HexValue(HexDigit(n)) == Some(n)
  {
  }

  lemma Hex4Reads(c: char)
    requires (c as int) < 0x10000
    ensures ReadHex(Hex4(c as nat)) == Some(c)
  {
    hide HexDigit, HexValue;
    var n := c as nat;
    HexDigitReads(n / 4096);
    HexDigitReads(n / 256 % 16);
    HexDigitReads(n / 16 % 16);
    HexDigitReads(n % 16);
    Digits16(n);
  }

  lemma EscapeReads(c: char, x: string)
    requires EscapeChar(c)[0] == '\\'
    ensures ReadEscape(EscapeChar(c)[1..] + x) == Some((c, x))
  {
    hide Hex4, ReadHex;
    var s := EscapeChar(c)[1..] + x;
    if Short(c) != ' ' {
      assert s[0] == Short(c) && s[1..] == x;
    } else {
      Hex4Reads(c);
      assert s == ['u'] + Hex4(c as nat) + x;
      assert s[1..5] == Hex4(c as nat) && s[5..] == x;
    }
  }

  /** Every string is read back from its own text, wherever that stands. */
  lemma {:induction false} TextReads(s: string, x: string)
    ensures ReadText(EscapeText(s) + ("\"" + x)) == Some((s, x))
  {
    hide EscapeChar, ReadEscape;
    var u := EscapeText(s) + ("\"" + x);
    if s == [] {
      assert u == "\"" + x && u[1..] == x;
    } else {
      var e, more := EscapeChar(s[0]), EscapeText(s[1..]) + ("\"" + x);
      TextReads(s[1..], x);
      assert u == e + more && u[0] == e[0];
      assert s == [s[0]] + s[1..];
      EscapeShape(s[0]);
      if e[0] == '\\' {
        EscapeReads(s[0], more);
        assert u[1..] == e[1..] + more;
      } else {
        assert u[1..] == more;
      }
    }
  }

  lemma EscapeShape(c: char)
    ensures var e := EscapeChar(c); e[0] >= ' ' && e[0] != '"' && (e[0] != '\\' ==> e == [c])
  {
    hide Hex4;
  }

  /** A character stands for itself unless it is a control character or one of seven others, and seven
      have an escape of one letter. */
  lemma EscapedIff(c: char)
    ensures EscapeChar(c) != [c] <==> (c as int) < 32 || c in {'"', '\\', '<', '>', '&', '\U{2028}', '\U{2029}'}
    ensures |EscapeChar(c)| == 2 <==> c as int in {8, 9, 10, 12, 13, 34, 92}
  {
    hide Hex4;
  }

  /** The characters that HTML or JavaScript would misread never stand in the text. */
  lemma {:induction false} NothingUnsafe(s: string)
    ensures forall c | c in EscapeText(s) :: c !in {'<', '>', '&', '\U{2028}', '\U{2029}'}
  {
    if s != [] {
      NothingUnsafe(s[1..]);
      hide HexDigit;
      forall n | 0 <= n < 16 ensures HexDigit(n) !in {'<', '>', '&', '\U{2028}', '\U{2029}'} { HexDigitReads(n); }
    }
  }

  // ---- Values ----

  /** json.Marshal: arrays in order, objects by ascending key. */
  function Marshal(j: Json): (s: string)
    ensures s != [] && s[0] !in {',', ']', '}', ':'}
    decreases j, 1, 0
  {
    match j
    case Null => "null"
    case Bool(b) => if b then "true" else "false"
    case Num(n) => n
    case Str(s) => Quote(s)
    case Arr(items) => ['['] + Items(j, 0) + [']']
    case Obj(fields) => ['{'] + Members(j, Ordered(fields.Keys)) + ['}']
  }

  function Comma(more: bool): string { if more then [','] else [] }

  function Items(j: Json, i: nat): string
    requires j.Arr? && i <= |j.items|
    decreases j, 0, |j.items| - i
  {
    if i == |j.items| then [] else Marshal(j.items[i]) + Comma(i + 1 < |j.items|) + Items(j, i + 1)
  }

  function Member(j: Json, k: string): string
    requires j.Obj? && k in j.fields
    decreases j, 0, 0
  {
    Quote(k) + [':'] + Marshal(j.fields[k])
  }

  function Members(j: Json, ks: seq<string>): string
    requires j.Obj? && forall k | k in ks :: k in j.fields
    decreases j, 0, |ks| + 1
  {
    if ks == [] then [] else Member(j, ks[0]) + Comma(|ks| > 1) + Members(j, ks[1..])
  }

  /** What may follow a value: nothing, or a delimiter. */
  predicate Ends(x: string) { x == [] || x[0] in {',', ']', '}'} }
}
