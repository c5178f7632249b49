/** The structural diff of two API definitions (internal/adminsvc/api_lifecycle.go:32-102):
    three maps keyed by dotted paths. What it records, when it is empty, and that it can be
    applied and undone. */
module JsonDiff {
  import opened Options
  import opened Strings

  predicate NumberChar(c: char) { '0' <= c <= '9' || c in {'-', '+', '.', 'e', 'E'} }

  predicate IsNumber(s: string) {
    s != "" && s != "-0" && (s[0] == '-' || '0' <= s[0] <= '9') && forall c | c in s :: NumberChar(c)
  }

  /** A finite number by the one text that encoding/json writes for it; the two zeros, which compare
      equal, are one number. */
  type Number = s: string | IsNumber(s) witness "0"

  /** Every number of JSON is one of these, but for a negative zero: a sign, digits, a fraction, and an
      exponent with or without a sign of its own. */
  lemma NumbersAdmitted(neg: bool, whole: string, frac: string, mark: char, sign: string, exp: string)
    requires whole != "" && AllDigits(whole) && AllDigits(frac) && AllDigits(exp)
    requires mark in {'e', 'E'} && sign in {"", "+", "-"}
    ensures var front := (if neg then "-" else "") + whole;
      && (front != "-0" ==> IsNumber(front))
      && IsNumber(front + "." + frac) && IsNumber(front + [mark] + sign + exp)
      && IsNumber(front + "." + frac + [mark] + sign + exp)
  {
    var front, power := (if neg then "-" else "") + whole, [mark] + sign + exp;
    DigitsAdmitted(whole);
    DigitsAdmitted(frac);
    DigitsAdmitted(exp);
    assert forall c | c in front :: NumberChar(c);
    assert forall c | c in power :: NumberChar(c);
    assert front + [mark] + sign + exp == front + power;
    assert front + "." + frac + [mark] + sign + exp == front + "." + frac + power;
    assert "-0" == "-" + "0" && '.' !in "-0" && mark !in "-0";
    assert mark in front + power && '.' in front + "." + frac && '.' in front + "." + frac + power;
    assert front[0] == '-' || front[0] == whole[0];
  }

  lemma DigitsAdmitted(s: string)
    requires AllDigits(s)
    ensures forall c | c in s :: NumberChar(c)
  {
  }

  datatype Json =
    | Null
    | Bool(b: bool)
    | Num(n: Number)
    | Str(s: string)
    | Arr(items: seq<Json>)
    | Obj(fields: map<string, Json>)

  datatype Change = Change(before: Json, after: Json)

  datatype Diff = Diff(added: map<string, Json>, removed: map<string, Json>, changed: map<string, Change>)

  const EMPTY := Diff(map[], map[], map[])

  // ---- sort.Strings: by code points, as the byte order of UTF-8 does ----

  predicate Leq(a: string, b: string) {
    a == [] || (b != [] && (a[0] < b[0] || (a[0] == b[0] && Leq(a[1..], b[1..]))))
  }

  lemma {:induction false} LeqTotal(a: string, b: string)
    ensures Leq(a, b) || Leq(b, a)
    ensures Leq(a, b) && Leq(b, a) ==> a == b
  {
    if a != [] && b != [] {
      LeqTotal(a[1..], b[1..]);
      assert a == [a[0]] + a[1..] && b == [b[0]] + b[1..];
    }
  }

  lemma {:induction false} LeqTrans(a: string, b: string, c: string)
    requires Leq(a, b) && Leq(b, c)
    ensures Leq(a, c)
  {
    if a != [] && b != [] && c != [] && a[0] == b[0] == c[0] { LeqTrans(a[1..], b[1..], c[1..]); }
  }

  predicate IsLeast(m: string, keys: set<string>) { m in keys && forall x | x in keys :: Leq(m, x) }

  lemma {:induction false} LeastExists(keys: set<string>)
    requires keys != {}
    ensures exists m :: IsLeast(m, keys)
  {
    var k :| k in keys;
    var rest := keys - {k};
    LeqTotal(k, k);
    if rest == {} {
      assert keys == {k};
      assert IsLeast(k, keys);
    } else {
      LeastExists(rest);
      var m :| IsLeast(m, rest);
      LeqTotal(k, m);
      if Leq(k, m) {
        forall x | x in keys ensures Leq(k, x) { if x != k { LeqTrans(k, m, x); } }
        assert IsLeast(k, keys);
      } else {
        forall x | x in keys ensures Leq(m, x) { if x != k { assert x in rest; } }
        assert IsLeast(m, keys);
      }
    }
  }

  function Least(keys: set<string>): (m: string)
    requires keys != {}
    ensures IsLeast(m, keys)
  {
    LeastExists(keys);
    assert forall x, y | IsLeast(x, keys) && IsLeast(y, keys) :: x == y by {
      forall x, y | IsLeast(x, keys) && IsLeast(y, keys) ensures x == y { LeqTotal(x, y); }
    }
    var m :| IsLeast(m, keys); m
  }

  function Ordered(keys: set<string>): (ks: seq<string>)
    ensures forall x :: x in ks <==> x in keys
    ensures forall i, j | 0 <= i < j < |ks| :: ks[i] != ks[j] && Leq(ks[i], ks[j])
  {
    if keys == {} then [] else var m := Least(keys); [m] + Ordered(keys - {m})
  }

  // ---- diffValue ----

  function Child(path: string, k: string): string { if path != "" then path + "." + k else k }

  /** One key of two objects. */
  function DiffKey(path: string, b: Json, a: Json, k: string, out: Diff): Diff
    requires b.Obj? && a.Obj?
    decreases b, 0, 0
  {
    var child := Child(path, k);
    if k !in b.fields && k in a.fields then out.(added := out.added[child := a.fields[k]])
    else if k in b.fields && k !in a.fields then out.(removed := out.removed[child := b.fields[k]])
    else if k in b.fields then DiffInto(child, b.fields[k], a.fields[k], out)
    else out
  }

  function DiffKeys(path: string, b: Json, a: Json, keys: seq<string>, out: Diff): Diff
    requires b.Obj? && a.Obj?
    decreases b, 1, |keys|
  {
    if keys == [] then out
    else DiffKey(path, b, a, keys[|keys| - 1], DiffKeys(path, b, a, keys[..|keys| - 1], out))
  }

  function DiffInto(path: string, b: Json, a: Json, out: Diff): Diff
    decreases b, 2, 0
  {
    if b.Obj? && a.Obj? then DiffKeys(path, b, a, Ordered(b.fields.Keys + a.fields.Keys), out)
    else if b != a then out.(changed := out.changed[if path == "" then "$" else path := Change(b, a)])
    else out
  }

  lemma KeysFirst(path: string, b: Json, a: Json, keys: seq<string>, out: Diff)
    requires b.Obj? && a.Obj?
    ensures DiffKeys(path, b, a, keys[..0], out) == out
  {
  }

  lemma KeysNext(path: string, b: Json, a: Json, keys: seq<string>, i: nat, out: Diff)
    requires b.Obj? && a.Obj? && i < |keys|
    ensures DiffKeys(path, b, a, keys[..i + 1], out)
        == DiffKey(path, b, a, keys[i], DiffKeys(path, b, a, keys[..i], out))
  {
    hide DiffKey;
    assert keys[..i + 1][..i] == keys[..i];
  }

  lemma IntoObjects(path: string, b: Json, a: Json, out: Diff)
    requires b.Obj? && a.Obj?
    ensures DiffInto(path, b, a, out) == DiffKeys(path, b, a, Ordered(b.fields.Keys + a.fields.Keys), out)
  {
  }

  lemma IntoValues(path: string, b: Json, a: Json, out: Diff)
    requires !(b.Obj? && a.Obj?)
    ensures DiffInto(path, b, a, out)
         == if b != a then out.(changed := out.changed[if path == "" then "$" else path := Change(b, a)]) else out
  {
  }

  /** The jsonDiff that diffValue fills in through a pointer. */
  class Output {
    var added: map<string, Json>
    var removed: map<string, Json>
    var changed: map<string, Change>

    constructor ()
      ensures Recorded() == EMPTY
    { added, removed, changed := map[], map[], map[]; }

    function Recorded(): Diff reads this { Diff(added, removed, changed) }
  }

  /** diffValue as written: recursion over the sorted keys, recording into `out`. */
  method DiffValue(path: string, before: Json, after: Json, out: Output)
    modifies out
    ensures out.Recorded() == DiffInto(path, before, after, old(out.Recorded()))
    decreases before
  {
    hide Ordered, DiffKeys, DiffInto;
    ghost var d := out.Recorded();
    if before.Obj? && after.Obj? {
      var bm, am := before.fields, after.fields;
      var ordered := Ordered(bm.Keys + am.Keys);
      KeysFirst(path, before, after, ordered, d);
      for i := 0 to |ordered|
        invariant out.Recorded() == DiffKeys(path, before, after, ordered[..i], d)
      {
        var k := ordered[i];
        assert k in ordered;
        KeysNext(path, before, after, ordered, i, d);
        var child := if path != "" then path + "." + k else k;
        if k !in bm && k in am {
          out.added := out.added[child := am[k]];
        } else if k in bm && k !in am {
          out.removed := out.removed[child := bm[k]];
        } else {
          DiffValue(child, bm[k], am[k], out);
        }
      }
      assert ordered[..|ordered|] == ordered;
      IntoObjects(path, before, after, d);
      return;
    }
    IntoValues(path, before, after, d);
    if before != after {
      out.changed := out.changed[if path == "" then "$" else path := Change(before, after)];
    }
  }

  /** A raw message: no bytes at all, bytes that do not parse, or a document. */
  datatype Raw = NoBytes | Malformed | Doc(value: Json)

  /** The document a message stands for; no bytes at all stand for an empty object. */
  predicate StandsFor(r: Raw, v: Json) { r == Doc(v) || (r.NoBytes? && v == Obj(map[])) }

  method DiffJSON(before: Raw, after: Raw) returns (d: Option<Diff>)
    ensures d.None? <==> before.Malformed? || after.Malformed?
    ensures forall b, a | StandsFor(before, b) && StandsFor(after, a) ::
      d == Some(DiffOf(b, a)) && (d.value == EMPTY <==> b == a)
    ensures d.Some? ==> exists b, a :: StandsFor(before, b) && StandsFor(after, a)
  {
    if before.Malformed? || after.Malformed? { return None; }
    var out := new Output();
    DiffValue("", ValueOf(before), ValueOf(after), out);
    EmptyIffEqual(ValueOf(before), ValueOf(after));
    assert StandsFor(before, ValueOf(before)) && StandsFor(after, ValueOf(after));
    return Some(out.Recorded());
  }

  function ValueOf(r: Raw): Json { match r case Doc(v) => v case _ => Obj(map[]) }

  function DiffOf(b: Json, a: Json): Diff { DiffInto("", b, a, EMPTY) }

  /** A change of anything but two objects is recorded whole, under `$`. */
  lemma WholeChange(b: Json, a: Json)
    requires !(b.Obj? && a.Obj?) && b != a
    ensures DiffOf(b, a) == Diff(map[], map[], map["$" := Change(b, a)])
  {
    assert DiffOf(b, a).changed == map["$" := Change(b, a)];
  }

  // ---- Empty exactly when equal, for all values ----

  lemma {:induction false} NeverForgets(path: string, b: Json, a: Json, out: Diff)
    requires out != EMPTY
    ensures DiffInto(path, b, a, out) != EMPTY
    decreases b, 2, 0
  {
    if b.Obj? && a.Obj? { KeysNeverForget(path, b, a, Ordered(b.fields.Keys + a.fields.Keys), out); }
  }

  lemma {:induction false} KeyNeverForgets(path: string, b: Json, a: Json, k: string, out: Diff)
    requires b.Obj? && a.Obj? && out != EMPTY
    ensures DiffKey(path, b, a, k, out) != EMPTY
    decreases b, 0, 0
  {
    if k in b.fields && k in a.fields { NeverForgets(Child(path, k), b.fields[k], a.fields[k], out); }
  }

  lemma {:induction false} KeysNeverForget(path: string, b: Json, a: Json, keys: seq<string>, out: Diff)
    requires b.Obj? && a.Obj? && out != EMPTY
    ensures DiffKeys(path, b, a, keys, out) != EMPTY
    decreases b, 1, |keys|
  {
    if keys != [] {
      KeysNeverForget(path, b, a, keys[..|keys| - 1], out);
      KeyNeverForgets(path, b, a, keys[|keys| - 1], DiffKeys(path, b, a, keys[..|keys| - 1], out));
    }
  }

  lemma {:induction false} SameIsSilent(path: string, v: Json, out: Diff)
    ensures DiffInto(path, v, v, out) == out
    decreases v, 2, 0
  {
    if v.Obj? { SameKeysSilent(path, v, Ordered(v.fields.Keys + v.fields.Keys), out); }
  }

  lemma {:induction false} SameKeysSilent(path: string, v: Json, keys: seq<string>, out: Diff)
    requires v.Obj?
    ensures DiffKeys(path, v, v, keys, out) == out
    decreases v, 1, |keys|
  {
    if keys != [] {
      SameKeysSilent(path, v, keys[..|keys| - 1], out);
      var k := keys[|keys| - 1];
      if k in v.fields { SameIsSilent(Child(path, k), v.fields[k], out); }
    }
  }

  lemma DifferingKey(b: map<string, Json>, a: map<string, Json>)
    requires b != a
    ensures exists k :: k in b.Keys + a.Keys && (k !in b || k !in a || b[k] != a[k])
  {
    assert (forall k | k in b.Keys + a.Keys :: k in b && k in a && b[k] == a[k]) ==> b == a;
  }

  lemma {:induction false} DifferenceShows(path: string, b: Json, a: Json, out: Diff)
    requires b != a
    ensures DiffInto(path, b, a, out) != EMPTY
    decreases b, 2, 0
  {
    if b.Obj? && a.Obj? {
      var keys := b.fields.Keys + a.fields.Keys;
      DifferingKey(b.fields, a.fields);
      var k :| k in keys && (k !in b.fields || k !in a.fields || b.fields[k] != a.fields[k]);
      assert k in Ordered(keys);
      KeysShow(path, b, a, Ordered(keys), out, k);
    } else {
      assert (if path == "" then "$" else path) in DiffInto(path, b, a, out).changed;
    }
  }

  lemma {:induction false} KeysShow(path: string, b: Json, a: Json, keys: seq<string>, out: Diff, k: string)
    requires b.Obj? && a.Obj? && k in keys && (k in b.fields || k in a.fields)
    requires k !in b.fields || k !in a.fields || b.fields[k] != a.fields[k]
    ensures DiffKeys(path, b, a, keys, out) != EMPTY
    decreases b, 1, |keys|
  {
    var n := |keys| - 1;
    var front := DiffKeys(path, b, a, keys[..n], out);
    if keys[n] == k {
      if k in b.fields && k in a.fields { DifferenceShows(Child(path, k), b.fields[k], a.fields[k], front); }
      else {
        var d := DiffKey(path, b, a, k, front);
        assert Child(path, k) in d.added || Child(path, k) in d.removed;
      }
    } else {
      assert k in keys[..n];
      KeysShow(path, b, a, keys[..n], out, k);
      KeyNeverForgets(path, b, a, keys[n], front);
    }
  }

  /** The diff is empty exactly when the values are equal, dotted keys or not. */
  lemma EmptyIffEqual(b: Json, a: Json)
    ensures DiffOf(b, a) == EMPTY <==> b == a
  {
    if b == a { SameIsSilent("", b, EMPTY); } else { DifferenceShows("", b, a, EMPTY); }
  }

  // ---- Swapping the arguments inverts the diff, for all values ----

  function Invert(d: Diff): Diff {
    Diff(d.removed, d.added, map p | p in d.changed :: Change(d.changed[p].after, d.changed[p].before))
  }

  lemma {:induction false} SwapInverts(path: string, b: Json, a: Json, out: Diff)
    ensures DiffInto(path, a, b, Invert(out)) == Invert(DiffInto(path, b, a, out))
    decreases b, 2, 0
  {
    if b.Obj? && a.Obj? {
      assert b.fields.Keys + a.fields.Keys == a.fields.Keys + b.fields.Keys;
      SwapInvertsKeys(path, b, a, Ordered(b.fields.Keys + a.fields.Keys), out);
    }
  }

  lemma {:induction false} SwapInvertsKeys(path: string, b: Json, a: Json, keys: seq<string>, out: Diff)
    requires b.Obj? && a.Obj?
    ensures DiffKeys(path, a, b, keys, Invert(out)) == Invert(DiffKeys(path, b, a, keys, out))
    decreases b, 1, |keys|
  {
    if keys != [] {
      SwapInvertsKeys(path, b, a, keys[..|keys| - 1], out);
      SwapInvertsKey(path, b, a, keys[|keys| - 1], DiffKeys(path, b, a, keys[..|keys| - 1], out));
    }
  }

  lemma {:induction false} SwapInvertsKey(path: string, b: Json, a: Json, k: string, out: Diff)
    requires b.Obj? && a.Obj?
    ensures DiffKey(path, a, b, k, Invert(out)) == Invert(DiffKey(path, b, a, k, out))
    decreases b, 0, 0
  {
    if k in b.fields && k in a.fields { SwapInverts(Child(path, k), b.fields[k], a.fields[k], out); }
  }

  lemma DiffInverts(b: Json, a: Json)
    ensures DiffOf(a, b) == Invert(DiffOf(b, a))
  {
    assert Invert(EMPTY) == EMPTY;
    SwapInverts("", b, a, EMPTY);
  }

  // ---- What is recorded, path by path ----

  /** Keys that a dotted path can be split back into. */
  predicate SafeKey(k: string) { k != "" && '.' !in k }

  predicate SafeKeys(ks: seq<string>) { forall k | k in ks :: SafeKey(k) }

  predicate Clean(j: Json) {
    j.Obj? ==> forall k | k in j.fields :: SafeKey(k) && Clean(j.fields[k])
  }

  datatype Edit = Add(value: Json) | Remove(value: Json) | Replace(before: Json, after: Json)

  /** The reference: the edit, if any, at a list of keys. */
  function EditAt(b: Json, a: Json, ks: seq<string>): Option<Edit>
    decreases |ks|
  {
    if !(b.Obj? && a.Obj?) then
      if ks == [] && b != a then Some(Replace(b, a)) else None
    else if ks == [] then None
    else if ks[0] in b.fields && ks[0] in a.fields then EditAt(b.fields[ks[0]], a.fields[ks[0]], ks[1..])
    else if |ks| != 1 then None
    else if ks[0] in a.fields then Some(Add(a.fields[ks[0]]))
    else if ks[0] in b.fields then Some(Remove(b.fields[ks[0]]))
    else None
  }

  /** Everything a diff says about one path. */
  datatype Record = Record(added: Option<Json>, removed: Option<Json>, changed: Option<Change>)

  function RecordOf(d: Diff, p: string): Record {
    Record(if p in d.added then Some(d.added[p]) else None,
           if p in d.removed then Some(d.removed[p]) else None,
           if p in d.changed then Some(d.changed[p]) else None)
  }

  function Put(r: Record, e: Option<Edit>): Record {
    match e
    case None => r
    case Some(Add(v)) => r.(added := Some(v))
    case Some(Remove(v)) => r.(removed := Some(v))
    case Some(Replace(x, y)) => r.(changed := Some(Change(x, y)))
  }

  const NOTHING := Record(None, None, None)

  lemma {:induction false} SplitJoin(ks: seq<string>)
    requires ks != [] && SafeKeys(ks)
    ensures Split(Join(ks, "."), '.') == ks && Join(ks, ".") != ""
  {
    var p := Join(ks, ".");
    assert ks[0] in ks;
    if |ks| > 1 {
      assert forall k | k in ks[1..] :: k in ks;
      SplitJoin(ks[1..]);
      assert p[..|ks[0]|] == ks[0] && p[|ks[0]|] == '.' && p[|ks[0]| + 1..] == Join(ks[1..], ".");
      assert IndexOf(p, '.') == |ks[0]|;
    }
  }

  lemma {:induction false} JoinSplit(p: string)
    ensures Join(Split(p, '.'), ".") == p
    decreases |p|
  {
    hide IndexOf, Split, Join;
    var i := IndexOf(p, '.');
    SplitNext(p, '.');
    if i == |p| {
      JoinOne(p, ".");
    } else {
      JoinSplit(p[i + 1..]);
      JoinCons(p[..i], Split(p[i + 1..], '.'), ".");
      assert p == p[..i] + "." + p[i + 1..];
    }
  }

  lemma SplitNext(s: string, c: char)
    ensures var i := IndexOf(s, c); Split(s, c) == if i == |s| then [s] else [s[..i]] + Split(s[i + 1..], c)
  {
    hide IndexOf;
  }

  lemma JoinOne(x: string, sep: string)
    ensures Join([x], sep) == x
  {
  }

  lemma JoinCons(x: string, rest: seq<string>, sep: string)
    requires rest != []
    ensures Join([x] + rest, sep) == x + sep + Join(rest, sep)
  {
    assert ([x] + rest)[1..] == rest;
  }

  /** A safe list of keys is the only one with its dotted path. */
  lemma PathIff(ks: seq<string>, p: string)
    requires ks != [] && SafeKeys(ks)
    ensures p == Join(ks, ".") <==> Split(p, '.') == ks
  {
    SplitJoin(ks);
    JoinSplit(p);
  }

  lemma ChildPath(ks: seq<string>, k: string)
    requires SafeKeys(ks) && SafeKey(k)
    ensures SafeKeys(ks + [k]) && Child(Join(ks, "."), k) == Join(ks + [k], ".")
  {
    JoinSnoc(ks, k, ".");
    if ks != [] { SplitJoin(ks); }
  }

  function EditFor(ks: seq<string>, b: Json, a: Json, p: string): Option<Edit> {
    if ks <= Split(p, '.') then EditAt(b, a, Split(p, '.')[|ks|..]) else None
  }

  lemma {:induction false} Records(ks: seq<string>, b: Json, a: Json, out: Diff, p: string)
    requires SafeKeys(ks) && Clean(b) && Clean(a) && (ks == [] ==> b.Obj? && a.Obj?)
    ensures RecordOf(DiffInto(Join(ks, "."), b, a, out), p) == Put(RecordOf(out, p), EditFor(ks, b, a, p))
    decreases b, 2, 0
  {
    if b.Obj? && a.Obj? {
      hide Clean, SafeKey, SafeKeys, Split, Join, DiffKeys, EditAt, RecordOf, Put;
      var keys := b.fields.Keys + a.fields.Keys;
      var parts := Split(p, '.');
      if ks <= parts && (parts == ks || parts[|ks|] !in keys) { RecordsObject(b, a, parts[|ks|..]); }
      KeysRecord(ks, b, a, Ordered(keys), out, p);
    } else {
      hide Clean, SafeKey, SafeKeys, Split, Join, DiffInto;
      LeafRecords(ks, b, a, out, p);
    }
  }

  lemma LeafRecords(ks: seq<string>, b: Json, a: Json, out: Diff, p: string)
    requires SafeKeys(ks) && ks != [] && !(b.Obj? && a.Obj?)
    ensures RecordOf(DiffInto(Join(ks, "."), b, a, out), p) == Put(RecordOf(out, p), EditFor(ks, b, a, p))
  {
    hide SafeKey, SafeKeys, Split, Join, DiffInto;
    PathIff(ks, p);
    SplitJoin(ks);
    IntoValues(Join(ks, "."), b, a, out);
  }

  lemma RecordsObject(b: Json, a: Json, rest: seq<string>)
    requires b.Obj? && a.Obj? && (rest == [] || rest[0] !in b.fields.Keys + a.fields.Keys)
    ensures EditAt(b, a, rest) == None
  {
  }

  lemma {:induction false} KeysRecord(ks: seq<string>, b: Json, a: Json, keys: seq<string>, out: Diff, p: string)
    requires SafeKeys(ks) && Clean(b) && Clean(a) && b.Obj? && a.Obj?
    requires forall k | k in keys :: k in b.fields || k in a.fields
    requires forall i, j | 0 <= i < j < |keys| :: keys[i] != keys[j]
    ensures RecordOf(DiffKeys(Join(ks, "."), b, a, keys, out), p) == Put(RecordOf(out, p),
              if ks < Split(p, '.') && Split(p, '.')[|ks|] in keys then EditFor(ks, b, a, p) else None)
    decreases b, 1, |keys|
  {
    if keys != [] {
      var n := |keys| - 1;
      var front := keys[..n];
      assert forall k | k in front :: k in keys;
      assert keys == front + [keys[n]] && keys[n] !in front && keys[n] in keys;
      KeysRecord(ks, b, a, front, out, p);
      KeyRecords(ks, b, a, keys[n], DiffKeys(Join(ks, "."), b, a, front, out), p);
    }
  }

  lemma CleanField(j: Json, k: string)
    requires j.Obj? && Clean(j) && k in j.fields
    ensures SafeKey(k) && Clean(j.fields[k])
  {
  }

  lemma {:induction false} KeyRecords(ks: seq<string>, b: Json, a: Json, k: string, out: Diff, p: string)
    requires SafeKeys(ks) && Clean(b) && Clean(a) && b.Obj? && a.Obj? && (k in b.fields || k in a.fields)
    ensures RecordOf(DiffKey(Join(ks, "."), b, a, k, out), p) == Put(RecordOf(out, p),
              if ks < Split(p, '.') && Split(p, '.')[|ks|] == k then EditFor(ks, b, a, p) else None)
    decreases b, 0, 0
  {
    hide Split, Join, DiffInto, DiffKeys, Clean, SafeKeys, SafeKey, RecordOf, Child, Put;
    if k in b.fields { CleanField(b, k); }
    if k in a.fields { CleanField(a, k); }
    ChildPath(ks, k);
    var parts := Split(p, '.');
    Descend(ks, k, parts);
    if k in b.fields && k in a.fields {
      Records(ks + [k], b.fields[k], a.fields[k], out, p);
    } else {
      PathIff(ks + [k], p);
      LoneKey(b, a, k, Join(ks + [k], "."), out, p);
    }
  }

  lemma Descend(ks: seq<string>, k: string, parts: seq<string>)
    ensures ks + [k] <= parts <==> ks < parts && parts[|ks|] == k
    ensures ks + [k] <= parts ==> parts[|ks|..][1..] == parts[|ks + [k]|..]
    ensures ks + [k] <= parts ==> (parts == ks + [k] <==> |parts[|ks|..]| == 1)
  {
    if ks < parts && parts[|ks|] == k { assert parts[..|ks| + 1] == ks + [k]; }
  }

  /** A key on one side only is recorded at its own path and nowhere else. */
  lemma LoneKey(b: Json, a: Json, k: string, child: string, out: Diff, p: string)
    requires b.Obj? && a.Obj? && (k in b.fields <==> k !in a.fields)
    ensures var d := if k in a.fields then out.(added := out.added[child := a.fields[k]])
                     else out.(removed := out.removed[child := b.fields[k]]);
            RecordOf(d, p) == Put(RecordOf(out, p), if p == child then EditAt(b, a, [k]) else None)
  {
  }

  /** For objects with safe keys the diff records at each path the edit at that path, and no more. */
  lemma DiffExact(b: Json, a: Json, p: string)
    requires b.Obj? && a.Obj? && Clean(b) && Clean(a)
    ensures RecordOf(DiffOf(b, a), p) == Put(NOTHING, EditAt(b, a, Split(p, '.')))
  {
    Records([], b, a, EMPTY, p);
    assert Split(p, '.')[0..] == Split(p, '.');
  }

  lemma {:induction false} EditsPrefixFree(b: Json, a: Json, ks: seq<string>, rest: seq<string>)
    requires EditAt(b, a, ks).Some? && EditAt(b, a, ks + rest).Some?
    ensures rest == []
    decreases |ks|
  {
    if ks != [] {
      assert (ks + rest)[0] == ks[0] && (ks + rest)[1..] == ks[1..] + rest;
      if ks[0] in b.fields && ks[0] in a.fields { EditsPrefixFree(b.fields[ks[0]], a.fields[ks[0]], ks[1..], rest); }
    }
  }

  ghost predicate Recorded(d: Diff, p: string) { RecordOf(d, p) != NOTHING }

  /** No recorded path lies under another one. */
  lemma PathsPrefixFree(b: Json, a: Json, p: string, q: string)
    requires b.Obj? && a.Obj? && Clean(b) && Clean(a)
    requires Recorded(DiffOf(b, a), p) && Recorded(DiffOf(b, a), q) && Split(p, '.') <= Split(q, '.')
    ensures p == q
  {
    hide DiffOf, Split, Join, Clean, EditAt, RecordOf;
    DiffExact(b, a, p);
    DiffExact(b, a, q);
    var ks, ls := Split(p, '.'), Split(q, '.');
    assert ls == ks + ls[|ks|..];
    EditsPrefixFree(b, a, ks, ls[|ks|..]);
    assert ls == ks;
    JoinSplit(p);
    JoinSplit(q);
  }

  /** No path is recorded in two of the three maps. */
  lemma RecordedOnce(b: Json, a: Json, p: string)
    requires b.Obj? && a.Obj? && Clean(b) && Clean(a)
    ensures var d := DiffOf(b, a);
      (p in d.added ==> p !in d.removed && p !in d.changed) && (p in d.removed ==> p !in d.changed)
  {
    hide DiffOf, Split, Clean, EditAt;
    DiffExact(b, a, p);
  }

  // ---- Applying a diff ----

  function Tail(path: string, p: string): string {
    if path == "" then p else if |p| > |path| then p[|path| + 1..] else ""
  }

  /** The keys a diff adds directly under `path`. */
  function NewKeys(d: Diff, path: string): (ks: set<string>)
    ensures forall k :: k in ks <==> SafeKey(k) && Child(path, k) in d.added
  {
    assert forall k :: Tail(path, Child(path, k)) == k;
    set p | p in d.added && SafeKey(Tail(path, p)) && Child(path, Tail(path, p)) == p :: Tail(path, p)
  }

  function PatchAt(d: Diff, path: string, v: Json): Json
    decreases v
  {
    if path != "" && path in d.changed then d.changed[path].after
    else if v.Obj? then
      Obj(map k | k in v.fields.Keys + NewKeys(d, path) && Child(path, k) !in d.removed ::
            if Child(path, k) in d.added then d.added[Child(path, k)] else PatchAt(d, Child(path, k), v.fields[k]))
    else v
  }

  function Patch(d: Diff, v: Json): Json {
    if "$" in d.changed && d.changed["$"].before == v then d.changed["$"].after else PatchAt(d, "", v)
  }

  /** The keys `ks` lead from (b, a) to (v, w) through objects on both sides. */
  predicate Leads(b: Json, a: Json, ks: seq<string>, v: Json, w: Json)
    decreases |ks|
  {
    if ks == [] then v == b && w == a
    else
      && b.Obj? && a.Obj? && ks[0] in b.fields && ks[0] in a.fields
      && Leads(b.fields[ks[0]], a.fields[ks[0]], ks[1..], v, w)
  }

  lemma {:induction false} LeadsOn(b: Json, a: Json, ks: seq<string>, v: Json, w: Json, k: string)
    requires Leads(b, a, ks, v, w) && v.Obj? && w.Obj? && k in v.fields && k in w.fields
    ensures Leads(b, a, ks + [k], v.fields[k], w.fields[k])
    decreases |ks|
  {
    if ks == [] {
      assert ([] + [k])[1..] == [];
    } else {
      assert (ks + [k])[0] == ks[0] && (ks + [k])[1..] == ks[1..] + [k];
      LeadsOn(b.fields[ks[0]], a.fields[ks[0]], ks[1..], v, w, k);
    }
  }

  lemma {:induction false} EditBelow(b: Json, a: Json, ks: seq<string>, v: Json, w: Json, rest: seq<string>)
    requires Leads(b, a, ks, v, w)
    ensures EditAt(b, a, ks + rest) == EditAt(v, w, rest)
    decreases |ks|
  {
    if ks == [] {
      assert ks + rest == rest;
    } else {
      assert (ks + rest)[0] == ks[0] && (ks + rest)[1..] == ks[1..] + rest;
      EditBelow(b.fields[ks[0]], a.fields[ks[0]], ks[1..], v, w, rest);
    }
  }

  /** What the diff of (b, a) says at the path of a place it reaches. */
  lemma RecordBelow(b: Json, a: Json, ks: seq<string>, v: Json, w: Json, rest: seq<string>)
    requires b.Obj? && a.Obj? && Clean(b) && Clean(a) && Leads(b, a, ks, v, w)
    requires SafeKeys(ks + rest) && ks + rest != []
    ensures RecordOf(DiffOf(b, a), Join(ks + rest, ".")) == Put(NOTHING, EditAt(v, w, rest))
  {
    SplitJoin(ks + rest);
    DiffExact(b, a, Join(ks + rest, "."));
    EditBelow(b, a, ks, v, w, rest);
  }

  lemma {:induction false} PatchAtRestores(b: Json, a: Json, ks: seq<string>, v: Json, w: Json)
    requires b.Obj? && a.Obj? && Clean(b) && Clean(a) && Clean(v) && Clean(w)
    requires SafeKeys(ks) && Leads(b, a, ks, v, w)
    ensures PatchAt(DiffOf(b, a), Join(ks, "."), v) == w
    decreases v
  {
    hide Clean, SafeKey, SafeKeys, Child, DiffOf, Split;
    var d, path := DiffOf(b, a), Join(ks, ".");
    if ks != [] {
      SplitJoin(ks);
      assert ks + [] == ks;
      RecordBelow(b, a, ks, v, w, []);
    }
    if v.Obj? && w.Obj? {
      forall k | SafeKey(k)
        ensures RecordOf(d, Child(path, k)) == Put(NOTHING, EditAt(v, w, [k]))
      {
        ChildPath(ks, k);
        RecordBelow(b, a, ks, v, w, [k]);
      }
      forall k | k in v.fields && k in w.fields
        ensures PatchAt(d, Child(path, k), v.fields[k]) == w.fields[k]
      {
        CleanField(v, k);
        CleanField(w, k);
        ChildPath(ks, k);
        LeadsOn(b, a, ks, v, w, k);
        PatchAtRestores(b, a, ks + [k], v.fields[k], w.fields[k]);
      }
      PatchObject(d, path, v, w);
    }
  }

  lemma PatchKey(d: Diff, path: string, v: Json, w: Json, k: string)
    requires v.Obj? && w.Obj? && Clean(v) && Clean(w) && (path != "" ==> path !in d.changed)
    requires SafeKey(k) ==> RecordOf(d, Child(path, k)) == Put(NOTHING, EditAt(v, w, [k]))
    requires k in v.fields && k in w.fields ==> PatchAt(d, Child(path, k), v.fields[k]) == w.fields[k]
    ensures PatchAt(d, path, v).Obj?
    ensures k in PatchAt(d, path, v).fields <==> k in w.fields
    ensures k in w.fields ==> PatchAt(d, path, v).fields[k] == w.fields[k]
  {
    hide Clean, SafeKey, Child;
    if k in v.fields { CleanField(v, k); }
    if k in w.fields { CleanField(w, k); }
  }

  /** One object: the recorded edits of its own keys, and its children restored. */
  lemma PatchObject(d: Diff, path: string, v: Json, w: Json)
    requires v.Obj? && w.Obj? && Clean(v) && Clean(w) && (path != "" ==> path !in d.changed)
    requires forall k | SafeKey(k) :: RecordOf(d, Child(path, k)) == Put(NOTHING, EditAt(v, w, [k]))
    requires forall k | k in v.fields && k in w.fields :: PatchAt(d, Child(path, k), v.fields[k]) == w.fields[k]
    ensures PatchAt(d, path, v) == w
  {
    hide Clean, SafeKey, Child, PatchAt, RecordOf, Put, EditAt;
    PatchKey(d, path, v, w, "");
    var r := PatchAt(d, path, v);
    forall k
      ensures k in r.fields <==> k in w.fields
      ensures k in w.fields ==> r.fields[k] == w.fields[k]
    {
      PatchKey(d, path, v, w, k);
    }
    assert r.fields == w.fields;
  }

  /** Applying the diff to the old value gives the new one. */
  lemma PatchRestores(b: Json, a: Json)
    requires Clean(b) && Clean(a)
    ensures Patch(DiffOf(b, a), b) == a
  {
    if b.Obj? && a.Obj? {
      var d := DiffOf(b, a);
      if "$" in d.changed {
        RootKey(b, a);
      }
      PatchAtRestores(b, a, [], b, a);
    }
  }

  /** A change recorded under a key "$" is not mistaken for a change of the whole document. */
  lemma RootKey(b: Json, a: Json)
    requires b.Obj? && a.Obj? && Clean(b) && Clean(a) && "$" in DiffOf(b, a).changed
    ensures DiffOf(b, a).changed["$"].before != b
  {
    hide DiffOf, Clean, Split, Join;
    SplitJoin(["$"]);
    assert Join(["$"], ".") == "$" by { RootPath(); }
    DiffExact(b, a, "$");
    assert ["$"][1..] == [];
  }

  lemma RootPath()
    ensures Join(["$"], ".") == "$"
  {
  }

  /** Applying the inverted diff to the new value gives the old one back. */
  lemma UndoRestores(b: Json, a: Json)
    requires Clean(b) && Clean(a)
    ensures Patch(Invert(DiffOf(b, a)), a) == b
  {
    DiffInverts(b, a);
    PatchRestores(a, b);
  }

  // ---- Which keys a diff can be applied with ----

  predicate Uses(j: Json, k: string) {
    j.Obj? && (k in j.fields || exists l | l in j.fields :: Uses(j.fields[l], k))
  }

  function One(k: string, v: Json): Json { Obj(map[k := v]) }

  function Two(k: string, v: Json, l: string, w: Json): Json { Obj(map[k := v, l := w]) }

  /** Two new values that the diff from `b` does not tell apart. */
  predicate Confused(b: Json, a1: Json, a2: Json) { a1 != a2 && DiffOf(b, a1) == DiffOf(b, a2) }

  lemma OrderedOne(k: string)
    ensures Ordered({k}) == [k]
  {
    assert {k} - {Least({k})} == {};
  }

  lemma OrderedTwo(k: string, l: string)
    requires k != l
    ensures Ordered({k, l}) == [k, l] || Ordered({k, l}) == [l, k]
  {
    var m := Least({k, l});
    var other := if m == k then l else k;
    assert {k, l} - {m} == {other};
    OrderedOne(other);
  }

  lemma OneListed(path: string, b: Json, a: Json, k: string, out: Diff)
    requires b.Obj? && a.Obj?
    ensures DiffKeys(path, b, a, [k], out) == DiffKey(path, b, a, k, out)
  {
    hide DiffKey, DiffKeys;
    KeysFirst(path, b, a, [k], out);
    KeysNext(path, b, a, [k], 0, out);
    assert [k][..1] == [k];
  }

  lemma TwoListed(path: string, b: Json, a: Json, k: string, l: string, out: Diff)
    requires b.Obj? && a.Obj?
    ensures DiffKeys(path, b, a, [k, l], out) == DiffKey(path, b, a, l, DiffKey(path, b, a, k, out))
  {
    hide DiffKey, DiffKeys;
    OneListed(path, b, a, k, out);
    KeysNext(path, b, a, [k, l], 1, out);
    assert [k, l][..1] == [k] && [k, l][..2] == [k, l];
  }

  lemma OneKey(path: string, b: Json, a: Json, k: string, out: Diff)
    requires b.Obj? && a.Obj? && b.fields.Keys + a.fields.Keys == {k}
    ensures DiffInto(path, b, a, out) == DiffKey(path, b, a, k, out)
  {
    hide DiffKey, DiffKeys, DiffInto, Ordered;
    OrderedOne(k);
    IntoObjects(path, b, a, out);
    OneListed(path, b, a, k, out);
  }

  lemma TwoKeys(path: string, b: Json, a: Json, k: string, l: string, out: Diff)
    requires b.Obj? && a.Obj? && b.fields.Keys + a.fields.Keys == {k, l} && k != l
    ensures DiffInto(path, b, a, out) == DiffKey(path, b, a, l, DiffKey(path, b, a, k, out))
         || DiffInto(path, b, a, out) == DiffKey(path, b, a, k, DiffKey(path, b, a, l, out))
  {
    hide DiffKey, DiffKeys, DiffInto, Ordered;
    OrderedTwo(k, l);
    IntoObjects(path, b, a, out);
    TwoListed(path, b, a, k, l, out);
    TwoListed(path, b, a, l, k, out);
  }

  const LEAF := Null

  lemma UnderKey(path: string, x: string, y: string, k: string, o: Diff)
    requires x != k
    ensures DiffKey(path, One(x, Obj(map[])), Two(x, One(y, LEAF), k, LEAF), x, o)
         == o.(added := o.added[Child(Child(path, x), y) := LEAF])
    ensures DiffKey(path, One(x, Obj(map[])), Two(x, Obj(map[]), k, LEAF), x, o) == o
  {
    hide Child, Ordered, DiffInto, DiffKeys;
    OneKey(Child(path, x), Obj(map[]), One(y, LEAF), y, o);
    SameIsSilent(Child(path, x), Obj(map[]), o);
  }

  lemma BesideKey(path: string, x: string, v: Json, k: string, o: Diff)
    requires x != k
    ensures DiffKey(path, One(x, Obj(map[])), Two(x, v, k, LEAF), k, o) == o.(added := o.added[Child(path, k) := LEAF])
  {
  }

  /** `x` gains `y` beneath it or stays empty, while `k` is added beside it: the same records
      when the two paths meet. */
  lemma PathsMeet(path: string, x: string, y: string, k: string, out: Diff)
    requires x != k && Child(Child(path, x), y) == Child(path, k)
    ensures DiffInto(path, One(x, Obj(map[])), Two(x, One(y, LEAF), k, LEAF), out)
         == DiffInto(path, One(x, Obj(map[])), Two(x, Obj(map[]), k, LEAF), out)
  {
    hide Child, Ordered, DiffInto, DiffKeys, DiffKey;
    var after := out.(added := out.added[Child(path, k) := LEAF]);
    UnderKey(path, x, y, k, out);
    UnderKey(path, x, y, k, after);
    BesideKey(path, x, One(y, LEAF), k, out);
    BesideKey(path, x, One(y, LEAF), k, after);
    BesideKey(path, x, Obj(map[]), k, out);
    TwoKeys(path, One(x, Obj(map[])), Two(x, One(y, LEAF), k, LEAF), x, k, out);
    TwoKeys(path, One(x, Obj(map[])), Two(x, Obj(map[]), k, LEAF), x, k, out);
  }

  lemma GrownDiffers(x: string, y: string, k: string)
    requires x != k
    ensures Two(x, One(y, LEAF), k, LEAF) != Two(x, Obj(map[]), k, LEAF)
  {
    assert y in One(y, LEAF).fields;
    assert Two(x, One(y, LEAF), k, LEAF).fields[x] != Two(x, Obj(map[]), k, LEAF).fields[x];
  }

  lemma EmptyKeyConfuses() returns (b: Json, a1: Json, a2: Json)
    ensures Confused(b, a1, a2) && Uses(a1, "") && Uses(a2, "")
  {
    hide DiffInto;
    b, a1, a2 := One("", Obj(map[])), Two("", One("b", LEAF), "b", LEAF), Two("", Obj(map[]), "b", LEAF);
    PathsMeet("", "", "b", "b", EMPTY);
    GrownDiffers("", "b", "b");
  }

  lemma DottedKeyConfuses(x: string, y: string) returns (b: Json, a1: Json, a2: Json)
    ensures Confused(b, a1, a2) && Uses(a1, x + "." + y) && Uses(a2, x + "." + y)
  {
    hide DiffInto, Uses;
    var k := x + "." + y;
    var v, w1, w2 := One(x, Obj(map[])), Two(x, One(y, LEAF), k, LEAF), Two(x, Obj(map[]), k, LEAF);
    b, a1, a2 := One("p", v), One("p", w1), One("p", w2);
    assert "p" + "." + x + "." + y == "p" + "." + k;
    PathsMeet("p", x, y, k, EMPTY);
    OneKey("", b, a1, "p", EMPTY);
    OneKey("", b, a2, "p", EMPTY);
    GrownDiffers(x, y, k);
    UsesBelow("p", w1, k);
    UsesBelow("p", w2, k);
    assert a1.fields["p"] != a2.fields["p"];
  }

  lemma UsesBelow(l: string, w: Json, k: string)
    requires w.Obj? && k in w.fields
    ensures Uses(One(l, w), k)
  {
    assert l in One(l, w).fields && Uses(One(l, w).fields[l], k);
  }

  /** Any key that is empty or holds a dot lets the diff lose an addition. */
  lemma UnsafeKeyConfuses(k: string) returns (b: Json, a1: Json, a2: Json)
    requires !SafeKey(k)
    ensures Confused(b, a1, a2) && Uses(a1, k) && Uses(a2, k)
  {
    hide Confused, Uses;
    if k == "" {
      b, a1, a2 := EmptyKeyConfuses();
    } else {
      var i := IndexOf(k, '.');
      assert k == k[..i] + "." + k[i + 1..];
      b, a1, a2 := DottedKeyConfuses(k[..i], k[i + 1..]);
    }
  }

  /** Documents whose keys are all safe are never confused. */
  lemma SafeKeysNeverConfuse(b: Json, a1: Json, a2: Json)
    requires Clean(b) && Clean(a1) && Clean(a2)
    ensures !Confused(b, a1, a2)
  {
    PatchRestores(b, a1);
    PatchRestores(b, a2);
  }
}
