/** A reader of JSON text after RFC 8259, without white space, and the proof that it reads back every
    value from the text that is marshalled for it (internal/cache/cache.go:47-69). */
module JsonReader {
  import opened Options
  import opened Strings
  import opened JsonDiff
  import opened JsonText

  datatype Parse = Failed | Parsed(value: Json, rest: string)

  function NumberRun(s: string): (n: nat)
    ensures n <= |s| && (forall i | 0 <= i < n :: NumberChar(s[i])) && (n < |s| ==> !NumberChar(s[n]))
  {
    if s == [] || !NumberChar(s[0]) then 0 else 1 + NumberRun(s[1..])
  }

  function ReadNumber(s: string): Parse {
    var n := NumberRun(s);
    if IsNumber(s[..n]) then Parsed(Num(s[..n]), s[n..]) else Failed
  }

  function ReadValue(s: string): (p: Parse)
    ensures p.Parsed? ==> |p.rest| < |s|
    decreases |s|, 1
  {
    if s == [] then Failed
    else if s[0] == '{' then
      if |s| > 1 && s[1] == '}' then Parsed(Obj(map[]), s[2..]) else ReadMembers(s[1..], map[])
    else if s[0] == '[' then
      if |s| > 1 && s[1] == ']' then Parsed(Arr([]), s[2..]) else ReadItems(s[1..], [])
    else if s[0] == '"' then
      match ReadText(s[1..]) case None => Failed case Some((t, rest)) => Parsed(Str(t), rest)
    else if HasPrefix(s, "null") then Parsed(Null, s[4..])
    else if HasPrefix(s, "true") then Parsed(Bool(true), s[4..])
    else if HasPrefix(s, "false") then Parsed(Bool(false), s[5..])
    else ReadNumber(s)
  }

  /** The items of an array after those already read, up to its closing bracket. */
  function ReadItems(s: string, items: seq<Json>): (p: Parse)
    ensures p.Parsed? ==> |p.rest| < |s|
    decreases |s|, 2
  {
    match ReadValue(s)
    case Failed => Failed
    case Parsed(v, rest) =>
      if rest == [] then Failed
      else if rest[0] == ',' then ReadItems(rest[1..], items + [v])
      else if rest[0] == ']' then Parsed(Arr(items + [v]), rest[1..])
      else Failed
  }

  /** The members of an object after those already read, up to its closing brace. */
  function ReadMembers(s: string, fields: map<string, Json>): (p: Parse)
    ensures p.Parsed? ==> |p.rest| < |s|
    decreases |s|, 0
  {
    if s == [] || s[0] != '"' then Failed
    else match ReadText(s[1..])
      case None => Failed
      case Some((k, colon)) =>
        if colon == [] || colon[0] != ':' then Failed
        else match ReadValue(colon[1..])
          case Failed => Failed
          case Parsed(v, rest) =>
            if rest == [] then Failed
            else if rest[0] == ',' then ReadMembers(rest[1..], fields[k := v])
            else if rest[0] == '}' then Parsed(Obj(fields[k := v]), rest[1..])
            else Failed
  }

  // ---- Reading back ----

  lemma {:induction false} RunEnds(n: string, x: string)
    requires (forall c | c in n :: NumberChar(c)) && Ends(x)
    ensures NumberRun(n + x) == |n|
  {
    if n == [] {
      assert n + x == x;
    } else {
      assert (n + x)[0] == n[0] && (n + x)[1..] == n[1..] + x && n[0] in n;
      RunEnds(n[1..], x);
    }
  }

  lemma NumberReads(n: Number, x: string)
    requires Ends(x)
    ensures ReadValue(n + x) == Parsed(Num(n), x)
  {
    hide NumberRun;
    var s := n + x;
    RunEnds(n, x);
    assert s[0] == n[0] && n[0] in n && s[..|n|] == n && s[|n|..] == x;
    assert !HasPrefix(s, "null") && !HasPrefix(s, "true") && !HasPrefix(s, "false") by {
      assert |s| >= 4 ==> s[..4][0] == s[0];
      assert |s| >= 5 ==> s[..5][0] == s[0];
    }
  }

  lemma WordReads(x: string)
    ensures ReadValue("null" + x) == Parsed(Null, x)
    ensures ReadValue("true" + x) == Parsed(Bool(true), x)
    ensures ReadValue("false" + x) == Parsed(Bool(false), x)
  {
    assert ("null" + x)[..4] == "null" && ("null" + x)[4..] == x;
    assert ("true" + x)[..4] == "true" && ("true" + x)[4..] == x && "true"[0] != "null"[0];
    assert ("false" + x)[..5] == "false" && ("false" + x)[5..] == x;
    assert ("false" + x)[..4][0] == 'f';
  }

  lemma StringReads(t: string, x: string)
    ensures ReadValue(Quote(t) + x) == Parsed(Str(t), x)
  {
    hide ReadText, EscapeText;
    var s := Quote(t) + x;
    TextReads(t, x);
    assert s[0] == '"' && s[1..] == EscapeText(t) + ("\"" + x);
  }

  /** Every value is read back from its own text, wherever a delimiter or nothing follows. */
  lemma {:induction false} MarshalReads(j: Json, x: string)
    requires Ends(x)
    ensures ReadValue(Marshal(j) + x) == Parsed(j, x)
    decreases j, 2, 0
  {
    hide ReadValue, ReadText, EscapeText, Quote;
    match j {
      case Null => WordReads(x);
      case Bool(b) => WordReads(x);
      case Num(n) => NumberReads(n, x);
      case Str(t) => StringReads(t, x);
      case Arr(items) => ArrayReads(j, x);
      case Obj(fields) => ObjectReads(j, x);
    }
  }

  lemma {:induction false} ArrayReads(j: Json, x: string)
    requires j.Arr?
    ensures ReadValue(Marshal(j) + x) == Parsed(j, x)
    decreases j, 1, 0
  {
    hide ReadItems;
    var s := Marshal(j) + x;
    if j.items == [] {
      assert s == "[]" + x && s[2..] == x;
    } else {
      ItemsRead(j, 0, x);
      ItemsBegin(j);
      hide Items;
      assert s[1..] == Items(j, 0) + ("]" + x) && s[1] == Items(j, 0)[0] && j.items[..0] == [];
    }
  }

  lemma ItemsBegin(j: Json)
    requires j.Arr? && j.items != []
    ensures Items(j, 0) != [] && Items(j, 0)[0] != ']'
  {
    hide Marshal;
    assert Items(j, 0)[0] == Marshal(j.items[0])[0];
  }

  lemma {:induction false} ItemsRead(j: Json, i: nat, x: string)
    requires j.Arr? && i < |j.items|
    ensures ReadItems(Items(j, i) + ("]" + x), j.items[..i]) == Parsed(j, x)
    decreases j, 0, |j.items| - i
  {
    hide ReadValue, Marshal, Items;
    var v := j.items[i];
    ItemsText(j, i, x);
    assert j.items[..i] + [v] == j.items[..i + 1];
    if i + 1 == |j.items| {
      var rest := "]" + x;
      MarshalReads(v, rest);
      assert j.items[..i + 1] == j.items && rest[1..] == x;
    } else {
      ItemsRead(j, i + 1, x);
      var more := Items(j, i + 1) + ("]" + x);
      var rest := "," + more;
      MarshalReads(v, rest);
      assert rest[1..] == more;
    }
  }

  lemma ItemsText(j: Json, i: nat, x: string)
    requires j.Arr? && i < |j.items|
    ensures Items(j, i) + ("]" + x)
        == Marshal(j.items[i]) + if i + 1 == |j.items| then "]" + x else "," + (Items(j, i + 1) + ("]" + x))
  {
    hide Marshal;
    var t := Marshal(j.items[i]);
    if i + 1 == |j.items| {
      assert Items(j, i) == t;
    } else {
      var more := Items(j, i + 1);
      assert Items(j, i) == t + [','] + more;
      hide Items;
      assert t + [','] + more + ("]" + x) == t + ("," + (more + ("]" + x)));
    }
  }

  function Filled(acc: map<string, Json>, j: Json, ks: seq<string>): map<string, Json>
    requires j.Obj? && forall k | k in ks :: k in j.fields
    decreases |ks|
  {
    if ks == [] then acc else Filled(acc[ks[0] := j.fields[ks[0]]], j, ks[1..])
  }

  lemma {:induction false} FilledIs(acc: map<string, Json>, j: Json, ks: seq<string>)
    requires j.Obj? && forall k | k in ks :: k in j.fields
    ensures forall k :: k in Filled(acc, j, ks) <==> k in acc || k in ks
    ensures forall k | k in Filled(acc, j, ks) :: Filled(acc, j, ks)[k] == if k in ks then j.fields[k] else acc[k]
    decreases |ks|
  {
    if ks != [] {
      FilledIs(acc[ks[0] := j.fields[ks[0]]], j, ks[1..]);
      assert ks == [ks[0]] + ks[1..];
    }
  }

  lemma FilledAll(j: Json)
    requires j.Obj?
    ensures Filled(map[], j, Ordered(j.fields.Keys)) == j.fields
  {
    FilledIs(map[], j, Ordered(j.fields.Keys));
  }

  lemma {:induction false} ObjectReads(j: Json, x: string)
    requires j.Obj?
    ensures ReadValue(Marshal(j) + x) == Parsed(j, x)
    decreases j, 1, 0
  {
    hide ReadMembers, Filled, Marshal, Members, Ordered;
    var s, ks := Marshal(j) + x, Ordered(j.fields.Keys);
    ObjectText(j, x);
    if ks == [] {
      assert j.fields == map[] by { assert forall k :: k !in j.fields; }
      NoMembers(j);
      assert s == "{" + ("}" + x) && s[1] == '}' && s[2..] == x;
    } else {
      MembersRead(j, ks, map[], x);
      FilledAll(j);
      MembersBegin(j, ks);
      assert s[1..] == Members(j, ks) + ("}" + x) && s[1] == Members(j, ks)[0];
    }
  }

  lemma NoMembers(j: Json)
    requires j.Obj?
    ensures Members(j, []) == []
  {
  }

  lemma ObjectText(j: Json, x: string)
    requires j.Obj?
    ensures Marshal(j) + x == "{" + (Members(j, Ordered(j.fields.Keys)) + ("}" + x))
  {
    hide Members, Ordered;
    var t := Members(j, Ordered(j.fields.Keys));
    assert Marshal(j) == ['{'] + t + ['}'];
    hide Marshal;
    assert ['{'] + t + ['}'] + x == "{" + (t + ("}" + x));
  }

  lemma MembersBegin(j: Json, ks: seq<string>)
    requires j.Obj? && ks != [] && forall k | k in ks :: k in j.fields
    ensures Members(j, ks) != [] && Members(j, ks)[0] == '"'
  {
    hide Marshal, EscapeText, Members;
    MembersNext(j, ks);
    var t := Quote(ks[0]) + [':'] + Marshal(j.fields[ks[0]]);
    assert t[0] == '"';
  }

  /** One member, its value's text taken as read. */
  lemma MemberReads(k: string, v: Json, t: string, rest: string, acc: map<string, Json>)
    requires ReadValue(t + rest) == Parsed(v, rest)
    ensures ReadMembers(Quote(k) + [':'] + t + rest, acc)
        == if rest == [] then Failed
           else if rest[0] == ',' then ReadMembers(rest[1..], acc[k := v])
           else if rest[0] == '}' then Parsed(Obj(acc[k := v]), rest[1..])
           else Failed
  {
    hide ReadValue, ReadText, EscapeText;
    var s, colon := Quote(k) + [':'] + t + rest, ":" + (t + rest);
    TextReads(k, colon);
    assert s[0] == '"' && s[1..] == EscapeText(k) + ("\"" + colon);
    assert colon[1..] == t + rest;
  }

  lemma {:induction false} MembersRead(j: Json, ks: seq<string>, acc: map<string, Json>, x: string)
    requires j.Obj? && ks != [] && forall k | k in ks :: k in j.fields
    ensures ReadMembers(Members(j, ks) + ("}" + x), acc) == Parsed(Obj(Filled(acc, j, ks)), x)
    decreases j, 0, |ks|
  {
    hide ReadValue, ReadMembers, Marshal, Quote, Members;
    assert ks[0] in ks && forall y | y in ks[1..] :: y in ks;
    var k, v := ks[0], j.fields[ks[0]];
    MembersText(j, ks, x);
    if |ks| == 1 {
      assert ks[1..] == [];
      var rest := "}" + x;
      MarshalReads(v, rest);
      MemberReads(k, v, Marshal(v), rest, acc);
      assert rest[1..] == x;
    } else {
      MembersRead(j, ks[1..], acc[k := v], x);
      var more := Members(j, ks[1..]) + ("}" + x);
      var rest := "," + more;
      MarshalReads(v, rest);
      MemberReads(k, v, Marshal(v), rest, acc);
      assert rest[1..] == more;
    }
  }

  lemma MembersText(j: Json, ks: seq<string>, x: string)
    requires j.Obj? && ks != [] && forall k | k in ks :: k in j.fields
    ensures Members(j, ks) + ("}" + x) == Quote(ks[0]) + [':'] + Marshal(j.fields[ks[0]])
        + if |ks| == 1 then "}" + x else "," + (Members(j, ks[1..]) + ("}" + x))
  {
    hide Marshal, Quote;
    assert ks[0] in ks && forall y | y in ks[1..] :: y in ks;
    MembersNext(j, ks);
    hide Members;
    var t := Quote(ks[0]) + [':'] + Marshal(j.fields[ks[0]]);
    if |ks| > 1 { Commas(t, Members(j, ks[1..]), "}" + x); }
  }

  lemma MembersNext(j: Json, ks: seq<string>)
    requires j.Obj? && ks != [] && forall k | k in ks :: k in j.fields
    ensures ks[0] in ks && forall k | k in ks[1..] :: k in j.fields
    ensures var t := Quote(ks[0]) + [':'] + Marshal(j.fields[ks[0]]);
      Members(j, ks) == if |ks| == 1 then t else t + [','] + Members(j, ks[1..])
  {
    hide Marshal, Quote;
    if |ks| == 1 {
      assert ks[1..] == [] && Members(j, ks[1..]) == [];
    }
  }

  lemma Commas(t: string, more: string, end: string)
    ensures t + [','] + more + end == t + ("," + (more + end))
  {
  }

  /** So reading a marshalled value off the front of a text is unambiguous... */
  lemma MarshalCancel(a: Json, b: Json, x: string, y: string)
    requires Ends(x) && Ends(y) && Marshal(a) + x == Marshal(b) + y
    ensures a == b && x == y
  {
    hide Marshal, ReadValue;
    MarshalReads(a, x);
    MarshalReads(b, y);
  }

  /** ...and different values never have the same text. */
  lemma MarshalInjective(a: Json, b: Json)
    requires Marshal(a) == Marshal(b)
    ensures a == b
  {
    hide Marshal;
    MarshalCancel(a, b, [], []);
  }
}
