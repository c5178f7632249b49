/** The gateway's response cache (internal/cache/cache.go; internal/gatewaysvc/service.go): which
    requests share a cache key, what a response taken from the cache or from a shared load is the
    answer to, and whether a write can ever be answered from it. */
module ResponseCache {
  import opened Options
  import opened Strings
  import opened JsonDiff
  import opened JsonText
  import JsonReader
  import Publish
  import QueryBuilder

  type Query = map<string, seq<string>>

  type Params = map<string, Json>

  const LIMIT := "ddag_limit"
  const OFFSET := "ddag_offset"
  const QUERY := "query_"

  // ---- cacheVariantParams ----

  function Decimal(n: int): Number {
    var digits := Itoa(if n < 0 then -n else n);
    assert forall c | c in digits :: NumberChar(c);
    assert n < 0 ==> "-" + digits != "-0" by { if n < 0 { NotZero(-n); } }
    if n < 0 then "-" + digits else digits
  }

  lemma NotZero(n: nat)
    requires n > 0
    ensures Itoa(n) != "0" && "-" + Itoa(n) != "-0"
  {
    assert Itoa(0) == "0";
    if Itoa(n) == Itoa(0) { ItoaInjective(n, 0); }
    assert ("-" + Itoa(n))[1..] == Itoa(n) && "-0"[1..] == "0";
  }

  lemma DecimalInjective(m: int, n: int)
    requires Decimal(m) == Decimal(n)
    ensures m == n
  {
    var a, b := Itoa(if m < 0 then -m else m), Itoa(if n < 0 then -n else n);
    assert '0' <= a[0] <= '9' && '0' <= b[0] <= '9';
    assert m < 0 ==> Decimal(m)[1..] == a;
    assert n < 0 ==> Decimal(n)[1..] == b;
    assert Decimal(m)[0] == Decimal(n)[0];
    ItoaInjective(if m < 0 then -m else m, if n < 0 then -n else n);
  }

  /** The names the keys `ks` of a query get in the variant. */
  function Names(q: Query, ks: set<string>): (names: set<string>)
    requires ks <= q.Keys
    ensures forall n :: n in names <==> HasPrefix(n, QUERY) && n[|QUERY|..] in ks && q[n[|QUERY|..]] != []
  {
    assert forall k: string :: HasPrefix(QUERY + k, QUERY) && (QUERY + k)[|QUERY|..] == k;
    assert forall n | HasPrefix(n, QUERY) :: n == QUERY + n[|QUERY|..];
    set k | k in ks && q[k] != [] :: QUERY + k
  }

  function Joined(q: Query, ks: set<string>): Params
    requires ks <= q.Keys
  {
    map n | n in Names(q, ks) :: Str(Join(q[n[|QUERY|..]], ","))
  }

  function Variant(params: Params, q: Query, limit: int, offset: int): Params {
    params[LIMIT := Num(Decimal(limit))][OFFSET := Num(Decimal(offset))] + Joined(q, q.Keys)
  }

  lemma JoinedNext(q: Query, ks: set<string>, k: string)
    requires ks <= q.Keys && k in q && k !in ks
    ensures Joined(q, ks + {k}) == if q[k] != [] then Joined(q, ks)[QUERY + k := Str(Join(q[k], ","))]
        else Joined(q, ks)
  {
    assert (QUERY + k)[|QUERY|..] == k && HasPrefix(QUERY + k, QUERY);
    forall n | HasPrefix(n, QUERY) && n[|QUERY|..] == k ensures n == QUERY + k {}
    var grown := if q[k] != [] then Joined(q, ks)[QUERY + k := Str(Join(q[k], ","))] else Joined(q, ks);
    assert forall n :: n in Joined(q, ks + {k}) <==> n in grown;
  }

  lemma AddNext(base: Params, q: Query, ks: set<string>, k: string)
    requires ks <= q.Keys && k in q && k !in ks
    ensures base + Joined(q, ks + {k})
         == if q[k] != [] then (base + Joined(q, ks))[QUERY + k := Str(Join(q[k], ","))] else base + Joined(q, ks)
  {
    hide Joined, Join;
    JoinedNext(q, ks, k);
  }

  lemma JoinedNone(q: Query)
    ensures Joined(q, {}) == map[]
  {
  }

  method CopyParams(params: Params) returns (out: Params)
    ensures out == params
  {
    out := map[];
    var rest := params.Keys;
    while rest != {}
      invariant rest <= params.Keys && out == map k | k in params.Keys - rest :: params[k]
      decreases |rest|
    {
      var k :| k in rest;
      out := out[k := params[k]];
      rest := rest - {k};
    }
    assert params.Keys - rest == params.Keys;
  }

  /** As written: passes over Go maps, in whatever order they come. */
  method CacheVariantParams(params: Params, query: Query, limit: int, offset: int) returns (out: Params)
    ensures out == Variant(params, query, limit, offset)
  {
    hide Joined, Join, HasPrefix;
    out := CopyParams(params);
    out := out[LIMIT := Num(Decimal(limit))];
    out := out[OFFSET := Num(Decimal(offset))];
    ghost var base := out;
    var rest := query.Keys;
    ghost var done: set<string> := {};
    JoinedNone(query);
    while rest != {}
      invariant done !! rest && done + rest == query.Keys && out == base + Joined(query, done)
      decreases |rest|
    {
      var k :| k in rest;
      AddNext(base, query, done, k);
      if |query[k]| > 0 {
        out := out["query_" + k := Str(Join(query[k], ","))];
      }
      rest := rest - {k};
      done := done + {k};
    }
    assert done == query.Keys;
  }

  /** Parameter names that the variant's own names cannot overwrite. */
  predicate SafeName(n: string) { n != "ddag_limit" && n != "ddag_offset" && !HasPrefix(n, "query_") }

  predicate NoClash(params: Params) { forall n | n in params :: SafeName(n) }

  predicate SingleValued(q: Query) { forall k | k in q :: |q[k]| == 1 }

  lemma ReservedNames()
    ensures LIMIT != OFFSET && !HasPrefix(LIMIT, QUERY) && !HasPrefix(OFFSET, QUERY)
  {
    assert LIMIT[0] == 'd' && OFFSET[0] == 'd' && QUERY[0] == 'q' && LIMIT[5] != OFFSET[5];
  }

  /** The variant determines the parameters, the page, and the joined query values. */
  lemma VariantDetermines(p1: Params, q1: Query, l1: int, o1: int, p2: Params, q2: Query, l2: int, o2: int)
    requires NoClash(p1) && NoClash(p2) && Variant(p1, q1, l1, o1) == Variant(p2, q2, l2, o2)
    ensures p1 == p2 && l1 == l2 && o1 == o2 && Joined(q1, q1.Keys) == Joined(q2, q2.Keys)
  {
    hide Joined, Variant, SafeName, HasPrefix, NoClash, Decimal;
    ReservedNames();
    PartsOf(p1, q1, l1, o1);
    PartsOf(p2, q2, l2, o2);
    var v := Variant(p1, q1, l1, o1);
    OwnPart(v, p1);
    OwnPart(v, p2);
    QueryPart(v, Joined(q1, q1.Keys));
    QueryPart(v, Joined(q2, q2.Keys));
    DecimalInjective(l1, l2);
    DecimalInjective(o1, o2);
  }

  lemma OwnPart(v: Params, p: Params)
    requires NoClash(p) && forall n | SafeName(n) :: (n in v <==> n in p) && (n in p ==> v[n] == p[n])
    ensures p == map n | n in v && SafeName(n) :: v[n]
  {
    hide SafeName;
  }

  lemma QueryPart(v: Params, j: Params)
    requires forall n | HasPrefix(n, QUERY) :: (n in v <==> n in j) && (n in v ==> v[n] == j[n])
    requires forall n | n in j :: HasPrefix(n, QUERY)
    ensures j == map n | n in v && HasPrefix(n, QUERY) :: v[n]
  {
    hide HasPrefix;
  }

  /** The variant taken apart again. */
  lemma PartsOf(p: Params, q: Query, l: int, o: int)
    requires NoClash(p)
    ensures var v := Variant(p, q, l, o);
      && (forall n | SafeName(n) :: (n in v <==> n in p) && (n in p ==> v[n] == p[n]))
      && (forall n | HasPrefix(n, QUERY) ::
            (n in v <==> n in Joined(q, q.Keys)) && (n in v ==> v[n] == Joined(q, q.Keys)[n]))
      && (forall n | n in Joined(q, q.Keys) :: HasPrefix(n, QUERY))
      && LIMIT in v && OFFSET in v && v[LIMIT] == Num(Decimal(l)) && v[OFFSET] == Num(Decimal(o))
  {
    ReservedNames();
  }

  lemma JoinedSingle(q1: Query, q2: Query)
    requires SingleValued(q1) && SingleValued(q2) && Joined(q1, q1.Keys) == Joined(q2, q2.Keys)
    ensures q1 == q2
  {
    SingleGives(q1, q2);
    SingleGives(q2, q1);
  }

  lemma SingleGives(q1: Query, q2: Query)
    requires SingleValued(q1) && SingleValued(q2) && Joined(q1, q1.Keys) == Joined(q2, q2.Keys)
    ensures forall k | k in q1 :: k in q2 && q2[k] == q1[k]
  {
    forall k | k in q1 ensures k in q2 && q2[k] == q1[k] {
      var n := QUERY + k;
      assert HasPrefix(n, QUERY) && n[|QUERY|..] == k;
      assert n in Joined(q1, q1.Keys);
      assert n in Joined(q2, q2.Keys);
      assert Join(q1[k], ",") == Join(q2[k], ",");
      assert q1[k] == [q1[k][0]] && q2[k] == [q2[k][0]];
    }
  }

  // ---- Exactly which names and value lists are safe ----

  /** A parameter can be lost from the key exactly when its name is one of the reserved ones. */
  lemma NameLostIff(n: string)
    ensures SafeName(n) <==>
      forall v1, v2, q, l, o :: Variant(map[n := v1], q, l, o) == Variant(map[n := v2], q, l, o) ==> v1 == v2
  {
    if SafeName(n) {
      forall v1, v2, q, l, o | Variant(map[n := v1], q, l, o) == Variant(map[n := v2], q, l, o) ensures v1 == v2 {
        VariantDetermines(map[n := v1], q, l, o, map[n := v2], q, l, o);
        assert map[n := v1][n] == map[n := v2][n];
      }
    } else {
      NameLost(n);
    }
  }

  lemma Overwritten(n: string, q: Query)
    requires n == LIMIT || n == OFFSET || n in Joined(q, q.Keys)
    ensures Variant(map[n := Null], q, 0, 0) == Variant(map[n := Bool(true)], q, 0, 0)
  {
    hide Joined;
    var v1, v2 := Variant(map[n := Null], q, 0, 0), Variant(map[n := Bool(true)], q, 0, 0);
    assert v1.Keys == v2.Keys;
    assert forall m | m in v1 :: v1[m] == v2[m];
  }

  lemma NameLost(n: string)
    requires !SafeName(n)
    ensures exists q, l, o :: Variant(map[n := Null], q, l, o) == Variant(map[n := Bool(true)], q, l, o)
  {
    hide Variant;
    if HasPrefix(n, QUERY) {
      Overwritten(n, map[n[|QUERY|..] := ["x"]]);
    } else {
      Overwritten(n, map[]);
    }
  }

  lemma {:induction false} CommaInJoin(vs: seq<string>)
    requires |vs| > 1
    ensures ',' in Join(vs, ",")
  {
    assert (vs[0] + "," + Join(vs[1..], ","))[|vs[0]|] == ',';
  }

  lemma CutAt(v: string, i: nat)
    requires i < |v| && v[i] == ','
    ensures v[..i] + "," + v[i + 1..] == v
  {
  }

  lemma JoinTwo(a: string, b: string)
    ensures Join([a, b], ",") == a + "," + b
  {
    assert [a, b][1..] == [b];
  }

  predicate SameText(vs: seq<string>, ws: seq<string>) { Join(vs, ",") == Join(ws, ",") }

  /** A list of values is told apart from every other list exactly when it is one value without
      a comma: the values of a repeated key are joined with commas. */
  lemma ValuesUniqueIff(vs: seq<string>)
    requires vs != []
    ensures (forall ws | ws != [] && SameText(vs, ws) :: ws == vs) <==> |vs| == 1 && ',' !in vs[0]
  {
    if |vs| > 1 {
      var ws := [Join(vs, ",")];
      assert SameText(vs, ws) && |ws| == 1;
    } else if ',' in vs[0] {
      var i :| 0 <= i < |vs[0]| && vs[0][i] == ',';
      var ws := [vs[0][..i], vs[0][i + 1..]];
      CutAt(vs[0], i);
      JoinTwo(ws[0], ws[1]);
      assert SameText(vs, ws) && |ws| == 2;
    } else {
      forall ws | ws != [] && SameText(vs, ws) ensures ws == vs {
        if |ws| > 1 { CommaInJoin(ws); }
      }
    }
  }

  // ---- cache.Key and the purge by prefix ----

  type Uuid = s: string | |s| == 36 witness "00000000-0000-0000-0000-000000000000"

  const KEY_PREFIX := "ddag:cache:"

  /** What is marshalled and hashed. */
  function Payload(client: string, vary: bool, params: Params): Json {
    Obj(if vary then map["params" := Obj(params), "client" := Str(client)] else map["params" := Obj(params)])
  }

  function Key(sha: string -> string, api: Uuid, client: string, vary: bool, params: Params): string {
    KEY_PREFIX + api + ":" + sha(Marshal(Payload(client, vary, params)))
  }

  function EndpointPrefix(api: Uuid): string { KEY_PREFIX + api + ":" }

  /** SHA-256 without collisions. */
  ghost predicate Collisionless(sha: string -> string) { forall s, t :: sha(s) == sha(t) ==> s == t }

  /** The hypothesis can be met. */
  lemma CollisionlessHash()
    ensures Collisionless((s: string) => s)
  {
  }

  lemma KeyParts(sha: string -> string, api: Uuid, client: string, vary: bool, params: Params)
    ensures var k := Key(sha, api, client, vary, params);
      && |k| >= |KEY_PREFIX| + 37 && k[|KEY_PREFIX|..|KEY_PREFIX| + 36] == api
      && k[|KEY_PREFIX| + 37..] == sha(Marshal(Payload(client, vary, params)))
      && k[..|KEY_PREFIX| + 37] == EndpointPrefix(api) == "ddag:cache:" + api + ":"
  {
    hide Marshal, Payload;
  }

  /** Without hash collisions the marshalled payload determines what went into it. */
  lemma PayloadDetermines(sha: string -> string, vary: bool, c1: string, p1: Params, c2: string, p2: Params)
    requires Collisionless(sha) && sha(Marshal(Payload(c1, vary, p1))) == sha(Marshal(Payload(c2, vary, p2)))
    ensures p1 == p2 && (vary ==> c1 == c2)
  {
    hide Marshal;
    var a, b := Payload(c1, vary, p1), Payload(c2, vary, p2);
    JsonReader.MarshalInjective(a, b);
    assert a.fields["params"] == b.fields["params"];
    if vary { assert a.fields["client"] == b.fields["client"]; }
  }

  /** The keys of one API are exactly those that carry its prefix. */
  lemma PrefixIffSameApi(sha: string -> string, api: Uuid, client: string, vary: bool, params: Params, other: Uuid)
    ensures HasPrefix(Key(sha, api, client, vary, params), EndpointPrefix(other)) <==> api == other
  {
    KeyParts(sha, api, client, vary, params);
    if EndpointPrefix(api) == EndpointPrefix(other) {
      assert EndpointPrefix(api)[|KEY_PREFIX|..|KEY_PREFIX| + 36] == api;
      assert EndpointPrefix(other)[|KEY_PREFIX|..|KEY_PREFIX| + 36] == other;
    }
  }

  function Without<V>(m: map<string, V>, prefix: string): map<string, V> {
    map k | k in m && !HasPrefix(k, prefix) :: m[k]
  }

  /** One SCAN reply: a page of matching keys, or an error (of the scan or of the delete). */
  datatype Page = Keys(keys: seq<string>) | Failed

  ghost predicate Covered(pages: seq<Page>, keys: set<string>, prefix: string) {
    forall k | k in keys && HasPrefix(k, prefix) :: exists p | p in pages :: p.Keys? && k in p.keys
  }

  /** Keys named on the pages before the first failure. */
  function Named(pages: seq<Page>): nat {
    if pages == [] || pages[0].Failed? then 0 else |pages[0].keys| + Named(pages[1..])
  }

  lemma {:induction false} NamedSplit(pages: seq<Page>, i: nat)
    requires i <= |pages| && Failed !in pages[..i]
    ensures Named(pages) == Named(pages[..i]) + Named(pages[i..])
  {
    if i == 0 {
      assert pages[0..] == pages;
    } else {
      assert pages[..i][0] == pages[0] && pages[0] in pages[..i];
      assert pages[..i][1..] == pages[1..][..i - 1] && pages[1..][i - 1..] == pages[i..];
      assert forall p | p in pages[1..][..i - 1] :: p in pages[..i];
      NamedSplit(pages[1..], i - 1);
    }
  }

  class Redis<V> {
    var entries: map<string, V>

    /** purgePrefix: every page names only matching keys, and a full iteration names every
        matching key that was there throughout, perhaps more than once. */
    method PurgePrefix(prefix: string, pages: seq<Page>) returns (ok: bool, count: nat)
      requires forall p | p in pages && p.Keys? :: forall k | k in p.keys :: HasPrefix(k, prefix)
      requires Failed !in pages ==> Covered(pages, entries.Keys, prefix)
      modifies this
      ensures ok <==> Failed !in pages
      ensures count == Named(pages)
      ensures ok ==> entries == Without(old(entries), prefix)
      ensures forall k | k in old(entries) && !HasPrefix(k, prefix) :: k in entries
      ensures forall k | k in entries :: k in old(entries) && entries[k] == old(entries)[k]
    {
      count := 0;
      for i := 0 to |pages|
        invariant Failed !in pages[..i] && count == Named(pages[..i])
        invariant forall k | k in entries :: k in old(entries) && entries[k] == old(entries)[k]
        invariant forall k | k in old(entries) && !HasPrefix(k, prefix) :: k in entries
        invariant forall p | p in pages[..i] && p.Keys? :: forall k | k in p.keys :: k !in entries
      {
        var page := pages[i];
        assert page in pages && pages[..i + 1] == pages[..i] + [page];
        NamedSplit(pages, i);
        if page.Failed? { return false, count; }
        NamedSplit(pages[..i + 1], i);
        assert pages[..i + 1][..i] == pages[..i] && pages[..i + 1][i..] == [page];
        assert Named([page]) == |page.keys| by { assert [page][1..] == []; }
        entries := entries - (set k | k in page.keys);
        count := count + |page.keys|;
      }
      assert pages[..|pages|] == pages;
      return true, count;
    }
  }

  // ---- The gateway around the cache ----

  /** GET and QUERY are reads; every other verb is a write or unknown. */
  predicate Cacheable(verb: string) { Publish.IsRead(verb) }

  /** The published definition and its cache rule. */
  datatype Config = Config(template: nat, verb: string, enabled: bool, vary: bool)

  /** A request once its parameters are resolved and its dynamic query is built. */
  datatype Request = Request(api: Uuid, client: string, params: Params, query: Query, limit: int, offset: int)

  datatype ConnectorRequest = ConnectorRequest(sql: string, params: Params, limit: int, offset: int)

  /** The SQL of a definition is a function of the definition and the query string. */
  datatype World = World(sha: string -> string, sql: (nat, Query) -> string)

  function Sent(w: World, c: Config, r: Request): ConnectorRequest {
    ConnectorRequest(w.sql(c.template, r.query), r.params, r.limit, r.offset)
  }

  function KeyOf(w: World, c: Config, r: Request): string {
    Key(w.sha, r.api, r.client, c.vary, Variant(r.params, r.query, r.limit, r.offset))
  }

  /** What the connector returned, and for which request under which definition. */
  datatype Answer = Answer(origin: Request, under: Config, rows: nat)

  datatype Phase = Asked | Missed | Waiting | Direct | FromCache(answer: Answer) | Got(answer: Answer) | Errored

  datatype Call = Call(req: Request, cfg: Config, phase: Phase)

  datatype System = System(cfg: map<Uuid, Config>, cache: map<string, Answer>, flights: map<string, nat>,
      calls: map<nat, Call>)

  datatype Action =
    | Configure(api: Uuid, config: Config)
    | Ask(t: nat, req: Request)
    | Look(t: nat)
    | Go(t: nat)
    | Load(t: nat, rows: nat, stored: bool)
    | LoadFails(t: nat)
    | Evict(key: string)
    | Purge(api: Uuid)

  function CallKey(w: World, c: Call): string { KeyOf(w, c.cfg, c.req) }

  predicate Shared(c: Config) { c.enabled && Cacheable(c.verb) }

  /** The end of a shared load: everybody waiting on the key gets the outcome. */
  function Deliver(w: World, calls: map<nat, Call>, key: string, outcome: Phase): map<nat, Call> {
    map t | t in calls :: if calls[t].phase.Waiting? && CallKey(w, calls[t]) == key then calls[t].(phase := outcome)
        else calls[t]
  }

  function Set(s: System, t: nat, p: Phase): System
    requires t in s.calls
  {
    s.(calls := s.calls[t := s.calls[t].(phase := p)])
  }

  predicate Leads(w: World, s: System, t: nat) {
    t in s.calls && s.calls[t].phase.Waiting? && CallKey(w, s.calls[t]) in s.flights
        && s.flights[CallKey(w, s.calls[t])] == t
  }

  /** One step of the gateway; a step that does not apply changes nothing. */
  function Step(w: World, s: System, a: Action): System {
    match a
    case Configure(api, config) => s.(cfg := s.cfg[api := config])
    case Ask(t, r) => if t !in s.calls && r.api in s.cfg then s.(calls := s.calls[t := Call(r, s.cfg[r.api], Asked)])
        else s
    case Look(t) => if t in s.calls && s.calls[t].phase.Asked? then Looked(w, s, t) else s
    case Go(t) => if t in s.calls && s.calls[t].phase.Missed? then Gone(w, s, t) else s
    case Load(t, rows, stored) => Loaded(w, s, t, rows, stored)
    case LoadFails(t) =>
      if t in s.calls && s.calls[t].phase.Direct? then Set(s, t, Errored)
      else if Leads(w, s, t) then
        var key := CallKey(w, s.calls[t]);
        s.(flights := s.flights - {key}, calls := Deliver(w, s.calls, key, Errored))
      else s
    case Evict(key) => s.(cache := s.cache - {key})
    case Purge(api) => s.(cache := Without(s.cache, EndpointPrefix(api)))
  }

  /** The lookup of step 7, made for reads and writes alike. */
  function Looked(w: World, s: System, t: nat): System
    requires t in s.calls
  {
    var key := CallKey(w, s.calls[t]);
    Set(s, t, if s.calls[t].cfg.enabled && key in s.cache then FromCache(s.cache[key]) else Missed)
  }

  /** resolvePayload: join or lead the load of the key, or go alone. */
  function Gone(w: World, s: System, t: nat): System
    requires t in s.calls
  {
    var key := CallKey(w, s.calls[t]);
    if Shared(s.calls[t].cfg) then Set(s, t, Waiting).(flights := if key in s.flights then s.flights
        else s.flights[key := t])
    else Set(s, t, Direct)
  }

  function Loaded(w: World, s: System, t: nat, rows: nat, stored: bool): System {
    if t in s.calls && s.calls[t].phase.Direct? then Set(s, t, Got(Answer(s.calls[t].req, s.calls[t].cfg, rows)))
    else if Leads(w, s, t) then
      var key, answer := CallKey(w, s.calls[t]), Answer(s.calls[t].req, s.calls[t].cfg, rows);
      System(s.cfg, if stored then s.cache[key := answer] else s.cache, s.flights - {key},
             Deliver(w, s.calls, key, Got(answer)))
    else s
  }

  const START := System(map[], map[], map[], map[])

  function Run(w: World, acts: seq<Action>): System {
    if acts == [] then START else Step(w, Run(w, acts[..|acts| - 1]), acts[|acts| - 1])
  }

  /** An answer that may be handed to a call with this key. */
  predicate Fits(w: World, key: string, a: Answer) { KeyOf(w, a.under, a.origin) == key && Shared(a.under) }

  predicate CallOk(w: World, c: Call) {
    match c.phase
    case FromCache(a) => Fits(w, CallKey(w, c), a)
    case Got(a) => (a.origin == c.req && a.under == c.cfg) || (Shared(c.cfg) && Fits(w, CallKey(w, c), a))
    case Waiting => Shared(c.cfg)
    case _ => true
  }

  /** Under a definition that never changes: who asked, and what the answer was computed from. */
  predicate Steady(api: Uuid, c: Config, plain: bool, r: Request, under: Config) {
    r.api == api ==> under == c && (plain ==> Plain(r))
  }

  predicate Plain(r: Request) { NoClash(r.params) && SingleValued(r.query) }

  predicate CallSteady(api: Uuid, c: Config, plain: bool, call: Call) {
    && Steady(api, c, plain, call.req, call.cfg)
    && (call.phase.FromCache? || call.phase.Got?
        ==> Steady(api, c, plain, call.phase.answer.origin, call.phase.answer.under))
  }

  ghost predicate Inv(w: World, s: System) {
    && (forall k | k in s.cache :: Fits(w, k, s.cache[k]))
    && (forall t | t in s.calls :: CallOk(w, s.calls[t]))
  }

  ghost predicate SteadyInv(s: System, api: Uuid, c: Config, plain: bool) {
    && (api in s.cfg ==> s.cfg[api] == c)
    && (forall k | k in s.cache :: Steady(api, c, plain, s.cache[k].origin, s.cache[k].under))
    && (forall t | t in s.calls :: CallSteady(api, c, plain, s.calls[t]))
  }

  /** The definition of `api` is `c` throughout and, if `plain`, its requests are plain. */
  predicate Keeps(a: Action, api: Uuid, c: Config, plain: bool) {
    && (a.Configure? && a.api == api ==> a.config == c)
    && (a.Ask? && a.req.api == api && plain ==> Plain(a.req))
  }

  lemma LoadCalls(w: World, s: System, t: nat, rows: nat, stored: bool, u: nat)
    requires Inv(w, s) && u in Loaded(w, s, t, rows, stored).calls
    ensures CallOk(w, Loaded(w, s, t, rows, stored).calls[u])
  {
    hide KeyOf, Shared;
    assert CallOk(w, s.calls[u]);
    if t in s.calls { assert CallOk(w, s.calls[t]); }
  }

  lemma StepCalls(w: World, s: System, a: Action, t: nat)
    requires Inv(w, s) && t in Step(w, s, a).calls
    ensures CallOk(w, Step(w, s, a).calls[t])
  {
    hide KeyOf, Cacheable, Loaded;
    if a.Load? {
      LoadCalls(w, s, a.t, a.rows, a.stored, t);
    } else if t in s.calls {
      assert CallOk(w, s.calls[t]);
    }
  }

  lemma StepCache(w: World, s: System, a: Action, k: string)
    requires Inv(w, s) && k in Step(w, s, a).cache
    ensures Fits(w, k, Step(w, s, a).cache[k])
  {
    hide KeyOf, Cacheable;
    if k in s.cache { assert Fits(w, k, s.cache[k]); }
    if a.Load? && Leads(w, s, a.t) { assert CallOk(w, s.calls[a.t]); }
  }

  lemma StepKeeps(w: World, s: System, a: Action)
    requires Inv(w, s)
    ensures Inv(w, Step(w, s, a))
  {
    hide Step, CallOk, Fits;
    forall t | t in Step(w, s, a).calls ensures CallOk(w, Step(w, s, a).calls[t]) { StepCalls(w, s, a, t); }
    forall k | k in Step(w, s, a).cache ensures Fits(w, k, Step(w, s, a).cache[k]) { StepCache(w, s, a, k); }
  }

  lemma {:induction false} AlwaysInv(w: World, acts: seq<Action>)
    ensures Inv(w, Run(w, acts))
  {
    if acts != [] {
      AlwaysInv(w, acts[..|acts| - 1]);
      StepKeeps(w, Run(w, acts[..|acts| - 1]), acts[|acts| - 1]);
    }
  }

  lemma SteadyLoad(w: World, s: System, t: nat, rows: nat, stored: bool, api: Uuid, c: Config, plain: bool, u: nat)
    requires SteadyInv(s, api, c, plain) && u in Loaded(w, s, t, rows, stored).calls
    ensures CallSteady(api, c, plain, Loaded(w, s, t, rows, stored).calls[u])
  {
    hide CallKey, Plain;
    assert CallSteady(api, c, plain, s.calls[u]);
    if t in s.calls { assert CallSteady(api, c, plain, s.calls[t]); }
  }

  lemma SteadyLook(w: World, s: System, t: nat, api: Uuid, c: Config, plain: bool, u: nat)
    requires SteadyInv(s, api, c, plain) && t in s.calls && u in s.calls
    ensures CallSteady(api, c, plain, Looked(w, s, t).calls[u])
  {
    hide CallKey, Steady;
    assert CallSteady(api, c, plain, s.calls[u]);
  }

  lemma SteadyFail(w: World, s: System, t: nat, api: Uuid, c: Config, plain: bool, u: nat)
    requires SteadyInv(s, api, c, plain) && u in s.calls
    ensures u in Step(w, s, LoadFails(t)).calls && CallSteady(api, c, plain, Step(w, s, LoadFails(t)).calls[u])
  {
    hide CallKey, Steady;
    assert CallSteady(api, c, plain, s.calls[u]);
  }

  lemma SteadyCalls(w: World, s: System, a: Action, api: Uuid, c: Config, plain: bool, t: nat)
    requires SteadyInv(s, api, c, plain) && Keeps(a, api, c, plain) && t in Step(w, s, a).calls
    ensures CallSteady(api, c, plain, Step(w, s, a).calls[t])
  {
    hide CallKey, Loaded, Looked, Deliver, Leads, Cacheable, Plain, Steady;
    if a.Load? {
      SteadyLoad(w, s, a.t, a.rows, a.stored, api, c, plain, t);
    } else if a.Look? && a.t in s.calls && s.calls[a.t].phase.Asked? {
      LookKeepsCalls(w, s, a.t);
      SteadyLook(w, s, a.t, api, c, plain, t);
    } else if a.LoadFails? {
      FailKeepsCalls(w, s, a.t);
      SteadyFail(w, s, a.t, api, c, plain, t);
    } else if t in s.calls {
      assert CallSteady(api, c, plain, s.calls[t]);
    } else {
      assert Steady(api, c, plain, a.req, s.cfg[a.req.api]) by { SteadyAsk(s, a, api, c, plain); }
    }
  }

  lemma SteadyAsk(s: System, a: Action, api: Uuid, c: Config, plain: bool)
    requires SteadyInv(s, api, c, plain) && Keeps(a, api, c, plain) && a.Ask? && a.req.api in s.cfg
    ensures Steady(api, c, plain, a.req, s.cfg[a.req.api])
  {
  }

  lemma LookKeepsCalls(w: World, s: System, t: nat)
    requires t in s.calls
    ensures Looked(w, s, t).calls.Keys == s.calls.Keys
  {
    hide CallKey;
  }

  lemma FailKeepsCalls(w: World, s: System, t: nat)
    ensures Step(w, s, LoadFails(t)).calls.Keys == s.calls.Keys
  {
    hide CallKey;
  }

  lemma SteadyCache(w: World, s: System, a: Action, api: Uuid, c: Config, plain: bool, k: string)
    requires SteadyInv(s, api, c, plain) && Keeps(a, api, c, plain) && k in Step(w, s, a).cache
    ensures Steady(api, c, plain, Step(w, s, a).cache[k].origin, Step(w, s, a).cache[k].under)
  {
    hide KeyOf, Cacheable, Plain;
    if k in s.cache { assert Steady(api, c, plain, s.cache[k].origin, s.cache[k].under); }
    if a.Load? && Leads(w, s, a.t) { assert CallSteady(api, c, plain, s.calls[a.t]); }
  }

  lemma SteadyStep(w: World, s: System, a: Action, api: Uuid, c: Config, plain: bool)
    requires SteadyInv(s, api, c, plain) && Keeps(a, api, c, plain)
    ensures SteadyInv(Step(w, s, a), api, c, plain)
  {
    hide CallSteady, Steady, KeyOf, Cacheable, Plain;
    var n := Step(w, s, a);
    forall t | t in n.calls ensures CallSteady(api, c, plain, n.calls[t]) { SteadyCalls(w, s, a, api, c, plain, t); }
    forall k | k in n.cache ensures Steady(api, c, plain, n.cache[k].origin, n.cache[k].under) {
      SteadyCache(w, s, a, api, c, plain, k);
    }
  }

  lemma {:induction false} AlwaysSteady(w: World, acts: seq<Action>, api: Uuid, c: Config, plain: bool)
    requires forall a | a in acts :: Keeps(a, api, c, plain)
    ensures SteadyInv(Run(w, acts), api, c, plain)
  {
    if acts != [] {
      var n := |acts| - 1;
      assert forall a | a in acts[..n] :: a in acts;
      assert acts[n] in acts;
      AlwaysSteady(w, acts[..n], api, c, plain);
      SteadyStep(w, Run(w, acts[..n]), acts[n], api, c, plain);
    }
  }

  /** Equal keys of plain requests: the same API, connector request and, when varied, client. */
  lemma KeyDetermines(w: World, c: Config, r1: Request, r2: Request)
    requires Collisionless(w.sha) && Plain(r1) && Plain(r2) && KeyOf(w, c, r1) == KeyOf(w, c, r2)
    ensures r1.api == r2.api && Sent(w, c, r1) == Sent(w, c, r2) && (c.vary ==> r1.client == r2.client)
  {
    hide Variant, NoClash, SingleValued, Key, Joined, Marshal, Payload, Collisionless;
    var v1, v2 := Variant(r1.params, r1.query, r1.limit, r1.offset), Variant(r2.params, r2.query, r2.limit, r2.offset);
    KeyParts(w.sha, r1.api, r1.client, c.vary, v1);
    KeyParts(w.sha, r2.api, r2.client, c.vary, v2);
    PayloadDetermines(w.sha, c.vary, r1.client, v1, r2.client, v2);
    VariantDetermines(r1.params, r1.query, r1.limit, r1.offset, r2.params, r2.query, r2.limit, r2.offset);
    JoinedSingle(r1.query, r2.query);
  }

  lemma SameApi(w: World, c1: Config, r1: Request, c2: Config, r2: Request)
    requires KeyOf(w, c1, r1) == KeyOf(w, c2, r2)
    ensures r1.api == r2.api
  {
    hide Variant, Key, Marshal, Payload;
    KeyParts(w.sha, r1.api, r1.client, c1.vary, Variant(r1.params, r1.query, r1.limit, r1.offset));
    KeyParts(w.sha, r2.api, r2.client, c2.vary, Variant(r2.params, r2.query, r2.limit, r2.offset));
  }

  predicate Answered(s: System, t: nat) { t in s.calls && (s.calls[t].phase.FromCache? || s.calls[t].phase.Got?) }

  /** Cached, shared or direct, every response is an answer to the caller's own connector request:
      as far as the caller can tell there is no cache. */
  lemma AnswersOwnRequest(w: World, acts: seq<Action>, api: Uuid, c: Config, t: nat)
    requires Collisionless(w.sha) && forall a | a in acts :: Keeps(a, api, c, true)
    requires Answered(Run(w, acts), t) && Run(w, acts).calls[t].req.api == api
    ensures var call := Run(w, acts).calls[t]; var a := call.phase.answer;
      && a.origin.api == api && Sent(w, a.under, a.origin) == Sent(w, call.cfg, call.req)
      && (c.vary ==> a.origin.client == call.req.client)
  {
    hide Run, KeyOf, Cacheable, Plain, Sent;
    AlwaysInv(w, acts);
    AlwaysSteady(w, acts, api, c, true);
    var call := Run(w, acts).calls[t];
    var a := call.phase.answer;
    assert CallOk(w, call) && CallSteady(api, c, true, call);
    if Fits(w, CallKey(w, call), a) {
      SameApi(w, a.under, a.origin, call.cfg, call.req);
      KeyDetermines(w, c, a.origin, call.req);
    }
  }

  /** While an API's definition stays a write, none of its requests is answered from the cache or
      from another request's load: each answer is of the call's own execution. */
  lemma WritesNeverShared(w: World, acts: seq<Action>, api: Uuid, c: Config, t: nat)
    requires !Cacheable(c.verb) && forall a | a in acts :: Keeps(a, api, c, false)
    requires Answered(Run(w, acts), t) && Run(w, acts).calls[t].req.api == api
    ensures var call := Run(w, acts).calls[t];
      call.phase.Got? && call.phase.answer.origin == call.req && call.phase.answer.under == call.cfg
  {
    hide Run, KeyOf, Cacheable, Plain;
    AlwaysInv(w, acts);
    AlwaysSteady(w, acts, api, c, false);
    var call := Run(w, acts).calls[t];
    assert CallOk(w, call) && CallSteady(api, c, false, call);
    if call.phase.FromCache? { SameApi(w, call.phase.answer.under, call.phase.answer.origin, call.cfg, call.req); }
  }

  // ---- When a write is answered from the cache ----

  predicate Published(acts: seq<Action>, api: Uuid, c: Config) { Configure(api, c) in acts }

  /** Every definition in use was published at some point of the run. */
  ghost predicate PublishedInv(acts: seq<Action>, s: System) {
    && (forall api | api in s.cfg :: Published(acts, api, s.cfg[api]))
    && (forall t | t in s.calls :: Published(acts, s.calls[t].req.api, s.calls[t].cfg))
    && (forall k | k in s.cache :: Published(acts, s.cache[k].origin.api, s.cache[k].under))
  }

  /** A step keeps who asked under which definition, or is the asking. */
  lemma CallsKeep(w: World, s: System, a: Action, t: nat)
    requires t in Step(w, s, a).calls
    ensures var c := Step(w, s, a).calls[t];
      if t in s.calls then c.req == s.calls[t].req && c.cfg == s.calls[t].cfg
      else c.req.api in s.cfg && c.cfg == s.cfg[c.req.api]
  {
    hide CallKey, Cacheable;
  }

  /** A step keeps an answer in the cache, or stores that of the call leading the load. */
  lemma CacheKeeps(w: World, s: System, a: Action, k: string)
    requires k in Step(w, s, a).cache
    ensures var x := Step(w, s, a).cache[k];
      || (k in s.cache && x == s.cache[k])
      || (a.Load? && a.t in s.calls && x.origin == s.calls[a.t].req && x.under == s.calls[a.t].cfg)
  {
    hide CallKey, Cacheable, Deliver;
  }

  lemma PublishedMore(acts: seq<Action>, a: Action, api: Uuid, c: Config)
    requires Published(acts, api, c) || a == Configure(api, c)
    ensures Published(acts + [a], api, c)
  {
  }

  lemma PublishedStep(w: World, acts: seq<Action>, s: System, a: Action)
    requires PublishedInv(acts, s)
    ensures PublishedInv(acts + [a], Step(w, s, a))
  {
    hide Step, Published;
    var n, more := Step(w, s, a), acts + [a];
    forall api | api in n.cfg ensures Published(more, api, n.cfg[api]) {
      ConfigKeeps(w, s, a, api);
      PublishedMore(acts, a, api, n.cfg[api]);
    }
    forall t | t in n.calls ensures Published(more, n.calls[t].req.api, n.calls[t].cfg) {
      CallsKeep(w, s, a, t);
      PublishedMore(acts, a, n.calls[t].req.api, n.calls[t].cfg);
    }
    forall k | k in n.cache ensures Published(more, n.cache[k].origin.api, n.cache[k].under) {
      CacheKeeps(w, s, a, k);
      PublishedMore(acts, a, n.cache[k].origin.api, n.cache[k].under);
    }
  }

  lemma ConfigKeeps(w: World, s: System, a: Action, api: Uuid)
    requires api in Step(w, s, a).cfg
    ensures (api in s.cfg && Step(w, s, a).cfg[api] == s.cfg[api]) || a == Configure(api, Step(w, s, a).cfg[api])
  {
    hide CallKey, Cacheable, Deliver;
  }

  lemma {:induction false} AlwaysPublished(w: World, acts: seq<Action>)
    ensures PublishedInv(acts, Run(w, acts))
  {
    if acts != [] {
      var n := |acts| - 1;
      AlwaysPublished(w, acts[..n]);
      PublishedStep(w, acts[..n], Run(w, acts[..n]), acts[n]);
      assert acts[..n] + [acts[n]] == acts;
    }
  }

  /** A call under a write definition is answered from the cache at its lookup if and only if
      its rule is enabled and its key is there. Any such entry was loaded under another
      definition of the same API, a read published at some point before the lookup. */
  lemma WriteFromCacheIff(w: World, acts: seq<Action>, t: nat)
    requires t in Run(w, acts).calls && Run(w, acts).calls[t].phase.Asked? && !Cacheable(Run(w, acts).calls[t].cfg.verb)
    ensures var s := Run(w, acts); var call := s.calls[t]; var key := CallKey(w, call);
      && (Step(w, s, Look(t)).calls[t].phase.FromCache? <==> call.cfg.enabled && key in s.cache)
      && (key in s.cache ==> var a := s.cache[key];
            a.origin.api == call.req.api && a.under != call.cfg && Shared(a.under)
                && Published(acts, call.req.api, a.under))
  {
    hide Run, KeyOf, Cacheable;
    AlwaysInv(w, acts);
    AlwaysPublished(w, acts);
    var s := Run(w, acts);
    var key := CallKey(w, s.calls[t]);
    if key in s.cache {
      var a := s.cache[key];
      assert Fits(w, key, a);
      SameApi(w, a.under, a.origin, s.calls[t].cfg, s.calls[t].req);
    }
  }

  /** A purge removes the answers of its API and no others. */
  lemma PurgeExact(w: World, acts: seq<Action>, api: Uuid)
    ensures var s := Run(w, acts);
      Step(w, s, Purge(api)).cache == map k | k in s.cache && s.cache[k].origin.api != api :: s.cache[k]
  {
    hide Run, Cacheable, Variant, Key;
    AlwaysInv(w, acts);
    var s := Run(w, acts);
    forall k | k in s.cache ensures HasPrefix(k, EndpointPrefix(api)) <==> s.cache[k].origin.api == api {
      var a := s.cache[k];
      assert Fits(w, k, a);
      PrefixIffSameApi(w.sha, a.origin.api, a.origin.client, a.under.vary,
                       Variant(a.origin.params, a.origin.query, a.origin.limit, a.origin.offset), api);
    }
  }

  // ---- Where it stops ----

  const TWO_COLUMNS := QueryBuilder.Config("t", ["a"], [], [], [],
    [QueryBuilder.SortableColumn("a", "a"), QueryBuilder.SortableColumn("b", "b")], "")

  const REPEATED: Query := map["sort" := ["a", "b"]]
  const WITH_COMMA: Query := map["sort" := ["a,b"]]

  /** A repeated key and one value with a comma share a cache key, though the builder makes
      two different queries of them. */
  lemma RepeatedValueShares(w: World, c: Config, r: Request)
    ensures KeyOf(w, c, r.(query := REPEATED)) == KeyOf(w, c, r.(query := WITH_COMMA))
    ensures QueryBuilder.Buildable(TWO_COLUMNS, REPEATED) && QueryBuilder.Buildable(TWO_COLUMNS, WITH_COMMA)
    ensures QueryBuilder.OrderText(TWO_COLUMNS, REPEATED) == "a ASC"
    ensures QueryBuilder.OrderText(TWO_COLUMNS, WITH_COMMA) == "a ASC, b ASC"
  {
    SameKeyText(w, c, r);
    TwoOrders();
  }

  lemma SameKeyText(w: World, c: Config, r: Request)
    ensures KeyOf(w, c, r.(query := REPEATED)) == KeyOf(w, c, r.(query := WITH_COMMA))
  {
    hide Marshal;
    JoinTwo("a", "b");
    assert "a" + "," + "b" == "a,b";
    assert Joined(REPEATED, REPEATED.Keys) == Joined(WITH_COMMA, WITH_COMMA.Keys) by {
      SameJoined("sort", ["a", "b"], ["a,b"]);
    }
  }

  lemma Tokens()
    ensures QueryBuilder.SplitCSV("a") == ["a"] && QueryBuilder.SplitCSV("a,b") == ["a", "b"]
  {
    assert "a,b"[..1] == "a" && "a,b"[2..] == "b" && "a,b"[1..] == ",b" && "a"[1..] == "" && "b"[1..] == "";
    assert IndexOf("a,b", ',') == 1 && IndexOf("b", ',') == 1 && IndexOf("a", ',') == 1;
    assert Split("b", ',') == ["b"] && Split("a", ',') == ["a"] && Split("a,b", ',') == ["a", "b"];
    assert TrimSpace("a") == "a" && TrimSpace("b") == "b";
    assert ["a", "b"][1..] == ["b"] && ["b"][1..] == [] && ["a"][1..] == [];
    assert QueryBuilder.NonEmptyTrimmed(["b"]) == ["b"];
  }

  lemma Ascending(t: string)
    requires t == "a" || t == "b"
    ensures QueryBuilder.SortName(t) == t && QueryBuilder.SortDir(t) == " ASC"
  {
    assert t[..1] == t && "-"[0] == '-' && t[0] != '-';
  }

  lemma Columns()
    ensures QueryBuilder.SortColumns(TWO_COLUMNS.sortable) == map["a" := "a", "b" := "b"]
  {
    var cols := TWO_COLUMNS.sortable;
    assert cols[..1] == [cols[0]] && [cols[0]][..0] == [];
    assert QueryBuilder.SortColumns([cols[0]]) == map["a" := "a"];
  }

  lemma ColumnsValid()
    ensures QueryBuilder.Valid(TWO_COLUMNS)
  {
    assert QueryBuilder.SafeIdent("t") && QueryBuilder.SafeIdent("a") && QueryBuilder.SafeIdent("b");
  }

  lemma OneTerm()
    ensures var cols := map["a" := "a", "b" := "b"];
      (forall t | t in ["a"] :: QueryBuilder.SortName(t) in cols)
          && Join(QueryBuilder.SortTerms(cols, ["a"]), ", ") == "a ASC"
  {
    Ascending("a");
    hide QueryBuilder.SortName, QueryBuilder.SortDir;
    assert "a" + " ASC" == "a ASC";
  }

  lemma TwoTerms()
    ensures var cols := map["a" := "a", "b" := "b"];
      && (forall t | t in ["a", "b"] :: QueryBuilder.SortName(t) in cols)
      && Join(QueryBuilder.SortTerms(cols, ["a", "b"]), ", ") == "a ASC, b ASC"
  {
    Ascending("a");
    Ascending("b");
    hide QueryBuilder.SortName, QueryBuilder.SortDir;
    var terms := QueryBuilder.SortTerms(map["a" := "a", "b" := "b"], ["a", "b"]);
    assert "a" + " ASC" == "a ASC" && "b" + " ASC" == "b ASC";
    assert terms == ["a ASC", "b ASC"] && terms[1..] == ["b ASC"];
    assert "a ASC" + ", " + "b ASC" == "a ASC, b ASC";
  }

  lemma TwoOrders()
    ensures QueryBuilder.Buildable(TWO_COLUMNS, REPEATED) && QueryBuilder.Buildable(TWO_COLUMNS, WITH_COMMA)
    ensures QueryBuilder.OrderText(TWO_COLUMNS, REPEATED) == "a ASC"
    ensures QueryBuilder.OrderText(TWO_COLUMNS, WITH_COMMA) == "a ASC, b ASC"
  {
    Tokens();
    Columns();
    ColumnsValid();
    OneTerm();
    TwoTerms();
    hide QueryBuilder.SplitCSV, QueryBuilder.Valid, QueryBuilder.SortColumns, QueryBuilder.SortTerms,
        QueryBuilder.SortName, Join;
  }

  lemma SameJoined(k: string, vs: seq<string>, ws: seq<string>)
    requires vs != [] && ws != [] && Join(vs, ",") == Join(ws, ",")
    ensures var q1: Query := map[k := vs]; var q2: Query := map[k := ws]; Joined(q1, q1.Keys) == Joined(q2, q2.Keys)
  {
    hide Join;
  }

  lemma RunNext(w: World, acts: seq<Action>, k: nat)
    requires k < |acts|
    ensures Run(w, acts[..k + 1]) == Step(w, Run(w, acts[..k]), acts[k])
  {
    assert acts[..k + 1][..k] == acts[..k];
  }

  lemma RunStarts(w: World, acts: seq<Action>)
    ensures Run(w, acts[..0]) == START
  {
  }

  lemma Misses(w: World, cfg: map<Uuid, Config>, r: Request, c: Config)
    ensures Step(w, System(cfg, map[], map[], map[0 := Call(r, c, Asked)]), Look(0))
         == System(cfg, map[], map[], map[0 := Call(r, c, Missed)])
  {
    hide CallKey;
  }

  lemma LeadsLoad(w: World, cfg: map<Uuid, Config>, r: Request, c: Config)
    requires Shared(c)
    ensures Step(w, System(cfg, map[], map[], map[0 := Call(r, c, Missed)]), Go(0))
         == System(cfg, map[], map[KeyOf(w, c, r) := 0], map[0 := Call(r, c, Waiting)])
  {
    hide KeyOf, Cacheable;
  }

  lemma Stores(w: World, cfg: map<Uuid, Config>, r: Request, c: Config, rows: nat)
    ensures var answer := Answer(r, c, rows);
      Step(w, System(cfg, map[], map[KeyOf(w, c, r) := 0], map[0 := Call(r, c, Waiting)]), Load(0, rows, true))
      == System(cfg, map[KeyOf(w, c, r) := answer], map[], map[0 := Call(r, c, Got(answer))])
  {
    hide KeyOf;
  }

  lemma Hits(w: World, cfg: map<Uuid, Config>, key: string, answer: Answer, first: Call, r: Request, c: Config)
    requires c.enabled && key == KeyOf(w, c, r)
    ensures var s := Step(w, System(cfg, map[key := answer], map[], map[0 := first, 1 := Call(r, c, Asked)]), Look(1));
      1 in s.calls && s.calls[1] == Call(r, c, FromCache(answer))
  {
    hide KeyOf;
  }

  function Republished(r: Request, c1: Config, c2: Config, rows: nat): seq<Action> {
    [Configure(r.api, c1), Ask(0, r), Look(0), Go(0), Load(0, rows, true), Configure(r.api, c2), Ask(1, r), Look(1)]
  }

  lemma ReadStored(w: World, c1: Config, c2: Config, r: Request, rows: nat)
    requires Shared(c1)
    ensures var answer := Answer(r, c1, rows);
      Run(w, Republished(r, c1, c2, rows)[..5])
      == System(map[r.api := c1], map[KeyOf(w, c1, r) := answer], map[], map[0 := Call(r, c1, Got(answer))])
  {
    hide Run, Shared, KeyOf, CallKey, Looked, Gone, Loaded, Leads, Deliver, Without;
    var acts := Republished(r, c1, c2, rows);
    RunStarts(w, acts);
    RunNext(w, acts, 0);
    RunNext(w, acts, 1);
    assert Run(w, acts[..2]) == System(map[r.api := c1], map[], map[], map[0 := Call(r, c1, Asked)]);
    RunNext(w, acts, 2);
    Misses(w, map[r.api := c1], r, c1);
    RunNext(w, acts, 3);
    LeadsLoad(w, map[r.api := c1], r, c1);
    RunNext(w, acts, 4);
    Stores(w, map[r.api := c1], r, c1, rows);
  }

  lemma AsksAgain(w: World, c1: Config, c2: Config, r: Request, cache: map<string, Answer>, first: Call)
    ensures Step(w, Step(w, System(map[r.api := c1], cache, map[], map[0 := first]), Configure(r.api, c2)), Ask(1, r))
         == System(map[r.api := c2], cache, map[], map[0 := first, 1 := Call(r, c2, Asked)])
  {
  }

  /** A definition republished with a write method is answered with a read still in the cache. */
  lemma WriteAnsweredFromCache(w: World, c1: Config, c2: Config, r: Request, rows: nat)
    requires Shared(c1) && c2.enabled && !Cacheable(c2.verb) && c1.vary == c2.vary
    ensures var s := Run(w, Republished(r, c1, c2, rows));
      1 in s.calls && s.calls[1] == Call(r, c2, FromCache(Answer(r, c1, rows)))
  {
    hide Run, Step, Shared, Cacheable, KeyOf;
    var acts := Republished(r, c1, c2, rows);
    var key, answer := KeyOf(w, c1, r), Answer(r, c1, rows);
    ReadStored(w, c1, c2, r, rows);
    RunNext(w, acts, 5);
    RunNext(w, acts, 6);
    AsksAgain(w, c1, c2, r, map[key := answer], Call(r, c1, Got(answer)));
    RunNext(w, acts, 7);
    SameKey(w, c1, c2, r);
    Hits(w, map[r.api := c2], key, answer, Call(r, c1, Got(answer)), r, c2);
    assert acts[..8] == acts;
  }

  lemma SameKey(w: World, c1: Config, c2: Config, r: Request)
    requires c1.vary == c2.vary
    ensures KeyOf(w, c1, r) == KeyOf(w, c2, r)
  {
  }
}
