/** The fixed-window rate limiter (internal/policy/ratelimit.go): one atomic Redis script
    over several windows, the Go decoder of its reply, and what they allow over time.
    Time is in milliseconds; a key is gone from its expiry time on. */
module RateLimit {

  datatype Counter = Counter(count: int, expiresAt: int)

  type Db = map<string, Counter>

  /** One window as the script sees it: KEYS[i] and the ARGV pair. */
  datatype Slot = Slot(key: string, limit: int, dur: int)

  datatype Reply = Reply(current: int, ttl: int)

  predicate Live(db: Db, key: string, now: int) { key in db && now < db[key].expiresAt }

  /** INCR, and PEXPIRE when the key is new. */
  function Bump(db: Db, slot: Slot, now: int): Counter {
    if Live(db, slot.key, now) then db[slot.key].(count := db[slot.key].count + 1) else Counter(1, now + slot.dur)
  }

  /** multiWindowScript: bump the windows in order, stop after the first one exceeded. */
  function Script(db: Db, now: int, slots: seq<Slot>): (r: (Db, seq<Reply>))
    ensures |r.1| <= |slots|
    decreases |slots|
  {
    if slots == [] then (db, [])
    else
      var c := Bump(db, slots[0], now);
      var db1, r := db[slots[0].key := c], Reply(c.count, c.expiresAt - now);
      if c.count > slots[0].limit then (db1, [r])
      else var (db2, rs) := Script(db1, now, slots[1..]); (db2, [r] + rs)
  }

  /** Redis runs a script atomically. */
  class Redis {
    var db: Db

    constructor ()
      ensures db == map[]
    {
      db := map[];
    }

    method Eval(now: int, slots: seq<Slot>) returns (out: seq<Reply>)
      modifies this
      ensures (db, out) == Script(old(db), now, slots)
    {
      out := [];
      var i := 0;
      assert slots[0..] == slots && [] + Script(db, now, slots).1 == Script(db, now, slots).1;
      while i < |slots|
        invariant i <= |slots|
        invariant Script(old(db), now, slots) ==
          var (d, rs) := Script(db, now, slots[i..]); (d, out + rs)
      {
        var slot := slots[i];
        var c := Bump(db, slot, now);
        ghost var (d, rs) := Script(db, now, slots[i..]);
        assert slots[i..][1..] == slots[i + 1..];
        db := db[slot.key := c];
        ghost var (d', rs') := Script(db, now, slots[i + 1..]);
        assert c.count <= slot.limit ==> out + rs == out + [Reply(c.count, c.expiresAt - now)] + rs';
        out := out + [Reply(c.count, c.expiresAt - now)];
        if c.count > slot.limit { return; }
        i := i + 1;
      }
      assert slots[i..] == [];
      assert out + [] == out;
    }
  }

  // ---- The decision ----

  datatype Window = Window(suffix: string, limit: int, duration: int)

  datatype Decision = Decision(allowed: bool, limit: int, remaining: int, resetSeconds: int, exceededScope: string)

  function Remaining(w: Window, r: Reply): int { if w.limit - r.current < 0 then 0 else w.limit - r.current }

  /** Active windows and their slots: a limit of zero or less means unlimited. */
  function Active(windows: seq<Window>): (active: seq<Window>)
    ensures forall w | w in active :: w.limit > 0 && w in windows
    ensures forall w | w in windows && w.limit > 0 :: w in active
  {
    if windows == [] then []
    else
      assert forall w | w in windows :: w == windows[0] || w in windows[1..];
      (if windows[0].limit > 0 then [windows[0]] else []) + Active(windows[1..])
  }

  function SlotOf(base: string, w: Window): Slot { Slot("ddag:rl:" + base + ":" + w.suffix, w.limit, w.duration) }

  function SlotsOf(base: string, active: seq<Window>): seq<Slot> {
    seq(|active|, i requires 0 <= i < |active| => SlotOf(base, active[i]))
  }

  /** The reply covers a prefix of the windows, and only its last window may be exceeded. */
  ghost predicate WellFormedReply(active: seq<Window>, out: seq<Reply>)
  {
    && 0 < |out| <= |active|
    && (forall i | 0 <= i < |out| - 1 :: out[i].current <= active[i].limit)
    && (|out| < |active| ==> out[|out| - 1].current > active[|out| - 1].limit)
  }

  function Evaluated(active: seq<Window>, out: seq<Reply>): nat { if |out| < |active| then |out| else |active| }

  /** Whole seconds of a PTTL, which Go's division rounds towards zero. */
  function Seconds(ms: int): (s: int)
    ensures ms >= 0 ==> 1000 * s <= ms < 1000 * (s + 1)
    ensures ms <= 0 ==> 1000 * (s - 1) < ms <= 1000 * s
  {
    if ms >= 0 then ms / 1000 else -(-ms / 1000)
  }

  /** Window i of the reply is the one a decision reports. */
  predicate Reports(active: seq<Window>, out: seq<Reply>, d: Decision, i: nat)
    requires i < Evaluated(active, out)
  {
    && d.remaining == Remaining(active[i], out[i]) && d.limit == active[i].limit
        && d.resetSeconds == Seconds(out[i].ttl)
    && (!d.allowed ==> d.exceededScope == active[i].suffix && out[i].current > active[i].limit
                       && forall j | 0 <= j < i :: out[j].current <= active[j].limit)
  }

  /** Allowed exactly when no evaluated window is exceeded; the remaining count is the least over
      the windows evaluated; a denial reports the first window exceeded. */
  ghost predicate Decided(active: seq<Window>, out: seq<Reply>, d: Decision) {
    var k := Evaluated(active, out);
    && (d.allowed <==> forall i | 0 <= i < k :: out[i].current <= active[i].limit)
    && (forall i | 0 <= i < k :: d.remaining <= Remaining(active[i], out[i]))
    && (k == 0 ==> d == Decision(true, 0, 0, 0, ""))
    && (d.allowed ==> d.exceededScope == "")
    && (k > 0 ==> exists i | 0 <= i < k :: Reports(active, out, d, i))
  }

  /** The decoding loop, for any reply. */
  method Decode(active: seq<Window>, out: seq<Reply>) returns (d: Decision)
    ensures Decided(active, out, d)
  {
    d := Decision(true, 0, -1, 0, "");
    var i := 0;
    while i < |active|
      invariant i <= Evaluated(active, out)
      invariant d.allowed && d.exceededScope == "" && (i == 0 <==> d.remaining < 0)
      invariant i == 0 ==> d.limit == 0 == d.resetSeconds
      invariant forall k | 0 <= k < i
          :: out[k].current <= active[k].limit && d.remaining <= Remaining(active[k], out[k])
      invariant i > 0 ==> exists k | 0 <= k < i :: Reports(active, out, d, k)
    {
      if i >= |out| { break; }
      var w, r := active[i], out[i];
      var remaining := Remaining(w, r);
      var reset := Seconds(r.ttl);
      if d.remaining < 0 || remaining < d.remaining {
        d := d.(remaining := remaining, limit := w.limit, resetSeconds := reset);
        assert Reports(active, out, d, i);
      }
      if r.current > w.limit {
        d := Decision(false, w.limit, 0, reset, w.suffix);
        assert Reports(active, out, d, i);
        return;
      }
      i := i + 1;
    }
    if d.remaining < 0 { d := d.(remaining := 0); }
  }

  lemma {:induction false} ScriptReply(db: Db, now: int, base: string, active: seq<Window>)
    requires active != []
    ensures WellFormedReply(active, Script(db, now, SlotsOf(base, active)).1)
    decreases |active|
  {
    var slots := SlotsOf(base, active);
    var c := Bump(db, slots[0], now);
    if c.count <= slots[0].limit && |active| > 1 {
      assert slots[1..] == SlotsOf(base, active[1..]);
      ScriptReply(db[slots[0].key := c], now, base, active[1..]);
      var rs := Script(db[slots[0].key := c], now, slots[1..]).1;
      var out := Script(db, now, slots).1;
      assert out[1..] == rs && out[0].current <= active[0].limit;
      forall i | 0 <= i < |out| - 1 ensures out[i].current <= active[i].limit {
        if i > 0 { assert rs[i - 1].current <= active[1..][i - 1].limit; }
      }
    } else if |active| == 1 {
      assert slots[1..] == [];
    }
  }

  /** A verdict over a script reply. */
  predicate Passed(active: seq<Window>, out: seq<Reply>)
  {
    |out| == |active| && forall i | 0 <= i < |out| :: out[i].current <= active[i].limit
  }

  method Allow(redis: Redis, now: int, base: string, windows: seq<Window>) returns (d: Decision)
    modifies redis
    ensures var active := Active(windows);
      var (db, out) := Script(old(redis.db), now, SlotsOf(base, active));
      && redis.db == db
      && (d.allowed <==> Passed(active, out))
      && (if active == [] then d == Decision(true, 0, 0, 0, "") else out != [] && Decided(active, out, d))
  {
    var active := Active(windows);
    if active == [] { return Decision(true, 0, 0, 0, ""); }
    ScriptReply(redis.db, now, base, active);
    hide Script, Active;
    var out := redis.Eval(now, SlotsOf(base, active));
    d := Decode(active, out);
  }

  // ---- What one request does to one key ----

  /** The script was not cut short and no window was exceeded. */
  predicate Admitted(slots: seq<Slot>, out: seq<Reply>)
  {
    |out| == |slots| && forall i | 0 <= i < |out| :: out[i].current <= slots[i].limit
  }

  predicate Mentions(slots: seq<Slot>, key: string) { exists i | 0 <= i < |slots| :: slots[i].key == key }

  predicate SameAt(a: Db, b: Db, key: string) { (key in a <==> key in b) && (key in a ==> a[key] == b[key]) }

  /** A window after the one that denied the request, or not asked for, is left untouched. */
  lemma {:induction false} ScriptFrame(db: Db, now: int, slots: seq<Slot>, key: string)
    requires forall i | 0 <= i < |Script(db, now, slots).1| :: slots[i].key != key
    ensures SameAt(db, Script(db, now, slots).0, key)
    decreases |slots|
  {
    if slots != [] {
      var c := Bump(db, slots[0], now);
      var db1 := db[slots[0].key := c];
      assert slots[0].key != key;
      if c.count <= slots[0].limit {
        forall i | 0 <= i < |Script(db1, now, slots[1..]).1| ensures slots[1..][i].key != key {
          assert slots[i + 1].key != key;
        }
        ScriptFrame(db1, now, slots[1..], key);
      }
    }
  }

  /** The key appears at most once, with this limit and duration. */
  ghost predicate Configured(slots: seq<Slot>, slot: Slot)
  {
    && (forall i | 0 <= i < |slots| && slots[i].key == slot.key :: slots[i] == slot)
    && (forall i, j | 0 <= i < j < |slots| :: slots[i].key == slot.key ==> slots[j].key != slot.key)
  }

  /** Either the key is left alone (and the request did not both pass and ask for it), or
      it is bumped once, and a passing request found it within its limit. */
  ghost predicate KeyEffect(db: Db, db': Db, now: int, slot: Slot, asked: bool, admitted: bool)
  {
    || (SameAt(db, db', slot.key) && !(asked && admitted))
    || (slot.key in db' && db'[slot.key] == Bump(db, slot, now) && (admitted ==> db'[slot.key].count <= slot.limit))
  }

  lemma {:induction false} ScriptOn(db: Db, now: int, slots: seq<Slot>, slot: Slot)
    requires Configured(slots, slot)
    ensures var (db', out) := Script(db, now, slots);
      KeyEffect(db, db', now, slot, Mentions(slots, slot.key), Admitted(slots, out))
    decreases |slots|
  {
    if slots != [] {
      var c := Bump(db, slots[0], now);
      var db1 := db[slots[0].key := c];
      var (db2, rs) := Script(db1, now, slots[1..]);
      var (db', out) := Script(db, now, slots);
      if slots[0].key == slot.key {
        assert slots[0] == slot;
        if c.count <= slot.limit {
          forall i | 0 <= i < |rs| ensures slots[1..][i].key != slot.key { assert slots[i + 1].key != slot.key; }
          ScriptFrame(db1, now, slots[1..], slot.key);
        }
      } else if c.count <= slots[0].limit {
        forall i | 0 <= i < |slots| - 1 && slots[1..][i].key == slot.key
            ensures slots[1..][i] == slot { assert slots[i + 1] == slot; }
        assert Configured(slots[1..], slot);
        ScriptOn(db1, now, slots[1..], slot);
        assert Bump(db1, slot, now) == Bump(db, slot, now);
        assert out == [out[0]] + rs;
        if Admitted(slots, out) { AdmittedTail(slots, out); }
        if Mentions(slots, slot.key) { MentionsTail(slots, slot.key); }
      } else {
        assert |out| == 1 && out[0].current > slots[0].limit;
      }
    }
  }

  lemma AdmittedTail(slots: seq<Slot>, out: seq<Reply>)
    requires slots != [] && Admitted(slots, out)
    ensures Admitted(slots[1..], out[1..])
  {
    forall i | 0 <= i < |out| - 1 ensures out[1..][i].current <= slots[1..][i].limit {
      assert out[i + 1].current <= slots[i + 1].limit;
    }
  }

  lemma MentionsTail(slots: seq<Slot>, key: string)
    requires slots != [] && slots[0].key != key && Mentions(slots, key)
    ensures Mentions(slots[1..], key)
  {
    var i :| 0 <= i < |slots| && slots[i].key == key;
    assert slots[1..][i - 1].key == key;
  }

  /** A live window keeps its expiry, whether the request passes or not. */
  lemma DenialsDoNotExtend(db: Db, now: int, slots: seq<Slot>, slot: Slot)
    requires Configured(slots, slot) && Live(db, slot.key, now)
    ensures var db' := Script(db, now, slots).0;
      slot.key in db' && db'[slot.key].expiresAt == db[slot.key].expiresAt
  {
    ScriptOn(db, now, slots, slot);
  }

  // ---- What a decision tells the client ----

  ghost predicate DistinctKeys(slots: seq<Slot>) {
    forall i, j | 0 <= i < j < |slots| :: slots[i].key != slots[j].key
  }

  /** Each reply is what its own window gives, whatever the others do. */
  lemma {:induction false} ReplyAt(db: Db, now: int, slots: seq<Slot>, i: nat)
    requires DistinctKeys(slots) && i < |Script(db, now, slots).1|
    ensures var c := Bump(db, slots[i], now); Script(db, now, slots).1[i] == Reply(c.count, c.expiresAt - now)
    decreases |slots|
  {
    var c := Bump(db, slots[0], now);
    if i > 0 {
      var db1 := db[slots[0].key := c];
      assert forall j | 0 <= j < |slots| - 1 :: slots[1..][j] == slots[j + 1];
      assert DistinctKeys(slots[1..]);
      ReplyAt(db1, now, slots[1..], i - 1);
      assert slots[0].key != slots[i].key && slots[1..][i - 1] == slots[i];
      assert Bump(db1, slots[i], now) == Bump(db, slots[i], now);
    }
  }

  lemma DistinctConfigured(slots: seq<Slot>, i: nat)
    requires DistinctKeys(slots) && i < |slots|
    ensures Configured(slots, slots[i])
  {
    assert forall j | 0 <= j < i :: slots[j].key != slots[i].key;
    assert forall j | i < j < |slots| :: slots[i].key != slots[j].key;
  }

  /** A granted request and the next one at the same instant: every window counts one more. */
  lemma NextReply(db: Db, now: int, slots: seq<Slot>, i: nat)
    requires DistinctKeys(slots) && i < |slots| && slots[i].dur > 0
    requires Admitted(slots, Script(db, now, slots).1) && i < |Script(Script(db, now, slots).0, now, slots).1|
    ensures Script(Script(db, now, slots).0, now, slots).1[i].current == Script(db, now, slots).1[i].current + 1
  {
    hide Script;
    var db1 := Script(db, now, slots).0;
    ReplyAt(db, now, slots, i);
    ReplyAt(db1, now, slots, i);
    DistinctConfigured(slots, i);
    ScriptOn(db, now, slots, slots[i]);
    assert Mentions(slots, slots[i].key);
  }

  lemma SlotsDistinct(base: string, active: seq<Window>)
    requires OneLetterDistinct(active)
    ensures DistinctKeys(SlotsOf(base, active))
  {
    var slots := SlotsOf(base, active);
    forall i, j | 0 <= i < j < |slots| ensures slots[i].key != slots[j].key {
      if slots[i].key == slots[j].key { KeyDetermines(base, active[i], base, active[j]); }
    }
  }

  /** An allowed decision leaves exactly this much room in its tightest window, and some in every one. */
  lemma RoomLeft(active: seq<Window>, out: seq<Reply>, d: Decision) returns (k: nat)
    requires WellFormedReply(active, out) && Decided(active, out, d) && d.allowed
    ensures |out| == |active| && k < |active| && d.remaining == active[k].limit - out[k].current >= 0
    ensures forall i | 0 <= i < |active| :: out[i].current + d.remaining <= active[i].limit
    ensures forall i | 0 <= i < |out| :: out[i].current <= active[i].limit
  {
    assert out[|out| - 1].current <= active[|out| - 1].limit;
    k :| 0 <= k < |active| && Reports(active, out, d, k);
    assert forall i | 0 <= i < |active| :: d.remaining <= Remaining(active[i], out[i]);
  }

  /** Remaining is the truth: after a request that is let through, another one at the same instant is
      let through if and only if something remains, and then one less remains. So exactly as many
      more are let through as the decision says. */
  lemma RemainingCounts(db: Db, now: int, base: string, active: seq<Window>, d: Decision, next: Decision)
    requires active != [] && OneLetterDistinct(active) && forall w | w in active :: w.duration > 0
    requires var slots := SlotsOf(base, active);
      var (db1, out) := Script(db, now, slots);
      Decided(active, out, d) && d.allowed && Decided(active, Script(db1, now, slots).1, next)
    ensures next.allowed <==> d.remaining > 0
    ensures next.allowed ==> next.remaining == d.remaining - 1
  {
    hide Script, OneLetterDistinct, Decided, WellFormedReply, SlotsOf;
    var slots := SlotsOf(base, active);
    var (db1, out) := Script(db, now, slots);
    var more := Script(db1, now, slots).1;
    ScriptReply(db, now, base, active);
    ScriptReply(db1, now, base, active);
    var k := RoomLeft(active, out, d);
    CountsNext(db, now, base, active);
    NextDecision(active, out, more, d, next, k);
  }

  lemma CountsNext(db: Db, now: int, base: string, active: seq<Window>)
    requires OneLetterDistinct(active) && forall w | w in active :: w.duration > 0
    requires var out := Script(db, now, SlotsOf(base, active)).1;
      |out| == |active| && forall i | 0 <= i < |out| :: out[i].current <= active[i].limit
    ensures var slots := SlotsOf(base, active);
      var (db1, out) := Script(db, now, slots);
      var more := Script(db1, now, slots).1;
      forall i | 0 <= i < |more| :: more[i].current == out[i].current + 1
  {
    hide Script, OneLetterDistinct;
    var slots := SlotsOf(base, active);
    SlotsDistinct(base, active);
    var (db1, out) := Script(db, now, slots);
    assert Admitted(slots, out);
    forall i | 0 <= i < |Script(db1, now, slots).1|
      ensures Script(db1, now, slots).1[i].current == out[i].current + 1
    {
      assert active[i] in active;
      NextReply(db, now, slots, i);
    }
  }

  lemma NextDecision(active: seq<Window>, out: seq<Reply>, more: seq<Reply>, d: Decision, next: Decision, k: nat)
    requires |out| == |active| && k < |active| && d.remaining == active[k].limit - out[k].current >= 0
    requires forall i | 0 <= i < |active| :: out[i].current + d.remaining <= active[i].limit
    requires WellFormedReply(active, more) && Decided(active, more, next)
    requires forall i | 0 <= i < |more| :: more[i].current == out[i].current + 1
    ensures next.allowed <==> d.remaining > 0
    ensures next.allowed ==> next.remaining == d.remaining - 1
  {
    var last := |more| - 1;
    if d.remaining > 0 {
      assert more[last].current <= active[last].limit;
    }
    if next.allowed {
      var j := RoomLeft(active, more, next);
      assert more[k].current + next.remaining <= active[k].limit;
      assert out[j].current + d.remaining <= active[j].limit;
    }
  }

  // ---- Runs ----

  datatype Request = Request(now: int, slots: seq<Slot>)

  function After(db: Db, q: Request): Db { Script(db, q.now, q.slots).0 }

  predicate Grants(db: Db, q: Request) { Admitted(q.slots, Script(db, q.now, q.slots).1) }

  ghost predicate Monotone(run: seq<Request>) { forall i, j | 0 <= i < j < |run| :: run[i].now <= run[j].now }

  /** In every request the window is configured alike; other windows may vary freely. */
  ghost predicate Fixed(run: seq<Request>, slot: Slot) { forall i | 0 <= i < |run| :: Configured(run[i].slots, slot) }

  /** Requests granted under the window at a time in [lo, hi). */
  function Granted(db: Db, run: seq<Request>, key: string, lo: int, hi: int): nat
    decreases |run|
  {
    if run == [] then 0
    else
      (if lo <= run[0].now < hi && Mentions(run[0].slots, key) && Grants(db, run[0]) then 1 else 0)
      + Granted(After(db, run[0]), run[1..], key, lo, hi)
  }

  lemma GrantedNext(db: Db, run: seq<Request>, key: string, lo: int, hi: int)
    requires run != []
    ensures Granted(db, run, key, lo, hi)
         == (if lo <= run[0].now < hi && Mentions(run[0].slots, key) && Grants(db, run[0]) then 1 else 0)
          + Granted(After(db, run[0]), run[1..], key, lo, hi)
  {
    hide Mentions, Grants, After;
  }

  function Room(limit: int, count: int): nat { if count >= limit then 0 else limit - count }

  lemma Tail(run: seq<Request>, slot: Slot)
    requires run != [] && Monotone(run) && Fixed(run, slot)
    ensures Monotone(run[1..]) && Fixed(run[1..], slot)
    ensures forall i | 0 <= i < |run| - 1 :: run[0].now <= run[1..][i].now
  {
    forall i | 0 <= i < |run| - 1 ensures Configured(run[1..][i].slots, slot) { assert run[1..][i] == run[i + 1]; }
  }

  lemma {:induction false} NothingLate(db: Db, run: seq<Request>, slot: Slot, lo: int, hi: int)
    requires Monotone(run) && Fixed(run, slot) && (run != [] ==> run[0].now >= hi)
    ensures Granted(db, run, slot.key, lo, hi) == 0
    decreases |run|
  {
    if run != [] {
      Tail(run, slot);
      NothingLate(After(db, run[0]), run[1..], slot, lo, hi);
    }
  }

  /** Within one lifetime at most the limit is granted, less what was already counted. */
  lemma {:induction false} OneLifetime(db: Db, run: seq<Request>, slot: Slot, lo: int, hi: int)
    requires Monotone(run) && Fixed(run, slot)
    requires slot.key in db && hi <= db[slot.key].expiresAt
    ensures Granted(db, run, slot.key, lo, hi) <= Room(slot.limit, db[slot.key].count)
    decreases |run|
  {
    if run != [] {
      Tail(run, slot);
      if run[0].now >= hi {
        NothingLate(db, run, slot, lo, hi);
      } else {
        ScriptOn(db, run[0].now, run[0].slots, slot);
        OneLifetime(After(db, run[0]), run[1..], slot, lo, hi);
      }
    }
  }

  /** From a dead window on, an interval no longer than the window grants at most the limit. */
  lemma {:induction false} FreshLifetime(db: Db, run: seq<Request>, slot: Slot, lo: int, hi: int)
    requires Monotone(run) && Fixed(run, slot) && slot.limit >= 1 && hi - lo <= slot.dur
    requires run != [] ==> lo <= run[0].now && !Live(db, slot.key, run[0].now)
    ensures Granted(db, run, slot.key, lo, hi) <= slot.limit
    decreases |run|
  {
    if run != [] {
      Tail(run, slot);
      var db' := After(db, run[0]);
      ScriptOn(db, run[0].now, run[0].slots, slot);
      if SameAt(db, db', slot.key) && !(Mentions(run[0].slots, slot.key) && Grants(db, run[0])) {
        if |run| > 1 { assert run[1..][0].now >= run[0].now; }
        FreshLifetime(db', run[1..], slot, lo, hi);
      } else {
        OneLifetime(db', run[1..], slot, lo, hi);
      }
    }
  }

  /** An interval that starts inside a lifetime: its rest, then one fresh lifetime. */
  lemma {:induction false} TwoLifetimes(db: Db, run: seq<Request>, slot: Slot, lo: int, hi: int)
    requires Monotone(run) && Fixed(run, slot) && slot.limit >= 1 && hi - lo <= slot.dur
    requires run != [] ==> lo <= run[0].now
    requires slot.key in db
    ensures Granted(db, run, slot.key, lo, hi) <= Room(slot.limit, db[slot.key].count) + slot.limit
    decreases |run|
  {
    if run != [] {
      if Live(db, slot.key, run[0].now) {
        Tail(run, slot);
        ScriptOn(db, run[0].now, run[0].slots, slot);
        if |run| > 1 { assert run[1..][0].now >= run[0].now; }
        TwoLifetimes(After(db, run[0]), run[1..], slot, lo, hi);
      } else {
        FreshLifetime(db, run, slot, lo, hi);
      }
    }
  }

  ghost predicate CountsStarted(db: Db, key: string) { key in db ==> db[key].count >= 1 }

  /** The rate: over any run with a monotone clock in which a window is configured alike
      throughout, any interval no longer than the window grants at most 2 * limit - 1
      requests. (The first request of the earlier lifetime must lie before the interval.) */
  lemma {:induction false} RateBound(db: Db, run: seq<Request>, slot: Slot, lo: int, hi: int)
    requires Monotone(run) && Fixed(run, slot) && slot.limit >= 1 && hi - lo <= slot.dur && CountsStarted(db, slot.key)
    ensures Granted(db, run, slot.key, lo, hi) <= 2 * slot.limit - 1
    decreases |run|
  {
    if run != [] {
      if run[0].now < lo {
        Tail(run, slot);
        ScriptOn(db, run[0].now, run[0].slots, slot);
        RateBound(After(db, run[0]), run[1..], slot, lo, hi);
      } else if slot.key in db {
        TwoLifetimes(db, run, slot, lo, hi);
      } else {
        FreshLifetime(db, run, slot, lo, hi);
      }
    }
  }

  /** At a single instant at most the limit is granted. */
  lemma {:induction false} InstantBound(db: Db, run: seq<Request>, slot: Slot, lo: int, hi: int)
    requires Monotone(run) && Fixed(run, slot) && slot.limit >= 1 && slot.dur >= 1 && hi <= lo + 1
    requires CountsStarted(db, slot.key)
    ensures Granted(db, run, slot.key, lo, hi) <= slot.limit
    decreases |run|
  {
    if run != [] {
      if run[0].now < lo {
        Tail(run, slot);
        ScriptOn(db, run[0].now, run[0].slots, slot);
        InstantBound(After(db, run[0]), run[1..], slot, lo, hi);
      } else if Live(db, slot.key, run[0].now) {
        OneLifetime(db, run, slot, lo, hi);
      } else {
        FreshLifetime(db, run, slot, lo, hi);
      }
    }
  }

  function Times(n: nat, t: int, slot: Slot): seq<Request> { seq(n, _ => Request(t, [slot])) }

  /** Requests at one time while the window has room for them are all granted. */
  lemma {:induction false} Burst(db: Db, n: nat, t: int, slot: Slot, rest: seq<Request>, lo: int, hi: int)
    requires Live(db, slot.key, t) && db[slot.key].count + n <= slot.limit && lo <= t < hi
    ensures Granted(db, Times(n, t, slot) + rest, slot.key, lo, hi)
         == n + Granted(db[slot.key := db[slot.key].(count := db[slot.key].count + n)], rest, slot.key, lo, hi)
    decreases n
  {
    hide Granted, Script;
    var run := Times(n, t, slot) + rest;
    if n == 0 {
      assert run == rest && db[slot.key := db[slot.key]] == db;
    } else {
      OneSlot(db, t, slot);
      assert run[0] == Request(t, [slot]) && run[1..] == Times(n - 1, t, slot) + rest;
      GrantedNext(db, run, slot.key, lo, hi);
      assert [slot][0].key == slot.key;
      var c := Bump(db, slot, t);
      var next := db[slot.key := c];
      Burst(next, n - 1, t, slot, rest, lo, hi);
      assert next[slot.key := c.(count := c.count + (n - 1))]
          == db[slot.key := db[slot.key].(count := db[slot.key].count + n)];
    }
  }

  /** The first request of a lifetime. */
  lemma Opens(db: Db, t: int, slot: Slot, rest: seq<Request>, lo: int, hi: int)
    requires !Live(db, slot.key, t) && slot.limit >= 1
    ensures Granted(db, [Request(t, [slot])] + rest, slot.key, lo, hi)
         == (if lo <= t < hi then 1 else 0) + Granted(db[slot.key := Counter(1, t + slot.dur)], rest, slot.key, lo, hi)
  {
    var run := [Request(t, [slot])] + rest;
    OneSlot(db, t, slot);
    assert run[0] == Request(t, [slot]) && run[1..] == rest && [slot][0].key == slot.key;
  }

  /** One request opens a window; the rest of its room is used just before it ends, and all of the
      next window's as it begins. */
  function Straddle(slot: Slot): seq<Request>
    requires slot.limit >= 1
  {
    [Request(0, [slot])] + (Times(slot.limit - 1, slot.dur - 1, slot) +
      ([Request(slot.dur, [slot])] + (Times(slot.limit - 1, slot.dur, slot) + [])))
  }

  lemma StraddleGrants(slot: Slot)
    requires slot.limit >= 1 && slot.dur >= 2
    ensures Monotone(Straddle(slot)) && Fixed(Straddle(slot), slot)
    ensures Granted(map[], Straddle(slot), slot.key, 1, 1 + slot.dur) == 2 * slot.limit - 1
  {
    hide Granted;
    var n, d, key := slot.limit - 1, slot.dur, slot.key;
    var late := Times(n, d, slot) + [];
    var second := [Request(d, [slot])] + late;
    var d1, d2, d3: Db := map[key := Counter(1, d)], map[key := Counter(1 + n, d)], map[key := Counter(1, d + d)];
    Opens(map[], 0, slot, Times(n, d - 1, slot) + second, 1, 1 + d);
    var d0: Db := map[];
    assert d0[key := Counter(1, d)] == d1;
    Burst(d1, n, d - 1, slot, second, 1, 1 + d);
    assert d1[key := Counter(1 + n, d)] == d2;
    Opens(d2, d, slot, late, 1, 1 + d);
    assert d2[key := Counter(1, d + d)] == d3;
    Burst(d3, n, d, slot, [], 1, 1 + d);
    NoneGranted(d3[key := Counter(1 + n, d + d)], key, 1, 1 + d);
    forall i | 0 <= i < |Straddle(slot)| ensures Configured(Straddle(slot)[i].slots, slot) {
      assert Straddle(slot)[i].slots == [slot];
    }
  }

  lemma NoneGranted(db: Db, key: string, lo: int, hi: int)
    ensures Granted(db, [], key, lo, hi) == 0
  {
  }

  lemma OneGranted(slot: Slot)
    requires slot.limit >= 1
    ensures Granted(map[], [Request(0, [slot])], slot.key, 0, 1) == 1
  {
    assert [Request(0, [slot])] + [] == [Request(0, [slot])];
    Opens(map[], 0, slot, [], 0, 1);
  }

  /** A run from an empty store that grants the most the bound allows. */
  ghost predicate Reached(slot: Slot, run: seq<Request>, lo: int) {
    Monotone(run) && Fixed(run, slot) && Granted(map[], run, slot.key, lo, lo + slot.dur) == 2 * slot.limit - 1
  }

  /** For every limit and duration: some run reaches the bound if and only if the window is longer
      than one tick of the clock, or the limit is 1. */
  lemma RateBoundTightIff(slot: Slot)
    requires slot.limit >= 1 && slot.dur >= 1
    ensures (exists run, lo :: Reached(slot, run, lo)) <==> slot.dur >= 2 || slot.limit == 1
  {
    if slot.dur >= 2 {
      StraddleGrants(slot);
      assert Reached(slot, Straddle(slot), 1);
    } else if slot.limit == 1 {
      OneGranted(slot);
      assert [Request(0, [slot])][0].slots == [slot];
      assert Reached(slot, [Request(0, [slot])], 0);
    } else {
      forall run, lo ensures !Reached(slot, run, lo) {
        if Monotone(run) && Fixed(run, slot) { InstantBound(map[], run, slot, lo, lo + 1); }
      }
    }
  }

  lemma OneSlot(db: Db, now: int, slot: Slot)
    ensures var c := Bump(db, slot, now);
      Script(db, now, [slot]) == (db[slot.key := c], [Reply(c.count, c.expiresAt - now)])
  {
    var c := Bump(db, slot, now);
    assert [slot][1..] == [];
    assert Script(db[slot.key := c], now, []) == (db[slot.key := c], []);
    assert [Reply(c.count, c.expiresAt - now)] + [] == [Reply(c.count, c.expiresAt - now)];
  }

  // ---- The gateway's own windows ----

  /** WindowsFromRule */
  function WindowsFromRule(perSec: int, perMin: int, perHour: int, perDay: int): seq<Window> {
    [Window("s", perSec, 1000), Window("m", perMin, 60_000), Window("h", perHour, 3_600_000),
        Window("d", perDay, 86_400_000)]
  }

  datatype Rule = Rule(perSec: int, perMin: int, perHour: int, perDay: int)

  function RuleWindows(r: Rule): seq<Window> { WindowsFromRule(r.perSec, r.perMin, r.perHour, r.perDay) }

  lemma KeyDetermines(b: string, x: Window, c: string, y: Window)
    requires SlotOf(b, x).key == SlotOf(c, y).key && |x.suffix| == |y.suffix| == 1
    ensures b == c && x.suffix == y.suffix
  {
    var p := "ddag:rl:";
    var k := SlotOf(b, x).key;
    assert k == p + b + ":" + x.suffix && k == p + c + ":" + y.suffix;
    assert b == k[|p|..|k| - 2] && c == k[|p|..|k| - 2];
    assert x.suffix == k[|k| - 1..] && y.suffix == k[|k| - 1..];
  }

  ghost predicate OneLetterDistinct(ws: seq<Window>)
  {
    && (forall i | 0 <= i < |ws| :: |ws[i].suffix| == 1)
    && (forall i, j | 0 <= i < j < |ws| :: ws[i].suffix != ws[j].suffix)
  }

  lemma {:induction false} ActiveDistinct(ws: seq<Window>)
    requires OneLetterDistinct(ws)
    ensures OneLetterDistinct(Active(ws))
  {
    if ws != [] {
      var t := Active(ws[1..]);
      DistinctTail(ws);
      ActiveDistinct(ws[1..]);
      hide OneLetterDistinct;
      forall w | w in t ensures w in ws[1..] {}
      DistinctCons(ws[0], t);
      assert [] + t == t;
    }
  }

  lemma DistinctTail(ws: seq<Window>)
    requires ws != [] && OneLetterDistinct(ws)
    ensures OneLetterDistinct(ws[1..]) && |ws[0].suffix| == 1
    ensures forall w | w in ws[1..] :: ws[0].suffix != w.suffix
  {
    forall w | w in ws[1..] ensures ws[0].suffix != w.suffix {
      var k :| 0 <= k < |ws| - 1 && ws[1..][k] == w;
      assert ws[k + 1] == w;
    }
  }

  lemma DistinctCons(w: Window, ws: seq<Window>)
    requires OneLetterDistinct(ws) && |w.suffix| == 1 && forall v | v in ws :: w.suffix != v.suffix
    ensures OneLetterDistinct([w] + ws)
  {
  }

  lemma ActiveOfRule(r: Rule)
    ensures OneLetterDistinct(Active(RuleWindows(r)))
  {
    assert OneLetterDistinct(RuleWindows(r));
    ActiveDistinct(RuleWindows(r));
  }

  /** Any client's requests keep the window of any other configured alike. */
  lemma RuleConfigured(b: string, r: Rule, c: string, rc: Rule, w: Window)
    requires w in Active(RuleWindows(rc)) && (b == c ==> r == rc)
    ensures Configured(SlotsOf(b, Active(RuleWindows(r))), SlotOf(c, w))
  {
    var a := Active(RuleWindows(r));
    var slots := SlotsOf(b, a);
    ActiveOfRule(r);
    ActiveOfRule(rc);
    hide Active, RuleWindows, SlotOf;
    var k :| 0 <= k < |Active(RuleWindows(rc))| && Active(RuleWindows(rc))[k] == w;
    forall i | 0 <= i < |slots| && slots[i].key == SlotOf(c, w).key ensures slots[i] == SlotOf(c, w) {
      KeyDetermines(b, a[i], c, w);
    }
    forall i, j | 0 <= i < j < |slots| && slots[i].key == SlotOf(c, w).key ensures slots[j].key != SlotOf(c, w).key {
      KeyDetermines(b, a[i], c, w);
      if slots[j].key == SlotOf(c, w).key { KeyDetermines(b, a[j], c, w); }
    }
  }

  /** One check of the limiter for a client and API, under that pair's current rule. */
  datatype Check = Check(now: int, base: string)

  function Requests(rules: string -> Rule, checks: seq<Check>): seq<Request> {
    seq(|checks|, i requires 0 <= i < |checks| =>
      Request(checks[i].now, SlotsOf(checks[i].base, Active(RuleWindows(rules(checks[i].base))))))
  }

  /** All clients share one Redis. Starting empty, with a monotone clock and unchanging
      rules, no client gets more than 2 * limit - 1 requests of an API through in any
      interval as long as one of its windows, whatever everybody else does. */
  lemma GatewayRate(rules: string -> Rule, checks: seq<Check>, base: string, w: Window, lo: int)
    requires forall i, j | 0 <= i < j < |checks| :: checks[i].now <= checks[j].now
    requires w in Active(RuleWindows(rules(base)))
    ensures Granted(map[], Requests(rules, checks), SlotOf(base, w).key, lo, lo + w.duration) <= 2 * w.limit - 1
  {
    hide Active, RuleWindows, Granted, SlotOf;
    var run, slot := Requests(rules, checks), SlotOf(base, w);
    forall i | 0 <= i < |run| ensures Configured(run[i].slots, slot) {
      RuleConfigured(checks[i].base, rules(checks[i].base), base, rules(base), w);
    }
    SlotIs(base, w);
    RateBound(map[], run, slot, lo, lo + w.duration);
  }

  /** So in seconds, minutes, hours and days, for every number a rule sets. */
  lemma RuleRate(rules: string -> Rule, checks: seq<Check>, base: string, lo: int)
    requires forall i, j | 0 <= i < j < |checks| :: checks[i].now <= checks[j].now
    ensures var r, run, key := rules(base), Requests(rules, checks), "ddag:rl:" + base + ":";
      && (r.perSec > 0 ==> Granted(map[], run, key + "s", lo, lo + 1000) <= 2 * r.perSec - 1)
      && (r.perMin > 0 ==> Granted(map[], run, key + "m", lo, lo + 60 * 1000) <= 2 * r.perMin - 1)
      && (r.perHour > 0 ==> Granted(map[], run, key + "h", lo, lo + 60 * 60 * 1000) <= 2 * r.perHour - 1)
      && (r.perDay > 0 ==> Granted(map[], run, key + "d", lo, lo + 24 * 60 * 60 * 1000) <= 2 * r.perDay - 1)
  {
    hide Granted, Requests, Active, RuleWindows;
    var r := rules(base);
    RuleWindow(r, 0);
    RuleWindow(r, 1);
    RuleWindow(r, 2);
    RuleWindow(r, 3);
    var ws := RuleWindows(r);
    if r.perSec > 0 { GatewayRate(rules, checks, base, ws[0], lo); }
    if r.perMin > 0 { GatewayRate(rules, checks, base, ws[1], lo); }
    if r.perHour > 0 { GatewayRate(rules, checks, base, ws[2], lo); }
    if r.perDay > 0 { GatewayRate(rules, checks, base, ws[3], lo); }
  }

  lemma RuleWindow(r: Rule, i: nat)
    requires i < 4
    ensures |RuleWindows(r)| == 4 && (RuleWindows(r)[i].limit > 0 ==> RuleWindows(r)[i] in Active(RuleWindows(r)))
    ensures RuleWindows(r)[i] == match i
      case 0 => Window("s", r.perSec, 1000)
      case 1 => Window("m", r.perMin, 60 * 1000)
      case 2 => Window("h", r.perHour, 60 * 60 * 1000)
      case _ => Window("d", r.perDay, 24 * 60 * 60 * 1000)
  {
    hide Active;
    assert RuleWindows(r)[i] in RuleWindows(r);
  }

  lemma SlotIs(base: string, w: Window)
    ensures SlotOf(base, w).limit == w.limit && SlotOf(base, w).dur == w.duration
  {
  }
}
