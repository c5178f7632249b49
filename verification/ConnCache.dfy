/** The connection cache (internal/connector/conncache.go): resolutions kept for a TTL, with
    concurrent misses collapsed into one load. How stale can a resolution be, and when does
    a configuration change reach the pools? */
module ConnCache {
  import opened Options
  import Reg = Registry

  datatype CacheEntry<R> = CacheEntry(rc: R, expiresAt: int)

  const DEFAULT_TTL := 15_000_000_000

  /** Fifteen seconds unless a TTL is given. */
  function TtlOf(ttl: int): (t: int)
    ensures t > 0 && (ttl > 0 ==> t == ttl) && (ttl <= 0 ==> t == 15 * 1_000_000_000)
  {
    if ttl <= 0 then DEFAULT_TTL else ttl
  }

  class ConnCache<R> {
    const ttl: int
    var m: map<string, CacheEntry<R>>

    constructor (ttl0: int)
      ensures m == map[] && ttl == TtlOf(ttl0)
    {
      ttl := TtlOf(ttl0);
      m := map[];
    }

    /** The read-locked part of Resolve. */
    method Lookup(key: string, now: int) returns (r: Option<R>)
      ensures r == if key in m && now < m[key].expiresAt then Some(m[key].rc) else None
    {
      if key in m && now < m[key].expiresAt { return Some(m[key].rc); }
      return None;
    }

    /** The write-locked part, run once per load; errors never get here. */
    method Store(key: string, rc: R, now: int)
      modifies this
      ensures m == old(m)[key := CacheEntry(rc, now + ttl)]
    {
      m := m[key := CacheEntry(rc, now + ttl)];
    }
  }

  // ---- One connection over time ----

  /** What is cached: the version, and when the metadata row was read. */
  datatype Cached = Cached(version: int, readAt: int, expiresAt: int)

  /** The single load in progress: before or after its read of the metadata row. */
  datatype Flight = NoFlight | Loading | Loaded(version: int, readAt: int)

  datatype Resolver = Asked | Missed | Joined | Got(version: int, readAt: int) | Errored

  datatype Call = Call(startedAt: int, phase: Resolver)

  datatype System = System(now: int, entry: Option<Cached>, flight: Flight, calls: map<nat, Call>)

  /** `ver` gives the row's config_version at each time; a load takes at most `lag` from its
      read to its store. */
  datatype World = World(ttl: int, lag: int, ver: int -> int)

  datatype Action = Tick(d: nat) | Ask | Check | Join | Read | Complete | Abort

  predicate Enabled(w: World, s: System, t: nat, a: Action)
  {
    match a
    case Tick(d) => s.flight.Loaded? ==> s.now + d <= s.flight.readAt + w.lag
    case Ask => t !in s.calls
    case Check => t in s.calls && s.calls[t].phase.Asked?
    case Join => t in s.calls && s.calls[t].phase.Missed?
    case Read => s.flight.Loading?
    case Complete => s.flight.Loaded?
    case Abort => !s.flight.NoFlight?
  }

  /** Everybody who joined the load gets its outcome. */
  function Deliver(calls: map<nat, Call>, outcome: Resolver): map<nat, Call> {
    map t | t in calls :: if calls[t].phase.Joined? then calls[t].(phase := outcome) else calls[t]
  }

  function Step(w: World, s: System, t: nat, a: Action): System
    requires Enabled(w, s, t, a)
  {
    match a
    case Tick(d) => s.(now := s.now + d)
    case Ask => s.(calls := s.calls[t := Call(s.now, Asked)])
    case Check =>
      var hit := s.entry.Some? && s.now < s.entry.value.expiresAt;
      var phase := if hit then Got(s.entry.value.version, s.entry.value.readAt) else Missed;
      s.(calls := s.calls[t := s.calls[t].(phase := phase)])
    case Join =>
      s.(flight := if s.flight.NoFlight? then Loading else s.flight,
         calls := s.calls[t := s.calls[t].(phase := Joined)])
    case Read => s.(flight := Loaded(w.ver(s.now), s.now))
    case Complete =>
      var f := s.flight;
      System(s.now, Some(Cached(f.version, f.readAt, s.now + w.ttl)), NoFlight,
          Deliver(s.calls, Got(f.version, f.readAt)))
    case Abort => s.(flight := NoFlight, calls := Deliver(s.calls, Errored))
  }

  function Run(w: World, schedule: seq<(nat, Action)>): System
  {
    if schedule == [] then System(0, None, NoFlight, map[])
    else
      var (t, a) := schedule[|schedule| - 1];
      var before := Run(w, schedule[..|schedule| - 1]);
      if Enabled(w, before, t, a) then Step(w, before, t, a) else before
  }

  /** A resolution is a version the row really had, read not too long before the call began. */
  ghost predicate CallInv(w: World, s: System, c: Call)
  {
    && c.startedAt <= s.now
    && (c.phase.Got? ==> c.phase.version == w.ver(c.phase.readAt) && c.phase.readAt <= s.now
                         && c.phase.readAt > c.startedAt - w.lag - w.ttl)
  }

  ghost predicate Inv(w: World, s: System)
  {
    && (s.entry.Some? ==> var e := s.entry.value;
          e.version == w.ver(e.readAt) && e.readAt <= s.now && e.expiresAt <= e.readAt + w.lag + w.ttl)
    && (s.flight.Loaded? ==>
          s.flight.version == w.ver(s.flight.readAt) && s.flight.readAt <= s.now <= s.flight.readAt + w.lag)
    && (forall t | t in s.calls :: CallInv(w, s, s.calls[t]))
  }

  lemma InvStep(w: World, s: System, t: nat, a: Action)
    requires Inv(w, s) && w.ttl > 0 && w.lag >= 0 && Enabled(w, s, t, a)
    ensures Inv(w, Step(w, s, t, a))
  {
    var n := Step(w, s, t, a);
    forall u | u in n.calls ensures CallInv(w, n, n.calls[u]) {
      if u in s.calls { assert CallInv(w, s, s.calls[u]); }
    }
  }

  lemma {:induction false} AlwaysInv(w: World, schedule: seq<(nat, Action)>)
    requires w.ttl > 0 && w.lag >= 0
    ensures Inv(w, Run(w, schedule))
  {
    if schedule != [] {
      AlwaysInv(w, schedule[..|schedule| - 1]);
      var (t, a) := schedule[|schedule| - 1];
      var before := Run(w, schedule[..|schedule| - 1]);
      if Enabled(w, before, t, a) { InvStep(w, before, t, a); }
    }
  }

  /** The first moment, after a version became current at `bump`, from which no call can miss it:
      one TTL and one load time later, less one tick, as an entry is dead at its expiry. */
  function SettledAt(w: World, bump: int): int { bump + w.ttl + w.lag - 1 }

  /** A call that begins then or later resolves to that version or a later one, through every
      hit, miss and shared load. */
  lemma FreshAfterBump(w: World, schedule: seq<(nat, Action)>, t: nat, bump: int, version: int)
    requires w.ttl > 0 && w.lag >= 0 && forall x | x >= bump :: w.ver(x) >= version
    ensures var s := Run(w, schedule);
      t in s.calls && s.calls[t].phase.Got? && s.calls[t].startedAt >= SettledAt(w, bump) ==>
        s.calls[t].phase.version >= version
  {
    AlwaysInv(w, schedule);
    hide Run;
    var s := Run(w, schedule);
    if t in s.calls { assert CallInv(w, s, s.calls[t]); }
  }

  /** Together with the registry: a request that resolves its connection that late and then
      acquires a pool gets one built for the new version or a later one. */
  lemma NewPoolAfterBump(w: World, schedule: seq<(nat, Action)>, t: nat, bump: int, version: int,
                         pools: seq<(nat, Reg.Action)>, u: nat)
    requires w.ttl > 0 && w.lag >= 0 && forall x | x >= bump :: w.ver(x) >= version
    requires t in Run(w, schedule).calls && u in Reg.Run(pools).threads
    ensures var c, th := Run(w, schedule).calls[t], Reg.Run(pools).threads[u];
      c.phase.Got? && c.startedAt >= SettledAt(w, bump) && th.version == c.phase.version
      && th.phase.Finished? && th.phase.result.Some? ==>
        exists v | v >= version :: Reg.BuiltFor(Reg.Run(pools), th.phase.result.value, th.id, v)
  {
    FreshAfterBump(w, schedule, t, bump, version);
    Reg.AlwaysGenuine(pools);
    var th := Reg.Run(pools).threads[u];
    assert Reg.GenuineThread(Reg.Run(pools), th);
  }

  lemma RunSnoc(w: World, schedule: seq<(nat, Action)>, t: nat, a: Action)
    requires Enabled(w, Run(w, schedule), t, a)
    ensures Run(w, schedule + [(t, a)]) == Step(w, Run(w, schedule), t, a)
  {
    assert (schedule + [(t, a)])[..|schedule|] == schedule;
  }

  lemma RunEmpty(w: World) ensures Run(w, []) == System(0, None, NoFlight, map[]) {}

  /** A world whose row changes from version 1 to version 2 at `bump`. */
  function Bumped(ttl: int, lag: int, bump: int): World { World(ttl, lag, x => if x < bump then 1 else 2) }

  /** A run in which a call that begins at `at` is given the old version. */
  predicate Stale(w: World, schedule: seq<(nat, Action)>, t: nat, at: int) {
    t in Run(w, schedule).calls && Run(w, schedule).calls[t].startedAt == at
    && Run(w, schedule).calls[t].phase.Got? && Run(w, schedule).calls[t].phase.version == 1
  }

  function Least(a: int, b: int): int { if a < b then a else b }

  /** The first call misses and reads at `read`; its load takes `load`; then time passes. */
  lemma Fills(w: World, read: nat, load: nat, wait: nat) returns (schedule: seq<(nat, Action)>)
    requires w.ver(read) == 1 && load <= w.lag
    ensures Run(w, schedule) == System(read + load + wait, Some(Cached(1, read, read + load + w.ttl)), NoFlight,
                                       map[0 := Call(read, Got(1, read))])
  {
    hide Run;
    schedule := [];
    RunEmpty(w);
    RunSnoc(w, schedule, 0, Tick(read)); schedule := schedule + [(0, Tick(read))];
    RunSnoc(w, schedule, 0, Ask); schedule := schedule + [(0, Ask)];
    RunSnoc(w, schedule, 0, Check); schedule := schedule + [(0, Check)];
    RunSnoc(w, schedule, 0, Join); schedule := schedule + [(0, Join)];
    assert Run(w, schedule) == System(read, None, Loading, map[0 := Call(read, Joined)]);
    RunSnoc(w, schedule, 0, Read); schedule := schedule + [(0, Read)];
    RunSnoc(w, schedule, 0, Tick(load)); schedule := schedule + [(0, Tick(load))];
    assert Run(w, schedule) == System(read + load, None, Loaded(1, read), map[0 := Call(read, Joined)]);
    RunSnoc(w, schedule, 0, Complete); schedule := schedule + [(0, Complete)];
    RunSnoc(w, schedule, 0, Tick(wait)); schedule := schedule + [(0, Tick(wait))];
  }

  /** The run: read just before the bump, load for as long as allowed, ask again at `at`. */
  lemma StaleRun(w: World, bump: int, at: nat) returns (schedule: seq<(nat, Action)>)
    requires w.ttl > 0 && w.lag >= 0 && bump >= 1 && w == Bumped(w.ttl, w.lag, bump) && at < SettledAt(w, bump)
    ensures Stale(w, schedule, 1, at)
  {
    var read := Least(at, bump - 1);
    var load := Least(at - read, w.lag);
    schedule := Fills(w, read, load, at - read - load);
    hide Run;
    RunSnoc(w, schedule, 1, Ask); schedule := schedule + [(1, Ask)];
    RunSnoc(w, schedule, 1, Check); schedule := schedule + [(1, Check)];
  }

  /** For every TTL, load time and moment of change: a call that begins at `at` can be given the old
      version in some run if and only if it begins before that moment. One TTL alone is enough only
      for loads that take no more than one tick. */
  lemma StaleIff(ttl: int, lag: int, bump: int, at: int)
    requires ttl > 0 && lag >= 0 && bump >= 1 && at >= 0
    ensures var w := Bumped(ttl, lag, bump);
      (exists schedule, t :: Stale(w, schedule, t, at)) <==> at < SettledAt(w, bump)
  {
    var w := Bumped(ttl, lag, bump);
    if at < SettledAt(w, bump) {
      var schedule := StaleRun(w, bump, at);
    } else {
      forall schedule, t ensures !Stale(w, schedule, t, at) {
        FreshAfterBump(w, schedule, t, bump, 2);
      }
    }
  }
}
