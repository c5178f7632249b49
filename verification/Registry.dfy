/** The pool registry (internal/connectorpool/registry.go): at most one live pool per
    connection, looked up and installed under a lock but built outside it. Callers are
    explicit threads; every pool ever built is accounted for. */
module Registry {
  import opened Options

  datatype Entry = Entry(pool: nat, version: int)

  type Entries = map<string, Entry>

  function Get(es: Entries, id: string): Option<Entry> { if id in es then Some(es[id]) else None }

  predicate Serves(e: Option<Entry>, version: int) { e.Some? && e.value.version == version }

  /** The registry object; each method is one hold of its mutex. */
  class Registry {
    var entries: Entries

    constructor ()
      ensures entries == map[]
    {
      entries := map[];
    }

    /** First section of Acquire: a live entry of the right version, or the stale one. */
    method Lookup(id: string, version: int) returns (hit: bool, e: Option<Entry>)
      ensures e == Get(entries, id) && hit == Serves(e, version)
    {
      if id in entries && entries[id].version == version { return true, Some(entries[id]); }
      return false, if id in entries then Some(entries[id]) else None;
    }

    /** Second section: prefer an entry somebody else installed meanwhile. */
    method Install(id: string, version: int, pool: nat) returns (installed: bool)
      modifies this
      ensures installed == !Serves(Get(old(entries), id), version)
      ensures entries == if installed then old(entries)[id := Entry(pool, version)] else old(entries)
    {
      if id in entries && entries[id].version == version { return false; }
      entries := entries[id := Entry(pool, version)];
      return true;
    }

    method Remove(id: string) returns (e: Option<Entry>)
      modifies this
      ensures e == Get(old(entries), id) && entries == old(entries) - {id}
    {
      e := if id in entries then Some(entries[id]) else None;
      entries := entries - {id};
    }
  }

  // ---- Threads ----

  /** Where a caller is. Between the two sections of Acquire it remembers the stale entry. */
  datatype Phase =
    | Entering
    | Building(stale: Option<Entry>)
    | Built(pool: nat, stale: Option<Entry>)
    | Closing(pool: nat, result: Option<nat>)
    | Finished(result: Option<nat>)

  datatype Thread = Thread(id: string, version: int, phase: Phase)

  /** `origin` records what each pool was built for, `closes` how often it was closed. */
  datatype System = System(entries: Entries, origin: seq<(string, int)>, closes: map<nat, nat>,
                           threads: map<nat, Thread>)

  datatype Action =
    | Begin(id: string, version: int) | LookUp | Succeed | Fail | Settle | Close
    | Invalidate(id: string) | CloseAll

  predicate Enabled(sys: System, t: nat, a: Action)
  {
    match a
    case Begin(_, _) => t !in sys.threads
    case Invalidate(_) => t !in sys.threads
    case CloseAll => t !in sys.threads
    case LookUp => t in sys.threads && sys.threads[t].phase.Entering?
    case Succeed => t in sys.threads && sys.threads[t].phase.Building?
    case Fail => t in sys.threads && sys.threads[t].phase.Building?
    case Settle => t in sys.threads && sys.threads[t].phase.Built?
    case Close => t in sys.threads && sys.threads[t].phase.Closing?
  }

  function ClosesOf(sys: System, p: nat): nat { if p in sys.closes then sys.closes[p] else 0 }

  function To(sys: System, t: nat, p: Phase): System
    requires t in sys.threads
  {
    sys.(threads := sys.threads[t := sys.threads[t].(phase := p)])
  }

  /** After the second section: close the redundant pool, or the replaced one, or nothing. */
  function AfterSettle(sys: System, t: nat): System
    requires Enabled(sys, t, Settle)
  {
    var th := sys.threads[t];
    var own, stale := th.phase.pool, th.phase.stale;
    var e := Get(sys.entries, th.id);
    if Serves(e, th.version) then To(sys, t, Closing(own, Some(e.value.pool)))
    else
      var next := sys.(entries := sys.entries[th.id := Entry(own, th.version)]);
      To(next, t, if stale.Some? then Closing(stale.value.pool, Some(own)) else Finished(Some(own)))
  }

  function Step(sys: System, t: nat, a: Action): System
    requires Enabled(sys, t, a)
  {
    match a
    case Begin(id, v) => sys.(threads := sys.threads[t := Thread(id, v, Entering)])
    case Invalidate(id) =>
      var e := Get(sys.entries, id);
      sys.(entries := sys.entries - {id},
           threads := sys.threads[t := Thread(id, 0, if e.Some? then Closing(e.value.pool, None) else Finished(None))])
    case CloseAll =>
      var pools := sys.closes.Keys + set id | id in sys.entries :: sys.entries[id].pool;
      sys.(entries := map[], closes := map p | p in pools :: ClosesOf(sys, p) + |Registered(sys, p)|,
           threads := sys.threads[t := Thread("", 0, Finished(None))])
    case LookUp =>
      var e := Get(sys.entries, sys.threads[t].id);
      To(sys, t, if Serves(e, sys.threads[t].version) then Finished(Some(e.value.pool)) else Building(e))
    case Succeed =>
      var th := sys.threads[t];
      To(sys.(origin := sys.origin + [(th.id, th.version)]), t, Built(|sys.origin|, th.phase.stale))
    case Fail => To(sys, t, Finished(None))
    case Settle => AfterSettle(sys, t)
    case Close =>
      var p := sys.threads[t].phase.pool;
      To(sys.(closes := sys.closes[p := ClosesOf(sys, p) + 1]), t, Finished(sys.threads[t].phase.result))
  }

  const INITIAL := System(map[], [], map[], map[])

  /** The overlap hypothesis for one step: an Acquire begins building only beside builders of
      the same version, and nothing is invalidated under a builder's feet. */
  ghost predicate Disciplined(sys: System, t: nat, a: Action)
    requires Enabled(sys, t, a)
  {
    match a
    case LookUp => forall u | u in sys.threads && InFlight(sys.threads[u]) && sys.threads[u].id == sys.threads[t].id ::
                     sys.threads[u].version == sys.threads[t].version
    case Invalidate(id) => forall u | u in sys.threads && InFlight(sys.threads[u]) :: sys.threads[u].id != id
    case CloseAll => forall u | u in sys.threads :: !InFlight(sys.threads[u])
    case _ => true
  }

  predicate InFlight(th: Thread) { th.phase.Building? || th.phase.Built? }

  function Run(schedule: seq<(nat, Action)>): System
  {
    if schedule == [] then INITIAL
    else
      var (t, a) := schedule[|schedule| - 1];
      var before := Run(schedule[..|schedule| - 1]);
      if Enabled(before, t, a) then Step(before, t, a) else before
  }

  ghost predicate DisciplinedRun(schedule: seq<(nat, Action)>)
  {
    forall n | 0 <= n < |schedule| ::
      var before, t, a := Run(schedule[..n]), schedule[n].0, schedule[n].1;
      Enabled(before, t, a) ==> Disciplined(before, t, a)
  }

  // ---- The ledger ----

  predicate Carries(p: Phase, pool: nat) { (p.Built? && p.pool == pool) || (p.Closing? && p.pool == pool) }

  function Registered(sys: System, pool: nat): set<string> {
    set id | id in sys.entries && sys.entries[id].pool == pool
  }

  function InHand(sys: System, pool: nat): set<nat> { set t | t in sys.threads && Carries(sys.threads[t].phase, pool) }

  /** Places a pool is accounted for: in the registry, in a caller's hands (to be installed
      or closed), or closed. */
  function Ledger(sys: System, pool: nat): nat { |Registered(sys, pool)| + |InHand(sys, pool)| + ClosesOf(sys, pool) }

  ghost predicate Balanced(sys: System) { forall p: nat :: Ledger(sys, p) == if p < |sys.origin| then 1 else 0 }

  /** Every pool in the registry or handed out was built for the connection and version it
      is registered or requested under. */
  ghost predicate Genuine(sys: System)
  {
    && (forall id | id in sys.entries :: BuiltFor(sys, sys.entries[id].pool, id, sys.entries[id].version))
    && (forall t | t in sys.threads :: GenuineThread(sys, sys.threads[t]))
  }

  ghost predicate BuiltFor(sys: System, pool: nat, id: string, version: int)
  {
    pool < |sys.origin| && sys.origin[pool] == (id, version)
  }

  ghost predicate GenuineThread(sys: System, th: Thread)
  {
    match th.phase
    case Built(p, _) => BuiltFor(sys, p, th.id, th.version)
    case Closing(_, r) => r.Some? ==> BuiltFor(sys, r.value, th.id, th.version)
    case Finished(r) => r.Some? ==> BuiltFor(sys, r.value, th.id, th.version)
    case _ => true
  }

  /** A builder's captured entry is still current, or somebody has installed its version. */
  ghost predicate Current(sys: System, th: Thread)
  {
    InFlight(th) ==>
      var e := Get(sys.entries, th.id);
      Serves(e, th.version) || e == th.phase.stale
  }

  ghost predicate InStep(sys: System)
  {
    && (forall t | t in sys.threads :: Current(sys, sys.threads[t]))
    && (forall t, u | t in sys.threads && u in sys.threads && InFlight(sys.threads[t]) && InFlight(sys.threads[u]) ::
          sys.threads[t].id == sys.threads[u].id ==> sys.threads[t].version == sys.threads[u].version)
  }

  /** Acquire never hands out a pool of another connection or version, in any interleaving. */
  lemma GenuineStep(sys: System, t: nat, a: Action)
    requires Genuine(sys) && Enabled(sys, t, a)
    ensures Genuine(Step(sys, t, a))
  {
    var next := Step(sys, t, a);
    forall u | u in next.threads ensures GenuineThread(next, next.threads[u]) {
      if u != t { assert next.threads[u] == sys.threads[u] && GenuineThread(sys, sys.threads[u]); }
      else if t in sys.threads { assert GenuineThread(sys, sys.threads[t]); }
    }
  }

  lemma {:induction false} AlwaysGenuine(schedule: seq<(nat, Action)>)
    ensures Genuine(Run(schedule))
  {
    hide Genuine, Step, Enabled;
    if schedule == [] {
      assert Genuine(INITIAL) by { InitialOk(); }
    } else {
      AlwaysGenuine(schedule[..|schedule| - 1]);
      var (t, a) := schedule[|schedule| - 1];
      var before := Run(schedule[..|schedule| - 1]);
      if Enabled(before, t, a) { GenuineStep(before, t, a); }
    }
  }

  lemma InitialOk()
    ensures Genuine(INITIAL) && Balanced(INITIAL) && InStep(INITIAL)
  {
    forall p: nat ensures Ledger(INITIAL, p) == 0 {
      assert Registered(INITIAL, p) == {} && InHand(INITIAL, p) == {};
    }
  }

  // ---- Steps and the ledger ----

  lemma Delta<T>(x: set<T>, y: set<T>, t: T)
    requires forall u | u != t :: u in x <==> u in y
    ensures |y| == |x| - (if t in x then 1 else 0) + (if t in y then 1 else 0)
  {
    var common := x - {t};
    assert common == y - {t};
    if t in x { assert x == common + {t}; } else { assert x == common; }
    if t in y { assert y == common + {t}; } else { assert y == common; }
  }

  /** A change of one thread's phase. */
  lemma HandMoves(a: System, b: System, t: nat, p: nat)
    requires t in b.threads && b.threads.Keys == a.threads.Keys + {t}
    requires forall u | u in a.threads && u != t :: b.threads[u] == a.threads[u]
    ensures |InHand(b, p)| == |InHand(a, p)|
      - (if t in a.threads && Carries(a.threads[t].phase, p) then 1 else 0)
          + (if Carries(b.threads[t].phase, p) then 1 else 0)
  {
    Delta(InHand(a, p), InHand(b, p), t);
  }

  lemma RegistrySame(a: System, b: System, p: nat)
    requires a.entries == b.entries
    ensures Registered(a, p) == Registered(b, p)
  {
  }

  lemma RegistrySet(a: System, b: System, id: string, e: Entry, p: nat)
    requires b.entries == a.entries[id := e]
    ensures |Registered(b, p)| == |Registered(a, p)|
      - (if id in a.entries && a.entries[id].pool == p then 1 else 0) + (if e.pool == p then 1 else 0)
  {
    Delta(Registered(a, p), Registered(b, p), id);
  }

  lemma RegistryDrop(a: System, b: System, id: string, p: nat)
    requires b.entries == a.entries - {id}
    ensures |Registered(b, p)| == |Registered(a, p)| - (if id in a.entries && a.entries[id].pool == p then 1 else 0)
  {
    Delta(Registered(a, p), Registered(b, p), id);
  }

  /** Every step but an installation keeps the ledger, whatever the interleaving. */
  lemma LedgerStep(sys: System, t: nat, a: Action)
    requires Balanced(sys) && Enabled(sys, t, a) && !a.Settle?
    ensures Balanced(Step(sys, t, a))
  {
    var next := Step(sys, t, a);
    forall p: nat ensures Ledger(next, p) == if p < |next.origin| then 1 else 0 {
      HandMoves(sys, next, t, p);
      assert Ledger(sys, p) == if p < |sys.origin| then 1 else 0;
      if a.Invalidate? { RegistryDrop(sys, next, a.id, p); }
      else if a.CloseAll? { AllClosed(sys, t, p); }
      else { RegistrySame(sys, next, p); }
    }
  }

  lemma AllClosed(sys: System, t: nat, p: nat)
    requires Enabled(sys, t, CloseAll)
    ensures var next := Step(sys, t, CloseAll);
      Registered(next, p) == {} && ClosesOf(next, p) == ClosesOf(sys, p) + |Registered(sys, p)|
  {
    if forall id | id in sys.entries :: sys.entries[id].pool != p { assert Registered(sys, p) == {}; }
  }

  /** The entry an installation replaces is the one the builder will close. */
  predicate ReplacesCaptured(sys: System, t: nat)
    requires Enabled(sys, t, Settle)
  {
    var th := sys.threads[t];
    var e := Get(sys.entries, th.id);
    Serves(e, th.version) ||
    match e
    case None => th.phase.stale.None?
    case Some(x) => th.phase.stale.Some? && th.phase.stale.value.pool == x.pool
  }

  lemma SettleLedger(sys: System, t: nat, p: nat)
    requires Enabled(sys, t, Settle)
    ensures var th := sys.threads[t];
      var e := Get(sys.entries, th.id);
      Ledger(Step(sys, t, Settle), p) == Ledger(sys, p)
        + (if !Serves(e, th.version) && th.phase.stale.Some? && th.phase.stale.value.pool == p then 1 else 0)
        - (if !Serves(e, th.version) && e.Some? && e.value.pool == p then 1 else 0)
  {
    var next, th := Step(sys, t, Settle), sys.threads[t];
    HandMoves(sys, next, t, p);
    if Serves(Get(sys.entries, th.id), th.version) {
      RegistrySame(sys, next, p);
    } else {
      RegistrySet(sys, next, th.id, Entry(th.phase.pool, th.version), p);
    }
  }

  /** An installation keeps every pool accounted for exactly when it replaces the entry the
      builder captured; otherwise the replaced pool is lost or the captured one closed twice. */
  lemma SettleBalancedIff(sys: System, t: nat)
    requires Balanced(sys) && Enabled(sys, t, Settle)
    ensures Balanced(Step(sys, t, Settle)) <==> ReplacesCaptured(sys, t)
  {
    var next, th := Step(sys, t, Settle), sys.threads[t];
    var e := Get(sys.entries, th.id);
    assert |next.origin| == |sys.origin|;
    forall p: nat ensures Ledger(sys, p) == if p < |sys.origin| then 1 else 0 {}
    if ReplacesCaptured(sys, t) {
      forall p: nat ensures Ledger(next, p) == if p < |next.origin| then 1 else 0 { SettleLedger(sys, t, p); }
    } else if e.Some? {
      SettleLedger(sys, t, e.value.pool);
      assert Ledger(next, e.value.pool) != if e.value.pool < |next.origin| then 1 else 0;
    } else {
      SettleLedger(sys, t, th.phase.stale.value.pool);
      assert Ledger(next, th.phase.stale.value.pool) != if th.phase.stale.value.pool < |next.origin| then 1 else 0;
    }
  }

  ghost predicate AlwaysBalanced(schedule: seq<(nat, Action)>) {
    forall n | 0 <= n <= |schedule| :: Balanced(Run(schedule[..n]))
  }

  /** Step n, if it is an installation, replaces what its builder captured. */
  ghost predicate CapturesAt(schedule: seq<(nat, Action)>, n: nat)
    requires n < |schedule|
  {
    var sys, t := Run(schedule[..n]), schedule[n].0;
    schedule[n].1.Settle? && Enabled(sys, t, Settle) ==> ReplacesCaptured(sys, t)
  }

  ghost predicate AlwaysCaptures(schedule: seq<(nat, Action)>) {
    forall n | 0 <= n < |schedule| :: CapturesAt(schedule, n)
  }

  lemma AlwaysNext(schedule: seq<(nat, Action)>)
    requires schedule != []
    ensures var front := schedule[..|schedule| - 1];
      && (AlwaysBalanced(schedule) <==> AlwaysBalanced(front) && Balanced(Run(schedule)))
      && (AlwaysCaptures(schedule) <==> AlwaysCaptures(front) && CapturesAt(schedule, |front|))
      && (AlwaysBalanced(front) ==> Balanced(Run(front)))
  {
    hide Run, Balanced, Enabled, ReplacesCaptured;
    var k := |schedule| - 1;
    var front := schedule[..k];
    forall n | 0 <= n <= k ensures front[..n] == schedule[..n] {}
    assert schedule[..k + 1] == schedule && front[..k] == front;
    forall n | 0 <= n < k ensures CapturesAt(front, n) <==> CapturesAt(schedule, n) {
      assert front[n] == schedule[n] && front[..n] == schedule[..n];
    }
    if AlwaysBalanced(schedule) {
      forall n | 0 <= n <= k ensures Balanced(Run(front[..n])) { assert Balanced(Run(schedule[..n])); }
    }
    if AlwaysBalanced(front) && Balanced(Run(schedule)) {
      forall n | 0 <= n <= k + 1 ensures Balanced(Run(schedule[..n])) {
        if n <= k { assert Balanced(Run(front[..n])); }
      }
    }
  }

  /** For every schedule: every pool is accounted for exactly once all along if and only if every
      installation replaces the entry that its builder captured. */
  lemma {:induction false} AlwaysBalancedIff(schedule: seq<(nat, Action)>)
    ensures AlwaysBalanced(schedule) <==> AlwaysCaptures(schedule)
  {
    if schedule == [] {
      InitialOk();
      assert schedule[..0] == [];
    } else {
      var front := schedule[..|schedule| - 1];
      var (t, a) := schedule[|schedule| - 1];
      AlwaysBalancedIff(front);
      AlwaysNext(schedule);
      hide Balanced, Step, Enabled, ReplacesCaptured, AlwaysBalanced, AlwaysCaptures;
      var before := Run(front);
      if AlwaysBalanced(front) && Enabled(before, t, a) {
        if a.Settle? { SettleBalancedIff(before, t); } else { LedgerStep(before, t, a); }
      }
    }
  }

  lemma InStepKept(sys: System, t: nat, a: Action)
    requires InStep(sys) && Enabled(sys, t, a) && Disciplined(sys, t, a)
    ensures InStep(Step(sys, t, a))
    ensures a.Settle? ==> ReplacesCaptured(sys, t)
  {
    var next := Step(sys, t, a);
    if a.Settle? { assert Current(sys, sys.threads[t]); }
    forall u | u in next.threads ensures Current(next, next.threads[u]) {
      if u in sys.threads { assert Current(sys, sys.threads[u]); }
      if u != t { assert next.threads[u] == sys.threads[u]; }
    }
  }

  /** The law: in every run in which overlapping Acquires of a connection share a version and
      no Invalidate overlaps them, every pool ever built is in exactly one place - registered,
      in the hands of one caller, or closed exactly once. */
  lemma {:induction false} EveryPoolOnce(schedule: seq<(nat, Action)>)
    requires DisciplinedRun(schedule)
    ensures Balanced(Run(schedule)) && InStep(Run(schedule))
  {
    hide Balanced, InStep, Step, Enabled, Disciplined;
    if schedule == [] {
      InitialOk();
    } else {
      var n := |schedule| - 1;
      forall k | 0 <= k < n ensures schedule[..n][..k] == schedule[..k] && schedule[..n][k] == schedule[k] {}
      assert DisciplinedRun(schedule[..n]);
      EveryPoolOnce(schedule[..n]);
      var (t, a) := schedule[n];
      var before := Run(schedule[..n]);
      if Enabled(before, t, a) {
        InStepKept(before, t, a);
        if a.Settle? { SettleBalancedIff(before, t); } else { LedgerStep(before, t, a); }
      }
    }
  }

  /** When nobody is in the middle of anything, every pool built is either the registered one
      of its connection or closed exactly once. */
  lemma QuiescentPools(schedule: seq<(nat, Action)>, p: nat)
    requires DisciplinedRun(schedule)
    requires forall t | t in Run(schedule).threads :: Run(schedule).threads[t].phase.Finished?
    requires p < |Run(schedule).origin|
    ensures var sys := Run(schedule);
      if ClosesOf(sys, p) == 0 then exists id | id in sys.entries :: sys.entries[id].pool == p
      else ClosesOf(sys, p) == 1 && forall id | id in sys.entries :: sys.entries[id].pool != p
  {
    EveryPoolOnce(schedule);
    hide Run;
    var sys := Run(schedule);
    assert Ledger(sys, p) == 1;
    assert InHand(sys, p) == {};
    forall id | id in sys.entries && sys.entries[id].pool == p ensures id in Registered(sys, p) {}
    if ClosesOf(sys, p) == 0 {
      var id :| id in Registered(sys, p);
    } else {
      assert Registered(sys, p) == {};
    }
  }

  // ---- Without the hypothesis ----

  lemma RunSnoc(schedule: seq<(nat, Action)>, t: nat, a: Action)
    requires Enabled(Run(schedule), t, a)
    ensures Run(schedule + [(t, a)]) == Step(Run(schedule), t, a)
  {
    assert (schedule + [(t, a)])[..|schedule|] == schedule;
  }

  /** Two Acquires of different versions that overlap lose a pool: the first one built is
      neither registered, nor in anyone's hands, nor ever closed. */
  lemma LostPool(id: string) returns (schedule: seq<(nat, Action)>)
    ensures var sys := Run(schedule);
      |sys.origin| == 2 && Ledger(sys, 0) == 0 && forall t | t in sys.threads :: sys.threads[t].phase.Finished?
  {
    hide Run;
    schedule := [];
    assert Run([]) == INITIAL by { RunEmpty(); }
    RunSnoc(schedule, 1, Begin(id, 1)); schedule := schedule + [(1, Begin(id, 1))];
    RunSnoc(schedule, 2, Begin(id, 2)); schedule := schedule + [(2, Begin(id, 2))];
    RunSnoc(schedule, 1, LookUp); schedule := schedule + [(1, LookUp)];
    RunSnoc(schedule, 2, LookUp); schedule := schedule + [(2, LookUp)];
    RunSnoc(schedule, 1, Succeed); schedule := schedule + [(1, Succeed)];
    RunSnoc(schedule, 2, Succeed); schedule := schedule + [(2, Succeed)];
    RunSnoc(schedule, 1, Settle); schedule := schedule + [(1, Settle)];
    RunSnoc(schedule, 2, Settle); schedule := schedule + [(2, Settle)];
    var sys := Run(schedule);
    assert sys.entries == map[id := Entry(1, 2)] && sys.closes == map[];
    assert Registered(sys, 0) == {} && InHand(sys, 0) == {};
  }

  lemma RunEmpty() ensures Run([]) == INITIAL {}
}
