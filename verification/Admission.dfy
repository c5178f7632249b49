/** The per-connection admission controller (internal/connector/admission.go): a mutex, a
    count of running and queued queries per key, and a channel that every release closes
    and replaces. Threads are explicit, and every interleaving of their atomic sections is
    a run. A channel is known by its generation: closed once a newer one exists. */
module Admission {

  datatype KeyState = KeyState(inflight: int, waiting: int, gen: nat)

  datatype Attempt = Granted | Rejected | Queued(gen: nat)

  type States = map<string, KeyState>

  function At(states: States, key: string): KeyState { if key in states then states[key] else KeyState(0, 0, 0) }

  // ---- The three critical sections ----

  /** The locked part of one turn of Acquire's loop. */
  function TryAcquire(queueSize: nat, s: KeyState, limit: int, queued: bool): (KeyState, Attempt)
  {
    if s.inflight < limit then
      (s.(inflight := s.inflight + 1, waiting := if queued then s.waiting - 1 else s.waiting), Granted)
    else if queued then (s, Queued(s.gen))
    else if queueSize == 0 || s.waiting >= queueSize then (s, Rejected)
    else (s.(waiting := s.waiting + 1), Queued(s.gen))
  }

  function Dequeued(s: KeyState): KeyState { if s.waiting > 0 then s.(waiting := s.waiting - 1) else s }

  function Released(s: KeyState): KeyState {
    if s.inflight == 0 then s else s.(inflight := s.inflight - 1, gen := s.gen + 1)
  }

  /** The controller itself; each method is what happens under one hold of its mutex. */
  class AdmissionController {
    const queueSize: nat
    var states: States

    constructor (size: int)
      ensures queueSize == if size < 0 then 0 else size
      ensures states == map[]
    {
      queueSize := if size < 0 then 0 else size;
      states := map[];
    }

    method Enter(key: string, limit: int, queued: bool) returns (a: Attempt)
      modifies this
      ensures (At(states, key), a) == TryAcquire(queueSize, old(At(states, key)), limit, queued)
      ensures states == old(states)[key := At(states, key)]
    {
      var s := At(states, key);
      states := states[key := s];
      if s.inflight < limit {
        s := s.(inflight := s.inflight + 1);
        if queued { s := s.(waiting := s.waiting - 1); }
        states := states[key := s];
        return Granted;
      }
      if !queued {
        if queueSize == 0 || s.waiting >= queueSize { return Rejected; }
        s := s.(waiting := s.waiting + 1);
        states := states[key := s];
      }
      return Queued(s.gen);
    }

    method Dequeue(key: string)
      modifies this
      ensures At(states, key) == Dequeued(old(At(states, key)))
      ensures forall k | k != key :: At(states, k) == old(At(states, k))
    {
      if key in states && states[key].waiting > 0 {
        states := states[key := states[key].(waiting := states[key].waiting - 1)];
      }
    }

    method Release(key: string)
      modifies this
      ensures At(states, key) == Released(old(At(states, key)))
      ensures forall k | k != key :: At(states, k) == old(At(states, k))
    {
      if key !in states || states[key].inflight == 0 { return; }
      var s := states[key];
      states := states[key := KeyState(s.inflight - 1, s.waiting, s.gen + 1)];
    }

    method Depth(key: string) returns (n: int)
      ensures n == At(states, key).inflight + At(states, key).waiting
    {
      if key in states { return states[key].inflight + states[key].waiting; }
      return 0;
    }
  }

  // ---- Threads and steps ----

  /** Where a caller of Acquire is: before its first attempt, blocked on a channel, woken and
      about to try again, giving up, holding a slot, or finished. */
  datatype Phase = Entering | Blocked(gen: nat) | Woken | Leaving | Holding | Finished

  datatype Thread = Thread(key: string, limit: int, phase: Phase)

  datatype System = System(queueSize: nat, states: States, threads: map<nat, Thread>)

  predicate IsQueued(p: Phase) { p.Blocked? || p.Woken? || p.Leaving? }

  function Move(sys: System, t: nat, p: Phase, s: KeyState): System
    requires t in sys.threads
  {
    var th := sys.threads[t];
    sys.(states := sys.states[th.key := s], threads := sys.threads[t := th.(phase := p)])
  }

  datatype Action = Start(key: string, limit: int) | Lock | Wake | GiveUp | Depart | Finish

  predicate Enabled(sys: System, t: nat, a: Action)
  {
    match a
    case Start(_, _) => t !in sys.threads
    case Lock => t in sys.threads && (sys.threads[t].phase.Entering? || sys.threads[t].phase.Woken?)
    case Wake => t in sys.threads && sys.threads[t].phase.Blocked?
        && sys.threads[t].phase.gen < At(sys.states, sys.threads[t].key).gen
    case GiveUp => t in sys.threads && sys.threads[t].phase.Blocked?
    case Depart => t in sys.threads && sys.threads[t].phase.Leaving?
    case Finish => t in sys.threads && sys.threads[t].phase.Holding?
  }

  function Step(sys: System, t: nat, a: Action): System
    requires Enabled(sys, t, a)
  {
    match a
    case Start(key, limit) => sys.(threads := sys.threads[t := Thread(key, if limit < 1 then 1 else limit, Entering)])
    case Lock =>
      var th := sys.threads[t];
      var (s, r) := TryAcquire(sys.queueSize, At(sys.states, th.key), th.limit, th.phase.Woken?);
      Move(sys, t, match r case Granted => Holding case Rejected => Finished case Queued(g) => Blocked(g), s)
    case Wake => Move(sys, t, Woken, At(sys.states, sys.threads[t].key))
    case GiveUp => Move(sys, t, Leaving, At(sys.states, sys.threads[t].key))
    case Depart => Move(sys, t, Finished, Dequeued(At(sys.states, sys.threads[t].key)))
    case Finish => Move(sys, t, Finished, Released(At(sys.states, sys.threads[t].key)))
  }

  /** The whole system after a schedule; steps that are not enabled do nothing. */
  function Run(sys: System, schedule: seq<(nat, Action)>): System
  {
    if schedule == [] then sys
    else
      var (t, a) := schedule[|schedule| - 1];
      var before := Run(sys, schedule[..|schedule| - 1]);
      if Enabled(before, t, a) then Step(before, t, a) else before
  }

  function Initial(queueSize: nat): System { System(queueSize, map[], map[]) }

  // ---- The invariant ----

  function Holders(sys: System, key: string): set<nat> {
    set t | t in sys.threads && sys.threads[t].key == key && sys.threads[t].phase.Holding?
  }

  function Waiters(sys: System, key: string): set<nat> {
    set t | t in sys.threads && sys.threads[t].key == key && IsQueued(sys.threads[t].phase)
  }

  /** No waiter sleeps on the open channel while there is room for it. */
  ghost predicate Awake(sys: System, key: string)
  {
    forall t | t in sys.threads && sys.threads[t].key == key && sys.threads[t].phase.Blocked? ::
      var s := At(sys.states, key);
      sys.threads[t].phase.gen <= s.gen && (sys.threads[t].phase.gen == s.gen ==> s.inflight >= sys.threads[t].limit)
  }

  ghost predicate Bounded(sys: System, key: string)
  {
    At(sys.states, key).inflight > 0 ==>
      exists t | t in sys.threads :: sys.threads[t].key == key && sys.threads[t].limit >= At(sys.states, key).inflight
  }

  ghost predicate KeyInv(sys: System, key: string)
  {
    var s := At(sys.states, key);
    && s.inflight == |Holders(sys, key)|
    && s.waiting == |Waiters(sys, key)| <= sys.queueSize
    && Awake(sys, key) && Bounded(sys, key)
  }

  ghost predicate Inv(sys: System)
  {
    (forall t | t in sys.threads :: sys.threads[t].limit >= 1) && forall key :: KeyInv(sys, key)
  }

  lemma MovedSets(sys: System, t: nat, p: Phase, s: KeyState, key: string)
    requires t in sys.threads
    ensures var next := Move(sys, t, p, s);
      if key != sys.threads[t].key then Holders(next, key) == Holders(sys, key)
          && Waiters(next, key) == Waiters(sys, key)
      else
        && Holders(next, key) == (if p.Holding? then Holders(sys, key) + {t} else Holders(sys, key) - {t})
        && Waiters(next, key) == (if IsQueued(p) then Waiters(sys, key) + {t} else Waiters(sys, key) - {t})
  {
  }

  /** What a move of one thread does to the counted sets of its key. */
  lemma Moved(sys: System, t: nat, p: Phase, s: KeyState, key: string)
    requires t in sys.threads
    ensures var next, th := Move(sys, t, p, s), sys.threads[t];
      if key != th.key then
        Holders(next, key) == Holders(sys, key) && Waiters(next, key) == Waiters(sys, key)
            && At(next.states, key) == At(sys.states, key)
      else
        && At(next.states, key) == s
        && |Holders(next, key)| == |Holders(sys, key)|
            + (if p.Holding? then 1 else 0) - (if th.phase.Holding? then 1 else 0)
        && |Waiters(next, key)| == |Waiters(sys, key)|
            + (if IsQueued(p) then 1 else 0) - (if IsQueued(th.phase) then 1 else 0)
  {
    MovedSets(sys, t, p, s, key);
    var th := sys.threads[t];
    assert t in Holders(sys, key) <==> key == th.key && th.phase.Holding?;
    assert t in Waiters(sys, key) <==> key == th.key && IsQueued(th.phase);
    hide Holders, Waiters;
    Delta(Holders(sys, key), t);
    Delta(Waiters(sys, key), t);
  }

  lemma Delta(h: set<nat>, t: nat)
    ensures |h + {t}| == |h| + if t in h then 0 else 1
    ensures |h - {t}| == |h| - if t in h then 1 else 0
  {
    if t in h { assert h + {t} == h; } else { assert h - {t} == h; }
  }

  lemma OtherKeys(sys: System, t: nat, p: Phase, s: KeyState, key: string)
    requires t in sys.threads && sys.threads[t].key != key && KeyInv(sys, key)
    ensures KeyInv(Move(sys, t, p, s), key)
  {
    Moved(sys, t, p, s, key);
    var next := Move(sys, t, p, s);
    if At(sys.states, key).inflight > 0 {
      var u :| u in sys.threads && sys.threads[u].key == key && sys.threads[u].limit >= At(sys.states, key).inflight;
      assert next.threads[u] == sys.threads[u];
    }
  }

  lemma LockKeeps(sys: System, t: nat)
    requires Inv(sys) && Enabled(sys, t, Lock)
    ensures KeyInv(Step(sys, t, Lock), sys.threads[t].key)
  {
    var th := sys.threads[t];
    var key := th.key;
    var (s, r) := TryAcquire(sys.queueSize, At(sys.states, key), th.limit, th.phase.Woken?);
    var p := match r case Granted => Holding case Rejected => Finished case Queued(g) => Blocked(g);
    var next := Step(sys, t, Lock);
    assert KeyInv(sys, key);
    Moved(sys, t, p, s, key);
    assert next.threads[t].limit == th.limit;
    if !r.Granted? && s.inflight > 0 {
      var u :| u in sys.threads && sys.threads[u].key == key && sys.threads[u].limit >= s.inflight;
      assert next.threads[u].key == key && next.threads[u].limit >= s.inflight;
    }
  }

  lemma QuietMoveKeeps(sys: System, t: nat, p: Phase)
    requires Inv(sys) && t in sys.threads && sys.threads[t].phase.Blocked? && (p.Woken? || p.Leaving?)
    ensures KeyInv(Move(sys, t, p, At(sys.states, sys.threads[t].key)), sys.threads[t].key)
  {
    var key := sys.threads[t].key;
    var next := Move(sys, t, p, At(sys.states, key));
    assert KeyInv(sys, key);
    Moved(sys, t, p, At(sys.states, key), key);
    KeepsBound(sys, t, p, At(sys.states, key));
  }

  lemma KeepsBound(sys: System, t: nat, p: Phase, s: KeyState)
    requires t in sys.threads && Bounded(sys, sys.threads[t].key)
        && s.inflight <= At(sys.states, sys.threads[t].key).inflight
    ensures Bounded(Move(sys, t, p, s), sys.threads[t].key)
  {
    var key := sys.threads[t].key;
    if s.inflight > 0 {
      var u :| u in sys.threads && sys.threads[u].key == key && sys.threads[u].limit >= At(sys.states, key).inflight;
      assert Move(sys, t, p, s).threads[u].limit == sys.threads[u].limit;
    }
  }

  lemma LeaveKeeps(sys: System, t: nat, a: Action)
    requires Inv(sys) && Enabled(sys, t, a) && (a.Depart? || a.Finish?)
    ensures KeyInv(Step(sys, t, a), sys.threads[t].key)
  {
    var key := sys.threads[t].key;
    assert KeyInv(sys, key);
    GuardsHold(sys, t);
    var s := if a.Depart? then Dequeued(At(sys.states, key)) else Released(At(sys.states, key));
    Moved(sys, t, Finished, s, key);
    KeepsBound(sys, t, Finished, s);
  }

  /** The underflow guards in dequeue and release never fire. */
  lemma GuardsHold(sys: System, t: nat)
    requires Inv(sys) && t in sys.threads
    ensures sys.threads[t].phase.Holding? ==> At(sys.states, sys.threads[t].key).inflight > 0
    ensures IsQueued(sys.threads[t].phase) ==> At(sys.states, sys.threads[t].key).waiting > 0
  {
    var key := sys.threads[t].key;
    assert KeyInv(sys, key);
    if sys.threads[t].phase.Holding? { assert t in Holders(sys, key); }
    if IsQueued(sys.threads[t].phase) { assert t in Waiters(sys, key); }
  }

  lemma StartKeeps(sys: System, t: nat, key0: string, limit: int, key: string)
    requires KeyInv(sys, key) && t !in sys.threads
    ensures KeyInv(Step(sys, t, Start(key0, limit)), key)
  {
    var next := Step(sys, t, Start(key0, limit));
    assert Holders(next, key) == Holders(sys, key) && Waiters(next, key) == Waiters(sys, key);
    if At(sys.states, key).inflight > 0 {
      var u :| u in sys.threads && sys.threads[u].key == key && sys.threads[u].limit >= At(sys.states, key).inflight;
      assert next.threads[u] == sys.threads[u];
    }
  }

  lemma StepKeeps(sys: System, t: nat, a: Action)
    requires Inv(sys) && Enabled(sys, t, a)
    ensures Inv(Step(sys, t, a))
  {
    var next := Step(sys, t, a);
    forall key ensures KeyInv(next, key) {
      assert KeyInv(sys, key);
      if a.Start? {
        StartKeeps(sys, t, a.key, a.limit, key);
      } else if key != sys.threads[t].key {
        assert next == Move(sys, t, next.threads[t].phase, At(next.states, sys.threads[t].key));
        OtherKeys(sys, t, next.threads[t].phase, At(next.states, sys.threads[t].key), key);
      } else if a.Lock? {
        LockKeeps(sys, t);
      } else if a.Wake? || a.GiveUp? {
        QuietMoveKeeps(sys, t, if a.Wake? then Woken else Leaving);
      } else {
        LeaveKeeps(sys, t, a);
      }
    }
  }

  /** In every state of every schedule: the running count is the slots held, the queue
      count is the queued callers and at most the queue size, the running count never
      exceeds the largest limit asked for, and no waiter misses its wake-up. */
  lemma {:induction false} AlwaysInv(queueSize: nat, schedule: seq<(nat, Action)>)
    ensures Inv(Run(Initial(queueSize), schedule))
  {
    hide KeyInv, Step, Enabled;
    if schedule == [] {
      forall key ensures KeyInv(Initial(queueSize), key) { InitialInv(queueSize, key); }
    } else {
      AlwaysInv(queueSize, schedule[..|schedule| - 1]);
      var (t, a) := schedule[|schedule| - 1];
      var before := Run(Initial(queueSize), schedule[..|schedule| - 1]);
      if Enabled(before, t, a) { StepKeeps(before, t, a); }
    }
  }

  lemma InitialInv(queueSize: nat, key: string)
    ensures KeyInv(Initial(queueSize), key)
  {
    assert Holders(Initial(queueSize), key) == {} && Waiters(Initial(queueSize), key) == {};
  }

  // ---- What the invariant buys ----

  /** A queued caller that would fit is never stuck: it can be woken or is already awake. */
  lemma NoLostWakeup(queueSize: nat, schedule: seq<(nat, Action)>, t: nat)
    ensures var sys := Run(Initial(queueSize), schedule);
      t in sys.threads && sys.threads[t].phase.Blocked?
          && At(sys.states, sys.threads[t].key).inflight < sys.threads[t].limit
      ==> Enabled(sys, t, Wake)
  {
    AlwaysInv(queueSize, schedule);
    hide Run;
    var sys := Run(Initial(queueSize), schedule);
    if t in sys.threads { assert KeyInv(sys, sys.threads[t].key); }
  }

  /** Whenever somebody queues for a key, either a slot of that key is held (and its release
      will wake everyone) or every queued caller of the key can move on its own. */
  lemma NoDeadlock(queueSize: nat, schedule: seq<(nat, Action)>, key: string, t: nat)
    ensures var sys := Run(Initial(queueSize), schedule);
      t in Waiters(sys, key) && Holders(sys, key) == {} ==>
        Enabled(sys, t, Wake) || Enabled(sys, t, Lock) || Enabled(sys, t, Depart)
  {
    AlwaysInv(queueSize, schedule);
    hide Run;
    var sys := Run(Initial(queueSize), schedule);
    assert KeyInv(sys, key);
  }

  /** A release wakes every blocked caller of its key. */
  lemma ReleaseWakesAll(queueSize: nat, schedule: seq<(nat, Action)>, t: nat, u: nat)
    ensures var sys := Run(Initial(queueSize), schedule);
      Enabled(sys, t, Finish) && u in sys.threads && sys.threads[u].phase.Blocked?
          && sys.threads[u].key == sys.threads[t].key
      ==> Enabled(Step(sys, t, Finish), u, Wake)
  {
    AlwaysInv(queueSize, schedule);
    hide Run;
    var sys := Run(Initial(queueSize), schedule);
    if t in sys.threads { assert KeyInv(sys, sys.threads[t].key); GuardsHold(sys, t); }
  }

  /** A step of one caller never touches the state of another key. */
  lemma KeysAreIndependent(sys: System, t: nat, a: Action, key: string)
    requires Enabled(sys, t, a) && (if a.Start? then true else sys.threads[t].key != key)
    ensures At(Step(sys, t, a).states, key) == At(sys.states, key)
  {
  }

  /** Whatever has happened before, a locked attempt is granted if and only if fewer threads hold the
      key than its own limit allows, and refused if and only if it is a first attempt, there is no room
      and the queue is full; in every other case the thread waits. */
  lemma AttemptServedIff(queueSize: nat, schedule: seq<(nat, Action)>, t: nat)
    requires Enabled(Run(Initial(queueSize), schedule), t, Lock)
    ensures var sys := Run(Initial(queueSize), schedule);
      var th, after := sys.threads[t], Step(sys, t, Lock).threads[t].phase;
      var room, full := |Holders(sys, th.key)| < th.limit, |Waiters(sys, th.key)| >= queueSize;
      && (after.Holding? <==> room)
      && (after.Finished? <==> !room && th.phase.Entering? && full)
      && (after.Blocked? <==> !room && !(th.phase.Entering? && full))
  {
    AlwaysInv(queueSize, schedule);
    var sys := Run(Initial(queueSize), schedule);
    assert KeyInv(sys, sys.threads[t].key);
    hide Run, Holders, Waiters;
    QueueSizeStays(queueSize, schedule);
  }

  lemma {:induction false} QueueSizeStays(queueSize: nat, schedule: seq<(nat, Action)>)
    ensures Run(Initial(queueSize), schedule).queueSize == queueSize
  {
    if schedule != [] { QueueSizeStays(queueSize, schedule[..|schedule| - 1]); }
  }

  /** A thread's limit is the one it asked for, at least 1, from its first step to its last. */
  lemma LimitIsAsked(sys: System, t: nat, a: Action)
    requires Enabled(sys, t, a)
    ensures forall u | u in sys.threads ::
      u in Step(sys, t, a).threads && Step(sys, t, a).threads[u].limit == sys.threads[u].limit
      && Step(sys, t, a).threads[u].key == sys.threads[u].key
    ensures a.Start? ==> var th := Step(sys, t, a).threads[t];
      th.key == a.key && (a.limit >= 1 ==> th.limit == a.limit) && (a.limit < 1 ==> th.limit == 1)
  {
  }

  /** The thread waits on the channel that is still open. */
  predicate Asleep(sys: System, t: nat) {
    t in sys.threads && sys.threads[t].phase.Blocked? && !Enabled(sys, t, Wake)
  }

  /** A thread that begins to wait is asleep, and another thread's step wakes it if and only if that
      step releases a slot of the same key. */
  lemma OnlyReleaseWakes(queueSize: nat, schedule: seq<(nat, Action)>, t: nat, u: nat, a: Action)
    requires Enabled(Run(Initial(queueSize), schedule), u, a)
    ensures var sys := Run(Initial(queueSize), schedule);
      var next := Step(sys, u, a);
      && (u == t && a.Lock? && next.threads[t].phase.Blocked? ==> Asleep(next, t))
      && (u != t && Asleep(sys, t) ==>
          (Asleep(next, t) <==> !(a.Finish? && sys.threads[u].key == sys.threads[t].key)))
  {
    var sys := Run(Initial(queueSize), schedule);
    AlwaysInv(queueSize, schedule);
    if a.Finish? { GuardsHold(sys, u); }
    if t in sys.threads { assert KeyInv(sys, sys.threads[t].key); }
    hide Run, Holders, Waiters, Bounded;
  }
}
