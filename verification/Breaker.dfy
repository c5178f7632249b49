/** The circuit breaker of one connection (internal/circuit/breaker.go), and what its runs
    allow. Times and durations are integers; the failure ratio is a real number. */
module Breaker {
  import opened Options

  datatype Settings = Settings(maxRequests: int, interval: int, timeout: int, failureThreshold: int, failureRatio: real)

  const SECOND := 1_000_000_000

  /** The defaults New fills in. */
  function Normalize(s: Settings): (r: Settings)
    ensures Normal(r) && r.failureRatio == s.failureRatio
    ensures s.maxRequests > 0 && s.interval > 0 && s.timeout > 0 && s.failureThreshold > 0 ==> r == s
    ensures s.maxRequests <= 0 ==> r.maxRequests == 1
    ensures s.interval <= 0 ==> r.interval == 60_000_000_000
    ensures s.timeout <= 0 ==> r.timeout == 30_000_000_000
    ensures s.failureThreshold <= 0 ==> r.failureThreshold == 5
  {
    Settings(if s.maxRequests <= 0 then 1 else s.maxRequests,
             if s.interval <= 0 then 60 * SECOND else s.interval,
             if s.timeout <= 0 then 30 * SECOND else s.timeout,
             if s.failureThreshold <= 0 then 5 else s.failureThreshold,
             s.failureRatio)
  }

  predicate Normal(s: Settings) { s.maxRequests > 0 && s.interval > 0 && s.timeout > 0 && s.failureThreshold > 0 }

  datatype Phase = Closed | Open | HalfOpen

  datatype State = State(phase: Phase, openedAt: int, intervalStart: Option<int>, requests: int, failures: int,
      halfOpenInUse: int)

  const INITIAL := State(Closed, 0, None, 0, 0, 0)

  predicate Expired(c: Settings, s: State, now: int) {
    s.intervalStart.Some? && now - s.intervalStart.value >= c.interval
  }

  function Rotate(c: Settings, s: State, now: int): State {
    if s.intervalStart.None? then s.(intervalStart := Some(now))
    else if Expired(c, s, now) then s.(intervalStart := Some(now), requests := 0, failures := 0)
    else s
  }

  function AfterAllow(c: Settings, s0: State, now: int): (State, bool)
  {
    var s := Rotate(c, s0, now);
    if s.phase.Closed? then (s.(requests := s.requests + 1), true)
    else if s.phase.Open? && now - s.openedAt < c.timeout then (s, false)
    else
      var h := if s.phase.Open? then s.(phase := HalfOpen, halfOpenInUse := 0) else s;
      if h.halfOpenInUse >= c.maxRequests then (h, false) else (h.(halfOpenInUse := h.halfOpenInUse + 1), true)
  }

  predicate ShouldOpen(c: Settings, s: State) {
    || s.failures >= c.failureThreshold
    || (c.failureRatio > 0.0 && s.requests > 0 && s.failures as real / s.requests as real >= c.failureRatio)
  }

  function Opened(s: State, now: int): State { s.(phase := Open, openedAt := now, halfOpenInUse := 0) }

  function AfterReport(c: Settings, s0: State, success: bool, now: int): State
  {
    var s := Rotate(c, s0, now);
    match s.phase
    case Open => s
    case HalfOpen => if success then State(Closed, s.openedAt, Some(now), 0, 0, 0) else Opened(s, now)
    case Closed =>
      var f := if success then s else s.(failures := s.failures + 1);
      if ShouldOpen(c, f) then Opened(f, now) else f
  }

  /** The object: fields updated in place under its mutex. */
  class Breaker {
    const settings: Settings
    var phase: Phase
    var openedAt: int
    var intervalStart: Option<int>
    var requests: int
    var failures: int
    var halfOpenInUse: int

    function View(): State
      reads this
    {
      State(phase, openedAt, intervalStart, requests, failures, halfOpenInUse)
    }

    constructor (s: Settings)
      ensures View() == INITIAL && settings == Normalize(s)
    {
      settings := Normalize(s);
      phase, openedAt, intervalStart, requests, failures, halfOpenInUse := Closed, 0, None, 0, 0, 0;
    }

    method RotateWindow(now: int)
      modifies this
      ensures View() == Rotate(settings, old(View()), now)
    {
      if intervalStart.None? {
        intervalStart := Some(now);
        return;
      }
      if now - intervalStart.value >= settings.interval {
        intervalStart := Some(now);
        requests := 0;
        failures := 0;
      }
    }

    method Allow(now: int) returns (ok: bool)
      modifies this
      ensures (View(), ok) == AfterAllow(settings, old(View()), now)
    {
      RotateWindow(now);
      match phase {
        case Closed =>
          requests := requests + 1;
          return true;
        case Open =>
          if now - openedAt >= settings.timeout {
            phase := HalfOpen;
            halfOpenInUse := 0;
          } else {
            return false;
          }
        case HalfOpen =>
      }
      if halfOpenInUse >= settings.maxRequests { return false; }
      halfOpenInUse := halfOpenInUse + 1;
      return true;
    }

    method Report(success: bool, now: int)
      modifies this
      ensures View() == AfterReport(settings, old(View()), success, now)
    {
      RotateWindow(now);
      match phase {
        case HalfOpen =>
          if halfOpenInUse > 0 { halfOpenInUse := halfOpenInUse - 1; }
          if success {
            phase, intervalStart, requests, failures, halfOpenInUse := Closed, Some(now), 0, 0, 0;
            return;
          }
          phase, openedAt, halfOpenInUse := Open, now, 0;
        case Closed =>
          if !success { failures := failures + 1; }
          if ShouldOpen(settings, View()) { phase, openedAt, halfOpenInUse := Open, now, 0; }
        case Open =>
      }
    }
  }

  // ---- Runs ----

  datatype Event = Call(now: int) | Outcome(success: bool, now: int)

  function Next(c: Settings, s: State, e: Event): State {
    match e case Call(now) => AfterAllow(c, s, now).0 case Outcome(ok, now) => AfterReport(c, s, ok, now)
  }

  predicate Grants(c: Settings, s: State, e: Event) { e.Call? && AfterAllow(c, s, e.now).1 }

  function After(c: Settings, evs: seq<Event>): State {
    if evs == [] then INITIAL else Next(c, After(c, evs[..|evs| - 1]), evs[|evs| - 1])
  }

  ghost predicate Monotone(evs: seq<Event>) { forall i, j | 0 <= i < j < |evs| :: evs[i].now <= evs[j].now }

  /** Calls granted among events i..j-1. */
  function GrantedIn(c: Settings, evs: seq<Event>, i: nat, j: nat): nat
    requires i <= j <= |evs|
    decreases j
  {
    if i == j then 0
    else GrantedIn(c, evs, i, j - 1) + if Grants(c, After(c, evs[..j - 1]), evs[j - 1]) then 1 else 0
  }

  /** The event at which the current stay in half-open began (or |evs| if not half-open). */
  function HalfOpenSince(c: Settings, evs: seq<Event>): (i: nat)
    ensures i <= |evs|
  {
    if evs == [] || !After(c, evs).phase.HalfOpen? then |evs|
    else
      var front := evs[..|evs| - 1];
      if After(c, front).phase.HalfOpen? then HalfOpenSince(c, front) else |front|
  }

  /** The event that began the current counting window: the first event, a rotation, or the
      report that closed the breaker. */
  function WindowSince(c: Settings, evs: seq<Event>): (i: nat)
    ensures i <= |evs|
  {
    if evs == [] then 0
    else
      var front, e := evs[..|evs| - 1], evs[|evs| - 1];
      var s := After(c, front);
      if s.intervalStart.None? || Expired(c, s, e.now) || (s.phase.HalfOpen? && e.Outcome? && e.success) then |front|
      else WindowSince(c, front)
  }

  function FailedIn(evs: seq<Event>, i: nat, j: nat): nat
    requires i <= j <= |evs|
    decreases j
  {
    if i == j then 0 else FailedIn(evs, i, j - 1) + if evs[j - 1].Outcome? && !evs[j - 1].success then 1 else 0
  }

  // ---- Prefix bookkeeping ----

  lemma {:induction false} GrantedPrefix(c: Settings, evs: seq<Event>, i: nat, j: nat, k: nat)
    requires i <= j <= k <= |evs|
    ensures GrantedIn(c, evs[..k], i, j) == GrantedIn(c, evs, i, j)
    decreases j
  {
    if i < j {
      GrantedPrefix(c, evs, i, j - 1, k);
      assert evs[..k][..j - 1] == evs[..j - 1];
    }
  }

  lemma {:induction false} FailedPrefix(evs: seq<Event>, i: nat, j: nat, k: nat)
    requires i <= j <= k <= |evs|
    ensures FailedIn(evs[..k], i, j) == FailedIn(evs, i, j)
    decreases j
  {
    if i < j { FailedPrefix(evs, i, j - 1, k); }
  }

  // ---- What every run keeps ----

  /** In half-open the slots in use are the calls granted since it was entered; elsewhere none is. */
  lemma {:induction false} SlotsAreGrants(c: Settings, evs: seq<Event>)
    requires Normal(c)
    ensures var s := After(c, evs);
      && s.halfOpenInUse == GrantedIn(c, evs, HalfOpenSince(c, evs), |evs|)
      && 0 <= s.halfOpenInUse <= c.maxRequests
      && (s.phase.HalfOpen? ==> s.halfOpenInUse >= 1)
  {
    if evs != [] {
      var n := |evs| - 1;
      var front := evs[..n];
      SlotsAreGrants(c, front);
      GrantedPrefix(c, evs, HalfOpenSince(c, front), n, n);
      assert GrantedIn(c, evs, n, n) == 0 && GrantedIn(c, evs, n + 1, n + 1) == 0;
      if After(c, evs).phase.HalfOpen? && After(c, front).phase.HalfOpen? {
        assert HalfOpenSince(c, evs) == HalfOpenSince(c, front);
      }
    }
  }

  /** While closed, the failure count is exactly the failed reports since the window began,
      and stays below the threshold. */
  lemma {:induction false} FailuresAreReports(c: Settings, evs: seq<Event>)
    requires Normal(c)
    ensures var s := After(c, evs);
      s.phase.Closed? ==> s.failures == FailedIn(evs, WindowSince(c, evs), |evs|) && s.failures < c.failureThreshold
  {
    if evs != [] {
      var n := |evs| - 1;
      var front := evs[..n];
      FailuresAreReports(c, front);
      FailedPrefix(evs, WindowSince(c, front), n, n);
      assert FailedIn(evs, n, n) == 0;
    }
  }

  /** While closed, the request count is exactly the calls granted since the window began. */
  lemma {:induction false} RequestsAreGrants(c: Settings, evs: seq<Event>)
    requires Normal(c)
    ensures var s := After(c, evs); s.phase.Closed? ==> s.requests == GrantedIn(c, evs, WindowSince(c, evs), |evs|)
  {
    if evs != [] {
      var n := |evs| - 1;
      var front := evs[..n];
      RequestsAreGrants(c, front);
      GrantedPrefix(c, evs, WindowSince(c, front), n, n);
      assert GrantedIn(c, evs, n, n) == 0;
    }
  }

  /** The current window began with the event the breaker remembers. */
  lemma {:induction false} WindowBegan(c: Settings, evs: seq<Event>)
    requires evs != []
    ensures WindowSince(c, evs) < |evs| && After(c, evs).intervalStart == Some(evs[WindowSince(c, evs)].now)
  {
    var n := |evs| - 1;
    if n > 0 {
      WindowBegan(c, evs[..n]);
    } else {
      assert evs[..n] == [];
    }
  }

  lemma Snoc(c: Settings, evs: seq<Event>, e: Event)
    ensures var all := evs + [e]; all[..|evs|] == evs && all[|evs|] == e && After(c, all) == Next(c, After(c, evs), e)
  {
    hide Next;
    assert (evs + [e])[..|evs|] == evs;
  }

  /** A new window begins with the first event, with one that comes an interval or more after the
      event the current window began with, and with the report that closes the breaker; and with no
      other. */
  lemma WindowBeginsIff(c: Settings, evs: seq<Event>, e: Event)
    ensures var since := WindowSince(c, evs + [e]);
      if || evs == [] || e.now - evs[WindowSince(c, evs)].now >= c.interval
         || (After(c, evs).phase.HalfOpen? && e.Outcome? && e.success)
      then since == |evs| else since == WindowSince(c, evs)
  {
    Snoc(c, evs, e);
    if evs != [] { WindowBegan(c, evs); }
  }

  // ---- When the breaker changes ----

  /** The event at which the current stay in open began. */
  function OpenSince(c: Settings, evs: seq<Event>): (i: nat)
    ensures i <= |evs|
  {
    if evs == [] || !After(c, evs).phase.Open? then |evs|
    else
      var front := evs[..|evs| - 1];
      if After(c, front).phase.Open? then OpenSince(c, front) else |front|
  }

  lemma {:induction false} OpenedThen(c: Settings, evs: seq<Event>)
    ensures After(c, evs).phase.Open? ==>
      OpenSince(c, evs) < |evs| && After(c, evs).openedAt == evs[OpenSince(c, evs)].now
  {
    if evs != [] { OpenedThen(c, evs[..|evs| - 1]); }
  }

  /** The failed reports, and the calls granted, in the window that an event falls into. */
  function Failed(c: Settings, evs: seq<Event>): nat { FailedIn(evs, WindowSince(c, evs), |evs|) }

  function Granted(c: Settings, evs: seq<Event>): nat { GrantedIn(c, evs, WindowSince(c, evs), |evs|) }

  /** Enough has failed: as many reports as the threshold, or the given part of the calls. */
  predicate TooManyFailed(c: Settings, failed: nat, granted: nat) {
    || failed >= c.failureThreshold
    || (c.failureRatio > 0.0 && granted > 0 && failed as real >= c.failureRatio * granted as real)
  }

  /** For every run: a report to a closed breaker opens it if and only if the failed reports of the
      window, this one included, reach the threshold or the ratio of the calls granted in it; if not,
      the breaker stays closed. */
  lemma ReportOpensIff(c: Settings, evs: seq<Event>, success: bool, now: int)
    requires Normal(c) && After(c, evs).phase.Closed?
    ensures var all := evs + [Outcome(success, now)];
      && (After(c, all).phase.Open? <==> TooManyFailed(c, Failed(c, all), Granted(c, all)))
      && (!After(c, all).phase.Open? ==> After(c, all).phase.Closed?)
  {
    hide After, WindowSince, FailedIn, GrantedIn, TooManyFailed, Rotate, AfterReport;
    var e := Outcome(success, now);
    Snoc(c, evs, e);
    CountsReported(c, evs, e);
    FailuresAreReports(c, evs);
    RequestsAreGrants(c, evs);
    NoWindowNoCounts(c, evs);
    ReportStep(c, After(c, evs), success, now, Failed(c, evs + [e]), Granted(c, evs + [e]));
  }

  lemma ReportStep(c: Settings, s: State, success: bool, now: int, failed: nat, granted: nat)
    requires s.phase.Closed?
    requires var begins := s.intervalStart.None? || Expired(c, s, now);
      && failed == (if begins then 0 else s.failures) + (if success then 0 else 1)
      && granted == (if begins then 0 else s.requests)
    requires s.intervalStart.None? ==> s.failures == 0 && s.requests == 0
    ensures AfterReport(c, s, success, now).phase == if TooManyFailed(c, failed, granted) then Open else Closed
  {
    RatioReached(failed, granted, c.failureRatio);
  }

  lemma RatioReached(f: int, r: int, ratio: real)
    ensures r > 0 ==> (f as real / r as real >= ratio <==> f as real >= ratio * r as real)
  {
    if r > 0 {
      var x := f as real / r as real;
      assert x * r as real == f as real;
    }
  }

  lemma {:induction false} NoWindowNoCounts(c: Settings, evs: seq<Event>)
    ensures var s := After(c, evs); s.intervalStart.None? ==> evs == [] && s.failures == 0 && s.requests == 0
  {
  }

  lemma CountsReported(c: Settings, evs: seq<Event>, e: Event)
    requires e.Outcome? && After(c, evs).phase.Closed?
    ensures var all, s := evs + [e], After(c, evs);
      var begins := s.intervalStart.None? || Expired(c, s, e.now);
      && Failed(c, all) == (if begins then 0 else Failed(c, evs)) + (if e.success then 0 else 1)
      && Granted(c, all) == (if begins then 0 else Granted(c, evs))
  {
    var all, n := evs + [e], |evs|;
    Snoc(c, evs, e);
    var w := WindowSince(c, all);
    assert FailedIn(all, n, n) == 0 && GrantedIn(c, all, n, n) == 0;
    FailedPrefix(all, WindowSince(c, evs), n, n);
    GrantedPrefix(c, all, WindowSince(c, evs), n, n);
  }

  /** For every run: what a call does. A closed breaker grants it; an open one grants it, as its first
      probe, if and only if the timeout has passed since the event that opened it; a half-open one if
      and only if it has granted fewer than MaxRequests since it became half-open. */
  lemma CallMoves(c: Settings, evs: seq<Event>, now: int)
    requires Normal(c)
    ensures var before, after := After(c, evs).phase, After(c, evs + [Call(now)]).phase;
      var ok := Grants(c, After(c, evs), Call(now));
      match before
      case Closed => after.Closed? && ok
      case Open => var passed := now - evs[OpenSince(c, evs)].now >= c.timeout;
        OpenSince(c, evs) < |evs| && (ok <==> passed) && after == (if passed then HalfOpen else Open)
      case HalfOpen => after.HalfOpen? && (ok <==> GrantedIn(c, evs, HalfOpenSince(c, evs), |evs|) < c.maxRequests)
  {
    Snoc(c, evs, Call(now));
    OpenedThen(c, evs);
    SlotsAreGrants(c, evs);
    hide After;
  }

  /** ...and what a report does to a breaker that is not closed: nothing while open; in half-open a
      success closes it and a failure opens it. */
  lemma ReportMoves(c: Settings, evs: seq<Event>, success: bool, now: int)
    ensures var before, after := After(c, evs).phase, After(c, evs + [Outcome(success, now)]).phase;
      && (before.Open? ==> after.Open?)
      && (before.HalfOpen? ==> after == if success then Closed else Open)
  {
    Snoc(c, evs, Outcome(success, now));
    hide After;
  }

  // ---- Opening protects the connection ----

  /** Event i opened the breaker: it was not open before and is after. */
  predicate OpensAt(c: Settings, evs: seq<Event>, i: nat)
    requires i < |evs|
  {
    !After(c, evs[..i]).phase.Open? && After(c, evs[..i + 1]).phase.Open?
  }

  /** No report arrives while half-open among events i..j-1. */
  ghost predicate NoProbeReport(c: Settings, evs: seq<Event>, i: nat, j: nat)
    requires i <= j <= |evs|
  {
    forall k | i <= k < j :: evs[k].Outcome? ==> !After(c, evs[..k]).phase.HalfOpen?
  }

  lemma PrefixNext(c: Settings, evs: seq<Event>, k: nat)
    requires k < |evs|
    ensures After(c, evs[..k + 1]) == Next(c, After(c, evs[..k]), evs[k])
  {
    assert evs[..k + 1][..k] == evs[..k];
  }

  /** Still cut off since an opening at t: open with no slot in use, or half-open late enough. */
  predicate CutOff(c: Settings, s: State, t: int, now: int)
  {
    && s.openedAt == t
    && (if s.phase.HalfOpen? then 0 <= s.halfOpenInUse <= c.maxRequests && now >= t + c.timeout
        else s.phase.Open? && s.halfOpenInUse == 0)
  }

  lemma CutOffStarts(c: Settings, s: State, e: Event)
    requires !s.phase.Open? && Next(c, s, e).phase.Open?
    ensures CutOff(c, Next(c, s, e), e.now, e.now) && Next(c, s, e).halfOpenInUse == 0
  {
  }

  lemma CutOffStep(c: Settings, s: State, e: Event, t: int, now: int)
    requires Normal(c) && CutOff(c, s, t, now) && now <= e.now && (e.Outcome? ==> !s.phase.HalfOpen?)
    ensures CutOff(c, Next(c, s, e), t, e.now)
    ensures Next(c, s, e).halfOpenInUse == s.halfOpenInUse + if Grants(c, s, e) then 1 else 0
    ensures Grants(c, s, e) ==> e.now >= t + c.timeout
  {
  }

  /** Between an opening at time t and the next report received in half-open, at most
      MaxRequests calls are granted, and none before t + Timeout. */
  lemma {:induction false} OpenProtects(c: Settings, evs: seq<Event>, i: nat, j: nat)
    requires Normal(c) && Monotone(evs) && i < j <= |evs| && OpensAt(c, evs, i) && NoProbeReport(c, evs, i + 1, j)
    ensures GrantedIn(c, evs, i + 1, j) == After(c, evs[..j]).halfOpenInUse <= c.maxRequests
    ensures forall k | i < k < j && Grants(c, After(c, evs[..k]), evs[k]) :: evs[k].now >= evs[i].now + c.timeout
    ensures CutOff(c, After(c, evs[..j]), evs[i].now, evs[j - 1].now)
    decreases j
  {
    hide Next, Grants, After;
    PrefixNext(c, evs, j - 1);
    var s := After(c, evs[..j - 1]);
    if j == i + 1 {
      CutOffStarts(c, s, evs[i]);
      assert GrantedIn(c, evs, j, j) == 0;
    } else {
      OpenProtects(c, evs, i, j - 1);
      assert evs[j - 2].now <= evs[j - 1].now;
      CutOffStep(c, s, evs[j - 1], evs[i].now, evs[j - 2].now);
    }
  }

  // ---- The reporting obligation ----

  predicate AllCalls(evs: seq<Event>) { forall i | 0 <= i < |evs| :: evs[i].Call? }

  function From(c: Settings, s: State, evs: seq<Event>): State {
    if evs == [] then s else Next(c, From(c, s, evs[..|evs| - 1]), evs[|evs| - 1])
  }

  /** Every probe slot is taken. */
  predicate Full(c: Settings, s: State) { s.phase.HalfOpen? && s.halfOpenInUse >= c.maxRequests }

  /** A state refuses calls at all times exactly when its probe slots are all taken. */
  lemma RefusesIff(c: Settings, s: State)
    requires Normal(c)
    ensures (forall now :: !Grants(c, s, Call(now))) <==> Full(c, s)
  {
    if !Full(c, s) { assert Grants(c, s, Call(s.openedAt + c.timeout)); }
  }

  /** Once every probe slot is taken and its holder never reports (the connector returns
      without a report when admission turns the probe away), no call is ever granted again. */
  lemma {:induction false} WedgedWithoutReport(c: Settings, s: State, evs: seq<Event>, e: Event)
    requires Full(c, s) && AllCalls(evs) && e.Call?
    ensures Full(c, From(c, s, evs)) && From(c, s, evs).halfOpenInUse == s.halfOpenInUse
    ensures !Grants(c, From(c, s, evs), e)
  {
    if evs != [] {
      var n := |evs| - 1;
      assert AllCalls(evs[..n]);
      WedgedWithoutReport(c, s, evs[..n], evs[n]);
    }
  }

  /** No calls made from now on are ever granted. */
  ghost predicate Wedged(c: Settings, s: State) {
    forall evs, now | AllCalls(evs) :: !Grants(c, From(c, s, evs), Call(now))
  }

  /** After any run, calls alone can never be granted again if and only if the breaker is half-open
      and has granted all its probes since it became so. */
  lemma WedgedIff(c: Settings, evs: seq<Event>)
    requires Normal(c)
    ensures Wedged(c, After(c, evs)) <==>
      After(c, evs).phase.HalfOpen? && GrantedIn(c, evs, HalfOpenSince(c, evs), |evs|) == c.maxRequests
  {
    SlotsAreGrants(c, evs);
    var s := After(c, evs);
    RefusesIff(c, s);
    if Full(c, s) {
      forall more, now | AllCalls(more) ensures !Grants(c, From(c, s, more), Call(now)) {
        WedgedWithoutReport(c, s, more, Call(now));
      }
    } else {
      var now :| Grants(c, s, Call(now));
      assert AllCalls([]) && From(c, s, []) == s;
    }
  }

  /** Any report at all ends half-open: success closes the breaker with clean counters,
      failure opens it anew from the time of the report. */
  lemma ReportSettles(c: Settings, s: State, success: bool, now: int)
    requires s.phase.HalfOpen?
    ensures var n := AfterReport(c, s, success, now);
      && n.phase == (if success then Closed else Open) && n.halfOpenInUse == 0
      && (success ==> n.failures == 0 && n.requests == 0) && (!success ==> n.openedAt == now)
  {
  }

  /** A full breaker gets out of that state at some point of a run if and only if the run holds
      a report. */
  lemma LeavesFullIff(c: Settings, s: State, evs: seq<Event>)
    requires Full(c, s)
    ensures (exists j | 0 <= j <= |evs| :: !Full(c, From(c, s, evs[..j])))
        <==> exists i | 0 <= i < |evs| :: evs[i].Outcome?
  {
    if exists i | 0 <= i < |evs| :: evs[i].Outcome? {
      var i :| 0 <= i < |evs| && evs[i].Outcome?;
      assert evs[..i + 1][..i] == evs[..i];
      if Full(c, From(c, s, evs[..i])) {
        ReportSettles(c, From(c, s, evs[..i]), evs[i].success, evs[i].now);
        assert !Full(c, From(c, s, evs[..i + 1]));
      }
    } else {
      forall j | 0 <= j <= |evs| ensures Full(c, From(c, s, evs[..j])) {
        WedgedWithoutReport(c, s, evs[..j], Call(0));
      }
    }
  }

  // ---- Every breaker can be wedged ----

  function Failures(n: nat): seq<Event> { seq(n, _ => Outcome(false, 0)) }

  function Probes(c: Settings, n: nat): seq<Event> { seq(n, _ => Call(c.timeout)) }

  lemma {:induction false} AfterFailures(c: Settings, n: nat)
    requires Normal(c) && n <= c.failureThreshold
    ensures var s := After(c, Failures(n));
      if n == c.failureThreshold then s.phase.Open? && s.openedAt == 0
      else s == State(Closed, 0, if n == 0 then None else Some(0), 0, n, 0)
  {
    if n > 0 {
      AfterFailures(c, n - 1);
      assert Failures(n)[..n - 1] == Failures(n - 1);
    }
  }

  lemma {:induction false} AfterProbes(c: Settings, n: nat)
    requires Normal(c) && n <= c.maxRequests
    ensures var s := After(c, Failures(c.failureThreshold) + Probes(c, n));
      if n == 0 then s.phase.Open? && s.openedAt == 0 else s.phase.HalfOpen? && s.halfOpenInUse == n
  {
    hide After;
    var front := Failures(c.failureThreshold);
    if n == 0 {
      AfterFailures(c, c.failureThreshold);
      assert front + Probes(c, 0) == front;
    } else {
      AfterProbes(c, n - 1);
      assert front + Probes(c, n) == front + Probes(c, n - 1) + [Call(c.timeout)];
      Snoc(c, front + Probes(c, n - 1), Call(c.timeout));
    }
  }

  /** Whatever the settings, enough failures and then one call for each probe, none of them
      reported, wedge the breaker for good. */
  lemma EveryBreakerWedges(c: Settings)
    requires Normal(c)
    ensures var evs := Failures(c.failureThreshold) + Probes(c, c.maxRequests);
        Monotone(evs) && Wedged(c, After(c, evs))
  {
    var evs := Failures(c.failureThreshold) + Probes(c, c.maxRequests);
    AfterProbes(c, c.maxRequests);
    SlotsAreGrants(c, evs);
    WedgedIff(c, evs);
  }
}
