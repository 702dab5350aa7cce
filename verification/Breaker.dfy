/** The circuit breaker of resilience/breaker.go.

    `Breaker` is the object: its fields change in place, one critical section a
    method.  `Core` is the value of those fields, and the functions on it say
    what each critical section does.  `Sys` adds what no field records: which
    admitted calls have not returned yet, when and in which half-open period each
    was admitted, and the outcomes applied since the breaker last closed.  A run is any
    interleaving of the critical sections of any number of callers, with
    arbitrary clock readings.
 */
module Breaker {
  import opened Sets

  datatype Phase = Closed | Open | HalfOpen

  datatype Config = Config(failureThreshold: int, resetTimeout: int, halfOpenMax: int) {
    predicate Valid() {
      failureThreshold >= 1 && resetTimeout > 0 && halfOpenMax >= 1
    }

    // Times are nanoseconds: the default reset timeout is 30 seconds.
    function WithDefaults(): (c: Config)
      ensures c.Valid()
      ensures c.failureThreshold == failureThreshold || (failureThreshold < 1 && c.failureThreshold == 5)
      ensures c.resetTimeout == resetTimeout || (resetTimeout <= 0 && c.resetTimeout == 30_000_000_000)
      ensures c.halfOpenMax == halfOpenMax || (halfOpenMax < 1 && c.halfOpenMax == 1)
    {
      Config(if failureThreshold < 1 then 5 else failureThreshold,
             if resetTimeout <= 0 then 30_000_000_000 else resetTimeout,
             if halfOpenMax < 1 then 1 else halfOpenMax)
    }
  }

  datatype Core = Core(phase: Phase, consecutiveFail: int, openedAt: int, halfOpenCount: int)

  // ---------------------------------------------------------------------------
  // What each critical section does to the fields

  function Fresh(): Core { Core(Closed, 0, 0, 0) }

  // stateLocked: an open breaker whose reset timeout has elapsed becomes half-open.
  function Promote(cfg: Config, c: Core, now: int): Core {
    if c.phase.Open? && now - c.openedAt >= cfg.resetTimeout
    then c.(phase := HalfOpen, halfOpenCount := 0)
    else c
  }

  datatype Admission = Admission(core: Core, admitted: bool, probe: bool)

  function Admit(cfg: Config, c: Core, now: int): Admission {
    var p := Promote(cfg, c, now);
    match p.phase
    case Closed => Admission(p, true, false)
    case Open => Admission(p, false, false)
    case HalfOpen =>
      if p.halfOpenCount >= cfg.halfOpenMax then Admission(p, false, false)
      else Admission(p.(halfOpenCount := p.halfOpenCount + 1), true, true)
  }

  function Succeed(c: Core): Core {
    match c.phase
    case Closed => c.(consecutiveFail := 0)
    case Open => c
    case HalfOpen => Core(Closed, 0, c.openedAt, 0)
  }

  function Fail(cfg: Config, c: Core, now: int): Core {
    match c.phase
    case Closed =>
      var n := c.consecutiveFail + 1;
      if n >= cfg.failureThreshold then c.(phase := Open, consecutiveFail := n, openedAt := now)
      else c.(consecutiveFail := n)
    case Open => c
    case HalfOpen => c.(phase := Open, openedAt := now, halfOpenCount := 0)
  }

  // The outcome of a probe counts only while the breaker is half-open.
  predicate Discarded(c: Core, probe: bool) { probe && !c.phase.HalfOpen? }

  function Settle(cfg: Config, c: Core, probe: bool, ok: bool, now: int): Core {
    if Discarded(c, probe) then c else if ok then Succeed(c) else Fail(cfg, c, now)
  }

  class Breaker {
    const cfg: Config
    var state: Phase
    var consecutiveFail: int
    var openedAt: int
    var halfOpenCount: int

    ghost function View(): Core
      reads this
    {
      Core(state, consecutiveFail, openedAt, halfOpenCount)
    }

    constructor (config: Config)
      ensures cfg == config.WithDefaults() && cfg.Valid()
      ensures View() == Fresh()
    {
      cfg := config.WithDefaults();
      state, consecutiveFail, openedAt, halfOpenCount := Closed, 0, 0, 0;
    }

    method StateLocked(now: int) returns (s: Phase, from: Phase, to: Phase, changed: bool)
      modifies this
      ensures View() == Promote(cfg, old(View()), now) && s == state
      ensures changed <==> old(state) != state
      ensures changed ==> from == old(state) && to == state
    {
      from, to, changed := Closed, Closed, false;
      if state.Open? && now - openedAt >= cfg.resetTimeout {
        from, to, changed := Open, HalfOpen, true;
        state := HalfOpen;
        halfOpenCount := 0;
      }
      s := state;
    }

    method Reset()
      modifies this
      ensures View() == Core(Closed, 0, old(openedAt), 0)
    {
      state := Closed;
      consecutiveFail := 0;
      halfOpenCount := 0;
    }

    method Before(now: int) returns (admitted: bool, wasProbe: bool)
      modifies this
      ensures Admission(View(), admitted, wasProbe) == Admit(cfg, old(View()), now)
    {
      var s, from, to, changed := StateLocked(now);
      admitted, wasProbe := false, false;
      match s {
        case Closed => admitted := true;
        case Open =>
        case HalfOpen =>
          if halfOpenCount < cfg.halfOpenMax {
            halfOpenCount := halfOpenCount + 1;
            admitted, wasProbe := true, true;
          }
      }
    }

    method OnSuccess() returns (from: Phase, to: Phase, changed: bool)
      modifies this
      ensures View() == Succeed(old(View()))
      ensures from == old(state) && to == state && (changed <==> from != to)
    {
      var prev := state;
      match state {
        case Closed => consecutiveFail := 0;
        case Open =>
        case HalfOpen =>
          state := Closed;
          consecutiveFail := 0;
          halfOpenCount := 0;
      }
      from, to, changed := prev, state, prev != state;
    }

    method OnFailure(now: int) returns (from: Phase, to: Phase, changed: bool)
      modifies this
      ensures View() == Fail(cfg, old(View()), now)
      ensures from == old(state) && to == state && (changed <==> from != to)
    {
      var prev := state;
      match state {
        case Closed =>
          consecutiveFail := consecutiveFail + 1;
          if consecutiveFail >= cfg.failureThreshold {
            state := Open;
            openedAt := now;
          }
        case Open =>
        case HalfOpen =>
          state := Open;
          openedAt := now;
          halfOpenCount := 0;
      }
      from, to, changed := prev, state, prev != state;
    }

    method After(wasProbe: bool, ok: bool, now: int)
      modifies this
      ensures View() == Settle(cfg, old(View()), wasProbe, ok, now)
    {
      if wasProbe && state != HalfOpen {
        return;
      }
      var from, to, changed;
      if ok {
        from, to, changed := OnSuccess();
      } else {
        from, to, changed := OnFailure(now);
      }
    }
  }

  // ---------------------------------------------------------------------------
  // Every interleaving of the critical sections

  // A call that was let through: whether as a probe, in which half-open period, and when.
  datatype Call = Call(probe: bool, period: nat, enteredAt: int)

  datatype Event =
    | Enter(id: nat, enteredAt: int)
    | Return(id: nat, ok: bool, returnedAt: int)
    | ForceReset
    | Query(queriedAt: int)

  datatype Sys = Sys(
    core: Core,
    calls: map<nat, Call>,     // every call ever admitted
    inflight: set<nat>,        // those that have not returned
    period: nat,               // half-open periods begun so far
    sinceClose: seq<bool>)     // outcomes of ordinary calls returned since the breaker last closed

  function Init(): Sys { Sys(Fresh(), map[], {}, 0, []) }

  predicate Legal(s: Sys, e: Event) {
    match e
    case Enter(id, _) => id !in s.calls
    case Return(id, _, _) => id in s.inflight && id in s.calls
    case ForceReset => true
    case Query(_) => true
  }

  function Promoted(cfg: Config, s: Sys, now: int): Sys {
    var p := Promote(cfg, s.core, now);
    s.(core := p, period := if p == s.core then s.period else s.period + 1)
  }

  function Step(cfg: Config, s: Sys, e: Event): Sys
    requires Legal(s, e)
  {
    match e
    case Query(now) => Promoted(cfg, s, now)
    case ForceReset => s.(core := Core(Closed, 0, s.core.openedAt, 0), sinceClose := [])
    case Enter(id, now) =>
      var p := Promoted(cfg, s, now);
      var a := Admit(cfg, s.core, now);
      if a.admitted
      then p.(core := a.core, calls := p.calls[id := Call(a.probe, p.period, now)], inflight := p.inflight + {id})
      else p.(core := a.core)
    case Return(id, ok, now) =>
      var probe := s.calls[id].probe;
      var core := Settle(cfg, s.core, probe, ok, now);
      Sys(core, s.calls, s.inflight - {id}, s.period,
          match s.core.phase
          case Closed => if probe then s.sinceClose else s.sinceClose + [ok]
          case Open => s.sinceClose
          case HalfOpen => if ok then [] else s.sinceClose)
  }

  ghost predicate LegalRun(cfg: Config, s: Sys, es: seq<Event>)
    decreases |es|
  {
    es == [] || (Legal(s, es[0]) && LegalRun(cfg, Step(cfg, s, es[0]), es[1..]))
  }

  ghost function Run(cfg: Config, s: Sys, es: seq<Event>): Sys
    requires LegalRun(cfg, s, es)
    decreases |es|
  {
    if es == [] then s else Run(cfg, Step(cfg, s, es[0]), es[1..])
  }

  ghost predicate Reachable(cfg: Config, s: Sys) {
    exists es :: LegalRun(cfg, Init(), es) && Run(cfg, Init(), es) == s
  }

  // ---------------------------------------------------------------------------
  // The invariant

  // Failures at the end of a list of outcomes.
  function Trailing(h: seq<bool>): nat {
    if h == [] || h[|h| - 1] then 0 else 1 + Trailing(h[..|h| - 1])
  }

  // The last n outcomes are all failures.
  predicate LastAllFailed(h: seq<bool>, n: int) {
    |h| >= n && forall i :: 0 <= i < |h| && |h| - n <= i ==> !h[i]
  }

  lemma {:induction false} TrailingCounts(h: seq<bool>, n: nat)
    ensures Trailing(h) >= n <==> LastAllFailed(h, n)
  {
    if n > 0 && h != [] && !h[|h| - 1] {
      TrailingCounts(h[..|h| - 1], n - 1);
    }
  }

  // The probes admitted in the current half-open period.
  function CurrentProbes(s: Sys): set<nat> {
    set id | id in s.calls && s.calls[id].probe && s.calls[id].period == s.period
  }

  ghost predicate Inv(cfg: Config, s: Sys) {
    && cfg.Valid()
    && s.inflight <= s.calls.Keys
    && (forall id :: id in s.calls ==> s.calls[id].period <= s.period)
    && 0 <= s.core.consecutiveFail <= cfg.failureThreshold
    && (s.core.phase.Closed? <==> s.core.consecutiveFail < cfg.failureThreshold)
    && s.core.consecutiveFail == Trailing(s.sinceClose)
    && |CurrentProbes(s)| <= cfg.halfOpenMax
    && (s.core.phase.HalfOpen? ==> CurrentProbes(s) <= s.inflight && |CurrentProbes(s)| == s.core.halfOpenCount)
    && (!s.core.phase.HalfOpen? ==> s.core.halfOpenCount == 0)
  }

  lemma PromotedKeepsInv(cfg: Config, s: Sys, now: int)
    requires Inv(cfg, s)
    ensures Inv(cfg, Promoted(cfg, s, now))
  {
    var p := Promoted(cfg, s, now);
    if p.core != s.core {
      assert CurrentProbes(p) == {};
    } else {
      assert p == s;
    }
  }

  lemma EnterKeepsInv(cfg: Config, s: Sys, id: nat, now: int)
    requires Inv(cfg, s) && Legal(s, Enter(id, now))
    ensures Inv(cfg, Step(cfg, s, Enter(id, now)))
  {
    PromotedKeepsInv(cfg, s, now);
    AdmittedKeepsInv(cfg, Promoted(cfg, s, now), id, now, Admit(cfg, s.core, now));
  }

  lemma ProbesAfter(p: Sys, t: Sys, id: nat, call: Call)
    requires id !in p.calls && t.calls == p.calls[id := call] && t.period == p.period
    ensures CurrentProbes(t) == if call.probe && call.period == p.period then CurrentProbes(p) + {id} else CurrentProbes(p)
    ensures id !in CurrentProbes(p)
  {
  }

  // The second half of Enter, on a state already promoted.
  lemma AdmittedKeepsInv(cfg: Config, p: Sys, id: nat, now: int, a: Admission)
    requires Inv(cfg, p) && id !in p.calls
    requires a.admitted ==> !p.core.phase.Open? && a.probe == p.core.phase.HalfOpen?
    requires a.core == if a.admitted && a.probe then p.core.(halfOpenCount := p.core.halfOpenCount + 1) else p.core
    requires a.admitted && a.probe ==> p.core.halfOpenCount < cfg.halfOpenMax
    ensures a.admitted ==>
              Inv(cfg, p.(core := a.core, calls := p.calls[id := Call(a.probe, p.period, now)], inflight := p.inflight + {id}))
    ensures !a.admitted ==> Inv(cfg, p.(core := a.core))
  {
    if a.admitted {
      var t := p.(core := a.core, calls := p.calls[id := Call(a.probe, p.period, now)], inflight := p.inflight + {id});
      ProbesAfter(p, t, id, Call(a.probe, p.period, now));
    } else {
      assert p.(core := a.core) == p;
    }
  }

  lemma ReturnKeepsInv(cfg: Config, s: Sys, id: nat, ok: bool, now: int)
    requires Inv(cfg, s) && Legal(s, Return(id, ok, now))
    ensures Inv(cfg, Step(cfg, s, Return(id, ok, now)))
  {
    var t := Step(cfg, s, Return(id, ok, now));
    if s.core.phase.Closed? && !s.calls[id].probe {
      assert t.sinceClose[..|t.sinceClose| - 1] == s.sinceClose;
    }
  }

  lemma StepKeepsInv(cfg: Config, s: Sys, e: Event)
    requires Inv(cfg, s) && Legal(s, e)
    ensures Inv(cfg, Step(cfg, s, e))
  {
    match e
    case Query(now) => PromotedKeepsInv(cfg, s, now);
    case ForceReset =>
    case Enter(id, now) => EnterKeepsInv(cfg, s, id, now);
    case Return(id, ok, now) => ReturnKeepsInv(cfg, s, id, ok, now);
  }

  lemma {:induction false} RunKeepsInv(cfg: Config, s: Sys, es: seq<Event>)
    requires Inv(cfg, s) && LegalRun(cfg, s, es)
    ensures Inv(cfg, Run(cfg, s, es))
    decreases |es|
  {
    if es != [] {
      StepKeepsInv(cfg, s, es[0]);
      RunKeepsInv(cfg, Step(cfg, s, es[0]), es[1..]);
    }
  }

  lemma ReachableInv(cfg: Config, s: Sys)
    requires cfg.Valid() && Reachable(cfg, s)
    ensures Inv(cfg, s)
  {
    var es :| LegalRun(cfg, Init(), es) && Run(cfg, Init(), es) == s;
    RunKeepsInv(cfg, Init(), es);
  }

  // ---------------------------------------------------------------------------
  // Half-open never wedges

  // In a half-open breaker the counter is the number of probes of this period,
  // none of which has returned; a full one therefore has a pending return, and
  // whichever call returns next, of whatever period, moves the breaker on.
  lemma HalfOpenNeverWedges(cfg: Config, s: Sys)
    requires cfg.Valid() && Reachable(cfg, s) && s.core.phase.HalfOpen?
    ensures |CurrentProbes(s)| == s.core.halfOpenCount <= cfg.halfOpenMax
    ensures CurrentProbes(s) <= s.inflight
    ensures s.core.halfOpenCount >= cfg.halfOpenMax ==> s.inflight != {}
    ensures forall id, ok, now :: id in s.inflight ==>
      Legal(s, Return(id, ok, now)) && Step(cfg, s, Return(id, ok, now)).core.phase == if ok then Closed else Open
  {
    ReachableInv(cfg, s);
    if s.inflight == {} {
      assert CurrentProbes(s) == {};
    }
  }

  // A probe that returns when its period is over is not heard: the breaker stays as
  // it is, closed or open, whatever the outcome.  Every other return counts.
  lemma LateProbeUnheard(cfg: Config, s: Sys, id: nat, ok: bool, now: int)
    requires cfg.Valid() && Reachable(cfg, s) && Legal(s, Return(id, ok, now))
    ensures var t := Step(cfg, s, Return(id, ok, now));
      && (s.calls[id].probe && !s.core.phase.HalfOpen? ==> t.core == s.core && t.sinceClose == s.sinceClose)
      && (!s.calls[id].probe && s.core.phase.Closed? ==>
            t.core.consecutiveFail == (if ok then 0 else s.core.consecutiveFail + 1)
            && (t.core.phase.Open? <==> !ok && s.core.consecutiveFail + 1 == cfg.failureThreshold))
      && (s.core.phase.Open? ==> t.core == s.core)
      && (s.core.phase.HalfOpen? ==> t.core.phase == if ok then Closed else Open)
  {
    ReachableInv(cfg, s);
    StepKeepsInv(cfg, s, Return(id, ok, now));
  }

  predicate Ends(e: Event) { e.Return? || e.ForceReset? }

  // Half-open period p is over.
  predicate PeriodOver(s: Sys, p: nat) { s.period > p || (s.period == p && !s.core.phase.HalfOpen?) }

  lemma {:induction false} OverStaysOver(cfg: Config, s: Sys, es: seq<Event>, p: nat)
    requires LegalRun(cfg, s, es) && PeriodOver(s, p)
    ensures PeriodOver(Run(cfg, s, es), p)
    decreases |es|
  {
    if es != [] {
      OverStaysOver(cfg, Step(cfg, s, es[0]), es[1..], p);
    }
  }

  // One applied outcome, or a Reset, ends a half-open period, and nothing else
  // does: the period goes on exactly as long as no call has returned.
  lemma {:induction false} OneOutcomeEndsPeriod(cfg: Config, s: Sys, es: seq<Event>)
    requires LegalRun(cfg, s, es) && s.core.phase.HalfOpen?
    ensures PeriodOver(Run(cfg, s, es), s.period) <==> exists i :: 0 <= i < |es| && Ends(es[i])
    ensures !PeriodOver(Run(cfg, s, es), s.period) ==>
              Run(cfg, s, es).period == s.period && Run(cfg, s, es).core.phase.HalfOpen?
    decreases |es|
  {
    if es != [] {
      var t := Step(cfg, s, es[0]);
      if Ends(es[0]) {
        OverStaysOver(cfg, t, es[1..], s.period);
      } else {
        OneOutcomeEndsPeriod(cfg, t, es[1..]);
        assert forall i :: 1 <= i < |es| ==> es[i] == es[1..][i - 1];
      }
    }
  }

  // ---------------------------------------------------------------------------
  // How many probes at once

  // All probes in flight, of this half-open period or of an earlier one.
  function ProbesInFlight(s: Sys): set<nat> {
    set id | id in s.inflight && id in s.calls && s.calls[id].probe
  }

  // halfOpenMax is documented as a bound on concurrent probes, but the breaker
  // counts those of one period only.  Whether the bound holds depends on how long
  // calls take: a run is prompt within d if its clock readings do not go back and
  // no call is in flight at a reading more than d after the one it entered at.

  // The clock at an event; a Reset reads none.
  function Now(e: Event, clock: int): int {
    match e
    case Enter(_, t) => t
    case Return(_, _, t) => t
    case Query(t) => t
    case ForceReset => clock
  }

  function ClockAfter(es: seq<Event>, clock: int): int
    decreases |es|
  {
    if es == [] then clock else ClockAfter(es[1..], Now(es[0], clock))
  }

  predicate Young(s: Sys, now: int, d: int) {
    forall id :: id in s.inflight && id in s.calls ==> now - s.calls[id].enteredAt <= d
  }

  predicate Prompt(s: Sys, clock: int, e: Event, d: int) {
    clock <= Now(e, clock) && Young(s, Now(e, clock), d)
  }

  ghost predicate PromptRun(cfg: Config, s: Sys, clock: int, es: seq<Event>, d: int)
    requires LegalRun(cfg, s, es)
    decreases |es|
  {
    es == [] || (Prompt(s, clock, es[0], d) && PromptRun(cfg, Step(cfg, s, es[0]), Now(es[0], clock), es[1..], d))
  }

  // --- Calls shorter than the reset timeout

  // No probe is left over from an earlier period.
  ghost predicate NoneStale(cfg: Config, s: Sys, clock: int) {
    && Inv(cfg, s)
    && (forall id :: id in s.inflight ==> s.calls[id].enteredAt <= clock)
    && (forall id :: id in s.inflight && s.core.phase.Open? ==> s.calls[id].enteredAt <= s.core.openedAt)
    && (forall id :: id in s.inflight && s.calls[id].probe ==> s.calls[id].period == s.period)
  }

  // When the timeout has elapsed, every call of before has returned.
  lemma PromotedNoneStale(cfg: Config, s: Sys, clock: int, now: int, d: int)
    requires NoneStale(cfg, s, clock) && clock <= now && Young(s, now, d) && d < cfg.resetTimeout
    ensures NoneStale(cfg, Promoted(cfg, s, now), now)
  {
    PromotedKeepsInv(cfg, s, now);
    var p := Promoted(cfg, s, now);
    if p.core != s.core {
      assert s.inflight == {};
    }
  }

  lemma StepNoneStale(cfg: Config, s: Sys, clock: int, e: Event, d: int)
    requires NoneStale(cfg, s, clock) && Legal(s, e) && Prompt(s, clock, e, d) && d < cfg.resetTimeout
    ensures NoneStale(cfg, Step(cfg, s, e), Now(e, clock))
  {
    StepKeepsInv(cfg, s, e);
    match e
    case Query(now) => PromotedNoneStale(cfg, s, clock, now, d);
    case ForceReset =>
    case Enter(id, now) => PromotedNoneStale(cfg, s, clock, now, d);
    case Return(id, ok, now) =>
  }

  lemma {:induction false} RunNoneStale(cfg: Config, s: Sys, clock: int, es: seq<Event>, d: int)
    requires NoneStale(cfg, s, clock) && LegalRun(cfg, s, es) && PromptRun(cfg, s, clock, es, d) && d < cfg.resetTimeout
    ensures NoneStale(cfg, Run(cfg, s, es), ClockAfter(es, clock))
    decreases |es|
  {
    if es != [] {
      StepNoneStale(cfg, s, clock, es[0], d);
      RunNoneStale(cfg, Step(cfg, s, es[0]), Now(es[0], clock), es[1..], d);
    }
  }

  // --- Calls as long as the reset timeout

  // From the start, at time 0, es leads to s at time clock, promptly.
  ghost predicate Leads(cfg: Config, d: int, es: seq<Event>, s: Sys, clock: int) {
    LegalRun(cfg, Init(), es) && PromptRun(cfg, Init(), 0, es, d) && Run(cfg, Init(), es) == s && clock == ClockAfter(es, 0)
  }

  lemma {:induction false} RunMore(cfg: Config, d: int, s: Sys, clock: int, es: seq<Event>, e: Event)
    requires LegalRun(cfg, s, es) && PromptRun(cfg, s, clock, es, d)
    requires Legal(Run(cfg, s, es), e) && Prompt(Run(cfg, s, es), ClockAfter(es, clock), e, d)
    ensures LegalRun(cfg, s, es + [e]) && PromptRun(cfg, s, clock, es + [e], d)
    ensures Run(cfg, s, es + [e]) == Step(cfg, Run(cfg, s, es), e)
    ensures ClockAfter(es + [e], clock) == Now(e, ClockAfter(es, clock))
    decreases |es|
  {
    if es == [] {
      assert (es + [e])[1..] == [];
    } else {
      assert (es + [e])[1..] == es[1..] + [e];
      RunMore(cfg, d, Step(cfg, s, es[0]), Now(es[0], clock), es[1..], e);
    }
  }

  lemma More(cfg: Config, d: int, es: seq<Event>, s: Sys, clock: int, e: Event)
    requires Leads(cfg, d, es, s, clock) && Legal(s, e) && Prompt(s, clock, e, d)
    ensures Leads(cfg, d, es + [e], Step(cfg, s, e), Now(e, clock))
  {
    RunMore(cfg, d, Init(), 0, es, e);
  }

  // Call 0 is in flight and n calls after it have failed.
  ghost predicate Failing(cfg: Config, s: Sys, n: nat) {
    && s.core == Core(if n < cfg.failureThreshold then Closed else Open, n, 0, 0)
    && (forall id: nat :: id in s.calls <==> id <= n) && s.inflight == {0} && s.period == 0
    && 0 in s.calls && s.calls[0] == Call(false, 0, 0)
  }

  lemma {:induction false} FailMany(cfg: Config, d: int, n: nat) returns (es: seq<Event>, s: Sys)
    requires cfg.Valid() && d >= 0 && n <= cfg.failureThreshold
    ensures Leads(cfg, d, es, s, 0) && Failing(cfg, s, n)
  {
    if n == 0 {
      es, s := [], Init();
    } else {
      es, s := FailMany(cfg, d, n - 1);
    }
    var id := n;
    More(cfg, d, es, s, 0, Enter(id, 0));
    es, s := es + [Enter(id, 0)], Step(cfg, s, Enter(id, 0));
    if n > 0 {
      More(cfg, d, es, s, 0, Return(id, false, 0));
      es, s := es + [Return(id, false, 0)], Step(cfg, s, Return(id, false, 0));
    }
  }

  // And n probes have entered the first half-open period.
  ghost predicate Filling(cfg: Config, s: Sys, n: nat) {
    var first := cfg.failureThreshold + 1;
    && first >= 0
    && s.core == Core(HalfOpen, cfg.failureThreshold, 0, n)
    && (forall id: nat :: id in s.calls <==> id < first + n) && s.period == 1
    && (forall id: nat :: id in s.inflight <==> id == 0 || first <= id < first + n) && |s.inflight| == n + 1
    && 0 in s.calls && s.calls[0] == Call(false, 0, 0)
    && forall id :: id in s.inflight && id != 0 ==> id in s.calls && s.calls[id] == Call(true, 1, cfg.resetTimeout)
  }

  lemma FillOne(cfg: Config, s: Sys, n: nat)
    requires cfg.Valid() && n < cfg.halfOpenMax && Filling(cfg, s, n)
    ensures var e := Enter(cfg.failureThreshold + 1 + n, cfg.resetTimeout);
      Legal(s, e) && Filling(cfg, Step(cfg, s, e), n + 1)
  {
    var id := cfg.failureThreshold + 1 + n;
    assert id !in s.inflight;
  }

  lemma {:induction false} FillMany(cfg: Config, d: int, n: nat) returns (es: seq<Event>, s: Sys)
    requires cfg.Valid() && d >= cfg.resetTimeout && n <= cfg.halfOpenMax
    ensures Leads(cfg, d, es, s, cfg.resetTimeout) && Filling(cfg, s, n)
  {
    var t, e;
    t := cfg.resetTimeout;
    if n == 0 {
      es, s := FailMany(cfg, d, cfg.failureThreshold);
      e := Query(t);
      More(cfg, d, es, s, 0, e);
    } else {
      es, s := FillMany(cfg, d, n - 1);
      e := Enter(cfg.failureThreshold + n, t);
      FillOne(cfg, s, n - 1);
      More(cfg, d, es, s, t, e);
    }
    es, s := es + [e], Step(cfg, s, e);
  }

  // Whatever the configuration, one late call is enough: the breaker trips with
  // call 0 in flight, the first period fills up at resetTimeout, call 0 fails and
  // reopens the breaker, and at twice the timeout the next period admits a probe
  // beside all those of the first.
  lemma StaleProbeExceedsMax(cfg: Config, d: int) returns (es: seq<Event>)
    requires cfg.Valid() && d >= cfg.resetTimeout
    ensures LegalRun(cfg, Init(), es) && PromptRun(cfg, Init(), 0, es, d)
    ensures Run(cfg, Init(), es).core.phase.HalfOpen?
    ensures |ProbesInFlight(Run(cfg, Init(), es))| == cfg.halfOpenMax + 1
  {
    var s;
    var first, m, t := cfg.failureThreshold + 1, cfg.halfOpenMax, cfg.resetTimeout;
    es, s := FillMany(cfg, d, m);
    More(cfg, d, es, s, t, Return(0, false, t));
    es, s := es + [Return(0, false, t)], Step(cfg, s, Return(0, false, t));
    var id := first + m;
    More(cfg, d, es, s, t, Enter(id, 2 * t));
    es, s := es + [Enter(id, 2 * t)], Step(cfg, s, Enter(id, 2 * t));
    assert ProbesInFlight(s) == s.inflight;
  }

  // If no call of a run takes longer than d, its probes stay within halfOpenMax.
  ghost predicate ProbesBounded(cfg: Config, start: int, es: seq<Event>, d: int) {
    LegalRun(cfg, Init(), es) && PromptRun(cfg, Init(), start, es, d) ==>
      |ProbesInFlight(Run(cfg, Init(), es))| <= cfg.halfOpenMax
  }

  // That is so of every run exactly when d is below the reset timeout.
  lemma ConcurrentProbes(cfg: Config, d: int)
    requires cfg.Valid()
    ensures (forall start, es :: ProbesBounded(cfg, start, es, d)) <==> d < cfg.resetTimeout
  {
    if d < cfg.resetTimeout {
      forall start, es ensures ProbesBounded(cfg, start, es, d) {
        if LegalRun(cfg, Init(), es) && PromptRun(cfg, Init(), start, es, d) {
          RunNoneStale(cfg, Init(), start, es, d);
          var s := Run(cfg, Init(), es);
          SubsetSize(ProbesInFlight(s), CurrentProbes(s));
        }
      }
    } else {
      var es := StaleProbeExceedsMax(cfg, d);
      assert !ProbesBounded(cfg, 0, es, d);
    }
  }

  // ---------------------------------------------------------------------------
  // Trip condition and open window

  // The breaker is closed exactly while the outcomes of ordinary calls since it
  // closed do not end in failureThreshold failures.
  lemma TripCondition(cfg: Config, s: Sys)
    requires cfg.Valid() && Reachable(cfg, s)
    ensures s.core.phase.Closed? <==> !LastAllFailed(s.sinceClose, cfg.failureThreshold)
    ensures s.core.phase.Closed? <==> s.core.consecutiveFail < cfg.failureThreshold
  {
    ReachableInv(cfg, s);
    TrailingCounts(s.sinceClose, cfg.failureThreshold);
  }

  predicate ReadsBefore(e: Event, t: int) {
    match e
    case Enter(_, now) => now < t
    case Query(now) => now < t
    case Return(_, _, _) => true
    case ForceReset => false
  }

  // An open breaker admits nothing and does not move, whatever returns arrive
  // late, until some caller reads a clock of openedAt + resetTimeout; the first
  // caller to read it is admitted.
  lemma {:induction false} OpenWindow(cfg: Config, s: Sys, es: seq<Event>)
    requires LegalRun(cfg, s, es) && s.core.phase.Open?
    requires forall i :: 0 <= i < |es| ==> ReadsBefore(es[i], s.core.openedAt + cfg.resetTimeout)
    ensures Run(cfg, s, es).core == s.core
    ensures Run(cfg, s, es).calls == s.calls
    ensures cfg.Valid() ==> forall id, now {:trigger Enter(id, now)} :: id !in s.calls ==>
      (id in Step(cfg, Run(cfg, s, es), Enter(id, now)).calls <==> now >= s.core.openedAt + cfg.resetTimeout)
    decreases |es|
  {
    if es != [] {
      assert ReadsBefore(es[0], s.core.openedAt + cfg.resetTimeout);
      OpenWindow(cfg, Step(cfg, s, es[0]), es[1..]);
    }
  }

  // From the outcome that opens the breaker: the window is counted from the
  // clock reading of that outcome.
  lemma NoAdmissionAfterTrip(cfg: Config, s: Sys, e: Event, es: seq<Event>)
    requires Legal(s, e) && !s.core.phase.Open? && Step(cfg, s, e).core.phase.Open?
    requires LegalRun(cfg, Step(cfg, s, e), es)
    requires e.Return? ==> forall i :: 0 <= i < |es| ==> ReadsBefore(es[i], e.returnedAt + cfg.resetTimeout)
    ensures e.Return? && !e.ok
    ensures Run(cfg, Step(cfg, s, e), es).core.phase.Open?
    ensures Run(cfg, Step(cfg, s, e), es).calls == s.calls
  {
    OpenWindow(cfg, Step(cfg, s, e), es);
  }
}
