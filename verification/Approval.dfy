/** The governance hook of agenthook/run.go: a tool call goes ahead only on an
    ALLOW, or on an approval waited for by polling.

    The services, the clock and the sleeps are oracles indexed by round of the
    polling loop.  Reasons are kept as kinds, not as message text.
 */
module Approval {
  import opened Options
  import opened Text

  // What EvaluateAction came back with.
  datatype Evaluation = CallFailed | Missing | Unspecified | Allow | Deny | RequireApproval | Other

  datatype Decision =
    | DecisionUnspecified | Approved | AutoApproved | DeniedDecision | ExpiredDecision | Escalated | OtherDecision

  // What GetApproval came back with.
  datatype Poll = LookupFailed | Polled(state: string, decisions: seq<Decision>)

  datatype Why =
    | NoGovernanceClient | BadInput | NoAgentId | GovernanceFailed | NoEvaluation | UnknownDecision | GovernanceDenied
    | NoApprovalsClient | RequestFailed | NoApprovalId | WaitCancelled | TimedOut | PollFailed
    | ResolvedWithoutDecision | ApprovalExpired | UnexpectedState | NotApproved(decision: Decision)

  datatype Permission = Permit | Refuse(why: Why)

  datatype Config = Config(approvalTimeout: int, pollInterval: int) {
    predicate Valid() { approvalTimeout > 0 && pollInterval > 0 }
  }

  // The outside world of one wait.
  datatype World = World(
    start: int,                  // the clock when the deadline was set
    clock: nat -> int,           // the clock at the deadline test of a round
    cancelled: nat -> bool,      // the context, at the start of a round
    polls: nat -> Poll,
    sleeps: nat -> bool)         // false: the context ended during the sleep
  {
    // The clock does not go back, and a full sleep takes at least the poll interval.
    ghost predicate Timed(interval: int) {
      clock(0) >= start && forall k: nat {:trigger sleeps(k)} :: sleeps(k) ==> clock(k + 1) >= clock(k) + interval
    }
  }

  // ---------------------------------------------------------------------------
  // One round

  function State(p: Poll): string
    requires p.Polled?
  {
    TrimSpace(p.state)
  }

  predicate PendingPoll(p: Poll) { p.Polled? && (State(p) == "" || State(p) == "pending") }

  function Latest(ds: seq<Decision>): Option<Decision> {
    if ds == [] then None else Some(ds[|ds| - 1])
  }

  function DecisionFromApproval(state: string, d: Option<Decision>): (p: Permission)
    ensures p.Permit? <==> d == Some(Approved) || d == Some(AutoApproved)
    ensures d.Some? && p.Refuse? ==> p.why == NotApproved(d.value)
    ensures d.None? ==> (p.why == ApprovalExpired <==> state == "expired") && !p.why.NotApproved?
    ensures d.None? ==> (p.why == ResolvedWithoutDecision <==> state == "resolved")
  {
    match d
    case None =>
      if state == "resolved" then Refuse(ResolvedWithoutDecision)
      else if state == "expired" then Refuse(ApprovalExpired)
      else Refuse(UnexpectedState)
    case Some(Approved) => Permit
    case Some(AutoApproved) => Permit
    case Some(other) => Refuse(NotApproved(other))
  }

  // Round k gets as far as asking for the approval.
  predicate Asks(cfg: Config, w: World, k: nat) {
    !w.cancelled(k) && w.clock(k) <= w.start + cfg.approvalTimeout
  }

  // Round k is followed by another.
  predicate GoesOn(cfg: Config, w: World, k: nat) {
    Asks(cfg, w, k) && PendingPoll(w.polls(k)) && w.sleeps(k)
  }

  // Round k shows the approval: no longer pending, and its last decision says yes.
  predicate ShowsApproval(cfg: Config, w: World, k: nat) {
    && Asks(cfg, w, k) && w.polls(k).Polled? && !PendingPoll(w.polls(k))
    && Latest(w.polls(k).decisions) in {Some(Approved), Some(AutoApproved)}
  }

  // The first round that is not pending shows the approval.
  ghost predicate ApprovedInTime(cfg: Config, w: World) {
    exists k: nat :: ShowsApproval(cfg, w, k) && forall i: nat :: i < k ==> GoesOn(cfg, w, i)
  }

  // The evidence a permit takes, spelled out: a poll in time with a settled state
  // whose last decision approves, every poll before it having been in time and
  // pending and the wait after it not cut short.
  ghost predicate Evidence(cfg: Config, w: World, k: nat) {
    && !w.cancelled(k) && w.clock(k) - w.start <= cfg.approvalTimeout && w.polls(k).Polled?
    && (var state, ds := TrimSpace(w.polls(k).state), w.polls(k).decisions;
        state !in {"", "pending"} && |ds| > 0 && ds[|ds| - 1] in {Approved, AutoApproved})
    && (forall i: nat :: i < k ==>
          && !w.cancelled(i) && w.clock(i) - w.start <= cfg.approvalTimeout && w.sleeps(i)
          && w.polls(i).Polled? && TrimSpace(w.polls(i).state) in {"", "pending"})
  }

  lemma ApprovedIffEvidence(cfg: Config, w: World)
    ensures ApprovedInTime(cfg, w) <==> exists k: nat :: Evidence(cfg, w, k)
  {
    if ApprovedInTime(cfg, w) {
      var k: nat :| ShowsApproval(cfg, w, k) && forall i: nat :: i < k ==> GoesOn(cfg, w, i);
      forall i: nat | i < k
        ensures !w.cancelled(i) && w.clock(i) - w.start <= cfg.approvalTimeout && w.sleeps(i)
        ensures w.polls(i).Polled? && TrimSpace(w.polls(i).state) in {"", "pending"}
      {
        assert GoesOn(cfg, w, i);
      }
      assert Evidence(cfg, w, k);
    }
    if exists k: nat :: Evidence(cfg, w, k) {
      var k: nat :| Evidence(cfg, w, k);
      assert ShowsApproval(cfg, w, k) && forall i: nat :: i < k ==> GoesOn(cfg, w, i);
    }
  }

  // What ended the wait at round k, every round before it having gone on.
  ghost predicate EndsAt(cfg: Config, w: World, k: nat, p: Permission) {
    && (forall i: nat :: i < k ==> GoesOn(cfg, w, i))
    && (if w.cancelled(k) then p == Refuse(WaitCancelled)
        else if w.clock(k) > w.start + cfg.approvalTimeout then p == Refuse(TimedOut)
        else if w.polls(k).LookupFailed? then p == Refuse(PollFailed)
        else if PendingPoll(w.polls(k)) then !w.sleeps(k) && p == Refuse(WaitCancelled)
        else p.Permit? || p.why.NotApproved? || p.why in {ResolvedWithoutDecision, ApprovalExpired, UnexpectedState})
  }

  // ---------------------------------------------------------------------------
  // The loop

  lemma LessThanOne(x: int, n: int)
    requires n > 0 && x * n < n
    ensures x <= 0
  {
    assert x >= 1 ==> (x - 1) * n >= 0;
  }

  lemma ClockBound(interval: int, timeout: int, k: nat, elapsed: int)
    requires interval > 0 && k * interval <= elapsed <= timeout
    ensures k <= timeout / interval
  {
    var q := timeout / interval;
    assert (k - q) * interval == k * interval - q * interval;
    assert timeout - q * interval == timeout % interval < interval;
    LessThanOne(k - q, interval);
  }

  // Polls until a round does not go on.  Permits exactly when the first
  // non-pending answer, in time, is an approval; asks at most
  // floor(timeout / interval) + 1 times.
  method PollLoop(cfg: Config, w: World) returns (p: Permission, lookups: nat)
    requires cfg.Valid() && w.Timed(cfg.pollInterval)
    ensures p.Permit? <==> exists k: nat :: Evidence(cfg, w, k)
    ensures exists k: nat :: EndsAt(cfg, w, k, p)
    ensures lookups <= cfg.approvalTimeout / cfg.pollInterval + 1
  {
    ApprovedIffEvidence(cfg, w);
    var deadline := w.start + cfg.approvalTimeout;
    var k: nat := 0;
    lookups := 0;
    while true
      invariant forall i: nat :: i < k ==> GoesOn(cfg, w, i)
      invariant w.clock(k) >= w.start + k * cfg.pollInterval
      invariant lookups == k
      decreases deadline - w.clock(k)
    {
      if w.cancelled(k) {
        OnlyFirst(cfg, w, k);
        LookupBound(cfg, w, k);
        assert EndsAt(cfg, w, k, Refuse(WaitCancelled));
        return Refuse(WaitCancelled), lookups;
      }
      if w.clock(k) > deadline {
        OnlyFirst(cfg, w, k);
        LookupBound(cfg, w, k);
        assert EndsAt(cfg, w, k, Refuse(TimedOut));
        return Refuse(TimedOut), lookups;
      }
      ClockBound(cfg.pollInterval, cfg.approvalTimeout, k, w.clock(k) - w.start);
      lookups := lookups + 1;
      var poll := w.polls(k);
      if poll.LookupFailed? {
        OnlyFirst(cfg, w, k);
        assert EndsAt(cfg, w, k, Refuse(PollFailed));
        return Refuse(PollFailed), lookups;
      }
      var state := TrimSpace(poll.state);
      if state == "" || state == "pending" {
        if !w.sleeps(k) {
          OnlyFirst(cfg, w, k);
          assert EndsAt(cfg, w, k, Refuse(WaitCancelled));
          return Refuse(WaitCancelled), lookups;
        }
        assert (k + 1) * cfg.pollInterval == k * cfg.pollInterval + cfg.pollInterval;
        k := k + 1;
        continue;
      }
      OnlyFirst(cfg, w, k);
      p := DecisionFromApproval(state, Latest(poll.decisions));
      assert EndsAt(cfg, w, k, p);
      return p, lookups;
    }
  }

  // Only the first round that does not go on can show the approval.
  lemma OnlyFirst(cfg: Config, w: World, k: nat)
    requires (forall i: nat :: i < k ==> GoesOn(cfg, w, i)) && !GoesOn(cfg, w, k)
    ensures ApprovedInTime(cfg, w) <==> ShowsApproval(cfg, w, k)
  {
    if ApprovedInTime(cfg, w) {
      var j: nat :| ShowsApproval(cfg, w, j) && forall i: nat :: i < j ==> GoesOn(cfg, w, i);
      assert (j < k ==> GoesOn(cfg, w, j)) && (k < j ==> GoesOn(cfg, w, k));
    }
  }

  // k finished rounds end before a k-th lookup: at most one more than fit.
  lemma LookupBound(cfg: Config, w: World, k: nat)
    requires cfg.Valid() && w.Timed(cfg.pollInterval)
    requires forall i: nat :: i < k ==> GoesOn(cfg, w, i)
    ensures k <= cfg.approvalTimeout / cfg.pollInterval + 1
  {
    if k > 0 {
      RoundsTakeTime(cfg, w, k - 1);
      assert GoesOn(cfg, w, k - 1);
      ClockBound(cfg.pollInterval, cfg.approvalTimeout, k - 1, w.clock(k - 1) - w.start);
    }
  }

  lemma {:induction false} RoundsTakeTime(cfg: Config, w: World, k: nat)
    requires cfg.Valid() && w.Timed(cfg.pollInterval)
    requires forall i: nat :: i < k ==> GoesOn(cfg, w, i)
    ensures w.clock(k) >= w.start + k * cfg.pollInterval
  {
    if k > 0 {
      RoundsTakeTime(cfg, w, k - 1);
      assert GoesOn(cfg, w, k - 1) && w.sleeps(k - 1);
      assert k * cfg.pollInterval == (k - 1) * cfg.pollInterval + cfg.pollInterval;
    }
  }

  // awaitApproval: hasClient is whether EVALOPS_APPROVALS_URL is set, requested
  // the id RequestApproval returned, if it succeeded.
  method AwaitApproval(cfg: Config, hasClient: bool, requested: Option<string>, w: World)
    returns (p: Permission, lookups: nat)
    requires cfg.Valid() && w.Timed(cfg.pollInterval)
    ensures p.Permit? <==>
      hasClient && requested.Some? && TrimSpace(requested.value) != "" && exists k: nat :: Evidence(cfg, w, k)
    ensures p == Refuse(NoApprovalsClient) <==> !hasClient
    ensures p == Refuse(RequestFailed) <==> hasClient && requested.None?
    ensures p.Refuse? ==> p.why.NotApproved? || p.why in {NoApprovalsClient, RequestFailed, NoApprovalId,
      WaitCancelled, TimedOut, PollFailed, ResolvedWithoutDecision, ApprovalExpired, UnexpectedState}
    ensures p == Refuse(NoApprovalId) <==> hasClient && requested.Some? && TrimSpace(requested.value) == ""
    ensures lookups <= cfg.approvalTimeout / cfg.pollInterval + 1
  {
    if !hasClient {
      return Refuse(NoApprovalsClient), 0;
    }
    if requested.None? {
      return Refuse(RequestFailed), 0;
    }
    if TrimSpace(requested.value) == "" {
      return Refuse(NoApprovalId), 0;
    }
    p, lookups := PollLoop(cfg, w);
  }

  // GovernanceCheck: the tool call is permitted exactly on positive evidence.
  method GovernanceCheck(cfg: Config, hasGovernance: bool, parsed: bool, agentId: string, evaluation: Evaluation,
                         hasClient: bool, requested: Option<string>, w: World)
    returns (p: Permission, lookups: nat)
    requires cfg.Valid() && w.Timed(cfg.pollInterval)
    ensures p.Permit? <==>
      && hasGovernance && parsed && TrimSpace(agentId) != ""
      && (evaluation == Allow ||
          (evaluation == RequireApproval
           && hasClient && requested.Some? && TrimSpace(requested.value) != "" && exists k: nat :: Evidence(cfg, w, k)))
    ensures p == Refuse(NoGovernanceClient) <==> !hasGovernance
    ensures p == Refuse(BadInput) <==> hasGovernance && !parsed
    ensures p == Refuse(NoAgentId) <==> hasGovernance && parsed && TrimSpace(agentId) == ""
    ensures p == Refuse(GovernanceDenied) <==> hasGovernance && parsed && TrimSpace(agentId) != "" && evaluation == Deny
    ensures lookups <= if evaluation == RequireApproval then cfg.approvalTimeout / cfg.pollInterval + 1 else 0
  {
    lookups := 0;
    if !hasGovernance {
      return Refuse(NoGovernanceClient), 0;
    }
    if !parsed {
      return Refuse(BadInput), 0;
    }
    if TrimSpace(agentId) == "" {
      return Refuse(NoAgentId), 0;
    }
    match evaluation {
      case CallFailed => p := Refuse(GovernanceFailed);
      case Missing => p := Refuse(NoEvaluation);
      case Unspecified => p := Refuse(UnknownDecision);
      case Allow => p := Permit;
      case Deny => p := Refuse(GovernanceDenied);
      case RequireApproval => p, lookups := AwaitApproval(cfg, hasClient, requested, w);
      case Other => p := Refuse(UnknownDecision);
    }
  }

  // The exit code of the hook: 0 lets the tool run, 2 blocks it with a decision
  // on stdout, 1 when that decision could not be written.
  function ExitCode(p: Permission, written: bool): (code: int)
    ensures code == 0 <==> p.Permit?
    ensures code == 2 <==> p.Refuse? && written
  {
    if p.Permit? then 0 else if written then 2 else 1
  }
}
