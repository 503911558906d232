/** The check-in pacer: while recovery asks to skip the panel, a check-in still
    goes out every few minutes, so the panel is never starved. */
module CheckInPacing {
  import opened Wrappers
  import opened Recovery
  import opened RecoverySteps
  import opened RecoveryRuns

  const BASE_INTERVAL: int := 120
  const MAX_INTERVAL: int := 300

  function Pow2(n: nat): (r: int)
    ensures r >= 1
  {
    if n == 0 then 1 else 2 * Pow2(n - 1)
  }

  // The interval after `n` failed attempts in a row.
  function Interval(n: nat): int { Min(BASE_INTERVAL * Pow2(n), MAX_INTERVAL) }

  lemma {:induction false} Pow2Grows(m: nat, n: nat)
    requires m <= n
    ensures Pow2(m) <= Pow2(n)
  {
    if m < n {
      Pow2Grows(m, n - 1);
    }
  }

  lemma IntervalBounds(n: nat)
    ensures BASE_INTERVAL <= Interval(n) <= MAX_INTERVAL
    ensures n > 0 ==> 2 * BASE_INTERVAL <= Interval(n)
    ensures n > 1 ==> Interval(n) == MAX_INTERVAL
  {
    if n > 0 {
      Pow2Grows(1, n);
    }
    if n > 1 {
      Pow2Grows(2, n);
    }
  }

  // The doubling loop: no intermediate value reaches twice the maximum.
  method RecoveryCheckInInterval(consecutiveFailures: nat) returns (interval: int)
    ensures interval == Interval(consecutiveFailures)
  {
    interval := BASE_INTERVAL;
    var i := 0;
    while i < consecutiveFailures && interval < MAX_INTERVAL
      invariant 0 <= i <= consecutiveFailures
      invariant interval == BASE_INTERVAL * Pow2(i)
      invariant interval < 2 * MAX_INTERVAL
    {
      interval := interval * 2;
      i := i + 1;
    }
    Pow2Grows(i, consecutiveFailures);
    if interval > MAX_INTERVAL {
      interval := MAX_INTERVAL;
    }
  }

  datatype Pacer = Pacer(lastAttempt: Instant, failures: nat)

  predicate Due(c: Pacer, now: int, phase: Phase) {
    phase != RebootWait &&
    (c.lastAttempt.None? || now < c.lastAttempt.value || now - c.lastAttempt.value >= Interval(c.failures))
  }

  class CheckInPacer {
    var lastAttemptAt: Instant
    var consecutiveFailures: nat

    function View(): Pacer reads this { Pacer(lastAttemptAt, consecutiveFailures) }

    constructor ()
      ensures View() == Pacer(None, 0)
    {
      lastAttemptAt, consecutiveFailures := None, 0;
    }

    method DueDuringRecovery(now: int, phase: Phase) returns (due: bool)
      ensures due == Due(View(), now, phase)
    {
      if phase == RebootWait {
        return false;
      }
      if lastAttemptAt.None? || now < lastAttemptAt.value {
        return true;
      }
      var interval := RecoveryCheckInInterval(consecutiveFailures);
      return now - lastAttemptAt.value >= interval;
    }

    method NoteAttempt(now: int)
      modifies this
      ensures View() == Pacer(Some(now), old(consecutiveFailures) + 1)
    {
      lastAttemptAt := Some(now);
      consecutiveFailures := consecutiveFailures + 1;
    }

    method NoteSuccess()
      modifies this
      ensures View() == Pacer(old(lastAttemptAt), 0)
    {
      consecutiveFailures := 0;
    }
  }

  // One pass of the run loop, as the pacer sees it.
  datatype Cycle = Cycle(at: int, outcome: Outcome, phase: Phase, answered: bool)

  // The check-in of a cycle: a failed poll ends the cycle before it, and one
  // recovery asked to skip waits out settle windows, the tick of a switch and
  // the pacer.
  predicate ChecksIn(c: Pacer, y: Cycle) {
    !y.outcome.failed &&
    (!y.outcome.skip || (!y.outcome.settle && !y.outcome.changed && Due(c, y.at, y.phase)))
  }

  function NextPacer(c: Pacer, y: Cycle): Pacer {
    if ChecksIn(c, y) then Pacer(Some(y.at), if y.answered then 0 else c.failures + 1) else c
  }

  function PacerAfter(c: Pacer, ys: seq<Cycle>, k: nat): Pacer
    requires k <= |ys|
  {
    if k == 0 then c else NextPacer(PacerAfter(c, ys, k - 1), ys[k - 1])
  }

  predicate Attempts(c: Pacer, ys: seq<Cycle>, k: nat)
    requires k < |ys|
  {
    ChecksIn(PacerAfter(c, ys, k), ys[k])
  }

  predicate InOrder(ys: seq<Cycle>) {
    forall i, j :: 0 <= i <= j < |ys| ==> ys[i].at <= ys[j].at
  }

  predicate Quiet(c: Pacer, ys: seq<Cycle>, i: nat, k: nat)
    requires i <= k <= |ys|
  {
    forall m :: i <= m < k ==> !Attempts(c, ys, m)
  }

  lemma {:induction false} AttemptRemembered(c: Pacer, ys: seq<Cycle>, i: nat, k: nat)
    requires InOrder(ys) && i < k <= |ys| && Attempts(c, ys, i)
    ensures var now := PacerAfter(c, ys, k);
            && now.lastAttempt.Some?
            && ys[i].at <= now.lastAttempt.value <= ys[k - 1].at
            && (Quiet(c, ys, i + 1, k) ==>
                  now.lastAttempt.value == ys[i].at && (ys[i].answered || now.failures > 0))
  {
    if k - 1 > i {
      AttemptRemembered(c, ys, i, k - 1);
      assert Quiet(c, ys, i + 1, k) ==> Quiet(c, ys, i + 1, k - 1) && !Attempts(c, ys, k - 1);
    }
  }

  // A check-in recovery asked to skip is at least two minutes after any other,
  // and four after one that failed.
  lemma ForcedCheckInsApart(c: Pacer, ys: seq<Cycle>, i: nat, j: nat)
    requires InOrder(ys) && i < j < |ys|
    requires Attempts(c, ys, i) && Attempts(c, ys, j) && ys[j].outcome.skip
    ensures ys[j].at - ys[i].at >= 120
    ensures Quiet(c, ys, i + 1, j) && !ys[i].answered ==> ys[j].at - ys[i].at >= 240
  {
    AttemptRemembered(c, ys, i, j);
    IntervalBounds(PacerAfter(c, ys, j).failures);
  }

  // A cycle of the agent: one poll of recovery, then the pacer.
  function CycleOf(p: Policy, s: State, in_: Reading, now: int, answered: bool): Cycle {
    var r := Advance(p, s, in_, now);
    Cycle(now, r.outcome, r.state.rec.phase, answered)
  }

  predicate StillSettling(p: Policy, s: State, in_: Reading, now: int) {
    var until := SettledUntil(p, Observe(p, s, in_, now).state);
    until.Some? && now < until.value
  }

  lemma StartOutcome(p: Policy, o: State, in_: Reading, inv: Inventory, foreign: Status, now: int)
    ensures var r := StartRecovery(p, o, in_, inv, foreign, now);
            !r.outcome.settle && (r.outcome.changed ==> r.actions == [TurnOff])
  {
  }

  lemma IdleOutcome(p: Policy, o: State, in_: Reading, inv: Inventory, foreign: Status, now: int)
    ensures var r := InIdleOrMonitoring(p, o, in_, inv, foreign, now);
            !r.outcome.settle && (r.outcome.changed ==> r.actions == [TurnOn] || r.actions == [TurnOff])
  {
    StartOutcome(p, o, in_, inv, foreign, now);
  }

  lemma OutcomeFacts(p: Policy, s: State, in_: Reading, now: int)
    requires in_.inventory.Some?
    ensures var r := Advance(p, s, in_, now);
            && (r.outcome.settle <==> StillSettling(p, s, in_, now) && Observe(p, s, in_, now).state.rec.phase != RebootWait)
            && (r.outcome.changed ==> r.actions == [TurnOn] || r.actions == [TurnOff])
  {
    var seen, inv := Observe(p, s, in_, now), in_.inventory.value;
    var o := seen.state;
    match o.rec.phase {
      case Idle | Monitoring =>
        IdleOutcome(p, o, in_, inv, seen.foreign, now);
      case ControllerRestartWait =>
      case DirectSettle =>
      case RebootWait =>
      case PostRebootCheck =>
      case PasswallRetryWait =>
      case OperatorAttention =>
    }
  }

  // Recovery never starves the panel: five minutes after the last attempt a
  // check-in goes out, unless a settle clock is still running, PassWall was
  // switched in this very tick, a reboot was just scheduled, or the poll failed.
  lemma PanelNotStarved(p: Policy, s: State, in_: Reading, now: int, c: Pacer, answered: bool)
    requires in_.inventory.Some?
    requires !ChecksIn(c, CycleOf(p, s, in_, now, answered))
    ensures var r := Advance(p, s, in_, now);
            || r.outcome.failed
            || StillSettling(p, s, in_, now)
            || r.actions == [TurnOn] || r.actions == [TurnOff] || r.actions == [Reboot]
            || (c.lastAttempt.Some? && 0 <= now - c.lastAttempt.value < 300)
  {
    OutcomeFacts(p, s, in_, now);
    IntervalBounds(c.failures);
    var o, r := PollFacts(p, s, Event(now, Poll(in_)));
  }

  // With no clock settling, no switch and no reboot, five minutes after the last
  // attempt a check-in goes out exactly if the poll did not fail.
  lemma CheckInUnlessFailed(p: Policy, s: State, in_: Reading, now: int, c: Pacer, answered: bool)
    requires in_.inventory.Some? && !StillSettling(p, s, in_, now)
    requires var a := Advance(p, s, in_, now).actions; a != [TurnOn] && a != [TurnOff] && a != [Reboot]
    requires c.lastAttempt.Some? ==> !(0 <= now - c.lastAttempt.value < 300)
    ensures ChecksIn(c, CycleOf(p, s, in_, now, answered)) <==> !Advance(p, s, in_, now).outcome.failed
  {
    if !ChecksIn(c, CycleOf(p, s, in_, now, answered)) {
      PanelNotStarved(p, s, in_, now, c, answered);
    }
  }

  // The way back from operator attention is open, and the switch cannot be written.
  predicate Hopeless(in_: Reading) {
    && in_.inventory.Some? && !in_.inventory.value.passwallEnabled && in_.inventory.value.runtime.Usable?
    && !in_.panelFirst && in_.write == BatchFailed
  }

  predicate Waiting(p: Policy, s: State, now: int) {
    s.rec.phase == OperatorAttention && ParkedProofReady(s, now) && BlindRetryReady(p, s, now)
  }

  lemma HopelessPoll(p: Policy, s: State, in_: Reading, now: int, later: int)
    requires Waiting(p, s, now) && Hopeless(in_) && now <= later
    ensures var r := Advance(p, s, in_, now); r.outcome.failed && Waiting(p, r.state, later)
  {
    ObserveFacts(p, s, in_, now);
  }

  function CyclesOf(p: Policy, s: State, es: seq<Event>, answers: seq<bool>): seq<Cycle>
    requires |answers| == |es| && forall k :: 0 <= k < |es| ==> es[k].what.Poll?
  {
    seq(|es|, k requires 0 <= k < |es| => CycleOf(p, After(p, s, es, k), es[k].what.in_, es[k].at, answers[k]))
  }

  lemma {:induction false} StillWaiting(p: Policy, s: State, es: seq<Event>, k: nat)
    requires Monotone(es) && k < |es| && Waiting(p, s, es[0].at)
    requires forall m :: 0 <= m < |es| ==> es[m].what.Poll? && Hopeless(es[m].what.in_)
    ensures Waiting(p, After(p, s, es, k), es[k].at)
  {
    if k > 0 {
      StillWaiting(p, s, es, k - 1);
      HopelessPoll(p, After(p, s, es, k - 1), es[k - 1].what.in_, es[k - 1].at, es[k].at);
    }
  }

  // And failing polls starve the panel without bound: parked, with a switch that
  // cannot be written, every poll tries and fails, and no check-in ever goes out.
  lemma FailingPollsStarve(p: Policy, s: State, es: seq<Event>, answers: seq<bool>, c: Pacer)
    requires Monotone(es) && |answers| == |es| && (es != [] ==> Waiting(p, s, es[0].at))
    requires forall m :: 0 <= m < |es| ==> es[m].what.Poll? && Hopeless(es[m].what.in_)
    ensures var ys := CyclesOf(p, s, es, answers);
            forall k :: 0 <= k < |ys| ==> ys[k].outcome.failed && !Attempts(c, ys, k)
  {
    var ys := CyclesOf(p, s, es, answers);
    forall k | 0 <= k < |ys|
      ensures ys[k].outcome.failed
    {
      StillWaiting(p, s, es, k);
      HopelessPoll(p, After(p, s, es, k), es[k].what.in_, es[k].at, es[k].at);
    }
  }
}
