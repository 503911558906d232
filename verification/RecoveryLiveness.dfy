/** No phase of control-plane recovery is a terminal park: while the node
    answers and polls keep coming, the router is back in proxy mode and in
    `Idle` by a deadline the state itself gives, whatever the panel does. */
module RecoveryLiveness {
  import opened Wrappers
  import opened Recovery
  import opened RecoverySteps
  import opened RecoveryRuns

  // What the way back needs from the world: the node answers, the runtime can
  // run, the inventory is current and the switch can be written. The panel, RU
  // and foreign probes, contacts and restarts of the agent are free.
  predicate Helpful(s: State, node: string, e: Event) {
    match e.what
    case Poll(in_) =>
      && in_.inventory == Some(Inventory(s.passwall, node, Usable))
      && in_.node == Alive
      && in_.write == Written
    case Contact => true
    case ProcessRestart => true
    case _ => false
  }

  // PassWall is on while a retry is judged and off in the other owned phases.
  predicate Coherent(s: State) {
    match s.rec.phase
    case PasswallRetryWait => s.passwall
    case DirectSettle | RebootWait | PostRebootCheck | OperatorAttention => !s.passwall
    case _ => false
  }

  predicate Home(s: State) { s.rec.phase == Idle && s.passwall }

  function Later(t: Instant, d: int, q: int): int {
    if t.Some? then Max(t.value + d, q) else q
  }

  // From when a parked router may retry: fifteen minutes after the last retry,
  // and past a cached verdict that does not let it.
  function RetryDue(p: Policy, node: string, s: State, q: int): int {
    var rested := Later(s.rec.lastRetry, PARKED_PROOF_RETRY, q);
    if s.cache.node == node && s.cache.verdict != Alive then Later(s.cache.at, p.cooldown, rested) else rested
  }

  // When the machine is home at the latest: `q` is the last poll, `g` the
  // longest gap between polls.
  function Deadline(p: Policy, node: string, g: int, s: State, q: int): int {
    var due := RetryDue(p, node, s, q);
    match s.rec.phase
    case PasswallRetryWait =>
      Later(s.rec.lastRetry, p.passwallWarmup, q) + g
    case OperatorAttention =>
      due + p.passwallWarmup + 2 * g
    case PostRebootCheck =>
      Max(Later(s.rec.lastReboot, p.postRebootSettle, q) + g, due) + p.passwallWarmup + 2 * g
    case RebootWait =>
      Max(Later(s.rec.lastReboot, p.postRebootSettle, q + g) + g, due) + p.passwallWarmup + 2 * g
    case DirectSettle =>
      Later(s.lastTransition, p.directSettle, due) + Max(g, p.postRebootSettle) + p.passwallWarmup + 4 * g
    case _ => q + g
  }

  // One step towards home: there in time, or no further from it.
  predicate Progress(p: Policy, node: string, g: int, s: State, q: int, t: State, now: int) {
    || (Home(t) && now <= Deadline(p, node, g, s, q))
    || (Coherent(t) && Deadline(p, node, g, t, now) <= Deadline(p, node, g, s, q))
  }

  lemma RetryWaitProgress(p: Policy, node: string, g: int, s: State, o: State, in_: Reading, foreign: Status, q: int, now: int)
    requires p.Valid() && Coherent(s) && Observed(s, o, in_, now) && q <= now <= q + g
    requires Helpful(s, node, Event(now, Poll(in_))) && s.rec.phase == PasswallRetryWait
    ensures Progress(p, node, g, s, q, InPasswallRetryWait(p, o, in_, in_.inventory.value, foreign, now).state, now)
  {
  }

  lemma OperatorAttentionProgress(p: Policy, node: string, g: int, s: State, o: State, in_: Reading, foreign: Status, q: int, now: int)
    requires p.Valid() && Coherent(s) && Observed(s, o, in_, now) && q <= now <= q + g
    requires Helpful(s, node, Event(now, Poll(in_))) && s.rec.phase == OperatorAttention
    ensures Progress(p, node, g, s, q, InOperatorAttention(p, o, in_, in_.inventory.value, foreign, now).state, now)
  {
    var t := InOperatorAttention(p, o, in_, in_.inventory.value, foreign, now).state;
    if !ParkedProofReady(o, now) {
      assert t == o;
    } else if t.rec.phase == PasswallRetryWait {
      assert t.rec.lastRetry == Some(now);
    } else {
      assert VerdictFresh(p, o, node, now) && o.cache.verdict != Alive;
      assert t == o;
    }
  }

  lemma PostRebootProgress(p: Policy, node: string, g: int, s: State, o: State, in_: Reading, ru: Status, foreign: Status, q: int, now: int)
    requires p.Valid() && Coherent(s) && Observed(s, o, in_, now) && q <= now <= q + g
    requires Helpful(s, node, Event(now, Poll(in_))) && s.rec.phase == PostRebootCheck
    ensures Progress(p, node, g, s, q, InPostRebootCheck(p, o, in_, in_.inventory.value, ru, foreign, now).state, now)
  {
  }

  lemma RebootProgress(p: Policy, node: string, g: int, s: State, o: State, in_: Reading, q: int, now: int)
    requires p.Valid() && Coherent(s) && Observed(s, o, in_, now) && q <= now <= q + g
    requires s.rec.phase == DirectSettle && !Younger(now, o.lastTransition, p.directSettle)
    requires now < RetryDue(p, node, s, q)
    ensures Progress(p, node, g, s, q, TryReboot(p, o, in_, now).state, now)
  {
    var t := TryReboot(p, o, in_, now).state;
    assert RetryDue(p, node, t, now) <= RetryDue(p, node, s, q);
  }

  lemma SettledProgress(p: Policy, node: string, g: int, s: State, o: State, q: int, now: int, t: State)
    requires p.Valid() && Coherent(s) && s.rec.phase == DirectSettle && q <= now <= q + g
    requires t.rec.phase == PasswallRetryWait ==> t.passwall && t.rec.lastRetry == Some(now)
    requires t.rec.phase == OperatorAttention ==> !t.passwall && RetryDue(p, node, t, now) <= Max(now, RetryDue(p, node, s, q))
    requires t.rec.phase == PasswallRetryWait || t.rec.phase == OperatorAttention
    ensures Progress(p, node, g, s, q, t, now)
  {
  }

  lemma DirectSettleProgress(p: Policy, node: string, g: int, s: State, o: State, in_: Reading, ru: Status, q: int, now: int)
    requires p.Valid() && Coherent(s) && Observed(s, o, in_, now) && q <= now <= q + g
    requires Helpful(s, node, Event(now, Poll(in_))) && s.rec.phase == DirectSettle
    ensures Progress(p, node, g, s, q, InDirectSettle(p, o, in_, in_.inventory.value, ru, now).state, now)
  {
    var t := InDirectSettle(p, o, in_, in_.inventory.value, ru, now).state;
    if Younger(now, o.lastTransition, p.directSettle) {
      assert t == o;
    } else if in_.panelFirst {
      SettledProgress(p, node, g, s, o, q, now, t);
    } else if ParkedProofReady(o, now) && NodeVerdict(p, o, node, Alive, now) == Alive {
      SettledProgress(p, node, g, s, o, q, now, t);
    } else {
      assert KeepVerdict(p, o, node, Alive, now) == o || !ParkedProofReady(o, now);
      RebootProgress(p, node, g, s, o, in_, q, now);
    }
  }

  lemma PollProgress(p: Policy, node: string, g: int, s: State, e: Event, q: int)
    requires p.Valid() && Coherent(s) && q <= e.at <= q + g
    requires e.what.Poll? && Helpful(s, node, e)
    ensures Progress(p, node, g, s, q, Apply(p, s, e), e.at)
  {
    var in_, now := e.what.in_, e.at;
    var seen := Observe(p, s, in_, now);
    ObserveFacts(p, s, in_, now);
    match s.rec.phase {
      case PasswallRetryWait => RetryWaitProgress(p, node, g, s, seen.state, in_, seen.foreign, q, now);
      case OperatorAttention => OperatorAttentionProgress(p, node, g, s, seen.state, in_, seen.foreign, q, now);
      case PostRebootCheck => PostRebootProgress(p, node, g, s, seen.state, in_, seen.ru, seen.foreign, q, now);
      case DirectSettle => DirectSettleProgress(p, node, g, s, seen.state, in_, seen.ru, q, now);
      case RebootWait =>
    }
  }

  lemma OtherProgress(p: Policy, node: string, g: int, s: State, e: Event, q: int)
    requires p.Valid() && 0 <= g && Coherent(s) && !e.what.Poll? && Helpful(s, node, e)
    ensures var t := Apply(p, s, e);
            Coherent(t) && Deadline(p, node, g, t, q) <= Deadline(p, node, g, s, q)
  {
  }

  // While it is not home, the next poll comes before the deadline.
  lemma DeadlineAhead(p: Policy, node: string, g: int, s: State, q: int)
    requires p.Valid() && 0 <= g
    ensures q + g <= Deadline(p, node, g, s, q)
  {
  }

  // The last poll among the first `k` events; `q` before any.
  function LastPoll(es: seq<Event>, q: int, k: nat): int
    requires k <= |es|
  {
    if k == 0 then q else if es[k - 1].what.Poll? then es[k - 1].at else LastPoll(es, q, k - 1)
  }

  // Everything helps, and polls are never more than `g` apart.
  predicate HelpfulRun(p: Policy, node: string, g: int, s: State, q: int, es: seq<Event>) {
    && p.Valid() && 0 <= g
    && (forall k :: 0 <= k < |es| ==> LastPoll(es, q, k) <= es[k].at <= LastPoll(es, q, k) + g)
    && (forall k :: 0 <= k < |es| ==> Helpful(After(p, s, es, k), node, es[k]))
  }

  predicate HomeBy(p: Policy, s: State, es: seq<Event>, k: nat, limit: int)
    requires k <= |es|
  {
    exists m :: 0 < m <= k && Home(After(p, s, es, m)) && es[m - 1].at <= limit
  }

  lemma {:induction false} HomeOrCloser(p: Policy, node: string, g: int, s: State, q: int, es: seq<Event>, k: nat)
    requires HelpfulRun(p, node, g, s, q, es) && Coherent(s) && k <= |es|
    ensures var limit := Deadline(p, node, g, s, q);
            || HomeBy(p, s, es, k, limit)
            || (Coherent(After(p, s, es, k)) && Deadline(p, node, g, After(p, s, es, k), LastPoll(es, q, k)) <= limit)
  {
    if k > 0 {
      HomeOrCloser(p, node, g, s, q, es, k - 1);
      var limit := Deadline(p, node, g, s, q);
      if !HomeBy(p, s, es, k - 1, limit) {
        var before, e, last := After(p, s, es, k - 1), es[k - 1], LastPoll(es, q, k - 1);
        if e.what.Poll? {
          PollProgress(p, node, g, before, e, last);
        } else {
          OtherProgress(p, node, g, before, e, last);
        }
        if Home(After(p, s, es, k)) && e.at <= limit {
          assert HomeBy(p, s, es, k, limit);
        }
      } else {
        var m :| 0 < m <= k - 1 && Home(After(p, s, es, m)) && es[m - 1].at <= limit;
        assert HomeBy(p, s, es, k, limit);
      }
    }
  }

  // From every phase in which recovery owns PassWall, a helpful run that goes
  // on past the deadline has been home, in time.
  lemma NoTerminalPark(p: Policy, node: string, g: int, s: State, q: int, es: seq<Event>)
    requires HelpfulRun(p, node, g, s, q, es) && Coherent(s)
    requires es != [] && Deadline(p, node, g, s, q) < es[|es| - 1].at
    ensures HomeBy(p, s, es, |es|, Deadline(p, node, g, s, q))
  {
    var last := |es| - 1;
    HomeOrCloser(p, node, g, s, q, es, last);
    var limit := Deadline(p, node, g, s, q);
    if HomeBy(p, s, es, last, limit) {
      var m :| 0 < m <= last && Home(After(p, s, es, m)) && es[m - 1].at <= limit;
      assert HomeBy(p, s, es, |es|, limit);
    } else {
      DeadlineAhead(p, node, g, After(p, s, es, last), LastPoll(es, q, last));
    }
  }

  // From operator attention: one warmup and two poll gaps after both the last
  // retry is fifteen minutes old and the cached verdict has lapsed.
  lemma OperatorAttentionIsNotTerminal(p: Policy, node: string, g: int, s: State, q: int, es: seq<Event>)
    requires HelpfulRun(p, node, g, s, q, es)
    requires s.rec.phase == OperatorAttention && !s.passwall
    requires es != []
    requires q <= es[|es| - 1].at - p.passwallWarmup - 2 * g - 1
    requires s.rec.lastRetry.Some? ==>
               s.rec.lastRetry.value + PARKED_PROOF_RETRY + p.passwallWarmup + 2 * g < es[|es| - 1].at
    requires s.cache.at.Some? ==>
               s.cache.at.value + p.cooldown + p.passwallWarmup + 2 * g < es[|es| - 1].at
    ensures exists m :: 0 < m <= |es| && Home(After(p, s, es, m))
  {
    NoTerminalPark(p, node, g, s, q, es);
  }
}
