/** Runs of control-plane recovery: polls interleaved with panel contacts,
    ownership clears, switches made by others and restarts of the agent, and
    what holds over every such run. */
module RecoveryRuns {
  import opened Wrappers
  import opened Recovery
  import opened RecoverySteps

  datatype What =
    | Poll(in_: Reading)
    | Contact
    | Clear
      // The main switch written by local rescue, the runtime fail-safe, the
      // watchdog, a job or the owner.
    | Switched(enabled: bool, transition: bool, dropGroups: bool)
    | ProcessRestart

  datatype Event = Event(at: int, what: What)

  function Apply(p: Policy, s: State, e: Event): State {
    match e.what
    case Poll(in_) => Advance(p, s, in_, e.at).state
    case Contact => NoteContact(s, e.at)
    case Clear => ClearOwnership(s)
    case Switched(enabled, transition, dropGroups) =>
      s.(passwall := enabled,
         lastTransition := if transition then Some(e.at) else s.lastTransition,
         groups := if dropGroups then None else s.groups)
    case ProcessRestart =>
      s.(cache := VerdictCache("", NotAlive, None), groups := None, processStart := e.at)
  }

  // The state after the first `k` events.
  function After(p: Policy, s: State, es: seq<Event>, k: nat): State
    requires k <= |es|
  {
    if k == 0 then s else Apply(p, After(p, s, es, k - 1), es[k - 1])
  }

  function Taken(p: Policy, s: State, e: Event): seq<Action> {
    if e.what.Poll? then Advance(p, s, e.what.in_, e.at).actions else []
  }

  function ActionsAt(p: Policy, s: State, es: seq<Event>, k: nat): seq<Action>
    requires k < |es|
  {
    Taken(p, After(p, s, es, k), es[k])
  }

  predicate Monotone(es: seq<Event>) {
    forall i, j :: 0 <= i <= j < |es| ==> es[i].at <= es[j].at
  }

  predicate UpTo(t: Instant, now: int) { t.Some? ==> t.value <= now }

  // Nothing is recorded in the future, and an outage is never older than the
  // last contact.
  predicate Sane(s: State, now: int) {
    && UpTo(s.rec.lastContact, now) && UpTo(s.rec.outageStart, now) && UpTo(s.rec.lastRestart, now)
    && UpTo(s.rec.lastReboot, now) && UpTo(s.rec.lastRetry, now) && UpTo(s.lastTransition, now)
    && UpTo(s.cache.at, now)
    && s.processStart <= now
    && (s.groups.Some? ==> s.groups.value.measuredAt <= now)
    && (s.rec.outageStart.Some? && s.rec.lastContact.Some? ==> s.rec.lastContact.value <= s.rec.outageStart.value)
  }

  // A run: events in clock order, after everything the start state records.
  predicate Run(p: Policy, s: State, es: seq<Event>) {
    && p.Valid()
    && Monotone(es)
    && (es != [] ==> Sane(s, es[0].at))
  }

  // A poll as the step facts describe it: from `s` over the probed state `o`
  // to the result `r`. Without an inventory nothing moves.
  predicate Polled(p: Policy, s: State, o: State, r: Step, in_: Reading, now: int) {
    if in_.inventory.None? then o == r.state == s && r.actions == []
    else Observed(s, o, in_, now) && Acted(p, o, r, in_, in_.inventory.value, now)
  }

  lemma PollFacts(p: Policy, s: State, e: Event) returns (o: State, r: Step)
    requires e.what.Poll?
    ensures e.what.in_.inventory.Some? ==> o == Observe(p, s, e.what.in_, e.at).state
    ensures r == Advance(p, s, e.what.in_, e.at)
    ensures Apply(p, s, e) == r.state && Taken(p, s, e) == r.actions
    ensures Polled(p, s, o, r, e.what.in_, e.at)
  {
    var in_ := e.what.in_;
    r := Advance(p, s, in_, e.at);
    if in_.inventory.Some? {
      o := Observe(p, s, in_, e.at).state;
      ObserveFacts(p, s, in_, e.at);
      ActFacts(p, Observe(p, s, in_, e.at), in_, in_.inventory.value, e.at);
    } else {
      o := s;
    }
  }

  lemma SanePoll(p: Policy, s: State, o: State, r: Step, in_: Reading, now: int)
    requires Sane(s, now) && Polled(p, s, o, r, in_, now)
    ensures Sane(o, now) && Sane(r.state, now)
  {
  }

  lemma SaneContact(s: State, now: int)
    requires Sane(s, now)
    ensures Sane(NoteContact(s, now), now)
  {
  }

  lemma SaneClear(s: State, now: int)
    requires Sane(s, now)
    ensures Sane(ClearOwnership(s), now)
  {
  }

  lemma SaneElsewhere(p: Policy, s: State, e: Event)
    requires Sane(s, e.at) && (e.what.Switched? || e.what.ProcessRestart?)
    ensures Sane(Apply(p, s, e), e.at)
  {
  }

  lemma SaneAdvance(p: Policy, s: State, e: Event)
    requires Sane(s, e.at) && e.what.Poll?
    ensures Sane(Apply(p, s, e), e.at)
  {
    var o, r := PollFacts(p, s, e);
    SanePoll(p, s, o, r, e.what.in_, e.at);
  }

  lemma SaneStep(p: Policy, s: State, e: Event)
    requires Sane(s, e.at)
    ensures Sane(Apply(p, s, e), e.at)
  {
    match e.what {
      case Poll(_) => SaneAdvance(p, s, e);
      case Contact => SaneContact(s, e.at);
      case Clear => SaneClear(s, e.at);
      case _ => SaneElsewhere(p, s, e);
    }
  }

  lemma {:induction false} SaneRun(p: Policy, s: State, es: seq<Event>, k: nat)
    requires Run(p, s, es) && k < |es|
    ensures Sane(After(p, s, es, k), es[k].at)
  {
    if k > 0 {
      SaneRun(p, s, es, k - 1);
      SaneStep(p, After(p, s, es, k - 1), es[k - 1]);
    }
  }

  /* ---- What one poll may do ---- */

  lemma AtMostOneAction(p: Policy, s: State, in_: Reading, now: int)
    ensures |Advance(p, s, in_, now).actions| <= 1
  {
  }

  lemma GoesDirectExactly(p: Policy, seen: Seen, in_: Reading, inv: Inventory, now: int)
    requires OutageReady(p, seen.state, now) ==> seen.state.rec.ruStatus == seen.ru && seen.state.rec.foreignStatus == seen.foreign
    ensures var s := seen.state;
            TurnOff in Act(p, seen, in_, inv, now).actions <==>
            inv.passwallEnabled &&
            match s.rec.phase {
              case Idle | Monitoring =>
                !in_.panelFirst && OutageReady(p, s, now) && WantsDirect(seen.foreign) &&
                NodeVerdict(p, s, inv.selectedNode, in_.node, now) == NotAlive
              case PasswallRetryWait =>
                !Younger(now, s.rec.lastRetry, p.passwallWarmup) && seen.foreign != Healthy && in_.node == NotAlive
              case PostRebootCheck =>
                !Younger(now, s.rec.lastReboot, p.postRebootSettle) &&
                (seen.ru != Reachable || (seen.foreign != Healthy && in_.node == NotAlive))
              case _ => false
            }
  {
    var r := Act(p, seen, in_, inv, now);
    assert TurnOff in r.actions <==> r.actions == [TurnOff];
  }

  // Exactly when a poll switches PassWall off.
  lemma SwitchOffExactly(p: Policy, s: State, in_: Reading, now: int)
    requires in_.inventory.Some?
    ensures var inv := in_.inventory.value;
            var seen := Observe(p, s, in_, now);
            TurnOff in Advance(p, s, in_, now).actions <==>
            inv.passwallEnabled &&
            match seen.state.rec.phase {
              case Idle | Monitoring =>
                !in_.panelFirst && OutageReady(p, seen.state, now) && WantsDirect(seen.foreign) &&
                NodeVerdict(p, s, inv.selectedNode, in_.node, now) == NotAlive
              case PasswallRetryWait =>
                !Younger(now, s.rec.lastRetry, p.passwallWarmup) && seen.foreign != Healthy && in_.node == NotAlive
              case PostRebootCheck =>
                !Younger(now, s.rec.lastReboot, p.postRebootSettle) &&
                (seen.ru != Reachable || (seen.foreign != Healthy && in_.node == NotAlive))
              case _ => false
            }
  {
    GoesDirectExactly(p, Observe(p, s, in_, now), in_, in_.inventory.value, now);
    ObserveFacts(p, s, in_, now);
  }

  lemma ResumesExactly(p: Policy, seen: Seen, in_: Reading, inv: Inventory, now: int)
    ensures var s := seen.state;
            var alive := NodeVerdict(p, s, inv.selectedNode, in_.node, now) == Alive;
            TurnOn in Act(p, seen, in_, inv, now).actions <==>
            !inv.passwallEnabled && !RuntimeBlocks(p, inv.runtime, now) &&
            match s.rec.phase {
              case Idle | Monitoring => in_.panelFirst && BlindRetryReady(p, s, now)
              case DirectSettle =>
                !Younger(now, s.lastTransition, p.directSettle) &&
                if in_.panelFirst then seen.ru == Reachable && !SinceOutage(s, s.rec.lastRetry)
                else ParkedProofReady(s, now) && alive
              case PostRebootCheck =>
                !Younger(now, s.rec.lastReboot, p.postRebootSettle) && seen.ru == Reachable
              case OperatorAttention =>
                ParkedProofReady(s, now) && (alive || (!in_.panelFirst && BlindRetryReady(p, s, now)))
              case _ => false
            }
  {
    var r := Act(p, seen, in_, inv, now);
    assert TurnOn in r.actions <==> r.actions == [TurnOn];
  }

  // Exactly when a poll switches PassWall on.
  lemma SwitchOnExactly(p: Policy, s: State, in_: Reading, now: int)
    requires in_.inventory.Some?
    ensures var inv := in_.inventory.value;
            var seen := Observe(p, s, in_, now);
            var alive := NodeVerdict(p, s, inv.selectedNode, in_.node, now) == Alive;
            TurnOn in Advance(p, s, in_, now).actions <==>
            !inv.passwallEnabled && !RuntimeBlocks(p, inv.runtime, now) &&
            match seen.state.rec.phase {
              case Idle | Monitoring => in_.panelFirst && BlindRetryReady(p, s, now)
              case DirectSettle =>
                !Younger(now, s.lastTransition, p.directSettle) &&
                if in_.panelFirst then seen.ru == Reachable && !SinceOutage(s, s.rec.lastRetry)
                else ParkedProofReady(s, now) && alive
              case PostRebootCheck =>
                !Younger(now, s.rec.lastReboot, p.postRebootSettle) && seen.ru == Reachable
              case OperatorAttention =>
                ParkedProofReady(s, now) && (alive || (!in_.panelFirst && BlindRetryReady(p, s, now)))
              case _ => false
            }
  {
    ResumesExactly(p, Observe(p, s, in_, now), in_, in_.inventory.value, now);
    ObserveFacts(p, s, in_, now);
  }

  // Exactly when a poll reboots the router.
  lemma RebootExactly(p: Policy, s: State, in_: Reading, now: int)
    requires in_.inventory.Some?
    ensures var inv := in_.inventory.value;
            var seen := Observe(p, s, in_, now);
            Reboot in Advance(p, s, in_, now).actions <==>
            && s.rec.phase == DirectSettle
            && !Younger(now, s.lastTransition, p.directSettle)
            && !in_.panelFirst && !in_.panelAgain
            && (seen.foreign == Blocked || seen.ru == Blocked)
            && CanReboot(p, s, now)
            && !(!inv.passwallEnabled && ParkedProofReady(s, now) &&
                 (RuntimeBlocks(p, inv.runtime, now) ||
                  NodeVerdict(p, s, inv.selectedNode, in_.node, now) == Alive))
  {
    RebootsExactly(p, Observe(p, s, in_, now), in_, in_.inventory.value, now);
    ObserveFacts(p, s, in_, now);
  }

  lemma RebootsExactly(p: Policy, seen: Seen, in_: Reading, inv: Inventory, now: int)
    ensures var s := seen.state;
            Reboot in Act(p, seen, in_, inv, now).actions <==>
            && s.rec.phase == DirectSettle
            && !Younger(now, s.lastTransition, p.directSettle)
            && !in_.panelFirst && WantsReboot(s) && CanReboot(p, s, now)
            && !(!inv.passwallEnabled && ParkedProofReady(s, now) &&
                 (RuntimeBlocks(p, inv.runtime, now) || NodeVerdict(p, s, inv.selectedNode, in_.node, now) == Alive))
  {
    var r := Act(p, seen, in_, inv, now);
    ActFacts(p, seen, in_, inv, now);
    assert Reboot in r.actions <==> r.actions == [Reboot];
  }

  /* ---- Evidence: why PassWall was switched off ---- */

  // Exactly when a poll restarts the agent: the panel is silent for long enough
  // over a healthy internet, and no restart was made in this outage.
  lemma RestartExactly(p: Policy, s: State, in_: Reading, now: int)
    requires in_.inventory.Some?
    ensures var seen := Observe(p, s, in_, now);
            var rec := seen.state.rec;
            RestartAgent in Advance(p, s, in_, now).actions <==>
              && (rec.phase == Idle || rec.phase == Monitoring)
              && !in_.panelFirst
              && rec.outageStart.Some? && now - rec.outageStart.value >= p.panelOutageThreshold
              && rec.ruStatus == Reachable && (rec.foreignStatus == Unset || rec.foreignStatus == Healthy)
              && !(rec.lastRestart.Some? && rec.lastRestart.value >= rec.outageStart.value)
  {
    RestartsExactly(p, Observe(p, s, in_, now), in_, in_.inventory.value, now);
  }

  lemma RestartsExactly(p: Policy, seen: Seen, in_: Reading, inv: Inventory, now: int)
    ensures var s := seen.state;
            RestartAgent in Act(p, seen, in_, inv, now).actions <==>
              && (s.rec.phase == Idle || s.rec.phase == Monitoring)
              && !in_.panelFirst && OutageReady(p, s, now) && InternetHealthy(s) && !SinceOutage(s, s.rec.lastRestart)
  {
    var r := Act(p, seen, in_, inv, now);
    assert RestartAgent in r.actions <==> r.actions == [RestartAgent];
  }

  lemma IdleStaysExactly(p: Policy, s: State, in_: Reading, inv: Inventory, foreign: Status, now: int)
    requires s.rec.phase == Idle
    ensures var r := InIdleOrMonitoring(p, s, in_, inv, foreign, now);
            r.state.rec.phase == Idle <==>
            if in_.panelFirst then !(TurnOn in r.actions && in_.write == Written)
            else TurnOff in r.actions && in_.write != Written
  {
  }

  lemma ComesHomeExactly(p: Policy, seen: Seen, in_: Reading, inv: Inventory, now: int)
    ensures var s, r := seen.state, Act(p, seen, in_, inv, now);
            r.state.rec.phase == Idle <==>
            match s.rec.phase {
              case Idle =>
                if in_.panelFirst then !(TurnOn in r.actions && in_.write == Written)
                else TurnOff in r.actions && in_.write != Written
              case PostRebootCheck =>
                !Younger(now, s.rec.lastReboot, p.postRebootSettle) && seen.ru == Reachable && inv.passwallEnabled &&
                (seen.foreign == Healthy || in_.node == Alive)
              case PasswallRetryWait =>
                !Younger(now, s.rec.lastRetry, p.passwallWarmup) && (seen.foreign == Healthy || in_.node == Alive)
              case OperatorAttention => inv.passwallEnabled && seen.foreign == Healthy
              case _ => false
            }
  {
    var r := Act(p, seen, in_, inv, now);
    ActFacts(p, seen, in_, inv, now);
    match seen.state.rec.phase {
      case Idle => IdleStaysExactly(p, seen.state, in_, inv, seen.foreign, now);
      case PostRebootCheck => match in_.node { case Alive => case Unjudged => case NotAlive => }
      case PasswallRetryWait => match in_.node { case Alive => case Unjudged => case NotAlive => }
      case _ =>
    }
  }

  // Exactly when a poll ends in idle: it began there and moved nothing, the
  // internet works or the node answers, or someone else switched PassWall on.
  lemma HomeExactly(p: Policy, s: State, in_: Reading, now: int)
    requires in_.inventory.Some?
    ensures var inv := in_.inventory.value;
            var seen, r := Observe(p, s, in_, now), Advance(p, s, in_, now);
            r.state.rec.phase == Idle <==>
            match seen.state.rec.phase {
              case Idle =>
                if in_.panelFirst then !(TurnOn in r.actions && in_.write == Written)
                else TurnOff in r.actions && in_.write != Written
              case PostRebootCheck =>
                !Younger(now, s.rec.lastReboot, p.postRebootSettle) && seen.ru == Reachable && inv.passwallEnabled &&
                (seen.foreign == Healthy || in_.node == Alive)
              case PasswallRetryWait =>
                !Younger(now, s.rec.lastRetry, p.passwallWarmup) && (seen.foreign == Healthy || in_.node == Alive)
              case OperatorAttention => inv.passwallEnabled && seen.foreign == Healthy
              case _ => false
            }
  {
    ComesHomeExactly(p, Observe(p, s, in_, now), in_, in_.inventory.value, now);
    ObserveFacts(p, s, in_, now);
  }

  lemma ParksExactly(p: Policy, seen: Seen, in_: Reading, inv: Inventory, now: int)
    ensures var s, r := seen.state, Act(p, seen, in_, inv, now);
            var off := !inv.passwallEnabled || in_.write == Written;
            var blocked := RuntimeBlocks(p, inv.runtime, now);
            r.state.rec.phase == OperatorAttention <==>
            match s.rec.phase {
              case DirectSettle =>
                !Younger(now, s.lastTransition, p.directSettle) &&
                if in_.panelFirst then inv.passwallEnabled || seen.ru != Reachable || SinceOutage(s, s.rec.lastRetry) || blocked
                else !inv.passwallEnabled && ParkedProofReady(s, now) && blocked
              case PostRebootCheck =>
                !Younger(now, s.rec.lastReboot, p.postRebootSettle) &&
                if seen.ru != Reachable then off
                else if !inv.passwallEnabled then blocked
                else seen.foreign != Healthy && in_.node == NotAlive && off
              case PasswallRetryWait =>
                !Younger(now, s.rec.lastRetry, p.passwallWarmup) && seen.foreign != Healthy && in_.node == NotAlive && off
              case OperatorAttention =>
                !(inv.passwallEnabled && seen.foreign == Healthy) && !(TurnOn in r.actions && in_.write == Written)
              case _ => false
            }
  {
    var r := Act(p, seen, in_, inv, now);
    ActFacts(p, seen, in_, inv, now);
    assert TurnOn in r.actions <==> r.actions == [TurnOn];
    match seen.state.rec.phase {
      case DirectSettle => ParksFromDirect(p, seen.state, in_, inv, seen.ru, now);
      case PostRebootCheck => match in_.node { case Alive => case Unjudged => case NotAlive => }
      case PasswallRetryWait => match in_.node { case Alive => case Unjudged => case NotAlive => }
      case _ =>
    }
  }

  lemma ParksFromDirect(p: Policy, s: State, in_: Reading, inv: Inventory, ru: Status, now: int)
    requires s.rec.phase == DirectSettle
    ensures var blocked := RuntimeBlocks(p, inv.runtime, now);
            InDirectSettle(p, s, in_, inv, ru, now).state.rec.phase == OperatorAttention <==>
              && !Younger(now, s.lastTransition, p.directSettle)
              && if in_.panelFirst then inv.passwallEnabled || ru != Reachable || SinceOutage(s, s.rec.lastRetry) || blocked
                 else !inv.passwallEnabled && ParkedProofReady(s, now) && blocked
  {
  }

  // Exactly when a poll ends in operator attention, by what is on the router.
  lemma AttentionExactly(p: Policy, s: State, in_: Reading, now: int)
    requires in_.inventory.Some?
    ensures var inv := in_.inventory.value;
            var seen, r := Observe(p, s, in_, now), Advance(p, s, in_, now);
            var off := !inv.passwallEnabled || in_.write == Written;
            var blocked := RuntimeBlocks(p, inv.runtime, now);
            r.state.rec.phase == OperatorAttention <==>
            match seen.state.rec.phase {
              case DirectSettle =>
                !Younger(now, s.lastTransition, p.directSettle) &&
                if in_.panelFirst then inv.passwallEnabled || seen.ru != Reachable || SinceOutage(seen.state, s.rec.lastRetry) || blocked
                else !inv.passwallEnabled && ParkedProofReady(s, now) && blocked
              case PostRebootCheck =>
                !Younger(now, s.rec.lastReboot, p.postRebootSettle) &&
                if seen.ru != Reachable then off
                else if !inv.passwallEnabled then blocked
                else seen.foreign != Healthy && in_.node == NotAlive && off
              case PasswallRetryWait =>
                !Younger(now, s.rec.lastRetry, p.passwallWarmup) && seen.foreign != Healthy && in_.node == NotAlive && off
              case OperatorAttention =>
                !(inv.passwallEnabled && seen.foreign == Healthy) && !(TurnOn in r.actions && in_.write == Written)
              case _ => false
            }
  {
    ParksExactly(p, Observe(p, s, in_, now), in_, in_.inventory.value, now);
    ObserveFacts(p, s, in_, now);
  }

  predicate MeasuredBy(e: Event, node: string, verdict: Verdict) {
    e.what.Poll? && e.what.in_.inventory.Some? && e.what.in_.inventory.value.selectedNode == node &&
    e.what.in_.node == verdict
  }

  // The cache holds nothing that some poll of the run did not measure.
  predicate CacheMeasured(s: State, es: seq<Event>, k: nat)
    requires k <= |es|
  {
    s.cache.at.Some? ==>
      exists j :: 0 <= j < k && es[j].at == s.cache.at.value && MeasuredBy(es[j], s.cache.node, s.cache.verdict)
  }

  lemma CacheStep(p: Policy, s: State, e: Event)
    ensures var t := Apply(p, s, e);
            || t.cache == s.cache
            || t.cache.at.None?
            || (t.cache.at == Some(e.at) && MeasuredBy(e, t.cache.node, t.cache.verdict))
  {
    match e.what {
      case Poll(in_) => var o, r := PollFacts(p, s, e);
      case Contact =>
      case Clear =>
      case _ =>
    }
  }

  lemma {:induction false} CacheIsMeasured(p: Policy, s: State, es: seq<Event>, k: nat)
    requires s.cache.at.None? && k <= |es|
    ensures CacheMeasured(After(p, s, es, k), es, k)
  {
    if k > 0 {
      CacheIsMeasured(p, s, es, k - 1);
      CacheStep(p, After(p, s, es, k - 1), es[k - 1]);
    }
  }

  lemma ContactStep(p: Policy, s: State, e: Event)
    ensures Apply(p, s, e).rec.lastContact == if e.what.Contact? then Some(e.at) else s.rec.lastContact
  {
    match e.what {
      case Poll(in_) => var o, r := PollFacts(p, s, e);
      case Contact =>
      case Clear =>
      case _ =>
    }
  }

  lemma {:induction false} ContactsRecorded(p: Policy, s: State, es: seq<Event>, j: nat, k: nat)
    requires Run(p, s, es) && j < k <= |es| && es[j].what.Contact?
    ensures var c := After(p, s, es, k).rec.lastContact; c.Some? && es[j].at <= c.value
  {
    ContactStep(p, After(p, s, es, k - 1), es[k - 1]);
    if k - 1 > j {
      ContactsRecorded(p, s, es, j, k - 1);
    }
  }

  // The node was measured dead by this poll or one less than a cooldown ago.
  predicate MeasuredDead(p: Policy, es: seq<Event>, k: nat, node: string)
    requires k < |es|
  {
    exists j :: 0 <= j <= k && es[k].at - es[j].at < p.cooldown && MeasuredBy(es[j], node, NotAlive)
  }

  // No contact was made after the outage began.
  predicate Silent(es: seq<Event>, k: nat, since: int)
    requires k <= |es|
  {
    forall j :: 0 <= j < k && es[j].what.Contact? ==> es[j].at <= since
  }

  predicate PanelOutageEvidence(p: Policy, s: State, es: seq<Event>, k: nat)
    requires k < |es| && es[k].what.Poll? && es[k].what.in_.inventory.Some?
  {
    var in_, now := es[k].what.in_, es[k].at;
    var seen := Observe(p, s, in_, now);
    && !in_.panelFirst
    && OutageReady(p, seen.state, now)
    && Silent(es, k, seen.state.rec.outageStart.value)
    && WantsDirect(seen.foreign)
    && MeasuredDead(p, es, k, in_.inventory.value.selectedNode)
  }

  predicate WarmupEvidence(p: Policy, s: State, in_: Reading, now: int) {
    && s.rec.phase == PasswallRetryWait
    && !Younger(now, s.rec.lastRetry, p.passwallWarmup)
    && Observe(p, s, in_, now).foreign != Healthy
    && in_.node == NotAlive
  }

  predicate PostRebootEvidence(p: Policy, s: State, in_: Reading, now: int) {
    var seen := Observe(p, s, in_, now);
    && s.rec.phase == PostRebootCheck
    && !Younger(now, s.rec.lastReboot, p.postRebootSettle)
    && (seen.ru != Reachable || (seen.foreign != Healthy && in_.node == NotAlive))
  }

  // Over every run: PassWall is switched off only over a dead node in a real
  // panel outage, after a failed warmup, or after a failed reboot.
  lemma DirectOnlyOnEvidence(p: Policy, s: State, es: seq<Event>, k: nat)
    requires Run(p, s, es) && s.cache.at.None? && k < |es|
    requires TurnOff in ActionsAt(p, s, es, k)
    ensures es[k].what.Poll? && es[k].what.in_.inventory.Some?
    ensures var before, in_, now := After(p, s, es, k), es[k].what.in_, es[k].at;
            && in_.inventory.value.passwallEnabled
            && (|| PanelOutageEvidence(p, before, es, k)
                || WarmupEvidence(p, before, in_, now)
                || PostRebootEvidence(p, before, in_, now))
  {
    var before, in_, now := After(p, s, es, k), es[k].what.in_, es[k].at;
    SwitchOffExactly(p, before, in_, now);
    SaneRun(p, s, es, k);
    var seen := Observe(p, before, in_, now);
    if seen.state.rec.phase == Idle || seen.state.rec.phase == Monitoring {
      var node := in_.inventory.value.selectedNode;
      CacheIsMeasured(p, s, es, k);
      assert MeasuredDead(p, es, k, node) by {
        if VerdictFresh(p, before, node, now) {
          var j :| 0 <= j < k && es[j].at == before.cache.at.value
                   && MeasuredBy(es[j], before.cache.node, before.cache.verdict);
        } else {
          assert MeasuredBy(es[k], node, NotAlive);
        }
      }
      forall j | 0 <= j < k && es[j].what.Contact?
        ensures es[j].at <= seen.state.rec.outageStart.value
      {
        ContactsRecorded(p, s, es, j, k);
      }
    }
  }

  predicate BeforeAnyDirect(phase: Phase) {
    phase == Idle || phase == Monitoring || phase == ControllerRestartWait || phase == PasswallRetryWait
  }

  predicate NodeNeverDead(es: seq<Event>) {
    forall j :: 0 <= j < |es| && es[j].what.Poll? ==> es[j].what.in_.node != NotAlive
  }

  predicate Untouched(s: State) {
    BeforeAnyDirect(s.rec.phase) && (s.cache.at.Some? ==> s.cache.verdict == Alive)
  }

  lemma LiveNodeStep(p: Policy, s: State, e: Event)
    requires Untouched(s) && (e.what.Poll? ==> e.what.in_.node != NotAlive)
    ensures Untouched(Apply(p, s, e))
    ensures TurnOff !in Taken(p, s, e) && Reboot !in Taken(p, s, e)
  {
    match e.what {
      case Poll(in_) =>
        var o, r := PollFacts(p, s, e);
        if in_.inventory.Some? {
          SwitchOffExactly(p, s, in_, e.at);
          assert TurnOff !in r.actions;
        }
      case Contact =>
      case Clear =>
      case _ =>
    }
  }

  // A panel outage alone never costs the VPN: as long as no probe finds the
  // node dead, recovery neither switches PassWall off nor reboots, whatever
  // the panel, the RU and foreign probes, the owner and the clock do.
  lemma {:induction false} LiveNodeKeepsTheVpn(p: Policy, s: State, es: seq<Event>, k: nat)
    requires k <= |es| && NodeNeverDead(es)
    requires BeforeAnyDirect(s.rec.phase) && s.cache.at.None?
    ensures Untouched(After(p, s, es, k))
    ensures k < |es| ==> TurnOff !in ActionsAt(p, s, es, k) && Reboot !in ActionsAt(p, s, es, k)
  {
    if k > 0 {
      LiveNodeKeepsTheVpn(p, s, es, k - 1);
      LiveNodeStep(p, After(p, s, es, k - 1), es[k - 1]);
    }
    if k < |es| {
      LiveNodeStep(p, After(p, s, es, k), es[k]);
    }
  }

  predicate OutsideItsPhases(phase: Phase) {
    phase == Idle || phase == Monitoring || phase == ControllerRestartWait
  }

  // A poll that finds the panel down and PassWall off.
  predicate PanelDownVpnOff(e: Event) {
    e.what.Poll? ==>
      !e.what.in_.panelFirst && (e.what.in_.inventory.Some? ==> !e.what.in_.inventory.value.passwallEnabled)
  }

  lemma DeadPanelStep(p: Policy, s: State, e: Event)
    requires OutsideItsPhases(s.rec.phase) && PanelDownVpnOff(e)
    ensures OutsideItsPhases(Apply(p, s, e).rec.phase)
    ensures TurnOn !in Taken(p, s, e)
  {
    match e.what {
      case Poll(in_) =>
        var o, r := PollFacts(p, s, e);
        if in_.inventory.Some? {
          SwitchOnExactly(p, s, in_, e.at);
          SwitchOffExactly(p, s, in_, e.at);
          assert TurnOn !in r.actions && TurnOff !in r.actions;
        }
      case Contact =>
      case Clear =>
      case _ =>
    }
  }

  // The other side of it: outside its own phases recovery gives PassWall back
  // only to a panel that answers. With the panel down it leaves a switched-off
  // PassWall off for good, even over a node that answers every probe.
  lemma {:induction false} DeadPanelLeavesExternalDirect(p: Policy, s: State, es: seq<Event>, k: nat)
    requires k <= |es| && OutsideItsPhases(s.rec.phase)
    requires forall j :: 0 <= j < |es| ==> PanelDownVpnOff(es[j])
    ensures OutsideItsPhases(After(p, s, es, k).rec.phase)
    ensures k < |es| ==> TurnOn !in ActionsAt(p, s, es, k)
  {
    if k > 0 {
      DeadPanelLeavesExternalDirect(p, s, es, k - 1);
      DeadPanelStep(p, After(p, s, es, k - 1), es[k - 1]);
    }
    if k < |es| {
      DeadPanelStep(p, After(p, s, es, k), es[k]);
    }
  }

  /* ---- Budgets ---- */

  lemma RebootStep(p: Policy, s: State, e: Event)
    ensures Apply(p, s, e).rec.lastReboot == if Reboot in Taken(p, s, e) then Some(e.at) else s.rec.lastReboot
  {
    match e.what {
      case Poll(in_) =>
        var o, r := PollFacts(p, s, e);
        assert Reboot in r.actions <==> r.actions == [Reboot];
      case Contact =>
      case Clear =>
      case _ =>
    }
  }

  // A clock set at every hit and otherwise left alone.
  predicate Clocked(clock: seq<Option<int>>, hits: seq<bool>, es: seq<Event>) {
    && |clock| == |es| + 1 && |hits| == |es|
    && forall m :: 0 <= m < |es| ==> clock[m + 1] == if hits[m] then Some(es[m].at) else clock[m]
  }

  lemma {:induction false} ClockRemembers(clock: seq<Option<int>>, hits: seq<bool>, es: seq<Event>, i: nat, k: nat)
    requires Clocked(clock, hits, es) && Monotone(es) && i < k <= |es| && hits[i]
    ensures clock[k].Some? && es[i].at <= clock[k].value
  {
    assert clock[k - 1 + 1] == if hits[k - 1] then Some(es[k - 1].at) else clock[k - 1];
    if k - 1 > i {
      ClockRemembers(clock, hits, es, i, k - 1);
    }
  }

  // The states of a run, one after the other.
  predicate Trace(p: Policy, es: seq<Event>, tr: seq<State>) {
    |tr| == |es| + 1 && forall m :: 0 <= m < |es| ==> tr[m + 1] == Apply(p, tr[m], es[m])
  }

  lemma TraceOf(p: Policy, s: State, es: seq<Event>) returns (tr: seq<State>)
    ensures Trace(p, es, tr) && forall k :: 0 <= k < |tr| ==> tr[k] == After(p, s, es, k)
  {
    tr := seq(|es| + 1, k requires 0 <= k < |es| + 1 => After(p, s, es, k));
  }

  lemma SaneTrace(p: Policy, s: State, es: seq<Event>) returns (tr: seq<State>)
    requires Run(p, s, es)
    ensures Trace(p, es, tr) && forall k :: 0 <= k < |tr| ==> tr[k] == After(p, s, es, k)
    ensures forall m :: 0 <= m < |es| ==> Sane(tr[m], es[m].at)
  {
    tr := TraceOf(p, s, es);
    forall m | 0 <= m < |es|
      ensures Sane(tr[m], es[m].at)
    {
      SaneRun(p, s, es, m);
    }
  }

  lemma RebootClock(p: Policy, es: seq<Event>, tr: seq<State>) returns (clock: seq<Option<int>>, hits: seq<bool>)
    requires Trace(p, es, tr)
    ensures Clocked(clock, hits, es)
    ensures forall m :: 0 <= m < |clock| ==> clock[m] == tr[m].rec.lastReboot
    ensures forall m :: 0 <= m < |hits| ==> hits[m] == (Reboot in Taken(p, tr[m], es[m]))
  {
    clock := seq(|tr|, m requires 0 <= m < |tr| => tr[m].rec.lastReboot);
    hits := seq(|es|, m requires 0 <= m < |es| => Reboot in Taken(p, tr[m], es[m]));
    forall m | 0 <= m < |es|
      ensures tr[m + 1].rec.lastReboot == if hits[m] then Some(es[m].at) else tr[m].rec.lastReboot
    {
      RebootStep(p, tr[m], es[m]);
    }
  }

  lemma RebootsRecorded(p: Policy, s: State, es: seq<Event>, i: nat, k: nat)
    requires Run(p, s, es) && i < k <= |es| && Reboot in ActionsAt(p, s, es, i)
    ensures var r := After(p, s, es, k).rec.lastReboot; r.Some? && es[i].at <= r.value
  {
    var tr := TraceOf(p, s, es);
    var clock, hits := RebootClock(p, es, tr);
    ClockRemembers(clock, hits, es, i, k);
  }

  // Automatic reboots are at least a cooldown apart, ownership clears included.
  lemma RebootsApart(p: Policy, s: State, es: seq<Event>, i: nat, j: nat)
    requires Run(p, s, es) && i < j < |es|
    requires Reboot in ActionsAt(p, s, es, i) && Reboot in ActionsAt(p, s, es, j)
    ensures es[j].at - es[i].at >= p.rebootCooldown
  {
    RebootsRecorded(p, s, es, i, j);
    RebootExactly(p, After(p, s, es, j), es[j].what.in_, es[j].at);
  }

  predicate SameOutage(es: seq<Event>, i: nat, j: nat)
    requires i <= j <= |es|
  {
    forall m :: i <= m < j ==> !es[m].what.Contact? && !es[m].what.Clear?
  }

  lemma RestartPoll(p: Policy, s: State, o: State, r: Step, in_: Reading, now: int)
    requires Sane(s, now) && Polled(p, s, o, r, in_, now)
    requires r.actions == [RestartAgent] || SinceOutage(s, s.rec.lastRestart)
    ensures SinceOutage(r.state, r.state.rec.lastRestart)
    ensures SinceOutage(s, s.rec.lastRestart) ==> r.actions != [RestartAgent]
  {
    if r.actions == [RestartAgent] {
      assert RestartAgent in r.actions;
    }
    SanePoll(p, s, o, r, in_, now);
  }

  lemma RestartStep(p: Policy, s: State, e: Event)
    requires Sane(s, e.at) && !e.what.Contact? && !e.what.Clear?
    requires RestartAgent in Taken(p, s, e) || SinceOutage(s, s.rec.lastRestart)
    ensures SinceOutage(Apply(p, s, e), Apply(p, s, e).rec.lastRestart)
    ensures SinceOutage(s, s.rec.lastRestart) ==> RestartAgent !in Taken(p, s, e)
  {
    match e.what {
      case Poll(in_) =>
        var o, r := PollFacts(p, s, e);
        assert RestartAgent in r.actions <==> r.actions == [RestartAgent];
        RestartPoll(p, s, o, r, in_, e.at);
      case _ =>
    }
  }

  // A flag up at i and carried on from there up to k.
  predicate Carried(flags: seq<bool>, i: nat, k: nat) {
    i <= k < |flags| && flags[i] && forall m :: i <= m < k && flags[m] ==> flags[m + 1]
  }

  lemma {:induction false} FlagCarries(flags: seq<bool>, i: nat, k: nat)
    requires Carried(flags, i, k)
    ensures flags[k]
  {
    if i < k {
      FlagCarries(flags, i, k - 1);
      assert flags[k - 1 + 1];
    }
  }

  predicate Restarted(s: State) { SinceOutage(s, s.rec.lastRestart) }

  lemma RestartFlags(p: Policy, es: seq<Event>, tr: seq<State>, i: nat, k: nat) returns (flags: seq<bool>)
    requires Trace(p, es, tr) && i < k <= |es| && SameOutage(es, i, k)
    requires forall m :: 0 <= m < |es| ==> Sane(tr[m], es[m].at)
    requires RestartAgent in Taken(p, tr[i], es[i])
    ensures Carried(flags, i + 1, k) && flags[k] == Restarted(tr[k])
  {
    flags := seq(|tr|, m requires 0 <= m < |tr| => Restarted(tr[m]));
    RestartStep(p, tr[i], es[i]);
    forall m | i < m < k && flags[m]
      ensures flags[m + 1]
    {
      RestartStep(p, tr[m], es[m]);
    }
  }

  lemma RestartRemembered(p: Policy, s: State, es: seq<Event>, i: nat, k: nat)
    requires Run(p, s, es) && i < k <= |es| && SameOutage(es, i, k)
    requires RestartAgent in ActionsAt(p, s, es, i)
    ensures Restarted(After(p, s, es, k))
  {
    var tr := SaneTrace(p, s, es);
    var flags := RestartFlags(p, es, tr, i, k);
    FlagCarries(flags, i + 1, k);
  }

  // One controller restart an outage: between two of them the panel was
  // reached or recovery was cleared.
  lemma OneRestartPerOutage(p: Policy, s: State, es: seq<Event>, i: nat, j: nat)
    requires Run(p, s, es) && i < j < |es|
    requires RestartAgent in ActionsAt(p, s, es, i) && RestartAgent in ActionsAt(p, s, es, j)
    ensures !SameOutage(es, i, j)
  {
    if SameOutage(es, i, j) {
      RestartRemembered(p, s, es, i, j);
      SaneRun(p, s, es, j);
      RestartStep(p, After(p, s, es, j), es[j]);
    }
  }

  /* ---- Dwell times ---- */

  // Until when the state waits out its settle or warmup clock.
  function SettledUntil(p: Policy, s: State): Option<int> {
    match s.rec.phase
    case PasswallRetryWait => if s.rec.lastRetry.Some? then Some(s.rec.lastRetry.value + p.passwallWarmup) else None
    case RebootWait | PostRebootCheck =>
      if s.rec.lastReboot.Some? then Some(s.rec.lastReboot.value + p.postRebootSettle) else None
    case DirectSettle => if s.lastTransition.Some? then Some(s.lastTransition.value + p.directSettle) else None
    case _ => None
  }

  predicate SettlesPast(p: Policy, s: State, t: int) {
    SettledUntil(p, s).Some? && t <= SettledUntil(p, s).value
  }

  lemma SettlingHoldsAtPoll(p: Policy, s: State, e: Event, t: int)
    requires Sane(s, e.at) && SettlesPast(p, s, t) && e.at < t && e.what.Poll?
    ensures SettlesPast(p, Apply(p, s, e), t)
    ensures Taken(p, s, e) == []
  {
    var o, r := PollFacts(p, s, e);
    assert SettlesPast(p, o, t);
  }

  // The clocks a settling state waits for are not set back.
  lemma SettlingStays(p: Policy, s: State, s1: State, now: int, t: int)
    requires Sane(s, now) && SettlesPast(p, s, t) && s1.rec.phase == s.rec.phase
    requires s1.rec.lastRetry == s.rec.lastRetry && s1.rec.lastReboot == s.rec.lastReboot
    requires s1.lastTransition == s.lastTransition || s1.lastTransition == Some(now)
    ensures SettlesPast(p, s1, t)
  {
  }

  lemma SettlingHoldsElse(p: Policy, s: State, e: Event, t: int)
    requires Sane(s, e.at) && SettlesPast(p, s, t) && !e.what.Poll? && !e.what.Clear?
    ensures SettlesPast(p, Apply(p, s, e), t)
  {
    var s1 := if e.what.Contact? then NoteContact(s, e.at) else Apply(p, s, e);
    SettlingStays(p, s, s1, e.at, t);
  }

  // Before its clock runs out, no event but a clear moves a settling state.
  lemma SettlingHolds(p: Policy, s: State, e: Event, t: int)
    requires Sane(s, e.at) && SettlesPast(p, s, t) && e.at < t && !e.what.Clear?
    ensures SettlesPast(p, Apply(p, s, e), t)
    ensures Taken(p, s, e) == []
  {
    if e.what.Poll? {
      SettlingHoldsAtPoll(p, s, e, t);
    } else {
      SettlingHoldsElse(p, s, e, t);
    }
  }

  // The settling time a poll's action starts.
  function Dwell(p: Policy, s: State, e: Event): int {
    var actions := Taken(p, s, e);
    if Reboot in actions then p.postRebootSettle
    else if TurnOn in actions && e.what.in_.write == Written then p.passwallWarmup
    else if TurnOff in actions && e.what.in_.write == Written && s.rec.phase in {Idle, Monitoring} then p.directSettle
    else 0
  }

  lemma DwellStarts(p: Policy, s: State, e: Event)
    requires p.Valid() && Dwell(p, s, e) > 0
    ensures SettlesPast(p, Apply(p, s, e), e.at + Dwell(p, s, e))
  {
    var in_ := e.what.in_;
    var o, r := PollFacts(p, s, e);
    if Reboot in r.actions {
      assert r.actions == [Reboot];
    } else if TurnOn in r.actions {
      assert r.actions == [TurnOn];
    } else {
      assert r.actions == [TurnOff];
    }
  }

  lemma {:induction false} SettlesOn(p: Policy, es: seq<Event>, tr: seq<State>, j: nat, k: nat, t: int)
    requires Trace(p, es, tr) && j <= k <= |es| && SettlesPast(p, tr[j], t)
    requires forall m :: j <= m < k ==> !es[m].what.Clear? && es[m].at < t && Sane(tr[m], es[m].at)
    ensures SettlesPast(p, tr[k], t)
  {
    if j < k {
      SettlesOn(p, es, tr, j, k - 1, t);
      SettlingHolds(p, tr[k - 1], es[k - 1], t);
      assert tr[k - 1 + 1] == Apply(p, tr[k - 1], es[k - 1]);
    }
  }

  lemma DwellHolds(p: Policy, s: State, es: seq<Event>, i: nat, k: nat)
    requires Run(p, s, es) && i < k <= |es|
    requires Dwell(p, After(p, s, es, i), es[i]) > 0
    requires forall m :: i < m < k ==> !es[m].what.Clear?
    requires es[k - 1].at < es[i].at + Dwell(p, After(p, s, es, i), es[i])
    ensures SettlesPast(p, After(p, s, es, k), es[i].at + Dwell(p, After(p, s, es, i), es[i]))
  {
    var tr := SaneTrace(p, s, es);
    DwellStarts(p, tr[i], es[i]);
    SettlesOn(p, es, tr, i + 1, k, es[i].at + Dwell(p, tr[i], es[i]));
  }

  // No switch, restart or reboot by recovery within the warmup of a resume,
  // the post-reboot settle of a reboot or the direct settle of an outage
  // fallback, unless its ownership is cleared.
  lemma NothingMovesWhileSettling(p: Policy, s: State, es: seq<Event>, i: nat, j: nat)
    requires Run(p, s, es) && i < j < |es|
    requires forall m :: i < m < j ==> !es[m].what.Clear?
    requires es[j].at - es[i].at < Dwell(p, After(p, s, es, i), es[i])
    ensures ActionsAt(p, s, es, j) == []
  {
    var t := es[i].at + Dwell(p, After(p, s, es, i), es[i]);
    DwellHolds(p, s, es, i, j);
    SaneRun(p, s, es, j);
    if es[j].what.Poll? {
      SettlingHolds(p, After(p, s, es, j), es[j], t);
    }
  }

  /* ---- The operator flag ---- */

  predicate FlagTruthful(s: State) {
    && (s.rec.phase == OperatorAttention ==> s.rec.awaiting)
    && (s.rec.awaiting ==> s.rec.phase == OperatorAttention || s.rec.phase == PasswallRetryWait)
  }

  lemma FlagStep(p: Policy, s: State, e: Event)
    requires FlagTruthful(s)
    ensures FlagTruthful(Apply(p, s, e))
  {
    match e.what {
      case Poll(in_) => var o, r := PollFacts(p, s, e);
      case Contact =>
      case Clear =>
      case _ =>
    }
  }

  lemma {:induction false} AwaitingOperatorIsTruthful(p: Policy, s: State, es: seq<Event>, k: nat)
    requires FlagTruthful(s) && k <= |es|
    ensures FlagTruthful(After(p, s, es, k))
  {
    if k > 0 {
      AwaitingOperatorIsTruthful(p, s, es, k - 1);
      FlagStep(p, After(p, s, es, k - 1), es[k - 1]);
    }
  }

  /* ---- Which reading a retry is judged by ---- */

  // Groups kept during a retry were measured after the resume.
  predicate GroupsAfterResume(s: State) {
    s.rec.phase == PasswallRetryWait ==>
      && s.rec.lastRetry.Some?
      && (s.groups.Some? ==> s.groups.value.measuredAt >= s.rec.lastRetry.value)
  }

  lemma GroupsStepAtPoll(p: Policy, s: State, e: Event)
    requires Sane(s, e.at) && GroupsAfterResume(s) && e.what.Poll?
    ensures GroupsAfterResume(Apply(p, s, e))
  {
    var o, r := PollFacts(p, s, e);
    assert GroupsAfterResume(o);
  }

  lemma GroupsStep(p: Policy, s: State, e: Event)
    requires Sane(s, e.at) && GroupsAfterResume(s)
    ensures GroupsAfterResume(Apply(p, s, e))
  {
    match e.what {
      case Poll(_) => GroupsStepAtPoll(p, s, e);
      case Contact =>
      case Clear =>
      case _ =>
    }
  }

  lemma {:induction false} RetryJudgedAfterResume(p: Policy, s: State, es: seq<Event>, k: nat)
    requires Run(p, s, es) && GroupsAfterResume(s) && k <= |es|
    ensures GroupsAfterResume(After(p, s, es, k))
  {
    if k > 0 {
      RetryJudgedAfterResume(p, s, es, k - 1);
      SaneRun(p, s, es, k - 1);
      GroupsStep(p, After(p, s, es, k - 1), es[k - 1]);
    }
  }

  // The warmup of a retry, up to `end`: what is cached was measured before.
  predicate Warming(p: Policy, s: State, end: int) {
    && s.rec.phase == PasswallRetryWait && s.rec.lastRetry.Some? && end == s.rec.lastRetry.value + p.passwallWarmup
    && (s.groups.Some? ==> s.groups.value.measuredAt < end && s.groups.value.expiresAt == s.groups.value.measuredAt + p.probeCacheTTL)
  }

  lemma WarmingStep(p: Policy, s: State, e: Event, end: int)
    requires p.Valid() && Warming(p, s, end) && !e.what.Clear? && s.rec.lastRetry.value <= e.at < end
    ensures Warming(p, Apply(p, s, e), end) && Apply(p, s, e).rec.lastRetry == s.rec.lastRetry
  {
    match e.what {
      case Poll(in_) =>
        if in_.inventory.Some? {
          assert Advance(p, s, in_, e.at).state == Observe(p, s, in_, e.at).state;
        }
      case Contact =>
      case _ =>
    }
  }

  lemma {:induction false} WarmingRun(p: Policy, s: State, es: seq<Event>, end: int, k: nat)
    requires p.Valid() && Warming(p, s, end) && k <= |es|
    requires forall m :: 0 <= m < |es| ==> !es[m].what.Clear? && s.rec.lastRetry.value <= es[m].at < end
    ensures Warming(p, After(p, s, es, k), end) && After(p, s, es, k).rec.lastRetry == s.rec.lastRetry
  {
    if k > 0 {
      WarmingRun(p, s, es, end, k - 1);
      WarmingStep(p, After(p, s, es, k - 1), es[k - 1], end);
    }
  }

  lemma JudgedBy(p: Policy, w: State, end: int, last: Reading, q: int)
    requires p.Valid() && Warming(p, w, end) && q >= end
    ensures var g := Observe(p, w, last, q).state.groups;
            && g.Some?
            && (g.value.measuredAt < end <==> w.groups.Some? && q - w.groups.value.measuredAt < p.probeCacheTTL)
            && g == if g.value.measuredAt < end then w.groups
                    else Some(Groups(RuStatus(last.ruHits), ForeignStatus(last.foreignHits), q, q + p.probeCacheTTL))
  {
  }

  // But not after the warmup: whatever happens during it, the poll that judges
  // the retry does so by the last reading taken during the warmup, exactly when
  // there is one still cached that is younger than the cache's lifetime; else
  // by its own.
  lemma RetryJudgedOnWarmupReading(p: Policy, s: State, es: seq<Event>, end: int, last: Reading, q: int)
    requires p.Valid() && Warming(p, s, end) && last.inventory.Some? && q >= end
    requires forall m :: 0 <= m < |es| ==> !es[m].what.Clear? && s.rec.lastRetry.value <= es[m].at < end
    ensures var w := After(p, s, es, |es|);
            var g := Observe(p, w, last, q).state.groups;
            && w.rec.phase == PasswallRetryWait && g.Some?
            && (g.value.measuredAt < end <==> w.groups.Some? && q - w.groups.value.measuredAt < p.probeCacheTTL)
            && g == if g.value.measuredAt < end then w.groups
                    else Some(Groups(RuStatus(last.ruHits), ForeignStatus(last.foreignHits), q, q + p.probeCacheTTL))
  {
    WarmingRun(p, s, es, end, |es|);
    JudgedBy(p, After(p, s, es, |es|), end, last, q);
  }

  // And a poll during the warmup takes such a reading, so the case arises.
  lemma WarmupPollReads(p: Policy, s: State, in_: Reading, at: int)
    requires p.Valid() && s.rec.phase == PasswallRetryWait && s.rec.lastRetry.Some? && s.groups.None? && in_.inventory.Some?
    requires s.rec.lastRetry.value <= at < s.rec.lastRetry.value + p.passwallWarmup
    ensures Apply(p, s, Event(at, Poll(in_))).groups ==
            Some(Groups(RuStatus(in_.ruHits), ForeignStatus(in_.foreignHits), at, at + p.probeCacheTTL))
  {
    assert Advance(p, s, in_, at).state == Observe(p, s, in_, at).state;
  }
}
