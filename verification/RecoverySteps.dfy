/** What one poll of control-plane recovery may change, field by field and
    phase by phase. The run lemmas reason from these facts alone. */
module RecoverySteps {
  import opened Wrappers
  import opened Recovery

  // From the state a poll finds to the state it has after probing.
  predicate Observed(s: State, o: State, in_: Reading, now: int) {
    && o.rec.lastContact == s.rec.lastContact
    && o.rec.lastRestart == s.rec.lastRestart
    && o.rec.lastReboot == s.rec.lastReboot
    && o.rec.lastRetry == s.rec.lastRetry
    && o.rec.awaiting == s.rec.awaiting
    && o.lastTransition == s.lastTransition
    && o.cache == s.cache
    && o.processStart == s.processStart
    && o.passwall == s.passwall
    && (if in_.panelFirst || s.rec.outageStart.Some?
        then o.rec.outageStart == s.rec.outageStart && o.rec.phase == s.rec.phase
        else && o.rec.outageStart.Some?
             && (o.rec.outageStart.value == now ||
                 (s.rec.lastContact.None? && o.rec.outageStart.value == s.processStart < now))
             && o.rec.phase == if s.rec.phase == Idle then Monitoring else s.rec.phase)
    && (o.groups == s.groups || (o.groups.Some? && o.groups.value.measuredAt == now))
  }

  predicate Resumed(r: Step, in_: Reading) { r.actions == [TurnOn] && in_.write == Written }

  predicate WentDirect(r: Step, in_: Reading) { r.actions == [TurnOff] && in_.write == Written }

  // Where each phase may go, and what it may do on the way.
  predicate PhaseMove(p: Policy, o: State, r: Step, in_: Reading, now: int) {
    var next := r.state.rec.phase;
    match o.rec.phase
    case Idle | Monitoring =>
      || ((next == o.rec.phase || next == Monitoring || next == ControllerRestartWait) && r.actions != [Reboot]
          && !Resumed(r, in_) && !WentDirect(r, in_))
      || (next == PasswallRetryWait && Resumed(r, in_))
      || (next == DirectSettle && WentDirect(r, in_))
    case ControllerRestartWait =>
      (next == ControllerRestartWait || next == Monitoring) && r.actions == []
    case DirectSettle =>
      || (next == DirectSettle && (r.actions == [] || r.actions == [TurnOn]) && !Resumed(r, in_))
      || (!Younger(now, o.lastTransition, p.directSettle) &&
          (|| (next == PasswallRetryWait && Resumed(r, in_))
           || (next == OperatorAttention && r.actions == [])
           || (next == RebootWait && r.actions == [Reboot])))
    case RebootWait =>
      next == PostRebootCheck && r.actions == []
    case PostRebootCheck =>
      || (&& next == PostRebootCheck && (r.actions == [] || r.actions == [TurnOn] || r.actions == [TurnOff])
          && !Resumed(r, in_) && !WentDirect(r, in_))
      || (!Younger(now, o.rec.lastReboot, p.postRebootSettle) &&
          (|| (next == PasswallRetryWait && Resumed(r, in_))
           || (next == OperatorAttention && (r.actions == [] || WentDirect(r, in_)))
           || (next == Idle && r.actions == [])))
    case PasswallRetryWait =>
      || (next == PasswallRetryWait && (r.actions == [] || r.actions == [TurnOff]) && !WentDirect(r, in_))
      || (!Younger(now, o.rec.lastRetry, p.passwallWarmup) &&
          (|| (next == OperatorAttention && (r.actions == [] || WentDirect(r, in_)))
           || (next == Idle && r.actions == [])))
    case OperatorAttention =>
      || (next == OperatorAttention && (r.actions == [] || r.actions == [TurnOn]) && !Resumed(r, in_))
      || (next == PasswallRetryWait && Resumed(r, in_))
      || (next == Idle && r.actions == [])
  }

  // A settling phase does nothing before its clock runs out.
  predicate Waits(p: Policy, o: State, r: Step, now: int) {
    (|| (o.rec.phase == DirectSettle && Younger(now, o.lastTransition, p.directSettle))
     || (o.rec.phase == PostRebootCheck && Younger(now, o.rec.lastReboot, p.postRebootSettle))
     || (o.rec.phase == PasswallRetryWait && Younger(now, o.rec.lastRetry, p.passwallWarmup)))
    ==> r.actions == [] && r.state == o && r.outcome.settle
  }

  // From the probed state to the end of the poll.
  predicate Acted(p: Policy, o: State, r: Step, in_: Reading, inv: Inventory, now: int) {
    && |r.actions| <= 1
    && r.state.rec.lastContact == o.rec.lastContact
    && r.state.rec.outageStart == o.rec.outageStart
    && r.state.rec.lastRestart == (if r.actions == [RestartAgent] then Some(now) else o.rec.lastRestart)
    && r.state.rec.lastReboot == (if r.actions == [Reboot] then Some(now) else o.rec.lastReboot)
    && r.state.rec.lastRetry == (if Resumed(r, in_) then Some(now) else o.rec.lastRetry)
    && (r.state.lastTransition == o.lastTransition || r.state.lastTransition == Some(now))
    && (Resumed(r, in_) || WentDirect(r, in_) ==>
          r.state.lastTransition == Some(now) && r.state.groups.None? && r.state.passwall == Resumed(r, in_))
    && (r.state.groups == o.groups || r.state.groups.None?)
    && (r.state.cache == o.cache ||
        (in_.node != Unjudged && r.state.cache == VerdictCache(inv.selectedNode, in_.node, Some(now))))
    && r.state.processStart == o.processStart
    && PhaseMove(p, o, r, in_, now)
    && Waits(p, o, r, now)
    && (r.state.rec.phase == OperatorAttention ==> r.state.rec.awaiting || o.rec.phase == OperatorAttention)
    && (o.rec.awaiting && r.state.rec.phase == o.rec.phase == OperatorAttention ==> r.state.rec.awaiting)
    && (r.state.rec.awaiting ==>
          (r.state.rec.phase == OperatorAttention || r.state.rec.phase == PasswallRetryWait) ||
          (o.rec.awaiting && o.rec.phase != OperatorAttention && o.rec.phase != PasswallRetryWait))
    && (RestartAgent in r.actions ==> !SinceOutage(o, o.rec.lastRestart) && OutageReady(p, o, now))
  }

  lemma ResumeActs(p: Policy, s: State, in_: Reading, inv: Inventory, now: int, reason: Reason, awaiting: bool)
    requires (s.rec.phase == Idle || s.rec.phase == Monitoring || s.rec.phase == OperatorAttention) ||
             (s.rec.phase == DirectSettle && !Younger(now, s.lastTransition, p.directSettle)) ||
             (s.rec.phase == PostRebootCheck && !Younger(now, s.rec.lastReboot, p.postRebootSettle))
    ensures Acted(p, s, Resume(s, in_, now, reason, awaiting), in_, inv, now)
  {
    match in_.write { case BatchFailed => case RestartFailed => case Written => }
  }

  lemma ParkActs(p: Policy, s: State, in_: Reading, inv: Inventory, now: int)
    requires (s.rec.phase == PasswallRetryWait && !Younger(now, s.rec.lastRetry, p.passwallWarmup)) ||
             (s.rec.phase == PostRebootCheck && !Younger(now, s.rec.lastReboot, p.postRebootSettle))
    ensures Acted(p, s, Park(s, in_, inv, now), in_, inv, now)
  {
    match in_.write { case BatchFailed => case RestartFailed => case Written => }
  }

  lemma FallbackActs(p: Policy, o: State, s: State, in_: Reading, inv: Inventory, now: int)
    requires (o.rec.phase == Idle || o.rec.phase == Monitoring)
    requires s == KeepVerdict(p, o, inv.selectedNode, in_.node, now)
    ensures var s2 := WriteSwitch(s.(lastTransition := Some(now)), false, in_.write, now);
            var skipped := Outcome(true, false, false, false);
            Acted(p, o, if in_.write != Written then Step(s2, skipped.(failed := true), [TurnOff])
                        else Step(SetPhase(s2, DirectSettle, SwitchedToDirect, false),
                                  skipped.(changed := true), [TurnOff]),
                  in_, inv, now)
  {
    match in_.write { case BatchFailed => case RestartFailed => case Written => }
  }

  lemma RestartActs(p: Policy, s: State, in_: Reading, inv: Inventory, now: int)
    requires (s.rec.phase == Idle || s.rec.phase == Monitoring) && OutageReady(p, s, now) && InternetHealthy(s)
    ensures var s1 := SetPhase(s, ControllerRestartWait, RestartScheduled, false);
            var skipped := Outcome(true, false, false, false);
            Acted(p, s, if SinceOutage(s, s.rec.lastRestart) then Step(s1, skipped, [])
                        else Step(s1.(rec := s1.rec.(lastRestart := Some(now)), groups := if in_.command then None else s1.groups),
                                  skipped.(failed := !in_.command), [RestartAgent]),
                  in_, inv, now)
  {
    if SinceOutage(s, s.rec.lastRestart) {
    } else {
    }
  }

  lemma StartActs(p: Policy, s: State, in_: Reading, inv: Inventory, foreign: Status, now: int)
    requires (s.rec.phase == Idle || s.rec.phase == Monitoring) && OutageReady(p, s, now)
    ensures Acted(p, s, StartRecovery(p, s, in_, inv, foreign, now), in_, inv, now)
  {
    if InternetHealthy(s) {
      RestartActs(p, s, in_, inv, now);
    } else if WantsDirect(foreign) && inv.passwallEnabled {
      if NodeVerdict(p, s, inv.selectedNode, in_.node, now) == NotAlive {
        FallbackActs(p, s, KeepVerdict(p, s, inv.selectedNode, in_.node, now), in_, inv, now);
      } else {
      }
    } else {
    }
  }

  lemma IdleActs(p: Policy, s: State, in_: Reading, inv: Inventory, foreign: Status, now: int)
    requires (s.rec.phase == Idle || s.rec.phase == Monitoring)
    ensures Acted(p, s, InIdleOrMonitoring(p, s, in_, inv, foreign, now), in_, inv, now)
  {
    if !in_.panelFirst && OutageReady(p, s, now) {
      StartActs(p, s, in_, inv, foreign, now);
    } else if in_.panelFirst && ResumesExternalDirect(p, s, in_, inv, now) {
      ResumeActs(p, s, in_, inv, now, AutoProxyRetry, false);
    }
  }

  lemma RebootActs(p: Policy, o: State, s: State, in_: Reading, inv: Inventory, now: int)
    requires o.rec.phase == DirectSettle && !Younger(now, o.lastTransition, p.directSettle)
    requires s == o || s == KeepVerdict(p, o, inv.selectedNode, in_.node, now)
    ensures Acted(p, o, TryReboot(p, s, in_, now), in_, inv, now)
  {
  }

  lemma ResumeAfterProbeActs(p: Policy, o: State, s: State, in_: Reading, inv: Inventory, now: int, reason: Reason, awaiting: bool)
    requires o.rec.phase == OperatorAttention ||
             (o.rec.phase == DirectSettle && !Younger(now, o.lastTransition, p.directSettle))
    requires s == o || s == KeepVerdict(p, o, inv.selectedNode, in_.node, now)
    ensures Acted(p, o, Resume(s, in_, now, reason, awaiting), in_, inv, now)
  {
    match in_.write { case BatchFailed => case RestartFailed => case Written => }
  }

  lemma DirectSettleActs(p: Policy, s: State, in_: Reading, inv: Inventory, ru: Status, now: int)
    requires s.rec.phase == DirectSettle
    ensures Acted(p, s, InDirectSettle(p, s, in_, inv, ru, now), in_, inv, now)
  {
    if Younger(now, s.lastTransition, p.directSettle) {
    } else if in_.panelFirst {
      ResumeAfterProbeActs(p, s, s, in_, inv, now, AutoProxyRetry, false);
    } else if !inv.passwallEnabled && ParkedProofReady(s, now) && !RuntimeBlocks(p, inv.runtime, now) {
      var s1 := KeepVerdict(p, s, inv.selectedNode, in_.node, now);
      if NodeVerdict(p, s, inv.selectedNode, in_.node, now) == Alive {
        ResumeAfterProbeActs(p, s, s1, in_, inv, now, ParkedProofRetry, false);
      } else {
        RebootActs(p, s, s1, in_, inv, now);
      }
    } else {
      RebootActs(p, s, s, in_, inv, now);
    }
  }

  // A settle clock still running: the poll does nothing.
  lemma SettlingActs(p: Policy, s: State, in_: Reading, inv: Inventory, now: int)
    requires s.rec.phase == PasswallRetryWait || s.rec.phase == PostRebootCheck
    ensures Acted(p, s, Step(s, Outcome(true, false, true, false), []), in_, inv, now)
  {
  }

  // Recovered, or not judged: back to idle, or waiting on.
  lemma RecoveredActs(p: Policy, s: State, in_: Reading, inv: Inventory, now: int)
    requires (s.rec.phase == PasswallRetryWait && !Younger(now, s.rec.lastRetry, p.passwallWarmup)) ||
             (s.rec.phase == PostRebootCheck && !Younger(now, s.rec.lastReboot, p.postRebootSettle))
    ensures forall reason :: Acted(p, s, Step(SetPhase(s, Idle, reason, false), Outcome(false, false, false, false), []), in_, inv, now)
    ensures Acted(p, s, Step(s, Outcome(true, false, false, false), []), in_, inv, now)
  {
  }

  lemma PostRebootActs(p: Policy, s: State, in_: Reading, inv: Inventory, ru: Status, foreign: Status, now: int)
    requires s.rec.phase == PostRebootCheck
    ensures Acted(p, s, InPostRebootCheck(p, s, in_, inv, ru, foreign, now), in_, inv, now)
  {
    if Younger(now, s.rec.lastReboot, p.postRebootSettle) {
      SettlingActs(p, s, in_, inv, now);
    } else if ru == Reachable && !inv.passwallEnabled {
      ResumeActs(p, s, in_, inv, now, RetryAfterReboot, false);
    } else {
      RecoveredActs(p, s, in_, inv, now);
      ParkActs(p, s, in_, inv, now);
    }
  }

  lemma RetryWaitActs(p: Policy, s: State, in_: Reading, inv: Inventory, foreign: Status, now: int)
    requires s.rec.phase == PasswallRetryWait
    ensures Acted(p, s, InPasswallRetryWait(p, s, in_, inv, foreign, now), in_, inv, now)
  {
    if Younger(now, s.rec.lastRetry, p.passwallWarmup) {
      SettlingActs(p, s, in_, inv, now);
    } else {
      RecoveredActs(p, s, in_, inv, now);
      ParkActs(p, s, in_, inv, now);
    }
  }

  lemma OperatorAttentionActs(p: Policy, s: State, in_: Reading, inv: Inventory, foreign: Status, now: int)
    requires s.rec.phase == OperatorAttention
    ensures Acted(p, s, InOperatorAttention(p, s, in_, inv, foreign, now), in_, inv, now)
  {
    if inv.passwallEnabled || !ParkedProofReady(s, now) || RuntimeBlocks(p, inv.runtime, now) {
    } else if !in_.panelFirst && BlindRetryReady(p, s, now) {
      ResumeAfterProbeActs(p, s, s, in_, inv, now, OperatorAttentionRetry, true);
    } else {
      var s1 := KeepVerdict(p, s, inv.selectedNode, in_.node, now);
      ResumeAfterProbeActs(p, s, s1, in_, inv, now, OperatorAttentionRetry, true);
    }
  }

  lemma ActFacts(p: Policy, seen: Seen, in_: Reading, inv: Inventory, now: int)
    ensures Acted(p, seen.state, Act(p, seen, in_, inv, now), in_, inv, now)
  {
    var s := seen.state;
    match s.rec.phase {
      case Idle | Monitoring => IdleActs(p, s, in_, inv, seen.foreign, now);
      case ControllerRestartWait =>
      case DirectSettle => DirectSettleActs(p, s, in_, inv, seen.ru, now);
      case RebootWait =>
      case PostRebootCheck => PostRebootActs(p, s, in_, inv, seen.ru, seen.foreign, now);
      case PasswallRetryWait => RetryWaitActs(p, s, in_, inv, seen.foreign, now);
      case OperatorAttention => OperatorAttentionActs(p, s, in_, inv, seen.foreign, now);
    }
  }

  // A poll grades what it measures itself, exactly when it needs the groups and
  // none are cached; cached ones it takes as they are; else it has no grades.
  lemma MeasuredGrades(p: Policy, s: State, in_: Reading, now: int)
    ensures var seen := Observe(p, s, in_, now);
            var needed := NeedsGroups(p, NoteOutage(s, in_, now), now);
            var cached := s.groups.Some? && now < s.groups.value.expiresAt;
            && (needed && !cached ==> Graded(in_, seen.ru, seen.foreign))
            && (needed && cached ==> seen.ru == s.groups.value.ru && seen.foreign == s.groups.value.foreign)
            && (!needed ==> seen.ru == Unset && seen.foreign == Unset)
            && (needed ==> seen.state.rec.ruStatus == seen.ru && seen.state.rec.foreignStatus == seen.foreign)
  {
    GradedExactly(in_);
  }

  lemma ObserveFacts(p: Policy, s: State, in_: Reading, now: int)
    ensures Observed(s, Observe(p, s, in_, now).state, in_, now)
  {
  }
}
