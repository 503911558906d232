/** The agent's side of control-plane recovery: the fields it updates in place
    and the methods that update them, each proved against the model. */
module RecoveryAgent {
  import opened Wrappers
  import opened Recovery

  // The probe loop: count the targets that answered, then grade the group.
  method SummarizeReachabilityProbe(results: seq<bool>, full: Status, partial: Status, fullAt: nat, partialAt: nat)
    returns (status: Status)
    ensures status == GroupStatus(results, full, partial, fullAt, partialAt)
    ensures var answered := multiset(results)[true];
            status == if results == [] then Unset
                      else if answered >= fullAt then full
                      else if partial != Unset && answered >= partialAt then partial
                      else Blocked
  {
    if |results| == 0 {
      return Unset;
    }
    var reachableCount := 0;
    for index := 0 to |results|
      invariant reachableCount == Hits(results[..index])
    {
      assert results[..index + 1][..index] == results[..index];
      if results[index] {
        reachableCount := reachableCount + 1;
      }
    }
    assert results[..|results|] == results;
    status := Blocked;
    if reachableCount >= fullAt {
      status := full;
    } else if partial != Unset && reachableCount >= partialAt {
      status := partial;
    }
  }

  class Agent {
    const policy: Policy
    var recoveryState: Record
    var lastTransition: Instant          // rescueState.LastTransitionAt
    var verdictCache: VerdictCache
    var groups: Option<Groups>
    var processStart: int
    var passwall: bool                   // the PassWall main switch
    var actions: seq<Action>             // what this poll did, for the contracts

    function View(): State
      reads this
    {
      State(recoveryState, lastTransition, verdictCache, groups, processStart, passwall)
    }

    constructor (policy: Policy, startedAt: int, enabled: bool)
      ensures this.policy == policy && actions == []
      ensures View() == Initial(startedAt, enabled)
    {
      this.policy := policy;
      recoveryState := NoRecord;
      lastTransition := None;
      verdictCache := VerdictCache("", NotAlive, None);
      groups, processStart, passwall, actions := None, startedAt, enabled, [];
    }

    method SetControlPlaneRecoveryPhase(phase: Phase, reason: Reason, awaiting: bool)
      modifies this`recoveryState
      ensures View() == SetPhase(old(View()), phase, reason, awaiting)
    {
      recoveryState := recoveryState.(phase := phase, reason := reason, awaiting := awaiting);
    }

    method SetPasswallMainSwitch(enabled: bool, write: Write) returns (ok: bool)
      modifies this`passwall, this`actions
      ensures passwall == if write == BatchFailed then old(passwall) else enabled
      ensures actions == old(actions) + [if enabled then TurnOn else TurnOff]
      ensures ok <==> write == Written
    {
      actions := actions + [if enabled then TurnOn else TurnOff];
      if write == BatchFailed {
        return false;
      }
      passwall := enabled;
      ok := write == Written;
    }

    method ResumeProxyMode(write: Write, now: int) returns (ok: bool)
      modifies this`passwall, this`actions, this`lastTransition, this`groups
      ensures View() == WriteSwitch(old(View()), true, write, now)
      ensures actions == old(actions) + [TurnOn]
      ensures ok <==> write == Written
    {
      ok := SetPasswallMainSwitch(true, write);
      if ok {
        lastTransition := Some(now);
        groups := None;
      }
    }

    method EnterDirectModeForRecovery(write: Write, now: int) returns (ok: bool)
      modifies this`passwall, this`actions, this`lastTransition, this`groups
      ensures View() == WriteSwitch(old(View()), false, write, now)
      ensures actions == old(actions) + [TurnOff]
      ensures ok <==> write == Written
    {
      ok := SetPasswallMainSwitch(false, write);
      if ok {
        lastTransition := Some(now);
        groups := None;
      }
    }

    method CachedProxyNodeVerdict(node: string, measured: Verdict, now: int) returns (v: Verdict)
      modifies this`verdictCache
      ensures v == NodeVerdict(policy, old(View()), node, measured, now)
      ensures View() == KeepVerdict(policy, old(View()), node, measured, now)
    {
      if verdictCache.node == node && verdictCache.at.Some? &&
         now >= verdictCache.at.value && now - verdictCache.at.value < policy.cooldown {
        return verdictCache.verdict;
      }
      v := measured;
      if v != Unjudged {
        verdictCache := VerdictCache(node, v, Some(now));
      }
    }

    method HoldRecoveryDirectForUnusableRuntime(inv: Inventory, now: int) returns (held: bool)
      modifies this`recoveryState
      ensures held <==> RuntimeBlocks(policy, inv.runtime, now)
      ensures View() == if held then Hold(old(View())) else old(View())
    {
      held := RuntimeBlocks(policy, inv.runtime, now);
      if held {
        SetControlPlaneRecoveryPhase(OperatorAttention, RuntimeBlocked, true);
      }
    }

    // The first panel probe, and the outage a failed one opens.
    method ProbePanel(in_: Reading, now: int)
      modifies this`recoveryState
      ensures View() == NoteOutage(old(View()), in_, now)
    {
      recoveryState := recoveryState.(panelStatus := if in_.panelFirst then Reachable else Blocked);
      if !in_.panelFirst && recoveryState.outageStart.None? {
        var start := now;
        if recoveryState.lastContact.None? && processStart < now {
          start := processStart;
        }
        recoveryState := recoveryState.(outageStart := Some(start));
        if recoveryState.phase == Idle {
          recoveryState := recoveryState.(phase := Monitoring);
        }
      }
    }

    method CollectRecoveryReachabilityGroups(in_: Reading, now: int) returns (g: Groups)
      modifies this`groups
      ensures g == CollectGroups(policy, old(View()), in_, now)
      ensures !(old(groups).Some? && now < old(groups).value.expiresAt) ==>
                && Graded(in_, g.ru, g.foreign)
                && g.measuredAt == now && g.expiresAt == now + policy.probeCacheTTL
      ensures View() == old(View()).(groups := Some(g))
    {
      if groups.Some? && now < groups.value.expiresAt {
        return groups.value;
      }
      var ru := SummarizeReachabilityProbe(in_.ruHits, Reachable, Unset, 1, 1);
      var foreign := SummarizeReachabilityProbe(in_.foreignHits, Healthy, Partial, 2, 1);
      g := Groups(ru, foreign, now, now + policy.probeCacheTTL);
      groups := Some(g);
      GradedExactly(in_);
    }

    method Probe(in_: Reading, now: int) returns (ru: Status, foreign: Status)
      modifies this`recoveryState, this`groups
      ensures Seen(View(), ru, foreign) == Observe(policy, old(View()), in_, now)
    {
      ru, foreign := Unset, Unset;
      ProbePanel(in_, now);
      if recoveryState.phase != Idle || recoveryState.awaiting || OutageReady(policy, View(), now) {
        var g := CollectRecoveryReachabilityGroups(in_, now);
        ru, foreign := g.ru, g.foreign;
        recoveryState := recoveryState.(panelStatus := if in_.panelAgain then Reachable else Blocked,
                                        ruStatus := ru, foreignStatus := foreign);
      }
    }

    method StartControlPlaneRecovery(in_: Reading, inv: Inventory, foreign: Status, now: int) returns (outcome: Outcome)
      requires actions == []
      modifies this
      ensures Step(View(), outcome, actions) == StartRecovery(policy, old(View()), in_, inv, foreign, now)
    {
      outcome := Outcome(true, false, false, false);
      var internetHealthy := InternetHealthy(View());
      var nodeVerdict := NotAlive;
      if !internetHealthy && WantsDirect(foreign) && inv.passwallEnabled {
        nodeVerdict := CachedProxyNodeVerdict(inv.selectedNode, in_.node, now);
      }
      if internetHealthy {
        var restartedThisOutage := SinceOutage(View(), recoveryState.lastRestart);
        SetControlPlaneRecoveryPhase(ControllerRestartWait, RestartScheduled, false);
        if restartedThisOutage {
          return;
        }
        recoveryState := recoveryState.(lastRestart := Some(now));
        actions := actions + [RestartAgent];
        if in_.command {
          groups := None;
        } else {
          outcome := outcome.(failed := true);
        }
      } else if WantsDirect(foreign) && inv.passwallEnabled && nodeVerdict != NotAlive {
        recoveryState := recoveryState.(phase := Monitoring);
      } else if WantsDirect(foreign) {
        if !inv.passwallEnabled {
          SetControlPlaneRecoveryPhase(Monitoring, NoReason, false);
          return;
        }
        lastTransition := Some(now);
        var ok := EnterDirectModeForRecovery(in_.write, now);
        if !ok {
          outcome := outcome.(failed := true);
          return;
        }
        outcome := outcome.(changed := true);
        SetControlPlaneRecoveryPhase(DirectSettle, SwitchedToDirect, false);
      } else {
        recoveryState := recoveryState.(phase := Monitoring);
      }
    }

    method ScheduleReboot(in_: Reading, now: int) returns (outcome: Outcome)
      requires actions == []
      modifies this`recoveryState, this`groups, this`actions
      ensures Step(View(), outcome, actions) == TryReboot(policy, old(View()), in_, now)
    {
      outcome := Outcome(true, false, false, false);
      if WantsReboot(View()) && CanReboot(policy, View(), now) {
        recoveryState := recoveryState.(lastReboot := Some(now));
        SetControlPlaneRecoveryPhase(RebootWait, RebootScheduled, false);
        actions := actions + [Reboot];
        if in_.command {
          groups := None;
        } else {
          outcome := outcome.(failed := true);
        }
      }
    }

    // Back to proxy, to be judged after the warmup.
    method RetryPasswall(in_: Reading, now: int, reason: Reason, awaiting: bool) returns (outcome: Outcome)
      requires actions == []
      modifies this
      ensures Step(View(), outcome, actions) == Resume(old(View()), in_, now, reason, awaiting)
    {
      outcome := Outcome(true, false, false, false);
      var ok := ResumeProxyMode(in_.write, now);
      if !ok {
        outcome := outcome.(failed := true);
        return;
      }
      recoveryState := recoveryState.(lastRetry := Some(now));
      SetControlPlaneRecoveryPhase(PasswallRetryWait, reason, awaiting);
      outcome := outcome.(changed := true);
    }

    // The proxy is not coming back: direct, and wait for an operator.
    method ParkInDirect(in_: Reading, inv: Inventory, now: int) returns (outcome: Outcome)
      requires actions == []
      modifies this
      ensures Step(View(), outcome, actions) == Park(old(View()), in_, inv, now)
    {
      outcome := Outcome(true, false, false, false);
      if inv.passwallEnabled {
        var ok := EnterDirectModeForRecovery(in_.write, now);
        if !ok {
          outcome := outcome.(failed := true);
          return;
        }
        outcome := outcome.(changed := true);
      }
      SetControlPlaneRecoveryPhase(OperatorAttention, OperatorNeeded, true);
      outcome := outcome.(skip := !in_.panelFirst);
    }

    method SettleDirect(in_: Reading, inv: Inventory, ru: Status, now: int) returns (outcome: Outcome)
      requires actions == []
      modifies this
      ensures Step(View(), outcome, actions) == InDirectSettle(policy, old(View()), in_, inv, ru, now)
    {
      outcome := Outcome(true, false, false, false);
      if Younger(now, lastTransition, policy.directSettle) {
        outcome := outcome.(settle := true);
        return;
      }
      if in_.panelFirst {
        if !inv.passwallEnabled && ru == Reachable && !SinceOutage(View(), recoveryState.lastRetry) {
          var held := HoldRecoveryDirectForUnusableRuntime(inv, now);
          if held {
            outcome := outcome.(skip := false);
            return;
          }
          outcome := RetryPasswall(in_, now, AutoProxyRetry, false);
          return;
        }
        SetControlPlaneRecoveryPhase(OperatorAttention, PanelRecoveredInDirect, true);
        outcome := outcome.(skip := false);
        return;
      }
      if !inv.passwallEnabled && ParkedProofReady(View(), now) {
        var held := HoldRecoveryDirectForUnusableRuntime(inv, now);
        if held {
          return;
        }
        var v := CachedProxyNodeVerdict(inv.selectedNode, in_.node, now);
        if v == Alive {
          outcome := RetryPasswall(in_, now, ParkedProofRetry, false);
          return;
        }
      }
      outcome := ScheduleReboot(in_, now);
    }

    method CheckAfterReboot(in_: Reading, inv: Inventory, ru: Status, foreign: Status, now: int) returns (outcome: Outcome)
      requires actions == []
      modifies this
      ensures Step(View(), outcome, actions) == InPostRebootCheck(policy, old(View()), in_, inv, ru, foreign, now)
    {
      outcome := Outcome(true, false, false, false);
      if Younger(now, recoveryState.lastReboot, policy.postRebootSettle) {
        outcome := outcome.(settle := true);
        return;
      }
      if ru == Reachable {
        if !inv.passwallEnabled {
          var held := HoldRecoveryDirectForUnusableRuntime(inv, now);
          if held {
            outcome := outcome.(skip := !in_.panelFirst);
            return;
          }
          outcome := RetryPasswall(in_, now, RetryAfterReboot, false);
          return;
        }
        if foreign == Healthy {
          SetControlPlaneRecoveryPhase(Idle, WanRecovered, false);
          outcome := outcome.(skip := false);
          return;
        }
        if in_.node == Alive {
          SetControlPlaneRecoveryPhase(Idle, NodeRecovered, false);
          outcome := outcome.(skip := false);
          return;
        } else if in_.node == Unjudged {
          return;
        }
      }
      outcome := ParkInDirect(in_, inv, now);
    }

    method JudgePasswallRetry(in_: Reading, inv: Inventory, foreign: Status, now: int) returns (outcome: Outcome)
      requires actions == []
      modifies this
      ensures Step(View(), outcome, actions) == InPasswallRetryWait(policy, old(View()), in_, inv, foreign, now)
    {
      outcome := Outcome(true, false, false, false);
      if Younger(now, recoveryState.lastRetry, policy.passwallWarmup) {
        outcome := outcome.(settle := true);
        return;
      }
      if foreign == Healthy {
        SetControlPlaneRecoveryPhase(Idle, WanRecovered, false);
        outcome := outcome.(skip := false);
        return;
      }
      if in_.node == Alive {
        SetControlPlaneRecoveryPhase(Idle, NodeRecovered, false);
        outcome := outcome.(skip := false);
        return;
      }
      if in_.node == Unjudged {
        return;
      }
      outcome := ParkInDirect(in_, inv, now);
    }

    method AwaitOperator(in_: Reading, inv: Inventory, foreign: Status, now: int) returns (outcome: Outcome)
      requires actions == []
      modifies this
      ensures Step(View(), outcome, actions) == InOperatorAttention(policy, old(View()), in_, inv, foreign, now)
    {
      outcome := Outcome(!in_.panelFirst, false, false, false);
      if inv.passwallEnabled {
        if foreign == Healthy {
          SetControlPlaneRecoveryPhase(Idle, ParkLiftedElsewhere, false);
          outcome := outcome.(skip := false);
        }
        return;
      }
      if !ParkedProofReady(View(), now) {
        return;
      }
      var held := HoldRecoveryDirectForUnusableRuntime(inv, now);
      if held {
        return;
      }
      var retry := !in_.panelFirst && BlindRetryReady(policy, View(), now);
      if !retry {
        var v := CachedProxyNodeVerdict(inv.selectedNode, in_.node, now);
        retry := v == Alive;
      }
      if retry {
        var resumed := RetryPasswall(in_, now, OperatorAttentionRetry, true);
        outcome := resumed.(skip := !resumed.failed || outcome.skip);
      }
    }

    method AdvanceControlPlaneRecovery(in_: Reading, now: int) returns (outcome: Outcome)
      modifies this
      ensures Step(View(), outcome, actions) == Advance(policy, old(View()), in_, now)
    {
      actions := [];
      outcome := Outcome(false, false, false, false);
      if in_.inventory.None? {
        return;
      }
      var inv := in_.inventory.value;
      var ru, foreign := Probe(in_, now);
      match recoveryState.phase {
        case Idle | Monitoring =>
          if !in_.panelFirst {
            if OutageReady(policy, View(), now) {
              outcome := StartControlPlaneRecovery(in_, inv, foreign, now);
            } else {
              outcome := outcome.(skip := true);
              recoveryState := recoveryState.(phase := Monitoring);
            }
          } else if ResumesExternalDirect(policy, View(), in_, inv, now) {
            var resumed := RetryPasswall(in_, now, AutoProxyRetry, false);
            outcome := resumed.(skip := !resumed.failed);
          }
        case ControllerRestartWait =>
          if !in_.panelFirst {
            outcome := outcome.(skip := true);
            if recoveryState.lastRestart.Some? && now - recoveryState.lastRestart.value >= RestartSettle(policy) {
              recoveryState := recoveryState.(phase := Monitoring);
            }
          }
        case DirectSettle =>
          outcome := SettleDirect(in_, inv, ru, now);
        case RebootWait =>
          outcome := outcome.(skip := true);
          SetControlPlaneRecoveryPhase(PostRebootCheck, recoveryState.reason, false);
        case PostRebootCheck =>
          outcome := CheckAfterReboot(in_, inv, ru, foreign, now);
        case PasswallRetryWait =>
          outcome := JudgePasswallRetry(in_, inv, foreign, now);
        case OperatorAttention =>
          outcome := AwaitOperator(in_, inv, foreign, now);
      }
    }

    method NoteSuccessfulControlPlaneContact(now: int)
      modifies this
      ensures View() == NoteContact(old(View()), now)
    {
      recoveryState := recoveryState.(lastContact := Some(now));
      recoveryState := recoveryState.(outageStart := None);
      recoveryState := recoveryState.(panelStatus := Reachable);
      groups := None;
      if recoveryState.phase in {Idle, Monitoring, ControllerRestartWait} {
        recoveryState := recoveryState.(phase := Idle, awaiting := false, reason := NoReason);
      }
    }

    method ClearControlPlaneRecoveryOwnership()
      modifies this
      ensures View() == ClearOwnership(old(View()))
    {
      recoveryState := recoveryState.(outageStart := None);
      recoveryState := recoveryState.(phase := Idle, awaiting := false, reason := NoReason);
      recoveryState := recoveryState.(panelStatus := Unset, ruStatus := Unset, foreignStatus := Unset);
      recoveryState := recoveryState.(lastRestart := None, lastRetry := None);
      groups := None;
    }
  }
}
