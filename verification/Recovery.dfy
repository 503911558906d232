/** Control-plane recovery: the state it keeps and what one poll does to it.
    Times are whole seconds; an empty timestamp is `None`. */
module Recovery {
  import opened Wrappers

  type Instant = Option<int>

  datatype Phase =
    | Idle
    | Monitoring
    | ControllerRestartWait
    | DirectSettle
    | RebootWait
    | PostRebootCheck
    | PasswallRetryWait
    | OperatorAttention

  // `Unset` is the empty status: a group that was not probed this poll.
  datatype Status = Unset | Reachable | Healthy | Partial | Blocked

  // What url_test_node says about the selected node.
  datatype Verdict = NotAlive | Alive | Unjudged

  datatype Reason =
    | NoReason
    | RestartScheduled
    | SwitchedToDirect
    | RebootScheduled
    | RetryAfterReboot
    | OperatorNeeded
    | PanelRecoveredInDirect
    | AutoProxyRetry
    | NodeRecovered
    | WanRecovered
    | OperatorAttentionRetry
    | ParkedProofRetry
    | ParkLiftedElsewhere
    | RuntimeBlocked

  // The proxy runtime as the inventory reports it.
  datatype Runtime = Usable | BinaryMissing | StartFailed(firstSeen: Instant)

  datatype Policy = Policy(
    cooldown: int,
    panelOutageThreshold: int,
    probeCacheTTL: int,
    controllerRestartSettle: int,
    directSettle: int,
    postRebootSettle: int,
    passwallWarmup: int,
    rebootCooldown: int,
    pollInterval: int)
  {
    // What loading the configuration guarantees: every duration is positive.
    predicate Valid() {
      && 0 < cooldown && 0 < panelOutageThreshold && 0 < probeCacheTTL
      && 0 < controllerRestartSettle && 0 < directSettle && 0 < postRebootSettle
      && 0 < passwallWarmup && 0 < rebootCooldown && 0 < pollInterval
    }
  }

  datatype Inventory = Inventory(passwallEnabled: bool, selectedNode: string, runtime: Runtime)

  // The RU and foreign groups, kept for probeCacheTTL after they were measured.
  datatype Groups = Groups(ru: Status, foreign: Status, measuredAt: int, expiresAt: int)

  // How writing the main switch ends. `RestartFailed`: the switch is committed,
  // but restarting PassWall failed, so the caller sees an error.
  datatype Write = Written | BatchFailed | RestartFailed

  // Everything one poll learns from the outside.
  datatype Reading = Reading(
    inventory: Option<Inventory>,
    panelFirst: bool,      // the probe the phases branch on
    panelAgain: bool,      // the probe taken with the groups
    ruHits: seq<bool>,
    foreignHits: seq<bool>,
    node: Verdict,         // what a fresh url_test_node would answer
    write: Write,
    command: bool)         // does scheduling a restart or reboot succeed

  datatype Action = TurnOff | TurnOn | RestartAgent | Reboot

  datatype Outcome = Outcome(skip: bool, changed: bool, settle: bool, failed: bool)

  // recovery.State, the part of the state kept across restarts.
  datatype Record = Record(
    lastContact: Instant,
    outageStart: Instant,
    phase: Phase,
    lastRestart: Instant,
    lastReboot: Instant,
    lastRetry: Instant,
    awaiting: bool,
    panelStatus: Status,
    ruStatus: Status,
    foreignStatus: Status,
    reason: Reason)

  // The last url_test_node verdict that judged a node.
  datatype VerdictCache = VerdictCache(node: string, verdict: Verdict, at: Instant)

  datatype State = State(
    rec: Record,
    lastTransition: Instant,   // local rescue's last mode change
    cache: VerdictCache,
    groups: Option<Groups>,    // the reachability group cache
    processStart: int,
    passwall: bool)            // the main switch itself

  const NoRecord := Record(None, None, Idle, None, None, None, false, Unset, Unset, Unset, NoReason)

  // A first start: nothing recorded, nothing cached.
  function Initial(startedAt: int, enabled: bool): State {
    State(NoRecord, None, VerdictCache("", NotAlive, None), None, startedAt, enabled)
  }

  datatype Step = Step(state: State, outcome: Outcome, actions: seq<Action>)

  const PARKED_PROOF_RETRY: int := 900

  /* ---- Clocks ---- */

  // `now.Sub(t) < d`; the distance to the empty timestamp saturates.
  predicate Younger(now: int, t: Instant, d: int) {
    t.Some? && now - t.value < d
  }

  predicate OutageReady(p: Policy, s: State, now: int) {
    s.rec.outageStart.Some? && now - s.rec.outageStart.value >= p.panelOutageThreshold
  }

  predicate ParkedProofReady(s: State, now: int) {
    !Younger(now, s.rec.lastRetry, PARKED_PROOF_RETRY)
  }

  predicate BlindRetryReady(p: Policy, s: State, now: int) {
    !Younger(now, s.rec.lastRetry, p.rebootCooldown)
  }

  predicate CanReboot(p: Policy, s: State, now: int) {
    !Younger(now, s.rec.lastReboot, p.rebootCooldown)
  }

  // Both timestamps are known and `t` is not before the outage began.
  predicate SinceOutage(s: State, t: Instant) {
    t.Some? && s.rec.outageStart.Some? && t.value >= s.rec.outageStart.value
  }

  function RestartSettle(p: Policy): int {
    Max(p.controllerRestartSettle, 2 * p.pollInterval)
  }

  /* ---- Evidence ---- */

  // How many targets answered.
  function Hits(results: seq<bool>): (n: nat)
    ensures n == multiset(results)[true] <= |results|
  {
    assert results != [] ==> results == results[..|results| - 1] + [results[|results| - 1]];
    if results == [] then 0
    else Hits(results[..|results| - 1]) + if results[|results| - 1] then 1 else 0
  }

  // A probe group's status; an unprobed group has none, and a group whose
  // partial status is `Unset` has no partial verdict.
  function GroupStatus(results: seq<bool>, full: Status, partial: Status, fullAt: nat, partialAt: nat): Status {
    if results == [] then Unset
    else if Hits(results) >= fullAt then full
    else if partial != Unset && Hits(results) >= partialAt then partial
    else Blocked
  }

  function RuStatus(hits: seq<bool>): Status { GroupStatus(hits, Reachable, Unset, 1, 1) }

  function ForeignStatus(hits: seq<bool>): Status { GroupStatus(hits, Healthy, Partial, 2, 1) }

  // The grades of a poll's own measurements: two of the foreign targets make
  // the group healthy, one makes it partial; one RU target is enough.
  predicate Graded(in_: Reading, ru: Status, foreign: Status) {
    var rus, foreigns := multiset(in_.ruHits)[true], multiset(in_.foreignHits)[true];
    && (ru == Reachable <==> rus >= 1)
    && (ru == Blocked <==> in_.ruHits != [] && rus == 0)
    && (ru == Unset <==> in_.ruHits == [])
    && (foreign == Healthy <==> foreigns >= 2)
    && (foreign == Partial <==> foreigns == 1)
    && (foreign == Blocked <==> in_.foreignHits != [] && foreigns == 0)
    && (foreign == Unset <==> in_.foreignHits == [])
  }

  lemma GradedExactly(in_: Reading)
    ensures Graded(in_, RuStatus(in_.ruHits), ForeignStatus(in_.foreignHits))
  {
  }

  function PanelStatus(reachable: bool): Status { if reachable then Reachable else Blocked }

  predicate RuntimeBlocks(p: Policy, runtime: Runtime, now: int) {
    match runtime
    case Usable => false
    case BinaryMissing => true
    case StartFailed(firstSeen) => Younger(now, firstSeen, p.rebootCooldown)
  }

  // Is the cached verdict about this node, and less than one cooldown old?
  predicate VerdictFresh(p: Policy, s: State, node: string, now: int) {
    && s.cache.node == node
    && s.cache.at.Some?
    && now >= s.cache.at.value
    && now - s.cache.at.value < p.cooldown
  }

  function NodeVerdict(p: Policy, s: State, node: string, measured: Verdict, now: int): Verdict {
    if VerdictFresh(p, s, node, now) then s.cache.verdict else measured
  }

  // An unjudged verdict is never kept.
  function KeepVerdict(p: Policy, s: State, node: string, measured: Verdict, now: int): State {
    if VerdictFresh(p, s, node, now) || measured == Unjudged then s
    else s.(cache := VerdictCache(node, measured, Some(now)))
  }

  predicate InternetHealthy(s: State) {
    s.rec.ruStatus == Reachable && (s.rec.foreignStatus == Unset || s.rec.foreignStatus == Healthy)
  }

  predicate WantsDirect(foreign: Status) { foreign == Blocked || foreign == Partial }

  predicate WantsReboot(s: State) {
    s.rec.panelStatus == Blocked && (s.rec.foreignStatus == Blocked || s.rec.ruStatus == Blocked)
  }

  predicate OwnsPasswall(phase: Phase) {
    phase == DirectSettle || phase == RebootWait || phase == PostRebootCheck
    || phase == PasswallRetryWait || phase == OperatorAttention
  }

  /* ---- What a poll learns before it acts ---- */

  // A failed probe opens an outage. A router that never reached the panel
  // counts it from the start of the process.
  function NoteOutage(s: State, in_: Reading, now: int): State {
    var s1 := s.(rec := s.rec.(panelStatus := PanelStatus(in_.panelFirst)));
    if in_.panelFirst || s.rec.outageStart.Some? then s1
    else s1.(rec := s1.rec.(
      outageStart := Some(if s.rec.lastContact.None? && s.processStart < now then s.processStart else now),
      phase := if s.rec.phase == Idle then Monitoring else s.rec.phase))
  }

  predicate NeedsGroups(p: Policy, s: State, now: int) {
    s.rec.phase != Idle || s.rec.awaiting || OutageReady(p, s, now)
  }

  predicate GroupsCached(s: State, now: int) {
    s.groups.Some? && now < s.groups.value.expiresAt
  }

  function CollectGroups(p: Policy, s: State, in_: Reading, now: int): Groups {
    if GroupsCached(s, now) then s.groups.value
    else Groups(RuStatus(in_.ruHits), ForeignStatus(in_.foreignHits), now, now + p.probeCacheTTL)
  }

  // The statuses the phases read: only a grouped poll has RU and foreign ones.
  datatype Seen = Seen(state: State, ru: Status, foreign: Status)

  function Observe(p: Policy, s: State, in_: Reading, now: int): Seen {
    var s1 := NoteOutage(s, in_, now);
    if NeedsGroups(p, s1, now) then
      var g := CollectGroups(p, s1, in_, now);
      Seen(s1.(rec := s1.rec.(panelStatus := PanelStatus(in_.panelAgain), ruStatus := g.ru, foreignStatus := g.foreign),
               groups := Some(g)),
           g.ru, g.foreign)
    else
      Seen(s1, Unset, Unset)
  }

  /* ---- The switches ---- */

  function SetPhase(s: State, phase: Phase, reason: Reason, awaiting: bool): State {
    s.(rec := s.rec.(phase := phase, reason := reason, awaiting := awaiting))
  }

  // The state after writing the main switch; a written one is also a rescue
  // transition and makes every measured group stale.
  function WriteSwitch(s: State, enabled: bool, write: Write, now: int): State {
    match write
    case BatchFailed => s
    case RestartFailed => s.(passwall := enabled)
    case Written => s.(passwall := enabled, lastTransition := Some(now), groups := None)
  }

  function Resume(s: State, in_: Reading, now: int, reason: Reason, awaiting: bool): Step {
    var s1 := WriteSwitch(s, true, in_.write, now);
    if in_.write != Written then Step(s1, Outcome(true, false, false, true), [TurnOn])
    else Step(SetPhase(s1.(rec := s1.rec.(lastRetry := Some(now))), PasswallRetryWait, reason, awaiting),
              Outcome(true, true, false, false), [TurnOn])
  }

  // Give up on the proxy: direct (unless PassWall is off already), then wait
  // for an operator.
  function Park(s: State, in_: Reading, inv: Inventory, now: int): Step {
    var s1 := if inv.passwallEnabled then WriteSwitch(s, false, in_.write, now) else s;
    var actions := if inv.passwallEnabled then [TurnOff] else [];
    if inv.passwallEnabled && in_.write != Written then
      Step(s1, Outcome(true, false, false, true), actions)
    else
      Step(SetPhase(s1, OperatorAttention, OperatorNeeded, true),
           Outcome(!in_.panelFirst, inv.passwallEnabled, false, false), actions)
  }

  function Hold(s: State): State {
    SetPhase(s, OperatorAttention, RuntimeBlocked, true)
  }

  /* ---- The phases ---- */

  function StartRecovery(p: Policy, s: State, in_: Reading, inv: Inventory, foreign: Status, now: int): Step {
    var skipped := Outcome(true, false, false, false);
    if InternetHealthy(s) then
      var s1 := SetPhase(s, ControllerRestartWait, RestartScheduled, false);
      if SinceOutage(s, s.rec.lastRestart) then Step(s1, skipped, [])
      else Step(s1.(rec := s1.rec.(lastRestart := Some(now)), groups := if in_.command then None else s1.groups),
                skipped.(failed := !in_.command), [RestartAgent])
    else if WantsDirect(foreign) && inv.passwallEnabled then
      var s1 := KeepVerdict(p, s, inv.selectedNode, in_.node, now);
      if NodeVerdict(p, s, inv.selectedNode, in_.node, now) != NotAlive then
        Step(s1.(rec := s1.rec.(phase := Monitoring)), skipped, [])
      else
        var s2 := WriteSwitch(s1.(lastTransition := Some(now)), false, in_.write, now);
        if in_.write != Written then Step(s2, skipped.(failed := true), [TurnOff])
        else Step(SetPhase(s2, DirectSettle, SwitchedToDirect, false), skipped.(changed := true), [TurnOff])
    else if WantsDirect(foreign) then
      Step(SetPhase(s, Monitoring, NoReason, false), skipped, [])
    else
      Step(s.(rec := s.rec.(phase := Monitoring)), skipped, [])
  }

  // An outside actor switched PassWall off while the panel answers.
  predicate ResumesExternalDirect(p: Policy, s: State, in_: Reading, inv: Inventory, now: int) {
    && !OwnsPasswall(s.rec.phase)
    && !inv.passwallEnabled
    && in_.panelFirst
    && !RuntimeBlocks(p, inv.runtime, now)
    && BlindRetryReady(p, s, now)
  }

  function InIdleOrMonitoring(p: Policy, s: State, in_: Reading, inv: Inventory, foreign: Status, now: int): Step {
    if !in_.panelFirst then
      if OutageReady(p, s, now) then StartRecovery(p, s, in_, inv, foreign, now)
      else Step(s.(rec := s.rec.(phase := Monitoring)), Outcome(true, false, false, false), [])
    else if ResumesExternalDirect(p, s, in_, inv, now) then
      var r := Resume(s, in_, now, AutoProxyRetry, false);
      r.(outcome := r.outcome.(skip := in_.write == Written))
    else
      Step(s, Outcome(false, false, false, false), [])
  }

  function InRestartWait(p: Policy, s: State, in_: Reading, now: int): Step {
    if in_.panelFirst then Step(s, Outcome(false, false, false, false), [])
    else if s.rec.lastRestart.Some? && now - s.rec.lastRestart.value >= RestartSettle(p) then
      Step(s.(rec := s.rec.(phase := Monitoring)), Outcome(true, false, false, false), [])
    else Step(s, Outcome(true, false, false, false), [])
  }

  function TryReboot(p: Policy, s: State, in_: Reading, now: int): Step {
    if WantsReboot(s) && CanReboot(p, s, now) then
      var s1 := SetPhase(s.(rec := s.rec.(lastReboot := Some(now))), RebootWait, RebootScheduled, false);
      Step(s1.(groups := if in_.command then None else s1.groups),
           Outcome(true, false, false, !in_.command), [Reboot])
    else Step(s, Outcome(true, false, false, false), [])
  }

  function InDirectSettle(p: Policy, s: State, in_: Reading, inv: Inventory, ru: Status, now: int): Step {
    if Younger(now, s.lastTransition, p.directSettle) then Step(s, Outcome(true, false, true, false), [])
    else if in_.panelFirst then
      if !inv.passwallEnabled && ru == Reachable && !SinceOutage(s, s.rec.lastRetry) then
        if RuntimeBlocks(p, inv.runtime, now) then Step(Hold(s), Outcome(false, false, false, false), [])
        else Resume(s, in_, now, AutoProxyRetry, false)
      else
        Step(SetPhase(s, OperatorAttention, PanelRecoveredInDirect, true), Outcome(false, false, false, false), [])
    else if !inv.passwallEnabled && ParkedProofReady(s, now) then
      if RuntimeBlocks(p, inv.runtime, now) then Step(Hold(s), Outcome(true, false, false, false), [])
      else
        var s1 := KeepVerdict(p, s, inv.selectedNode, in_.node, now);
        if NodeVerdict(p, s, inv.selectedNode, in_.node, now) == Alive then
          Resume(s1, in_, now, ParkedProofRetry, false)
        else TryReboot(p, s1, in_, now)
    else TryReboot(p, s, in_, now)
  }

  function InPostRebootCheck(p: Policy, s: State, in_: Reading, inv: Inventory, ru: Status, foreign: Status, now: int): Step {
    if Younger(now, s.rec.lastReboot, p.postRebootSettle) then Step(s, Outcome(true, false, true, false), [])
    else if ru != Reachable then Park(s, in_, inv, now)
    else if !inv.passwallEnabled then
      if RuntimeBlocks(p, inv.runtime, now) then Step(Hold(s), Outcome(!in_.panelFirst, false, false, false), [])
      else Resume(s, in_, now, RetryAfterReboot, false)
    else if foreign == Healthy then
      Step(SetPhase(s, Idle, WanRecovered, false), Outcome(false, false, false, false), [])
    else match in_.node
      case Alive => Step(SetPhase(s, Idle, NodeRecovered, false), Outcome(false, false, false, false), [])
      case Unjudged => Step(s, Outcome(true, false, false, false), [])
      case NotAlive => Park(s, in_, inv, now)
  }

  function InPasswallRetryWait(p: Policy, s: State, in_: Reading, inv: Inventory, foreign: Status, now: int): Step {
    if Younger(now, s.rec.lastRetry, p.passwallWarmup) then Step(s, Outcome(true, false, true, false), [])
    else if foreign == Healthy then
      Step(SetPhase(s, Idle, WanRecovered, false), Outcome(false, false, false, false), [])
    else match in_.node
      case Alive => Step(SetPhase(s, Idle, NodeRecovered, false), Outcome(false, false, false, false), [])
      case Unjudged => Step(s, Outcome(true, false, false, false), [])
      case NotAlive => Park(s, in_, inv, now)
  }

  function InOperatorAttention(p: Policy, s: State, in_: Reading, inv: Inventory, foreign: Status, now: int): Step {
    var waiting := Outcome(!in_.panelFirst, false, false, false);
    if inv.passwallEnabled then
      if foreign == Healthy then
        Step(SetPhase(s, Idle, ParkLiftedElsewhere, false), Outcome(false, false, false, false), [])
      else Step(s, waiting, [])
    else if !ParkedProofReady(s, now) then Step(s, waiting, [])
    else if RuntimeBlocks(p, inv.runtime, now) then Step(Hold(s), waiting, [])
    else
      var blind := !in_.panelFirst && BlindRetryReady(p, s, now);
      var s1 := if blind then s else KeepVerdict(p, s, inv.selectedNode, in_.node, now);
      if blind || NodeVerdict(p, s, inv.selectedNode, in_.node, now) == Alive then
        var r := Resume(s1, in_, now, OperatorAttentionRetry, true);
        r.(outcome := r.outcome.(skip := in_.write == Written || waiting.skip))
      else Step(s1, waiting, [])
  }

  function Act(p: Policy, seen: Seen, in_: Reading, inv: Inventory, now: int): Step {
    var s := seen.state;
    match s.rec.phase
    case Idle => InIdleOrMonitoring(p, s, in_, inv, seen.foreign, now)
    case Monitoring => InIdleOrMonitoring(p, s, in_, inv, seen.foreign, now)
    case ControllerRestartWait => InRestartWait(p, s, in_, now)
    case DirectSettle => InDirectSettle(p, s, in_, inv, seen.ru, now)
    case RebootWait => Step(SetPhase(s, PostRebootCheck, s.rec.reason, false), Outcome(true, false, false, false), [])
    case PostRebootCheck => InPostRebootCheck(p, s, in_, inv, seen.ru, seen.foreign, now)
    case PasswallRetryWait => InPasswallRetryWait(p, s, in_, inv, seen.foreign, now)
    case OperatorAttention => InOperatorAttention(p, s, in_, inv, seen.foreign, now)
  }

  // One poll. Without an inventory nothing is looked at.
  function Advance(p: Policy, s: State, in_: Reading, now: int): Step {
    if in_.inventory.None? then Step(s, Outcome(false, false, false, false), [])
    else Act(p, Observe(p, s, in_, now), in_, in_.inventory.value, now)
  }

  /* ---- The outside events ---- */

  function NoteContact(s: State, now: int): State {
    var s1 := s.(rec := s.rec.(lastContact := Some(now), outageStart := None, panelStatus := Reachable), groups := None);
    if s.rec.phase == Idle || s.rec.phase == Monitoring || s.rec.phase == ControllerRestartWait
    then SetPhase(s1, Idle, NoReason, false)
    else s1
  }

  function ClearOwnership(s: State): State {
    SetPhase(s.(rec := s.rec.(outageStart := None, panelStatus := Unset, ruStatus := Unset, foreignStatus := Unset,
                             lastRestart := None, lastRetry := None),
                groups := None),
             Idle, NoReason, false)
  }
}
