/** The update guard's clockwork: one judgement (`tick`) of an updated agent,
    the boot counter, the retry of an incomplete rollback and its back-off.
    Files under /tmp are lost at a reboot, those beside the copy are not. */
module GuardWatch {
  import opened Wrappers

  const STABLE := 120
  const CRASH := 300
  const CONTACT := 900
  const PROBE_FROM := 600
  const PROBE_EVERY := 60
  const HOLD := 180
  const NETWORK := 3600
  const PREPARED_TIMEOUT := 300
  const ARMED_TIMEOUT := 60
  const MAX_BOOTS := 3
  const RETRY := 60
  const RETRY_MAX := 1800
  const MAX_ATTEMPTS := 10

  // How a session ended: the new version was found good; the old one is back;
  // the copy was gone, or could not be used, so the new version stays; or the
  // session was too old to be taken up again.
  datatype End = Verified | OldIsBack | CopyGone | CopyUnusable | TooOld

  datatype Phase = Prepared | Armed | Watching | Restoring | RestoreFailed | Manual | Over(end: End)

  // What /tmp holds of a session.
  datatype Run = Run(
    boot: bool,                    // this boot's window is open
    pid: Option<nat>,
    since: Option<int>,            // when that pid was first seen
    everStable: bool,
    lastProbe: Option<int>,
    reachSince: Option<int>,
    unreachSince: Option<int>,
    restoring: bool,
    lastTry: Option<int>)

  const NO_RUN := Run(false, None, None, false, None, None, None, false, None)

  datatype State = State(
    phase: Phase,
    since: Option<int>,            // prepared_at or armed_at
    window: Option<int>,
    boots: nat,
    attempts: nat,
    bootCounted: bool,             // in /tmp as well
    run: Run)

  // What one tick finds out from the router.
  datatype Reading = Reading(
    t: int,                        // seconds since boot
    copyThere: bool,
    copyUsable: bool,              // there, trusted and readable
    binaryOk: bool,
    pid: Option<nat>,
    contact: bool,                 // a control-plane contact newer than the window
    panel: bool,                   // would the panel answer a probe now?
    complete: bool,                // an incomplete restore turns out complete
    restored: bool)                // an attempt made now succeeds

  datatype Event = Tick(r: Reading) | BootHook(r: Reading, stale: bool) | Reboot

  /* ---- Rollback and its retries ---- */

  // A retry keeps counting; a first attempt starts the count again.
  predicate CountKept(s: State) { s.phase.Restoring? || s.phase.RestoreFailed? || s.run.restoring }

  function Finish(s: State, end: End): State { s.(phase := Over(end), run := NO_RUN) }

  function Rollback(s: State, r: Reading): State {
    if !r.copyUsable then Finish(s, CopyUnusable)
    else if r.restored then Finish(s, OldIsBack)
    else s.(phase := RestoreFailed,
            attempts := (if CountKept(s) then s.attempts else 0) + 1,
            run := s.run.(restoring := true, lastTry := Some(r.t)))
  }

  function Pow2(n: nat): nat { if n == 0 then 1 else 2 * Pow2(n - 1) }

  // The back-off the retry waits for: doubling from RETRY up to RETRY_MAX.
  function Delay(attempts: nat): nat {
    if attempts >= MAX_ATTEMPTS then RETRY_MAX
    else Min(RETRY * Pow2(Max(attempts - 1, 0)), RETRY_MAX)
  }

  predicate Throttled(s: State, t: int) {
    s.run.lastTry.Some? && 0 <= t - s.run.lastTry.value < Delay(s.attempts)
  }

  function RetryRestore(s: State, r: Reading): State {
    if r.copyThere && r.complete then Finish(s, OldIsBack)
    else if s.attempts >= MAX_ATTEMPTS && r.pid.Some? then s.(phase := Manual)
    else
      var s1 := if s.attempts >= MAX_ATTEMPTS then s.(phase := Manual) else s;
      if Throttled(s1, r.t) then s1 else Rollback(s1, r)
  }

  /* ---- One judgement ---- */

  function CountBoot(s: State): State {
    if s.bootCounted then s else s.(boots := s.boots + 1, bootCounted := true)
  }

  function StartWindow(s: State, t: int): State {
    s.(phase := Watching, window := Some(t), bootCounted := true, run := NO_RUN.(boot := true))
  }

  predicate MustRearm(s: State, t: int) { !s.run.boot || s.window.None? || t < s.window.value }

  function Rearm(s: State, t: int): State {
    CountBoot(s.(window := Some(t), run := NO_RUN.(boot := true)))
  }

  function SeePid(run: Run, r: Reading): Run {
    match r.pid
    case None => run.(pid := None, since := None)
    case Some(_) =>
      var seen := if run.pid == r.pid && run.since.Some? then run else run.(pid := r.pid, since := Some(r.t));
      if r.t - seen.since.value >= STABLE then seen.(everStable := true) else seen
  }

  predicate Stable(run: Run, r: Reading) {
    r.pid.Some? && run.since.Some? && r.t - run.since.value >= STABLE
  }

  predicate ProbeDue(run: Run, age: int, t: int) {
    age >= PROBE_FROM && (run.lastProbe.None? || t - run.lastProbe.value >= PROBE_EVERY || t < run.lastProbe.value)
  }

  function Earliest(x: Option<int>, t: int): Option<int> { if x.Some? then x else Some(t) }

  function Probe(run: Run, age: int, r: Reading): Run {
    if !ProbeDue(run, age, r.t) then run
    else if r.panel then
      run.(lastProbe := Some(r.t), reachSince := Earliest(run.reachSince, r.t), unreachSince := None)
    else
      run.(lastProbe := Some(r.t), unreachSince := Earliest(run.unreachSince, r.t), reachSince := None)
  }

  predicate HeldFor(x: Option<int>, t: int) { x.Some? && t - x.value >= HOLD }

  predicate CannotTalk(run: Run, age: int, t: int) {
    age >= CONTACT && (HeldFor(run.reachSince, t) || (age >= NETWORK && HeldFor(run.unreachSince, t)))
  }

  function Judge(s: State, r: Reading): State
    requires s.window.Some?
  {
    var age := r.t - s.window.value;
    if !r.copyThere then Finish(s, CopyGone)
    else if !r.binaryOk then Rollback(s, r)
    else
      var run := SeePid(s.run, r);
      if Stable(run, r) && r.contact then Finish(s.(run := run), Verified)
      else if !run.everStable && age >= CRASH then Rollback(s.(run := run), r)
      else
        var probed := Probe(run, age, r);
        if CannotTalk(probed, age, r.t) then Rollback(s.(run := probed), r) else s.(run := probed)
  }

  function WatchTick(s: State, r: Reading): State {
    if s.run.restoring then RetryRestore(s, r)
    else if MustRearm(s, r.t) then
      var s1 := Rearm(s, r.t);
      if s1.boots >= MAX_BOOTS then Rollback(s1, r) else Judge(s1, r)
    else Judge(s, r)
  }

  // Waiting for the update command, or for the restart it asked for.
  function WaitTick(s: State, r: Reading): State {
    if s.since.None? || r.t < s.since.value then s.(since := Some(r.t))
    else if s.phase.Prepared? then
      if r.t - s.since.value >= PREPARED_TIMEOUT then Rollback(s, r) else s
    else if r.t - s.since.value >= ARMED_TIMEOUT then StartWindow(s, r.t)
    else s
  }

  function Ticked(s: State, r: Reading): State {
    match s.phase
    case Prepared => WaitTick(s, r)
    case Armed => WaitTick(s, r)
    case Watching => WatchTick(s, r)
    case Restoring => RetryRestore(s, r)
    case RestoreFailed => RetryRestore(s, r)
    case Manual => if r.pid.None? then RetryRestore(s, r) else s
    case Over(_) => s
  }

  function Booted(s: State, r: Reading, stale: bool): State {
    if !s.phase.Prepared? && !s.phase.Armed? && !s.phase.Watching? then s
    else if stale then Finish(s, TooOld)
    else if s.phase.Prepared? then s
    else
      var s1 := CountBoot(s);
      if s1.boots >= MAX_BOOTS then Rollback(s1, r) else s1
  }

  function Step(s: State, e: Event): State {
    match e
    case Tick(r) => Ticked(s, r)
    case BootHook(r, stale) => Booted(s, r, stale)
    case Reboot => s.(bootCounted := false, run := NO_RUN)
  }

  /* ---- The guard as it runs ---- */

  class Watch {
    var phase: Phase
    var since: Option<int>
    var window: Option<int>
    var boots: nat
    var attempts: nat
    var bootCounted: bool
    var run: Run

    function View(): State
      reads this
    {
      State(phase, since, window, boots, attempts, bootCounted, run)
    }

    method FinishSession(end: End)
      modifies this
      ensures View() == Finish(old(View()), end)
    {
      phase, run := Over(end), NO_RUN;
    }

    method RollBack(r: Reading)
      modifies this
      ensures View() == Rollback(old(View()), r)
    {
      if !r.copyUsable {
        FinishSession(CopyUnusable);
        return;
      }
      var counted := attempts;
      if !phase.Restoring? && !phase.RestoreFailed? && !run.restoring {
        counted := 0;
      }
      if r.restored {
        FinishSession(OldIsBack);
        return;
      }
      attempts, phase := counted + 1, RestoreFailed;
      run := run.(restoring := true, lastTry := Some(r.t));
    }

    // The back-off loop.
    method RetryDelay() returns (delay: nat)
      ensures delay == Delay(attempts)
    {
      delay := if attempts >= MAX_ATTEMPTS then RETRY_MAX else RETRY;
      var k := 1;
      while attempts < MAX_ATTEMPTS && k < attempts && delay < RETRY_MAX
        invariant attempts >= MAX_ATTEMPTS ==> delay == RETRY_MAX
        invariant attempts < MAX_ATTEMPTS ==> 1 <= k <= Max(attempts, 1) && delay == RETRY * Pow2(k - 1)
        decreases attempts - k
      {
        delay := delay * 2;
        k := k + 1;
      }
      if attempts < MAX_ATTEMPTS && k < attempts {
        PowGrows(k - 1, attempts - 1);
      }
      if delay > RETRY_MAX {
        delay := RETRY_MAX;
      }
    }

    method Retry(r: Reading)
      modifies this
      ensures View() == RetryRestore(old(View()), r)
    {
      if r.copyThere && r.complete {
        FinishSession(OldIsBack);
        return;
      }
      if attempts >= MAX_ATTEMPTS {
        phase := Manual;
        if r.pid.Some? {
          return;
        }
      }
      var delay := RetryDelay();
      if run.lastTry.Some? && 0 <= r.t - run.lastTry.value < delay {
        return;
      }
      RollBack(r);
    }

    method CountThisBoot()
      modifies `boots, `bootCounted
      ensures View() == CountBoot(old(View()))
    {
      if !bootCounted {
        bootCounted := true;
        boots := boots + 1;
      }
    }

    method JudgeAgent(r: Reading)
      requires window.Some?
      modifies this
      ensures View() == Judge(old(View()), r)
    {
      var age := r.t - window.value;
      if !r.copyThere {
        FinishSession(CopyGone);
        return;
      }
      if !r.binaryOk {
        RollBack(r);
        return;
      }
      if r.pid.Some? {
        if run.pid != r.pid || run.since.None? {
          run := run.(pid := r.pid, since := Some(r.t));
        }
        if r.t - run.since.value >= STABLE {
          run := run.(everStable := true);
          if r.contact {
            FinishSession(Verified);
            return;
          }
        }
      } else {
        run := run.(pid := None, since := None);
      }
      if !run.everStable && age >= CRASH {
        RollBack(r);
        return;
      }
      run := Probe(run, age, r);
      if CannotTalk(run, age, r.t) {
        RollBack(r);
      }
    }

    method TickOnce(r: Reading)
      modifies this
      ensures View() == Ticked(old(View()), r)
    {
      match phase
      case Prepared =>
        if since.None? || r.t < since.value {
          since := Some(r.t);
        } else if r.t - since.value >= PREPARED_TIMEOUT {
          RollBack(r);
        }
      case Armed =>
        if since.None? || r.t < since.value {
          since := Some(r.t);
        } else if r.t - since.value >= ARMED_TIMEOUT {
          phase, window, bootCounted, run := Watching, Some(r.t), true, NO_RUN.(boot := true);
        }
      case Watching =>
        if run.restoring {
          Retry(r);
          return;
        }
        if MustRearm(View(), r.t) {
          window, run := Some(r.t), NO_RUN.(boot := true);
          CountThisBoot();
          if boots >= MAX_BOOTS {
            RollBack(r);
            return;
          }
        }
        JudgeAgent(r);
      case Restoring => Retry(r);
      case RestoreFailed => Retry(r);
      case Manual =>
        if r.pid.None? {
          Retry(r);
        }
      case Over(_) =>
    }

    method Boot(r: Reading, stale: bool)
      modifies this
      ensures View() == Booted(old(View()), r, stale)
    {
      if phase.Prepared? || phase.Armed? || phase.Watching? {
        if stale {
          FinishSession(TooOld);
          return;
        }
        if !phase.Prepared? {
          CountThisBoot();
          if boots >= MAX_BOOTS {
            RollBack(r);
          }
        }
      }
    }
  }

  lemma {:induction false} PowGrows(a: nat, b: nat)
    requires a <= b
    ensures Pow2(a) <= Pow2(b)
    decreases b - a
  {
    if a < b {
      PowGrows(a + 1, b);
    }
  }

  function Ran(s: State, events: seq<Event>): State
    decreases events
  {
    if events == [] then s else Ran(Step(s, events[0]), events[1..])
  }

  /* ---- What a tick of an open window decides ---- */

  // The window of this boot is open and no clock was set back behind it.
  predicate Open(s: State, t: int) {
    s.phase.Watching? && !s.run.restoring && s.run.boot && s.window.Some? && s.window.value <= t
  }

  // A rollback was attempted.
  predicate Attempted(s: State) {
    s.phase.RestoreFailed? || s.phase == Over(OldIsBack) || s.phase == Over(CopyUnusable)
  }

  // The agent has run under one pid for so long.
  predicate RunsSince(s: State, r: Reading, long: int) {
    r.pid.Some? && s.run.pid == r.pid && s.run.since.Some? && r.t - s.run.since.value >= long
  }

  // The session ends verified exactly when the copy is there, the binary good,
  // the agent has run under one pid for two minutes and the panel was heard.
  lemma VerifiedExactly(s: State, r: Reading)
    requires Open(s, r.t)
    ensures Ticked(s, r).phase == Over(Verified) <==>
            r.copyThere && r.binaryOk && r.contact && RunsSince(s, r, 120)
  {
  }

  // Was the panel's answer, for three minutes, always this? A probe is taken
  // when the last one is a minute old.
  predicate AnswerHeld(s: State, r: Reading, answers: bool) {
    var first := if answers then s.run.reachSince else s.run.unreachSince;
    && first.Some? && r.t - first.value >= 180
    && (r.panel == answers || (s.run.lastProbe.Some? && 0 <= r.t - s.run.lastProbe.value < 60))
  }

  // While the copy is there, a rollback is attempted exactly when the session
  // does not end verified and the binary is bad; or no pid was stable and five
  // minutes are over; or, after 15 minutes, the panel has answered for three
  // and was not heard; or, after an hour, it has not answered for three.
  lemma RolledBackExactly(s: State, r: Reading)
    requires Open(s, r.t) && r.copyThere
    ensures var t, age := Ticked(s, r), r.t - s.window.value;
            Attempted(t) <==>
              && t.phase != Over(Verified)
              && (|| !r.binaryOk
                  || (!s.run.everStable && !RunsSince(s, r, 120) && age >= 300)
                  || (age >= 900 && AnswerHeld(s, r, true))
                  || (age >= 3600 && AnswerHeld(s, r, false)))
  {
  }

  // Without the copy the session ends there; and it goes on exactly when none
  // of this is so.
  lemma OtherwiseItGoesOn(s: State, r: Reading)
    requires Open(s, r.t)
    ensures Ticked(s, r).phase == Over(CopyGone) <==> !r.copyThere
    ensures var t := Ticked(s, r);
            t.phase.Watching? <==> r.copyThere && t.phase != Over(Verified) && !Attempted(t)
  {
  }

  // How an attempt ends.
  lemma AttemptEnds(s: State, r: Reading)
    ensures var t := Rollback(s, r);
            && (t.phase == Over(CopyUnusable) <==> !r.copyUsable)
            && (t.phase == Over(OldIsBack) <==> r.copyUsable && r.restored)
            && (t.phase.RestoreFailed? <==> r.copyUsable && !r.restored)
            && (t.phase.RestoreFailed? ==> t.run.restoring && t.run.lastTry == Some(r.t))
            && (t.phase.RestoreFailed? ==>
                  t.attempts == 1 + if s.phase.Restoring? || s.phase.RestoreFailed? || s.run.restoring then s.attempts else 0)
  {
  }

  predicate Under(e: Event, pid: nat) { if e.Tick? then e.r.pid == Some(pid) else e.BootHook? }

  // Within one boot, from a tick on, every tick saw the agent under one pid.
  predicate Seen(events: seq<Event>, i: nat, j: nat, pid: nat) {
    i <= j < |events| && events[i].Tick? && forall k :: i <= k <= j ==> Under(events[k], pid)
  }

  // Two minutes under one pid, and the panel heard at the end of them.
  ghost predicate Proven(events: seq<Event>) {
    exists i: nat, j: nat, pid: nat :: Seen(events, i, j, pid) && events[j].Tick? && ProofAt(events[j].r, events[i].r)
  }

  predicate ProofAt(last: Reading, first: Reading) {
    last.t - first.t >= 120 && last.copyThere && last.binaryOk && last.contact
  }

  // What the run directory says of the pid was seen on the way.
  ghost predicate Backed(s: State, events: seq<Event>) {
    s.phase.Watching? && !s.run.restoring && s.run.pid.Some? && s.run.since.Some? ==>
      exists i: nat :: SeenFrom(events, i, s.run.pid.value, s.run.since.value)
  }

  ghost predicate SeenFrom(events: seq<Event>, i: nat, pid: nat, since: int) {
    i < |events| && Seen(events, i, |events| - 1, pid) && events[i].r.t == since
  }

  lemma {:induction false} RanOn(s: State, events: seq<Event>, e: Event)
    ensures Ran(s, events + [e]) == Step(Ran(s, events), e)
    decreases events
  {
    if events == [] {
      assert [e][1..] == [];
    } else {
      assert (events + [e])[1..] == events[1..] + [e];
      RanOn(Step(s, events[0]), events[1..], e);
    }
  }

  // One event: the pid seen, if any, is the one before or this tick's.
  lemma PidAfter(s: State, e: Event)
    requires s.phase != Over(Verified)
    ensures var t := Step(s, e);
            && (t.phase.Watching? && !t.run.restoring && t.run.pid.Some? && t.run.since.Some? ==>
                  || (e.BootHook? && s.phase.Watching? && t.run == s.run)
                  || (e.Tick? && e.r.pid == t.run.pid
                      && (|| t.run.since == Some(e.r.t)
                          || (s.phase.Watching? && !s.run.restoring && s.run.pid == t.run.pid && s.run.since == t.run.since))))
            && (t.phase == Over(Verified) ==>
                  e.Tick? && s.phase.Watching? && !s.run.restoring && RunsSince(s, e.r, 120) && e.r.copyThere && e.r.binaryOk && e.r.contact)
  {
  }

  lemma SeenGrows(events: seq<Event>, more: seq<Event>)
    requires events <= more
    ensures forall i: nat, j: nat, pid: nat :: Seen(events, i, j, pid) ==> Seen(more, i, j, pid)
    ensures Proven(events) ==> Proven(more)
  {
    forall i: nat, j: nat, pid: nat | Seen(events, i, j, pid)
      ensures Seen(more, i, j, pid) && events[i] == more[i] && events[j] == more[j]
    {
      assert forall k :: i <= k <= j ==> events[k] == more[k];
    }
  }

  // Seen so far, and under the same pid by this event.
  lemma SeenOn(events: seq<Event>, e: Event, i: nat, pid: nat, since: int)
    requires SeenFrom(events, i, pid, since) && Under(e, pid)
    ensures SeenFrom(events + [e], i, pid, since)
  {
    var more := events + [e];
    assert forall k :: 0 <= k < |events| ==> more[k] == events[k];
    assert more[|events|] == e;
    assert Seen(more, i, |more| - 1, pid);
  }

  lemma BackedOn(m: State, events: seq<Event>, e: Event)
    requires Backed(m, events) && m.phase != Over(Verified)
    ensures var t := Step(m, e); if t.phase == Over(Verified) then Proven(events + [e]) else Backed(t, events + [e])
  {
    var t, more := Step(m, e), events + [e];
    PidAfter(m, e);
    assert more[|events|] == e;
    if t.phase == Over(Verified) {
      var i: nat :| SeenFrom(events, i, m.run.pid.value, m.run.since.value);
      SeenOn(events, e, i, m.run.pid.value, m.run.since.value);
      assert Seen(more, i, |events|, m.run.pid.value) && ProofAt(more[|events|].r, more[i].r);
    } else if t.phase.Watching? && !t.run.restoring && t.run.pid.Some? && t.run.since.Some? {
      if e.Tick? && t.run.since == Some(e.r.t) {
        assert Seen(more, |events|, |events|, e.r.pid.value);
        assert SeenFrom(more, |events|, e.r.pid.value, e.r.t);
      } else {
        var i: nat :| SeenFrom(events, i, m.run.pid.value, m.run.since.value);
        SeenOn(events, e, i, m.run.pid.value, m.run.since.value);
      }
    }
  }

  lemma OverIsOver(s: State, e: Event)
    requires s.phase.Over?
    ensures Step(s, e).phase == s.phase
  {
  }

  lemma {:induction false} BackedRun(s: State, events: seq<Event>)
    requires s.phase != Over(Verified) && s.run.pid.None?
    ensures var t := Ran(s, events); if t.phase == Over(Verified) then Proven(events) else Backed(t, events)
  {
    if events != [] {
      var n := |events| - 1;
      var before, e := events[..n], events[n];
      assert events == before + [e];
      BackedRun(s, before);
      RanOn(s, before, e);
      if Ran(s, before).phase == Over(Verified) {
        OverIsOver(Ran(s, before), e);
        SeenGrows(before, events);
      } else {
        BackedOn(Ran(s, before), before, e);
      }
    }
  }

  // No session ends verified, over any events and boots, unless the agent ran
  // two minutes under one pid in one boot and the panel was heard at their end.
  lemma VerifiedIsProven(s: State, events: seq<Event>)
    requires s.phase != Over(Verified) && s.run.pid.None? && Ran(s, events).phase == Over(Verified)
    ensures Proven(events)
  {
    BackedRun(s, events);
  }

  /* ---- An agent that is never stable ---- */

  // The ticks of one boot from `now` on, the copy there, and the agent never
  // two minutes under one pid.
  ghost predicate CrashLoop(events: seq<Event>, now: int) {
    && (forall i :: 0 <= i < |events| ==> events[i].Tick? && events[i].r.copyThere && now <= events[i].r.t)
    && (forall i, j :: 0 <= i <= j < |events| ==> events[i].r.t <= events[j].r.t)
    && (forall i: nat, j: nat, pid: nat :: Seen(events, i, j, pid) ==> events[j].r.t - events[i].r.t < 120)
  }

  predicate RollingBack(s: State) { Attempted(s) || s.phase.Restoring? || s.phase.Manual? }

  lemma RollingBackStays(s: State, r: Reading)
    requires RollingBack(s)
    ensures RollingBack(Ticked(s, r))
  {
  }

  ghost predicate Undone(s: State, events: seq<Event>, w: int) {
    RollingBack(s) || (Open(s, w) && s.window == Some(w) && !s.run.everStable && Backed(s, events)
                       && (events != [] ==> events[|events| - 1].Tick? && events[|events| - 1].r.t < w + 300))
  }

  lemma StaysUnstable(s: State, r: Reading)
    requires Open(s, r.t) && !s.run.everStable && !RunsSince(s, r, 120) && Ticked(s, r).phase.Watching?
    ensures var t := Ticked(s, r); !t.run.everStable && t.run.boot && !t.run.restoring && t.window == s.window
  {
  }

  lemma NotYetStable(m: State, events: seq<Event>, e: Event, w: int)
    requires e.Tick? && Backed(m, events) && Open(m, w) && CrashLoop(events + [e], w)
    ensures !RunsSince(m, e.r, 120)
  {
    var more := events + [e];
    assert more[|events|] == e;
    if RunsSince(m, e.r, 120) {
      var i: nat :| SeenFrom(events, i, m.run.pid.value, m.run.since.value);
      SeenOn(events, e, i, m.run.pid.value, m.run.since.value);
      assert false;
    }
  }

  lemma {:induction false} CrashLoopRun(s: State, events: seq<Event>, w: int)
    requires s.phase.Watching? && s.window == Some(w) && s.run == NO_RUN.(boot := true) && CrashLoop(events, w)
    ensures Undone(Ran(s, events), events, w)
  {
    if events != [] {
      var n := |events| - 1;
      var before, e := events[..n], events[n];
      assert events == before + [e];
      assert CrashLoop(before, w) by { SeenGrows(before, events); }
      CrashLoopRun(s, before, w);
      RanOn(s, before, e);
      var m := Ran(s, before);
      if RollingBack(m) {
        RollingBackStays(m, e.r);
      } else {
        NotYetStable(m, before, e, w);
        VerifiedExactly(m, e.r);
        RolledBackExactly(m, e.r);
        OtherwiseItGoesOn(m, e.r);
        BackedOn(m, before, e);
        if Ticked(m, e.r).phase.Watching? {
          StaysUnstable(m, e.r);
        }
      }
    }
  }

  // It is rolled back, or a rollback begun, by the first tick that comes five
  // minutes after the opening of the window.
  lemma CrashLoopIsRolledBack(s: State, events: seq<Event>, w: int)
    requires s.phase.Watching? && s.window == Some(w) && s.run == NO_RUN.(boot := true) && CrashLoop(events, w)
    requires events != [] && events[|events| - 1].r.t >= w + 300
    ensures RollingBack(Ran(s, events))
  {
    CrashLoopRun(s, events, w);
  }

  /* ---- What the other ticks decide ---- */

  // A session whose update command never finished is rolled back after five
  // minutes; one whose restart never came is restarted after one, with a new
  // window; until then the clock only starts, or starts again when set back.
  lemma WaitingExactly(s: State, r: Reading)
    requires s.phase.Prepared? || s.phase.Armed?
    ensures var t, overdue := Ticked(s, r), s.since.Some? && r.t - s.since.value >= if s.phase.Prepared? then 300 else 60;
            && (Attempted(t) <==> s.phase.Prepared? && overdue)
            && (t.phase.Watching? <==> s.phase.Armed? && overdue)
            && (t.phase.Watching? ==> t.window == Some(r.t) && t.bootCounted && t.run == NO_RUN.(boot := true))
            && (!overdue ==> t == s.(since := Some(if s.since.Some? && s.since.value <= r.t then s.since.value else r.t)))
  {
  }

  // A window that is not this boot's, or that the clock was set back behind, is
  // opened again; that counts the boot once, and at the third the old version
  // is brought back whatever the agent does.
  lemma RearmedExactly(s: State, r: Reading)
    requires s.phase.Watching? && !s.run.restoring
    ensures var t := Ticked(s, r);
            var again := !s.run.boot || s.window.None? || r.t < s.window.value;
            && (again && s.boots + (if s.bootCounted then 0 else 1) >= 3 ==> Attempted(t))
            && (t.phase.Watching? ==> t.window == (if again then Some(r.t) else s.window) && t.run.boot)
            && (t.phase.Watching? && again ==> t.bootCounted && t.boots == s.boots + if s.bootCounted then 0 else 1)
            && (t.phase.Watching? && again ==>
                  var anew := s.(window := Some(r.t), run := NO_RUN.(boot := true), bootCounted := true, boots := t.boots);
                  t == Ticked(anew, r))
  {
  }

  // When a retry is due: the restore is not complete, the limit is not reached
  // or no agent runs, and the last try lies the whole delay back.
  predicate RetryDue(s: State, r: Reading) {
    && !(r.copyThere && r.complete)
    && (s.attempts < 10 || r.pid.None?)
    && !(s.run.lastTry.Some? && 0 <= r.t - s.run.lastTry.value < Delay(s.attempts))
  }

  // A tick that finds an incomplete restore ends the session when it is complete
  // after all, makes an attempt exactly when one is due, and else leaves
  // everything but that at the limit it goes manual.
  lemma RetriedExactly(s: State, r: Reading)
    requires s.phase.Restoring? || s.phase.RestoreFailed? || (s.phase.Manual? && r.pid.None?) || (s.phase.Watching? && s.run.restoring)
    ensures var t := Ticked(s, r);
            var m := if s.attempts >= 10 then s.(phase := Manual) else s;
            && (r.copyThere && r.complete ==> t == s.(phase := Over(OldIsBack), run := NO_RUN))
            && (RetryDue(s, r) ==> t == Rollback(m, r))
            && (!(r.copyThere && r.complete) && !RetryDue(s, r) ==> t == m)
  {
  }

  // In the manual phase an agent that runs is left alone, and a session that is
  // over stays so, whatever a tick finds.
  lemma LeftAlone(s: State, r: Reading)
    requires (s.phase.Manual? && r.pid.Some?) || s.phase.Over?
    ensures Ticked(s, r) == s
  {
  }

  // The boot hook ends a session that was abandoned, counts the boot of any
  // other that waits for contact, and at the third brings the old version back.
  lemma BootedExactly(s: State, r: Reading, stale: bool)
    ensures var t, waits := Booted(s, r, stale), s.phase.Prepared? || s.phase.Armed? || s.phase.Watching?;
            var boots := s.boots + if s.bootCounted then 0 else 1;
            && (waits && stale ==> t == s.(phase := Over(TooOld), run := NO_RUN))
            && (!waits || (s.phase.Prepared? && !stale) ==> t == s)
            && (waits && !stale && !s.phase.Prepared? && boots < 3 ==> t == s.(boots := boots, bootCounted := true))
            && (waits && !stale && !s.phase.Prepared? && boots >= 3 ==> t == Rollback(s.(boots := boots, bootCounted := true), r))
  {
  }

  /* ---- A watching session ends ---- */

  function ProbesFrom(w: int, from: int): int { Max(from, w + PROBE_FROM) }

  // When a session whose window opened at w must have been decided, if the
  // panel's answer is `answers` from `from` on and ticks are at most g apart.
  function EndsBy(w: int, from: int, answers: bool, g: nat): int {
    Max(w + if answers then CONTACT else NETWORK, ProbesFrom(w, from) + PROBE_EVERY + g + HOLD)
  }

  function Held(run: Run, answers: bool): Option<int> { if answers then run.reachSince else run.unreachSince }

  predicate NotAfter(x: Option<int>, t: int) { x.Some? ==> x.value <= t }

  // The probes so far, at `now`: the settled answer has been held on to since
  // a probe soon after it settled, or that probe is not due yet.
  predicate ProbedAt(run: Run, w: int, now: int, from: int, answers: bool, g: nat) {
    && NotAfter(run.lastProbe, now)
    && NotAfter(run.reachSince, now)
    && NotAfter(run.unreachSince, now)
    && (if run.lastProbe.Some? && run.lastProbe.value >= ProbesFrom(w, from)
        then Held(run, answers).Some? && Held(run, answers).value <= ProbesFrom(w, from) + PROBE_EVERY + g
        else now < ProbesFrom(w, from) + PROBE_EVERY)
  }

  // Undecided after a tick at `now`.
  predicate Undecided(s: State, w: int, now: int, from: int, answers: bool, g: nat) {
    && s.phase.Watching?
    && !s.run.restoring
    && s.run.boot
    && s.window == Some(w)
    && w <= now < EndsBy(w, from, answers, g)
    && ProbedAt(s.run, w, now, from, answers, g)
  }

  // The ticks of one boot, from `now` on: at most g apart, and the panel's
  // answer settles at `from`. Everything else a tick finds is arbitrary.
  predicate Steady(ticks: seq<Reading>, now: int, from: int, answers: bool, g: nat) {
    ticks == [] ||
    (now <= ticks[0].t <= now + g
     && (ticks[0].t >= from ==> ticks[0].panel == answers)
     && Steady(ticks[1..], ticks[0].t, from, answers, g))
  }

  function Watched(s: State, ticks: seq<Reading>): State
    decreases ticks
  {
    if ticks == [] then s else Watched(Ticked(s, ticks[0]), ticks[1..])
  }

  function LastAt(ticks: seq<Reading>, now: int): int {
    if ticks == [] then now else LastAt(ticks[1..], ticks[0].t)
  }

  lemma ProbeStays(run: Run, r: Reading, w: int, now: int, from: int, answers: bool, g: nat)
    requires ProbedAt(run, w, now, from, answers, g)
    requires now <= r.t <= now + g && (r.t >= from ==> r.panel == answers)
    ensures ProbedAt(Probe(run, r.t - w, r), w, r.t, from, answers, g)
  {
  }

  lemma HeldLongEnough(run: Run, w: int, t: int, from: int, answers: bool, g: nat)
    requires ProbedAt(run, w, t, from, answers, g) && t >= EndsBy(w, from, answers, g)
    ensures CannotTalk(run, t - w, t)
  {
  }

  lemma JudgeShape(s: State, r: Reading)
    requires s.window.Some? && s.phase.Watching?
    ensures var t := Judge(s, r);
            var run := Probe(SeePid(s.run, r), r.t - s.window.value, r);
            t.phase.Over? || t.phase.RestoreFailed? || (t == s.(run := run) && !CannotTalk(run, r.t - s.window.value, r.t))
  {
  }

  lemma SeePidKeeps(run: Run, r: Reading)
    ensures SeePid(run, r) == run.(pid := SeePid(run, r).pid, since := SeePid(run, r).since, everStable := SeePid(run, r).everStable)
  {
  }

  lemma TickStaysUndecided(s: State, r: Reading, w: int, now: int, from: int, answers: bool, g: nat)
    requires Undecided(s, w, now, from, answers, g)
    requires now <= r.t <= now + g && (r.t >= from ==> r.panel == answers)
    ensures var t := Ticked(s, r);
            if t.phase.Watching? then Undecided(t, w, r.t, from, answers, g) else t.phase.Over? || t.phase.RestoreFailed?
  {
    assert Ticked(s, r) == Judge(s, r);
    JudgeShape(s, r);
    SeePidKeeps(s.run, r);
    var run := SeePid(s.run, r);
    ProbeStays(run, r, w, now, from, answers, g);
    if r.t >= EndsBy(w, from, answers, g) {
      HeldLongEnough(Probe(run, r.t - w, r), w, r.t, from, answers, g);
    }
  }

  lemma {:induction false} DecidedStays(s: State, ticks: seq<Reading>)
    requires !s.phase.Watching? && !s.phase.Prepared? && !s.phase.Armed?
    ensures var t := Watched(s, ticks); !t.phase.Watching? && !t.phase.Prepared? && !t.phase.Armed?
    decreases ticks
  {
    if ticks != [] {
      DecidedStays(Ticked(s, ticks[0]), ticks[1..]);
    }
  }

  lemma {:induction false} StaysUndecided(s: State, ticks: seq<Reading>, w: int, now: int, from: int, answers: bool, g: nat)
    requires Undecided(s, w, now, from, answers, g) && Steady(ticks, now, from, answers, g)
    ensures var t := Watched(s, ticks); t.phase.Watching? ==> Undecided(t, w, LastAt(ticks, now), from, answers, g)
    decreases ticks
  {
    if ticks != [] {
      var next := Ticked(s, ticks[0]);
      TickStaysUndecided(s, ticks[0], w, now, from, answers, g);
      if next.phase.Watching? {
        StaysUndecided(next, ticks[1..], w, ticks[0].t, from, answers, g);
      } else {
        DecidedStays(next, ticks[1..]);
      }
    }
  }

  // From the opening of the window, whatever the agent does and whatever the
  // ticks find, the session is decided (verified, rolled back or begun to, or
  // the copy found gone) once a tick comes at or after the bound.
  lemma WatchingEnds(s: State, ticks: seq<Reading>, w: int, from: int, answers: bool, g: nat)
    requires s.phase.Watching? && s.window == Some(w) && s.run == NO_RUN.(boot := true)
    requires Steady(ticks, w, from, answers, g) && LastAt(ticks, w) >= EndsBy(w, from, answers, g)
    ensures !Watched(s, ticks).phase.Watching?
  {
    assert Undecided(s, w, w, from, answers, g);
    StaysUndecided(s, ticks, w, w, from, answers, g);
  }

  // With ticks at most a minute apart and a panel whose answer has settled
  // when probing begins, the bound is 15 minutes or an hour.
  lemma ShippedBounds(w: int, from: int, g: nat)
    requires from <= w + PROBE_FROM && g <= 60
    ensures EndsBy(w, from, true, g) == w + 900
    ensures EndsBy(w, from, false, g) == w + 3600
  {
  }

  // A healthy agent without contact, looked at every minute from the opening of
  // the window on, while the panel answers every other time.
  function Flapping(w: int, m: nat, n: nat): seq<Reading>
    decreases n
  {
    if n == 0 then []
    else [Reading(w + PROBE_EVERY * m, true, true, true, Some(1), false, m % 2 == 0, false, false)] + Flapping(w, m + 1, n - 1)
  }

  // How such a session stands before minute m.
  predicate Flapped(s: State, w: int, m: nat) {
    && s.phase.Watching? && s.window == Some(w)
    && if m == 0 then s.run == NO_RUN.(boot := true)
       else
         && s.run.boot && !s.run.restoring && s.run.pid == Some(1) && s.run.since == Some(w)
         && s.run.everStable == (PROBE_EVERY * (m - 1) >= STABLE)
         && if PROBE_EVERY * (m - 1) < PROBE_FROM
            then s.run.lastProbe.None? && s.run.reachSince.None? && s.run.unreachSince.None?
            else
              && s.run.lastProbe == Some(w + PROBE_EVERY * (m - 1))
              && if m % 2 == 1 then s.run.reachSince == s.run.lastProbe && s.run.unreachSince.None?
                 else s.run.unreachSince == s.run.lastProbe && s.run.reachSince.None?
  }

  lemma FlappingMinute(s: State, w: int, m: nat)
    requires Flapped(s, w, m)
    ensures Flapped(Ticked(s, Flapping(w, m, 1)[0]), w, m + 1)
  {
  }

  lemma {:induction false} FlappingGoesOn(s: State, w: int, m: nat, n: nat)
    requires Flapped(s, w, m)
    ensures Flapped(Watched(s, Flapping(w, m, n)), w, m + n)
    decreases n
  {
    if n > 0 {
      var ticks := Flapping(w, m, n);
      FlappingMinute(s, w, m);
      assert ticks[1..] == Flapping(w, m + 1, n - 1) && ticks[0] == Flapping(w, m, 1)[0];
      FlappingGoesOn(Ticked(s, ticks[0]), w, m + 1, n - 1);
    }
  }

  // An answer that keeps changing postpones the end without limit: from the
  // opening of the window, after any number of such minutes, nothing is decided.
  lemma FlappingPostpones(s: State, w: int, n: nat)
    requires s.phase.Watching? && s.window == Some(w) && s.run == NO_RUN.(boot := true)
    ensures Watched(s, Flapping(w, 0, n)).phase.Watching?
  {
    FlappingGoesOn(s, w, 0, n);
  }

  /* ---- Boots of an unconfirmed update ---- */

  // Reboots the guard got to see: followed by its boot hook or a tick before
  // the next one. `owed`: one is still unseen.
  function SeenReboots(events: seq<Event>, owed: bool): nat {
    if events == [] then 0
    else if events[0].Reboot? then SeenReboots(events[1..], true)
    else (if owed then 1 else 0) + SeenReboots(events[1..], false)
  }

  // One boot: its ticks, and from when on the panel answers always alike.
  datatype Stretch = Stretch(ticks: seq<Reading>, from: int, answers: bool, g: nat)

  predicate Calm(b: Stretch) { b.ticks != [] && Steady(b.ticks, b.ticks[0].t, b.from, b.answers, b.g) }

  // A boot that lasts to the bound of the window its first tick opens.
  predicate Lasting(b: Stretch) {
    b.ticks != [] && LastAt(b.ticks, b.ticks[0].t) >= EndsBy(b.ticks[0].t, b.from, b.answers, b.g)
  }

  function Booting(s: State, boots: seq<Stretch>): State
    decreases |boots|
  {
    if boots == [] then s else Booting(Watched(Step(s, Reboot), boots[0].ticks), boots[1..])
  }

  // The first tick of a boot counts it and opens a new window.
  lemma FirstTickRearms(s: State, ticks: seq<Reading>)
    requires s.phase.Watching? && s.run == NO_RUN && !s.bootCounted && ticks != []
    ensures var s1 := Rearm(s, ticks[0].t);
            && s1.boots == s.boots + 1
            && if s1.boots >= MAX_BOOTS then !Watched(s, ticks).phase.Watching? else Watched(s, ticks) == Watched(s1, ticks)
  {
    var s1 := Rearm(s, ticks[0].t);
    if s1.boots >= MAX_BOOTS {
      DecidedStays(Ticked(s, ticks[0]), ticks[1..]);
    } else {
      assert Ticked(s, ticks[0]) == Ticked(s1, ticks[0]);
    }
  }

  lemma TickKeepsBoots(s: State, r: Reading, w: int, now: int, from: int, answers: bool, g: nat)
    requires Undecided(s, w, now, from, answers, g) && now <= r.t
    ensures Ticked(s, r).phase.Watching? ==> Ticked(s, r).boots == s.boots
  {
    assert Ticked(s, r) == Judge(s, r);
    JudgeShape(s, r);
  }

  lemma {:induction false} TicksKeepBoots(s: State, ticks: seq<Reading>, w: int, now: int, from: int, answers: bool, g: nat)
    requires Undecided(s, w, now, from, answers, g) && Steady(ticks, now, from, answers, g)
    ensures Watched(s, ticks).phase.Watching? ==> Watched(s, ticks).boots == s.boots
    decreases ticks
  {
    if ticks != [] {
      var next := Ticked(s, ticks[0]);
      TickStaysUndecided(s, ticks[0], w, now, from, answers, g);
      TickKeepsBoots(s, ticks[0], w, now, from, answers, g);
      if next.phase.Watching? {
        TicksKeepBoots(next, ticks[1..], w, ticks[0].t, from, answers, g);
      } else {
        DecidedStays(next, ticks[1..]);
      }
    }
  }

  predicate Decided(s: State) { !s.phase.Watching? && !s.phase.Prepared? && !s.phase.Armed? }

  lemma {:induction false} DecidedOverBoots(s: State, boots: seq<Stretch>)
    requires Decided(s)
    ensures Decided(Booting(s, boots))
    decreases |boots|
  {
    if boots != [] {
      DecidedStays(Step(s, Reboot), boots[0].ticks);
      DecidedOverBoots(Watched(Step(s, Reboot), boots[0].ticks), boots[1..]);
    }
  }

  // One boot of a watching session: decided, or one boot further on and short of the bound.
  lemma OneBoot(s: State, b: Stretch)
    requires s.phase.Watching? && s.boots < MAX_BOOTS && Calm(b)
    ensures var t := Watched(Step(s, Reboot), b.ticks);
            Decided(t) || (t.phase.Watching? && t.boots == s.boots + 1 < MAX_BOOTS && !Lasting(b))
  {
    var s0 := Step(s, Reboot);
    var w := b.ticks[0].t;
    FirstTickRearms(s0, b.ticks);
    if s.boots + 1 >= MAX_BOOTS {
      DecidedStays(Ticked(s0, b.ticks[0]), b.ticks[1..]);
    } else {
      var s1 := Rearm(s0, w);
      assert Undecided(s1, w, w, b.from, b.answers, b.g);
      StaysDecidable(s1, b.ticks, w, w, b.from, b.answers, b.g);
      TicksKeepBoots(s1, b.ticks, w, w, b.from, b.answers, b.g);
      if Lasting(b) {
        WatchingEnds(s1, b.ticks, w, b.from, b.answers, b.g);
      }
    }
  }

  lemma {:induction false} StaysDecidable(s: State, ticks: seq<Reading>, w: int, now: int, from: int, answers: bool, g: nat)
    requires Undecided(s, w, now, from, answers, g) && Steady(ticks, now, from, answers, g)
    ensures Watched(s, ticks).phase.Watching? || Decided(Watched(s, ticks))
    decreases ticks
  {
    if ticks != [] {
      var next := Ticked(s, ticks[0]);
      TickStaysUndecided(s, ticks[0], w, now, from, answers, g);
      if next.phase.Watching? {
        StaysDecidable(next, ticks[1..], w, ticks[0].t, from, answers, g);
      } else {
        DecidedStays(next, ticks[1..]);
      }
    }
  }

  // Over any number of boots: a session is decided once one of them lasts to the
  // bound of its window, or they reach the limit. So it watches for fewer than
  // MAX_BOOTS windows, none of them whole.
  lemma {:induction false} WatchingEndsOverBoots(s: State, boots: seq<Stretch>)
    requires s.phase.Watching? && s.boots < MAX_BOOTS
    requires forall i :: 0 <= i < |boots| ==> Calm(boots[i])
    requires (exists i :: 0 <= i < |boots| && Lasting(boots[i])) || s.boots + |boots| >= MAX_BOOTS
    ensures Decided(Booting(s, boots))
    decreases |boots|
  {
    OneBoot(s, boots[0]);
    var t := Watched(Step(s, Reboot), boots[0].ticks);
    if Decided(t) {
      DecidedOverBoots(t, boots[1..]);
    } else {
      if i :| 0 <= i < |boots| && Lasting(boots[i]) {
        assert boots[1..][i - 1] == boots[i];
      }
      WatchingEndsOverBoots(t, boots[1..]);
    }
  }

  predicate Counting(s: State, owed: bool) {
    s.phase.Watching? ==>
      (s.bootCounted <==> !owed) && s.boots < MAX_BOOTS && !s.run.restoring && (owed ==> !s.run.boot)
  }

  lemma {:induction false} BootsAreCounted(s: State, events: seq<Event>, owed: bool)
    requires Counting(s, owed) && !s.phase.Armed? && !s.phase.Prepared?
    ensures var t := Ran(s, events);
            && !t.phase.Armed? && !t.phase.Prepared?
            && (t.phase.Watching? ==> s.phase.Watching? && t.boots == s.boots + SeenReboots(events, owed) && t.boots < MAX_BOOTS)
    decreases events
  {
    if events != [] {
      BootsAreCounted(Step(s, events[0]), events[1..], events[0].Reboot?);
    }
  }

  // A watching session never survives MAX_BOOTS reboots the guard sees.
  lemma BootLoopEnds(s: State, events: seq<Event>)
    requires s.phase.Watching? && s.boots < MAX_BOOTS && s.bootCounted && !s.run.restoring
    requires s.boots + SeenReboots(events, false) >= MAX_BOOTS
    ensures !Ran(s, events).phase.Watching?
  {
    BootsAreCounted(s, events, false);
  }

  /* ---- Retries ---- */

  function BackOff(from: nat, to: nat): nat
    decreases to
  {
    if to <= from then 0 else BackOff(from, to - 1) + Delay(to - 1)
  }

  predicate Ordered(ticks: seq<Reading>, now: int) {
    ticks == [] || (now <= ticks[0].t && Ordered(ticks[1..], ticks[0].t))
  }

  predicate Stuck(s: State) { s.phase.Restoring? || s.phase.RestoreFailed? || s.phase.Manual? }

  // The attempts so far, from attempt a at `at` on, lie their delays apart.
  predicate BacksOff(s: State, a: nat, at: int, now: int) {
    && Stuck(s) && s.run.restoring && s.run.lastTry.Some?
    && a <= s.attempts && at + BackOff(a, s.attempts) <= s.run.lastTry.value <= now
  }

  lemma StuckTick(s: State, r: Reading)
    requires Stuck(s)
    ensures Ticked(s, r) == RetryRestore(s, r) || Ticked(s, r) == s
  {
  }

  // A retry ends the session, makes no attempt, or makes one a whole delay
  // after the one before.
  lemma RetryFacts(s: State, r: Reading)
    requires Stuck(s) && s.run.restoring && s.run.lastTry.Some? && s.run.lastTry.value <= r.t
    ensures var next := RetryRestore(s, r);
            || next.phase.Over?
            || (Stuck(next) && next.run == s.run && next.attempts == s.attempts)
            || (Stuck(next) && next.run.restoring && next.run.lastTry == Some(r.t) && next.attempts == s.attempts + 1
                && s.run.lastTry.value + Delay(s.attempts) <= r.t)
  {
  }

  lemma {:induction false} RetryBacksOff(s: State, r: Reading, a: nat, at: int, now: int)
    requires BacksOff(s, a, at, now) && now <= r.t
    ensures var next := RetryRestore(s, r); !next.phase.Over? ==> BacksOff(next, a, at, r.t)
  {
    RetryFacts(s, r);
    assert BackOff(a, s.attempts + 1) == BackOff(a, s.attempts) + Delay(s.attempts);
  }

  // In one boot the attempts of a rollback are spaced by the growing delay:
  // between attempt a and attempt b lie the delays of a, ..., b - 1.
  lemma {:induction false} RetriesBackOff(s: State, ticks: seq<Reading>, now: int, a: nat, at: int)
    requires BacksOff(s, a, at, now) && Ordered(ticks, now)
    ensures var t := Watched(s, ticks);
            !t.phase.Over? ==> t.run.lastTry.Some? && a <= t.attempts && at + BackOff(a, t.attempts) <= t.run.lastTry.value
    decreases ticks
  {
    if ticks != [] {
      var next := Ticked(s, ticks[0]);
      StuckTick(s, ticks[0]);
      RetryBacksOff(s, ticks[0], a, at, now);
      if next.phase.Over? {
        OverStays(next, ticks[1..]);
      } else {
        RetriesBackOff(next, ticks[1..], ticks[0].t, a, at);
      }
    }
  }

  lemma {:induction false} OverStays(s: State, ticks: seq<Reading>)
    requires s.phase.Over?
    ensures Watched(s, ticks) == s
    decreases ticks
  {
    if ticks != [] {
      OverStays(Ticked(s, ticks[0]), ticks[1..]);
    }
  }

  // The whole budget of attempts takes two and a half hours at least.
  lemma TenAttemptsTake()
    ensures BackOff(1, MAX_ATTEMPTS) == 60 + 120 + 240 + 480 + 960 + 4 * 1800
  {
    assert Pow2(4) == 16 && Pow2(5) == 32;
    PowGrows(5, 6);
    PowGrows(5, 7);
    PowGrows(5, 8);
    assert BackOff(1, 2) == 60;
    assert BackOff(1, 3) == 180;
    assert BackOff(1, 5) == 900;
    assert BackOff(1, 7) == 900 + 960 + 1800;
    assert BackOff(1, 9) == 900 + 960 + 3 * 1800;
  }

  predicate AgentRuns(e: Event) { e.Tick? ==> e.r.pid.Some? && !(e.r.copyThere && e.r.complete) }

  // At the limit, as long as the agent runs at every tick, no attempt is made
  // again, across any number of reboots.
  lemma {:induction false} LimitIsFinal(s: State, events: seq<Event>)
    requires Stuck(s) && s.attempts >= MAX_ATTEMPTS
    requires forall i :: 0 <= i < |events| ==> AgentRuns(events[i])
    ensures var t := Ran(s, events);
            && Stuck(t) && t.attempts == s.attempts
            && (t.run.lastTry == s.run.lastTry || t.run.lastTry.None?)
    decreases events
  {
    if events != [] {
      assert AgentRuns(events[0]);
      LimitIsFinal(Step(s, events[0]), events[1..]);
    }
  }

  // But the count itself survives an attempt exactly when the phase still says
  // so or no reboot came between: in the manual phase, after a reboot with the
  // agent dead, an attempt starts the count again.
  lemma CountRestarts(s: State, r: Reading)
    requires s.phase.Manual? && s.attempts >= MAX_ATTEMPTS
    requires r.pid.None? && r.copyUsable && !r.restored && !(r.copyThere && r.complete) && !Throttled(s, r.t)
    ensures var t := Ticked(s, r);
            && t.phase.RestoreFailed?
            && (t.attempts == s.attempts + 1 <==> s.run.restoring)
            && (t.attempts == 1 <==> !s.run.restoring)
            && Ticked(Step(s, Reboot), r).attempts == 1
  {
  }
}
