/** The self-update command a router runs: two downloads retried under one
    budget, a gate before anything is written, and the order in which a failed
    install is undone. Time is real; the command reads whole seconds. */
module Fetch {
  datatype Result = Good | WrongSum | Error | NoDownloader

  datatype Try = Try(seconds: real, result: Result)

  // How often, how long each, how long in all, and the pause between.
  datatype Limits = Limits(attempts: nat, timeout: real, budget: nat, delay: real)

  const SHIPPED := Limits(4, 12.0, 45, 2.0)
  const GATE := 75

  predicate Sensible(l: Limits) { l.attempts > 0 && l.timeout >= 0.0 && l.delay >= 0.0 }

  predicate Timed(tries: seq<Try>, l: Limits) {
    |tries| == l.attempts && forall i :: 0 <= i < |tries| ==> 0.0 <= tries[i].seconds <= l.timeout
  }

  function Mono(t: real): int { t.Floor }

  function MaxReal(x: real, y: real): real { if x >= y then x else y }

  // One download from its k-th try on: when it ends, and whether it succeeded.
  function Fetched(now: real, k: nat, deadline: int, tries: seq<Try>, l: Limits): (bool, real)
    requires |tries| == l.attempts && k < l.attempts
    decreases l.attempts - k
  {
    var t := now + tries[k].seconds;
    if tries[k].result.Good? then (true, t)
    else if tries[k].result.NoDownloader? || k + 1 >= l.attempts || Mono(t) >= deadline then (false, t)
    else Fetched(t + l.delay, k + 1, deadline, tries, l)
  }

  // The time k tries and the pauses after them can take.
  function Spent(k: nat, l: Limits): real { if k == 0 then 0.0 else Spent(k - 1, l) + l.timeout + l.delay }

  function TriesTake(l: Limits): real { Spent(l.attempts, l) - l.delay }

  lemma {:induction false} SpentIsAProduct(k: nat, l: Limits)
    ensures Spent(k, l) == k as real * (l.timeout + l.delay)
  {
    if k > 0 {
      SpentIsAProduct(k - 1, l);
    }
  }

  lemma {:induction false} SpentGrows(j: nat, k: nat, l: Limits)
    requires j <= k && Sensible(l)
    ensures Spent(j, l) <= Spent(k, l)
  {
    if j < k {
      SpentGrows(j, k - 1, l);
    }
  }

  // However long each try takes: all tries and pauses bound the download, and
  // past the first try the deadline does.
  lemma {:induction false} FetchIsBounded(start: real, now: real, k: nat, deadline: int, tries: seq<Try>, l: Limits)
    requires Sensible(l) && Timed(tries, l) && k < l.attempts
    requires now <= start + Spent(k, l)
    requires k > 0 ==> now <= deadline as real + l.delay
    ensures var end := Fetched(now, k, deadline, tries, l).1;
            && end <= start + TriesTake(l)
            && end <= MaxReal(if k == 0 then now + l.timeout else deadline as real + l.delay + l.timeout,
                              deadline as real + l.delay + l.timeout)
            && end >= now
    decreases l.attempts - k
  {
    var t := now + tries[k].seconds;
    SpentGrows(k + 1, l.attempts, l);
    if !tries[k].result.Good? && !tries[k].result.NoDownloader? && k + 1 < l.attempts && Mono(t) < deadline {
      FetchIsBounded(start, t + l.delay, k + 1, deadline, tries, l);
    }
  }

  // Both downloads: the second starts when the first ends, under the deadline
  // the first one set.
  function PairFetched(start: real, agent: seq<Try>, luci: seq<Try>, l: Limits): (bool, real)
    requires Sensible(l) && |agent| == |luci| == l.attempts
  {
    var deadline := Mono(start) + l.budget;
    var (ok, t) := Fetched(start, 0, deadline, agent, l);
    if ok then Fetched(t, 0, deadline, luci, l) else (false, t)
  }

  function PairBound(l: Limits): real {
    MaxReal(TriesTake(l) + l.timeout, l.budget as real + l.delay + l.timeout)
  }

  lemma PairIsBounded(start: real, agent: seq<Try>, luci: seq<Try>, l: Limits)
    requires Sensible(l) && Timed(agent, l) && Timed(luci, l)
    ensures PairFetched(start, agent, luci, l).1 <= start + PairBound(l)
  {
    var deadline := Mono(start) + l.budget;
    var (ok, t) := Fetched(start, 0, deadline, agent, l);
    FetchIsBounded(start, start, 0, deadline, agent, l);
    if ok {
      FetchIsBounded(t, t, 0, deadline, luci, l);
    }
  }

  // 66 seconds with the shipped limits, and no less: it can be reached.
  lemma ShippedBound(start: real)
    ensures PairBound(SHIPPED) == 66.0
  {
    SpentIsAProduct(4, SHIPPED);
  }

  lemma ShippedBoundIsReached()
    ensures var slow := Try(12.0, Error);
            var late := [slow, slow, slow, Try(12.0, Good)];
            PairFetched(0.0, late, late, SHIPPED) == (false, 66.0)
  {
    var slow := Try(12.0, Error);
    var late := [slow, slow, slow, Try(12.0, Good)];
    assert Fetched(42.0, 3, 45, late, SHIPPED) == (true, 54.0);
    assert Fetched(28.0, 2, 45, late, SHIPPED) == (true, 54.0);
    assert Fetched(14.0, 1, 45, late, SHIPPED) == (true, 54.0);
    assert Fetched(0.0, 0, 45, late, SHIPPED) == (true, 54.0);
    assert Fetched(54.0, 0, 45, late, SHIPPED) == (false, 66.0);
  }

  // When try i ends, counted from try k that starts at `now`.
  function TryEnds(now: real, k: nat, i: nat, tries: seq<Try>, l: Limits): real
    requires k <= i < |tries|
    decreases i - k
  {
    var t := now + tries[k].seconds;
    if i == k then t else TryEnds(t + l.delay, k + 1, i, tries, l)
  }

  // Try i is made and succeeds: every one before it failed, for want of anything
  // but a downloader, and ended before the deadline.
  predicate SucceedsAt(now: real, k: nat, i: nat, deadline: int, tries: seq<Try>, l: Limits)
    requires k <= i < |tries|
  {
    && tries[i].result.Good?
    && forall m :: k <= m < i ==> GoesOn(now, k, m, deadline, tries, l)
  }

  predicate GoesOn(now: real, k: nat, m: nat, deadline: int, tries: seq<Try>, l: Limits)
    requires k <= m < |tries|
  {
    !tries[m].result.Good? && !tries[m].result.NoDownloader? && TryEnds(now, k, m, tries, l).Floor < deadline
  }

  // A download succeeds exactly when some try does that is made, and ends with it.
  lemma {:induction false} SuccessIsATry(now: real, k: nat, deadline: int, tries: seq<Try>, l: Limits)
    requires |tries| == l.attempts && k < l.attempts
    ensures Fetched(now, k, deadline, tries, l).0 <==> exists i :: k <= i < l.attempts && SucceedsAt(now, k, i, deadline, tries, l)
    ensures forall i :: k <= i < l.attempts && SucceedsAt(now, k, i, deadline, tries, l) ==>
              Fetched(now, k, deadline, tries, l).1 == TryEnds(now, k, i, tries, l)
    decreases l.attempts - k
  {
    var next := now + tries[k].seconds + l.delay;
    if tries[k].result.Good? {
      assert SucceedsAt(now, k, k, deadline, tries, l);
      assert !GoesOn(now, k, k, deadline, tries, l);
    } else if k + 1 < l.attempts && GoesOn(now, k, k, deadline, tries, l) {
      SuccessIsATry(next, k + 1, deadline, tries, l);
      forall i | k < i < l.attempts
        ensures SucceedsAt(now, k, i, deadline, tries, l) <==> SucceedsAt(next, k + 1, i, deadline, tries, l)
        ensures TryEnds(now, k, i, tries, l) == TryEnds(next, k + 1, i, tries, l)
      {
        OneTryLater(now, k, i, deadline, tries, l);
      }
      assert !SucceedsAt(now, k, k, deadline, tries, l);
      if Fetched(now, k, deadline, tries, l).0 {
        var i :| k + 1 <= i < l.attempts && SucceedsAt(next, k + 1, i, deadline, tries, l);
        assert SucceedsAt(now, k, i, deadline, tries, l);
      }
    } else {
      assert k + 1 < l.attempts ==> !GoesOn(now, k, k, deadline, tries, l);
    }
  }

  lemma OneTryLater(now: real, k: nat, i: nat, deadline: int, tries: seq<Try>, l: Limits)
    requires k < i < |tries| && GoesOn(now, k, k, deadline, tries, l)
    ensures var next := now + tries[k].seconds + l.delay;
            && TryEnds(now, k, i, tries, l) == TryEnds(next, k + 1, i, tries, l)
            && (SucceedsAt(now, k, i, deadline, tries, l) <==> SucceedsAt(next, k + 1, i, deadline, tries, l))
  {
    var next := now + tries[k].seconds + l.delay;
    forall m | k < m < i
      ensures GoesOn(now, k, m, deadline, tries, l) <==> GoesOn(next, k + 1, m, deadline, tries, l)
    {
      assert TryEnds(now, k, m, tries, l) == TryEnds(next, k + 1, m, tries, l);
    }
    if SucceedsAt(next, k + 1, i, deadline, tries, l) {
      forall m | k <= m < i
        ensures GoesOn(now, k, m, deadline, tries, l)
      {
        assert m > k ==> GoesOn(next, k + 1, m, deadline, tries, l);
      }
    }
    if SucceedsAt(now, k, i, deadline, tries, l) {
      var later := k + 1;
      forall m | later <= m < i
        ensures GoesOn(next, later, m, deadline, tries, l)
      {
        assert GoesOn(now, k, m, deadline, tries, l);
      }
    }
  }

  // The first succeeds at its try i, and the second, from where that ended and
  // under the deadline the first one set, at its try j.
  predicate BothAt(start: real, i: nat, j: nat, agent: seq<Try>, luci: seq<Try>, l: Limits) {
    && i < |agent| && j < |luci|
    && SucceedsAt(start, 0, i, start.Floor + l.budget, agent, l)
    && SucceedsAt(TryEnds(start, 0, i, agent, l), 0, j, start.Floor + l.budget, luci, l)
  }

  lemma PairIsBoth(start: real, agent: seq<Try>, luci: seq<Try>, l: Limits)
    requires Sensible(l) && |agent| == |luci| == l.attempts
    ensures PairFetched(start, agent, luci, l).0 <==> exists i: nat, j: nat :: BothAt(start, i, j, agent, luci, l)
  {
    var deadline := start.Floor + l.budget;
    var t := Fetched(start, 0, deadline, agent, l).1;
    SuccessIsATry(start, 0, deadline, agent, l);
    SuccessIsATry(t, 0, deadline, luci, l);
    if PairFetched(start, agent, luci, l).0 {
      var i :| 0 <= i < l.attempts && SucceedsAt(start, 0, i, deadline, agent, l);
      var j :| 0 <= j < l.attempts && SucceedsAt(t, 0, j, deadline, luci, l);
      assert BothAt(start, i, j, agent, luci, l);
    }
    if i: nat, j: nat :| BothAt(start, i, j, agent, luci, l) {
      assert SucceedsAt(start, 0, i, deadline, agent, l) && SucceedsAt(t, 0, j, deadline, luci, l);
    }
  }

  /* ---- The whole job ---- */

  // What the command does to the router that outlives it.
  datatype Effect = GuardWritten | Prepared | Installed | Restored | Armed | Launched

  // How the rest of the command goes.
  datatype Rest = Rest(
    resources: bool, before: real,          // the resource guard, the time up to the downloads
    inspected: bool, inspection: real,      // the agent package holds the agent
    guardFits: bool, prepareCode: nat,
    opkg: bool, checks: seq<bool>,          // opkg, then everything verified after it
    arm: bool, launch: bool)

  predicate AllPass(checks: seq<bool>) { forall i :: 0 <= i < |checks| ==> checks[i] }

  // With resources, both packages fetched and the agent's inspected, no more than
  // 75 seconds are gone on the clock.
  predicate InTime(started: real, agent: seq<Try>, luci: seq<Try>, rest: Rest, l: Limits)
    requires Sensible(l) && |agent| == |luci| == l.attempts
  {
    var (ok, t) := PairFetched(started + rest.before, agent, luci, l);
    rest.resources && ok && rest.inspected && (t + rest.inspection).Floor - started.Floor <= 75
  }

  class Job {
    const limits: Limits
    const started: real
    var now: real
    var deadline: int
    var installing: bool
    var effects: seq<Effect>

    constructor (limits: Limits, started: real)
      ensures this.limits == limits && this.started == started
      ensures now == started && deadline == 0 && !installing && effects == []
    {
      this.limits, this.started := limits, started;
      now, deadline, installing, effects := started, 0, false, [];
    }

    method Download(tries: seq<Try>) returns (ok: bool)
      requires Sensible(limits) && |tries| == limits.attempts
      modifies `now, `deadline
      ensures deadline == if old(deadline) > 0 then old(deadline) else Mono(old(now)) + limits.budget
      ensures (ok, now) == Fetched(old(now), 0, deadline, tries, limits)
    {
      if deadline <= 0 {
        deadline := Mono(now) + limits.budget;
      }
      var k := 0;
      while true
        invariant k < limits.attempts
        invariant deadline == if old(deadline) > 0 then old(deadline) else Mono(old(now)) + limits.budget
        invariant Fetched(now, k, deadline, tries, limits) == Fetched(old(now), 0, deadline, tries, limits)
        decreases limits.attempts - k
      {
        now := now + tries[k].seconds;
        k := k + 1;
        if tries[k - 1].result.Good? {
          return true;
        }
        if tries[k - 1].result.NoDownloader? || k >= limits.attempts || Mono(now) >= deadline {
          return false;
        }
        now := now + limits.delay;
      }
    }

    // Every failure while installing first puts the previous version back.
    method Fail() returns (code: nat)
      modifies `installing, `effects
      ensures code == 1 && !installing
      ensures effects == if old(installing) then old(effects) + [Restored] else old(effects)
    {
      if installing {
        installing := false;
        effects := effects + [Restored];
      }
      return 1;
    }

    // Up to the gate: is the router about to be written to?
    method Obtain(agent: seq<Try>, luci: seq<Try>, rest: Rest) returns (code: nat, ghost fetchedFrom: real)
      requires Sensible(limits) && |agent| == |luci| == limits.attempts
      requires started >= 0.0 && limits.budget > 0 && rest.before >= 0.0
      requires now == started && deadline == 0 && !installing && effects == []
      modifies this
      ensures !installing && effects == []
      ensures fetchedFrom == started + rest.before
      ensures code == 0 <==> InTime(started, agent, luci, rest, limits)
      ensures code == 0 ==> now == PairFetched(fetchedFrom, agent, luci, limits).1 + rest.inspection
      ensures code == 0 ==> Mono(now) - Mono(started) <= 75
      ensures code != 0 ==> code == if rest.resources then 1 else 72
    {
      fetchedFrom := started + rest.before;
      if !rest.resources {
        return 72, fetchedFrom;
      }
      now := now + rest.before;
      var ok := Download(agent);
      if !ok {
        code := Fail();
        return;
      }
      ok := Download(luci);
      if !ok {
        code := Fail();
        return;
      }
      now := now + rest.inspection;
      if !rest.inspected || Mono(now) - Mono(started) > GATE {
        code := Fail();
        return;
      }
      return 0, fetchedFrom;
    }

    method Run(agent: seq<Try>, luci: seq<Try>, rest: Rest) returns (code: nat, ghost writtenAt: real)
      requires Sensible(limits) && |agent| == |luci| == limits.attempts
      requires started >= 0.0 && limits.budget > 0 && rest.before >= 0.0
      requires now == started && deadline == 0 && !installing && effects == []
      modifies this
      // Nothing is written unless both checksums matched and the gate was open.
      ensures effects != [] <==> InTime(started, agent, luci, rest, limits) && rest.guardFits
      ensures effects != [] ==> Mono(writtenAt) - Mono(started) <= 75
      // No install without a rollback copy.
      ensures Installed in effects ==> |effects| >= 3 && effects[..3] == [GuardWritten, Prepared, Installed]
      ensures Installed in effects <==> InTime(started, agent, luci, rest, limits) && rest.guardFits && rest.prepareCode == 0
      // A failed install, and only that, is undone, as the last thing done.
      ensures Restored in effects <==> Installed in effects && !(rest.opkg && AllPass(rest.checks))
      ensures Restored in effects ==> code == 1 && effects == [GuardWritten, Prepared, Installed, Restored]
      // Success is reported exactly when the restart is armed and launched.
      ensures code == 0 <==> effects == [GuardWritten, Prepared, Installed, Armed, Launched]
      // And it is when nothing failed.
      ensures code == 0 <==> Installed in effects && rest.opkg && AllPass(rest.checks) && rest.arm && rest.launch
    {
      code, writtenAt := Obtain(agent, luci, rest);
      writtenAt := now;
      if code != 0 {
        return;
      }
      if !rest.guardFits {
        return 73, writtenAt;
      }
      effects := [GuardWritten];
      if rest.prepareCode != 0 {
        return rest.prepareCode, writtenAt;
      }
      effects := effects + [Prepared];
      installing := true;
      effects := effects + [Installed];
      if !rest.opkg {
        code := Fail();
        return;
      }
      for i := 0 to |rest.checks|
        invariant forall k :: 0 <= k < i ==> rest.checks[k]
        invariant installing && effects == [GuardWritten, Prepared, Installed]
      {
        if !rest.checks[i] {
          code := Fail();
          return;
        }
      }
      installing := false;
      if !rest.arm {
        return 1, writtenAt;
      }
      effects := effects + [Armed];
      if !rest.launch {
        return 1, writtenAt;
      }
      effects := effects + [Launched];
      return 0, writtenAt;
    }
  }

  // At the gate no more than 75 seconds have gone by on the clock, so fewer
  // than 76 in all: with the job's 120, more than 44 are left.
  lemma GateLeavesTime(started: real, now: real)
    requires Mono(now) - Mono(started) <= GATE
    ensures now - started < 76.0
  {
  }
}
