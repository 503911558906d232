/** Rolling a release out to the fleet, one router at a time: what a router's
    install job does, when a router is skipped, and when everything stops. */
module Rollout {
  import opened Wrappers
  import opened RolloutVersions

  const WINDOW := 300
  const EARLY := 600
  const MEBIBYTE := 0x10_0000

  datatype Package = Package(version: string, size: nat, installedSize: nat)

  // The release to install and the xray-core of its channel.
  datatype Plan = Plan(version: string, target: seq<nat>, entry: Package, xray: Option<Package>)

  datatype Router = Router(host: string, version: string, xrayPackage: string, xrayBinary: string, pending: bool)

  /* ---- One router's jobs ---- */

  // What a terminal job comes back with.
  datatype Reply = Busy | Failed | TimedOut | Output

  datatype Poll = NoHistory | Active | Ended(succeeded: bool, output: bool)

  // Queueing is answered with the job asked for or with someone else's, at the
  // first try and at the second; then the history is read until 240 s are over.
  datatype Job = Job(mine: bool, mineThen: bool, polls: seq<Poll>)

  predicate FirstEnd(polls: seq<Poll>, k: nat) {
    k < |polls| && polls[k].Ended? && forall i :: 0 <= i < k ==> !polls[i].Ended?
  }

  predicate Delivered(p: Poll) { p.Ended? && (p.succeeded || p.output) }

  // The job ran as our own, and its end brought a result.
  ghost predicate Delivers(j: Job) {
    (j.mine || j.mineThen) && exists k: nat :: FirstEnd(j.polls, k) && Delivered(j.polls[k])
  }

  // Someone else's job is waited out once, then given up.
  method RunJob(j: Job) returns (r: Reply)
    ensures r.Output? <==> Delivers(j)
    ensures r.Output? ==> j.mine || j.mineThen
    ensures (j.mine || j.mineThen) && !r.TimedOut? ==>
              exists k: nat :: FirstEnd(j.polls, k) && (r.Output? <==> j.polls[k].succeeded || j.polls[k].output)
    ensures r.Busy? <==> !j.mine && !j.mineThen
    ensures r.TimedOut? <==> !r.Busy? && forall p :: p in j.polls ==> !p.Ended?
    ensures r.Failed? ==> exists k: nat :: FirstEnd(j.polls, k) && !Delivered(j.polls[k])
  {
    if !j.mine && !j.mineThen {
      return Busy;
    }
    for i := 0 to |j.polls|
      invariant forall k :: 0 <= k < i ==> !j.polls[k].Ended?
    {
      if j.polls[i].Ended? {
        assert FirstEnd(j.polls, i);
        assert forall k: nat :: FirstEnd(j.polls, k) ==> k == i;
        return if j.polls[i].succeeded || j.polls[i].output then Output else Failed;
      }
    }
    return TimedOut;
  }

  datatype How = Keep | Install | Reinstall | Downgrade

  function XrayHow(package: string, binary: string, xray: Option<Package>): How {
    match xray
    case None => Keep
    case Some(x) =>
      if package == x.version then (if binary == Upstream(x.version) then Keep else Reinstall)
      else if package != "" && !AtLeast(VersionKey(x.version), VersionKey(package)) then Downgrade
      else Install
  }

  datatype Room = Room(mem: int, overlay: int, tmp: int)

  const FLOORS := Room(40, 16, 16)

  function Mib(bytes: int): int { -((-bytes) / MEBIBYTE) }

  predicate Compresses(fs: string) { fs == "ubifs" || fs == "jffs2" }

  function XrayNeed(x: Package, fs: string): int {
    if Compresses(fs) then Mib(x.size * 14 / 10) else Mib(x.installedSize)
  }

  function FloorsFor(version: string, fs: string, p: Plan, how: How): Room {
    if how.Keep? || p.xray.None? then FLOORS
    else
      var x, v := XrayNeed(p.xray.value, fs), Mib(p.entry.installedSize);
      var need := if Releases(version) then Max(x, v) else x + v;
      Room(FLOORS.mem, Max(FLOORS.overlay, need + 4), FLOORS.tmp + Mib(p.xray.value.size))
  }

  predicate Holds(mebibytes: int, bytes: int) { mebibytes * 0x10_0000 >= bytes }

  lemma MibExactly(m: int, bytes: int)
    ensures Holds(m, bytes) <==> m >= Mib(bytes)
  {
  }

  // The channel's xray-core, where it is not the one that is there already.
  function GoesIn(package: string, binary: string, xray: Option<Package>): Option<Package> {
    if xray.None? || (package == xray.value.version && binary == Upstream(xray.value.version)) then None else xray
  }

  // How it goes in: by itself, again, or over a later one.
  lemma XrayHowExactly(package: string, binary: string, xray: Option<Package>)
    ensures var how, going := XrayHow(package, binary, xray), GoesIn(package, binary, xray);
            && (how.Keep? <==> going.None?)
            && (how.Reinstall? <==> going.Some? && package == going.value.version)
            && (how.Downgrade? <==> going.Some? && Later(VersionKey(package), VersionKey(going.value.version)))
            && (how.Install? <==> going.Some? && package != going.value.version && !Later(VersionKey(package), VersionKey(going.value.version)))
  {
    if xray.Some? {
      AtLeastExactly(VersionKey(xray.value.version), VersionKey(package));
    }
  }

  // Room for a router's update: 40 MiB of memory; 16 on the flash, and where the
  // channel's xray-core goes in as much as it takes there, with 4 to spare; 16 in
  // /tmp beside its download. A vctl that lets go of the old xray needs room for
  // one of the two packages at a time, else for both, each in whole MiB.
  ghost predicate HasRoom(free: Room, version: string, fs: string, entry: Package, going: Option<Package>) {
    && free.mem >= 40 && free.overlay >= 16 && free.tmp >= 16
    && (going.Some? ==>
          var stored := if fs == "ubifs" || fs == "jffs2" then going.value.size * 14 / 10 else going.value.installedSize;
          && Holds(free.tmp - 16, going.value.size)
          && if Releases(version) then Holds(free.overlay - 4, stored) && Holds(free.overlay - 4, entry.installedSize)
             else HoldsBoth(free.overlay - 4, stored, entry.installedSize))
  }

  ghost predicate HoldsBoth(mebibytes: int, x: int, y: int) {
    exists a :: Holds(a, x) && Holds(mebibytes - a, y)
  }

  lemma BothExactly(m: int, x: int, y: int)
    ensures HoldsBoth(m, x, y) <==> m >= Mib(x) + Mib(y)
  {
    if a :| Holds(a, x) && Holds(m - a, y) {
      MibExactly(a, x);
      MibExactly(m - a, y);
    }
    if m >= Mib(x) + Mib(y) {
      MibExactly(Mib(x), x);
      MibExactly(m - Mib(x), y);
      assert Holds(Mib(x), x) && Holds(m - Mib(x), y);
    }
  }

  // The floors are exactly that room.
  lemma FloorsCoverExactly(version: string, fs: string, p: Plan, how: How, free: Room)
    requires p.xray.None? ==> how.Keep?
    ensures var f, going := FloorsFor(version, fs, p, how), if how.Keep? then None else p.xray;
            free.mem >= f.mem && free.overlay >= f.overlay && free.tmp >= f.tmp <==> HasRoom(free, version, fs, p.entry, going)
  {
    if !how.Keep? {
      var x := p.xray.value;
      var stored := if Compresses(fs) then x.size * 14 / 10 else x.installedSize;
      MibExactly(free.tmp - 16, x.size);
      MibExactly(free.overlay - 4, stored);
      MibExactly(free.overlay - 4, p.entry.installedSize);
      BothExactly(free.overlay - 4, stored, p.entry.installedSize);
    }
  }

  datatype Intake = Intake(
    host: string, version: string, pending: string, drill: string, index: string,
    free: Room, fs: string, xrayPackage: string, xrayBinary: string)

  // What a reading finds beside the router's own state.
  datatype Surroundings = Surroundings(drill: string, index: string, free: Room, fs: string)

  function TakeIntake(r: Router, e: Surroundings): Intake {
    Intake(r.host, r.version, if r.pending then "yes" else "no", e.drill, e.index, e.free, e.fs, r.xrayPackage, r.xrayBinary)
  }

  datatype Verdict = GoOn | SkipIt | StopAll

  // What the intake decides, in the order the script asks.
  function Judge(it: Intake, host: string, p: Plan): Verdict {
    if it.host != host then SkipIt
    else if it.pending != "no" then StopAll
    else if Release(it.version).None? then SkipIt
    else if AtLeast(Release(it.version).value, p.target) then SkipIt
    else if it.drill != "no" then SkipIt
    else if it.index != "signed" then SkipIt
    else
      var how := XrayHow(it.xrayPackage, it.xrayBinary, p.xray);
      var f := FloorsFor(it.version, it.fs, p, how);
      if it.free.mem < f.mem || it.free.overlay < f.overlay || it.free.tmp < f.tmp then SkipIt else GoOn
  }

  // The router is asked to install exactly when the two names agree, no install
  // is pending, its release is older, no drill is on, the index is signed there
  // and it has room.
  ghost predicate Ready(r: Router, host: string, e: Surroundings, p: Plan) {
    && r.host == host && !r.pending
    && Older(r.version, p)
    && e.drill == "no" && e.index == "signed"
    && HasRoom(e.free, r.version, e.fs, p.entry, GoesIn(r.xrayPackage, r.xrayBinary, p.xray))
  }

  predicate Older(version: string, p: Plan) {
    Release(version).Some? && !AtLeast(Release(version).value, p.target)
  }

  // Everything stops exactly at an install that is pending on the right host.
  lemma JudgedExactly(r: Router, e: Surroundings, host: string, p: Plan)
    ensures var v := Judge(TakeIntake(r, e), host, p);
            && (v.GoOn? <==> Ready(r, host, e, p))
            && (v.StopAll? <==> r.host == host && r.pending)
  {
    var how := XrayHow(r.xrayPackage, r.xrayBinary, p.xray);
    XrayHowExactly(r.xrayPackage, r.xrayBinary, p.xray);
    FloorsCoverExactly(r.version, e.fs, p, how, e.free);
    assert "yes"[0] != "no"[0];
  }

  /* ---- The install job, on the router ---- */

  datatype Checks = Checks(index: bool, signature: bool, entry: bool, download: bool, sha: bool, xrayEntry: bool)

  datatype Answer = Started | Refused(err: string)

  predicate InWindow(now: int, issued: int) { issued - EARLY <= now <= issued + WINDOW }

  predicate BeforeAnything(a: Answer) {
    a == Refused("expired_or_clock") || a == Refused("wrong_host") || a == Refused("pending")
  }

  // A start needs the window, the host, no other install, the signed index's
  // entries and the package's checksum; without all of them the router stays as
  // it was. `staged` is the working directory, `left` what the job leaves of it:
  // the refusals that come before anything do not even touch it.
  method InstallJob(r: Router, staged: bool, host: string, issued: int, now: int, how: How, c: Checks)
    returns (s: Router, left: bool, a: Answer)
    ensures a.Started? <==> issued - 600 <= now <= issued + 300 && r.host == host && !r.pending
                            && c.index && c.signature && c.entry && c.download && c.sha && (how.Keep? || c.xrayEntry)
    ensures s == if a.Started? then r.(pending := true) else r
    ensures BeforeAnything(a) <==> !(issued - 600 <= now <= issued + 300) || r.host != host || r.pending
    ensures left == if BeforeAnything(a) then staged else a.Started?
  {
    s, left := r, staged;
    if !InWindow(now, issued) {
      return s, left, Refused("expired_or_clock");
    }
    if s.host != host {
      return s, left, Refused("wrong_host");
    }
    if s.pending {
      return s, left, Refused("pending");
    }
    left := true;
    var failed := FirstFailure(how, c);
    if failed.Some? {
      left := false;
      return s, left, Refused(failed.value);
    }
    s := s.(pending := true);
    a := Started;
  }

  // The checks in the script's order.
  function FirstFailure(how: How, c: Checks): (f: Option<string>)
    ensures f.None? <==> c.index && c.signature && c.entry && c.download && c.sha && (how.Keep? || c.xrayEntry)
    ensures f.Some? ==> !BeforeAnything(Refused(f.value))
  {
    assert "index"[0] == 'i' && "index_signature"[0] == 'i' && "not_in_signed_index"[0] == 'n';
    assert "download"[0] == 'd' && "sha"[0] == 's' && "xray_not_in_signed_index"[0] == 'x';
    assert "expired_or_clock"[0] == 'e' && "wrong_host"[0] == 'w' && "pending"[0] == 'p';
    if !c.index then Some("index")
    else if !c.signature then Some("index_signature")
    else if !c.entry then Some("not_in_signed_index")
    else if !c.download then Some("download")
    else if !c.sha then Some("sha")
    else if !how.Keep? && !c.xrayEntry then Some("xray_not_in_signed_index")
    else None
  }

  /* ---- Health ---- */

  datatype Health = Health(
    version: string, opkg: string, pending: string, agent: string, xray: string, dataplane: string,
    yt: string, ig: string, ya: string, xrayPackage: string, xrayBinary: string)

  predicate Answers(code: string) { code == "200" || code == "301" || code == "302" }

  predicate Healthy(h: Health, p: Plan) {
    && (p.xray.Some? ==> h.xrayPackage == p.xray.value.version && h.xrayBinary == Upstream(p.xray.value.version))
    && h.pending == "no" && h.opkg == "rc=0"
    && h.version == p.version
    && h.agent == "new" && h.xray == "running" && h.dataplane == "true"
    && h.yt == "204" && Answers(h.ig) && Answers(h.ya)
  }

  // The list of complaints; empty exactly when healthy.
  method Complaints(h: Health, p: Plan) returns (bad: seq<string>)
    ensures bad == [] <==> Healthy(h, p)
    ensures bad == [] ==> && h.version == p.version && h.opkg == "rc=0" && h.pending == "no" && h.agent == "new"
                          && h.xray == "running" && h.dataplane == "true"
                          && h.yt == "204" && h.ig in ["200", "301", "302"] && h.ya in ["200", "301", "302"]
  {
    bad := [];
    if p.xray.Some? && (h.xrayPackage != p.xray.value.version || h.xrayBinary != Upstream(p.xray.value.version)) {
      bad := bad + ["xray not the channel's"];
    }
    if h.pending != "no" || h.opkg != "rc=0" {
      bad := bad + ["opkg"];
    }
    if h.version != p.version {
      bad := bad + ["version"];
    }
    if h.agent != "new" {
      bad := bad + ["controller"];
    }
    if h.xray != "running" {
      bad := bad + ["xray down"];
    }
    if h.dataplane != "true" {
      bad := bad + ["data plane"];
    }
    var codes := [h.yt, h.ig, h.ya];
    for k := 0 to 3
      invariant bad == [] <==>
                (p.xray.Some? ==> h.xrayPackage == p.xray.value.version && h.xrayBinary == Upstream(p.xray.value.version))
                && h.pending == "no" && h.opkg == "rc=0" && h.version == p.version
                && h.agent == "new" && h.xray == "running" && h.dataplane == "true"
                && (k > 0 ==> h.yt == "204") && (k > 1 ==> Answers(h.ig)) && (k > 2 ==> Answers(h.ya))
    {
      if if k == 0 then codes[k] != "204" else !Answers(codes[k]) {
        bad := bad + ["site"];
      }
    }
  }

  /* ---- The rollout ---- */

  // What the world answers while one router is visited.
  datatype Visit = Visit(
    panelHost: string,                      // the panel's name for the router
    intake: Job, around: Surroundings,
    install: Job, ran: bool,                // did a job that could not be followed run all the same?
    staged: bool, issued: int, now: int, checks: Checks,
    after: Router,                          // the router once a started install is through
    health: seq<(Job, Health)>)

  datatype Outcome = Done | Skip | Stop

  // Events of the rollout, each at a place of the plan: a job was asked of the
  // router; an install began there, over a version; its health check passed.
  datatype Event = JobAsked(at: nat) | Touched(at: nat, from: string) | Verified(at: nat)

  // An install that began is verified before any other router gets any job.
  ghost predicate Contained(t: seq<Event>) {
    forall i, j :: 0 <= i < j < |t| && t[i].Touched? && t[j].at != t[i].at ==> VerifiedBetween(t, i, j)
  }

  ghost predicate VerifiedBetween(t: seq<Event>, i: int, j: int) {
    exists m :: 0 <= i < m < j <= |t| && t[m] == Verified(t[i].at)
  }

  ghost predicate Settled(t: seq<Event>) {
    forall i :: 0 <= i < |t| && t[i].Touched? ==> VerifiedBetween(t, i, |t|)
  }

  predicate AllAt(t: seq<Event>, at: nat) { forall i :: 0 <= i < |t| ==> t[i].at == at }

  predicate NoneTouched(t: seq<Event>) { forall i :: 0 <= i < |t| ==> !t[i].Touched? }

  predicate OnlyOlder(t: seq<Event>, p: Plan) {
    forall i :: 0 <= i < |t| && t[i].Touched? ==> Older(t[i].from, p)
  }

  lemma ContainedGrows(t: seq<Event>, more: seq<Event>, at: nat)
    requires Contained(t) && Settled(t) && AllAt(more, at)
    ensures Contained(t + more)
  {
    var u := t + more;
    forall i, j | 0 <= i < j < |u| && u[i].Touched? && u[j].at != u[i].at
      ensures VerifiedBetween(u, i, j)
    {
      assert i < |t|;
      if j < |t| {
        assert VerifiedBetween(t, i, j);
        var m :| i < m < j && t[m] == Verified(t[i].at);
        assert u[m] == t[m];
      } else {
        assert VerifiedBetween(t, i, |t|);
        var m :| i < m < |t| && t[m] == Verified(t[i].at);
        assert u[m] == t[m];
      }
    }
  }

  lemma SettledGrows(t: seq<Event>, more: seq<Event>, at: nat)
    requires Settled(t) && AllAt(more, at)
    requires NoneTouched(more) || (more != [] && more[|more| - 1] == Verified(at))
    ensures Settled(t + more)
  {
    var u := t + more;
    forall i | 0 <= i < |u| && u[i].Touched?
      ensures VerifiedBetween(u, i, |u|)
    {
      if i < |t| {
        assert VerifiedBetween(t, i, |t|);
        var m :| i < m < |t| && t[m] == Verified(t[i].at);
        assert u[m] == t[m];
      } else {
        assert more[i - |t|] == u[i];
        assert u[|u| - 1] == Verified(at);
      }
    }
  }

  // So at every point of a contained run at most one router is installed and
  // not yet verified: of two, the first was verified before the second began.
  lemma AtMostOneOpen(t: seq<Event>, i: nat, j: nat)
    requires Contained(t) && i < j < |t| && t[i].Touched? && t[j].Touched? && t[i].at != t[j].at
    ensures Verified(t[i].at) in t[..j]
  {
    assert VerifiedBetween(t, i, j);
    var m :| i < m < j && t[m] == Verified(t[i].at);
    assert t[..j][m] == t[m];
  }

  // What one visit adds.
  function VisitEvents(at: nat, touched: Option<string>, verified: bool): seq<Event> {
    match touched
    case None => if verified then [JobAsked(at), Verified(at)] else [JobAsked(at)]
    case Some(from) => if verified then [JobAsked(at), Touched(at, from), Verified(at)] else [JobAsked(at), Touched(at, from)]
  }

  // A trace of the places before `at`, all of them settled.
  ghost predicate Proceeding(t: seq<Event>, at: nat, p: Plan) {
    Contained(t) && Settled(t) && OnlyOlder(t, p) && forall i :: 0 <= i < |t| ==> t[i].at < at
  }

  lemma VisitIsOnePlace(at: nat, touched: Option<string>, verified: bool)
    ensures var more := VisitEvents(at, touched, verified);
            && more != [] && AllAt(more, at)
            && (forall e :: e in more && e.Touched? ==> touched == Some(e.from))
            && (touched.None? && !verified ==> NoneTouched(more))
            && (verified ==> more[|more| - 1] == Verified(at))
  {
  }

  lemma VisitIsOverAnOlder(at: nat, touched: Option<string>, verified: bool, p: Plan)
    requires touched.Some? ==> Older(touched.value, p)
    ensures OnlyOlder(VisitEvents(at, touched, verified), p)
  {
    var more := VisitEvents(at, touched, verified);
    VisitIsOnePlace(at, touched, verified);
    forall i | 0 <= i < |more| && more[i].Touched?
      ensures Older(more[i].from, p)
    {
      assert more[i] in more;
    }
  }

  lemma VisitContained(t: seq<Event>, at: nat, touched: Option<string>, verified: bool)
    requires Contained(t) && Settled(t)
    ensures var u := t + VisitEvents(at, touched, verified); Contained(u) && (touched.None? || verified ==> Settled(u))
  {
    var more := VisitEvents(at, touched, verified);
    ContainedGrows(t, more, at);
    if touched.None? || verified {
      SettledGrows(t, more, at);
    }
  }

  lemma VisitFits(t: seq<Event>, more: seq<Event>, at: nat, p: Plan)
    requires OnlyOlder(t, p) && OnlyOlder(more, p) && AllAt(more, at) && forall i :: 0 <= i < |t| ==> t[i].at < at
    ensures OnlyOlder(t + more, p) && forall i :: 0 <= i < |t + more| ==> (t + more)[i].at < at + 1
  {
    var u := t + more;
    assert forall i :: 0 <= i < |u| ==> u[i] == if i < |t| then t[i] else more[i - |t|];
  }

  lemma VisitExtends(t: seq<Event>, at: nat, touched: Option<string>, verified: bool, p: Plan)
    requires Proceeding(t, at, p) && (touched.Some? ==> Older(touched.value, p))
    ensures var u := t + VisitEvents(at, touched, verified);
            && Contained(u) && OnlyOlder(u, p) && (forall i :: 0 <= i < |u| ==> u[i].at < at + 1)
            && (touched.None? || verified ==> Proceeding(u, at + 1, p))
  {
    VisitIsOnePlace(at, touched, verified);
    VisitIsOverAnOlder(at, touched, verified, p);
    VisitContained(t, at, touched, verified);
    VisitFits(t, VisitEvents(at, touched, verified), at, p);
  }

  // Every place visited so far is done and verified, or was never touched.
  ghost predicate Accounted(t: seq<Event>, visited: nat, done: seq<nat>, visits: seq<Visit>, p: Plan)
    requires visited <= |visits|
  {
    && (forall k :: k in done ==> k < visited && FoundHealthy(visits[k], p) && Verified(k) in t)
    && (forall k :: 0 <= k < visited && k !in done ==> Untouched(t, k))
  }

  lemma AccountedGrows(t: seq<Event>, at: nat, touched: Option<string>, verified: bool, done: seq<nat>, visits: seq<Visit>, p: Plan)
    requires at < |visits| && Accounted(t, at, done, visits, p)
    requires forall i :: 0 <= i < |t| ==> t[i].at < at
    requires verified ==> FoundHealthy(visits[at], p)
    ensures var u := t + VisitEvents(at, touched, verified);
            && Accounted(u, at, done, visits, p)
            && (verified ==> Accounted(u, at + 1, done + [at], visits, p))
            && (touched.None? && !verified ==> Accounted(u, at + 1, done, visits, p))
  {
    var more := VisitEvents(at, touched, verified);
    var u := t + more;
    UntouchedGrows(t, more, at);
    assert forall k :: Verified(k) in t ==> Verified(k) in u;
    if verified {
      assert u[|u| - 1] == Verified(at);
    }
  }

  lemma UntouchedGrows(t: seq<Event>, more: seq<Event>, at: nat)
    requires AllAt(more, at) && forall i :: 0 <= i < |t| ==> t[i].at < at
    ensures forall k :: k != at && Untouched(t, k) ==> Untouched(t + more, k)
    ensures NoneTouched(more) ==> Untouched(t + more, at)
  {
    var u := t + more;
    assert forall i :: 0 <= i < |u| ==> u[i] == if i < |t| then t[i] else more[i - |t|];
  }

  // The intake came back, the router was ready, and its job was taken.
  ghost predicate Asked(r: Router, v: Visit, p: Plan) {
    Delivers(v.intake) && Ready(r, v.panelHost, v.around, p) && (v.install.mine || v.install.mineThen)
  }

  // What the install job finds when it runs: its window, the signed entries, the
  // download and its checksum.
  predicate Starts(r: Router, v: Visit, p: Plan) {
    && v.issued - 600 <= v.now <= v.issued + 300
    && v.checks.index && v.checks.signature && v.checks.entry && v.checks.download && v.checks.sha
    && (GoesIn(r.xrayPackage, r.xrayBinary, p.xray).Some? ==> v.checks.xrayEntry)
  }

  ghost predicate Begun(r: Router, v: Visit, p: Plan) {
    Asked(r, v, p) && Delivers(v.install) && Starts(r, v, p)
  }

  // An install was pending already, the job cannot be followed, or it refused
  // otherwise than for having come too late.
  ghost predicate Halted(r: Router, v: Visit, p: Plan) {
    || (Delivers(v.intake) && r.host == v.panelHost && r.pending)
    || (Asked(r, v, p) && !Delivers(v.install))
    || (Asked(r, v, p) && !Starts(r, v, p) && InWindow(v.now, v.issued))
  }

  class Fleet {
    var routers: seq<Router>
    const plan: Plan

    constructor (routers: seq<Router>, plan: Plan)
      ensures this.routers == routers && this.plan == plan
    {
      this.routers, this.plan := routers, plan;
    }

    // Two tries, a minute apart.
    method HealthCheck(tries: seq<(Job, Health)>) returns (ok: bool)
      requires |tries| == 2
      ensures ok <==> exists k :: 0 <= k < 2 && Delivers(tries[k].0) && Healthy(tries[k].1, plan)
    {
      for k := 0 to 2
        invariant forall m :: 0 <= m < k ==> !(Delivers(tries[m].0) && Healthy(tries[m].1, plan))
      {
        var reply := RunJob(tries[k].0);
        if reply.Output? {
          var bad := Complaints(tries[k].1, plan);
          if bad == [] {
            return true;
          }
        }
      }
      return false;
    }

    // The intake: what it reads decides whether to go on.
    method Look(i: nat, v: Visit) returns (o: Verdict)
      requires i < |routers|
      ensures o.GoOn? <==> Delivers(v.intake) && Ready(routers[i], v.panelHost, v.around, plan)
      ensures o.StopAll? <==> Delivers(v.intake) && routers[i].host == v.panelHost && routers[i].pending
    {
      var reply := RunJob(v.intake);
      if !reply.Output? {
        return SkipIt;
      }
      JudgedExactly(routers[i], v.around, v.panelHost, plan);
      return Judge(TakeIntake(routers[i], v.around), v.panelHost, plan);
    }

    // Intake and install. `touched` is the version an install began over.
    method Begin(i: nat, v: Visit) returns (o: Verdict, touched: Option<string>)
      requires i < |routers|
      modifies this
      ensures routers == if touched.Some? then old(routers)[i := v.after] else old(routers)
      ensures touched.Some? ==> touched.value == old(routers)[i].version && Older(touched.value, plan)
      ensures o.SkipIt? ==> touched.None?
      ensures o.GoOn? <==> Begun(old(routers)[i], v, plan)
      ensures o.StopAll? <==> Halted(old(routers)[i], v, plan)
      ensures touched.Some? <==> Asked(old(routers)[i], v, plan) && Starts(old(routers)[i], v, plan) && (Delivers(v.install) || v.ran)
    {
      touched := None;
      XrayHowExactly(routers[i].xrayPackage, routers[i].xrayBinary, plan.xray);
      o := Look(i, v);
      if !o.GoOn? {
        return;
      }
      var reply := RunJob(v.install);
      if reply.Busy? {
        return SkipIt, None;
      }
      var how := XrayHow(routers[i].xrayPackage, routers[i].xrayBinary, plan.xray);
      var s, left, answer := InstallJob(routers[i], v.staged, v.panelHost, v.issued, v.now, how, v.checks);
      if answer.Started? && (reply.Output? || v.ran) {
        touched := Some(routers[i].version);
        routers := routers[i := v.after];
      }
      if !reply.Output? {
        return StopAll, touched;
      }
      o := if answer.Started? then GoOn else if BeforeAnything(answer) then SkipIt else StopAll;
    }

    // One router: done, skipped or everything stopped.
    method Roll(i: nat, v: Visit) returns (o: Outcome, touched: Option<string>)
      requires i < |routers| && |v.health| == 2
      modifies this
      ensures routers == if touched.Some? then old(routers)[i := v.after] else old(routers)
      ensures touched.Some? ==> touched.value == old(routers)[i].version && Older(touched.value, plan)
      ensures o.Skip? ==> touched.None?
      ensures o.Done? <==> Begun(old(routers)[i], v, plan) && FoundHealthy(v, plan)
      ensures o.Stop? <==> Halted(old(routers)[i], v, plan) || (Begun(old(routers)[i], v, plan) && !FoundHealthy(v, plan))
      ensures o.Done? ==> touched.Some?
    {
      var begun;
      begun, touched := Begin(i, v);
      if !begun.GoOn? {
        return if begun.SkipIt? then Skip else Stop, touched;
      }
      var ok := HealthCheck(v.health);
      o := if ok then Done else Stop;
    }

    // The whole rollout: the routers of the plan in order, until one stops it.
    method RollOut(order: seq<nat>, visits: seq<Visit>)
      returns (finished: bool, visited: nat, done: seq<nat>, ghost trace: seq<Event>)
      requires |visits| == |order|
      requires forall k :: 0 <= k < |order| ==> order[k] < |routers| && |visits[k].health| == 2
      modifies this
      ensures Contained(trace) && OnlyOlder(trace, plan) && visited <= |order|
      ensures forall i :: 0 <= i < |trace| ==> trace[i].at < visited
      ensures finished ==> visited == |order| && Settled(trace) && Accounted(trace, visited, done, visits, plan)
      ensures !finished ==> visited > 0 && Accounted(trace, visited - 1, done, visits, plan)
      ensures OthersKept(old(routers), routers, order[..visited])
    {
      done, visited, trace := [], 0, [];
      while visited < |order|
        invariant visited <= |order| && Proceeding(trace, visited, plan)
        invariant Accounted(trace, visited, done, visits, plan)
        invariant OthersKept(old(routers), routers, order[..visited])
      {
        ghost var before := routers;
        var o, touched := Roll(order[visited], visits[visited]);
        VisitExtends(trace, visited, touched, o.Done?, plan);
        AccountedGrows(trace, visited, touched, o.Done?, done, visits, plan);
        KeptOn(old(routers), before, routers, order, visited);
        trace := trace + VisitEvents(visited, touched, o.Done?);
        if o.Stop? {
          return false, visited + 1, done, trace;
        }
        if o.Done? {
          done := done + [visited];
        }
        visited := visited + 1;
      }
      finished := true;
    }
  }

  // Only the routers named have changed.
  predicate OthersKept(before: seq<Router>, after: seq<Router>, named: seq<nat>) {
    |before| == |after| && forall j :: 0 <= j < |after| && j !in named ==> after[j] == before[j]
  }

  lemma KeptOn(start: seq<Router>, before: seq<Router>, after: seq<Router>, order: seq<nat>, k: nat)
    requires k < |order| && order[k] < |before| && OthersKept(start, before, order[..k])
    requires |after| == |before| && forall j :: 0 <= j < |after| && j != order[k] ==> after[j] == before[j]
    ensures OthersKept(start, after, order[..k + 1])
  {
    assert order[..k + 1] == order[..k] + [order[k]];
  }

  ghost predicate FoundHealthy(v: Visit, p: Plan) {
    exists k :: 0 <= k < |v.health| && Delivers(v.health[k].0) && Healthy(v.health[k].1, p)
  }

  // No install began at this place of the plan.
  predicate Untouched(t: seq<Event>, at: nat) { forall i :: 0 <= i < |t| && t[i].at == at ==> !t[i].Touched? }
}
