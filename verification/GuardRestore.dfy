/** The update guard at work: taking the rollback copy, one rollback attempt
    with its loops, and retrying until the old version is back. Power may go
    between any two steps; a command may fail; a write may be cut short. */
module GuardRestore {
  import opened Wrappers
  import opened GuardFiles
  import opened GuardRollback

  /* ---- Taking the copy before the update ---- */

  predicate FlatInfo(d: Disk) { forall p :: p in d && InfoPath(p) ==> d[p].File? }

  method ListOwned(d: Disk, pkg: string) returns (list: seq<string>)
    requires FlatInfo(d) && Ruled(pkg)
    ensures forall p :: p in list <==> OwnedBy(d, pkg, p)
    ensures !HasList(d, pkg) ==> list == []
  {
    list := [];
    if !HasList(d, pkg) {
      return;
    }
    var lines := ListLines(d, pkg);
    for i := 0 to |lines|
      invariant forall p :: p in list <==> p in d && !d[p].Directory? && Named(lines[..i], p)
    {
      var path := CutTab(lines[i]);
      NamedGrows(lines, i);
      if Absolute(path) && path in d && !d[path].Directory? {
        list := list + [path];
      }
    }
    assert lines[..|lines|] == lines;
    var rest := set p | p in d && InfoOf(pkg, p);
    while rest != {}
      invariant forall p :: p in rest ==> p in d && InfoOf(pkg, p)
      invariant forall p :: p in list <==>
                  p in d && !d[p].Directory? && (Named(lines, p) || (InfoOf(pkg, p) && p !in rest))
    {
      var p :| p in rest;
      rest := rest - {p};
      list := list + [p];
    }
  }

  lemma NamedGrows(lines: seq<string>, i: nat)
    requires i < |lines|
    ensures forall p :: Named(lines[..i + 1], p) <==> Named(lines[..i], p) || (Absolute(p) && CutTab(lines[i]) == p)
  {
    var a, b := lines[..i], lines[..i + 1];
    assert b[i] == lines[i];
    forall p
      ensures Named(b, p) <==> Named(a, p) || (Absolute(p) && CutTab(lines[i]) == p)
    {
      if Named(b, p) {
        var k :| 0 <= k < |b| && CutTab(b[k]) == p;
        assert k < i ==> a[k] == b[k];
      }
      if Named(a, p) {
        var k :| 0 <= k < |a| && CutTab(a[k]) == p;
        assert b[k] == a[k];
      }
    }
  }

  // The paths opkg keeps aside when a package is upgraded.
  function Conffiles(d: Disk): set<string> {
    set i, pkg | pkg in [AGENT, LUCI] && 0 <= i < |ConffileLines(d, pkg)| && Absolute(ConffileLines(d, pkg)[i])
      :: ConffileLines(d, pkg)[i]
  }

  function ConffileLines(d: Disk, pkg: string): seq<string> {
    var p := INFO + pkg + ".conffiles";
    if p in d && d[p].File? then d[p].lines else []
  }

  predicate LineOf(d: Disk, file: string, p: string) { file in d && d[file].File? && p in d[file].lines }

  // The completeness check leaves out the absolute paths that are lines of one
  // of the two packages' conffiles lists, and no other.
  predicate Exempt(d: Disk, p: string) {
    && p != "" && p[0] == '/'
    && (|| LineOf(d, "/usr/lib/opkg/info/" + "vectra-controller-agent" + ".conffiles", p)
        || LineOf(d, "/usr/lib/opkg/info/" + "luci-app-vectra-controller" + ".conffiles", p))
  }

  lemma ConffilesAreExempt(d: Disk, p: string)
    ensures p in Conffiles(d) <==> Exempt(d, p)
  {
    forall pkg | pkg in [AGENT, LUCI] && LineOf(d, INFO + pkg + ".conffiles", p) && Absolute(p)
      ensures p in Conffiles(d)
    {
      var lines := ConffileLines(d, pkg);
      var i :| 0 <= i < |lines| && lines[i] == p;
    }
    assert AGENT in [AGENT, LUCI] && LUCI in [AGENT, LUCI];
  }

  // What the manifest asks of every copied path: its content, but of the exempt.
  ghost predicate Attests(m: seq<Entry>, files: Disk, d: Disk) {
    && (forall p :: p in files ==> p in d && !d[p].Directory?)
    && (forall p :: p in files && Exempt(d, p) ==> Entry(p, Conffile) in m)
    && (forall p :: p in files && !Exempt(d, p) && d[p].File? ==> Entry(p, HasContent(d[p].lines)) in m)
    && (forall p :: p in files && !Exempt(d, p) && d[p].Link? ==> Entry(p, IsLink(d[p].target)) in m)
    && (forall e :: e in m ==> e.path in files && (e.check.Conffile? <==> Exempt(d, e.path)))
  }

  method WriteManifest(d: Disk, list: seq<string>, conffiles: set<string>) returns (m: seq<Entry>)
    requires forall p :: p in list ==> p in d
    ensures forall p :: p in list ==> Entry(p, CheckOf(conffiles, p, d[p])) in m
    ensures forall e :: e in m ==> e.path in list && e.check == CheckOf(conffiles, e.path, d[e.path])
  {
    m := [];
    for i := 0 to |list|
      invariant forall p :: p in list[..i] ==> Entry(p, CheckOf(conffiles, p, d[p])) in m
      invariant forall e :: e in m ==> e.path in list && e.check == CheckOf(conffiles, e.path, d[e.path])
    {
      var p := list[i];
      assert list[..i + 1] == list[..i] + [p];
      m := m + [Entry(p, CheckOf(conffiles, p, d[p]))];
    }
    assert list[..|list|] == list;
  }

  function Known(version: Option<string>): Option<string> {
    if version == Some("") then None else version
  }

  // The copy holds what the two packages own, as it was.
  ghost predicate TakenFrom(c: Copy, d: Disk, status: seq<string>) {
    && (forall p :: p in c.files <==> Copied(d, p))
    && (forall p :: p in c.files ==> c.files[p] == d[p])
    && c.conffiles == Conffiles(d)
    && c.stanzas == Stanzas(status)
    && c.agentVersion == Known(Version(status, AGENT))
    && c.luciVersion == Known(Version(status, LUCI))
  }

  lemma ManifestAttests(c: Copy, d: Disk, status: seq<string>)
    requires TakenFrom(c, d, status) && c.manifest.Some? && Lists(c.manifest.value, c.files, c.conffiles)
    ensures Attests(c.manifest.value, c.files, d)
  {
    forall p | p in c.files
      ensures p in Conffiles(d) <==> Exempt(d, p)
      ensures Copied(d, p) && c.files[p] == d[p]
    {
      ConffilesAreExempt(d, p);
    }
  }

  lemma CopyHasTheLists(c: Copy, d: Disk, status: seq<string>, pkg: string)
    requires TakenFrom(c, d, status) && Ruled(pkg)
    ensures ListLines(c.files, pkg) == ListLines(d, pkg)
  {
    ListPathIsInfo(pkg);
    if HasList(d, pkg) {
      assert OwnedBy(d, pkg, ListPath(pkg));
    }
  }

  // Refuses unless there is room and the agent came through opkg.
  method Prepare(d: Disk, status: seq<string>, room: bool, manifestWritten: bool) returns (c: Option<Copy>)
    requires FlatInfo(d)
    ensures c.Some? <==> room && HasList(d, AGENT)
    ensures c.Some? ==> TakenFrom(c.value, d, status) && (c.value.manifest.Some? <==> manifestWritten)
    ensures c.Some? && manifestWritten ==> Attests(c.value.manifest.value, c.value.files, d)
    ensures c.Some? && Orderly(status) ==> GoodCopy(c.value)
  {
    var own := ListOwned(d, AGENT);
    var luci := ListOwned(d, LUCI);
    var list := own + luci;
    ListPathIsInfo(AGENT);
    if ListPath(AGENT) !in list || !room {
      return None;
    }
    var files := map p | p in list :: d[p];
    var conffiles := Conffiles(d);
    var m := WriteManifest(d, list, conffiles);
    var stanzas := SaveStanzas(status);
    c := Some(Copy(files, conffiles, if manifestWritten then Some(m) else None, stanzas,
                   Known(Version(status, AGENT)), Known(Version(status, LUCI))));
    SavedStanzasAreKept(status);
    CopyHasTheLists(c.value, d, status, AGENT);
    CopyHasTheLists(c.value, d, status, LUCI);
    if Orderly(status) {
      StanzasKeepVersions(status);
    }
    if manifestWritten {
      ManifestAttests(c.value, d, status);
    }
  }

  /* ---- What befalls an attempt ---- */

  datatype Save = Whole | Lost | CutAt(at: Break)

  // For each member of the copy written when the power went: where it broke
  // off, or that it is gone.
  type Wreck = map<string, Option<Break>>

  datatype Fate = Fate(
    power: Option<nat>,         // steps until the power goes, if it does
    copyUsable: bool,           // the copy is there, trusted and readable
    saves: map<string, Save>,   // how keeping a new file list aside went
    refused: set<string>,       // paths that would not be removed
    tarOk: bool,                // the extraction succeeded
    flagKept: bool,             // the flag fitted on the flash
    wreck: Wreck,               // a failed or interrupted extraction left this
    statusWritten: bool,        // rewriting the status file succeeded
    statusCut: Option<Break>,   // and yet it broke off
    lostSaves: map<string, Break>)   // what a power loss left of the lists this attempt kept

  function SaveOf(f: Fate, pkg: string): Save { if pkg in f.saves then f.saves[pkg] else Whole }

  // No kept list broke off and everything named was removed.
  predicate Sound(f: Fate) {
    && (forall pkg :: pkg in f.saves ==> !f.saves[pkg].CutAt?)
    && f.lostSaves == map[] && f.refused == {}
  }

  // No file list of the copy was left broken off inside a line.
  predicate WholeLines(f: Fate) {
    forall pkg | pkg in [AGENT, LUCI] :: var p := ListPath(pkg); p in f.wreck && f.wreck[p].Some? ==> f.wreck[p].value.chars == 0
  }

  // Nothing goes wrong with this attempt's copy, extraction, status or power.
  predicate Smooth(f: Fate) { f.power.None? && f.copyUsable && f.tarOk && f.statusWritten && f.statusCut.None? }

  function CutNode(n: Node, at: Break): Node { if n.File? then File(Shortened(n.lines, at)) else n }

  function Torn(files: Disk, d: Disk, wreck: Wreck): Disk {
    map p | p in d.Keys + files.Keys && (if p in files && p in wreck then wreck[p].Some? else p in d)
      :: if p in files && p in wreck then CutNode(files[p], wreck[p].value) else d[p]
  }

  // The list of a package an attempt goes by: the one kept aside earlier, the
  // one it keeps now, whole or broken off, or opkg's own.
  function Used(s: Session, f: Fate, pkg: string): seq<string> {
    var lines := ListLines(s.disk, pkg);
    if pkg in s.saved then s.saved[pkg]
    else if HasList(s.disk, pkg) && SaveOf(f, pkg).CutAt? then Shortened(lines, SaveOf(f, pkg).at)
    else lines
  }

  predicate UsedNames(s: Session, f: Fate, p: string) { Named(Used(s, f, AGENT), p) || Named(Used(s, f, LUCI), p) }

  datatype Outcome = Done | Incomplete | PowerLost | CopyGone

  /* ---- The steps of an attempt, as relations between sessions ---- */

  ghost predicate ListKept(f: Fate, s: Session, t: Session, pkg: string, on: bool) {
    && t == s.(saved := t.saved)
    && (t.saved == s.saved || (pkg !in s.saved && t.saved == s.saved[pkg := Used(s, f, pkg)]))
    && (on ==> Effective(t, pkg) == Used(s, f, pkg))
  }

  // Removing what a new file list names and no old one does, but for paths
  // that would not go; `all` of it.
  ghost predicate Removed(s: Session, t: Session, lines: seq<string>, refused: set<string>, all: bool) {
    && t == s.(disk := t.disk)
    && (forall p :: SameAt(t.disk, s.disk, p)
                    || (&& p !in t.disk && p !in refused && Named(lines, p) && p in s.disk
                        && !s.disk[p].Directory? && !NamedBy(s.copy.files, p)))
    && (all ==> forall p :: p in t.disk && Named(lines, p) && !NamedBy(s.copy.files, p) ==> t.disk[p].Directory? || p in refused)
  }

  // Removing a package's info files, but for those that would not go.
  ghost predicate Dropped(s: Session, t: Session, pkg: string, refused: set<string>, all: bool) {
    && t == s.(disk := t.disk)
    && (forall p :: SameAt(t.disk, s.disk, p) || (p !in t.disk && InfoOf(pkg, p) && p !in refused))
    && (all ==> forall p :: p in t.disk && InfoOf(pkg, p) ==> p in refused)
  }

  // What a power loss leaves of the lists kept beside those of `was`.
  ghost predicate SavesTorn(f: Fate, was: map<string, seq<string>>, m: Session, t: Session) {
    && t == m.(saved := t.saved) && t.saved.Keys == m.saved.Keys
    && forall pkg :: pkg in m.saved ==>
         t.saved[pkg] == if pkg in f.lostSaves && pkg !in was then Shortened(m.saved[pkg], f.lostSaves[pkg]) else m.saved[pkg]
  }

  predicate Unpacked(s: Session) {
    forall p :: p in s.copy.files ==> p in s.disk && s.disk[p] == s.copy.files[p]
  }

  // What every step keeps, whatever fails: outside the copy nothing changes but
  // that info files go and loose files a list begins with; and no list comes to
  // begin with more.
  ghost predicate Lifts(s: Session, t: Session) {
    && t.copy == s.copy
    && (forall p :: Near(t, p) ==> Near(s, p))
    && (forall p :: p !in s.copy.files ==>
          SameAt(t.disk, s.disk, p) || (p !in t.disk && (InfoPath(p) || (Loose(s, p) && Near(s, p)))))
  }

  // What no list names stays, and stays unnamed.
  ghost predicate StrandedStays(s: Session, t: Session) { forall p :: Stranded(s, p) ==> Stranded(t, p) }

  ghost predicate SameLoose(s: Session, t: Session) { forall p :: Loose(t, p) <==> Loose(s, p) }

  // A step that keeps all this.
  ghost predicate Keeps(s: Session, t: Session, f: Fate, x: set<string>) {
    && Lifts(s, t)
    && (Sound(f) && Inv(s, x) ==> Inv(t, x))
    && (Sound(f) && WholeLines(f) ==> StrandedStays(s, t))
  }

  // A step that touches no loose file.
  ghost predicate KeepsLoose(s: Session, t: Session, f: Fate, x: set<string>) {
    && Lifts(s, t) && SameLoose(s, t)
    && (Inv(s, x) && Clean(s, x) ==> Inv(t, x) && Clean(t, x))
    && (WholeLines(f) ==> StrandedStays(s, t))
  }

  predicate Doomed(s: Session, f: Fate, p: string) { Loose(s, p) && UsedNames(s, f, p) && p !in f.refused }

  // What the removals of an attempt did, path by path outside the copy.
  ghost predicate Exactly(s: Session, t: Session, f: Fate) {
    forall p :: p !in s.copy.files ==>
      if Doomed(s, f, p) || (InfoPath(p) && p !in f.refused) then p !in t.disk else SameAt(t.disk, s.disk, p)
  }

  ghost predicate SameOutside(s: Session, t: Session) {
    t.copy == s.copy && forall p :: p !in s.copy.files ==> SameAt(t.disk, s.disk, p)
  }

  lemma LiftsNot(s: Session)
    ensures Lifts(s, s)
  {
  }

  lemma LiftsOn(a: Session, b: Session, c: Session)
    requires Lifts(a, b) && Lifts(b, c)
    ensures Lifts(a, c)
  {
  }

  lemma KeepsOn(a: Session, b: Session, c: Session, f: Fate, x: set<string>)
    requires Keeps(a, b, f, x)
    requires Keeps(b, c, f, x) || (KeepsLoose(b, c, f, x) && (Sound(f) && Inv(a, x) ==> Clean(b, x)))
    ensures Keeps(a, c, f, x)
  {
    LiftsOn(a, b, c);
  }

  lemma KeepsLooseOn(a: Session, b: Session, c: Session, f: Fate, x: set<string>)
    requires KeepsLoose(a, b, f, x) && KeepsLoose(b, c, f, x)
    ensures KeepsLoose(a, c, f, x)
  {
    LiftsOn(a, b, c);
  }

  // Where the lists begin with no more and nothing else changes.
  lemma ListsLift(s: Session, t: Session)
    requires t == s.(saved := t.saved, status := t.status, tarOk := t.tarOk, tarOkTmp := t.tarOkTmp)
    requires forall p :: Near(t, p) ==> Near(s, p)
    ensures Lifts(s, t) && SameLoose(s, t)
  {
  }

  // A list kept aside begins with no more than it did, however it broke off.
  lemma KeptLifts(f: Fate, s: Session, t: Session, pkg: string, on: bool, x: set<string>)
    requires ListKept(f, s, t, pkg, on) && Ruled(pkg)
    ensures Keeps(s, t, f, x)
  {
    var lines := Used(s, f, pkg);
    if t.saved != s.saved {
      if SaveOf(f, pkg).CutAt? {
        ShortenedIsFirst(ListLines(s.disk, pkg), SaveOf(f, pkg).at);
      }
      forall p | Begun(lines, p)
        ensures Begun(ListLines(s.disk, pkg), p)
      {
        if lines != ListLines(s.disk, pkg) {
          FirstBeginsLess(lines, ListLines(s.disk, pkg), p);
        }
      }
      if Sound(f) {
        assert lines == ListLines(s.disk, pkg);
        assert Effective(t, AGENT) == Effective(s, AGENT) && Effective(t, LUCI) == Effective(s, LUCI);
      }
    }
    ListsLift(s, t);
  }

  lemma SavesTornLift(f: Fate, was: map<string, seq<string>>, m: Session, t: Session, x: set<string>)
    requires SavesTorn(f, was, m, t)
    ensures Keeps(m, t, f, x)
  {
    forall pkg, p | pkg in m.saved && Begun(t.saved[pkg], p)
      ensures Begun(m.saved[pkg], p)
    {
      if t.saved[pkg] != m.saved[pkg] {
        ShortenedIsFirst(m.saved[pkg], f.lostSaves[pkg]);
        FirstBeginsLess(t.saved[pkg], m.saved[pkg], p);
      }
    }
    ListsLift(m, t);
    if Sound(f) {
      assert t.saved == m.saved;
    }
  }

  lemma SafeStays(s: Session, t: Session)
    requires Lifts(s, t) && Safe(s)
    ensures Safe(t)
  {
  }

  lemma RemovedNamesLess(s: Session, t: Session, lines: seq<string>, refused: set<string>, all: bool)
    requires Removed(s, t, lines, refused, all)
    ensures forall pkg :: Effective(t, pkg) == Effective(s, pkg) || Effective(t, pkg) == []
    ensures forall pkg :: ListLines(t.disk, pkg) == ListLines(s.disk, pkg) || ListLines(t.disk, pkg) == []
  {
    forall pkg
      ensures ListLines(t.disk, pkg) == ListLines(s.disk, pkg) || ListLines(t.disk, pkg) == []
    {
      assert SameAt(t.disk, s.disk, ListPath(pkg)) || ListPath(pkg) !in t.disk;
    }
  }

  lemma RemovedLifts(s: Session, t: Session, pkg: string, refused: set<string>, all: bool, f: Fate, x: set<string>)
    requires Removed(s, t, Effective(s, pkg), refused, all) && Ruled(pkg)
    ensures Keeps(s, t, f, x)
    ensures Safe(s) ==> Effective(t, AGENT) == Effective(s, AGENT) && Effective(t, LUCI) == Effective(s, LUCI)
  {
    RemovedMoves(s, t, pkg, refused, all);
    RemovedNamesLess(s, t, Effective(s, pkg), refused, all);
    if Safe(s) {
      RemovedKeepsLists(s, t, pkg, refused, all);
      if Inv(s, x) {
        RemovedKeepsInv(s, t, pkg, refused, all, x);
      }
    }
  }

  lemma RemovedMoves(s: Session, t: Session, pkg: string, refused: set<string>, all: bool)
    requires Removed(s, t, Effective(s, pkg), refused, all) && Ruled(pkg)
    ensures Lifts(s, t)
  {
    RemovedNamesLess(s, t, Effective(s, pkg), refused, all);
    ListsGone(s, t);
    forall p | Named(Effective(s, pkg), p)
      ensures Near(s, p)
    {
      NamedIsBegun(Effective(s, pkg), p);
    }
  }

  lemma ListsGone(s: Session, t: Session)
    requires t == s.(disk := t.disk)
    requires forall pkg :: ListLines(t.disk, pkg) == ListLines(s.disk, pkg) || ListLines(t.disk, pkg) == []
    ensures forall p :: Near(t, p) ==> Near(s, p)
  {
  }

  lemma RemovedKeepsLists(s: Session, t: Session, pkg: string, refused: set<string>, all: bool)
    requires Safe(s) && Removed(s, t, Effective(s, pkg), refused, all) && Ruled(pkg)
    ensures Effective(t, AGENT) == Effective(s, AGENT) && Effective(t, LUCI) == Effective(s, LUCI)
  {
    assert forall p :: Named(Effective(s, pkg), p) ==> NearIn(s, pkg, p);
    ListPathIsInfo(AGENT);
    ListPathIsInfo(LUCI);
    assert SameAt(t.disk, s.disk, ListPath(AGENT)) && SameAt(t.disk, s.disk, ListPath(LUCI));
  }

  lemma RemovedKeepsInv(s: Session, t: Session, pkg: string, refused: set<string>, all: bool, x: set<string>)
    requires Inv(s, x) && Removed(s, t, Effective(s, pkg), refused, all) && Ruled(pkg)
    ensures Inv(t, x)
  {
    RemovedMoves(s, t, pkg, refused, all);
    SafeStays(s, t);
    RemovedKeepsLists(s, t, pkg, refused, all);
    assert forall p :: Loose(t, p) ==> Loose(s, p);
  }

  // Of a package's list every loose file goes that would.
  ghost predicate ListRemoved(s: Session, t: Session, lines: seq<string>, refused: set<string>) {
    forall p :: if Loose(s, p) && Named(lines, p) && p !in refused then p !in t.disk else SameAt(t.disk, s.disk, p)
  }

  lemma RemovedExactly(s: Session, t: Session, pkg: string, refused: set<string>)
    requires Safe(s) && Ruled(pkg) && Removed(s, t, Effective(s, pkg), refused, true)
    ensures ListRemoved(s, t, Effective(s, pkg), refused)
  {
    assert forall p :: Named(Effective(s, pkg), p) ==> NearIn(s, pkg, p);
  }

  // Removing by one list and then by the other removes by both.
  ghost predicate NamedGone(s: Session, t: Session, refused: set<string>) {
    forall p :: if Loose(s, p) && EffectiveNames(s, p) && p !in refused then p !in t.disk else SameAt(t.disk, s.disk, p)
  }

  lemma BothRemoved(s: Session, m: Session, t: Session, refused: set<string>, x: set<string>)
    requires m.copy == s.copy == t.copy && Effective(m, LUCI) == Effective(s, LUCI)
    requires ListRemoved(s, m, Effective(s, AGENT), refused) && ListRemoved(m, t, Effective(m, LUCI), refused)
    ensures NamedGone(s, t, refused)
    ensures Covered(s, x) && refused == {} ==> Clean(t, x)
  {
  }

  lemma DroppedLifts(s: Session, t: Session, pkg: string, refused: set<string>, all: bool, f: Fate, x: set<string>)
    requires Dropped(s, t, pkg, refused, all) && Ruled(pkg)
    ensures KeepsLoose(s, t, f, x)
  {
    assert SameAt(t.disk, s.disk, ListPath(AGENT)) || ListPath(AGENT) !in t.disk;
    assert SameAt(t.disk, s.disk, ListPath(LUCI)) || ListPath(LUCI) !in t.disk;
    forall p
      ensures !InfoPath(p) ==> SameAt(t.disk, s.disk, p)
    {
    }
    assert Lifts(s, t) && SameLoose(s, t);
  }

  ghost predicate InfoGone(s: Session, t: Session, refused: set<string>) {
    forall p :: if InfoPath(p) && p !in refused then p !in t.disk else SameAt(t.disk, s.disk, p)
  }

  lemma BothDropped(s: Session, m: Session, t: Session, refused: set<string>)
    requires Dropped(s, m, AGENT, refused, true) && Dropped(m, t, LUCI, refused, true)
    ensures InfoGone(s, t, refused) && InfoBut(t, refused)
  {
    forall p
      ensures if InfoPath(p) && p !in refused then p !in t.disk else SameAt(t.disk, s.disk, p)
    {
      assert SameAt(t.disk, m.disk, p) || p !in t.disk;
      assert SameAt(m.disk, s.disk, p) || p !in m.disk;
    }
  }

  // After an extraction a list on disk begins with no more than it or the copy's did.
  lemma ListAfterUnpack(f: Fate, s: Session, d: Disk, pkg: string)
    requires d == s.disk + s.copy.files || d == Torn(s.copy.files, s.disk, f.wreck)
    ensures || ListLines(d, pkg) == ListLines(s.disk, pkg)
            || FirstOf(ListLines(d, pkg), ListLines(s.copy.files, pkg))
    ensures WholeLines(f) && Ruled(pkg) ==>
              ListLines(d, pkg) == ListLines(s.disk, pkg) || ListLines(d, pkg) <= ListLines(s.copy.files, pkg)
  {
    var path := ListPath(pkg);
    if path in d && path in s.copy.files && path in f.wreck && f.wreck[path].Some? && s.copy.files[path].File? {
      ShortenedIsFirst(s.copy.files[path].lines, f.wreck[path].value);
    }
  }

  lemma UnpackLifts(f: Fate, s: Session, d: Disk, x: set<string>)
    requires d == s.disk + s.copy.files || d == Torn(s.copy.files, s.disk, f.wreck)
    ensures var t := s.(disk := d); KeepsLoose(s, t, f, x) && SameOutside(s, t)
  {
    var t := s.(disk := d);
    assert SameOutside(s, t);
    forall pkg, p | Ruled(pkg) && Begun(ListLines(d, pkg), p)
      ensures Begun(ListLines(s.disk, pkg), p) || Begun(ListLines(s.copy.files, pkg), p)
    {
      ListAfterUnpack(f, s, d, pkg);
      if ListLines(d, pkg) != ListLines(s.disk, pkg) {
        FirstBeginsLess(ListLines(d, pkg), ListLines(s.copy.files, pkg), p);
      }
    }
    assert Lifts(s, t);
    if WholeLines(f) {
      UnpackStrands(f, s, d);
    }
  }

  lemma UnpackStrands(f: Fate, s: Session, d: Disk)
    requires WholeLines(f) && (d == s.disk + s.copy.files || d == Torn(s.copy.files, s.disk, f.wreck))
    ensures StrandedStays(s, s.(disk := d))
  {
    forall pkg, p | Ruled(pkg) && Named(ListLines(d, pkg), p)
      ensures Named(ListLines(s.disk, pkg), p) || Named(ListLines(s.copy.files, pkg), p)
    {
      ListAfterUnpack(f, s, d, pkg);
      if ListLines(d, pkg) != ListLines(s.disk, pkg) {
        PrefixNamesLess(ListLines(d, pkg), ListLines(s.copy.files, pkg), p);
      }
    }
  }

  lemma StatusLifts(s: Session, status: seq<string>, f: Fate, x: set<string>)
    ensures KeepsLoose(s, s.(status := status), f, x)
  {
    ListsLift(s, s.(status := status));
  }

  // The flags may always go; they may come only once nothing loose is left but `x`.
  lemma FlagsLift(s: Session, kept: bool, tmp: bool, f: Fate, x: set<string>)
    ensures var t := s.(tarOk := kept, tarOkTmp := tmp);
            && KeepsLoose(s, t, f, x)
            && ((kept || tmp ==> s.tarOk || s.tarOkTmp) ==> Keeps(s, t, f, x))
  {
    ListsLift(s, s.(tarOk := kept, tarOkTmp := tmp));
  }

  lemma FlagsDown(s: Session, f: Fate, x: set<string>)
    ensures Keeps(s, s.(tarOk := false, tarOkTmp := false), f, x)
  {
    FlagsLift(s, false, false, f, x);
  }

  lemma KeepsNot(s: Session, f: Fate, x: set<string>)
    ensures Keeps(s, s, f, x)
  {
    FlagsLift(s, s.tarOk, s.tarOkTmp, f, x);
  }

  lemma CrashLifts(f: Fate, was: map<string, seq<string>>, s: Session, m: Session, t: Session, x: set<string>)
    requires SavesTorn(f, was, s, m) && t == m.(tarOkTmp := false)
    ensures Keeps(s, t, f, x) && Unflagged(s, t)
  {
    SavesTornLift(f, was, s, m, x);
    FlagsLift(m, m.tarOk, false, f, x);
    KeepsOn(s, m, t, f, x);
  }

  // A path a new list names and no old one does, and that is a file.
  predicate Due(t: Session, path: string) {
    Absolute(path) && !NamedBy(t.copy.files, path) && path in t.disk && !t.disk[path].Directory?
  }

  ghost predicate LookedAt(t: Session, u: Session, path: string, refused: set<string>, all: bool) {
    (u == t && (all ==> !Due(t, path) || path in refused)) || (Due(t, path) && path !in refused && u == t.(disk := t.disk - {path}))
  }

  // One more line of the list looked at.
  lemma RemovedOneMore(s: Session, t: Session, u: Session, lines: seq<string>, i: nat, refused: set<string>)
    requires i < |lines| && Removed(s, t, lines[..i], refused, true) && LookedAt(t, u, CutTab(lines[i]), refused, true)
    ensures Removed(s, u, lines[..i + 1], refused, true)
  {
    NamedGrows(lines, i);
  }

  lemma RemovedSoFar(s: Session, t: Session, lines: seq<string>, i: nat, refused: set<string>)
    requires i <= |lines| && Removed(s, t, lines[..i], refused, true)
    ensures Removed(s, t, lines, refused, i == |lines|)
  {
    NamedMonotone(lines, i);
    if i == |lines| {
      assert lines[..i] == lines;
    }
  }

  class Guard {
    const copy: Copy
    const binary: string
    var disk: Disk
    var status: seq<string>
    var saved: map<string, seq<string>>
    var tarOk: bool
    var tarOkTmp: bool
    var left: Option<nat>

    function View(): Session
      reads this
    {
      Session(copy, disk, status, saved, tarOk, tarOkTmp)
    }

    // The session as the update command left it.
    constructor (c: Copy, binary: string, d: Disk, status: seq<string>)
      ensures View() == Session(c, d, status, map[], false, false)
      ensures this.binary == binary
    {
      copy, this.binary := c, binary;
      disk, this.status, saved := d, status, map[];
      tarOk, tarOkTmp, left := false, false, None;
    }

    // Is there power for one more step?
    method Spend() returns (on: bool)
      modifies `left
      ensures old(left).None? ==> on && left.None?
    {
      match left
      case None => on := true;
      case Some(n) =>
        on := n > 0;
        if on {
          left := Some(n - 1);
        }
    }

    method KeepList(f: Fate, pkg: string) returns (on: bool)
      modifies `saved, `left
      ensures ListKept(f, old(View()), View(), pkg, on)
      ensures SaveOf(f, pkg).Lost? ==> saved == old(saved)
      ensures old(left).None? ==> on && left.None?
    {
      on := true;
      if pkg !in saved && HasList(disk, pkg) {
        on := Spend();
        if !on {
          return;
        }
        var lines := ListLines(disk, pkg);
        match SaveOf(f, pkg)
        case Whole =>
          saved := saved[pkg := lines];
        case Lost =>
        case CutAt(at) =>
          saved := saved[pkg := Shortened(lines, at)];
      }
    }

    method RemoveOne(f: Fate, path: string) returns (on: bool)
      modifies `disk, `left
      ensures LookedAt(old(View()), View(), path, f.refused, on)
      ensures !on ==> disk == old(disk)
      ensures old(left).None? ==> on && left.None?
    {
      on := true;
      if Absolute(path) && !NamedBy(copy.files, path) && path in disk && !disk[path].Directory? {
        on := Spend();
        if on && path !in f.refused {
          disk := disk - {path};
        }
      }
    }

    // The list an attempt goes by: the one kept aside, or opkg's own.
    method RemoveNamed(f: Fate, pkg: string) returns (on: bool)
      modifies `disk, `left
      ensures Removed(old(View()), View(), Effective(old(View()), pkg), f.refused, on)
      ensures old(left).None? ==> on && left.None?
    {
      on := true;
      ghost var s := View();
      var lines := if pkg in saved then saved[pkg] else ListLines(disk, pkg);
      for i := 0 to |lines|
        invariant View().copy == s.copy && Removed(s, View(), lines[..i], f.refused, true)
        invariant old(left).None? ==> left.None?
      {
        ghost var before := View();
        on := RemoveOne(f, CutTab(lines[i]));
        if !on {
          RemovedSoFar(s, before, lines, i, f.refused);
          return;
        }
        RemovedOneMore(s, before, View(), lines, i, f.refused);
      }
      on := true;
      RemovedSoFar(s, View(), lines, |lines|, f.refused);
    }

    method DropInfo(f: Fate, pkg: string) returns (on: bool)
      modifies `disk, `left
      ensures Dropped(old(View()), View(), pkg, f.refused, on)
      ensures old(left).None? ==> on && left.None?
    {
      on := true;
      var rest := set p | p in disk && InfoOf(pkg, p);
      while rest != {}
        invariant forall p :: p in rest ==> InfoOf(pkg, p)
        invariant forall p :: p in disk && InfoOf(pkg, p) ==> p in rest || p in f.refused
        invariant Dropped(old(View()), View(), pkg, f.refused, false)
        invariant old(left).None? ==> left.None?
      {
        var p :| p in rest;
        on := Spend();
        if !on {
          return;
        }
        rest := rest - {p};
        if p !in f.refused {
          disk := disk - {p};
        }
      }
      on := true;
    }

    method DiskMatchesCopy(m: seq<Entry>) returns (ok: bool)
      ensures ok <==> forall e :: e in m ==> Meets(disk, e)
    {
      for i := 0 to |m|
        invariant forall k :: 0 <= k < i ==> Meets(disk, m[k])
      {
        if !Meets(disk, m[i]) {
          return false;
        }
      }
      return true;
    }

    method Complete() returns (ok: bool)
      ensures ok == RestoreOk(View(), binary)
    {
      if !tarOk && !tarOkTmp {
        return false;
      }
      if copy.manifest.Some? && copy.manifest.value != [] {
        ok := DiskMatchesCopy(copy.manifest.value);
        if !ok {
          return false;
        }
      } else if binary in copy.files && !SameAt(disk, copy.files, binary) {
        return false;
      }
      ok := ListPath(AGENT) in disk && VersionsBack(View());
    }

    method KeepBoth(f: Fate, ghost x: set<string>) returns (on: bool)
      modifies `saved, `left
      ensures Keeps(old(View()), View(), f, x)
      ensures on ==> forall p :: EffectiveNames(View(), p) <==> UsedNames(old(View()), f, p)
      ensures SavedMore(f, old(View()), View())
      ensures old(left).None? ==> on && left.None?
    {
      ghost var s := View();
      on := KeepList(f, AGENT);
      ghost var m := View();
      KeptLifts(f, s, m, AGENT, on, x);
      if !on {
        return;
      }
      on := KeepList(f, LUCI);
      ghost var t := View();
      KeptLifts(f, m, t, LUCI, on, x);
      KeepsOn(s, m, t, f, x);
      if on {
        BothKept(f, s, m, t);
      }
    }

    // The flags of an earlier extraction go, the new lists are kept aside.
    method KeepLists(f: Fate, ghost x: set<string>) returns (on: bool)
      modifies `saved, `tarOk, `tarOkTmp, `left
      ensures Keeps(old(View()), View(), f, x)
      ensures (tarOk ==> old(tarOk)) && (tarOkTmp ==> old(tarOkTmp)) && (on ==> !tarOk && !tarOkTmp)
      ensures on ==> forall p :: EffectiveNames(View(), p) <==> UsedNames(old(View()), f, p)
      ensures SavedMore(f, old(View()), View())
      ensures old(left).None? ==> on && left.None?
    {
      ghost var s := View();
      on := Spend();
      if !on {
        KeepsNot(s, f, x);
        return;
      }
      tarOk, tarOkTmp := false, false;
      ghost var m := View();
      FlagsDown(s, f, x);
      on := KeepBoth(f, x);
      KeepsOn(s, m, View(), f, x);
    }

    // What the lists name and no old list does goes.
    method RemoveNew(f: Fate, ghost x: set<string>) returns (on: bool)
      modifies `disk, `left
      ensures Keeps(old(View()), View(), f, x)
      ensures old(Safe(View())) && on ==> NamedGone(old(View()), View(), f.refused)
      ensures old(Inv(View(), x)) && on && f.refused == {} ==> Clean(View(), x)
      ensures old(left).None? ==> on && left.None?
    {
      ghost var s := View();
      on := RemoveNamed(f, AGENT);
      ghost var m := View();
      RemovedLifts(s, m, AGENT, f.refused, on, f, x);
      if !on {
        return;
      }
      on := RemoveNamed(f, LUCI);
      ghost var t := View();
      RemovedLifts(m, t, LUCI, f.refused, on, f, x);
      KeepsOn(s, m, t, f, x);
      if on && Safe(s) {
        SafeStays(s, m);
        RemovedExactly(s, m, AGENT, f.refused);
        RemovedExactly(m, t, LUCI, f.refused);
        BothRemoved(s, m, t, f.refused, x);
      }
    }

    // The info files go as well: the copy brings its own.
    method DropOld(f: Fate, ghost x: set<string>) returns (on: bool)
      modifies `disk, `left
      ensures KeepsLoose(old(View()), View(), f, x)
      ensures on ==> InfoGone(old(View()), View(), f.refused) && InfoBut(View(), f.refused)
      ensures old(left).None? ==> on && left.None?
    {
      ghost var s := View();
      on := DropInfo(f, AGENT);
      ghost var m := View();
      DroppedLifts(s, m, AGENT, f.refused, on, f, x);
      if !on {
        return;
      }
      on := DropInfo(f, LUCI);
      ghost var t := View();
      DroppedLifts(m, t, LUCI, f.refused, on, f, x);
      KeepsLooseOn(s, m, t, f, x);
      if on {
        BothDropped(s, m, t, f.refused);
      }
    }

    // A power loss leaves what was just extracted in any state.
    method Tear(f: Fate, ghost x: set<string>)
      modifies `disk
      ensures KeepsLoose(old(View()), View(), f, x) && SameOutside(old(View()), View())
    {
      UnpackLifts(f, View(), Torn(copy.files, disk, f.wreck), x);
      disk := Torn(copy.files, disk, f.wreck);
    }

    // The copy is extracted over the disk.
    method Unpack(f: Fate, ghost x: set<string>) returns (on: bool)
      modifies `disk, `left
      ensures KeepsLoose(old(View()), View(), f, x) && SameOutside(old(View()), View())
      ensures f.tarOk && on ==> disk == old(disk) + copy.files
      ensures !f.tarOk && on ==> disk == Torn(copy.files, old(disk), f.wreck)
      ensures old(left).None? ==> on && left.None?
    {
      ghost var s := View();
      var d := if f.tarOk then disk + copy.files else Torn(copy.files, disk, f.wreck);
      UnpackLifts(f, s, d, x);
      disk := d;
      ghost var m := View();
      on := Spend();
      if !on {
        Tear(f, x);
        KeepsLooseOn(s, m, View(), f, x);
      }
    }

    // The flags of a whole extraction.
    method Mark(f: Fate, ghost x: set<string>) returns (on: bool)
      modifies `disk, `tarOk, `tarOkTmp, `left
      ensures KeepsLoose(old(View()), View(), f, x) && SameOutside(old(View()), View())
      ensures on ==> disk == old(disk)
      ensures on ==> if f.tarOk then tarOk == f.flagKept && tarOkTmp else tarOk == old(tarOk) && tarOkTmp == old(tarOkTmp)
      ensures old(left).None? ==> on && left.None?
    {
      ghost var s := View();
      FlagsLift(s, if f.tarOk then f.flagKept else tarOk, f.tarOk || tarOkTmp, f, x);
      if f.tarOk {
        tarOk, tarOkTmp := f.flagKept, true;
      }
      ghost var m := View();
      on := Spend();
      if !on {
        Tear(f, x);
        KeepsLooseOn(s, m, View(), f, x);
      }
    }

    // The status file as it is left: its writing may break off unnoticed.
    method Rewrite(f: Fate, ghost x: set<string>)
      modifies `status
      ensures KeepsLoose(old(View()), View(), f, x)
      ensures status == Rewritten(f, old(status), copy.stanzas)
      ensures !f.statusWritten ==> status == old(status)
      ensures f.statusWritten && f.statusCut.None? ==> status == Restored(old(status), copy.stanzas)
    {
      StatusLifts(View(), Rewritten(f, status, copy.stanzas), f, x);
      if f.statusWritten {
        var whole := RestoreStatus(status, copy.stanzas);
        status := if f.statusCut.Some? then Shortened(whole, f.statusCut.value) else whole;
      }
    }

    // The flags and the status file. Says whether every step so far worked.
    method Record(f: Fate, ghost x: set<string>) returns (on: bool, ok: bool)
      modifies `disk, `status, `tarOk, `tarOkTmp, `left
      ensures KeepsLoose(old(View()), View(), f, x) && SameOutside(old(View()), View())
      ensures on ==> disk == old(disk)
      ensures on && !f.tarOk ==> tarOk == old(tarOk) && tarOkTmp == old(tarOkTmp)
      ensures status == old(status) || status == Rewritten(f, old(status), copy.stanzas)
      ensures ok ==> f.tarOk && f.statusWritten && on && tarOkTmp && status == Rewritten(f, old(status), copy.stanzas)
      ensures old(left).None? ==> on && ok == (f.tarOk && f.statusWritten)
    {
      ghost var s := View();
      ok := false;
      on := Mark(f, x);
      ghost var m := View();
      if on {
        Rewrite(f, x);
        ghost var n := View();
        KeepsLooseOn(s, m, n, f, x);
        on := Spend();
        ok := on && f.tarOk && f.statusWritten;
        if !on {
          Tear(f, x);
          KeepsLooseOn(s, n, View(), f, x);
        }
      }
    }

    // What the lists in use name goes.
    method ClearNew(f: Fate, ghost x: set<string>) returns (on: bool)
      modifies `disk, `saved, `tarOk, `tarOkTmp, `left
      ensures Keeps(old(View()), View(), f, x) && Unflagged(old(View()), View()) && SavedMore(f, old(View()), View())
      ensures Sound(f) && old(Inv(View(), x)) && on ==> Clean(View(), x)
      ensures old(Safe(View())) && on ==> Cleared(old(View()), View(), f)
      ensures on ==> !tarOk && !tarOkTmp
      ensures old(left).None? ==> on && left.None?
    {
      ghost var s := View();
      on := KeepLists(f, x);
      ghost var m := View();
      if on {
        if Safe(s) {
          SafeStays(s, m);
        }
        on := RemoveNew(f, x);
        KeepsOn(s, m, View(), f, x);
      }
    }

    // And the old version comes.
    method BringOld(f: Fate, ghost x: set<string>) returns (on: bool)
      modifies `disk, `left
      ensures KeepsLoose(old(View()), View(), f, x)
      ensures on ==> Brought(old(View()), View(), f) && InfoBut(View(), f.refused)
      ensures on && f.tarOk ==> Unpacked(View())
      ensures on && !f.tarOk ==> WreckLeft(View(), f)
      ensures old(left).None? ==> on && left.None?
    {
      ghost var s := View();
      on := DropOld(f, x);
      ghost var m := View();
      if on {
        on := Unpack(f, x);
        KeepsLooseOn(s, m, View(), f, x);
      }
    }

    method PutBack(f: Fate, ghost x: set<string>) returns (on: bool)
      modifies `disk, `saved, `tarOk, `tarOkTmp, `left
      ensures Keeps(old(View()), View(), f, x) && Unflagged(old(View()), View()) && SavedMore(f, old(View()), View())
      ensures Sound(f) && old(Inv(View(), x)) && on ==> Clean(View(), x)
      ensures old(Safe(View())) && on ==> Exactly(old(View()), View(), f)
      ensures on ==> InfoBut(View(), f.refused) && !tarOk && !tarOkTmp
      ensures on && f.tarOk ==> Unpacked(View())
      ensures on && !f.tarOk ==> WreckLeft(View(), f)
      ensures old(left).None? ==> on && left.None?
    {
      ghost var s := View();
      on := ClearNew(f, x);
      ghost var m := View();
      if on {
        on := BringOld(f, x);
        KeepsOn(s, m, View(), f, x);
        if on && Safe(s) {
          ClearedAndBrought(s, m, View(), f);
        }
      }
    }

    // The steps of an attempt, as long as the power lasts.
    method Steps(f: Fate, ghost x: set<string>, ghost r: set<string>) returns (on: bool, ok: bool)
      modifies `disk, `status, `saved, `tarOk, `tarOkTmp, `left
      ensures Keeps(old(View()), View(), f, x) && SavedMore(f, old(View()), View())
      ensures old(Safe(View())) && on ==> Exactly(old(View()), View(), f)
      ensures old(InfoLeft(View(), r)) && f.refused <= r ==> InfoLeft(View(), r)
      ensures on ==> Flagged(View()) && (!f.tarOk ==> WreckLeft(View(), f))
      ensures status == old(status) || status == Rewritten(f, old(status), copy.stanzas)
      ensures ok ==> on && Unpacked(View())
      ensures ok && GoodCopy(copy) && f.statusCut.None? ==> RestoreOk(View(), binary)
      ensures old(left).None? ==> on && ok == (f.tarOk && f.statusWritten)
    {
      ghost var s := View();
      on := PutBack(f, x);
      ok := false;
      ghost var m := View();
      if on {
        on, ok := Record(f, x);
        KeepsOn(s, m, View(), f, x);
        if ok && GoodCopy(copy) && f.statusCut.None? {
          SmoothIsComplete(m, View(), binary);
        }
      }
    }

    // A power loss: /tmp does not survive it, and a list this attempt kept may
    // not have reached the flash to its end.
    method Crash(f: Fate, was: map<string, seq<string>>, ghost x: set<string>)
      modifies `saved, `tarOkTmp
      ensures Keeps(old(View()), View(), f, x) && Unflagged(old(View()), View())
      ensures saved.Keys == old(saved).Keys && forall pkg :: pkg in was && pkg in saved ==> saved[pkg] == old(saved)[pkg]
    {
      ghost var s := View();
      saved := map pkg | pkg in saved ::
        if pkg in f.lostSaves && pkg !in was then Shortened(saved[pkg], f.lostSaves[pkg]) else saved[pkg];
      ghost var m := View();
      tarOkTmp := false;
      CrashLifts(f, was, s, m, View(), x);
    }

    // One attempt.
    method Rollback(f: Fate, ghost x: set<string>, ghost r: set<string>) returns (out: Outcome)
      modifies this
      ensures Keeps(old(View()), View(), f, x)
      ensures old(InfoLeft(View(), r)) && f.refused <= r ==> InfoLeft(View(), r)
      ensures out == Done ==> RestoreOk(View(), binary) && Unpacked(View())
      ensures (out == Done || out == Incomplete) && old(Safe(View())) ==> Exactly(old(View()), View(), f)
      ensures out == Incomplete && !f.tarOk ==> WreckLeft(View(), f) && SavedMore(f, old(View()), View())
      ensures status == old(status) || status == Rewritten(f, old(status), copy.stanzas)
      ensures old(Flagged(View())) && f.power.None? ==> Flagged(View())
      ensures out == CopyGone <==> !f.copyUsable
      ensures out == CopyGone ==> View() == old(View())
      ensures out == PowerLost ==> f.power.Some?
      ensures Smooth(f) && GoodCopy(copy) ==> out == Done
    {
      ghost var s := View();
      var was := saved;
      if !f.copyUsable {
        KeepsNot(s, f, x);
        return CopyGone;
      }
      left := f.power;
      var on, ok := Steps(f, x, r);
      ghost var m := View();
      if !on {
        Crash(f, was, x);
        KeepsOn(s, m, View(), f, x);
        return PowerLost;
      }
      if ok {
        ok := Complete();
      }
      out := if ok then Done else Incomplete;
    }

    // A retry first looks whether the restore is complete after all.
    method RetryRestore(f: Fate, ghost x: set<string>, ghost r: set<string>) returns (out: Outcome, ghost tried: bool)
      modifies this
      ensures Keeps(old(View()), View(), f, x)
      ensures old(InfoLeft(View(), r)) && f.refused <= r ==> InfoLeft(View(), r)
      ensures out == Done ==> RestoreOk(View(), binary)
      ensures !tried ==> (out == Done || out == CopyGone) && View() == old(View())
      ensures tried && (out == Done || out == Incomplete) && old(Safe(View())) ==> Exactly(old(View()), View(), f)
      ensures tried ==> out != CopyGone
      ensures status == old(status) || status == Rewritten(f, old(status), copy.stanzas)
      ensures old(Flagged(View())) && f.power.None? ==> Flagged(View())
      ensures out == PowerLost ==> f.power.Some?
      ensures Smooth(f) && GoodCopy(copy) ==> out == Done
    {
      tried := false;
      if f.copyUsable {
        var complete := Complete();
        if complete {
          KeepsNot(View(), f, x);
          return Done, false;
        }
      }
      out := Rollback(f, x, r);
      tried := out != CopyGone;
    }

    // The first attempt of a session is made at once.
    method Next(f: Fate, first: bool, ghost x: set<string>, ghost r: set<string>) returns (out: Outcome, ghost tried: bool)
      modifies this
      ensures Attempted(old(View()), View(), f, x, r, binary, out, tried)
      ensures Smooth(f) && GoodCopy(copy) ==> out == Done
    {
      if first {
        out := Rollback(f, x, r);
        tried := out != CopyGone;
      } else {
        out, tried := RetryRestore(f, x, r);
      }
    }

    // A first attempt and the retries after it, until one ends the session;
    // `starts` is the session as each attempt that was made found it.
    // Whatever fails on the way, done means the old version is back, but for
    // info files that would not be removed, and outside the copy nothing has
    // changed but that loose files went which a list began with.
    method Retry(fates: seq<Fate>) returns (out: Outcome, ghost starts: seq<Session>)
      modifies this
      ensures Lifts(old(View()), View())
      ensures old(Fresh(View())) && out == Done ==> OldBack(View(), binary, Refusals(fates))
      ensures old(Safe(View())) && AllPowered(fates) ==> RunExactly(starts, fates, old(View()), View())
      ensures old(Fresh(View())) && out == Done && AllSound(fates) ==>
                && (forall p :: Loose(View(), p) ==> Stranded(old(View()), p))
                && (AllWholeLines(fates) ==> forall p :: Loose(View(), p) <==> Stranded(old(View()), p))
      ensures GoodCopy(copy) && AllWritten(fates) ==> Others(status) == Others(old(status))
      ensures old(Flagged(View())) && out == Done && AllPowered(fates) ==> Unpacked(View())
      ensures GoodCopy(copy) && (exists f :: f in fates && Smooth(f)) ==> out == Done || out == CopyGone
    {
      ghost var s, x, h := View(), StrandedIn(View()), [];
      out, h := Attempts(fates, x);
      starts := h[..|h| - 1];
      RunOf(h, |h| - 1, fates, x, binary);
      if out == Done && Fresh(s) {
        Ended(s, View(), binary, x, Refusals(fates), fates);
      }
    }

    method Attempts(fates: seq<Fate>, ghost x: set<string>) returns (out: Outcome, ghost h: seq<Session>)
      modifies this
      ensures History(h, fates, x, binary) && h[0] == old(View()) && h[|h| - 1] == View()
      ensures out == Done ==> RestoreOk(View(), binary)
      ensures GoodCopy(copy) && (exists f :: f in fates && Smooth(f)) ==> out == Done || out == CopyGone
    {
      out, h := Incomplete, [View()];
      for i := 0 to |fates|
        invariant out == Incomplete || out == PowerLost
        invariant |h| == i + 1 && History(h, fates, x, binary) && h[0] == old(View()) && h[i] == View()
        invariant GoodCopy(copy) ==> forall k :: 0 <= k < i ==> !Smooth(fates[k])
      {
        ghost var m := View();
        ghost var tried;
        out, tried := Next(fates[i], i == 0, x, Refusals(fates));
        DoneIsOk(m, View(), fates[i], x, Refusals(fates), binary, out, tried);
        if tried {
          HistoryOn(h, View(), fates, x, binary, out);
          h := h + [View()];
        }
        if out == Done || out == CopyGone {
          return;
        }
      }
    }
  }

  predicate AllPowered(fates: seq<Fate>) { forall f :: f in fates ==> f.power.None? }

  predicate AllSound(fates: seq<Fate>) { forall f :: f in fates ==> Sound(f) }

  predicate AllWholeLines(fates: seq<Fate>) { forall f :: f in fates ==> WholeLines(f) }

  predicate AllWritten(fates: seq<Fate>) { forall f :: f in fates ==> f.statusCut.None? }

  // What would not be removed in some attempt.
  function Refusals(fates: seq<Fate>): set<string> { set i, p | 0 <= i < |fates| && p in fates[i].refused :: p }

  // A session in which nothing was extracted yet.
  ghost predicate Fresh(s: Session) { Safe(s) && !s.tarOk && !s.tarOkTmp }

  // A flag stands for a whole extraction.
  predicate Flagged(s: Session) { s.tarOk || s.tarOkTmp ==> Unpacked(s) }

  // A flag that is still up: nothing was touched.
  predicate Unflagged(s: Session, t: Session) { t.tarOk || t.tarOkTmp ==> (s.tarOk || s.tarOkTmp) && t.disk == s.disk && t.copy == s.copy }

  // Lists kept earlier stay; a new one is kept only where that was not lost.
  ghost predicate SavedMore(f: Fate, s: Session, t: Session) {
    && (forall pkg :: pkg in s.saved ==> pkg in t.saved && t.saved[pkg] == s.saved[pkg])
    && (forall pkg :: pkg in t.saved ==> pkg in s.saved || !SaveOf(f, pkg).Lost?)
  }

  ghost predicate Cleared(s: Session, t: Session, f: Fate) {
    t.copy == s.copy && forall p :: if Doomed(s, f, p) then p !in t.disk else SameAt(t.disk, s.disk, p)
  }

  ghost predicate Brought(s: Session, t: Session, f: Fate) {
    t.copy == s.copy && forall p :: p !in s.copy.files ==>
      if InfoPath(p) && p !in f.refused then p !in t.disk else SameAt(t.disk, s.disk, p)
  }

  lemma ClearedAndBrought(s: Session, m: Session, t: Session, f: Fate)
    requires Cleared(s, m, f) && Brought(m, t, f)
    ensures Exactly(s, t, f)
  {
  }

  // What a failed extraction left.
  predicate WreckLeft(s: Session, f: Fate) {
    forall p :: p in s.copy.files && p in f.wreck && f.wreck[p].Some? ==>
      p in s.disk && s.disk[p] == CutNode(s.copy.files[p], f.wreck[p].value)
  }

  // The run of attempts so far, from `s` to `t`: a path outside the copy goes
  // in the first attempt that dooms it, and stays while none does.
  predicate GoneBy(starts: seq<Session>, fates: seq<Fate>, p: string)
    requires |starts| <= |fates|
  {
    exists i :: 0 <= i < |starts| && (Doomed(starts[i], fates[i], p) || (InfoPath(p) && p !in fates[i].refused))
  }

  ghost predicate RunExactly(starts: seq<Session>, fates: seq<Fate>, s: Session, t: Session) {
    && |starts| <= |fates| && t.copy == s.copy
    && forall p :: p !in s.copy.files ==> if GoneBy(starts, fates, p) then p !in t.disk else SameAt(t.disk, s.disk, p)
  }

  lemma RunOn(starts: seq<Session>, fates: seq<Fate>, s: Session, m: Session, t: Session)
    requires |starts| < |fates| && RunExactly(starts, fates, s, m) && Exactly(m, t, fates[|starts|]) && t.copy == m.copy
    ensures RunExactly(starts + [m], fates, s, t)
  {
    var more := starts + [m];
    forall p
      ensures GoneBy(more, fates, p) <==> || GoneBy(starts, fates, p) || Doomed(m, fates[|starts|], p)
                                          || (InfoPath(p) && p !in fates[|starts|].refused)
    {
      assert more[|starts|] == m;
      if GoneBy(starts, fates, p) {
        var i :| 0 <= i < |starts| && (Doomed(starts[i], fates[i], p) || (InfoPath(p) && p !in fates[i].refused));
        assert more[i] == starts[i];
      }
    }
  }

  // Where the power never went, each attempt so far is known exactly.
  ghost predicate Tracked(s: Session, t: Session, starts: seq<Session>, fates: seq<Fate>) {
    Safe(s) && AllPowered(fates) ==> RunExactly(starts, fates, s, t)
  }

  lemma TracksOn(s: Session, m: Session, t: Session, starts: seq<Session>, fates: seq<Fate>, out: Outcome)
    requires Tracked(s, m, starts, fates) && |starts| < |fates| && t.copy == m.copy
    requires Safe(s) && out != PowerLost && out != CopyGone ==> Exactly(m, t, fates[|starts|])
    requires out == PowerLost ==> fates[|starts|].power.Some?
    requires out != CopyGone
    ensures Tracked(s, t, starts + [m], fates)
  {
    if Safe(s) && AllPowered(fates) {
      assert fates[|starts|] in fates;
      RunOn(starts, fates, s, m, t);
    }
  }

  // What holds between any two attempts of a run.
  ghost predicate Going(s: Session, t: Session, x: set<string>, refusals: set<string>, fates: seq<Fate>) {
    && Lifts(s, t)
    && (InfoLeft(s, refusals) ==> InfoLeft(t, refusals))
    && (AllSound(fates) && Inv(s, x) ==> Inv(t, x))
    && (AllSound(fates) && AllWholeLines(fates) ==> StrandedStays(s, t))
    && (AllPowered(fates) && Flagged(s) ==> Flagged(t))
    && (GoodCopy(s.copy) && AllWritten(fates) ==> Others(t.status) == Others(s.status))
  }

  // What one attempt, or a look that found none needed, does.
  ghost predicate Attempted(m: Session, t: Session, f: Fate, x: set<string>, r: set<string>, binary: string, out: Outcome, tried: bool) {
    && Keeps(m, t, f, x)
    && (InfoLeft(m, r) && f.refused <= r ==> InfoLeft(t, r))
    && (Flagged(m) && f.power.None? ==> Flagged(t))
    && (t.status == m.status || t.status == Rewritten(f, m.status, m.copy.stanzas))
    && (out == Done ==> RestoreOk(t, binary))
    && (out == PowerLost ==> f.power.Some?)
    && (if tried then out != CopyGone else t == m && (out == Done || out == CopyGone))
    && (tried && out != PowerLost && Safe(m) ==> Exactly(m, t, f))
  }

  lemma DoneIsOk(m: Session, t: Session, f: Fate, x: set<string>, r: set<string>, binary: string, out: Outcome, tried: bool)
    requires Attempted(m, t, f, x, r, binary, out, tried)
    ensures out == Done ==> RestoreOk(t, binary)
    ensures if tried then out != CopyGone else t == m && (out == Done || out == CopyGone)
  {
  }

  // The session before each attempt that was made, and after the last.
  ghost predicate History(h: seq<Session>, fates: seq<Fate>, x: set<string>, binary: string) {
    && 1 <= |h| <= |fates| + 1
    && forall i :: 0 <= i < |h| - 1 ==> Made(h[i], h[i + 1], fates[i], x, Refusals(fates), binary)
  }

  ghost predicate Made(m: Session, t: Session, f: Fate, x: set<string>, r: set<string>, binary: string) {
    exists out :: Attempted(m, t, f, x, r, binary, out, true)
  }

  lemma HistoryOn(h: seq<Session>, t: Session, fates: seq<Fate>, x: set<string>, binary: string, out: Outcome)
    requires History(h, fates, x, binary) && |h| <= |fates|
    requires Attempted(h[|h| - 1], t, fates[|h| - 1], x, Refusals(fates), binary, out, true)
    ensures History(h + [t], fates, x, binary)
  {
    var more := h + [t];
    forall i | 0 <= i < |more| - 1
      ensures Made(more[i], more[i + 1], fates[i], x, Refusals(fates), binary)
    {
      if i < |h| - 1 {
        assert Made(h[i], h[i + 1], fates[i], x, Refusals(fates), binary);
      }
    }
  }

  lemma {:induction false} RunOf(h: seq<Session>, k: nat, fates: seq<Fate>, x: set<string>, binary: string)
    requires History(h, fates, x, binary) && k < |h|
    ensures Going(h[0], h[k], x, Refusals(fates), fates) && Tracked(h[0], h[k], h[..k], fates)
  {
    if k == 0 {
      LiftsNot(h[0]);
    } else {
      RunOf(h, k - 1, fates, x, binary);
      assert Made(h[k - 1], h[k - 1 + 1], fates[k - 1], x, Refusals(fates), binary);
      MadeGoesOn(h[0], h[k - 1], h[k], x, fates, binary, h[..k - 1]);
      assert h[..k] == h[..k - 1] + [h[k - 1]];
    }
  }

  lemma MadeGoesOn(s: Session, m: Session, t: Session, x: set<string>, fates: seq<Fate>, binary: string, starts: seq<Session>)
    requires |starts| < |fates| && Going(s, m, x, Refusals(fates), fates) && Tracked(s, m, starts, fates)
    requires Made(m, t, fates[|starts|], x, Refusals(fates), binary)
    ensures Going(s, t, x, Refusals(fates), fates) && Tracked(s, t, starts + [m], fates)
  {
    var out :| Attempted(m, t, fates[|starts|], x, Refusals(fates), binary, out, true);
    GoesOn(s, m, t, x, fates, binary, out, starts);
  }

  lemma GoesOn(s: Session, m: Session, t: Session, x: set<string>, fates: seq<Fate>, binary: string, out: Outcome, starts: seq<Session>)
    requires |starts| < |fates| && Going(s, m, x, Refusals(fates), fates) && Tracked(s, m, starts, fates)
    requires Attempted(m, t, fates[|starts|], x, Refusals(fates), binary, out, true)
    ensures Going(s, t, x, Refusals(fates), fates) && Tracked(s, t, starts + [m], fates)
  {
    var f := fates[|starts|];
    assert f in fates && f.refused <= Refusals(fates);
    LiftsOn(s, m, t);
    if GoodCopy(s.copy) && f.statusCut.None? && t.status != m.status {
      RestoreIsExact(m.status, m.copy.stanzas);
    }
    if Safe(s) {
      SafeStays(s, m);
    }
    TracksOn(s, m, t, starts, fates, out);
  }

  // The end of a run that reports done.
  lemma Ended(s: Session, t: Session, binary: string, x: set<string>, refusals: set<string>, fates: seq<Fate>)
    requires Fresh(s) && x == StrandedIn(s) && Going(s, t, x, refusals, fates) && RestoreOk(t, binary)
    ensures OldBack(t, binary, refusals)
    ensures AllSound(fates) ==> forall p :: Loose(t, p) ==> Stranded(s, p)
    ensures AllSound(fates) && AllWholeLines(fates) ==> forall p :: Loose(t, p) <==> Stranded(s, p)
  {
    RestoreOkMeansOldBack(t, binary, refusals);
    assert Covered(s, x);
    if AllSound(fates) {
      assert Inv(t, x) && Clean(t, x);
      assert forall p :: Loose(t, p) ==> p in x;
    }
  }

  // Every step having worked, the restore is complete.
  lemma SmoothIsComplete(s: Session, t: Session, binary: string)
    requires GoodCopy(t.copy) && s.copy == t.copy && t.tarOkTmp
    requires t.disk == s.disk && Unpacked(s)
    requires t.status == Restored(s.status, t.copy.stanzas)
    ensures RestoreOk(t, binary)
  {
    RestoreIsExact(s.status, t.copy.stanzas);
  }

  // The status file after an attempt.
  function Rewritten(f: Fate, status: seq<string>, stanzas: seq<string>): seq<string> {
    if !f.statusWritten then status
    else if f.statusCut.Some? then Shortened(Restored(status, stanzas), f.statusCut.value)
    else Restored(status, stanzas)
  }

  lemma BothKept(f: Fate, s: Session, m: Session, t: Session)
    requires ListKept(f, s, m, AGENT, true) && ListKept(f, m, t, LUCI, true)
    ensures forall p :: EffectiveNames(t, p) <==> UsedNames(s, f, p)
  {
    assert AGENT != LUCI by { assert AGENT[0] == 'v'; assert LUCI[0] == 'l'; }
    assert Effective(t, AGENT) == Effective(m, AGENT) == Used(s, f, AGENT);
    assert Used(m, f, LUCI) == Used(s, f, LUCI);
  }

  lemma NamedMonotone(lines: seq<string>, i: nat)
    requires i <= |lines|
    ensures forall p :: Named(lines[..i], p) ==> Named(lines, p)
  {
    forall p | Named(lines[..i], p)
      ensures Named(lines, p)
    {
      PrefixNamesLess(lines[..i], lines, p);
    }
  }

  /* ---- What is lost, and what stays ---- */

  // Outside the copy the info files left are exactly those that would not go.
  lemma InfoLeftExactly(s: Session, t: Session, f: Fate)
    requires Exactly(s, t, f) && t.copy == s.copy
    ensures forall p :: InfoPath(p) && p !in s.copy.files ==> (p in t.disk <==> p in s.disk && p in f.refused)
    ensures (exists p :: p in f.refused && p in s.disk && InfoPath(p) && p !in s.copy.files) ==> !InfoBut(t, {})
  {
    if p :| p in f.refused && p in s.disk && InfoPath(p) && p !in s.copy.files {
      assert SameAt(t.disk, s.disk, p);
      assert p in t.disk && InfoPath(p) && p !in t.copy.files;
    }
  }

  // The path a list comes to name by breaking off inside a line on its way aside.
  function CutName(s: Session, f: Fate, pkg: string): Option<string> {
    var lines := ListLines(s.disk, pkg);
    if pkg in s.saved || !HasList(s.disk, pkg) || !SaveOf(f, pkg).CutAt? then None
    else
      var at := SaveOf(f, pkg).at;
      if at.lines >= |lines| || at.chars == 0 then None else Some(CutTab(Shortened(lines, at)[at.lines]))
  }

  lemma UsedIsEffectiveOrCut(s: Session, f: Fate, pkg: string, p: string)
    ensures Named(Used(s, f, pkg), p) ==> Named(Effective(s, pkg), p) || CutName(s, f, pkg) == Some(p)
    ensures CutName(s, f, pkg) == Some(p) && Absolute(p) ==> Named(Used(s, f, pkg), p)
  {
    var lines, used := ListLines(s.disk, pkg), Used(s, f, pkg);
    if Named(used, p) && used != Effective(s, pkg) {
      var at := SaveOf(f, pkg).at;
      var i :| 0 <= i < |used| && CutTab(used[i]) == p;
      assert i < at.lines ==> used[i] == lines[i];
    }
  }

  // The lists name nothing but old and new paths.
  ghost predicate Tidy(s: Session, o: Origin) {
    forall p :: EffectiveNames(s, p) ==> p in o.added || NamedBy(s.copy.files, p)
  }

  predicate Harmless(s: Session, o: Origin, f: Fate, q: string) {
    !Absolute(q) || NamedBy(s.copy.files, q) || q !in s.disk || s.disk[q].Directory? || Ours(s.copy, o, q) || q in f.refused
  }

  predicate CutsHarmlessly(s: Session, o: Origin, f: Fate, pkg: string) {
    CutName(s, f, pkg).Some? ==> Harmless(s, o, f, CutName(s, f, pkg).value)
  }

  // An attempt whose lists name only old and new paths touches nobody else's
  // exactly if no list breaks off, on its way aside, where it names a file of
  // somebody else's.
  lemma FrameKeptExactly(s: Session, t: Session, o: Origin, f: Fate)
    requires Exactly(s, t, f) && t.copy == s.copy && Framed(s, o) && Tidy(s, o)
    ensures Framed(t, o) <==> CutsHarmlessly(s, o, f, AGENT) && CutsHarmlessly(s, o, f, LUCI)
  {
    forall p | !Ours(s.copy, o, p)
      ensures Doomed(s, f, p) <==> && Loose(s, p) && p !in f.refused && Absolute(p)
                                   && (CutName(s, f, AGENT) == Some(p) || CutName(s, f, LUCI) == Some(p))
    {
      UsedIsEffectiveOrCut(s, f, AGENT, p);
      UsedIsEffectiveOrCut(s, f, LUCI, p);
    }
    forall pkg | pkg in [AGENT, LUCI] && !CutsHarmlessly(s, o, f, pkg)
      ensures !Framed(t, o)
    {
      var q := CutName(s, f, pkg).value;
      assert Doomed(s, f, q) && q !in t.disk;
      assert SameAt(s.disk, o.disk, q);
    }
    assert AGENT in [AGENT, LUCI] && LUCI in [AGENT, LUCI];
  }

  // So a list that breaks off at the name of somebody else's file has it
  // deleted, in an attempt that may well be done.
  lemma CutInsideALineDeletes(s: Session, t: Session, o: Origin, f: Fate, pkg: string, q: string)
    requires Exactly(s, t, f) && t.copy == s.copy && Framed(s, o) && Ruled(pkg)
    requires CutName(s, f, pkg) == Some(q) && Absolute(q) && Loose(s, q) && q !in o.added && q !in f.refused
    ensures q in o.disk && q !in t.disk && !Framed(t, o)
  {
    UsedIsEffectiveOrCut(s, f, pkg, q);
    assert !Ours(s.copy, o, q) && SameAt(s.disk, o.disk, q);
    assert Doomed(s, f, q);
  }

  // What stands between a failed attempt and the next.
  ghost predicate FailedAttempt(s: Session, t: Session, f: Fate) {
    t.copy == s.copy && Exactly(s, t, f) && WreckLeft(t, f) && SavedMore(f, s, t)
  }

  // An attempt that ends well may take the file; or one after a failed extraction.
  ghost predicate LostAtOnce(s: Session, p: string) { exists f :: Smooth(f) && Doomed(s, f, p) }

  ghost predicate LostLater(s: Session, p: string) { exists f, g :: FailsThenTakes(s, f, g, p) }

  ghost predicate FailsThenTakes(s: Session, f: Fate, g: Fate, p: string) {
    && f.power.None? && f.copyUsable && !f.tarOk && Smooth(g)
    && forall t :: FailedAttempt(s, t, f) ==> p !in t.disk || Doomed(t, g, p)
  }

  function GoodFate(): Fate { Fate(None, true, map[], {}, true, true, map[], true, None, map[]) }

  // A loose file that a list of the session begins with can be lost; `Guard.Retry`
  // says that no other ever is. So what a session puts at risk is known before.
  lemma BegunCanBeLost(s: Session, p: string)
    requires Safe(s) && s.saved == map[] && Loose(s, p) && Near(s, p)
    ensures LostAtOnce(s, p) || LostLater(s, p)
  {
    var pkg := if NearIn(s, AGENT, p) then AGENT else LUCI;
    if Begun(ListLines(s.disk, pkg), p) {
      var at := BreakThatNames(ListLines(s.disk, pkg), p);
      var f := GoodFate().(saves := map[pkg := CutAt(at)]);
      assert Named(Used(s, f, pkg), p);
      assert Smooth(f) && Doomed(s, f, p);
    } else {
      LostByATear(s, pkg, p);
    }
  }

  lemma LostByATear(s: Session, pkg: string, p: string)
    requires Safe(s) && s.saved == map[] && Ruled(pkg) && Loose(s, p) && Begun(ListLines(s.copy.files, pkg), p)
    ensures LostLater(s, p)
  {
    var at := BreakThatNames(ListLines(s.copy.files, pkg), p);
    var f := GoodFate().(saves := map[pkg := Lost], tarOk := false, wreck := map[ListPath(pkg) := Some(at)]);
    var g := GoodFate();
    forall t | FailedAttempt(s, t, f)
      ensures p !in t.disk || Doomed(t, g, p)
    {
      assert pkg !in t.saved;
      assert ListPath(pkg) in s.copy.files && t.disk[ListPath(pkg)] == CutNode(s.copy.files[ListPath(pkg)], at);
      assert Named(Used(t, g, pkg), p);
      if p in t.disk {
        assert SameAt(t.disk, s.disk, p);
      }
    }
    assert FailsThenTakes(s, f, g, p);
  }

  // A list that broke off on its way aside is never taken again: what it no
  // longer names, and the other list does not, is stranded.
  lemma CutListStrandsNewFiles(f: Fate, s: Session, t: Session, pkg: string, other: string, p: string)
    requires {pkg, other} == {AGENT, LUCI} && pkg !in s.saved && SaveOf(f, pkg).CutAt?
    requires ListKept(f, s, t, pkg, true)
    requires Loose(s, p) && !Named(Used(s, f, pkg), p) && !Named(Effective(s, other), p)
    ensures Stranded(t, p)
  {
    assert Ruled(pkg) && Ruled(other) && AGENT != LUCI by {
      assert pkg in {AGENT, LUCI} && other in {AGENT, LUCI};
      assert AGENT[0] == 'v' && LUCI[0] == 'l';
    }
    assert other != pkg by { assert AGENT in {pkg, other} && LUCI in {pkg, other}; }
    assert Effective(t, other) == Effective(s, other);
  }

  // Where nothing broke off and nothing was refused, a session that reports
  // done is rolled back exactly if the lists it found named the new version's
  // files and no other.
  lemma RolledBackExactly(s: Session, t: Session, o: Origin, binary: string)
    requires Lifts(s, t) && Framed(s, o) && Others(t.status) == Others(o.status)
    requires OldBack(t, binary, {}) && forall p :: Loose(t, p) <==> Stranded(s, p)
    ensures RolledBack(t, o, binary) <==> WellListed(s, o)
  {
    if RolledBack(t, o, binary) {
      forall p | Loose(s, p)
        ensures EffectiveNames(s, p) <==> p in o.added
      {
        assert Loose(t, p) <==> Stranded(s, p);
        if p !in o.added {
          assert SameAt(t.disk, o.disk, p) && SameAt(s.disk, o.disk, p);
        }
      }
    }
    if WellListed(s, o) {
      forall p | !Ours(t.copy, o, p)
        ensures SameAt(t.disk, o.disk, p)
      {
        assert SameAt(s.disk, o.disk, p);
        if Loose(s, p) {
          assert Loose(t, p) <==> Stranded(s, p);
        }
      }
    }
  }

  /* ---- A whole update that is rolled back ---- */

  // What a failed or interrupted install may leave: only paths of the two
  // packages differ, and no file list, whole or broken off, begins with an
  // info file of theirs.
  ghost predicate PartialInstall(c: Copy, o: Origin, d: Disk, status: seq<string>) {
    var s := Session(c, d, status, map[], false, false);
    Framed(s, o) && Others(status) == Others(o.status) && forall p :: Near(s, p) ==> !InfoPath(p)
  }

  // An install killed after it extracted a file and before it wrote the line
  // that names it leaves the file stranded; killed inside a line, it may leave
  // a list that names somebody else's file.
  lemma KilledInstallMisleads(c: Copy, o: Origin, d: Disk, status: seq<string>, p: string)
    requires PartialInstall(c, o, d, status) && GoodCopy(c)
    ensures var s := Session(c, d, status, map[], false, false);
            && Fresh(s)
            && (Loose(s, p) && p in o.added && !NamedBy(d, p) ==> Stranded(s, p) && !WellListed(s, o))
            && (Loose(s, p) && p !in o.added && NamedBy(d, p) ==> Doomed(s, GoodFate(), p) && !WellListed(s, o))
  {
    var s := Session(c, d, status, map[], false, false);
    assert EffectiveNames(s, p) <==> NamedBy(d, p);
  }

  predicate BegunThere(o: Origin, found: Disk, p: string) {
    || Begun(ListLines(found, AGENT), p) || Begun(ListLines(found, LUCI), p)
    || Begun(ListLines(o.disk, AGENT), p) || Begun(ListLines(o.disk, LUCI), p)
  }

  predicate Passing(o: Origin, found: Disk, p: string) {
    p in found && !found[p].Directory? && !NamedBy(o.disk, p)
  }

  // What stands at a path once the rollback is done, whatever failed on the
  // way: the old content (where it can be told); no info file of the new
  // version but those that would not go; and what the install left, but for
  // files no old list names and some list begins with. Outside the two
  // packages the install left what was there.
  ghost predicate PathBack(o: Origin, found: Disk, after: Disk, content: bool, refusals: set<string>, p: string) {
    && (content && Copied(o.disk, p) && !Exempt(o.disk, p) ==> SameAt(after, o.disk, p))
    && (!Copied(o.disk, p) && InfoPath(p) ==> p !in after || (SameAt(after, found, p) && p in refusals))
    && (!Copied(o.disk, p) && !InfoPath(p) ==>
          SameAt(after, found, p) || (p !in after && Passing(o, found, p) && BegunThere(o, found, p)))
    && (!Copied(o.disk, p) && !InfoPath(p) && p !in o.added ==> SameAt(found, o.disk, p))
  }

  // Where nothing broke off and nothing was refused: exactly the files go that
  // a list of the install names and no old one does.
  ghost predicate Settled(o: Origin, found: Disk, after: Disk, p: string) {
    !Copied(o.disk, p) ==>
      if InfoPath(p) || (Passing(o, found, p) && NamedBy(found, p)) then p !in after else SameAt(after, found, p)
  }

  // When such a path is as it was before the update.
  predicate Recoverable(o: Origin, found: Disk, p: string) {
    if Copied(o.disk, p) then true
    else if InfoPath(p) || (Passing(o, found, p) && NamedBy(found, p)) then p !in o.disk
    else SameAt(found, o.disk, p)
  }

  // Conffiles aside, the router is what it was at exactly these paths.
  lemma BackExactly(o: Origin, found: Disk, after: Disk, refusals: set<string>, p: string)
    requires PathBack(o, found, after, true, refusals, p) && Settled(o, found, after, p)
    requires !(Copied(o.disk, p) && Exempt(o.disk, p))
    ensures SameAt(after, o.disk, p) <==> Recoverable(o, found, p)
  {
  }

  // In particular a path an old list names, but where nothing was before the
  // update, keeps what the new version put there.
  lemma OldNamedNewcomersStay(o: Origin, found: Disk, after: Disk, content: bool, refusals: set<string>, p: string)
    requires PathBack(o, found, after, content, refusals, p)
    requires NamedBy(o.disk, p) && !InfoPath(p) && p !in o.disk && p in found
    ensures p in after && after[p] == found[p] && !SameAt(after, o.disk, p)
  {
  }

  lemma OldBackAtEveryPath(s: Session, t: Session, o: Origin, binary: string, content: bool, refusals: set<string>)
    requires TakenFrom(s.copy, o.disk, o.status) && Lifts(s, t) && OldBack(t, binary, refusals) && Framed(s, o) && s.saved == map[]
    requires content ==> ContentBack(t)
    ensures forall p :: PathBack(o, s.disk, t.disk, content, refusals, p)
  {
    CopyHasTheLists(s.copy, o.disk, o.status, AGENT);
    CopyHasTheLists(s.copy, o.disk, o.status, LUCI);
    forall p
      ensures PathBack(o, s.disk, t.disk, content, refusals, p)
    {
      ConffilesAreExempt(o.disk, p);
      assert p in s.copy.files <==> Copied(o.disk, p);
      assert Near(s, p) <==> BegunThere(o, s.disk, p);
    }
  }

  lemma SettledAtEveryPath(s: Session, t: Session, o: Origin)
    requires TakenFrom(s.copy, o.disk, o.status) && Lifts(s, t) && InfoBut(t, {}) && s.saved == map[]
    requires forall p :: Loose(t, p) <==> Stranded(s, p)
    ensures forall p :: Settled(o, s.disk, t.disk, p)
  {
    CopyHasTheLists(s.copy, o.disk, o.status, AGENT);
    CopyHasTheLists(s.copy, o.disk, o.status, LUCI);
    forall p
      ensures Settled(o, s.disk, t.disk, p)
    {
      assert p in s.copy.files <==> Copied(o.disk, p);
      assert EffectiveNames(s, p) <==> NamedBy(s.disk, p);
      assert Loose(t, p) <==> Stranded(s, p);
    }
  }

  // Copy, install that stops anywhere, any number of attempts that fail or
  // lose power: once one reports done, every path stands as said.
  method FailedUpdate(before: Disk, status: seq<string>, room: bool, manifestWritten: bool,
                      found: Disk, foundStatus: seq<string>, fates: seq<Fate>, binary: string, ghost added: set<string>)
    returns (out: Outcome, after: Disk, afterStatus: seq<string>)
    requires FlatInfo(before) && Orderly(status)
    ensures var o, content := Origin(before, status, added), manifestWritten || AllPowered(fates);
            out == Done && (forall c :: TakenFrom(c, before, status) ==> PartialInstall(c, o, found, foundStatus))
            ==> && (forall p :: PathBack(o, found, after, content, Refusals(fates), p))
                && (AllSound(fates) && AllWholeLines(fates) ==> forall p :: Settled(o, found, after, p))
                && (AllWritten(fates) ==> Others(afterStatus) == Others(status))
                && (Copied(before, binary) && !Exempt(before, binary) ==> SameAt(after, before, binary))
                && (forall pkg :: Ruled(pkg) && Version(status, pkg).Some? && Version(status, pkg).value != "" ==>
                      Version(afterStatus, pkg) == Version(status, pkg))
    ensures room && HasList(before, AGENT) && (exists f :: f in fates && Smooth(f)) ==> out == Done || out == CopyGone
    ensures !room || !HasList(before, AGENT) ==> out == CopyGone && after == before && afterStatus == status
  {
    var prepared := Prepare(before, status, room, manifestWritten);
    if prepared.None? {
      // Refused: nothing was installed.
      return CopyGone, before, status;
    }
    var guard := new Guard(prepared.value, binary, found, foundStatus);
    ghost var o, s := Origin(before, status, added), guard.View();
    ghost var starts;
    out, starts := guard.Retry(fates);
    after, afterStatus := guard.disk, guard.status;
    if out == Done && PartialInstall(prepared.value, o, found, foundStatus) {
      ConffilesAreExempt(before, binary);
      UpdateUndone(s, guard.View(), o, binary, fates, manifestWritten || AllPowered(fates));
    }
  }

  lemma UpdateUndone(s: Session, t: Session, o: Origin, binary: string, fates: seq<Fate>, content: bool)
    requires TakenFrom(s.copy, o.disk, o.status) && Lifts(s, t) && OldBack(t, binary, Refusals(fates)) && Framed(s, o) && s.saved == map[]
    requires content ==> ContentBack(t)
    requires AllSound(fates) && AllWholeLines(fates) ==> forall p :: Loose(t, p) <==> Stranded(s, p)
    ensures forall p :: PathBack(o, s.disk, t.disk, content, Refusals(fates), p)
    ensures AllSound(fates) && AllWholeLines(fates) ==> forall p :: Settled(o, s.disk, t.disk, p)
  {
    OldBackAtEveryPath(s, t, o, binary, content, Refusals(fates));
    if AllSound(fates) && AllWholeLines(fates) {
      SoundRefusesNothing(fates);
      SettledAtEveryPath(s, t, o);
    }
  }

  lemma SoundRefusesNothing(fates: seq<Fate>)
    requires AllSound(fates)
    ensures Refusals(fates) == {}
  {
    assert forall i :: 0 <= i < |fates| ==> fates[i] in fates;
  }
}
