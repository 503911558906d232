/** The update guard's rollback: the copy taken before an update, what a
    session holds, and what a restore that passes for complete has achieved. A
    file is its sequence of lines; its sha256 stands for its content. A write
    may break off anywhere, inside a line too. */
module GuardRollback {
  import opened Wrappers
  import opened GuardFiles

  datatype Node = File(lines: seq<string>) | Link(target: string) | Directory

  type Disk = map<string, Node>

  const INFO := "/usr/lib/opkg/info/"

  predicate Ruled(pkg: string) { pkg == AGENT || pkg == LUCI }

  function ListPath(pkg: string): string { INFO + pkg + ".list" }

  predicate InfoOf(pkg: string, p: string) { StartsWith(p, INFO + pkg + ".") }

  predicate InfoPath(p: string) { InfoOf(AGENT, p) || InfoOf(LUCI, p) }

  function CutTab(line: string): string {
    if line == "" || line[0] == '\t' then "" else [line[0]] + CutTab(line[1..])
  }

  predicate Absolute(p: string) { p != "" && p[0] == '/' }

  // Does a package's file list name this path?
  predicate Named(lines: seq<string>, p: string) {
    Absolute(p) && exists i :: 0 <= i < |lines| && CutTab(lines[i]) == p
  }

  // Alone on the line, or before a tab.
  predicate StandsOn(line: string, p: string) {
    line == p || (|line| > |p| && line[..|p|] == p && line[|p|] == '\t')
  }

  lemma {:induction false} CutTabExactly(line: string, p: string)
    ensures CutTab(line) == p <==> '\t' !in p && StandsOn(line, p)
    decreases |line|
  {
    if line != "" && line[0] != '\t' && p != "" {
      CutTabExactly(line[1..], p[1..]);
      assert p == [p[0]] + p[1..] && line == [line[0]] + line[1..];
      if |line| > |p| {
        assert line[..|p|] == [line[0]] + line[1..][..|p| - 1];
      }
    } else if line != "" && line[0] == '\t' && p != "" {
      assert StandsOn(line, p) ==> p[0] == line[0];
    }
  }

  // A list names exactly the absolute paths that stand on a line of it, alone or
  // before a tab.
  lemma NamedExactly(lines: seq<string>, p: string)
    ensures Named(lines, p) <==>
              p != "" && p[0] == '/' && '\t' !in p && exists i :: 0 <= i < |lines| && StandsOn(lines[i], p)
  {
    forall i | 0 <= i < |lines|
      ensures CutTab(lines[i]) == p <==> '\t' !in p && StandsOn(lines[i], p)
    {
      CutTabExactly(lines[i], p);
    }
  }

  // Does a line begin with this path? Broken off there, the list names it.
  predicate Begun(lines: seq<string>, p: string) {
    Absolute(p) && exists i :: 0 <= i < |lines| && p <= CutTab(lines[i])
  }

  // Where a write broke off: after so many lines and so many characters more.
  datatype Break = Break(lines: nat, chars: nat)

  function Shortened(lines: seq<string>, at: Break): seq<string> {
    if at.lines >= |lines| then lines
    else lines[..at.lines] + if at.chars == 0 then [] else [lines[at.lines][..Min(at.chars, |lines[at.lines]|)]]
  }

  // The first lines of some others, the last perhaps not to its end.
  predicate FirstOf(short: seq<string>, long: seq<string>) {
    && |short| <= |long|
    && (forall i :: 0 <= i < |short| ==> short[i] <= long[i])
    && (forall i :: 0 <= i < |short| - 1 ==> short[i] == long[i])
  }

  predicate HasList(d: Disk, pkg: string) { ListPath(pkg) in d && d[ListPath(pkg)].File? }

  function ListLines(d: Disk, pkg: string): seq<string> {
    if HasList(d, pkg) then d[ListPath(pkg)].lines else []
  }

  predicate NamedBy(d: Disk, p: string) {
    Named(ListLines(d, AGENT), p) || Named(ListLines(d, LUCI), p)
  }

  // One line of the manifest: what the completeness check wants of a path.
  datatype Check = Conffile | IsLink(target: string) | HasContent(lines: seq<string>)

  datatype Entry = Entry(path: string, check: Check)

  predicate Meets(d: Disk, e: Entry) {
    match e.check
    case Conffile => true
    case IsLink(target) => e.path in d && d[e.path] == Link(target)
    case HasContent(lines) => e.path in d && d[e.path] == File(lines)
  }

  // The rollback copy. Writing the manifest may fail without stopping the update.
  datatype Copy = Copy(
    files: Disk,
    conffiles: set<string>,
    manifest: Option<seq<Entry>>,
    stanzas: seq<string>,
    agentVersion: Option<string>,
    luciVersion: Option<string>)

  datatype Session = Session(
    copy: Copy,
    disk: Disk,
    status: seq<string>,
    saved: map<string, seq<string>>,   // the new version's file lists, kept aside
    tarOk: bool,                       // the flag that survives a reboot
    tarOkTmp: bool)                    // and its twin in /tmp

  /* ---- Taking the copy ---- */

  // What the copy takes of a package: what its list names and opkg keeps of it.
  predicate OwnedBy(d: Disk, pkg: string, p: string) {
    && p in d
    && !d[p].Directory?
    && HasList(d, pkg)
    && (Named(ListLines(d, pkg), p) || InfoOf(pkg, p))
  }

  predicate Copied(d: Disk, p: string) { OwnedBy(d, AGENT, p) || OwnedBy(d, LUCI, p) }

  function CheckOf(conffiles: set<string>, p: string, n: Node): Check {
    if p in conffiles then Conffile
    else match n
      case Link(target) => IsLink(target)
      case File(lines) => HasContent(lines)
      case Directory => Conffile
  }

  // The manifest has the entry of every path of the copy, and no other.
  predicate Lists(manifest: seq<Entry>, files: Disk, conffiles: set<string>) {
    && (forall p :: p in files ==> Entry(p, CheckOf(conffiles, p, files[p])) in manifest)
    && (forall e :: e in manifest ==> e.path in files && e.check == CheckOf(conffiles, e.path, files[e.path]))
  }

  // The version a status file records survives the saving of its stanzas.
  predicate Recorded(stanzas: seq<string>, pkg: string, version: Option<string>) {
    version.Some? ==> Version(stanzas, pkg) == version
  }

  predicate GoodCopy(c: Copy) {
    && HasList(c.files, AGENT)
    && (forall p :: p in c.files ==> !c.files[p].Directory? && (NamedBy(c.files, p) || InfoPath(p)))
    && Kept(c.stanzas, false)
    && Recorded(c.stanzas, AGENT, c.agentVersion)
    && Recorded(c.stanzas, LUCI, c.luciVersion)
    && (c.manifest.Some? ==> Lists(c.manifest.value, c.files, c.conffiles))
  }

  // The router before the update, and the paths the new packages own.
  datatype Origin = Origin(disk: Disk, status: seq<string>, added: set<string>)

  // A file that is neither the old version's, nor named by it, nor opkg's own.
  predicate Loose(s: Session, p: string) {
    && p in s.disk && !s.disk[p].Directory?
    && p !in s.copy.files && !NamedBy(s.copy.files, p) && !InfoPath(p)
  }

  // The loose files left are all among `x`.
  predicate Clean(s: Session, x: set<string>) { forall p :: p in s.disk && Loose(s, p) ==> p in x }

  function Effective(s: Session, pkg: string): seq<string> {
    if pkg in s.saved then s.saved[pkg] else ListLines(s.disk, pkg)
  }

  predicate EffectiveNames(s: Session, p: string) {
    Named(Effective(s, AGENT), p) || Named(Effective(s, LUCI), p)
  }

  // A list the rollback reads, now or on a later attempt, may come to name this path.
  predicate NearIn(s: Session, pkg: string, p: string) {
    if pkg in s.saved then Begun(s.saved[pkg], p) else Begun(ListLines(s.disk, pkg), p) || Begun(ListLines(s.copy.files, pkg), p)
  }

  predicate Near(s: Session, p: string) { NearIn(s, AGENT, p) || NearIn(s, LUCI, p) }

  // A good copy, and no list names an info file of the two packages.
  ghost predicate Safe(s: Session) { GoodCopy(s.copy) && forall p :: Near(s, p) ==> !InfoPath(p) }

  // Every loose file outside `x` is named by a list the rollback reads.
  predicate Covered(s: Session, x: set<string>) {
    forall p :: p in s.disk && Loose(s, p) ==> EffectiveNames(s, p) || p in x
  }

  // A loose file that no list the rollback reads names.
  predicate Stranded(s: Session, p: string) { Loose(s, p) && !EffectiveNames(s, p) }

  function StrandedIn(s: Session): set<string> { set p | p in s.disk && Stranded(s, p) }

  // What holds while no kept list is broken off and no removal refused: the
  // loose files outside `x` are covered, and gone once the copy is extracted.
  ghost predicate Inv(s: Session, x: set<string>) {
    Safe(s) && Covered(s, x) && (s.tarOk || s.tarOkTmp ==> Clean(s, x))
  }

  predicate Ours(c: Copy, o: Origin, p: string) { p in c.files || p in o.added || InfoPath(p) }

  predicate SameAt(a: Disk, b: Disk, p: string) {
    (p in a <==> p in b) && (p in a ==> a[p] == b[p])
  }

  // No path of anyone else was touched.
  ghost predicate Framed(s: Session, o: Origin) {
    forall p :: !Ours(s.copy, o, p) ==> SameAt(s.disk, o.disk, p)
  }

  // The info files outside the copy are all among `r`.
  predicate InfoBut(s: Session, r: set<string>) {
    forall p :: p in s.disk && InfoPath(p) ==> p in s.copy.files || p in r
  }

  predicate InfoLeft(s: Session, r: set<string>) { s.tarOk || s.tarOkTmp ==> InfoBut(s, r) }

  predicate VersionsBack(s: Session) {
    && (s.copy.agentVersion.Some? ==> Version(s.status, AGENT) == s.copy.agentVersion)
    && (s.copy.luciVersion.Some? ==> Version(s.status, LUCI) == s.copy.luciVersion)
  }

  // Every copied path outside the conffiles has its old content.
  predicate ContentBack(s: Session) {
    forall p :: p in s.copy.files && p !in s.copy.conffiles ==> p in s.disk && s.disk[p] == s.copy.files[p]
  }

  predicate RestoreOk(s: Session, binary: string) {
    && (s.tarOk || s.tarOkTmp)
    && (if s.copy.manifest.Some? && s.copy.manifest.value != []
        then forall e :: e in s.copy.manifest.value ==> Meets(s.disk, e)
        else binary in s.copy.files ==> SameAt(s.disk, s.copy.files, binary))
    && ListPath(AGENT) in s.disk
    && VersionsBack(s)
  }

  // What a session that reports "done" has achieved, whatever failed on the
  // way; `r` are the info files that would not be removed.
  predicate OldBack(s: Session, binary: string, r: set<string>) {
    && InfoBut(s, r)
    && VersionsBack(s)
    && ListPath(AGENT) in s.disk
    && (if s.copy.manifest.Some? then ContentBack(s)
        else binary in s.copy.files ==> SameAt(s.disk, s.copy.files, binary))
  }

  // The old version is back, nothing of the new one is left, and nothing of
  // anyone else's is touched.
  ghost predicate RolledBack(s: Session, o: Origin, binary: string) {
    && OldBack(s, binary, {})
    && (forall p :: p in o.added ==> !Loose(s, p))
    && Framed(s, o)
    && Others(s.status) == Others(o.status)
  }

  // The lists name the new version's loose files and no other.
  ghost predicate WellListed(s: Session, o: Origin) {
    forall p :: Loose(s, p) ==> (EffectiveNames(s, p) <==> p in o.added)
  }

  lemma RestoreOkMeansOldBack(s: Session, binary: string, r: set<string>)
    requires GoodCopy(s.copy) && InfoLeft(s, r) && RestoreOk(s, binary)
    ensures OldBack(s, binary, r)
  {
    if s.copy.manifest.Some? {
      var m := s.copy.manifest.value;
      assert ListPath(AGENT) in s.copy.files;
      assert Entry(ListPath(AGENT), CheckOf(s.copy.conffiles, ListPath(AGENT), s.copy.files[ListPath(AGENT)])) in m;
      forall p | p in s.copy.files && p !in s.copy.conffiles
        ensures p in s.disk && s.disk[p] == s.copy.files[p]
      {
        var e := Entry(p, CheckOf(s.copy.conffiles, p, s.copy.files[p]));
        assert e in m;
        assert Meets(s.disk, e);
      }
    }
  }

  // Without a manifest only the binary is compared: any other file of the copy
  // may be torn, and the restore still passes for complete.
  lemma NoManifestHidesATear(s: Session, binary: string, p: string, torn: Node)
    requires RestoreOk(s, binary) && s.copy.manifest.None? && p != binary
    ensures RestoreOk(s.(disk := s.disk[p := torn]), binary)
  {
  }

  lemma ListPathIsInfo(pkg: string)
    ensures InfoOf(pkg, ListPath(pkg))
  {
    assert ListPath(pkg) == (INFO + pkg + ".") + "list";
  }

  /* ---- Lists that break off ---- */

  lemma {:induction false} CutTabGrows(a: string, b: string)
    requires a <= b
    ensures CutTab(a) <= CutTab(b)
  {
    if a != "" && a[0] != '\t' {
      CutTabGrows(a[1..], b[1..]);
    }
  }

  lemma ShortenedIsFirst(lines: seq<string>, at: Break)
    ensures FirstOf(Shortened(lines, at), lines)
    ensures at.chars == 0 ==> Shortened(lines, at) <= lines
  {
  }

  // A list that broke off may name what the whole one only begins with.
  lemma FirstBeginsLess(short: seq<string>, long: seq<string>, p: string)
    requires FirstOf(short, long) && Begun(short, p)
    ensures Begun(long, p)
  {
    var i :| 0 <= i < |short| && p <= CutTab(short[i]);
    CutTabGrows(short[i], long[i]);
    assert p <= CutTab(long[i]);
  }

  lemma NamedIsBegun(lines: seq<string>, p: string)
    requires Named(lines, p)
    ensures Begun(lines, p)
  {
  }

  lemma PrefixNamesLess(short: seq<string>, long: seq<string>, p: string)
    requires short <= long && Named(short, p)
    ensures Named(long, p)
  {
    var i :| 0 <= i < |short| && CutTab(short[i]) == p;
    assert long[i] == short[i];
  }

  lemma {:induction false} CutTabIsPlain(line: string, k: nat)
    requires k <= |CutTab(line)|
    ensures |CutTab(line)| <= |line| && CutTab(line[..k]) == CutTab(line)[..k]
  {
    CutTabFits(line);
    if k > 0 {
      assert line[..k][1..] == line[1..][..k - 1];
      CutTabIsPlain(line[1..], k - 1);
    }
  }

  lemma {:induction false} CutTabFits(line: string)
    ensures |CutTab(line)| <= |line|
  {
    if line != "" && line[0] != '\t' {
      CutTabFits(line[1..]);
    }
  }

  // And it can come to name it: there is a place to break off at.
  lemma BreakThatNames(lines: seq<string>, p: string) returns (at: Break)
    requires Begun(lines, p)
    ensures Named(Shortened(lines, at), p)
  {
    var i :| 0 <= i < |lines| && p <= CutTab(lines[i]);
    at := Break(i, |p|);
    CutTabIsPlain(lines[i], |p|);
    var short := Shortened(lines, at);
    assert short[i] == lines[i][..|p|];
    assert CutTab(short[i]) == p;
  }

  /* ---- A status file that breaks off ---- */

  // What is left of the line a write broke off in.
  function Rest(lines: seq<string>, at: Break): Option<string> {
    if at.lines >= |lines| || at.chars == 0 then None else Some(lines[at.lines][..Min(at.chars, |lines[at.lines]|)])
  }

  function Line(l: Option<string>): seq<string> { if l.Some? then [l.value] else [] }

  lemma ShortenedIs(lines: seq<string>, at: Break)
    requires at.lines < |lines|
    ensures Shortened(lines, at) == lines[..at.lines] + Line(Rest(lines, at))
  {
  }

  lemma PrefixIsNoPackage(l: string, line: string)
    requires l <= line
    ensures IsPackage(l) ==> IsPackage(line)
  {
  }

  // Saved stanzas that break off leave at most their last line, and only where
  // that opened a stanza and no longer says so.
  lemma {:induction false} KeptBreaksOff(s: seq<string>, inside: bool, k: nat, l: Option<string>)
    requires Kept(s, inside) && k < |s| && (l.Some? ==> l.value <= s[k])
    ensures StripFrom(s[..k] + Line(l), inside) == if l.Some? && IsPackage(s[k]) && !Own(l.value) then [l.value] else []
  {
    var cut := s[..k] + Line(l);
    if k == 0 {
      assert cut == Line(l);
      if l.Some? {
        assert cut[1..] == [];
        if inside {
          PrefixIsNoPackage(l.value, s[0]);
        }
      }
    } else {
      assert cut[0] == s[0] && cut[1..] == s[1..][..k - 1] + Line(l);
      KeptBreaksOff(s[1..], s[0] != "", k - 1, l);
    }
  }

  // Does a restored status file that broke off still hold everyone else's stanzas?
  predicate BreaksHarmlessly(status: seq<string>, stanzas: seq<string>, at: Break) {
    var others, whole := Others(status), Restored(status, stanzas);
    var l := Rest(whole, at);
    if at.lines >= |whole| then true
    else if at.lines >= |others| then !(l.Some? && IsPackage(whole[at.lines]) && !Own(l.value))
    else Seal(others[..at.lines] + if l.Some? && !Own(l.value) then [l.value] else []) == others
  }

  lemma BreakStripped(a: seq<string>, l: Option<string>)
    requires Foreign(a)
    ensures StripFrom(a + Line(l), false) == a + if l.Some? && !Own(l.value) then [l.value] else []
  {
    ForeignFirst(a, Line(l));
    if l.Some? {
      assert Line(l)[1..] == [];
    }
  }

  lemma BreakInStanzas(others: seq<string>, stanzas: seq<string>, k: nat, l: Option<string>)
    requires Foreign(others) && Seal(others) == others && Kept(stanzas, false)
    requires k < |stanzas| && (l.Some? ==> l.value <= stanzas[k])
    ensures Others(others + (stanzas[..k] + Line(l))) == others <==> !(l.Some? && IsPackage(stanzas[k]) && !Own(l.value))
  {
    ForeignFirst(others, stanzas[..k] + Line(l));
    KeptBreaksOff(stanzas, false, k, l);
    assert others + [] == others;
  }

  lemma BrokenStatusKeepsOthersExactly(status: seq<string>, stanzas: seq<string>, at: Break)
    requires Kept(stanzas, false)
    ensures Others(Shortened(Restored(status, stanzas), at)) == Others(status) <==> BreaksHarmlessly(status, stanzas, at)
  {
    var others, whole := Others(status), Restored(status, stanzas);
    var l := Rest(whole, at);
    StripIsForeign(status, false);
    SealFacts(StripFrom(status, false));
    if at.lines >= |whole| {
      RestoreIsExact(status, stanzas);
    } else {
      ShortenedIs(whole, at);
      if at.lines >= |others| {
        var k := at.lines - |others|;
        assert whole[at.lines] == stanzas[k];
        assert Shortened(whole, at) == others + (stanzas[..k] + Line(l));
        BreakInStanzas(others, stanzas, k, l);
      } else {
        assert whole[..at.lines] == others[..at.lines];
        BreakStripped(others[..at.lines], l);
      }
    }
  }
}
