/** The text files the update guard rewrites in place: opkg's status file, of
    which it saves and restores two stanzas, and root's crontab, in which it
    keeps one managed block. A file is its sequence of lines. */
module GuardFiles {
  import opened Picking
  import opened Wrappers

  const AGENT := "vectra-controller-agent"
  const LUCI := "luci-app-vectra-controller"
  const PACKAGE_KEY := "Package: "
  const VERSION_KEY := "Version: "

  predicate StartsWith(line: string, prefix: string) {
    |prefix| <= |line| && line[..|prefix|] == prefix
  }

  predicate Blank(c: char) { c == ' ' || c == '\t' }

  // The first blank-separated field of a text.
  function FirstField(s: string): string {
    if s == "" then ""
    else if Blank(s[0]) then FirstField(s[1..])
    else TakeField(s)
  }

  function TakeField(s: string): string {
    if s == "" || Blank(s[0]) then "" else [s[0]] + TakeField(s[1..])
  }

  predicate IsPackage(line: string) { StartsWith(line, PACKAGE_KEY) }

  predicate Names(line: string, pkg: string) {
    IsPackage(line) && FirstField(line[|PACKAGE_KEY|..]) == pkg
  }

  // The line that opens a stanza of one of the two packages.
  predicate Own(line: string) { Names(line, AGENT) || Names(line, LUCI) }

  /* ---- The stanzas saved before the update ---- */

  function ExtractFrom(lines: seq<string>, keep: bool): seq<string> {
    if lines == [] then (if keep then [""] else [])
    else
      var line, rest := lines[0], lines[1..];
      var closed := if IsPackage(line) && keep then [""] else [];
      var keep1 := if IsPackage(line) then Own(line) else keep;
      closed + if !keep1 then ExtractFrom(rest, false)
               else [line] + ExtractFrom(rest, line != "")
  }

  function Stanzas(status: seq<string>): seq<string> { ExtractFrom(status, false) }

  /* ---- The status file without them ---- */

  function StripFrom(lines: seq<string>, skip: bool): seq<string> {
    if lines == [] then []
    else
      var line, rest := lines[0], lines[1..];
      var skip1 := if IsPackage(line) then Own(line) else skip;
      if skip1 then StripFrom(rest, line != "") else [line] + StripFrom(rest, false)
  }

  // The last stanza is closed by an empty line.
  function Seal(lines: seq<string>): seq<string> {
    if lines != [] && lines[|lines| - 1] != "" then lines + [""] else lines
  }

  function Others(status: seq<string>): seq<string> { Seal(StripFrom(status, false)) }

  function Restored(status: seq<string>, stanzas: seq<string>): seq<string> {
    Others(status) + stanzas
  }

  // The version opkg records for a package.
  function VersionFrom(lines: seq<string>, pkg: string, current: bool): Option<string> {
    if lines == [] then None
    else if IsPackage(lines[0]) then VersionFrom(lines[1..], pkg, Names(lines[0], pkg))
    else if current && StartsWith(lines[0], VERSION_KEY) then Some(FirstField(lines[0][|VERSION_KEY|..]))
    else VersionFrom(lines[1..], pkg, current)
  }

  function Version(status: seq<string>, pkg: string): Option<string> { VersionFrom(status, pkg, false) }

  // A field is what stands between blanks.
  lemma {:induction false} FirstFieldExactly(blanks: string, field: string, rest: string)
    requires (forall i :: 0 <= i < |blanks| ==> blanks[i] == ' ' || blanks[i] == '\t')
    requires field != "" && forall i :: 0 <= i < |field| ==> field[i] != ' ' && field[i] != '\t'
    requires rest == "" || rest[0] == ' ' || rest[0] == '\t'
    ensures FirstField(blanks + (field + rest)) == field
  {
    var s := blanks + (field + rest);
    if blanks == "" {
      assert s == field + rest && s[0] == field[0];
      FieldTaken(field, rest);
    } else {
      assert s[1..] == blanks[1..] + (field + rest);
      FirstFieldExactly(blanks[1..], field, rest);
    }
  }

  lemma {:induction false} FieldTaken(field: string, rest: string)
    requires forall i :: 0 <= i < |field| ==> field[i] != ' ' && field[i] != '\t'
    requires rest == "" || rest[0] == ' ' || rest[0] == '\t'
    ensures TakeField(field + rest) == field
  {
    if field == "" {
      assert field + rest == rest;
    } else {
      assert (field + rest)[1..] == field[1..] + rest;
      FieldTaken(field[1..], rest);
    }
  }

  // A version line in a stanza of the package.
  predicate VersionAt(lines: seq<string>, i: nat, pkg: string)
    requires i < |lines|
  {
    && StartsWith(lines[i], "Version: ")
    && exists j: nat :: j < i && InStanza(lines, j, i, pkg)
  }

  predicate InStanza(lines: seq<string>, j: nat, i: nat, pkg: string)
    requires j < i < |lines|
  {
    && StartsWith(lines[j], "Package: ") && FirstField(lines[j][9..]) == pkg
    && forall m :: j < m <= i ==> !StartsWith(lines[m], "Package: ")
  }

  // The version recorded is that of the package's first such line, at i; where
  // there is none, i is past the end.
  lemma VersionExactly(status: seq<string>, pkg: string) returns (i: nat)
    ensures i <= |status| && forall k :: 0 <= k < i ==> !VersionAt(status, k, pkg)
    ensures if i < |status| then VersionAt(status, i, pkg) && Version(status, pkg) == Some(FirstField(status[i][9..]))
            else Version(status, pkg).None?
  {
    i := VersionFromExactly(status, pkg, false);
    assert forall k :: 0 <= k < |status| ==> (VersionAt(status, k, pkg) <==> VersionFromAt(status, k, pkg, false));
  }

  // The same, where a stanza of the package may already be open.
  predicate VersionFromAt(lines: seq<string>, i: nat, pkg: string, current: bool)
    requires i < |lines|
  {
    VersionAt(lines, i, pkg)
    || (current && StartsWith(lines[i], "Version: ") && forall m :: 0 <= m <= i ==> !StartsWith(lines[m], "Package: "))
  }

  lemma VersionBehind(lines: seq<string>, pkg: string, current: bool, i: nat)
    requires lines != [] && 0 < i < |lines|
    ensures var now := if IsPackage(lines[0]) then Names(lines[0], pkg) else current;
            VersionFromAt(lines, i, pkg, current) <==> VersionFromAt(lines[1..], i - 1, pkg, now)
  {
    var rest := lines[1..];
    assert forall m :: 0 <= m < |rest| ==> rest[m] == lines[m + 1];
    if j: nat :| j < i && InStanza(lines, j, i, pkg) {
      if j > 0 {
        assert InStanza(rest, j - 1, i - 1, pkg);
      } else {
        assert forall m :: 0 <= m <= i - 1 ==> !StartsWith(rest[m], "Package: ");
      }
    }
    var before := i - 1;
    if j: nat :| j < before && InStanza(rest, j, before, pkg) {
      assert forall m :: j + 1 < m <= i ==> lines[m] == rest[m - 1];
      assert InStanza(lines, j + 1, i, pkg);
    }
    if forall m :: 0 <= m <= i - 1 ==> !StartsWith(rest[m], "Package: ") {
      assert forall m :: 0 < m <= i ==> lines[m] == rest[m - 1];
      if Names(lines[0], pkg) {
        assert InStanza(lines, 0, i, pkg);
      }
    }
  }

  lemma {:induction false} VersionFromExactly(lines: seq<string>, pkg: string, current: bool) returns (i: nat)
    ensures i <= |lines| && forall k :: 0 <= k < i ==> !VersionFromAt(lines, k, pkg, current)
    ensures if i < |lines| then VersionFromAt(lines, i, pkg, current) && VersionFrom(lines, pkg, current) == Some(FirstField(lines[i][9..]))
            else VersionFrom(lines, pkg, current).None?
  {
    i := 0;
    if lines != [] && (IsPackage(lines[0]) || !(current && StartsWith(lines[0], VERSION_KEY))) {
      var now := if IsPackage(lines[0]) then Names(lines[0], pkg) else current;
      i := VersionFromExactly(lines[1..], pkg, now);
      i := i + 1;
      forall k | 0 < k < |lines|
        ensures VersionFromAt(lines, k, pkg, current) <==> VersionFromAt(lines[1..], k - 1, pkg, now)
      {
        VersionBehind(lines, pkg, current, k);
      }
      FirstIsNoVersion(lines, pkg, current);
    }
  }

  lemma FirstIsNoVersion(lines: seq<string>, pkg: string, current: bool)
    requires lines != [] && (IsPackage(lines[0]) || !(current && StartsWith(lines[0], VERSION_KEY)))
    ensures !VersionFromAt(lines, 0, pkg, current)
  {
  }

  /* ---- The rewriting loops ---- */

  lemma Push<T>(a: seq<T>, x: T, b: seq<T>)
    ensures (a + [x]) + b == a + ([x] + b)
  {
  }

  // One turn of the extracting loop.
  lemma ExtractTurn(out: seq<string>, line: string, rest: seq<string>, keep: bool)
    ensures var keep1 := if IsPackage(line) then Own(line) else keep;
            var out1 := if IsPackage(line) && keep then out + [""] else out;
            out + ExtractFrom([line] + rest, keep) ==
            if !keep1 then out1 + ExtractFrom(rest, false)
            else (out1 + [line]) + ExtractFrom(rest, line != "")
  {
    assert ([line] + rest)[1..] == rest;
    var keep1 := if IsPackage(line) then Own(line) else keep;
    var out1 := if IsPackage(line) && keep then out + [""] else out;
    var tail := if !keep1 then ExtractFrom(rest, false) else [line] + ExtractFrom(rest, line != "");
    if IsPackage(line) && keep {
      Push(out, "", tail);
    } else {
      assert ExtractFrom([line] + rest, keep) == [] + tail == tail;
    }
    Push(out1, line, ExtractFrom(rest, line != ""));
  }

  method SaveStanzas(status: seq<string>) returns (out: seq<string>)
    ensures out == Stanzas(status)
  {
    out := [];
    var keep := false;
    for i := 0 to |status|
      invariant out + ExtractFrom(status[i..], keep) == Stanzas(status)
    {
      var line := status[i];
      assert status[i..] == [line] + status[i + 1..];
      ExtractTurn(out, line, status[i + 1..], keep);
      if IsPackage(line) {
        if keep {
          out := out + [""];
        }
        keep := Own(line);
      }
      if keep {
        out := out + [line];
        keep := line != "";
      }
    }
    if keep {
      out := out + [""];
    }
  }

  // So far `out`; the lines from i on are still to come.
  ghost predicate Stripping(status: seq<string>, i: nat, out: seq<string>, skip: bool)
    requires i <= |status|
  {
    out + StripFrom(status[i..], skip) == StripFrom(status, false)
  }

  predicate LastOf(out: seq<string>, last: string) { last == if out == [] then "" else out[|out| - 1] }

  lemma StripTurn(status: seq<string>, i: nat, out: seq<string>, skip: bool)
    requires i < |status| && Stripping(status, i, out, skip)
    ensures var line := status[i];
            var skip1 := if IsPackage(line) then Own(line) else skip;
            if skip1 then Stripping(status, i + 1, out, line != "") else Stripping(status, i + 1, out + [line], false)
  {
    assert status[i..][1..] == status[i + 1..];
    Push(out, status[i], StripFrom(status[i + 1..], false));
  }

  lemma StripStart(status: seq<string>)
    ensures Stripping(status, 0, [], false)
  {
    assert status[0..] == status;
  }

  lemma StripEnd(status: seq<string>, out: seq<string>, skip: bool, last: string)
    requires Stripping(status, |status|, out, skip) && LastOf(out, last)
    ensures Others(status) == out + if |status| > 0 && last != "" then [""] else []
  {
    assert status[|status|..] == [];
    assert out == StripFrom(status, false);
  }

  // One line of the awk program.
  method RestoreLine(status: seq<string>, i: nat, out: seq<string>, skip: bool, last: string)
    returns (out1: seq<string>, skip1: bool, last1: string)
    requires i < |status| && Stripping(status, i, out, skip) && LastOf(out, last)
    ensures Stripping(status, i + 1, out1, skip1) && LastOf(out1, last1)
  {
    StripTurn(status, i, out, skip);
    out1, skip1, last1 := out, skip, last;
    if IsPackage(status[i]) {
      skip1 := Own(status[i]);
    }
    if skip1 {
      skip1 := status[i] != "";
    } else {
      out1 := out1 + [status[i]];
      last1 := status[i];
    }
  }

  method RestoreStatus(status: seq<string>, stanzas: seq<string>) returns (out: seq<string>)
    ensures out == Restored(status, stanzas)
  {
    out := [];
    var skip := false;
    var last := "";
    StripStart(status);
    for i := 0 to |status|
      invariant Stripping(status, i, out, skip) && LastOf(out, last)
    {
      out, skip, last := RestoreLine(status, i, out, skip, last);
    }
    StripEnd(status, out, skip, last);
    if |status| > 0 && last != "" {
      out := out + [""];
    }
    out := out + stanzas;
  }

  /* ---- What the rewriting keeps ---- */

  // Whole stanzas of the two packages, each closed by an empty line.
  predicate Kept(lines: seq<string>, inside: bool) {
    if lines == [] then !inside
    else if !inside then Own(lines[0]) && Kept(lines[1..], true)
    else if lines[0] == "" then Kept(lines[1..], false)
    else !IsPackage(lines[0]) && Kept(lines[1..], true)
  }

  predicate Foreign(lines: seq<string>) {
    forall i :: 0 <= i < |lines| ==> !Own(lines[i])
  }

  lemma {:induction false} ExtractKeeps(lines: seq<string>, keep: bool)
    ensures Kept(ExtractFrom(lines, keep), keep)
  {
    if lines != [] {
      var line, rest := lines[0], lines[1..];
      var keep1 := if IsPackage(line) then Own(line) else keep;
      var tail := if !keep1 then ExtractFrom(rest, false) else [line] + ExtractFrom(rest, line != "");
      if keep1 {
        ExtractKeeps(rest, line != "");
        assert tail[1..] == ExtractFrom(rest, line != "");
      } else {
        ExtractKeeps(rest, false);
      }
      if IsPackage(line) && keep {
        assert ExtractFrom(lines, keep) == [""] + tail;
        assert ([""] + tail)[1..] == tail;
      } else {
        assert ExtractFrom(lines, keep) == tail;
      }
    } else if keep {
      assert [""][1..] == [];
    }
  }

  lemma {:induction false} StripIsForeign(lines: seq<string>, skip: bool)
    ensures Foreign(StripFrom(lines, skip))
  {
    if lines != [] {
      StripIsForeign(lines[1..], lines[0] != "");
      StripIsForeign(lines[1..], false);
    }
  }

  lemma {:induction false} KeptAlone(lines: seq<string>, inside: bool)
    requires Kept(lines, inside)
    ensures StripFrom(lines, inside) == []
    ensures ExtractFrom(lines, inside) == lines
  {
    if lines != [] {
      KeptAlone(lines[1..], lines[0] != "");
    }
  }

  // Foreign lines pass through, whatever follows.
  lemma {:induction false} ForeignFirst(a: seq<string>, b: seq<string>)
    requires Foreign(a)
    ensures StripFrom(a + b, false) == a + StripFrom(b, false)
    ensures ExtractFrom(a + b, false) == ExtractFrom(b, false)
    ensures forall pkg, c :: (pkg == AGENT || pkg == LUCI) && !c ==> VersionFrom(a + b, pkg, c) == VersionFrom(b, pkg, false)
  {
    if a == [] {
      assert a + b == b;
    } else {
      assert (a + b)[1..] == a[1..] + b;
      ForeignFirst(a[1..], b);
      assert !Own(a[0]);
    }
  }

  lemma SealFacts(lines: seq<string>)
    requires Foreign(lines)
    ensures Foreign(Seal(lines)) && Seal(Seal(lines)) == Seal(lines)
  {
    assert !Own("");
  }

  // For any status file and any saved stanzas: the other packages' stanzas
  // stay in order, the two packages' stanzas are exactly the saved ones and
  // their versions the saved versions, and doing it twice is doing it once.
  lemma RestoreIsExact(status: seq<string>, s: seq<string>)
    requires Kept(s, false)
    ensures var out := Restored(status, s);
            && Others(out) == Others(status)
            && Stanzas(out) == s
            && Version(out, AGENT) == Version(s, AGENT)
            && Version(out, LUCI) == Version(s, LUCI)
            && Restored(out, s) == out
  {
    KeptAlone(s, false);
    StripIsForeign(status, false);
    SealFacts(StripFrom(status, false));
    ForeignFirst(Others(status), s);
    assert Others(status) + [] == Others(status);
  }

  /* ---- The others, line by line ---- */

  // No stanza opens after j, up to i, and none ends before i.
  predicate Joined(lines: seq<string>, j: nat, i: nat)
    requires j <= i < |lines|
  {
    (forall m :: j < m <= i ==> !IsPackage(lines[m])) && forall m :: j <= m < i ==> lines[m] != ""
  }

  // Line i belongs to a stanza of one of the two packages.
  predicate InOwn(lines: seq<string>, i: nat)
    requires i < |lines|
  {
    exists j: nat :: j <= i && Own(lines[j]) && Joined(lines, j, i)
  }

  // The same, where such a stanza may already be open.
  predicate InOwnFrom(lines: seq<string>, i: nat, open: bool)
    requires i < |lines|
  {
    InOwn(lines, i) || (open && !IsPackage(lines[0]) && Joined(lines, 0, i))
  }

  function Outside(lines: seq<string>, open: bool): set<nat> { set i: nat | i < |lines| && !InOwnFrom(lines, i, open) }

  lemma JoinedOn(lines: seq<string>, j: nat, i: nat)
    requires 0 < j <= i < |lines|
    ensures Joined(lines, j, i) <==> Joined(lines[1..], j - 1, i - 1)
  {
    var rest := lines[1..];
    assert forall m :: 0 <= m < |rest| ==> rest[m] == lines[m + 1];
    if Joined(rest, j - 1, i - 1) {
      assert forall m :: j < m <= i ==> rest[m - 1] == lines[m];
      assert forall m :: j <= m < i ==> rest[m - 1] == lines[m];
    }
  }

  // The first line aside, a line's place is known from the rest and from
  // whether the first line leaves a stanza open.
  lemma InOwnOn(lines: seq<string>, i: nat, open: bool)
    requires 0 < i < |lines|
    ensures var open1 := if IsPackage(lines[0]) then Own(lines[0]) else open;
            InOwnFrom(lines, i, open) <==> InOwnFrom(lines[1..], i - 1, open1 && lines[0] != "")
  {
    var rest := lines[1..];
    forall j: nat | 0 < j <= i
      ensures Own(lines[j]) && Joined(lines, j, i) <==> Own(rest[j - 1]) && Joined(rest, j - 1, i - 1)
    {
      JoinedOn(lines, j, i);
    }
    JoinedOn(lines, 1, i);
    assert Joined(lines, 0, i) <==> lines[0] != "" && !IsPackage(lines[1]) && Joined(lines, 1, i);
    if InOwn(rest, i - 1) {
      var j: nat :| j <= i - 1 && Own(rest[j]) && Joined(rest, j, i - 1);
      assert Own(lines[j + 1]) && Joined(lines, j + 1, i);
    }
    if InOwn(lines, i) {
      var j: nat :| j <= i && Own(lines[j]) && Joined(lines, j, i);
      if j > 0 {
        assert Own(rest[j - 1]) && Joined(rest, j - 1, i - 1);
      }
    }
  }

  lemma {:induction false} StripPicks(lines: seq<string>, open: bool) returns (at: seq<nat>)
    ensures Picks(at, Outside(lines, open)) && Taken(lines, at, StripFrom(lines, open))
  {
    if lines == [] {
      at := [];
    } else {
      var line, rest := lines[0], lines[1..];
      var open1 := if IsPackage(line) then Own(line) else open;
      assert InOwnFrom(lines, 0, open) <==> open1;
      forall i: nat | 0 < i < |lines|
        ensures InOwnFrom(lines, i, open) <==> InOwnFrom(rest, i - 1, open1 && line != "")
      {
        InOwnOn(lines, i, open);
      }
      var tail := StripPicks(rest, open1 && line != "");
      PicksFirst(tail, Outside(rest, open1 && line != ""), !open1, Outside(lines, open));
      TakenFirst(line, rest, tail, StripFrom(rest, open1 && line != ""), !open1);
      assert [line] + rest == lines;
      at := Further(tail, !open1);
    }
  }

  // For any status file: what is restored is every line outside the two
  // packages' stanzas, in its order, an empty line where the last of them does
  // not end a stanza, and the saved stanzas.
  lemma RestoreKeepsTheOthers(status: seq<string>, s: seq<string>) returns (at: seq<nat>)
    ensures forall i :: i in at <==> 0 <= i < |status| && !InOwn(status, i)
    ensures forall i, j :: 0 <= i < j < |at| ==> at[i] < at[j]
    ensures var out := Restored(status, s);
            && |at| <= |out| && Taken(status, at, out[..|at|])
            && out[|at|..] == (if at != [] && status[at[|at| - 1]] != "" then [""] else []) + s
  {
    at := StripPicks(status, false);
    var kept := StripFrom(status, false);
    var closing := if at != [] && status[at[|at| - 1]] != "" then [""] else [];
    assert Others(status) == kept + closing;
    assert Restored(status, s) == kept + (closing + s);
  }

  // What is saved is whole stanzas, and saving them again changes nothing.
  lemma SavedStanzasAreKept(status: seq<string>)
    ensures Kept(Stanzas(status), false)
    ensures Stanzas(Stanzas(status)) == Stanzas(status) && Others(Stanzas(status)) == []
  {
    ExtractKeeps(status, false);
    KeptAlone(Stanzas(status), false);
  }

  // What an update changes in the two stanzas leaves no trace: the file has
  // the other stanzas and the saved ones it had before.
  lemma RestoreUndoesAnUpdate(before: seq<string>, after: seq<string>)
    requires Others(after) == Others(before)
    ensures var out := Restored(after, Stanzas(before));
            && out == Restored(before, Stanzas(before))
            && Others(out) == Others(before)
            && Stanzas(out) == Stanzas(before)
  {
    SavedStanzasAreKept(before);
    RestoreIsExact(after, Stanzas(before));
  }

  // A stanza ends at its empty line.
  predicate Orderly(lines: seq<string>) {
    forall i, j :: 0 <= i < |lines| && 0 <= j < |lines| && j == i + 1 && lines[i] == "" ==> lines[j] == "" || IsPackage(lines[j])
  }

  predicate AtBoundary(lines: seq<string>) { lines == [] || lines[0] == "" || IsPackage(lines[0]) }

  lemma ClosingSaysNothing(tail: seq<string>, pkg: string, c: bool)
    ensures VersionFrom([""] + tail, pkg, c) == VersionFrom(tail, pkg, c)
  {
    assert ([""] + tail)[1..] == tail;
  }

  lemma {:induction false} ExtractKeepsVersion(lines: seq<string>, pkg: string, keep: bool, current: bool, c: bool)
    requires Orderly(lines) && (pkg == AGENT || pkg == LUCI)
    requires if keep then c == current else current ==> AtBoundary(lines)
    ensures VersionFrom(ExtractFrom(lines, keep), pkg, c) == VersionFrom(lines, pkg, current)
  {
    if lines == [] {
      ClosingSaysNothing([], pkg, c);
      assert [""] + [] == [""];
    } else {
      var line, rest := lines[0], lines[1..];
      assert line == "" ==> AtBoundary(rest) by {
        if rest != [] { assert lines[1] == rest[0]; }
      }
      var keep1 := if IsPackage(line) then Own(line) else keep;
      var tail := if !keep1 then ExtractFrom(rest, false) else [line] + ExtractFrom(rest, line != "");
      assert VersionFrom(tail, pkg, c) == VersionFrom(lines, pkg, current) by {
        if keep1 {
          var now := if IsPackage(line) then Names(line, pkg) else current;
          assert tail[1..] == ExtractFrom(rest, line != "");
          ExtractKeepsVersion(rest, pkg, line != "", now, now);
        } else {
          ExtractKeepsVersion(rest, pkg, false, line == "" && current, c);
        }
      }
      if IsPackage(line) && keep {
        assert ExtractFrom(lines, keep) == [""] + tail;
        ClosingSaysNothing(tail, pkg, c);
      } else {
        assert ExtractFrom(lines, keep) == [] + tail == tail;
      }
    }
  }

  // In an orderly status file the saved stanzas record the same versions.
  lemma StanzasKeepVersions(status: seq<string>)
    requires Orderly(status)
    ensures Version(Stanzas(status), AGENT) == Version(status, AGENT)
    ensures Version(Stanzas(status), LUCI) == Version(status, LUCI)
  {
    ExtractKeepsVersion(status, AGENT, false, false, false);
    ExtractKeepsVersion(status, LUCI, false, false, false);
  }

  lemma {:induction false} StripKeepsVersion(lines: seq<string>, pkg: string, open: bool, current: bool, c: bool)
    requires Orderly(lines) && pkg != AGENT && pkg != LUCI
    requires if open then !current else c == current || AtBoundary(lines)
    ensures VersionFrom(StripFrom(lines, open), pkg, c) == VersionFrom(lines, pkg, current)
  {
    if lines != [] {
      var line, rest := lines[0], lines[1..];
      assert line == "" ==> AtBoundary(rest) by {
        if rest != [] { assert lines[1] == rest[0]; }
      }
      var open1 := if IsPackage(line) then Own(line) else open;
      var now := if IsPackage(line) then Names(line, pkg) else current;
      if open1 {
        StripKeepsVersion(rest, pkg, line != "", now, c);
      } else {
        var c1 := if IsPackage(line) then now else c;
        StripKeepsVersion(rest, pkg, false, now, c1);
        assert ([line] + StripFrom(rest, false))[1..] == StripFrom(rest, false);
      }
    }
  }

  lemma {:induction false} KeptIsQuiet(s: seq<string>, pkg: string, inside: bool, current: bool)
    requires Kept(s, inside) && pkg != AGENT && pkg != LUCI && (inside ==> !current)
    ensures VersionFrom(s, pkg, current) == None
  {
    if s != [] {
      assert IsPackage(s[0]) ==> !Names(s[0], pkg);
      KeptIsQuiet(s[1..], pkg, s[0] != "", false);
    }
  }

  lemma {:induction false} QuietTail(a: seq<string>, t: seq<string>, pkg: string, current: bool)
    requires VersionFrom(t, pkg, true) == None && VersionFrom(t, pkg, false) == None
    ensures VersionFrom(a + t, pkg, current) == VersionFrom(a, pkg, current)
  {
    if a == [] {
      assert a + t == t;
    } else {
      assert (a + t)[1..] == a[1..] + t;
      QuietTail(a[1..], t, pkg, if IsPackage(a[0]) then Names(a[0], pkg) else current);
    }
  }

  // In an orderly status file the restored one records every other package's
  // version as it was.
  lemma OtherVersionsStay(status: seq<string>, s: seq<string>, pkg: string)
    requires Orderly(status) && Kept(s, false) && pkg != AGENT && pkg != LUCI
    ensures Version(Restored(status, s), pkg) == Version(status, pkg)
  {
    var kept := StripFrom(status, false);
    StripKeepsVersion(status, pkg, false, false, false);
    KeptIsQuiet(s, pkg, false, true);
    KeptIsQuiet(s, pkg, false, false);
    QuietTail(Others(status), s, pkg, false);
    QuietTail(kept, [""], pkg, false);
  }

  /* ---- The crontab block ---- */

  const CRON_BEGIN := "# >>> vectra-update-guard (managed) >>>"
  const CRON_END := "# <<< vectra-update-guard (managed) <<<"

  // The job: a tick of the guard script `self` every minute.
  function CronJob(self: string): string { ['*'] + " * * * * sh " + self + " tick >/dev/null 2>&1" }

  function CronStrip(lines: seq<string>, skip: bool): seq<string> {
    if lines == [] then []
    else if lines[0] == CRON_BEGIN then CronStrip(lines[1..], true)
    else if lines[0] == CRON_END then CronStrip(lines[1..], false)
    else (if skip then [] else [lines[0]]) + CronStrip(lines[1..], skip)
  }

  function CronBlock(self: string): seq<string> { [CRON_BEGIN, CronJob(self), CRON_END] }

  function CronWritten(lines: seq<string>, self: string, install: bool): seq<string> {
    CronStrip(lines, false) + if install then CronBlock(self) else []
  }

  method CronWrite(lines: seq<string>, self: string, install: bool) returns (out: seq<string>)
    ensures out == CronWritten(lines, self, install)
    ensures install ==> |out| >= 3 && out[|out| - 3] == "# >>> vectra-update-guard (managed) >>>"
                        && out[|out| - 2] == ['*'] + " * * * * sh " + self + " tick >/dev/null 2>&1"
                        && out[|out| - 1] == "# <<< vectra-update-guard (managed) <<<"
  {
    out := [];
    var skip := false;
    for i := 0 to |lines|
      invariant out + CronStrip(lines[i..], skip) == CronStrip(lines, false)
    {
      assert lines[i..][1..] == lines[i + 1..];
      if lines[i] == CRON_BEGIN {
        skip := true;
      } else if lines[i] == CRON_END {
        skip := false;
      } else if !skip {
        out := out + [lines[i]];
      }
    }
    if install {
      out := out + [CRON_BEGIN, CronJob(self), CRON_END];
    }
  }

  predicate Unmarked(lines: seq<string>) { CRON_BEGIN !in lines && CRON_END !in lines }

  lemma MarkersDiffer(self: string)
    ensures CronJob(self) != CRON_BEGIN && CronJob(self) != CRON_END && CRON_BEGIN != CRON_END
  {
    assert CronJob(self)[0] == '*';
    assert CRON_BEGIN[0] == '#';
    assert CRON_END[0] == '#';
    assert CRON_BEGIN[2] == '>';
    assert CRON_END[2] == '<';
  }

  lemma {:induction false} CronStripUnmarked(lines: seq<string>, skip: bool)
    ensures Unmarked(CronStrip(lines, skip))
  {
    if lines != [] {
      CronStripUnmarked(lines[1..], true);
      CronStripUnmarked(lines[1..], false);
    }
  }

  lemma {:induction false} CronStripAcross(a: seq<string>, b: seq<string>, skip: bool)
    requires Unmarked(a)
    ensures CronStrip(a + b, skip) == (if skip then [] else a) + CronStrip(b, skip)
  {
    if a == [] {
      assert a + b == b;
    } else {
      assert (a + b)[1..] == a[1..] + b;
      CronStripAcross(a[1..], b, skip);
    }
  }

  lemma BlockIsSkipped(self: string, skip: bool)
    ensures CronStrip(CronBlock(self), skip) == []
  {
    MarkersDiffer(self);
    var job := CronJob(self);
    assert CronBlock(self)[1..] == [job, CRON_END];
    assert [job, CRON_END][1..] == [CRON_END];
    assert [CRON_END][1..] == [];
    assert CronStrip([CRON_END], true) == [];
    assert CronStrip([job, CRON_END], true) == [];
  }

  // Installing is idempotent and removing undoes it, for every crontab; a
  // crontab comes back as it was exactly when it held no marker.
  lemma CronInstallRoundTrip(lines: seq<string>, self: string)
    ensures var installed := CronWritten(lines, self, true);
            && CronWritten(installed, self, true) == installed
            && CronWritten(installed, self, false) == CronWritten(lines, self, false)
            && (CronWritten(installed, self, false) == lines <==> Unmarked(lines))
  {
    CronStripUnmarked(lines, false);
    CronStripAcross(CronStrip(lines, false), CronBlock(self), false);
    BlockIsSkipped(self, false);
    assert CronStrip(lines, false) + [] == CronStrip(lines, false);
    if Unmarked(lines) {
      CronStripAcross(lines, [], false);
      assert lines + [] == lines;
    }
  }

  lemma CronStripOpen(rest: seq<string>, skip: bool)
    ensures CronStrip([CRON_BEGIN] + rest, skip) == CronStrip(rest, true)
  {
    assert ([CRON_BEGIN] + rest)[1..] == rest;
  }

  lemma CronStripNone(lines: seq<string>, skip: bool)
    requires Unmarked(lines)
    ensures CronStrip(lines, skip) == if skip then [] else lines
  {
    CronStripAcross(lines, [], skip);
    assert lines + [] == lines;
  }

  // The last marker before line i begins a block.
  predicate InBlock(lines: seq<string>, i: nat)
    requires i <= |lines|
  {
    exists j: nat :: j < i && lines[j] == CRON_BEGIN && CRON_END !in lines[j..i]
  }

  predicate Marker(line: string) { line == CRON_BEGIN || line == CRON_END }

  function OutsideBlocks(lines: seq<string>, skip: bool): set<nat> {
    set i: nat | i < |lines| && !Marker(lines[i]) && !InBlock(lines, i) && !(skip && CRON_END !in lines[..i])
  }

  lemma InBlockOn(lines: seq<string>, i: nat, skip: bool)
    requires 0 < i <= |lines|
    ensures var skip1 := if Marker(lines[0]) then lines[0] == CRON_BEGIN else skip;
            InBlock(lines, i) || (skip && CRON_END !in lines[..i])
            <==> InBlock(lines[1..], i - 1) || (skip1 && CRON_END !in lines[1..][..i - 1])
  {
    MarkersDiffer("");
    var rest := lines[1..];
    assert lines[..i] == [lines[0]] + rest[..i - 1];
    assert lines[0..i] == lines[..i];
    assert forall j: nat :: 0 < j < i ==> lines[j..i] == rest[j - 1..i - 1];
    if InBlock(rest, i - 1) {
      var j: nat :| j < i - 1 && rest[j] == CRON_BEGIN && CRON_END !in rest[j..i - 1];
      assert lines[j + 1] == CRON_BEGIN && lines[j + 1..i] == rest[j..i - 1];
    }
    if InBlock(lines, i) {
      var j: nat :| j < i && lines[j] == CRON_BEGIN && CRON_END !in lines[j..i];
      if j > 0 {
        assert rest[j - 1] == CRON_BEGIN && CRON_END !in rest[j - 1..i - 1];
      }
    }
  }

  lemma OutsideBlocksOn(lines: seq<string>, skip: bool)
    requires lines != []
    ensures var skip1 := if Marker(lines[0]) then lines[0] == CRON_BEGIN else skip;
            forall i: nat :: i in OutsideBlocks(lines, skip) <==>
              if i == 0 then !Marker(lines[0]) && !skip else i - 1 in OutsideBlocks(lines[1..], skip1)
  {
    forall i: nat | 0 < i < |lines|
      ensures var skip1 := if Marker(lines[0]) then lines[0] == CRON_BEGIN else skip;
              i in OutsideBlocks(lines, skip) <==> i - 1 in OutsideBlocks(lines[1..], skip1)
    {
      InBlockOn(lines, i, skip);
    }
  }

  lemma {:induction false} CronPicks(lines: seq<string>, skip: bool) returns (at: seq<nat>)
    ensures Picks(at, OutsideBlocks(lines, skip)) && Taken(lines, at, CronStrip(lines, skip))
  {
    if lines == [] {
      at := [];
    } else {
      MarkersDiffer("");
      var line, rest := lines[0], lines[1..];
      var skip1 := if Marker(line) then line == CRON_BEGIN else skip;
      OutsideBlocksOn(lines, skip);
      var tail := CronPicks(rest, skip1);
      var first := !Marker(line) && !skip;
      PicksFirst(tail, OutsideBlocks(rest, skip1), first, OutsideBlocks(lines, skip));
      TakenFirst(line, rest, tail, CronStrip(rest, skip1), first);
      assert [line] + rest == lines;
      at := Further(tail, first);
    }
  }

  // For any crontab, with any number of blocks: exactly the lines that are no
  // marker and in no block stay, in their order.
  lemma CronKeepsOutside(lines: seq<string>) returns (at: seq<nat>)
    ensures forall i :: i in at <==> 0 <= i < |lines| && !Marker(lines[i]) && !InBlock(lines, i)
    ensures forall i, j :: 0 <= i < j < |at| ==> at[i] < at[j]
    ensures Taken(lines, at, CronStrip(lines, false))
  {
    at := CronPicks(lines, false);
  }

  // A block whose end marker is missing takes the rest of the file with it.
  lemma UnclosedBlockSwallowsTheRest(a: seq<string>, rest: seq<string>)
    requires Unmarked(a) && Unmarked(rest)
    ensures CronStrip(a + ([CRON_BEGIN] + rest), false) == a
  {
    CronStripAcross(a, [CRON_BEGIN] + rest, false);
    CronStripOpen(rest, false);
    CronStripNone(rest, true);
  }
}
