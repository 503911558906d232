/** Three readers of a feed's Packages index: the agent's scanner, the rollout
    script's block reader, and the awk the router checks a signed index with.
    An index is its sequence of lines. */
module PackagesIndex {
  import opened Trimming
  import opened Wrappers

  datatype Entry = Entry(package: string, version: string, filename: string, sha: string)

  const BLANK := Entry("", "", "", "")

  predicate Space(c: char) {
    c == ' ' || '\t' <= c <= '\r' || c == '\U{85}' || c == '\U{A0}' || c == '\U{1680}' || '\U{2000}' <= c <= '\U{200A}'
    || c == '\U{2028}' || c == '\U{2029}' || c == '\U{202F}' || c == '\U{205F}' || c == '\U{3000}'
  }

  function Trim(s: string): string { TrimBy(s, c => Space(c)) }

  // A value that has no space around it.
  predicate Bare(s: string) { Tight(s, c => Space(c)) }

  function WithField(e: Entry, key: string, value: string): Entry {
    if key == "Package" then e.(package := value)
    else if key == "Version" then e.(version := value)
    else if key == "Filename" then e.(filename := value)
    else if key == "SHA256sum" then e.(sha := value)
    else e
  }

  /* ---- The agent's scanner ---- */

  // Where a separator first occurs.
  function Index(s: string, sep: string): Option<nat> {
    if |sep| <= |s| && s[..|sep|] == sep then Some(0)
    else if s == "" then None
    else match Index(s[1..], sep)
      case None => None
      case Some(i) => Some(i + 1)
  }

  lemma {:induction false} IndexFits(s: string, sep: string)
    ensures Index(s, sep).Some? ==> Index(s, sep).value + |sep| <= |s|
  {
    if !(|sep| <= |s| && s[..|sep|] == sep) && s != "" {
      IndexFits(s[1..], sep);
    }
  }

  function CutAt(line: string, sep: string): Option<(string, string)> {
    IndexFits(line, sep);
    match Index(line, sep)
    case None => None
    case Some(i) => Some((line[..i], line[i + |sep|..]))
  }

  // The agent cuts it at its first colon.
  function ReadLine(e: Entry, line: string): Entry {
    match CutAt(line, ":")
    case None => e
    case Some((key, value)) => WithField(e, Trim(key), Trim(value))
  }

  function Scan(lines: seq<string>, current: Entry): seq<Entry> {
    if lines == [] then (if current.package != "" then [current] else [])
    else
      var line := Trim(lines[0]);
      if line != "" then Scan(lines[1..], ReadLine(current, line))
      else if current.package != "" then [current] + Scan(lines[1..], BLANK)
      else Scan(lines[1..], current)
  }

  // So far `entries`; the lines from i on are still to come.
  ghost predicate Scanning(lines: seq<string>, i: nat, entries: seq<Entry>, current: Entry)
    requires i <= |lines|
  {
    entries + Scan(lines[i..], current) == Scan(lines, BLANK)
  }

  lemma ScanTurn(lines: seq<string>, i: nat, entries: seq<Entry>, current: Entry)
    requires i < |lines| && Scanning(lines, i, entries, current)
    ensures var line := Trim(lines[i]);
            if line != "" then Scanning(lines, i + 1, entries, ReadLine(current, line))
            else if current.package != "" then Scanning(lines, i + 1, entries + [current], BLANK)
            else Scanning(lines, i + 1, entries, current)
  {
    assert lines[i..][1..] == lines[i + 1..];
    assert (entries + [current]) + Scan(lines[i + 1..], BLANK) == entries + ([current] + Scan(lines[i + 1..], BLANK));
  }

  lemma ScanEnd(lines: seq<string>, entries: seq<Entry>, current: Entry)
    requires Scanning(lines, |lines|, entries, current)
    ensures Scan(lines, BLANK) == if current.package != "" then entries + [current] else entries
  {
    assert lines[|lines|..] == [];
    assert entries + [] == entries;
  }

  // The scanner gives up on a line that does not fit its buffer, by its length in UTF-8.
  const BUFFER := 65536

  function Bytes(s: string): nat {
    if s == "" then 0
    else (if s[0] < '\U{80}' then 1 else if s[0] < '\U{800}' then 2 else if s[0] < '\U{10000}' then 3 else 4) + Bytes(s[1..])
  }

  predicate Fits(line: string) { Bytes(line) < BUFFER }

  function Parsed(lines: seq<string>): Option<seq<Entry>> {
    if forall i :: 0 <= i < |lines| ==> Fits(lines[i]) then Some(Scan(lines, BLANK)) else None
  }

  method ParsePackagesIndex(lines: seq<string>) returns (r: Option<seq<Entry>>)
    ensures r == Parsed(lines)
  {
    var entries: seq<Entry> := [];
    var current := BLANK;
    assert lines[0..] == lines;
    for i := 0 to |lines|
      invariant Scanning(lines, i, entries, current)
      invariant forall k :: 0 <= k < i ==> Fits(lines[k])
    {
      if !Fits(lines[i]) {
        return None;
      }
      ScanTurn(lines, i, entries, current);
      var line := Trim(lines[i]);
      if line == "" {
        if current.package != "" {
          entries := entries + [current];
          current := BLANK;
        }
      } else {
        current := ReadLine(current, line);
      }
    }
    ScanEnd(lines, entries, current);
    if current.package != "" {
      entries := entries + [current];
    }
    r := Some(entries);
  }

  /* ---- Printing, and reading back ---- */

  // A record: its four fields and whatever else the feed says of the package.
  datatype Record = Record(entry: Entry, others: seq<string>)

  function FieldLine(key: string, value: string): string { key + ": " + value }

  function Print(r: Record): seq<string> {
    [FieldLine("Package", r.entry.package), FieldLine("Version", r.entry.version),
     FieldLine("Filename", r.entry.filename), FieldLine("SHA256sum", r.entry.sha)] + r.others + [""]
  }

  function PrintAll(records: seq<Record>): seq<string> {
    if records == [] then [] else Print(records[0]) + PrintAll(records[1..])
  }

  // Another line of a record: not blank, and none of the four fields.
  ghost predicate Harmless(line: string) {
    Trim(line) != "" && forall e :: ReadLine(e, Trim(line)) == e
  }

  ghost predicate WellFormed(r: Record) {
    && Bare(r.entry.package) && Bare(r.entry.version) && Bare(r.entry.filename) && Bare(r.entry.sha)
    && forall i :: 0 <= i < |r.others| ==> Harmless(r.others[i])
  }

  predicate Key(key: string) { Bare(key) && ':' !in key }

  lemma {:induction false} IndexOfColon(key: string, rest: string)
    requires ':' !in key
    ensures Index(key + (":" + rest), ":") == Some(|key|)
  {
    var s := key + (":" + rest);
    if key == "" {
      assert s == ":" + rest && s[..1] == ":";
    } else {
      assert s[1..] == key[1..] + (":" + rest);
      assert s[..1][0] == key[0];
      IndexOfColon(key[1..], rest);
    }
  }

  lemma FieldReads(e: Entry, key: string, value: string)
    requires Key(key) && Bare(value)
    ensures var line := FieldLine(key, value);
            Trim(line) == line && line != "" && ReadLine(e, line) == WithField(e, key, value)
  {
    var line := FieldLine(key, value);
    assert line[0] == key[0] && line[|line| - 1] == value[|value| - 1];
    TightStays(line, c => Space(c));
    assert line == key + (":" + (" " + value));
    IndexOfColon(key, " " + value);
    assert line[..|key|] == key && line[|key| + 1..] == " " + value;
    TightStays(key, c => Space(c));
    TightStays(value, c => Space(c));
    assert (" " + value)[1..] == value;
    assert Trim(" " + value) == value;
  }

  lemma {:induction false} OthersPass(others: seq<string>, rest: seq<string>, e: Entry)
    requires forall i :: 0 <= i < |others| ==> Harmless(others[i])
    ensures Scan(others + rest, e) == Scan(rest, e)
  {
    if others == [] {
      assert others + rest == rest;
    } else {
      assert Harmless(others[0]);
      assert (others + rest)[1..] == others[1..] + rest;
      OthersPass(others[1..], rest, e);
    }
  }

  lemma ScanLine(line: string, rest: seq<string>, e: Entry)
    requires Trim(line) == line && line != ""
    ensures Scan([line] + rest, e) == Scan(rest, ReadLine(e, line))
  {
    assert ([line] + rest)[1..] == rest;
  }

  lemma KeysAreKeys()
    ensures Key("Package") && Key("Version") && Key("Filename") && Key("SHA256sum")
  {
  }

  lemma RecordReads(r: Record, rest: seq<string>)
    requires WellFormed(r)
    ensures Scan(Print(r) + rest, BLANK) == [r.entry] + Scan(rest, BLANK)
  {
    KeysAreKeys();
    var l1, l2 := FieldLine("Package", r.entry.package), FieldLine("Version", r.entry.version);
    var l3, l4 := FieldLine("Filename", r.entry.filename), FieldLine("SHA256sum", r.entry.sha);
    var e1 := WithField(BLANK, "Package", r.entry.package);
    var e2 := WithField(e1, "Version", r.entry.version);
    var e3 := WithField(e2, "Filename", r.entry.filename);
    var end := [""] + rest;
    var tail := r.others + end;
    assert Print(r) + rest == [l1] + ([l2] + ([l3] + ([l4] + tail)));
    FieldReads(BLANK, "Package", r.entry.package);
    FieldReads(e1, "Version", r.entry.version);
    FieldReads(e2, "Filename", r.entry.filename);
    FieldReads(e3, "SHA256sum", r.entry.sha);
    ScanLine(l1, [l2] + ([l3] + ([l4] + tail)), BLANK);
    ScanLine(l2, [l3] + ([l4] + tail), e1);
    ScanLine(l3, [l4] + tail, e2);
    ScanLine(l4, tail, e3);
    OthersPass(r.others, end, r.entry);
    assert end[1..] == rest;
  }

  function EntriesOf(records: seq<Record>): seq<Entry> {
    if records == [] then [] else [records[0].entry] + EntriesOf(records[1..])
  }

  predicate Short(r: Record) { forall i :: 0 <= i < |Print(r)| ==> Fits(Print(r)[i]) }

  lemma {:induction false} AllShort(records: seq<Record>)
    ensures (forall i :: 0 <= i < |PrintAll(records)| ==> Fits(PrintAll(records)[i])) <==>
            forall i :: 0 <= i < |records| ==> Short(records[i])
  {
    if records != [] {
      var head, tail := Print(records[0]), PrintAll(records[1..]);
      AllShort(records[1..]);
      assert forall i :: 0 <= i < |head| ==> PrintAll(records)[i] == head[i];
      assert forall i :: 0 <= i < |tail| ==> PrintAll(records)[|head| + i] == tail[i];
      assert forall i :: 0 <= i < |records| ==> records[i] == if i == 0 then records[0] else records[1..][i - 1];
      assert forall i :: 0 <= i < |records[1..]| ==> records[1..][i] == records[i + 1];
    }
  }

  // So a printed index parses to its records exactly if no line is too long for
  // the scanner, and else not at all.
  lemma PrintThenParse(records: seq<Record>)
    requires forall i :: 0 <= i < |records| ==> WellFormed(records[i])
    ensures Parsed(PrintAll(records)) ==
            if forall i :: 0 <= i < |records| ==> Short(records[i]) then Some(EntriesOf(records)) else None
  {
    PrintThenScan(records);
    AllShort(records);
  }

  // Printing well-formed records and scanning gives the same records back.
  lemma {:induction false} PrintThenScan(records: seq<Record>)
    requires forall i :: 0 <= i < |records| ==> WellFormed(records[i])
    ensures Scan(PrintAll(records), BLANK) == EntriesOf(records)
  {
    if records != [] {
      RecordReads(records[0], PrintAll(records[1..]));
      PrintThenScan(records[1..]);
    }
  }

  // A stanza without a name is not forgotten: what it says goes to the next one.
  lemma NamelessStanzaLeaks(name: string, version: string)
    requires Bare(name) && Bare(version)
    ensures Scan([FieldLine("Version", version), "", FieldLine("Package", name)], BLANK) == [Entry(name, version, "", "")]
  {
    KeysAreKeys();
    var l1, l2 := FieldLine("Version", version), FieldLine("Package", name);
    var e := WithField(BLANK, "Version", version);
    FieldReads(BLANK, "Version", version);
    FieldReads(e, "Package", name);
    ScanLine(l1, ["", l2], BLANK);
    assert [l1, "", l2] == [l1] + ["", l2];
    assert ["", l2][1..] == [l2];
    ScanLine(l2, [], e);
    assert [l2] + [] == [l2];
  }

  /* ---- Choosing a package ---- */

  predicate Eligible(e: Entry, version: string) {
    e.package != "" && e.filename != "" && (version == "" || e.version == version)
  }

  function FirstOf(entries: seq<Entry>, name: string, version: string): Option<Entry> {
    if entries == [] then None
    else if Eligible(entries[0], version) && entries[0].package == name then Some(entries[0])
    else FirstOf(entries[1..], name, version)
  }

  predicate Fit(e: Entry, name: string, version: string) {
    e.package == name && name != "" && e.filename != "" && (version == "" || e.version == version)
  }

  predicate FirstFit(entries: seq<Entry>, name: string, version: string, i: nat)
    requires i < |entries|
  {
    Fit(entries[i], name, version) && forall k :: 0 <= k < i ==> !Fit(entries[k], name, version)
  }

  // A package is the first entry of its name that has a file, and the version
  // asked for, if one was; without such an entry it is not found.
  lemma {:induction false} FirstOfExactly(entries: seq<Entry>, name: string, version: string)
    ensures FirstOf(entries, name, version).None? <==> forall i :: 0 <= i < |entries| ==> !Fit(entries[i], name, version)
    ensures forall i :: 0 <= i < |entries| && FirstFit(entries, name, version, i) ==> FirstOf(entries, name, version) == Some(entries[i])
  {
    if entries != [] {
      FirstOfExactly(entries[1..], name, version);
      assert forall i :: 0 < i < |entries| ==> entries[i] == entries[1..][i - 1];
      assert forall i :: 0 <= i < |entries[1..]| ==> entries[1..][i] == entries[i + 1];
      forall i | 0 < i < |entries| && FirstFit(entries, name, version, i)
        ensures FirstFit(entries[1..], name, version, i - 1)
      {
        assert forall k :: 0 <= k < i - 1 ==> entries[1..][k] == entries[k + 1];
      }
      assert FirstFit(entries, name, version, 0) <==> Fit(entries[0], name, version);
    }
  }

  // Only the first entry of a name is kept.
  method ByName(entries: seq<Entry>, version: string) returns (chosen: map<string, Entry>)
    ensures forall name :: FirstOf(entries, name, version) == if name in chosen then Some(chosen[name]) else None
  {
    chosen := map[];
    for i := 0 to |entries|
      invariant forall name :: FirstOf(entries, name, version) ==
                  if name in chosen then Some(chosen[name]) else FirstOf(entries[i..], name, version)
    {
      var e := entries[i];
      assert entries[i..][1..] == entries[i + 1..];
      if Eligible(e, version) && e.package !in chosen {
        chosen := chosen[e.package := e];
      }
    }
  }

  /* ---- The rollout script and the router's awk ---- */

  // The script cuts a line at its first ": ".
  function BlockLine(e: Entry, line: string): Entry {
    match CutAt(line, ": ")
    case None => e
    case Some((key, value)) => WithField(e, key, value)
  }

  // Where the script ends a line; awk does so at a newline only.
  predicate Ends(c: char) {
    '\n' <= c <= '\r' || '\U{1C}' <= c <= '\U{1E}' || c == '\U{85}' || c == '\U{2028}' || c == '\U{2029}'
  }

  function Sublines(s: string, cur: string): seq<string> {
    if s == "" then [cur]
    else if Ends(s[0]) then [cur] + Sublines(s[1..], "")
    else Sublines(s[1..], cur + [s[0]])
  }

  function BlockLines(e: Entry, lines: seq<string>): Entry
    decreases |lines|
  {
    if lines == [] then e else BlockLines(BlockLine(e, lines[0]), lines[1..])
  }

  lemma BlockLinesStep(e: Entry, line: string, rest: seq<string>)
    ensures BlockLines(e, [line] + rest) == BlockLines(BlockLine(e, line), rest)
  {
    assert ([line] + rest)[1..] == rest;
  }

  function ScriptLine(e: Entry, line: string): Entry { BlockLines(e, Sublines(line, "")) }

  predicate Whole(line: string) { forall i :: 0 <= i < |line| ==> !Ends(line[i]) }

  lemma {:induction false} WholeStays(s: string, cur: string)
    requires Whole(s)
    ensures Sublines(s, cur) == [cur + s]
  {
    if s == "" {
      assert cur + s == cur;
    } else {
      WholeStays(s[1..], cur + [s[0]]);
      assert cur + [s[0]] + s[1..] == cur + s;
    }
  }

  lemma WholeLineReads(e: Entry, line: string)
    requires Whole(line)
    ensures ScriptLine(e, line) == BlockLine(e, line)
  {
    WholeStays(line, "");
    assert "" + line == line;
    BlockLinesStep(e, line, []);
    assert [line] + [] == [line];
  }

  function AwkField(line: string, key: string): Option<string> {
    var prefix := key + ": ";
    if |prefix| <= |line| && line[..|prefix|] == prefix then Some(line[|prefix|..]) else None
  }

  // awk matches each key at the start of the line.
  function AwkLine(e: Entry, line: string): Entry {
    var p, v := AwkField(line, "Package"), AwkField(line, "Version");
    var f, s := AwkField(line, "Filename"), AwkField(line, "SHA256sum");
    Entry(if p.Some? then p.value else e.package, if v.Some? then v.value else e.version,
          if f.Some? then f.value else e.filename, if s.Some? then s.value else e.sha)
  }

  lemma HeadDiffers(s: string, p: string)
    requires p != "" && (s == "" || s[0] != p[0])
    ensures !(|p| <= |s| && s[..|p|] == p)
  {
    if |p| <= |s| {
      assert s[..|p|][0] == s[0];
    }
  }

  lemma {:induction false} IndexMeans(s: string, key: string)
    requires ':' !in key
    ensures AwkField(s, key).Some? <==> Index(s, ": ") == Some(|key|) && |key| <= |s| && s[..|key|] == key
    decreases |key|
  {
    IndexFits(s, ": ");
    var prefix := key + ": ";
    if key == "" {
      assert prefix == ": ";
    } else if s != "" && s[0] == key[0] {
      assert prefix[1..] == key[1..] + ": ";
      IndexMeans(s[1..], key[1..]);
      PrefixStep(s, prefix);
      PrefixStep(s, key);
      HeadDiffers(s, ": ");
    } else {
      HeadDiffers(s, key);
      HeadDiffers(s, prefix);
    }
  }

  lemma AwkFieldIs(line: string, key: string)
    requires ':' !in key
    ensures AwkField(line, key) ==
            match CutAt(line, ": ") { case None => None case Some((k, v)) => if k == key then Some(v) else None }
  {
    IndexFits(line, ": ");
    IndexMeans(line, key);
  }

  lemma PrefixStep(s: string, p: string)
    requires s != "" && p != "" && s[0] == p[0]
    ensures |p| <= |s| && s[..|p|] == p <==> |p[1..]| <= |s[1..]| && s[1..][..|p[1..]|] == p[1..]
  {
    if |p| <= |s| {
      assert s[..|p|][1..] == s[1..][..|p| - 1];
      assert s[..|p|] == [s[0]] + s[..|p|][1..];
      assert p == [p[0]] + p[1..];
    }
  }

  lemma KeysApart()
    ensures "Package" != "Version" && "Package" != "Filename" && "Package" != "SHA256sum"
    ensures "Version" != "Filename" && "Version" != "SHA256sum" && "Filename" != "SHA256sum"
  {
    assert "Package"[0] == 'P' && "Version"[0] == 'V' && "Filename"[0] == 'F' && "SHA256sum"[0] == 'S';
  }

  // Line by line the two readers agree.
  lemma LinesAgree(e: Entry, line: string)
    ensures BlockLine(e, line) == AwkLine(e, line)
  {
    AwkFieldIs(line, "Package");
    AwkFieldIs(line, "Version");
    AwkFieldIs(line, "Filename");
    AwkFieldIs(line, "SHA256sum");
    KeysApart();
  }

  // The script keeps the last block of the package and version.
  function LastBlock(lines: seq<string>, current: Entry, found: Option<Entry>, package: string, version: string): Option<Entry> {
    var now := if current.package == package && current.version == version then Some(current) else found;
    if lines == [] then now
    else if lines[0] == "" then LastBlock(lines[1..], BLANK, now, package, version)
    else LastBlock(lines[1..], ScriptLine(current, lines[0]), found, package, version)
  }

  // awk accepts when some block has all four fields.
  function Signed(lines: seq<string>, current: Entry, want: Entry): bool {
    if lines == [] then current == want
    else if lines[0] == "" then current == want || Signed(lines[1..], BLANK, want)
    else Signed(lines[1..], AwkLine(current, lines[0]), want)
  }

  method PackageEntry(lines: seq<string>, package: string, version: string) returns (found: Option<Entry>)
    ensures found == LastBlock(lines, BLANK, None, package, version)
  {
    found := None;
    var current := BLANK;
    for i := 0 to |lines|
      invariant LastBlock(lines[i..], current, found, package, version) == LastBlock(lines, BLANK, None, package, version)
    {
      assert lines[i..][1..] == lines[i + 1..];
      if lines[i] == "" {
        if current.package == package && current.version == version {
          found := Some(current);
        }
        current := BLANK;
      } else {
        current := ScriptLine(current, lines[i]);
      }
    }
    if current.package == package && current.version == version {
      found := Some(current);
    }
  }

  method SignedAwk(lines: seq<string>, want: Entry) returns (ok: bool)
    ensures ok == Signed(lines, BLANK, want)
  {
    ok := false;
    var current := BLANK;
    for i := 0 to |lines|
      invariant (ok || Signed(lines[i..], current, want)) == Signed(lines, BLANK, want)
    {
      assert lines[i..][1..] == lines[i + 1..];
      if lines[i] == "" {
        ok := ok || current == want;
        current := BLANK;
      } else {
        current := AwkLine(current, lines[i]);
      }
    }
    ok := ok || current == want;
  }

  lemma {:induction false} FoundIsSigned(lines: seq<string>, current: Entry, found: Option<Entry>, package: string, version: string)
    requires forall i :: 0 <= i < |lines| ==> Whole(lines[i])
    requires LastBlock(lines, current, found, package, version).Some?
    ensures var e := LastBlock(lines, current, found, package, version);
            e == found || Signed(lines, current, e.value)
  {
    if lines != [] {
      if lines[0] == "" {
        var now := if current.package == package && current.version == version then Some(current) else found;
        FoundIsSigned(lines[1..], BLANK, now, package, version);
      } else {
        LinesAgree(current, lines[0]);
        WholeLineReads(current, lines[0]);
        FoundIsSigned(lines[1..], BlockLine(current, lines[0]), found, package, version);
      }
    }
  }

  // Whatever the script plans from an index whose lines only a newline ends, the
  // router accepts on that index.
  lemma PlannedIsAccepted(lines: seq<string>, package: string, version: string)
    requires forall i :: 0 <= i < |lines| ==> Whole(lines[i])
    requires LastBlock(lines, BLANK, None, package, version).Some?
    ensures var e := LastBlock(lines, BLANK, None, package, version).value;
            e.package == package && e.version == version && Signed(lines, BLANK, e)
  {
    FoundIsSigned(lines, BLANK, None, package, version);
    FoundMatches(lines, BLANK, None, package, version);
  }

  lemma {:induction false} FoundMatches(lines: seq<string>, current: Entry, found: Option<Entry>, package: string, version: string)
    requires found.Some? ==> found.value.package == package && found.value.version == version
    ensures var e := LastBlock(lines, current, found, package, version);
            e.Some? ==> e.value.package == package && e.value.version == version
  {
    if lines != [] {
      var now := if current.package == package && current.version == version then Some(current) else found;
      FoundMatches(lines[1..], BLANK, now, package, version);
      FoundMatches(lines[1..], ScriptLine(current, lines[0]), found, package, version);
    }
  }

  // A record as both readers of blocks take it: nothing else in it is one of the
  // four fields, and only newlines end its lines.
  ghost predicate Clean(r: Record) {
    && Whole(FieldLine("Package", r.entry.package)) && Whole(FieldLine("Version", r.entry.version))
    && Whole(FieldLine("Filename", r.entry.filename)) && Whole(FieldLine("SHA256sum", r.entry.sha))
    && forall i :: 0 <= i < |r.others| ==> Passing(r.others[i])
  }

  ghost predicate Passing(line: string) { line != "" && Whole(line) && forall e :: BlockLine(e, line) == e }

  // One more line of a block, to either reader.
  lemma OneLine(line: string, rest: seq<string>, e: Entry, next: Entry, found: Option<Entry>, package: string, version: string, want: Entry)
    requires line != "" && Whole(line) && BlockLine(e, line) == next
    ensures Signed([line] + rest, e, want) == Signed(rest, next, want)
    ensures LastBlock([line] + rest, e, found, package, version) == LastBlock(rest, next, found, package, version)
  {
    assert ([line] + rest)[1..] == rest;
    LinesAgree(e, line);
    WholeLineReads(e, line);
  }

  lemma {:induction false} OtherLines(others: seq<string>, rest: seq<string>, e: Entry, found: Option<Entry>,
                                      package: string, version: string, want: Entry)
    requires forall i :: 0 <= i < |others| ==> Passing(others[i])
    ensures Signed(others + rest, e, want) == Signed(rest, e, want)
    ensures LastBlock(others + rest, e, found, package, version) == LastBlock(rest, e, found, package, version)
  {
    if others == [] {
      assert others + rest == rest;
    } else {
      assert Passing(others[0]);
      assert others + rest == [others[0]] + (others[1..] + rest);
      OneLine(others[0], others[1..] + rest, e, e, found, package, version, want);
      OtherLines(others[1..], rest, e, found, package, version, want);
    }
  }

  function FoundAfter(e: Entry, found: Option<Entry>, package: string, version: string): Option<Entry> {
    if e.package == package && e.version == version then Some(e) else found
  }

  lemma RecordBlock(r: Record, rest: seq<string>, found: Option<Entry>, package: string, version: string, want: Entry)
    requires Clean(r)
    ensures Signed(Print(r) + rest, BLANK, want) == (r.entry == want || Signed(rest, BLANK, want))
    ensures LastBlock(Print(r) + rest, BLANK, found, package, version)
            == LastBlock(rest, BLANK, FoundAfter(r.entry, found, package, version), package, version)
  {
    var l1, l2 := FieldLine("Package", r.entry.package), FieldLine("Version", r.entry.version);
    var l3, l4 := FieldLine("Filename", r.entry.filename), FieldLine("SHA256sum", r.entry.sha);
    var e1 := BLANK.(package := r.entry.package);
    var e2 := e1.(version := r.entry.version);
    var e3 := e2.(filename := r.entry.filename);
    var end := [""] + rest;
    var tail := r.others + end;
    FieldBlocks(r, e1, e2, e3);
    assert Print(r) + rest == [l1] + ([l2] + ([l3] + ([l4] + tail)));
    OneLine(l1, [l2] + ([l3] + ([l4] + tail)), BLANK, e1, found, package, version, want);
    OneLine(l2, [l3] + ([l4] + tail), e1, e2, found, package, version, want);
    OneLine(l3, [l4] + tail, e2, e3, found, package, version, want);
    OneLine(l4, tail, e3, r.entry, found, package, version, want);
    OtherLines(r.others, end, r.entry, found, package, version, want);
    assert end[1..] == rest;
  }

  lemma FieldBlocks(r: Record, e1: Entry, e2: Entry, e3: Entry)
    requires e1 == BLANK.(package := r.entry.package) && e2 == e1.(version := r.entry.version) && e3 == e2.(filename := r.entry.filename)
    ensures BlockLine(BLANK, FieldLine("Package", r.entry.package)) == e1
    ensures BlockLine(e1, FieldLine("Version", r.entry.version)) == e2
    ensures BlockLine(e2, FieldLine("Filename", r.entry.filename)) == e3
    ensures BlockLine(e3, FieldLine("SHA256sum", r.entry.sha)) == r.entry
  {
    KeysAreKeys();
    BlockField(BLANK, "Package", r.entry.package);
    BlockField(e1, "Version", r.entry.version);
    BlockField(e2, "Filename", r.entry.filename);
    BlockField(e3, "SHA256sum", r.entry.sha);
    FieldsAre(BLANK, r.entry.package);
    FieldsAre(e1, r.entry.version);
    FieldsAre(e2, r.entry.filename);
    FieldsAre(e3, r.entry.sha);
  }

  function LastEntry(records: seq<Record>, package: string, version: string, found: Option<Entry>): Option<Entry> {
    if records == [] then found
    else LastEntry(records[1..], package, version, FoundAfter(records[0].entry, found, package, version))
  }

  lemma {:induction false} PrintThenPlanFrom(records: seq<Record>, package: string, version: string, found: Option<Entry>, want: Entry)
    requires forall i :: 0 <= i < |records| ==> Clean(records[i])
    requires package != "" && want != BLANK
    ensures LastBlock(PrintAll(records), BLANK, found, package, version) == LastEntry(records, package, version, found)
    ensures Signed(PrintAll(records), BLANK, want) <==> exists i :: 0 <= i < |records| && records[i].entry == want
  {
    if records != [] {
      RecordBlock(records[0], PrintAll(records[1..]), found, package, version, want);
      PrintThenPlanFrom(records[1..], package, version, FoundAfter(records[0].entry, found, package, version), want);
      assert forall i :: 0 < i < |records| ==> records[i] == records[1..][i - 1];
    }
  }

  lemma {:induction false} LastEntryExactly(records: seq<Record>, package: string, version: string, found: Option<Entry>, i: nat)
    requires i < |records| && records[i].entry.package == package && records[i].entry.version == version
    requires forall j :: i < j < |records| ==> !(records[j].entry.package == package && records[j].entry.version == version)
    ensures LastEntry(records, package, version, found) == Some(records[i].entry)
  {
    var now := FoundAfter(records[0].entry, found, package, version);
    assert forall j :: i < j < |records| && j > 0 ==> records[1..][j - 1] == records[j];
    if i > 0 {
      LastEntryExactly(records[1..], package, version, now, i - 1);
    } else {
      NoneLater(records[1..], package, version, now);
    }
  }

  lemma {:induction false} NoneLater(records: seq<Record>, package: string, version: string, found: Option<Entry>)
    requires forall j :: 0 <= j < |records| ==> !(records[j].entry.package == package && records[j].entry.version == version)
    ensures LastEntry(records, package, version, found) == found
  {
    if records != [] {
      NoneLater(records[1..], package, version, found);
    }
  }

  // Of a printed index the script plans the last record of the package and version.
  lemma PrintThenPlan(records: seq<Record>, package: string, version: string, i: nat)
    requires forall k :: 0 <= k < |records| ==> Clean(records[k])
    requires package != "" && i < |records| && records[i].entry.package == package && records[i].entry.version == version
    requires forall j :: i < j < |records| ==> !(records[j].entry.package == package && records[j].entry.version == version)
    ensures LastBlock(PrintAll(records), BLANK, None, package, version) == Some(records[i].entry)
  {
    LastEntryExactly(records, package, version, None, i);
    PrintThenPlanFrom(records, package, version, None, records[i].entry);
  }

  // And none without one; the router accepts exactly the records there are.
  lemma PrintThenAccept(records: seq<Record>, package: string, version: string, want: Entry)
    requires (forall k :: 0 <= k < |records| ==> Clean(records[k])) && package != "" && want != BLANK
    ensures Signed(PrintAll(records), BLANK, want) <==> exists i :: 0 <= i < |records| && records[i].entry == want
    ensures (forall j :: 0 <= j < |records| ==> !(records[j].entry.package == package && records[j].entry.version == version)) ==>
              LastBlock(PrintAll(records), BLANK, None, package, version).None?
  {
    PrintThenPlanFrom(records, package, version, None, want);
    if forall j :: 0 <= j < |records| ==> !(records[j].entry.package == package && records[j].entry.version == version) {
      NoneLater(records, package, version, None);
    }
  }

  lemma {:induction false} SublinesAcross(a: string, c: char, b: string, cur: string)
    requires Whole(a) && Ends(c)
    ensures Sublines(a + ([c] + b), cur) == [cur + a] + Sublines(b, "")
  {
    var s := a + ([c] + b);
    if a == "" {
      assert s == [c] + b && s[1..] == b;
      assert cur + a == cur;
    } else {
      assert s[0] == a[0] && s[1..] == a[1..] + ([c] + b);
      SublinesAcross(a[1..], c, b, cur + [a[0]]);
      assert cur + [a[0]] + a[1..] == cur + a;
    }
  }

  lemma {:induction false} IndexOfColonSpace(key: string, rest: string)
    requires ':' !in key
    ensures Index(key + (": " + rest), ": ") == Some(|key|)
  {
    var s := key + (": " + rest);
    if key == "" {
      assert s == ": " + rest && s[..2] == ": ";
    } else {
      assert s[1..] == key[1..] + (": " + rest);
      assert s[..2][0] == key[0];
      IndexOfColonSpace(key[1..], rest);
    }
  }

  lemma BlockField(e: Entry, key: string, value: string)
    requires ':' !in key
    ensures BlockLine(e, FieldLine(key, value)) == WithField(e, key, value)
  {
    var line := FieldLine(key, value);
    assert line == key + (": " + value);
    IndexOfColonSpace(key, value);
    assert line[..|key|] == key && line[|key| + 2..] == value;
  }

  lemma TwoSublines(e: Entry, line: string, head: string, b: string)
    requires Sublines(line, "") == ["" + head] + ["" + b] && Index(b, ": ").None?
    ensures ScriptLine(e, line) == BlockLine(e, head)
  {
    assert "" + head == head && "" + b == b;
    assert [head] + ([b] + []) == [head] + [b];
    BlockLinesStep(e, head, [b] + []);
    BlockLinesStep(BlockLine(e, head), b, []);
  }

  lemma FieldsAre(e: Entry, x: string)
    ensures WithField(e, "Package", x) == e.(package := x) && WithField(e, "Version", x) == e.(version := x)
    ensures WithField(e, "Filename", x) == e.(filename := x) && WithField(e, "SHA256sum", x) == e.(sha := x)
  {
    KeysApart();
  }

  lemma ScriptEnded(e: Entry, head: string, c: char, b: string)
    requires Whole(head) && Whole(b) && Ends(c) && Index(b, ": ").None?
    ensures ScriptLine(e, head + ([c] + b)) == BlockLine(e, head)
  {
    SublinesAcross(head, c, b, "");
    WholeStays(b, "");
    TwoSublines(e, head + ([c] + b), head, b);
  }

  // A file name with a line end of the script's in it: the script reads what
  // stands before it, the awk all of it.
  lemma EndedField(e: Entry, a: string, c: char, b: string)
    requires Whole(FieldLine("Filename", a)) && Whole(b) && Ends(c) && Index(b, ": ").None?
    ensures var line := FieldLine("Filename", a + ([c] + b));
            ScriptLine(e, line) == e.(filename := a) && AwkLine(e, line) == e.(filename := a + ([c] + b))
  {
    var key := "Filename";
    assert ':' !in key;
    EndedFieldOf(e, key, a, c, b);
    FieldsAre(e, a);
    FieldsAre(e, a + ([c] + b));
  }

  lemma EndedFieldOf(e: Entry, key: string, a: string, c: char, b: string)
    requires ':' !in key && Whole(FieldLine(key, a)) && Whole(b) && Ends(c) && Index(b, ": ").None?
    ensures var line := FieldLine(key, a + ([c] + b));
            ScriptLine(e, line) == WithField(e, key, a) && AwkLine(e, line) == WithField(e, key, a + ([c] + b))
  {
    var line, head := FieldLine(key, a + ([c] + b)), FieldLine(key, a);
    assert line == head + ([c] + b);
    ScriptEnded(e, head, c, b);
    BlockField(e, key, a);
    BlockField(e, key, a + ([c] + b));
    LinesAgree(e, line);
  }

  // So with another line end inside a line a planned entry may be refused:
  // whatever entry both readers have of a block so far, its last line names one
  // file to the script and another to the awk.
  lemma OtherLineEndsMislead(e: Entry, a: string, c: char, b: string)
    requires Whole(FieldLine("Filename", a)) && Whole(b) && Ends(c) && Index(b, ": ").None?
    ensures var line, planned := FieldLine("Filename", a + ([c] + b)), e.(filename := a);
            LastBlock([line], e, None, e.package, e.version) == Some(planned) && !Signed([line], e, planned)
  {
    var line := FieldLine("Filename", a + ([c] + b));
    EndedField(e, a, c, b);
    BlockOfOne(line, e, e.(filename := a), e.(filename := a + ([c] + b)));
    assert |a + ([c] + b)| > |a|;
  }

  lemma BlockOfOne(line: string, e: Entry, mine: Entry, theirs: Entry)
    requires line != "" && ScriptLine(e, line) == mine && AwkLine(e, line) == theirs
    ensures LastBlock([line], e, None, mine.package, mine.version) == Some(mine)
    ensures forall want :: Signed([line], e, want) <==> theirs == want
  {
    assert [line][1..] == [];
  }
}
