/** Release versions as the rollout script reads them and as the router's own
    awk does. */
module RolloutVersions {
  import opened Digits
  import opened Wrappers

  /* ---- Versions ---- */

  // The leading number of a text and what follows it.
  function Number(s: string): Option<(nat, string)> {
    if Run(s) == 0 then None else Some((Value(s[..Run(s)]), s[Run(s)..]))
  }

  function After(s: string, sep: string): Option<string> {
    if |sep| <= |s| && s[..|sep|] == sep then Some(s[|sep|..]) else None
  }

  // A number, then a separator.
  function Part(s: string, sep: string): Option<(nat, string)> {
    match Number(s)
    case None => None
    case Some((n, rest)) =>
      match After(rest, sep)
      case None => None
      case Some(more) => Some((n, more))
  }

  // major.minor.patch-rN, and nothing else.
  function Release(s: string): (r: Option<seq<nat>>)
    ensures r.Some? ==> |r.value| == 4
  {
    match Part(s, ".")
    case None => None
    case Some((a, s1)) =>
      match Part(s1, ".")
      case None => None
      case Some((b, s2)) =>
        match Part(s2, "-r")
        case None => None
        case Some((c, s3)) =>
          match Number(s3)
          case None => None
          case Some((d, rest)) => if rest == "" then Some([a, b, c, d]) else None
  }

  // The order of number sequences, as a tuple comparison has it.
  predicate AtLeast(x: seq<nat>, y: seq<nat>) {
    if y == [] then true
    else if x == [] then false
    else x[0] > y[0] || (x[0] == y[0] && AtLeast(x[1..], y[1..]))
  }

  function SkipOthers(s: string): string { if s != "" && !Digit(s[0]) then SkipOthers(s[1..]) else s }

  lemma SkipShrinks(s: string)
    ensures |SkipOthers(s)| <= |s| && (s != "" && !Digit(s[0]) ==> |SkipOthers(s)| < |s|)
  {
  }

  // The router's awk splits a version wherever there are no digits.
  function Fields(s: string): seq<string>
    decreases |s|
  {
    var n := Run(s);
    if n == |s| then [s]
    else
      SkipShrinks(s[n..]);
      [s[..n]] + Fields(SkipOthers(s[n..]))
  }

  // A field as a number; a missing one is zero.
  function FieldAt(fields: seq<string>, i: nat): nat {
    if i < |fields| && AllDigits(fields[i]) then Value(fields[i]) else 0
  }

  const FREES_OLD_XRAY: seq<nat> := [0, 7, 0, 29]

  function AwkNumbers(s: string): seq<nat> {
    var f := Fields(s);
    [FieldAt(f, 0), FieldAt(f, 1), FieldAt(f, 2), FieldAt(f, 3)]
  }

  // The on-router test: the first field that differs decides.
  method AwkAtLeast(version: string) returns (yes: bool)
    ensures yes == AtLeast(AwkNumbers(version), FREES_OLD_XRAY)
  {
    var x, y := AwkNumbers(version), FREES_OLD_XRAY;
    for i := 0 to 4
      invariant AtLeast(x, y) == AtLeast(x[i..], y[i..])
    {
      assert x[i..][1..] == x[i + 1..] && y[i..][1..] == y[i + 1..];
      if x[i] > y[i] {
        return true;
      }
      if x[i] < y[i] {
        return false;
      }
    }
    return true;
  }

  lemma PartIsAField(s: string, sep: string)
    requires Part(s, sep).Some? && sep != "" && (forall i :: 0 <= i < |sep| ==> !Digit(sep[i]))
    requires var rest := Part(s, sep).value.1; rest != "" && Digit(rest[0])
    ensures Fields(s) == [s[..Run(s)]] + Fields(Part(s, sep).value.1)
    ensures AllDigits(s[..Run(s)]) && Value(s[..Run(s)]) == Part(s, sep).value.0
  {
    var n, rest := Run(s), Part(s, sep).value.1;
    assert s[n..] == sep + rest;
    SkipSeparator(sep, rest);
  }

  lemma {:induction false} SkipSeparator(sep: string, rest: string)
    requires (forall i :: 0 <= i < |sep| ==> !Digit(sep[i])) && rest != "" && Digit(rest[0])
    ensures SkipOthers(sep + rest) == rest
  {
    if sep == "" {
      assert sep + rest == rest;
    } else {
      assert (sep + rest)[1..] == sep[1..] + rest;
      SkipSeparator(sep[1..], rest);
    }
  }

  lemma NumberStarts(s: string)
    requires Number(s).Some?
    ensures s != "" && Digit(s[0])
  {
  }

  // A text of fields that are the numbers given.
  predicate Reads(fields: seq<string>, numbers: seq<nat>) {
    |fields| == |numbers| && forall i :: 0 <= i < |fields| ==> AllDigits(fields[i]) && Value(fields[i]) == numbers[i]
  }

  lemma ReadsMore(f: string, n: nat, fields: seq<string>, numbers: seq<nat>)
    requires AllDigits(f) && Value(f) == n && Reads(fields, numbers)
    ensures Reads([f] + fields, [n] + numbers)
  {
  }

  lemma LastField(s: string)
    requires Number(s).Some? && Number(s).value.1 == ""
    ensures Reads(Fields(s), [Number(s).value.0])
  {
    assert s[..Run(s)] == s;
  }

  lemma PartReads(s: string, sep: string, numbers: seq<nat>)
    requires Part(s, sep).Some? && sep != "" && (forall i :: 0 <= i < |sep| ==> !Digit(sep[i]))
    requires var rest := Part(s, sep).value.1; Number(rest).Some? && Reads(Fields(rest), numbers)
    ensures Reads(Fields(s), [Part(s, sep).value.0] + numbers)
  {
    var rest := Part(s, sep).value.1;
    NumberStarts(rest);
    PartIsAField(s, sep);
    ReadsMore(s[..Run(s)], Part(s, sep).value.0, Fields(rest), numbers);
  }

  // On every well-formed version the router and the script agree.
  lemma BothEndsAgree(version: string)
    requires Release(version).Some?
    ensures AwkNumbers(version) == Release(version).value
  {
    var a, s1 := Part(version, ".").value.0, Part(version, ".").value.1;
    var b, s2 := Part(s1, ".").value.0, Part(s1, ".").value.1;
    var c, s3 := Part(s2, "-r").value.0, Part(s2, "-r").value.1;
    var d := Number(s3).value.0;
    LastField(s3);
    PartReads(s2, "-r", [d]);
    PartReads(s1, ".", [c] + [d]);
    PartReads(version, ".", [b] + ([c] + [d]));
    assert [a] + ([b] + ([c] + [d])) == [a, b, c, d];
    assert Reads(Fields(version), [a, b, c, d]);
  }

  // The script's test: does this vctl let go of the old xray before its own
  // upgrade? A version it cannot read counts as older than any.
  predicate Releases(version: string) {
    Release(version).Some? && AtLeast(Release(version).value, FREES_OLD_XRAY)
  }

  // The two ends differ on exactly the versions the script cannot read and
  // whose first four numbers reach the bound: there the router lets go of the
  // old xray although the script has asked for room for both.
  lemma EndsDisagreeExactly(version: string)
    ensures Releases(version) != AtLeast(AwkNumbers(version), FREES_OLD_XRAY)
            <==> Release(version).None? && AtLeast(AwkNumbers(version), FREES_OLD_XRAY)
  {
    if Release(version).Some? {
      BothEndsAgree(version);
    }
  }

  // A version without a revision.
  function Triple(a: nat, b: nat, c: nat): string { Decimal(a) + ("." + (Decimal(b) + ("." + Decimal(c)))) }

  lemma {:induction false} RunOfDigits(d: string, rest: string)
    requires AllDigits(d) && (rest == "" || !Digit(rest[0]))
    ensures Run(d + rest) == |d|
  {
    if d == "" {
      assert d + rest == rest;
    } else {
      assert (d + rest)[1..] == d[1..] + rest;
      RunOfDigits(d[1..], rest);
    }
  }

  lemma NumberOf(n: nat, rest: string)
    requires rest == "" || !Digit(rest[0])
    ensures Number(Decimal(n) + rest) == Some((n, rest))
  {
    DecimalParses(n);
    var s := Decimal(n) + rest;
    RunOfDigits(Decimal(n), rest);
    assert s[..Run(s)] == Decimal(n) && s[Run(s)..] == rest;
  }

  lemma PartOf(n: nat, rest: string)
    ensures Part(Decimal(n) + ("." + rest), ".") == Some((n, rest))
  {
    NumberOf(n, "." + rest);
    assert ("." + rest)[..1] == "." && ("." + rest)[1..] == rest;
  }

  lemma TripleParts(a: nat, b: nat, c: nat)
    ensures var z := Decimal(c);
            var y := Decimal(b) + ("." + z);
            Number(z) == Some((c, "")) && Part(y, ".") == Some((b, z)) && Part(Triple(a, b, c), ".") == Some((a, y))
  {
    var z := Decimal(c);
    assert z + "" == z;
    NumberOf(c, "");
    PartOf(b, z);
    PartOf(a, Decimal(b) + ("." + z));
  }

  lemma TripleIsNoRelease(a: nat, b: nat, c: nat)
    ensures Release(Triple(a, b, c)).None?
  {
    TripleParts(a, b, c);
    assert Part(Decimal(c), "-r").None?;
  }

  lemma TripleFields(a: nat, b: nat, c: nat)
    ensures Reads(Fields(Triple(a, b, c)), [a, b, c])
  {
    var z := Decimal(c);
    TripleParts(a, b, c);
    LastField(z);
    PartReads(Decimal(b) + ("." + z), ".", [c]);
    PartReads(Triple(a, b, c), ".", [b] + [c]);
    assert [a] + ([b] + [c]) == [a, b, c];
  }

  // Three numbers without a revision: they differ from 0.7.1 on.
  lemma TriplesDisagreeExactly(a: nat, b: nat, c: nat)
    ensures var v := Triple(a, b, c);
            Releases(v) != AtLeast(AwkNumbers(v), FREES_OLD_XRAY) <==> a > 0 || b > 7 || (b == 7 && c > 0)
  {
    TripleIsNoRelease(a, b, c);
    TripleFields(a, b, c);
    assert AwkNumbers(Triple(a, b, c)) == [a, b, c, 0];
    OrderOfFour([a, b, c, 0], FREES_OLD_XRAY);
  }

  lemma OrderOfFour(x: seq<nat>, y: seq<nat>)
    requires |x| == 4 && |y| == 4
    ensures AtLeast(x, y) <==>
            x[0] > y[0] || (x[0] == y[0] && (x[1] > y[1] || (x[1] == y[1] && (x[2] > y[2] || (x[2] == y[2] && x[3] >= y[3])))))
  {
    assert x[1..][1..] == x[2..] && x[2..][1..] == x[3..] && y[1..][1..] == y[2..] && y[2..][1..] == y[3..];
    assert AtLeast(x[3..], y[3..]) <==> x[3] >= y[3];
    assert AtLeast(x[2..], y[2..]) <==> x[2] > y[2] || (x[2] == y[2] && AtLeast(x[3..], y[3..]));
    assert AtLeast(x[1..], y[1..]) <==> x[1] > y[1] || (x[1] == y[1] && AtLeast(x[2..], y[2..]));
  }

  /* ---- The xray-core that comes with a release ---- */

  // Every run of digits, as a number.
  function VersionKey(s: string): seq<nat>
    decreases |s|
  {
    if s == "" then []
    else if Digit(s[0]) then [Value(s[..Run(s)])] + VersionKey(s[Run(s)..])
    else VersionKey(s[1..])
  }

  predicate Revision(s: string) {
    && s != "" && s[0] == '-'
    && var t := s[1..];
       var u := if t != "" && t[0] == 'r' then t[1..] else t;
       u != "" && AllDigits(u)
  }

  // A package version without its revision.
  function Upstream(s: string): string {
    if s == "" || Revision(s) then "" else [s[0]] + Upstream(s[1..])
  }

  /* ---- What the readings mean ---- */

  // The first place where the numbers differ, or where the other ends, decides.
  predicate Later(x: seq<nat>, y: seq<nat>) {
    exists k :: 0 <= k < |x| && LaterAt(x, y, k)
  }

  predicate LaterAt(x: seq<nat>, y: seq<nat>, k: nat)
    requires k < |x|
  {
    k <= |y| && x[..k] == y[..k] && (k == |y| || x[k] > y[k])
  }

  lemma {:induction false} AtLeastExactly(x: seq<nat>, y: seq<nat>)
    ensures AtLeast(x, y) <==> !Later(y, x)
  {
    if x == [] || y == [] {
      if y != [] {
        assert LaterAt(y, x, 0);
      }
    } else if x[0] != y[0] {
      if y[0] > x[0] {
        assert LaterAt(y, x, 0);
      } else {
        assert forall k :: 0 < k < |y| && k <= |x| ==> y[..k][0] != x[..k][0];
      }
    } else {
      AtLeastExactly(x[1..], y[1..]);
      LaterBehind(y, x);
    }
  }

  lemma LaterBehind(x: seq<nat>, y: seq<nat>)
    requires x != [] && y != [] && x[0] == y[0]
    ensures Later(x, y) <==> Later(x[1..], y[1..])
  {
    if k :| 0 <= k < |x| && LaterAt(x, y, k) {
      assert k > 0;
      assert x[1..][..k - 1] == x[..k][1..] && y[1..][..k - 1] == y[..k][1..];
      assert LaterAt(x[1..], y[1..], k - 1);
    }
    if k :| 0 <= k < |x[1..]| && LaterAt(x[1..], y[1..], k) {
      assert x[..k + 1] == [x[0]] + x[1..][..k] && y[..k + 1] == [y[0]] + y[1..][..k];
      assert LaterAt(x, y, k + 1);
    }
  }

  // A release as it is written.
  function ReleaseText(a: nat, b: nat, c: nat, d: nat): string {
    Decimal(a) + ("." + (Decimal(b) + ("." + (Decimal(c) + ("-r" + Decimal(d))))))
  }

  lemma RevisionPart(n: nat, rest: string)
    ensures Part(Decimal(n) + ("-r" + rest), "-r") == Some((n, rest))
  {
    NumberOf(n, "-r" + rest);
    assert ("-r" + rest)[..2] == "-r" && ("-r" + rest)[2..] == rest;
  }

  // The script reads four numbers from such a text, and from no other but one
  // with zeros in front of them.
  lemma ReleaseReadsBack(a: nat, b: nat, c: nat, d: nat)
    ensures Release(ReleaseText(a, b, c, d)) == Some([a, b, c, d])
  {
    var z := Decimal(d);
    assert z + "" == z;
    NumberOf(d, "");
    RevisionPart(c, z);
    PartOf(b, Decimal(c) + ("-r" + z));
    PartOf(a, Decimal(b) + ("." + (Decimal(c) + ("-r" + z))));
  }

  predicate Spells(s: string, n: nat) { s != "" && AllDigits(s) && Value(s) == n }

  lemma NumberSpells(s: string)
    requires Number(s).Some?
    ensures s == s[..Run(s)] + Number(s).value.1 && Spells(s[..Run(s)], Number(s).value.0)
  {
  }

  lemma PartSpells(s: string, sep: string) returns (digits: string)
    requires Part(s, sep).Some?
    ensures Spells(digits, Part(s, sep).value.0) && s == digits + (sep + Part(s, sep).value.1)
  {
    NumberSpells(s);
    digits := s[..Run(s)];
  }

  lemma OnlyReleasesAreRead(s: string) returns (w: string, x: string, y: string, z: string)
    requires Release(s).Some?
    ensures var r := Release(s).value; Spells(w, r[0]) && Spells(x, r[1]) && Spells(y, r[2]) && Spells(z, r[3])
    ensures s == w + ("." + (x + ("." + (y + ("-r" + z)))))
  {
    w := PartSpells(s, ".");
    var s1 := Part(s, ".").value.1;
    x := PartSpells(s1, ".");
    var s2 := Part(s1, ".").value.1;
    y := PartSpells(s2, "-r");
    var s3 := Part(s2, "-r").value.1;
    NumberSpells(s3);
    z := s3;
    assert s3[..Run(s3)] + "" == s3[..Run(s3)];
  }

  lemma {:induction false} KeyOfDigits(d: string, rest: string)
    requires d != "" && AllDigits(d) && (rest == "" || !Digit(rest[0]))
    ensures VersionKey(d + rest) == [Value(d)] + VersionKey(rest)
  {
    var s := d + rest;
    RunOfDigits(d, rest);
    assert s[..Run(s)] == d && s[Run(s)..] == rest;
    assert s[0] == d[0];
  }

  lemma {:induction false} KeySkips(sep: string, rest: string)
    requires forall i :: 0 <= i < |sep| ==> !Digit(sep[i])
    ensures VersionKey(sep + rest) == VersionKey(rest)
  {
    if sep == "" {
      assert sep + rest == rest;
    } else {
      assert (sep + rest)[1..] == sep[1..] + rest;
      KeySkips(sep[1..], rest);
    }
  }

  lemma KeyOfPart(d: string, sep: string, rest: string)
    requires d != "" && AllDigits(d) && sep != "" && forall i :: 0 <= i < |sep| ==> !Digit(sep[i])
    ensures VersionKey(d + (sep + rest)) == [Value(d)] + VersionKey(rest)
  {
    KeyOfDigits(d, sep + rest);
    KeySkips(sep, rest);
  }

  lemma KeyOfTwo(y: string, sep: string, z: string)
    requires y != "" && AllDigits(y) && z != "" && AllDigits(z)
    requires sep != "" && forall i :: 0 <= i < |sep| ==> !Digit(sep[i])
    ensures VersionKey(y + (sep + z)) == [Value(y), Value(z)]
  {
    KeyOfPart(y, sep, z);
    KeyOfDigits(z, "");
    assert z + "" == z;
  }

  lemma KeyOfFour(w: string, x: string, y: string, z: string, r: seq<nat>)
    requires |r| == 4 && Spells(w, r[0]) && Spells(x, r[1]) && Spells(y, r[2]) && Spells(z, r[3])
    ensures VersionKey(w + ("." + (x + ("." + (y + ("-r" + z)))))) == r
  {
    var last := y + ("-r" + z);
    KeyOfTwo(y, "-r", z);
    KeyOfPart(x, ".", last);
    KeyOfPart(w, ".", x + ("." + last));
    assert [r[0]] + ([r[1]] + [r[2], r[3]]) == r;
  }

  // The key of a release is its four numbers.
  lemma KeyOfRelease(s: string)
    requires Release(s).Some?
    ensures VersionKey(s) == Release(s).value
  {
    var r := Release(s).value;
    var w, x, y, z := OnlyReleasesAreRead(s);
    KeyOfFour(w, x, y, z, r);
  }

  // Without its revision a package version is the upstream one.
  lemma {:induction false} UpstreamWithout(base: string, rev: string)
    requires Revision(rev)
    ensures Upstream(base + rev) == base
  {
    if base == "" {
      assert base + rev == rev;
    } else {
      assert (base + rev)[1..] == base[1..] + rev;
      UpstreamWithout(base[1..], rev);
      if Revision(base + rev) {
        OneDash(base + rev, |base|);
      }
    }
  }

  lemma OneDash(s: string, k: nat)
    requires Revision(s) && 0 < k < |s|
    ensures s[k] != '-'
  {
    var t := s[1..];
    var u := if t != "" && t[0] == 'r' then t[1..] else t;
    assert t == u || t == ['r'] + u;
    assert s[k] == t[k - 1];
  }

  lemma UpstreamOf(base: string, n: nat)
    ensures Upstream(base + ("-r" + Decimal(n))) == base
    ensures Upstream(base + ("-" + Decimal(n))) == base
  {
    DecimalParses(n);
    var long, short := "-r" + Decimal(n), "-" + Decimal(n);
    assert long[1..][1..] == Decimal(n) && short[1..] == Decimal(n);
    assert short[1] == Decimal(n)[0];
    UpstreamWithout(base, long);
    UpstreamWithout(base, short);
  }

  lemma {:induction false} UpstreamWithoutRevision(s: string)
    requires '-' !in s
    ensures Upstream(s) == s
  {
    if s != "" {
      UpstreamWithoutRevision(s[1..]);
    }
  }
}
