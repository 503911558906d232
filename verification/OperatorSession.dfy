/** Operator cookies: unpadded base64url, the two-part token, and when a
    cookie is issued and accepted. Times are in milliseconds. */
module OperatorSession {
  import opened Digits
  import opened Trimming
  import opened Wrappers

  /* ---- base64url ---- */

  type byte = x: int | 0 <= x < 256
  type sextet = x: int | 0 <= x < 64

  // The standard alphabet (section 4 of RFC 4648).
  function Letter(n: sextet): char {
    if n < 26 then 'A' + n as char
    else if n < 52 then 'a' + (n - 26) as char
    else if n < 62 then '0' + (n - 52) as char
    else if n == 62 then '+' else '/'
  }

  function Sextet(c: char): Option<sextet> {
    if 'A' <= c <= 'Z' then Some((c - 'A') as int)
    else if 'a' <= c <= 'z' then Some((c - 'a') as int + 26)
    else if '0' <= c <= '9' then Some((c - '0') as int + 52)
    else if c == '+' then Some(62)
    else if c == '/' then Some(63)
    else None
  }

  lemma LetterReads(n: sextet)
    ensures Sextet(Letter(n)) == Some(n)
    ensures !IsSpace(Letter(n)) && Letter(n) != '='
    ensures Unsafe(Safe(Letter(n))) == Letter(n) && Safe(Letter(n)) != '=' && Safe(Letter(n)) != '.'
  {
  }

  // Bytes as groups of six bits, the last one filled up with zeros.
  function Sextets(b: seq<byte>): seq<sextet> {
    if |b| == 0 then []
    else if |b| == 1 then [b[0] / 4, b[0] % 4 * 16]
    else if |b| == 2 then [b[0] / 4, b[0] % 4 * 16 + b[1] / 16, b[1] % 16 * 4]
    else [b[0] / 4, b[0] % 4 * 16 + b[1] / 16, b[1] % 16 * 4 + b[2] / 64, b[2] % 64] + Sextets(b[3..])
  }

  function FirstByte(a: sextet, b: sextet): byte { var x: int, y: int := a, b; x * 4 + y / 16 }

  function SecondByte(a: sextet, b: sextet): byte { var x: int, y: int := a, b; x % 16 * 16 + y / 4 }

  function ThirdByte(a: sextet, b: sextet): byte { var x: int, y: int := a, b; x % 4 * 64 + y }

  // Left-over bits are discarded.
  function Bytes(v: seq<sextet>): seq<byte> {
    if |v| < 2 then []
    else if |v| == 2 then [FirstByte(v[0], v[1])]
    else if |v| == 3 then [FirstByte(v[0], v[1]), SecondByte(v[1], v[2])]
    else [FirstByte(v[0], v[1]), SecondByte(v[1], v[2]), ThirdByte(v[2], v[3])] + Bytes(v[4..])
  }

  function Spell(v: seq<sextet>): string { if v == [] then "" else [Letter(v[0])] + Spell(v[1..]) }

  function Letters(b: seq<byte>): string { Spell(Sextets(b)) }

  function Padding(b: seq<byte>): string { if |b| % 3 == 0 then "" else if |b| % 3 == 1 then "==" else "=" }

  function Btoa(b: seq<byte>): string { Letters(b) + Padding(b) }

  predicate IsSpace(c: char) { c == ' ' || c == '\t' || c == '\n' || c == '\U{C}' || c == '\r' }

  function NoSpaces(s: string): string {
    if s == "" then "" else (if IsSpace(s[0]) then "" else [s[0]]) + NoSpaces(s[1..])
  }

  function DropEquals(s: string, most: nat): string
    decreases most
  {
    if most > 0 && s != "" && s[|s| - 1] == '=' then DropEquals(s[..|s| - 1], most - 1) else s
  }

  function Values(s: string): Option<seq<sextet>> {
    if s == "" then Some([])
    else match Sextet(s[0])
      case None => None
      case Some(n) =>
        match Values(s[1..])
        case None => None
        case Some(rest) => Some([n] + rest)
  }

  function Atob(text: string): Option<seq<byte>> {
    var s := NoSpaces(text);
    var t := if |s| % 4 == 0 then DropEquals(s, 2) else s;
    if |t| % 4 == 1 then None
    else match Values(t)
      case None => None
      case Some(v) => Some(Bytes(v))
  }

  function Safe(c: char): char { if c == '+' then '-' else if c == '/' then '_' else c }

  function Unsafe(c: char): char { if c == '-' then '+' else if c == '_' then '/' else c }

  function EachChar(s: string, f: char -> char): (r: string)
    ensures |r| == |s| && forall i :: 0 <= i < |s| ==> r[i] == f(s[i])
  {
    if s == "" then "" else [f(s[0])] + EachChar(s[1..], f)
  }

  function EncodeBase64Url(b: seq<byte>): string {
    var s := EachChar(Btoa(b), c => Safe(c));
    DropEquals(s, |s|)
  }

  function Repeat(c: char, n: nat): string { if n == 0 then "" else [c] + Repeat(c, n - 1) }

  function PadEnd(s: string, length: nat): string { s + Repeat('=', if length > |s| then length - |s| else 0) }

  function DecodeBase64Url(s: string): Option<seq<byte>> {
    Atob(PadEnd(EachChar(s, c => Unsafe(c)), (|s| + 3) / 4 * 4))
  }

  lemma {:induction false} SpelledReads(v: seq<sextet>)
    ensures Values(Spell(v)) == Some(v) && |Spell(v)| == |v|
  {
    if v != [] {
      LetterReads(v[0]);
      SpelledReads(v[1..]);
      assert Spell(v)[1..] == Spell(v[1..]);
      assert v == [v[0]] + v[1..];
    }
  }

  lemma {:induction false} SpelledLetters(v: seq<sextet>)
    ensures |Spell(v)| == |v| && forall i :: 0 <= i < |v| ==> Spell(v)[i] == Letter(v[i])
  {
    if v != [] {
      SpelledLetters(v[1..]);
    }
  }

  // Six bits and back, for one group.
  lemma GroupOfThree(x: byte, y: byte, z: byte)
    ensures var n0, n1, n2, n3 := x / 4, x % 4 * 16 + y / 16, y % 16 * 4 + z / 64, z % 64;
            n0 * 4 + n1 / 16 == x && n1 % 16 * 16 + n2 / 4 == y && n2 % 4 * 64 + n3 == z
  {
  }

  lemma {:induction false} BytesOfSextets(b: seq<byte>)
    ensures Bytes(Sextets(b)) == b
    decreases |b|
  {
    if |b| >= 3 {
      BytesOfSextets(b[3..]);
      GroupOfThree(b[0], b[1], b[2]);
      assert Sextets(b)[4..] == Sextets(b[3..]);
      assert b == [b[0], b[1], b[2]] + b[3..];
    } else if |b| == 2 {
      GroupOfThree(b[0], b[1], 0);
    } else if |b| == 1 {
      GroupOfThree(b[0], 0, 0);
    }
  }

  lemma {:induction false} SextetCount(b: seq<byte>)
    ensures |Sextets(b)| == |b| / 3 * 4 + (if |b| % 3 == 0 then 0 else |b| % 3 + 1)
    decreases |b|
  {
    if |b| >= 3 {
      SextetCount(b[3..]);
    }
  }

  // How much padding fills a number of letters up to a multiple of four.
  lemma FillUp(n: nat, bytes: nat)
    requires n == bytes / 3 * 4 + (if bytes % 3 == 0 then 0 else bytes % 3 + 1)
    ensures n % 4 != 1 && (n + 3) / 4 * 4 == n + (if bytes % 3 == 0 then 0 else 3 - bytes % 3)
    ensures (n + (if bytes % 3 == 0 then 0 else 3 - bytes % 3)) % 4 == 0
  {
    var q, r := bytes / 3, bytes % 3;
    if r == 0 {
      Fours(q, 0);
      Fours(q, 3);
    } else {
      Fours(q, r + 1);
      Fours(q + 1, r);
      Fours(q + 1, 0);
    }
  }

  lemma Fours(q: nat, k: nat)
    requires k < 4
    ensures (4 * q + k) % 4 == k && (4 * q + k) / 4 == q
  {
  }

  // Every letter is one, so none is a space, a sign of padding or a dot.
  lemma LettersAreLetters(b: seq<byte>)
    ensures |Letters(b)| == |Sextets(b)|
    ensures forall i :: 0 <= i < |Letters(b)| ==>
              var c := Letters(b)[i]; !IsSpace(c) && c != '=' && Unsafe(Safe(c)) == c && Safe(c) != '=' && Safe(c) != '.'
  {
    var v := Sextets(b);
    SpelledLetters(v);
    forall i | 0 <= i < |v|
      ensures var c := Letters(b)[i]; !IsSpace(c) && c != '=' && Unsafe(Safe(c)) == c && Safe(c) != '=' && Safe(c) != '.'
    {
      LetterReads(v[i]);
    }
  }

  lemma {:induction false} NoSpacesStays(s: string)
    requires forall i :: 0 <= i < |s| ==> !IsSpace(s[i])
    ensures NoSpaces(s) == s
  {
    if s != "" {
      NoSpacesStays(s[1..]);
    }
  }

  lemma DropsPadding(s: string, p: string, most: nat)
    requires (p == "" || p == "=" || p == "==") && most >= |p|
    requires s == "" || s[|s| - 1] != '='
    ensures DropEquals(s + p, most) == s
  {
    if p == "" {
      assert s + p == s;
    } else {
      var q := p[..|p| - 1];
      assert (s + p)[|s + p| - 1] == '=' && (s + p)[..|s + p| - 1] == s + q;
      DropsPadding(s, q, most - 1);
    }
  }

  lemma SafePadding(text: string, p: string)
    requires forall i :: 0 <= i < |p| ==> p[i] == '='
    ensures EachChar(text + p, c => Safe(c)) == EachChar(text, c => Safe(c)) + p
  {
    var u, v := EachChar(text + p, c => Safe(c)), EachChar(text, c => Safe(c)) + p;
    forall i | 0 <= i < |u|
      ensures u[i] == v[i]
    {
      assert u[i] == Safe((text + p)[i]);
    }
  }

  lemma EncodedIs(b: seq<byte>)
    ensures EncodeBase64Url(b) == EachChar(Letters(b), c => Safe(c))
  {
    var s, p := EachChar(Letters(b), c => Safe(c)), Padding(b);
    LettersAreLetters(b);
    SafePadding(Letters(b), p);
    assert s != "" ==> s[|s| - 1] == Safe(Letters(b)[|s| - 1]);
    DropsPadding(s, p, |s + p|);
  }

  lemma PaddingIs(b: seq<byte>)
    ensures Padding(b) == Repeat('=', if |b| % 3 == 0 then 0 else 3 - |b| % 3)
  {
    assert Repeat('=', 1) == "=" && Repeat('=', 2) == ['='] + Repeat('=', 1);
  }

  lemma PaddingFits(b: seq<byte>)
    ensures PadEnd(Letters(b), (|Letters(b)| + 3) / 4 * 4) == Btoa(b) && |Btoa(b)| % 4 == 0
  {
    LettersAreLetters(b);
    SextetCount(b);
    PaddingIs(b);
    FillUp(|Letters(b)|, |b|);
  }

  lemma PaddingGoes(b: seq<byte>)
    ensures NoSpaces(Btoa(b)) == Btoa(b) && DropEquals(Btoa(b), 2) == Letters(b)
  {
    var raw, p := Letters(b), Padding(b);
    LettersAreLetters(b);
    var text := raw + p;
    assert forall i :: 0 <= i < |text| ==> text[i] == if i < |raw| then raw[i] else '=';
    NoSpacesStays(text);
    DropsPadding(raw, p, 2);
  }

  lemma LettersRead(b: seq<byte>)
    ensures Values(Letters(b)) == Some(Sextets(b)) && |Letters(b)| % 4 != 1
  {
    SpelledReads(Sextets(b));
    SextetCount(b);
    FillUp(|Sextets(b)|, |b|);
  }

  lemma AtobUndoesBtoa(b: seq<byte>)
    ensures Atob(Btoa(b)) == Some(b)
  {
    PaddingFits(b);
    PaddingGoes(b);
    LettersRead(b);
    BytesOfSextets(b);
  }

  // Unpadded base64url decoding undoes encoding, for every byte string
  // (sections 3.2 and 5 of RFC 4648); and the text holds no dot.
  lemma Base64UrlRoundTrip(b: seq<byte>)
    ensures DecodeBase64Url(EncodeBase64Url(b)) == Some(b)
    ensures '.' !in EncodeBase64Url(b) && (b != [] ==> EncodeBase64Url(b) != "")
  {
    var s := EncodeBase64Url(b);
    EncodedIs(b);
    LettersAreLetters(b);
    SextetCount(b);
    assert EachChar(s, c => Unsafe(c)) == Letters(b);
    PaddingFits(b);
    AtobUndoesBtoa(b);
  }

  function ByteAt(b: seq<byte>, k: nat): byte { if k < |b| then b[k] else 0 }

  // The i-th six bits of the bytes, zeros after the last.
  function SixBits(b: seq<byte>, i: nat): sextet {
    var k := i / 4 * 3;
    if i % 4 == 0 then ByteAt(b, k) / 4
    else if i % 4 == 1 then ByteAt(b, k) % 4 * 16 + ByteAt(b, k + 1) / 16
    else if i % 4 == 2 then ByteAt(b, k + 1) % 16 * 4 + ByteAt(b, k + 2) / 64
    else ByteAt(b, k + 2) % 64
  }

  lemma {:induction false} SextetsExactly(b: seq<byte>, i: nat)
    requires i < |Sextets(b)|
    ensures Sextets(b)[i] == SixBits(b, i)
    decreases |b|
  {
    if |b| >= 3 && i >= 4 {
      SextetsExactly(b[3..], i - 4);
      assert Sextets(b)[i] == Sextets(b[3..])[i - 4];
      assert i / 4 == (i - 4) / 4 + 1 && i % 4 == (i - 4) % 4;
      assert forall k: nat :: ByteAt(b[3..], k) == ByteAt(b, k + 3);
    }
  }

  // Four letters for three bytes and the last not filled up; each letter is that
  // of its six bits in the alphabet for URLs (section 5 of RFC 4648).
  lemma EncodedExactly(b: seq<byte>, i: nat)
    requires i < |EncodeBase64Url(b)|
    ensures |EncodeBase64Url(b)| == |b| / 3 * 4 + (if |b| % 3 == 0 then 0 else |b| % 3 + 1)
    ensures var c, n: int := EncodeBase64Url(b)[i], SixBits(b, i);
            && (n < 26 ==> c as int == 'A' as int + n)
            && (26 <= n < 52 ==> c as int == 'a' as int + n - 26)
            && (52 <= n < 62 ==> c as int == '0' as int + n - 52)
            && (n == 62 ==> c == '-')
            && (n == 63 ==> c == '_')
  {
    EncodedIs(b);
    SextetCount(b);
    SpelledLetters(Sextets(b));
    SextetsExactly(b, i);
  }

  // Spaces are left out of what is decoded, and nothing else is.
  lemma {:induction false} NoSpacesExactly(a: string, c: char, b: string)
    ensures NoSpaces(a + ([c] + b)) ==
            NoSpaces(a) + (if c in [' ', '\t', '\n', '\U{C}', '\r'] then "" else [c]) + NoSpaces(b)
  {
    var s := a + ([c] + b);
    if a == "" {
      assert s == [c] + b && s[1..] == b;
    } else {
      assert s[1..] == a[1..] + ([c] + b);
      NoSpacesExactly(a[1..], c, b);
    }
  }

  lemma {:induction false} OddLetterFails(s: string, i: nat)
    requires i < |s| && Sextet(s[i]).None?
    ensures Values(s).None?
  {
    if i > 0 {
      OddLetterFails(s[1..], i - 1);
    }
  }

  // Padding is taken only where it fills the last group of four.
  lemma PaddingOutOfPlaceFails(s: string, i: nat)
    requires i < |s| && s[i] == '=' && |s| % 4 != 0 && forall k :: 0 <= k < |s| ==> !IsSpace(s[k])
    ensures Atob(s).None?
  {
    NoSpacesStays(s);
    OddLetterFails(s, i);
  }

  /* ---- The comparison of signatures ---- */

  function Mixed(m: bv16, x: bv16, y: bv16): (r: bv16)
    ensures r == 0 <==> m == 0 && x == y
  {
    m | (x ^ y)
  }

  lemma PrefixesDiffer<T>(a: seq<T>, b: seq<T>, i: nat)
    requires i < |a| == |b|
    ensures a[..i + 1] == b[..i + 1] <==> a[..i] == b[..i] && a[i] == b[i]
  {
    assert a[..i + 1] == a[..i] + [a[i]] && b[..i + 1] == b[..i] + [b[i]];
  }

  // Over code units; every one is looked at.
  method TimingSafeStringEqual(a: seq<bv16>, b: seq<bv16>) returns (same: bool)
    ensures same <==> a == b
  {
    if |a| != |b| {
      return false;
    }
    var mismatch: bv16 := 0;
    for i := 0 to |a|
      invariant mismatch == 0 <==> a[..i] == b[..i]
    {
      PrefixesDiffer(a, b, i);
      mismatch := Mixed(mismatch, a[i], b[i]);
    }
    assert a[..|a|] == a && b[..|b|] == b;
    return mismatch == 0;
  }

  /* ---- Issuing and accepting ---- */

  const TTL := 1000 * 60 * 60 * 24 * 7
  const AHEAD := 1000 * 60 * 5

  datatype Payload = Payload(user: string, iat: int, exp: int)

  // JSON as UTF-8 and the keyed signature are the platform's.
  datatype Platform = Platform(
    write: Payload -> seq<byte>,
    parse: seq<byte> -> Option<Payload>,
    sign: (string, string) -> seq<byte>)

  ghost predicate Sound(p: Platform) {
    && (forall x :: p.parse(p.write(x)) == Some(x) && p.write(x) != [])
    && (forall text, key :: p.sign(text, key) != [])
  }

  datatype Settings = Settings(secret: string, secretsKey: Option<string>, production: bool, notBefore: string)

  const DEV_SECRET := "vectra-dev-session-secret"
  const PLACEHOLDER := "replace-with"

  function SessionSecret(s: Settings): Option<string> {
    if |s.secret| >= 32 && JsTrim(s.secret) == s.secret && s.secret != DEV_SECRET
       && !(PLACEHOLDER <= s.secret) && s.secretsKey != Some(s.secret)
    then Some(s.secret)
    else if s.secret == "" && !s.production then Some(DEV_SECRET)
    else None
  }

  // The key in use is the one given, where that is long enough, tight and none
  // of those that are known or used elsewhere; or, outside production and where
  // none is given, the development key. So in production it is always the former.
  lemma KeyExactly(s: Settings, key: string)
    ensures SessionSecret(s) == Some(key) <==>
              || (&& key == s.secret && |key| >= 32 && JsTrim(key) == key && s.secretsKey != Some(key)
                  && key != "vectra-dev-session-secret" && !("replace-with" <= key))
              || (key == "vectra-dev-session-secret" && s.secret == "" && !s.production)
  {
  }

  // Sessions have a cutoff exactly when the setting is blank, for none, or up to
  // twelve digits, for that many seconds.
  lemma CutoffExactly(s: Settings)
    ensures var raw := JsTrim(s.notBefore);
            && (NotBefore(s).Some? <==> raw == "" || (|raw| <= 12 && forall i :: 0 <= i < |raw| ==> '0' <= raw[i] <= '9'))
            && (raw == "" ==> NotBefore(s) == Some(0))
    ensures forall n: nat :: JsTrim(s.notBefore) == Decimal(n) && |Decimal(n)| <= 12 ==> NotBefore(s) == Some(n * 1000)
  {
    forall n: nat
      ensures Decimal(n) != "" && AllDigits(Decimal(n)) && Value(Decimal(n)) == n
    {
      DecimalParses(n);
    }
  }

  // The cutoff; None turns sessions off.
  function NotBefore(s: Settings): Option<int> {
    var raw := JsTrim(s.notBefore);
    if raw == "" then Some(0)
    else if |raw| <= 12 && AllDigits(raw) then Some(Value(raw) * 1000)
    else None
  }

  predicate Available(s: Settings, now: int) {
    SessionSecret(s).Some? && NotBefore(s).Some? && NotBefore(s).value <= now
  }

  function Signed(p: Platform, key: string, x: Payload): string {
    var text := EncodeBase64Url(p.write(x));
    text + "." + EncodeBase64Url(p.sign(text, key))
  }

  function Create(p: Platform, s: Settings, user: string, now: int): Option<string> {
    if !Available(s, now) then None
    else
      Some(Signed(p, SessionSecret(s).value, Payload(user, now, now + TTL)))
  }

  // A cookie is issued exactly with a key and a readable cutoff that has passed.
  lemma IssuedExactly(p: Platform, s: Settings, user: string, now: int)
    ensures Create(p, s, user, now).Some? <==> SessionSecret(s).Some? && NotBefore(s).Some? && NotBefore(s).value <= now
  {
  }

  // The pieces between dots.
  function SplitDots(s: string, cur: string): seq<string> {
    if s == "" then [cur]
    else if s[0] == '.' then [cur] + SplitDots(s[1..], "")
    else SplitDots(s[1..], cur + [s[0]])
  }

  // Within what a payload's times allow a session at `now`.
  predicate InTime(x: Payload, cutoff: int, now: int) {
    cutoff <= x.iat <= now + AHEAD && x.exp - x.iat <= TTL && now < x.exp
  }

  function Verify(p: Platform, s: Settings, token: string, now: int): Option<Payload> {
    var parts := SplitDots(token, "");
    if |parts| < 2 || parts[0] == "" || parts[1] == "" then None
    else if SessionSecret(s).None? || NotBefore(s).None? then None
    else if EncodeBase64Url(p.sign(parts[0], SessionSecret(s).value)) != parts[1] then None
    else match DecodeBase64Url(parts[0])
      case None => None
      case Some(bytes) =>
        match p.parse(bytes)
        case None => None
        case Some(x) => if x.user == "" || !InTime(x, NotBefore(s).value, now) then None else Some(x)
  }

  lemma {:induction false} NoDotsStays(s: string, cur: string, rest: string)
    requires '.' !in s
    ensures SplitDots(s + ("." + rest), cur) == [cur + s] + SplitDots(rest, "")
    ensures SplitDots(s, cur) == [cur + s]
    decreases |s|
  {
    var u := s + ("." + rest);
    if s == "" {
      assert u == "." + rest && u[1..] == rest;
      assert cur + s == cur;
    } else {
      assert u[1..] == s[1..] + ("." + rest);
      NoDotsStays(s[1..], cur + [s[0]], rest);
      assert cur + [s[0]] + s[1..] == cur + s;
    }
  }

  // A token splits back into exactly its two parts.
  lemma TokenSplits(payload: string, signature: string)
    requires '.' !in payload && '.' !in signature
    ensures SplitDots(payload + "." + signature, "") == [payload, signature]
  {
    assert payload + "." + signature == payload + ("." + signature);
    assert "" + payload == payload && "" + signature == signature;
    NoDotsStays(payload, "", signature);
    NoDotsStays(signature, "", "");
  }

  lemma SignedSplits(p: Platform, key: string, x: Payload)
    requires Sound(p)
    ensures var text := EncodeBase64Url(p.write(x));
            && SplitDots(Signed(p, key, x), "") == [text, EncodeBase64Url(p.sign(text, key))]
            && text != "" && EncodeBase64Url(p.sign(text, key)) != ""
            && DecodeBase64Url(text) == Some(p.write(x))
  {
    var text := EncodeBase64Url(p.write(x));
    Base64UrlRoundTrip(p.write(x));
    Base64UrlRoundTrip(p.sign(text, key));
    TokenSplits(text, EncodeBase64Url(p.sign(text, key)));
  }

  lemma SignedIsJudgedByTime(p: Platform, s: Settings, key: string, x: Payload, t: int)
    requires Sound(p) && x.user != "" && SessionSecret(s) == Some(key) && NotBefore(s).Some?
    ensures Verify(p, s, Signed(p, key, x), t) == if InTime(x, NotBefore(s).value, t) then Some(x) else None
  {
    SignedSplits(p, key, x);
  }

  // A cookie issued at t0 for a named user is accepted at t, under the same
  // key and whatever the other settings have become, exactly in its time.
  lemma AcceptedExactly(p: Platform, s0: Settings, s: Settings, user: string, t0: int, t: int)
    requires Sound(p) && user != "" && Create(p, s0, user, t0).Some?
    requires SessionSecret(s) == SessionSecret(s0) && NotBefore(s).Some?
    ensures Verify(p, s, Create(p, s0, user, t0).value, t) ==
            if NotBefore(s).value <= t0 <= t + 300_000 && t < t0 + 604_800_000 then Some(Payload(user, t0, t0 + 604_800_000)) else None
  {
    SignedIsJudgedByTime(p, s, SessionSecret(s0).value, Payload(user, t0, t0 + TTL), t);
  }

  // Whatever the token and whatever key signed it: nothing issued before the
  // cutoff is accepted, nothing from more than five minutes ahead, nothing a
  // week old, and nothing at all without a key and a readable cutoff.
  lemma NothingOutsideItsTime(p: Platform, s: Settings, token: string, now: int)
    requires Verify(p, s, token, now).Some?
    ensures var x := Verify(p, s, token, now).value;
            && SessionSecret(s).Some? && NotBefore(s).Some?
            && x.user != "" && NotBefore(s).value <= x.iat <= now + 300_000 && now - 604_800_000 < x.iat
            && now < x.exp <= x.iat + 604_800_000
  {
  }

  // Raising the cutoff to the present ends every session issued before.
  lemma CutoffEndsSessions(p: Platform, s: Settings, token: string, issued: int, now: int)
    requires Sound(p) && NotBefore(s).Some? && issued < NotBefore(s).value
    requires exists x: Payload, signature: string ::
               x.iat == issued && '.' !in signature && token == EncodeBase64Url(p.write(x)) + "." + signature
    ensures Verify(p, s, token, now).None?
  {
    var x: Payload, signature: string :| x.iat == issued && '.' !in signature && token == EncodeBase64Url(p.write(x)) + "." + signature;
    Base64UrlRoundTrip(p.write(x));
    TokenSplits(EncodeBase64Url(p.write(x)), signature);
  }
}
