/** Blank space around a text, for any notion of a space. */
module Trimming {
  function TrimLeft(s: string, space: char -> bool): string {
    if s != "" && space(s[0]) then TrimLeft(s[1..], space) else s
  }

  function TrimRight(s: string, space: char -> bool): string
    decreases |s|
  {
    if s != "" && space(s[|s| - 1]) then TrimRight(s[..|s| - 1], space) else s
  }

  function TrimBy(s: string, space: char -> bool): string { TrimRight(TrimLeft(s, space), space) }

  // What JavaScript's trim takes away.
  predicate JsSpace(c: char) {
    c == ' ' || '\t' <= c <= '\r' || c == '\U{A0}' || c == '\U{1680}' || '\U{2000}' <= c <= '\U{200A}'
    || c == '\U{2028}' || c == '\U{2029}' || c == '\U{202F}' || c == '\U{205F}' || c == '\U{3000}' || c == '\U{FEFF}'
  }

  function JsTrim(s: string): string { TrimBy(s, c => JsSpace(c)) }

  // Neither begins nor ends with a space.
  predicate Tight(s: string, space: char -> bool) {
    s != "" && !space(s[0]) && !space(s[|s| - 1])
  }

  // What is left stands between spaces and neither begins nor ends with one.
  lemma TrimExactly(s: string, space: char -> bool) returns (i: nat, j: nat)
    ensures i <= j <= |s| && TrimBy(s, space) == s[i..j]
    ensures forall k :: 0 <= k < |s| && (k < i || k >= j) ==> space(s[k])
    ensures TrimBy(s, space) == "" || Tight(TrimBy(s, space), space)
  {
    i := LeftExactly(s, space);
    var t := TrimLeft(s, space);
    var n := RightExactly(t, space);
    j := i + n;
    assert forall k :: j <= k < |s| ==> s[k] == t[k - i];
  }

  lemma {:induction false} LeftExactly(s: string, space: char -> bool) returns (i: nat)
    ensures i <= |s| && TrimLeft(s, space) == s[i..]
    ensures (forall k :: 0 <= k < i ==> space(s[k])) && (i < |s| ==> !space(s[i]))
  {
    i := 0;
    if s != "" && space(s[0]) {
      i := LeftExactly(s[1..], space);
      assert forall k :: 0 < k < i + 1 ==> s[k] == s[1..][k - 1];
      i := i + 1;
    }
  }

  lemma {:induction false} RightExactly(s: string, space: char -> bool) returns (j: nat)
    ensures j <= |s| && TrimRight(s, space) == s[..j]
    ensures (forall k :: j <= k < |s| ==> space(s[k])) && (j > 0 ==> !space(s[j - 1]))
    decreases |s|
  {
    j := |s|;
    if s != "" && space(s[|s| - 1]) {
      j := RightExactly(s[..|s| - 1], space);
      assert forall k :: j <= k < |s| - 1 ==> s[k] == s[..|s| - 1][k];
    }
  }

  lemma TightStays(s: string, space: char -> bool)
    requires Tight(s, space)
    ensures TrimBy(s, space) == s
  {
  }
}
