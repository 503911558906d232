/** Stable sorting by a comparison, as the diff and its canonical forms use it. */
module Sorting {
  ghost predicate TotalOrder<T(!new)>(le: (T, T) -> bool) {
    && (forall a, b :: le(a, b) || le(b, a))
    && (forall a, b, c :: le(a, b) && le(b, c) ==> le(a, c))
  }

  ghost predicate Antisymmetric<T(!new)>(le: (T, T) -> bool) {
    forall a, b :: le(a, b) && le(b, a) ==> a == b
  }

  ghost predicate SortedBy<T(!new)>(s: seq<T>, le: (T, T) -> bool) {
    forall i, j :: 0 <= i < j < |s| ==> le(s[i], s[j])
  }

  function Insert<T>(x: T, s: seq<T>, le: (T, T) -> bool): seq<T> {
    if s == [] || le(x, s[0]) then [x] + s else [s[0]] + Insert(x, s[1..], le)
  }

  function Sort<T>(s: seq<T>, le: (T, T) -> bool): seq<T> {
    if s == [] then [] else Insert(s[0], Sort(s[1..], le), le)
  }

  lemma {:induction false} InsertHolds<T>(x: T, s: seq<T>, le: (T, T) -> bool)
    ensures multiset(Insert(x, s, le)) == multiset{x} + multiset(s)
  {
    if s != [] && !le(x, s[0]) {
      InsertHolds(x, s[1..], le);
      assert s == [s[0]] + s[1..];
    }
  }

  lemma FirstIsLeast<T(!new)>(x: T, s: seq<T>, le: (T, T) -> bool)
    requires SortedBy(s, le) && forall k :: 0 <= k < |s| ==> le(x, s[k])
    ensures SortedBy([x] + s, le)
  {
  }

  lemma {:induction false} InsertSorts<T(!new)>(x: T, s: seq<T>, le: (T, T) -> bool)
    requires TotalOrder(le) && SortedBy(s, le)
    ensures SortedBy(Insert(x, s, le), le)
  {
    if s == [] {
    } else if le(x, s[0]) {
      FirstIsLeast(x, s, le);
    } else {
      InsertSorts(x, s[1..], le);
      InsertHolds(x, s[1..], le);
      var t := Insert(x, s[1..], le);
      forall k | 0 <= k < |t|
        ensures le(s[0], t[k])
      {
        assert t[k] in multiset(t);
        assert t[k] == x || t[k] in s[1..];
      }
      FirstIsLeast(s[0], t, le);
    }
  }

  lemma {:induction false} SortSorts<T(!new)>(s: seq<T>, le: (T, T) -> bool)
    requires TotalOrder(le)
    ensures SortedBy(Sort(s, le), le)
    ensures multiset(Sort(s, le)) == multiset(s)
  {
    if s != [] {
      SortSorts(s[1..], le);
      InsertSorts(s[0], Sort(s[1..], le), le);
      InsertHolds(s[0], Sort(s[1..], le), le);
      assert s == [s[0]] + s[1..];
    }
  }

  lemma TailMultiset<T>(s: seq<T>)
    requires s != []
    ensures multiset(s) == multiset{s[0]} + multiset(s[1..])
  {
    assert s == [s[0]] + s[1..];
  }

  lemma LeastFirst<T(!new)>(a: seq<T>, b: seq<T>, le: (T, T) -> bool)
    requires a != [] && SortedBy(a, le) && Antisymmetric(le) && multiset(a) == multiset(b)
    requires b != [] && SortedBy(b, le)
    ensures a[0] == b[0]
  {
    assert a[0] in multiset(b) && b[0] in multiset(a);
    var i :| 0 <= i < |b| && b[i] == a[0];
    var j :| 0 <= j < |a| && a[j] == b[0];
    assert i > 0 ==> le(b[0], b[i]);
    assert j > 0 ==> le(a[0], a[j]);
  }

  lemma SameTail<T>(a: seq<T>, b: seq<T>)
    requires a != [] && b != [] && a[0] == b[0] && multiset(a) == multiset(b)
    ensures multiset(a[1..]) == multiset(b[1..])
  {
    TailMultiset(a);
    TailMultiset(b);
    var m := multiset{a[0]};
    assert multiset(a[1..]) == multiset(a) - m && multiset(b[1..]) == multiset(b) - m;
  }

  // A sorted sequence is a function of the multiset it holds.
  lemma {:induction false} SortedIsUnique<T(!new)>(a: seq<T>, b: seq<T>, le: (T, T) -> bool)
    requires SortedBy(a, le) && SortedBy(b, le) && Antisymmetric(le)
    requires multiset(a) == multiset(b)
    ensures a == b
  {
    assert |multiset(a)| == |a| && |multiset(b)| == |b|;
    if a != [] {
      LeastFirst(a, b, le);
      SameTail(a, b);
      SortedIsUnique(a[1..], b[1..], le);
      assert a == [a[0]] + a[1..] && b == [b[0]] + b[1..];
    }
  }

  function Map<T, U>(s: seq<T>, f: T -> U): (r: seq<U>)
    ensures |r| == |s| && forall i :: 0 <= i < |s| ==> r[i] == f(s[i])
  {
    if s == [] then [] else [f(s[0])] + Map(s[1..], f)
  }

  lemma TakeOut<T>(s: seq<T>, i: nat)
    requires i < |s|
    ensures multiset(s) == multiset(s[..i] + s[i + 1..]) + multiset{s[i]}
  {
    assert s == s[..i] + ([s[i]] + s[i + 1..]);
  }

  lemma Shrunk<T>(a: multiset<T>, b: multiset<T>, x: T, ra: multiset<T>, rb: multiset<T>)
    requires a == b && a == multiset{x} + ra && b == rb + multiset{x}
    ensures ra == rb
  {
    assert ra == a - multiset{x};
    assert rb == b - multiset{x};
  }

  // What a map yields, as a multiset, is a function of the multiset it is given.
  lemma {:induction false} MapMultiset<T, U>(a: seq<T>, b: seq<T>, f: T -> U)
    requires multiset(a) == multiset(b)
    ensures multiset(Map(a, f)) == multiset(Map(b, f))
    decreases |a|
  {
    assert |multiset(a)| == |a| && |multiset(b)| == |b|;
    if a != [] {
      assert a[0] in multiset(b);
      var i :| 0 <= i < |b| && b[i] == a[0];
      var rest := b[..i] + b[i + 1..];
      TailMultiset(a);
      TakeOut(b, i);
      Shrunk(multiset(a), multiset(b), a[0], multiset(a[1..]), multiset(rest));
      MapMultiset(a[1..], rest, f);
      MapHead(a, f);
      MapWithout(b, i, f);
    }
  }

  lemma MapHead<T, U>(a: seq<T>, f: T -> U)
    requires a != []
    ensures multiset(Map(a, f)) == multiset{f(a[0])} + multiset(Map(a[1..], f))
  {
    assert Map(a, f) == [f(a[0])] + Map(a[1..], f);
  }

  lemma {:induction false} MapAcross<T, U>(a: seq<T>, b: seq<T>, f: T -> U)
    ensures Map(a + b, f) == Map(a, f) + Map(b, f)
  {
  }

  lemma {:induction false} MapParts<T, U>(b: seq<T>, i: nat, f: T -> U)
    requires i < |b|
    ensures Map(b[..i], f) == Map(b, f)[..i] && Map(b[i + 1..], f) == Map(b, f)[i + 1..]
  {
  }

  lemma {:induction false} MapWithout<T, U>(b: seq<T>, i: nat, f: T -> U)
    requires i < |b|
    ensures multiset(Map(b, f)) == multiset(Map(b[..i] + b[i + 1..], f)) + multiset{f(b[i])}
  {
    var m := Map(b, f);
    TakeOut(m, i);
    MapAcross(b[..i], b[i + 1..], f);
    MapParts(b, i, f);
  }

  ghost predicate Decides<T, U(!new), V(!new)>(a: seq<T>, b: seq<T>, f: T -> U, g: T -> V) {
    forall i, j :: 0 <= i < |a| && 0 <= j < |b| && f(a[i]) == f(b[j]) ==> g(a[i]) == g(b[j])
  }

  lemma DecidesLess<T, U(!new), V(!new)>(a: seq<T>, b: seq<T>, k: nat, f: T -> U, g: T -> V)
    requires Decides(a, b, f, g) && a != [] && k < |b|
    ensures Decides(a[1..], b[..k] + b[k + 1..], f, g)
  {
    var rest := b[..k] + b[k + 1..];
    forall i, j | 0 <= i < |a[1..]| && 0 <= j < |rest| && f(a[1..][i]) == f(rest[j])
      ensures g(a[1..][i]) == g(rest[j])
    {
      assert rest[j] == b[if j < k then j else j + 1];
    }
  }

  lemma SameCount<T, U>(a: seq<T>, b: seq<T>, f: T -> U)
    requires multiset(Map(a, f)) == multiset(Map(b, f))
    ensures |a| == |b|
  {
    assert |multiset(Map(a, f))| == |a| && |multiset(Map(b, f))| == |b|;
  }

  // Where f decides g, equal multisets under f are equal under g.
  lemma {:induction false} MapRefined<T, U(!new), V(!new)>(a: seq<T>, b: seq<T>, f: T -> U, g: T -> V)
    requires multiset(Map(a, f)) == multiset(Map(b, f)) && Decides(a, b, f, g)
    ensures multiset(Map(a, g)) == multiset(Map(b, g))
    decreases |a|
  {
    SameCount(a, b, f);
    if a != [] {
      var i := Match(a, b, f);
      var rest := b[..i] + b[i + 1..];
      assert g(a[0]) == g(b[i]);
      DecidesLess(a, b, i, f, g);
      MapHead(a, f);
      MapWithout(b, i, f);
      Shrunk(multiset(Map(a, f)), multiset(Map(b, f)), f(a[0]), multiset(Map(a[1..], f)), multiset(Map(rest, f)));
      MapRefined(a[1..], rest, f, g);
      MapHead(a, g);
      MapWithout(b, i, g);
    }
  }

  lemma Match<T, U>(a: seq<T>, b: seq<T>, f: T -> U) returns (i: nat)
    requires a != [] && multiset(Map(a, f)) == multiset(Map(b, f))
    ensures i < |b| && f(b[i]) == f(a[0])
  {
    var m := Map(b, f);
    assert Map(a, f)[0] in multiset(m);
    i :| 0 <= i < |m| && m[i] == f(a[0]);
  }
}
