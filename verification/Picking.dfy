/** Which elements of a sequence are left, and where they were. */
module Picking {
  // The places picked, in their order.
  ghost predicate Picks(at: seq<nat>, places: set<nat>) {
    (forall i, j :: 0 <= i < j < |at| ==> at[i] < at[j]) && forall i :: i in at <==> i in places
  }

  // The elements at those places.
  predicate Taken<T(==)>(s: seq<T>, at: seq<nat>, out: seq<T>) {
    |at| == |out| && forall k :: 0 <= k < |at| ==> at[k] < |s| && out[k] == s[at[k]]
  }

  lemma PicksLast(at: seq<nat>, places: set<nat>, last: nat)
    requires Picks(at, places) && forall i :: i in places ==> i < last
    ensures Picks(at + [last], places + {last})
  {
    assert forall k :: 0 <= k < |at| ==> at[k] in at;
  }

  // The same places, one further on; the first place with them or not.
  function Further(at: seq<nat>, first: bool): seq<nat> {
    (if first then [0] else []) + seq(|at|, k requires 0 <= k < |at| => at[k] + 1)
  }

  lemma PicksFirst(at: seq<nat>, places: set<nat>, first: bool, all: set<nat>)
    requires Picks(at, places)
    requires forall i: nat :: i in all <==> if i == 0 then first else i - 1 in places
    ensures Picks(Further(at, first), all)
  {
    var f := Further(at, first);
    var d := if first then 1 else 0;
    assert forall k :: 0 <= k < |at| ==> at[k] in at;
    assert forall k :: d <= k < |f| ==> f[k] == at[k - d] + 1;
    forall i: nat | i > 0
      ensures i in f <==> i - 1 in at
    {
      FurtherHas(at, first, i);
    }
  }

  lemma FurtherHas(at: seq<nat>, first: bool, i: nat)
    requires i > 0
    ensures i in Further(at, first) <==> i - 1 in at
  {
    var f := Further(at, first);
    var d := if first then 1 else 0;
    if i - 1 in at {
      var k :| 0 <= k < |at| && at[k] == i - 1;
      assert f[k + d] == i;
    }
    if i in f {
      var k :| 0 <= k < |f| && f[k] == i;
      assert at[k - d] == i - 1;
    }
  }

  lemma TakenFirst<T>(x: T, s: seq<T>, at: seq<nat>, out: seq<T>, first: bool)
    requires Taken(s, at, out)
    ensures Taken([x] + s, Further(at, first), (if first then [x] else []) + out)
  {
  }
}
