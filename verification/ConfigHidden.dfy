/** A change of a single value anywhere in a tree, and exactly when the field
    diff does not see it. */
module ConfigHidden {
  import opened ConfigDiff
  import opened Digits
  import opened Wrappers

  // A place in a tree: which item or field to take, step by step.
  predicate Place(v: Json, steps: seq<nat>)
    decreases |steps|
  {
    if steps == [] then true
    else match v
      case Leaf(_) => false
      case Arr(items) => steps[0] < |items| && Place(items[steps[0]], steps[1..])
      case Obj(fields) => steps[0] < |fields| && Place(fields[steps[0]].value, steps[1..])
  }

  function Inside(v: Json, step: nat): Json
    requires Place(v, [step])
  {
    if v.Arr? then v.items[step] else v.fields[step].value
  }

  function Put(v: Json, steps: seq<nat>, x: Json): Json
    requires Place(v, steps)
    decreases |steps|
  {
    if steps == [] then x
    else match v
      case Arr(items) => Arr(items[steps[0] := Put(items[steps[0]], steps[1..], x)])
      case Obj(fields) => Obj(fields[steps[0] := fields[steps[0]].(value := Put(fields[steps[0]].value, steps[1..], x))])
  }

  // Does this name lead to that step?
  predicate Meant(v: Json, step: nat, name: string)
    requires Place(v, [step])
  {
    if v.Arr? then ParseIndex(name) == Some(step) else v.fields[step].key == name
  }

  // Do these names lead to the place, or to something around it?
  predicate Leads(v: Json, steps: seq<nat>, names: seq<string>)
    requires Place(v, steps)
    decreases |steps|
  {
    names == [] || (steps != [] && Meant(v, steps[0], names[0]) && Leads(Inside(v, steps[0]), steps[1..], names[1..]))
  }

  lemma PlaceStarts(v: Json, steps: seq<nat>)
    requires Place(v, steps) && steps != []
    ensures Place(v, [steps[0]])
  {
    assert [steps[0]][1..] == [];
  }

  lemma {:induction false} PutIsWellFormed(v: Json, steps: seq<nat>, x: Json)
    requires WellFormed(v) && Place(v, steps) && x.Leaf?
    ensures WellFormed(Put(v, steps, x))
    decreases |steps|
  {
    if steps != [] {
      var u := if v.Arr? then v.items[steps[0]] else v.fields[steps[0]].value;
      PutIsWellFormed(u, steps[1..], x);
    }
  }

  lemma {:induction false} PutDiffers(v: Json, steps: seq<nat>, x: Json, y: Json)
    requires Place(v, steps) && x.Leaf? && y.Leaf? && x != y
    ensures !Equal(Put(v, steps, x), Put(v, steps, y))
    decreases |steps|
  {
    if steps != [] {
      var u := if v.Arr? then v.items[steps[0]] else v.fields[steps[0]].value;
      PutDiffers(u, steps[1..], x, y);
      var k, a, b := steps[0], Put(v, steps, x), Put(v, steps, y);
      if v.Arr? {
        assert !Equal(a.items[k], b.items[k]);
      } else {
        assert a.fields[k].key == b.fields[k].key && !Equal(a.fields[k].value, b.fields[k].value);
      }
    }
  }

  // A name reads the put value where it leads to it, and else what was there.
  lemma ChildOfPut(v: Json, steps: seq<nat>, x: Json, name: string)
    requires WellFormed(v) && Place(v, steps) && steps != []
    ensures Place(v, [steps[0]])
    ensures Child(Put(v, steps, x), name) ==
            if Meant(v, steps[0], name) then Some(Put(Inside(v, steps[0]), steps[1..], x)) else Child(v, name)
  {
    PlaceStarts(v, steps);
    if v.Obj? {
      FindUpdated(v.fields, steps[0], Put(v.fields[steps[0]].value, steps[1..], x), name);
    }
  }

  lemma {:induction false} FindUpdated(fields: seq<Field>, k: nat, x: Json, name: string)
    requires k < |fields| && DistinctKeys(fields)
    ensures Find(fields[k := fields[k].(value := x)], name) == if fields[k].key == name then Some(x) else Find(fields, name)
  {
    var after := fields[k := fields[k].(value := x)];
    if k == 0 {
      assert after[1..] == fields[1..];
    } else {
      assert after[1..] == fields[1..][k - 1 := fields[1..][k - 1].(value := x)];
      FindUpdated(fields[1..], k - 1, x, name);
      assert fields[0].key != fields[k].key;
    }
  }

  lemma {:induction false} WalkOfPut(v: Json, steps: seq<nat>, x: Json, y: Json, names: seq<string>)
    requires WellFormed(v) && Place(v, steps) && x.Leaf? && y.Leaf? && x != y
    ensures SameAs(Walk(Some(Put(v, steps, x)), names), Walk(Some(Put(v, steps, y)), names)) <==> !Leads(v, steps, names)
    decreases |names|
  {
    if names == [] {
      PutDiffers(v, steps, x, y);
    } else if steps == [] {
      WalkLeaf(x, names);
      WalkLeaf(y, names);
    } else {
      ChildOfPut(v, steps, x, names[0]);
      ChildOfPut(v, steps, y, names[0]);
      if Meant(v, steps[0], names[0]) {
        WalkOfPut(Inside(v, steps[0]), steps[1..], x, y, names[1..]);
      } else {
        SameToItself(v, names);
      }
    }
  }

  lemma SameToItself(v: Json, names: seq<string>)
    requires WellFormed(v)
    ensures SameAs(Walk(Some(v), names), Walk(Some(v), names))
  {
    EqualToItself(v);
    WalksSame(Some(v), Some(v), names);
  }

  lemma {:induction false} ItemsCollectAlike(a: Json, b: Json, i: nat, prefix: string)
    requires a.Arr? && b.Arr? && |a.items| == |b.items| && i <= |a.items|
    requires forall k :: 0 <= k < |a.items| ==> Collect(a.items[k], Indexed(prefix, k)) == Collect(b.items[k], Indexed(prefix, k))
    ensures CollectItems(a, i, prefix) == CollectItems(b, i, prefix)
    decreases |a.items| - i
  {
    if i < |a.items| {
      ItemsCollectAlike(a, b, i + 1, prefix);
    }
  }

  lemma {:induction false} FieldsCollectAlike(a: Json, b: Json, i: nat, prefix: string)
    requires a.Obj? && b.Obj? && |a.fields| == |b.fields| && i <= |a.fields|
    requires forall k :: 0 <= k < |a.fields| ==> a.fields[k].key == b.fields[k].key
    requires forall k :: 0 <= k < |a.fields| ==>
               Collect(a.fields[k].value, Joined(prefix, a.fields[k].key)) == Collect(b.fields[k].value, Joined(prefix, a.fields[k].key))
    ensures CollectFields(a, i, prefix) == CollectFields(b, i, prefix)
    decreases |a.fields| - i
  {
    if i < |a.fields| {
      FieldsCollectAlike(a, b, i + 1, prefix);
    }
  }

  // Which leaf is put makes no difference to the paths.
  lemma {:induction false} PutCollectsAlike(v: Json, steps: seq<nat>, x: Json, y: Json, prefix: string)
    requires Place(v, steps) && x.Leaf? && y.Leaf?
    ensures Collect(Put(v, steps, x), prefix) == Collect(Put(v, steps, y), prefix)
    decreases |steps|
  {
    if steps != [] {
      var a, b := Put(v, steps, x), Put(v, steps, y);
      if v.Arr? {
        PutCollectsAlike(v.items[steps[0]], steps[1..], x, y, Indexed(prefix, steps[0]));
        ItemsCollectAlike(a, b, 0, prefix);
      } else {
        PutCollectsAlike(v.fields[steps[0]].value, steps[1..], x, y, Joined(prefix, v.fields[steps[0]].key));
        FieldsCollectAlike(a, b, 0, prefix);
      }
    }
  }

  lemma {:induction false} PathsAreTexts(v: Json, prefix: string, p: string)
    requires p in Collect(v, prefix)
    ensures p != ""
    decreases v
  {
    if !Pathless(v) {
      if v.Arr? {
        var k := ItemOf(v, 0, prefix, p);
        PathsAreTexts(v.items[k], Indexed(prefix, k), p);
      } else {
        var k := FieldOf(v, 0, prefix, p);
        PathsAreTexts(v.fields[k].value, Joined(prefix, v.fields[k].key), p);
      }
    }
  }

  // Wherever the value stands and whatever the keys: a change of it goes
  // unreported exactly when no leaf path of the tree reads back to it or to
  // something around it.
  lemma ChangeHidesExactly(v: Json, steps: seq<nat>, x: Json, y: Json, le: (string, string) -> bool)
    requires Order(le) && WellFormed(v) && Place(v, steps) && x.Leaf? && y.Leaf? && x != y
    ensures var a, b := Put(v, steps, x), Put(v, steps, y);
            && !Equal(a, b)
            && (NoDiffs(a, b, le) <==> forall p :: p in Collect(a, "") ==> !Leads(v, steps, Segments(p)))
  {
    var a, b := Put(v, steps, x), Put(v, steps, y);
    PutDiffers(v, steps, x, y);
    PutIsWellFormed(v, steps, x);
    PutIsWellFormed(v, steps, y);
    PutCollectsAlike(v, steps, x, y, "");
    forall p | p in Collect(a, "")
      ensures Reported(a, b, le, DiffAt(a, b, p)) <==> Leads(v, steps, Segments(p))
    {
      PathsAreTexts(a, "", p);
      WalkOfPut(v, steps, x, y, Segments(p));
      WalkIsProper(Some(a), Segments(p));
      WalkIsProper(Some(b), Segments(p));
      SameValueMeansSame(AtPath(Some(a), p), AtPath(Some(b), p), le);
    }
    if NoDiffs(a, b, le) {
      forall p | p in Collect(a, "")
        ensures !Leads(v, steps, Segments(p))
      {
        assert !Reported(a, b, le, DiffAt(a, b, p));
      }
    } else {
      var d :| Reported(a, b, le, d);
      assert d == DiffAt(a, b, d.path);
    }
  }
}
