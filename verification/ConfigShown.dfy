/** What the diff of two whole configurations shows: exactly when it is empty,
    said of their parts. */
module ConfigShown {
  import opened Wrappers
  import opened Sorting
  import opened ConfigDiff
  import opened ConfigCanonical

  /* ---- A stable form is equal to what it is made of ---- */

  lemma StableFieldsAre(v: Json, le: (string, string) -> bool)
    requires Order(le) && v.Obj? && DistinctKeys(v.fields)
    ensures var t := Stable(v, le).fields;
            && DistinctKeys(t)
            && (forall f :: f in t <==> f in StableFields(v, le))
  {
    assert DistinctKeys(StableFields(v, le));
    SortedFields(StableFields(v, le), le);
  }

  lemma {:induction false} StableIsEqual(v: Json, le: (string, string) -> bool)
    requires Order(le) && WellFormed(v)
    ensures WellFormed(Stable(v, le)) && Equal(v, Stable(v, le))
    decreases v
  {
    match v
    case Leaf(_) =>
    case Arr(items) =>
      forall i | 0 <= i < |items|
        ensures WellFormed(Stable(items[i], le)) && Equal(items[i], Stable(items[i], le))
      {
        StableIsEqual(items[i], le);
      }
    case Obj(fields) =>
      forall i | 0 <= i < |fields|
        ensures WellFormed(Stable(fields[i].value, le)) && Equal(fields[i].value, Stable(fields[i].value, le))
      {
        StableIsEqual(fields[i].value, le);
      }
      StableObject(v, le);
  }

  lemma StableObject(v: Json, le: (string, string) -> bool)
    requires Order(le) && WellFormed(v) && v.Obj?
    requires forall i :: 0 <= i < |v.fields| ==>
               WellFormed(Stable(v.fields[i].value, le)) && Equal(v.fields[i].value, Stable(v.fields[i].value, le))
    ensures WellFormed(Stable(v, le)) && Equal(v, Stable(v, le))
  {
    var s, t := StableFields(v, le), Stable(v, le).fields;
    StableFieldsAre(v, le);
    forall j | 0 <= j < |t|
      ensures exists i :: 0 <= i < |s| && t[j] == s[i]
    {
      assert t[j] in s;
    }
    forall i | 0 <= i < |v.fields|
      ensures HasKey(t, v.fields[i].key)
    {
      assert s[i] in t;
      var j :| 0 <= j < |t| && t[j] == s[i];
    }
    forall j | 0 <= j < |t|
      ensures HasKey(v.fields, t[j].key)
    {
      var i :| 0 <= i < |s| && t[j] == s[i];
      assert v.fields[i].key == t[j].key;
    }
    forall i, j | 0 <= i < |v.fields| && 0 <= j < |t| && v.fields[i].key == t[j].key
      ensures Equal(v.fields[i].value, t[j].value)
    {
      var k :| 0 <= k < |s| && t[j] == s[k];
      assert k == i;
    }
  }

  lemma StableTwice(v: Json, le: (string, string) -> bool)
    requires Order(le) && WellFormed(v)
    ensures Stable(Stable(v, le), le) == Stable(v, le)
  {
    StableIsEqual(v, le);
    SameValueIsEqual(v, Stable(v, le), le);
  }

  // Stable forms are equal up to key order only where they are the same.
  lemma StablesAreEqual(v: Json, w: Json, le: (string, string) -> bool)
    requires Order(le) && WellFormed(v) && WellFormed(w)
    ensures Equal(Stable(v, le), Stable(w, le)) <==> Stable(v, le) == Stable(w, le)
  {
    StableIsEqual(v, le);
    StableIsEqual(w, le);
    SameValueIsEqual(Stable(v, le), Stable(w, le), le);
    StableTwice(v, le);
    StableTwice(w, le);
  }

  lemma {:induction false} PlainThrough(a: Json, b: Json)
    requires Equal(a, b) && PlainKeys(a)
    ensures PlainKeys(b)
    decreases a
  {
    match a
    case Leaf(_) =>
    case Arr(items) =>
      forall i | 0 <= i < |items|
        ensures PlainKeys(b.items[i])
      {
        PlainThrough(items[i], b.items[i]);
      }
    case Obj(fields) =>
      forall j | 0 <= j < |b.fields|
        ensures Plain(b.fields[j].key) && PlainKeys(b.fields[j].value)
      {
        var i :| 0 <= i < |fields| && fields[i].key == b.fields[j].key;
        PlainThrough(fields[i].value, b.fields[j].value);
      }
  }

  lemma {:induction false} ClashTurns(a: Json, b: Json)
    requires NoClash(a, b)
    ensures NoClash(b, a)
    decreases a
  {
    match (a, b)
    case (Arr(x), Arr(y)) =>
      forall i | 0 <= i < |x| && i < |y|
        ensures NoClash(y[i], x[i])
      {
        ClashTurns(x[i], y[i]);
      }
    case (Obj(x), Obj(y)) =>
      forall i, j | 0 <= i < |x| && 0 <= j < |y| && x[i].key == y[j].key
        ensures NoClash(y[j].value, x[i].value)
      {
        ClashTurns(x[i].value, y[j].value);
      }
    case _ =>
  }

  lemma {:induction false} ClashThrough(a: Json, b: Json, c: Json)
    requires Equal(a, b) && NoClash(a, c)
    ensures NoClash(b, c)
    decreases a
  {
    match (a, c)
    case (Arr(x), Arr(z)) =>
      forall i | 0 <= i < |b.items| && i < |z|
        ensures NoClash(b.items[i], z[i])
      {
        ClashThrough(x[i], b.items[i], z[i]);
      }
    case (Obj(x), Obj(z)) =>
      forall j, k | 0 <= j < |b.fields| && 0 <= k < |z| && b.fields[j].key == z[k].key
        ensures NoClash(b.fields[j].value, z[k].value)
      {
        var i :| 0 <= i < |x| && x[i].key == b.fields[j].key;
        ClashThrough(x[i].value, b.fields[j].value, z[k].value);
      }
    case _ =>
  }

  lemma StablesDoNotClash(v: Json, w: Json, le: (string, string) -> bool)
    requires Order(le) && WellFormed(v) && WellFormed(w) && NoClash(v, w)
    ensures NoClash(Stable(v, le), Stable(w, le))
  {
    StableIsEqual(v, le);
    StableIsEqual(w, le);
    ClashThrough(v, Stable(v, le), w);
    ClashTurns(Stable(v, le), w);
    ClashThrough(w, Stable(w, le), Stable(v, le));
    ClashTurns(Stable(w, le), Stable(v, le));
  }

  /* ---- Lists that are sorted by id ---- */

  // The entries with an id, in order.
  function WithId(items: seq<Item>, id: string): seq<Item> {
    if items == [] then [] else (if items[0].id == id then [items[0]] else []) + WithId(items[1..], id)
  }

  predicate SameEntries(a: seq<Item>, b: seq<Item>) {
    |a| == |b| && forall i :: 0 <= i < |a| ==> Equal(Whole(a[i]), Whole(b[i]))
  }

  // For every id the same entries, up to key order, in the same order.
  ghost predicate SameById(a: seq<Item>, b: seq<Item>) {
    forall id :: SameEntries(WithId(a, id), WithId(b, id))
  }

  predicate AllProper(items: seq<Item>) { forall x :: x in items ==> ProperItem(x) }

  lemma {:induction false} InsertIsStable(x: Item, s: seq<Item>, l: Locale, id: string)
    requires Sound(l)
    ensures WithId(Insert(x, s, ById(l)), id) == WithId([x] + s, id)
    decreases s
  {
    assert ([x] + s)[1..] == s;
    if s != [] && !ById(l)(x, s[0]) {
      var t := Insert(x, s[1..], ById(l));
      assert ([s[0]] + t)[1..] == t && ([x] + s[1..])[1..] == s[1..];
      InsertIsStable(x, s[1..], l, id);
      assert l.le(x.id, x.id);
    }
  }

  lemma {:induction false} SortIsStable(s: seq<Item>, l: Locale, id: string)
    requires Sound(l)
    ensures WithId(Sort(s, ById(l)), id) == WithId(s, id)
  {
    if s != [] {
      var t := Sort(s[1..], ById(l));
      SortIsStable(s[1..], l, id);
      InsertIsStable(s[0], t, l, id);
      assert ([s[0]] + t)[1..] == t;
    }
  }

  lemma IdIsCompared(x: Item, y: Item)
    requires ProperItem(x) && ProperItem(y) && Equal(Whole(x), Whole(y))
    ensures x.id == y.id
  {
    var a, b := Whole(x).fields, Whole(y).fields;
    assert a[0].key == b[0].key;
    assert Equal(a[0].value, b[0].value);
  }

  lemma {:induction false} SameEntriesById(a: seq<Item>, b: seq<Item>, id: string)
    requires AllProper(a) && AllProper(b) && SameEntries(a, b)
    ensures SameEntries(WithId(a, id), WithId(b, id))
  {
    if a != [] {
      IdIsCompared(a[0], b[0]);
      SameEntriesById(a[1..], b[1..], id);
    }
  }

  lemma {:induction false} SomeWithId(s: seq<Item>, x: Item)
    requires x in s
    ensures WithId(s, x.id) != []
  {
    if s[0].id != x.id {
      SomeWithId(s[1..], x);
    }
  }

  lemma {:induction false} WithIdIsIn(s: seq<Item>, id: string)
    ensures forall x :: x in WithId(s, id) ==> x in s && x.id == id
  {
    if s != [] {
      WithIdIsIn(s[1..], id);
    }
  }

  // The first of a sorted list has the least id.
  lemma LeastId(a: seq<Item>, b: seq<Item>, l: Locale)
    requires Sound(l) && a != [] && SortedBy(a, ById(l)) && SameById(a, b)
    ensures b != [] && exists y :: y in b && y.id == a[0].id
  {
    SomeWithId(a, a[0]);
    assert SameEntries(WithId(a, a[0].id), WithId(b, a[0].id));
    WithIdIsIn(b, a[0].id);
    var y := WithId(b, a[0].id)[0];
    assert y in WithId(b, a[0].id);
  }

  lemma FirstIsLeastOf(a: seq<Item>, y: Item, l: Locale)
    requires Sound(l) && a != [] && SortedBy(a, ById(l)) && y in a
    ensures l.le(a[0].id, y.id)
  {
    var i :| 0 <= i < |a| && a[i] == y;
    if i > 0 {
      assert ById(l)(a[0], a[i]);
    }
  }

  lemma FirstsAreSame(a: seq<Item>, b: seq<Item>, l: Locale)
    requires Sound(l) && a != [] && SortedBy(a, ById(l)) && SortedBy(b, ById(l)) && SameById(a, b) && SameById(b, a)
    ensures b != [] && a[0].id == b[0].id && Equal(Whole(a[0]), Whole(b[0]))
  {
    LeastId(a, b, l);
    LeastId(b, a, l);
    var y :| y in b && y.id == a[0].id;
    var x :| x in a && x.id == b[0].id;
    FirstIsLeastOf(b, y, l);
    FirstIsLeastOf(a, x, l);
    assert SameEntries(WithId(a, a[0].id), WithId(b, a[0].id));
    assert WithId(a, a[0].id)[0] == a[0] && WithId(b, a[0].id)[0] == b[0];
  }

  lemma TailsAreSame(a: seq<Item>, b: seq<Item>)
    requires a != [] && b != [] && a[0].id == b[0].id && SameById(a, b)
    ensures SameById(a[1..], b[1..])
  {
    forall id
      ensures SameEntries(WithId(a[1..], id), WithId(b[1..], id))
    {
      var x, y := WithId(a, id), WithId(b, id);
      assert SameEntries(x, y);
      if a[0].id == id {
        var u, v := WithId(a[1..], id), WithId(b[1..], id);
        assert x == [a[0]] + u && y == [b[0]] + v;
        forall i | 0 <= i < |u|
          ensures Equal(Whole(u[i]), Whole(v[i]))
        {
          assert Equal(Whole(x[i + 1]), Whole(y[i + 1]));
        }
      } else {
        assert x == WithId(a[1..], id) && y == WithId(b[1..], id);
      }
    }
  }

  lemma {:induction false} SortedAreSame(a: seq<Item>, b: seq<Item>, l: Locale)
    requires Sound(l) && SortedBy(a, ById(l)) && SortedBy(b, ById(l)) && SameById(a, b) && SameById(b, a)
    ensures SameEntries(a, b)
  {
    if a == [] {
      if b != [] {
        LeastId(b, a, l);
      }
    } else {
      FirstsAreSame(a, b, l);
      TailsAreSame(a, b);
      TailsAreSame(b, a);
      SortedAreSame(a[1..], b[1..], l);
    }
  }

  lemma SameTurns(a: seq<Item>, b: seq<Item>, l: Locale)
    requires Sound(l) && AllProper(a) && AllProper(b) && SameById(a, b)
    ensures SameById(b, a)
  {
    forall id
      ensures SameEntries(WithId(b, id), WithId(a, id))
    {
      var x, y := WithId(a, id), WithId(b, id);
      assert SameEntries(x, y);
      WithIdIsIn(a, id);
      WithIdIsIn(b, id);
      forall i | 0 <= i < |y|
        ensures Equal(Whole(y[i]), Whole(x[i]))
      {
        assert x[i] in x && y[i] in y;
        SameValueIsEqual(Whole(x[i]), Whole(y[i]), l.le);
        SameValueIsEqual(Whole(y[i]), Whole(x[i]), l.le);
      }
    }
  }

  lemma SortKeepsProper(a: seq<Item>, l: Locale)
    requires Sound(l) && AllProper(a)
    ensures SortedBy(Sort(a, ById(l)), ById(l)) && AllProper(Sort(a, ById(l)))
  {
    IdsAreOrdered(l);
    SortSorts(a, ById(l));
    forall x | x in Sort(a, ById(l))
      ensures ProperItem(x)
    {
      assert x in multiset(Sort(a, ById(l)));
      assert x in a;
    }
  }

  // Two lists are compared the same, sorted by id, exactly when for every id
  // they hold the same entries in the same order.
  lemma SortedByIdExactly(a: seq<Item>, b: seq<Item>, l: Locale)
    requires Sound(l) && AllProper(a) && AllProper(b)
    ensures Equal(Arr(CanonicalById(a, l)), Arr(CanonicalById(b, l))) <==> SameById(a, b)
  {
    var s, t := Sort(a, ById(l)), Sort(b, ById(l));
    SortKeepsProper(a, l);
    SortKeepsProper(b, l);
    forall id
      ensures WithId(s, id) == WithId(a, id) && WithId(t, id) == WithId(b, id)
    {
      SortIsStable(a, l, id);
      SortIsStable(b, l, id);
    }
    assert Equal(Arr(CanonicalById(a, l)), Arr(CanonicalById(b, l))) <==> SameEntries(s, t);
    if SameEntries(s, t) {
      forall id
        ensures SameEntries(WithId(a, id), WithId(b, id))
      {
        SameEntriesById(s, t, id);
      }
    }
    if SameById(a, b) {
      SameTurns(a, b, l);
      assert SameById(s, t) && SameById(t, s);
      SortedAreSame(s, t, l);
    }
  }

  /* ---- Configurations ---- */

  const BASIC_KEYS: set<string> := {"socks", "shuntRules"}
  const PART_KEYS: set<string> := {"basicSettings", "nodes", "subscriptions", "ruleManage"}

  predicate ItemsPlain(items: seq<Item>) { forall x :: x in items ==> PlainKeys(Whole(x)) }

  // Nowhere an array in an entry of one list and an object in one of the other.
  predicate ItemsOfOneShape(a: seq<Item>, b: seq<Item>) {
    forall x, y :: x in a && y in b ==> NoClash(Whole(x), Whole(y))
  }

  predicate HasNone(fields: seq<Field>, keys: set<string>) {
    WellFormed(Obj(fields)) && forall i :: 0 <= i < |fields| ==> fields[i].key !in keys
  }

  // Objects with distinct keys, those of the four parts not among the others.
  predicate ProperConfig(c: Config) {
    && HasNone(c.rest, PART_KEYS)
    && HasNone(c.basicRest, BASIC_KEYS)
    && HasNone(c.subscriptionRest, {"items"})
    && HasNone(c.ruleRest, {"shuntRules"})
    && AllProper(c.socks) && AllProper(c.basicRules) && AllProper(c.nodes) && AllProper(c.subscriptions) && AllProper(c.managedRules)
  }

  // Keys that a path can carry.
  predicate PlainConfig(c: Config) {
    && PlainKeys(Obj(c.rest)) && PlainKeys(Obj(c.basicRest)) && PlainKeys(Obj(c.subscriptionRest)) && PlainKeys(Obj(c.ruleRest))
    && ItemsPlain(c.socks) && ItemsPlain(c.basicRules) && ItemsPlain(c.nodes) && ItemsPlain(c.subscriptions) && ItemsPlain(c.managedRules)
  }

  predicate OneShape(c: Config, d: Config) {
    && NoClash(Obj(c.rest), Obj(d.rest)) && NoClash(Obj(c.basicRest), Obj(d.basicRest))
    && NoClash(Obj(c.subscriptionRest), Obj(d.subscriptionRest)) && NoClash(Obj(c.ruleRest), Obj(d.ruleRest))
    && ItemsOfOneShape(c.socks, d.socks) && ItemsOfOneShape(c.basicRules, d.basicRules) && ItemsOfOneShape(c.nodes, d.nodes)
    && ItemsOfOneShape(c.subscriptions, d.subscriptions) && ItemsOfOneShape(c.managedRules, d.managedRules)
  }

  lemma {:induction false} UnbracketedIsPlain(key: string)
    requires '[' !in key
    ensures Dotted(key) == key
  {
    if key != "" {
      UnbracketedIsPlain(key[1..]);
    }
  }

  // One more field on either side, under the same key.
  lemma OneMore(a: seq<Field>, f: Field, b: seq<Field>, g: Field)
    requires f.key == g.key && '[' !in f.key && '.' !in f.key && f.key != ""
    requires HasNone(a, {f.key}) && HasNone(b, {g.key})
    requires Comparable(Obj(a), Obj(b)) && Comparable(f.value, g.value)
    ensures Comparable(Obj(a + [f]), Obj(b + [g]))
    ensures Equal(Obj(a + [f]), Obj(b + [g])) <==> Equal(Obj(a), Obj(b)) && Equal(f.value, g.value)
  {
    UnbracketedIsPlain(f.key);
    OneMoreEqual(a, f, b, g);
    var x, y := a + [f], b + [g];
    forall i, j | 0 <= i < |x| && 0 <= j < |y| && x[i].key == y[j].key
      ensures NoClash(x[i].value, y[j].value)
    {
      assert i < |a| <==> j < |b|;
    }
  }

  lemma OneMoreEqual(a: seq<Field>, f: Field, b: seq<Field>, g: Field)
    requires f.key == g.key && HasNone(a, {f.key}) && HasNone(b, {g.key})
    ensures Equal(Obj(a + [f]), Obj(b + [g])) <==> Equal(Obj(a), Obj(b)) && Equal(f.value, g.value)
  {
    var x, y := a + [f], b + [g];
    forall key
      ensures HasKey(x, key) <==> HasKey(a, key) || key == f.key
      ensures HasKey(y, key) <==> HasKey(b, key) || key == g.key
    {
      OneMoreKey(a, f, key);
      OneMoreKey(b, g, key);
    }
    if Equal(Obj(x), Obj(y)) {
      forall i | 0 <= i < |a|
        ensures HasKey(b, a[i].key)
      {
        assert HasKey(y, x[i].key);
      }
      forall j | 0 <= j < |b|
        ensures HasKey(a, b[j].key)
      {
        assert HasKey(x, y[j].key);
      }
      forall i, j | 0 <= i < |a| && 0 <= j < |b| && a[i].key == b[j].key
        ensures Equal(a[i].value, b[j].value)
      {
        assert x[i].key == y[j].key;
      }
      assert x[|a|].key == y[|b|].key;
    }
    if Equal(Obj(a), Obj(b)) && Equal(f.value, g.value) {
      assert SameKeys(x, y);
      forall i, j | 0 <= i < |x| && 0 <= j < |y| && x[i].key == y[j].key
        ensures Equal(x[i].value, y[j].value)
      {
        assert i < |a| <==> j < |b|;
      }
    }
  }

  lemma OneMoreKey(a: seq<Field>, f: Field, key: string)
    ensures HasKey(a + [f], key) <==> HasKey(a, key) || key == f.key
  {
    var x := a + [f];
    if HasKey(a, key) {
      var i :| 0 <= i < |a| && a[i].key == key;
      assert x[i].key == key;
    }
    assert x[|a|] == f;
  }

  predicate WholeOf(v: Json, a: seq<Item>) { exists x :: x in a && v == Whole(x) }

  lemma SortedHolds(a: seq<Item>, l: Locale)
    requires Sound(l)
    ensures var s := CanonicalById(a, l); forall i :: 0 <= i < |s| ==> WholeOf(s[i], a)
  {
    var t := Sort(a, ById(l));
    IdsAreOrdered(l);
    SortSorts(a, ById(l));
    forall i | 0 <= i < |t|
      ensures t[i] in a
    {
      assert t[i] in multiset(t);
    }
  }

  // A list sorted by id, on either side.
  lemma ByIdFits(a: seq<Item>, b: seq<Item>, l: Locale)
    requires Sound(l) && AllProper(a) && AllProper(b) && ItemsPlain(a) && ItemsPlain(b) && ItemsOfOneShape(a, b)
    ensures var x, y := Arr(CanonicalById(a, l)), Arr(CanonicalById(b, l)); Comparable(x, y) && (Equal(x, y) <==> SameById(a, b))
  {
    SortedByIdExactly(a, b, l);
    SortedHolds(a, l);
    SortedHolds(b, l);
    ListFits(CanonicalById(a, l), a, CanonicalById(b, l), b);
  }

  lemma ListFits(s: seq<Json>, a: seq<Item>, t: seq<Json>, b: seq<Item>)
    requires AllProper(a) && AllProper(b) && ItemsPlain(a) && ItemsPlain(b) && ItemsOfOneShape(a, b)
    requires forall i :: 0 <= i < |s| ==> WholeOf(s[i], a)
    requires forall i :: 0 <= i < |t| ==> WholeOf(t[i], b)
    ensures Comparable(Arr(s), Arr(t))
  {
    forall i | 0 <= i < |s| && i < |t|
      ensures NoClash(s[i], t[i])
    {
      assert WholeOf(s[i], a) && WholeOf(t[i], b);
      var x :| x in a && s[i] == Whole(x);
      var y :| y in b && t[i] == Whole(y);
    }
  }

  // What a node or subscription is compared by, before its keys are sorted.
  function Base(x: Item, k: Kind): Json { if IdCounts(x, k) then Whole(x) else Obj(x.rest) }

  lemma BasesFit(x: Item, y: Item, k: Kind)
    requires ProperItem(x) && ProperItem(y) && PlainKeys(Whole(x)) && PlainKeys(Whole(y)) && NoClash(Whole(x), Whole(y))
    ensures Comparable(Base(x, k), Base(y, k))
  {
    NoIdAmongTheRest(x);
    NoIdAmongTheRest(y);
    assert forall i :: 0 <= i < |x.rest| ==> x.rest[i] == Whole(x).fields[i + 1];
    assert forall j :: 0 <= j < |y.rest| ==> y.rest[j] == Whole(y).fields[j + 1];
  }

  lemma ValuesFit(x: Item, y: Item, k: Kind, l: Locale)
    requires Sound(l) && ProperItem(x) && ProperItem(y) && PlainKeys(Whole(x)) && PlainKeys(Whole(y)) && NoClash(Whole(x), Whole(y))
    ensures Comparable(Value(x, k, l), Value(y, k, l))
    ensures Equal(Value(x, k, l), Value(y, k, l)) <==> Value(x, k, l) == Value(y, k, l)
  {
    BasesFit(x, y, k);
    StableIsEqual(Base(x, k), l.le);
    StableIsEqual(Base(y, k), l.le);
    PlainThrough(Base(x, k), Value(x, k, l));
    PlainThrough(Base(y, k), Value(y, k, l));
    StablesDoNotClash(Base(x, k), Base(y, k), l.le);
    StablesAreEqual(Base(x, k), Base(y, k), l.le);
  }

  lemma FormIsOfItems(items: seq<Item>, k: Kind, l: Locale, i: nat) returns (x: Item)
    requires Sound(l) && i < |Canonical(items, k, l)|
    ensures x in items && Canonical(items, k, l)[i] == Value(x, k, l)
  {
    FormHoldsTheValues(items, k, l);
    var v := Canonical(items, k, l)[i];
    assert v in multiset(Canonical(items, k, l));
    assert v in Values(items, k, l);
    var j :| 0 <= j < |Values(items, k, l)| && Values(items, k, l)[j] == v;
    x := items[j];
  }

  // A list of nodes or subscriptions, on either side.
  lemma ValuesListFits(a: seq<Item>, b: seq<Item>, k: Kind, l: Locale)
    requires Sound(l) && AllProper(a) && AllProper(b) && ItemsPlain(a) && ItemsPlain(b) && ItemsOfOneShape(a, b)
    ensures var x, y := Arr(Canonical(a, k, l)), Arr(Canonical(b, k, l));
            Comparable(x, y) && (Equal(x, y) <==> multiset(Values(a, k, l)) == multiset(Values(b, k, l)))
  {
    var s, t := Canonical(a, k, l), Canonical(b, k, l);
    forall i, j | 0 <= i < |s| && 0 <= j < |t|
      ensures Comparable(s[i], t[j]) && (Equal(s[i], t[j]) <==> s[i] == t[j])
    {
      var x := FormIsOfItems(a, k, l, i);
      var y := FormIsOfItems(b, k, l, j);
      ValuesFit(x, y, k, l);
    }
    forall i | 0 <= i < |s|
      ensures WellFormed(s[i]) && PlainKeys(s[i])
    {
      var x := FormIsOfItems(a, k, l, i);
      ValueIsPlain(x, k, l);
    }
    forall j | 0 <= j < |t|
      ensures WellFormed(t[j]) && PlainKeys(t[j])
    {
      var y := FormIsOfItems(b, k, l, j);
      ValueIsPlain(y, k, l);
    }
    assert Equal(Arr(s), Arr(t)) <==> s == t;
    FormIsTheMultiset(a, b, k, l);
  }

  lemma ValueIsPlain(x: Item, k: Kind, l: Locale)
    requires Sound(l) && ProperItem(x) && PlainKeys(Whole(x))
    ensures WellFormed(Value(x, k, l)) && PlainKeys(Value(x, k, l))
  {
    NoIdAmongTheRest(x);
    assert forall i :: 0 <= i < |x.rest| ==> x.rest[i] == Whole(x).fields[i + 1];
    StableIsEqual(Base(x, k), l.le);
    PlainThrough(Base(x, k), Value(x, k, l));
  }

  predicate Simple(key: string) { key != "" && '[' !in key && '.' !in key }

  // Two objects in the making, without these keys yet.
  predicate Even(a: seq<Field>, b: seq<Field>, keys: set<string>) {
    HasNone(a, keys) && HasNone(b, keys) && Comparable(Obj(a), Obj(b))
  }

  lemma GrowsEvenly(a: seq<Field>, b: seq<Field>, keys: set<string>, key: string, x: Json, y: Json)
    requires Even(a, b, keys) && key in keys && Simple(key) && Comparable(x, y)
    ensures var v, w := a + [Field(key, x)], b + [Field(key, y)];
            && Even(v, w, keys - {key})
            && (Equal(Obj(v), Obj(w)) <==> Equal(Obj(a), Obj(b)) && Equal(x, y))
  {
    OneMore(a, Field(key, x), b, Field(key, y));
  }

  lemma TwoMore(a: seq<Field>, b: seq<Field>, keys: set<string>, k: string, m: string, x: seq<Json>, y: seq<Json>)
    requires Even(a, b, keys) && k in keys && m in keys && k != m && Simple(k) && Simple(m)
    requires |x| == |y| == 2 && Comparable(x[0], y[0]) && Comparable(x[1], y[1])
    ensures var v, w := a + [Field(k, x[0])] + [Field(m, x[1])], b + [Field(k, y[0])] + [Field(m, y[1])];
            && Even(v, w, keys - {k} - {m})
            && (Equal(Obj(v), Obj(w)) <==> Equal(Obj(a), Obj(b)) && Equal(x[0], y[0]) && Equal(x[1], y[1]))
  {
    GrowsEvenly(a, b, keys, k, x[0], y[0]);
    GrowsEvenly(a + [Field(k, x[0])], b + [Field(k, y[0])], keys - {k}, m, x[1], y[1]);
  }

  lemma KeysAreSimple()
    ensures Simple("socks") && Simple("shuntRules") && Simple("items")
    ensures Simple("basicSettings") && Simple("nodes") && Simple("subscriptions") && Simple("ruleManage")
  {
  }

  lemma KeysAreApart()
    ensures "socks" != "shuntRules" && "basicSettings" != "nodes" && "subscriptions" != "ruleManage"
    ensures "subscriptions" in PART_KEYS - {"basicSettings"} - {"nodes"} && "ruleManage" in PART_KEYS - {"basicSettings"} - {"nodes"}
  {
    assert "socks"[1] == 'o' && "shuntRules"[1] == 'h';
    assert "basicSettings"[0] == 'b' && "nodes"[0] == 'n' && "subscriptions"[0] == 's' && "ruleManage"[0] == 'r';
  }

  lemma BasicFits(c: Config, d: Config, l: Locale)
    requires Sound(l) && ProperConfig(c) && ProperConfig(d) && PlainConfig(c) && PlainConfig(d) && OneShape(c, d)
    ensures var x, y := BasicForDiff(c, l), BasicForDiff(d, l);
            Comparable(x, y) && (Equal(x, y) <==>
              Equal(Obj(c.basicRest), Obj(d.basicRest)) && SameById(c.socks, d.socks) && SameById(c.basicRules, d.basicRules))
  {
    ByIdFits(c.socks, d.socks, l);
    ByIdFits(c.basicRules, d.basicRules, l);
    KeysAreSimple();
    KeysAreApart();
    TwoMore(c.basicRest, d.basicRest, BASIC_KEYS, "socks", "shuntRules",
            [Arr(CanonicalById(c.socks, l)), Arr(CanonicalById(c.basicRules, l))],
            [Arr(CanonicalById(d.socks, l)), Arr(CanonicalById(d.basicRules, l))]);
  }

  lemma SubscriptionsFit(c: Config, d: Config, l: Locale)
    requires Sound(l) && ProperConfig(c) && ProperConfig(d) && PlainConfig(c) && PlainConfig(d) && OneShape(c, d)
    ensures var x, y := SubscriptionsForDiff(c, l), SubscriptionsForDiff(d, l);
            Comparable(x, y) && (Equal(x, y) <==>
              && Equal(Obj(c.subscriptionRest), Obj(d.subscriptionRest))
              && multiset(Values(c.subscriptions, Subscriptions, l)) == multiset(Values(d.subscriptions, Subscriptions, l)))
  {
    ValuesListFits(c.subscriptions, d.subscriptions, Subscriptions, l);
    KeysAreSimple();
    GrowsEvenly(c.subscriptionRest, d.subscriptionRest, {"items"}, "items",
                Arr(Canonical(c.subscriptions, Subscriptions, l)), Arr(Canonical(d.subscriptions, Subscriptions, l)));
  }

  lemma RulesFit(c: Config, d: Config, l: Locale)
    requires Sound(l) && ProperConfig(c) && ProperConfig(d) && PlainConfig(c) && PlainConfig(d) && OneShape(c, d)
    ensures var x, y := RulesForDiff(c, l), RulesForDiff(d, l);
            Comparable(x, y) && (Equal(x, y) <==> Equal(Obj(c.ruleRest), Obj(d.ruleRest)) && SameById(c.managedRules, d.managedRules))
  {
    ByIdFits(c.managedRules, d.managedRules, l);
    KeysAreSimple();
    GrowsEvenly(c.ruleRest, d.ruleRest, {"shuntRules"}, "shuntRules",
                Arr(CanonicalById(c.managedRules, l)), Arr(CanonicalById(d.managedRules, l)));
  }

  lemma FormsFit(c: Config, d: Config, l: Locale)
    requires Sound(l) && ProperConfig(c) && ProperConfig(d) && PlainConfig(c) && PlainConfig(d) && OneShape(c, d)
    ensures var v, w := ConfigForDiff(c, l), ConfigForDiff(d, l);
            Comparable(v, w) && (Equal(v, w) <==>
              && Equal(Obj(c.rest), Obj(d.rest)) && Equal(BasicForDiff(c, l), BasicForDiff(d, l))
              && Equal(Arr(Canonical(c.nodes, Nodes, l)), Arr(Canonical(d.nodes, Nodes, l)))
              && Equal(SubscriptionsForDiff(c, l), SubscriptionsForDiff(d, l)) && Equal(RulesForDiff(c, l), RulesForDiff(d, l)))
  {
    BasicFits(c, d, l);
    ValuesListFits(c.nodes, d.nodes, Nodes, l);
    SubscriptionsFit(c, d, l);
    RulesFit(c, d, l);
    FourMore(c.rest, d.rest,
             [BasicForDiff(c, l), Arr(Canonical(c.nodes, Nodes, l))], [BasicForDiff(d, l), Arr(Canonical(d.nodes, Nodes, l))],
             [SubscriptionsForDiff(c, l), RulesForDiff(c, l)], [SubscriptionsForDiff(d, l), RulesForDiff(d, l)]);
  }

  lemma FourMore(a: seq<Field>, b: seq<Field>, x: seq<Json>, y: seq<Json>, u: seq<Json>, v: seq<Json>)
    requires Even(a, b, PART_KEYS) && |x| == |y| == |u| == |v| == 2
    requires Comparable(x[0], y[0]) && Comparable(x[1], y[1]) && Comparable(u[0], v[0]) && Comparable(u[1], v[1])
    ensures var p := a + [Field("basicSettings", x[0])] + [Field("nodes", x[1])];
            var q := b + [Field("basicSettings", y[0])] + [Field("nodes", y[1])];
            var r := Obj(p + [Field("subscriptions", u[0])] + [Field("ruleManage", u[1])]);
            var t := Obj(q + [Field("subscriptions", v[0])] + [Field("ruleManage", v[1])]);
            && Comparable(r, t)
            && (Equal(r, t) <==> Equal(Obj(a), Obj(b)) && Equal(x[0], y[0]) && Equal(x[1], y[1]) && Equal(u[0], v[0]) && Equal(u[1], v[1]))
  {
    KeysAreSimple();
    KeysAreApart();
    var p := a + [Field("basicSettings", x[0])] + [Field("nodes", x[1])];
    var q := b + [Field("basicSettings", y[0])] + [Field("nodes", y[1])];
    TwoMore(a, b, PART_KEYS, "basicSettings", "nodes", x, y);
    TwoMore(p, q, PART_KEYS - {"basicSettings"} - {"nodes"}, "subscriptions", "ruleManage", u, v);
  }

  // The diff of two configurations is empty exactly when socks and both lists of
  // rules hold, for every id, the same entries in the same order, nodes and
  // subscriptions the same values as often, and all the rest is equal; up to the
  // order of keys. So every real change is reported, and nothing else.
  lemma NoDiffsExactly(c: Config, d: Config, l: Locale)
    requires Sound(l) && ProperConfig(c) && ProperConfig(d) && PlainConfig(c) && PlainConfig(d) && OneShape(c, d)
    ensures NoDiffs(ConfigForDiff(c, l), ConfigForDiff(d, l), l.le) <==>
              && SameById(c.socks, d.socks) && SameById(c.basicRules, d.basicRules) && SameById(c.managedRules, d.managedRules)
              && multiset(Values(c.nodes, Nodes, l)) == multiset(Values(d.nodes, Nodes, l))
              && multiset(Values(c.subscriptions, Subscriptions, l)) == multiset(Values(d.subscriptions, Subscriptions, l))
              && Equal(Obj(c.basicRest), Obj(d.basicRest)) && Equal(Obj(c.subscriptionRest), Obj(d.subscriptionRest))
              && Equal(Obj(c.ruleRest), Obj(d.ruleRest)) && Equal(Obj(c.rest), Obj(d.rest))
  {
    FormsFit(c, d, l);
    BasicFits(c, d, l);
    ValuesListFits(c.nodes, d.nodes, Nodes, l);
    SubscriptionsFit(c, d, l);
    RulesFit(c, d, l);
    EmptyDiffIsEqual(ConfigForDiff(c, l), ConfigForDiff(d, l), l.le);
    assert !Pathless(ConfigForDiff(c, l));
  }

  /* ---- What is compared of a node or a subscription ---- */

  // A subscription brought the node: its extras say mode 2, in one spelling or
  // the other.
  ghost predicate BroughtBySubscription(x: Item) {
    exists i, j :: 0 <= i < |x.rest| && x.rest[i].key == "extras" && x.rest[i].value.Obj? &&
                   0 <= j < |x.rest[i].value.fields| && SaysTwo(x.rest[i].value.fields[j])
  }

  predicate SaysTwo(f: Field) {
    (f.key == "add_mode" || f.key == "addMode") && (f.value == Leaf(Str("2")) || f.value == Leaf(Num(2.0)))
  }

  lemma ManagedExactly(x: Item)
    requires ProperItem(x)
    ensures Managed(x) <==> BroughtBySubscription(x)
  {
    NoIdAmongTheRest(x);
    if HasKey(x.rest, "extras") {
      var i :| 0 <= i < |x.rest| && x.rest[i].key == "extras";
      FindsField(x.rest, i);
      if x.rest[i].value.Obj? {
        FieldsFound(x.rest[i].value.fields);
      }
    } else {
      FindsNothing(x.rest, "extras");
    }
  }

  lemma FieldsFound(fields: seq<Field>)
    requires DistinctKeys(fields)
    ensures IsTwo(Find(fields, "add_mode")) || IsTwo(Find(fields, "addMode")) <==>
            exists j :: 0 <= j < |fields| && SaysTwo(fields[j])
  {
    forall key | key == "add_mode" || key == "addMode"
      ensures IsTwo(Find(fields, key)) <==> exists j :: 0 <= j < |fields| && fields[j].key == key && SaysTwo(fields[j])
    {
      if HasKey(fields, key) {
        var i :| 0 <= i < |fields| && fields[i].key == key;
        FindsField(fields, i);
      } else {
        FindsNothing(fields, key);
      }
    }
  }

  // A node is compared by all of it, but one that a subscription brought by all
  // except its id.
  lemma NodesComparedExactly(x: Item, y: Item, l: Locale)
    requires Sound(l) && ProperItem(x) && ProperItem(y)
    ensures Value(x, Nodes, l) == Value(y, Nodes, l) <==>
              && BroughtBySubscription(x) == BroughtBySubscription(y)
              && (x.id == y.id || BroughtBySubscription(x))
              && Equal(Obj(x.rest), Obj(y.rest))
  {
    ManagedExactly(x);
    ManagedExactly(y);
    NoIdAmongTheRest(x);
    NoIdAmongTheRest(y);
    SameValueIsEqual(Base(x, Nodes), Base(y, Nodes), l.le);
    WholeExactly(x, y);
    if Equal(Base(x, Nodes), Base(y, Nodes)) {
      assert HasKey(Base(x, Nodes).fields, "id") <==> HasKey(Base(y, Nodes).fields, "id");
    }
  }

  lemma WholeExactly(x: Item, y: Item)
    requires ProperItem(x) && ProperItem(y)
    ensures Equal(Whole(x), Whole(y)) <==> x.id == y.id && Equal(Obj(x.rest), Obj(y.rest))
  {
    NoIdAmongTheRest(x);
    NoIdAmongTheRest(y);
    var a, b := Whole(x).fields, Whole(y).fields;
    assert forall i :: 0 <= i < |x.rest| ==> x.rest[i] == a[i + 1];
    assert forall j :: 0 <= j < |y.rest| ==> y.rest[j] == b[j + 1];
    if Equal(Whole(x), Whole(y)) {
      IdIsCompared(x, y);
      RestIsCompared(x, y);
    }
    if x.id == y.id && Equal(Obj(x.rest), Obj(y.rest)) {
      WholeFromRest(x, y);
    }
  }

  lemma RestIsCompared(x: Item, y: Item)
    requires ProperItem(x) && ProperItem(y) && Equal(Whole(x), Whole(y))
    ensures Equal(Obj(x.rest), Obj(y.rest))
  {
    var a, b := Whole(x).fields, Whole(y).fields;
    KeysOfRest(x, y);
    KeysOfRest(y, x);
    forall i, j | 0 <= i < |x.rest| && 0 <= j < |y.rest| && x.rest[i].key == y.rest[j].key
      ensures Equal(x.rest[i].value, y.rest[j].value)
    {
      assert a[i + 1] == x.rest[i] && b[j + 1] == y.rest[j];
    }
  }

  lemma KeysOfRest(x: Item, y: Item)
    requires ProperItem(x) && ProperItem(y) && SameKeys(Whole(x).fields, Whole(y).fields)
    ensures forall i :: 0 <= i < |x.rest| ==> HasKey(y.rest, x.rest[i].key)
  {
    NoIdAmongTheRest(x);
    forall i | 0 <= i < |x.rest|
      ensures HasKey(y.rest, x.rest[i].key)
    {
      assert Whole(x).fields[i + 1] == x.rest[i];
      WholeKey(y, x.rest[i].key);
    }
  }

  lemma WholeFromRest(x: Item, y: Item)
    requires ProperItem(x) && ProperItem(y) && x.id == y.id && Equal(Obj(x.rest), Obj(y.rest))
    ensures Equal(Whole(x), Whole(y))
  {
    NoIdAmongTheRest(x);
    NoIdAmongTheRest(y);
    var a, b := Whole(x).fields, Whole(y).fields;
    forall key
      ensures HasKey(a, key) <==> HasKey(x.rest, key) || key == "id"
      ensures HasKey(b, key) <==> HasKey(y.rest, key) || key == "id"
    {
      WholeKey(x, key);
      WholeKey(y, key);
    }
    forall i, j | 0 <= i < |a| && 0 <= j < |b| && a[i].key == b[j].key
      ensures Equal(a[i].value, b[j].value)
    {
      assert i == 0 <==> j == 0;
      if i > 0 {
        assert a[i] == x.rest[i - 1] && b[j] == y.rest[j - 1];
      }
    }
  }

  lemma WholeKey(x: Item, key: string)
    ensures HasKey(Whole(x).fields, key) <==> HasKey(x.rest, key) || key == "id"
  {
    var a := Whole(x).fields;
    if HasKey(x.rest, key) {
      var i :| 0 <= i < |x.rest| && x.rest[i].key == key;
      assert a[i + 1].key == key;
    }
    assert a[0].key == "id";
  }

  // Entries stand in the order of these texts: a node of its own by its id, one
  // that a subscription brought, or a subscription, by what it is compared by.
  lemma IdentityExactly(x: Item, l: Locale)
    requires ProperItem(x)
    ensures Identity(x, Nodes, l) ==
            if BroughtBySubscription(x) then "managed:" + l.nodeText(Stable(Obj(x.rest), l.le)) else "manual:" + x.id
    ensures Identity(x, Subscriptions, l) == l.subText(Stable(Obj(x.rest), l.le))
  {
    ManagedExactly(x);
  }

  // And a subscription by all except its id.
  lemma SubscriptionsComparedExactly(x: Item, y: Item, l: Locale)
    requires Sound(l) && ProperItem(x) && ProperItem(y)
    ensures Value(x, Subscriptions, l) == Value(y, Subscriptions, l) <==> Equal(Obj(x.rest), Obj(y.rest))
  {
    NoIdAmongTheRest(x);
    NoIdAmongTheRest(y);
    SameValueIsEqual(Obj(x.rest), Obj(y.rest), l.le);
  }
}
