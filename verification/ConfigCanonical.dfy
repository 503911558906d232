/** The canonical form two configurations are compared in: what is sorted, by
    what, and which ids are left out because the router renumbers them. */
module ConfigCanonical {
  import opened Wrappers
  import opened Sorting
  import opened ConfigDiff

  // An entry of a list of nodes, subscriptions, socks or shunt rules: its id
  // and its other fields.
  datatype Item = Item(id: string, rest: seq<Field>)

  function Whole(x: Item): Json { Obj([Field("id", Leaf(Str(x.id)))] + x.rest) }

  predicate ProperItem(x: Item) { WellFormed(Whole(x)) }

  // What is left to the platform: the order of strings, the text of a value,
  // and the text that identifies a managed node or a subscription.
  datatype Locale = Locale(le: (string, string) -> bool, text: Json -> string, nodeText: Json -> string, subText: Json -> string)

  ghost predicate Sound(l: Locale) {
    Order(l.le) && forall x, y :: l.text(x) == l.text(y) ==> x == y
  }

  predicate IsTwo(v: Option<Json>) { v == Some(Leaf(Str("2"))) || v == Some(Leaf(Num(2.0))) }

  // Nodes a subscription brought are renumbered at every refresh.
  predicate Managed(x: Item) {
    var extras := Find(x.rest, "extras");
    extras.Some? && extras.value.Obj?
    && (IsTwo(Find(extras.value.fields, "add_mode")) || IsTwo(Find(extras.value.fields, "addMode")))
  }

  datatype Kind = Nodes | Subscriptions

  predicate IdCounts(x: Item, k: Kind) { k.Nodes? && !Managed(x) }

  function Value(x: Item, k: Kind, l: Locale): Json {
    Stable(if IdCounts(x, k) then Whole(x) else Obj(x.rest), l.le)
  }

  function Identity(x: Item, k: Kind, l: Locale): string {
    if IdCounts(x, k) then "manual:" + x.id
    else if k.Nodes? then "managed:" + l.nodeText(Value(x, k, l))
    else l.subText(Value(x, k, l))
  }

  datatype Entry = Entry(identity: string, index: nat, value: Json)

  function EntryAt(items: seq<Item>, i: nat, k: Kind, l: Locale): Entry
    requires i < |items|
  {
    Entry(Identity(items[i], k, l), i, Value(items[i], k, l))
  }

  function Entries(items: seq<Item>, k: Kind, l: Locale): seq<Entry> {
    seq(|items|, i requires 0 <= i < |items| => EntryAt(items, i, k, l))
  }

  // By identity, then by serialised value, then by position.
  predicate Comes(x: Entry, y: Entry, l: Locale) {
    if x.identity != y.identity then l.le(x.identity, y.identity)
    else if x.value != y.value then l.le(l.text(x.value), l.text(y.value))
    else x.index <= y.index
  }

  function Before(l: Locale): (Entry, Entry) -> bool { (x: Entry, y: Entry) => Comes(x, y, l) }

  function Canonical(items: seq<Item>, k: Kind, l: Locale): seq<Json> {
    Map(Sort(Entries(items, k, l), Before(l)), (e: Entry) => e.value)
  }

  function ById(l: Locale): (Item, Item) -> bool { (x: Item, y: Item) => l.le(x.id, y.id) }

  function CanonicalById(items: seq<Item>, l: Locale): seq<Json> {
    Map(Sort(items, ById(l)), (x: Item) => Whole(x))
  }

  datatype Config = Config(
    socks: seq<Item>, basicRules: seq<Item>, nodes: seq<Item>, subscriptions: seq<Item>, managedRules: seq<Item>,
    basicRest: seq<Field>, subscriptionRest: seq<Field>, ruleRest: seq<Field>, rest: seq<Field>)

  function BasicForDiff(c: Config, l: Locale): Json {
    Obj(c.basicRest + [Field("socks", Arr(CanonicalById(c.socks, l)))] + [Field("shuntRules", Arr(CanonicalById(c.basicRules, l)))])
  }

  function SubscriptionsForDiff(c: Config, l: Locale): Json {
    Obj(c.subscriptionRest + [Field("items", Arr(Canonical(c.subscriptions, Subscriptions, l)))])
  }

  function RulesForDiff(c: Config, l: Locale): Json {
    Obj(c.ruleRest + [Field("shuntRules", Arr(CanonicalById(c.managedRules, l)))])
  }

  function ConfigForDiff(c: Config, l: Locale): Json {
    Obj(c.rest + [Field("basicSettings", BasicForDiff(c, l))]
               + [Field("nodes", Arr(Canonical(c.nodes, Nodes, l)))]
               + [Field("subscriptions", SubscriptionsForDiff(c, l))]
               + [Field("ruleManage", RulesForDiff(c, l))])
  }

  /* ---- The sorted form depends on the multiset only ---- */

  // What the order looks at, apart from the position.
  datatype Keyed = Keyed(identity: string, value: Json)

  function KeyedOf(x: Item, k: Kind, l: Locale): Keyed { Keyed(Identity(x, k, l), Value(x, k, l)) }

  function Pairs(l: Locale): (Keyed, Keyed) -> bool {
    (x: Keyed, y: Keyed) => Comes(Entry(x.identity, 0, x.value), Entry(y.identity, 0, y.value), l)
  }

  lemma EntriesAreOrdered(l: Locale)
    requires Sound(l)
    ensures TotalOrder(Before(l))
  {
    var below := Before(l);
    assert forall x, y :: below(x, y) == Comes(x, y, l);
    forall x, y
      ensures below(x, y) || below(y, x)
    {
      assert l.le(x.identity, y.identity) || l.le(y.identity, x.identity);
      assert l.le(l.text(x.value), l.text(y.value)) || l.le(l.text(y.value), l.text(x.value));
    }
    forall x, y, z | below(x, y) && below(y, z)
      ensures below(x, z)
    {
      ComesTransitive(x, y, z, l);
    }
  }

  lemma ComesTransitive(x: Entry, y: Entry, z: Entry, l: Locale)
    requires Sound(l) && Comes(x, y, l) && Comes(y, z, l)
    ensures Comes(x, z, l)
  {
    if x.identity != y.identity && y.identity != z.identity {
      assert l.le(x.identity, z.identity);
    } else if x.identity == y.identity == z.identity && x.value != y.value && y.value != z.value {
      assert l.le(l.text(x.value), l.text(z.value));
    }
  }

  lemma PairsAreAntisymmetric(l: Locale)
    requires Sound(l)
    ensures Antisymmetric(Pairs(l))
  {
    var below := Pairs(l);
    forall x, y | below(x, y) && below(y, x)
      ensures x == y
    {
      assert l.le(x.identity, y.identity) && l.le(y.identity, x.identity) ==> x.identity == y.identity;
      assert l.le(l.text(x.value), l.text(y.value)) && l.le(l.text(y.value), l.text(x.value)) ==> x.value == y.value;
    }
  }

  function KeyedEntries(s: seq<Entry>): seq<Keyed> { Map(s, (e: Entry) => Keyed(e.identity, e.value)) }

  lemma KeyedSorted(t: seq<Entry>, l: Locale)
    requires SortedBy(t, Before(l))
    ensures SortedBy(KeyedEntries(t), Pairs(l))
  {
    var keyed := KeyedEntries(t);
    forall i, j | 0 <= i < j < |keyed|
      ensures Pairs(l)(keyed[i], keyed[j])
    {
      assert Before(l)(t[i], t[j]);
    }
  }

  // The sorted entries, positions forgotten, are sorted and hold the items'.
  lemma SortedKeyed(items: seq<Item>, k: Kind, l: Locale)
    requires Sound(l)
    ensures var t := KeyedEntries(Sort(Entries(items, k, l), Before(l)));
            && SortedBy(t, Pairs(l))
            && multiset(t) == multiset(Map(items, (x: Item) => KeyedOf(x, k, l)))
  {
    var s := Entries(items, k, l);
    var t := Sort(s, Before(l));
    EntriesAreOrdered(l);
    SortSorts(s, Before(l));
    KeyedSorted(t, l);
    MapMultiset(t, s, (e: Entry) => Keyed(e.identity, e.value));
    assert KeyedEntries(s) == Map(items, (x: Item) => KeyedOf(x, k, l));
  }

  lemma ValuesOfKeyed(s: seq<Entry>)
    ensures Map(s, (e: Entry) => e.value) == Map(KeyedEntries(s), (p: Keyed) => p.value)
  {
  }

  function Values(items: seq<Item>, k: Kind, l: Locale): seq<Json> { Map(items, (x: Item) => Value(x, k, l)) }

  function AllKeyed(items: seq<Item>, k: Kind, l: Locale): seq<Keyed> { Map(items, (x: Item) => KeyedOf(x, k, l)) }

  lemma SameKeyedSameForm(a: seq<Item>, b: seq<Item>, k: Kind, l: Locale)
    requires Sound(l) && multiset(AllKeyed(a, k, l)) == multiset(AllKeyed(b, k, l))
    ensures Canonical(a, k, l) == Canonical(b, k, l)
  {
    var s, t := Sort(Entries(a, k, l), Before(l)), Sort(Entries(b, k, l), Before(l));
    SortedKeyed(a, k, l);
    SortedKeyed(b, k, l);
    PairsAreAntisymmetric(l);
    SortedIsUnique(KeyedEntries(s), KeyedEntries(t), Pairs(l));
    ValuesOfKeyed(s);
    ValuesOfKeyed(t);
  }

  lemma FormHoldsTheValues(items: seq<Item>, k: Kind, l: Locale)
    requires Sound(l)
    ensures multiset(Canonical(items, k, l)) == multiset(Values(items, k, l))
  {
    var s := Sort(Entries(items, k, l), Before(l));
    SortedKeyed(items, k, l);
    ValuesOfKeyed(s);
    var value := (p: Keyed) => p.value;
    MapMultiset(KeyedEntries(s), AllKeyed(items, k, l), value);
    assert Map(AllKeyed(items, k, l), value) == Values(items, k, l);
  }

  /* ---- The value decides the identity ---- */

  lemma NoIdAmongTheRest(x: Item)
    requires ProperItem(x)
    ensures !HasKey(x.rest, "id") && WellFormed(Obj(x.rest)) && HasKey(Whole(x).fields, "id")
  {
    var f := Whole(x).fields;
    assert f[0].key == "id";
    forall i | 0 <= i < |x.rest|
      ensures x.rest[i].key != "id" && WellFormed(x.rest[i].value)
    {
      assert f[i + 1] == x.rest[i];
    }
    forall i, j | 0 <= i < |x.rest| && 0 <= j < |x.rest| && x.rest[i].key == x.rest[j].key
      ensures i == j
    {
      assert f[i + 1] == x.rest[i] && f[j + 1] == x.rest[j];
    }
  }

  lemma ValueDecides(x: Item, y: Item, k: Kind, l: Locale)
    requires Sound(l) && ProperItem(x) && ProperItem(y) && Value(x, k, l) == Value(y, k, l)
    ensures Identity(x, k, l) == Identity(y, k, l)
  {
    NoIdAmongTheRest(x);
    NoIdAmongTheRest(y);
    var a := if IdCounts(x, k) then Whole(x) else Obj(x.rest);
    var b := if IdCounts(y, k) then Whole(y) else Obj(y.rest);
    SameValueIsEqual(a, b, l.le);
    assert Equal(a, b) && SameKeys(a.fields, b.fields);
    assert HasKey(a.fields, "id") <==> HasKey(b.fields, "id");
    if IdCounts(x, k) {
      assert a.fields[0].key == b.fields[0].key == "id";
      assert Equal(a.fields[0].value, b.fields[0].value);
    }
  }

  lemma SameValuesSameKeyed(a: seq<Item>, b: seq<Item>, k: Kind, l: Locale)
    requires Sound(l) && multiset(Values(a, k, l)) == multiset(Values(b, k, l))
    requires forall x :: x in a || x in b ==> ProperItem(x)
    ensures multiset(AllKeyed(a, k, l)) == multiset(AllKeyed(b, k, l))
  {
    forall i, j | 0 <= i < |a| && 0 <= j < |b| && Value(a[i], k, l) == Value(b[j], k, l)
      ensures KeyedOf(a[i], k, l) == KeyedOf(b[j], k, l)
    {
      ValueDecides(a[i], b[j], k, l);
    }
    MapRefined(a, b, (x: Item) => Value(x, k, l), (x: Item) => KeyedOf(x, k, l));
  }

  // The compared form of a list of nodes or subscriptions is a function of the
  // multiset of their values, and tells any two multisets apart: reordering
  // and renumbering do not show, everything else does.
  lemma FormIsTheMultiset(a: seq<Item>, b: seq<Item>, k: Kind, l: Locale)
    requires Sound(l) && (forall x :: x in a || x in b ==> ProperItem(x))
    ensures Canonical(a, k, l) == Canonical(b, k, l) <==> multiset(Values(a, k, l)) == multiset(Values(b, k, l))
  {
    FormHoldsTheValues(a, k, l);
    FormHoldsTheValues(b, k, l);
    if multiset(Values(a, k, l)) == multiset(Values(b, k, l)) {
      SameValuesSameKeyed(a, b, k, l);
      SameKeyedSameForm(a, b, k, l);
    }
  }

  /* ---- Lists sorted by id ---- */

  predicate DistinctIds(items: seq<Item>) {
    forall i, j :: 0 <= i < |items| && 0 <= j < |items| && items[i].id == items[j].id ==> i == j
  }

  function StrictById(l: Locale): (Item, Item) -> bool {
    (x: Item, y: Item) => x == y || (x.id != y.id && l.le(x.id, y.id))
  }

  lemma IdsAreOrdered(l: Locale)
    requires Sound(l)
    ensures TotalOrder(ById(l)) && Antisymmetric(StrictById(l))
  {
    var below := ById(l);
    assert forall x, y :: below(x, y) == l.le(x.id, y.id);
    forall x, y
      ensures below(x, y) || below(y, x)
    {
      assert l.le(x.id, y.id) || l.le(y.id, x.id);
    }
    forall x, y, z | below(x, y) && below(y, z)
      ensures below(x, z)
    {
      assert l.le(x.id, y.id) && l.le(y.id, z.id);
    }
  }

  lemma SortedStrictly(items: seq<Item>, l: Locale)
    requires Sound(l) && DistinctIds(items)
    ensures var t := Sort(items, ById(l)); SortedBy(t, StrictById(l)) && multiset(t) == multiset(items)
  {
    var t := Sort(items, ById(l));
    IdsAreOrdered(l);
    SortSorts(items, ById(l));
    forall i, j | 0 <= i < j < |t|
      ensures StrictById(l)(t[i], t[j])
    {
      assert ById(l)(t[i], t[j]);
      assert t[i] in multiset(items) && t[j] in multiset(items);
    }
  }

  // With distinct ids, the order of socks and shunt rules does not show.
  lemma OrderByIdIsInvisible(a: seq<Item>, b: seq<Item>, l: Locale)
    requires Sound(l) && DistinctIds(a) && DistinctIds(b) && multiset(a) == multiset(b)
    ensures CanonicalById(a, l) == CanonicalById(b, l)
  {
    SortedStrictly(a, l);
    SortedStrictly(b, l);
    IdsAreOrdered(l);
    SortedIsUnique(Sort(a, ById(l)), Sort(b, ById(l)), StrictById(l));
  }

  lemma TwoSorted(x: Item, y: Item, l: Locale)
    requires Sound(l) && x.id == y.id
    ensures Sort([x, y], ById(l)) == [x, y]
  {
    assert [x, y][1..] == [y] && [y][1..] == [];
    assert Sort([y], ById(l)) == [y];
    assert l.le(x.id, y.id) && ById(l)(x, y);
  }

  // With a repeated id it does: the sort keeps the order given.
  lemma RepeatedIdsShow(x: Item, y: Item, l: Locale)
    requires Sound(l) && x.id == y.id && x != y
    ensures multiset([x, y]) == multiset([y, x])
    ensures CanonicalById([x, y], l) != CanonicalById([y, x], l)
  {
    TwoSorted(x, y, l);
    TwoSorted(y, x, l);
    assert Whole(x).fields[1..] == x.rest && Whole(y).fields[1..] == y.rest;
    assert CanonicalById([x, y], l)[0] == Whole(x);
    assert CanonicalById([y, x], l)[0] == Whole(y);
  }

  /* ---- Whole configurations ---- */

  predicate Reordered(a: seq<Item>, b: seq<Item>) {
    DistinctIds(a) && DistinctIds(b) && multiset(a) == multiset(b)
  }

  // The same list in another order, with other ids where ids do not count.
  predicate Renumbered(a: seq<Item>, b: seq<Item>, k: Kind, l: Locale) {
    multiset(Values(a, k, l)) == multiset(Values(b, k, l))
  }

  predicate ProperItems(c: Config) {
    (forall x :: x in c.nodes ==> ProperItem(x)) && (forall x :: x in c.subscriptions ==> ProperItem(x))
  }

  predicate SameButOrderAndNumbers(c: Config, d: Config, l: Locale) {
    && Reordered(c.socks, d.socks)
    && Reordered(c.basicRules, d.basicRules)
    && Reordered(c.managedRules, d.managedRules)
    && Renumbered(c.nodes, d.nodes, Nodes, l)
    && Renumbered(c.subscriptions, d.subscriptions, Subscriptions, l)
    && c.basicRest == d.basicRest && c.subscriptionRest == d.subscriptionRest
    && c.ruleRest == d.ruleRest && c.rest == d.rest
  }

  lemma OrderAndNumbersDoNotShow(c: Config, d: Config, l: Locale)
    requires Sound(l) && ProperItems(c) && ProperItems(d) && SameButOrderAndNumbers(c, d, l)
    ensures NoDiffs(ConfigForDiff(c, l), ConfigForDiff(d, l), l.le)
  {
    OrderByIdIsInvisible(c.socks, d.socks, l);
    OrderByIdIsInvisible(c.basicRules, d.basicRules, l);
    OrderByIdIsInvisible(c.managedRules, d.managedRules, l);
    FormIsTheMultiset(c.nodes, d.nodes, Nodes, l);
    FormIsTheMultiset(c.subscriptions, d.subscriptions, Subscriptions, l);
    assert ConfigForDiff(c, l) == ConfigForDiff(d, l);
  }

  // Giving managed nodes, or subscriptions, any other ids is such a change.
  lemma NewIdsAreRenumbering(a: seq<Item>, b: seq<Item>, k: Kind, l: Locale)
    requires |a| == |b|
    requires forall i :: 0 <= i < |a| ==> a[i].rest == b[i].rest && (IdCounts(a[i], k) ==> a[i].id == b[i].id)
    ensures Renumbered(a, b, k, l)
  {
    assert Values(a, k, l) == Values(b, k, l);
  }

  lemma ReorderingIsRenumbering(a: seq<Item>, b: seq<Item>, k: Kind, l: Locale)
    requires multiset(a) == multiset(b)
    ensures Renumbered(a, b, k, l)
  {
    MapMultiset(a, b, (x: Item) => Value(x, k, l));
  }
}
