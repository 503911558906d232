/** The field diff of two desired configurations: which leaf paths are looked
    at, how a path is read back, and when an empty diff means equal. */
module ConfigDiff {
  import opened Digits
  import opened Wrappers
  import opened Sorting

  datatype Scalar = Null | Bool(b: bool) | Num(n: real) | Str(s: string)

  // An object keeps its fields in insertion order.
  datatype Json = Leaf(scalar: Scalar) | Arr(items: seq<Json>) | Obj(fields: seq<Field>)

  datatype Field = Field(key: string, value: Json)

  predicate DistinctKeys(fields: seq<Field>) {
    forall i, j :: 0 <= i < |fields| && 0 <= j < |fields| && fields[i].key == fields[j].key ==> i == j
  }

  predicate WellFormed(v: Json) {
    match v
    case Leaf(_) => true
    case Arr(items) => forall i :: 0 <= i < |items| ==> WellFormed(items[i])
    case Obj(fields) => DistinctKeys(fields) && forall i :: 0 <= i < |fields| ==> WellFormed(fields[i].value)
  }

  /* ---- Equality ---- */

  predicate HasKey(fields: seq<Field>, key: string) {
    exists i :: 0 <= i < |fields| && fields[i].key == key
  }

  predicate SameKeys(a: seq<Field>, b: seq<Field>) {
    && (forall i :: 0 <= i < |a| ==> HasKey(b, a[i].key))
    && (forall i :: 0 <= i < |b| ==> HasKey(a, b[i].key))
  }

  // Equal up to the order of keys.
  predicate Equal(a: Json, b: Json) {
    match a
    case Leaf(_) => a == b
    case Arr(items) =>
      b.Arr? && |items| == |b.items| && forall i :: 0 <= i < |items| ==> Equal(items[i], b.items[i])
    case Obj(fields) =>
      && b.Obj?
      && SameKeys(fields, b.fields)
      && forall i, j :: 0 <= i < |fields| && 0 <= j < |b.fields| && fields[i].key == b.fields[j].key
           ==> Equal(fields[i].value, b.fields[j].value)
  }

  // Fields are put in key order before values are compared; `le` is the
  // locale's order on strings.
  function Stable(v: Json, le: (string, string) -> bool): Json {
    match v
    case Leaf(_) => v
    case Arr(items) => Arr(seq(|items|, i requires 0 <= i < |items| => Stable(items[i], le)))
    case Obj(fields) =>
      Obj(Sort(seq(|fields|, i requires 0 <= i < |fields| => Field(fields[i].key, Stable(fields[i].value, le))), ByKey(le)))
  }

  function ByKey(le: (string, string) -> bool): (Field, Field) -> bool { (x: Field, y: Field) => le(x.key, y.key) }

  function StableFields(v: Json, le: (string, string) -> bool): seq<Field>
    requires v.Obj?
  {
    seq(|v.fields|, i requires 0 <= i < |v.fields| => Field(v.fields[i].key, Stable(v.fields[i].value, le)))
  }

  predicate SameValue(x: Option<Json>, y: Option<Json>, le: (string, string) -> bool) {
    match (x, y)
    case (None, None) => true
    case (Some(a), Some(b)) => Stable(a, le) == Stable(b, le)
    case _ => false
  }

  ghost predicate Order(le: (string, string) -> bool) { TotalOrder(le) && Antisymmetric(le) }

  lemma KeyOrder(le: (string, string) -> bool)
    requires Order(le)
    ensures TotalOrder(ByKey(le))
  {
    var below := ByKey(le);
    assert forall x, y :: below(x, y) == le(x.key, y.key);
    forall x, y
      ensures below(x, y) || below(y, x)
    {
      assert le(x.key, y.key) || le(y.key, x.key);
    }
    forall x, y, z | below(x, y) && below(y, z)
      ensures below(x, z)
    {
      assert le(x.key, y.key) && le(y.key, z.key);
    }
  }

  lemma {:induction false} StrictIsUnique(a: seq<Field>, b: seq<Field>, le: (string, string) -> bool)
    requires Order(le) && SortedBy(a, ByKey(le)) && SortedBy(b, ByKey(le))
    requires DistinctKeys(a) && DistinctKeys(b)
    requires forall f :: f in a <==> f in b
    ensures a == b
  {
    EmptyTogether(a, b);
    if a != [] && b != [] {
      SameHead(a, b, le);
      Tails(a, b);
      StrictIsUnique(a[1..], b[1..], le);
      assert a == [a[0]] + a[1..] && b == [b[0]] + b[1..];
    }
  }

  lemma EmptyTogether<T>(a: seq<T>, b: seq<T>)
    requires forall f :: f in a <==> f in b
    ensures a == [] <==> b == []
  {
    if a != [] {
      assert a[0] in b;
    }
    if b != [] {
      assert b[0] in a;
    }
  }

  lemma SameHead(a: seq<Field>, b: seq<Field>, le: (string, string) -> bool)
    requires Order(le) && a != [] && b != [] && DistinctKeys(b)
    requires SortedBy(a, ByKey(le)) && SortedBy(b, ByKey(le))
    requires forall f :: f in a <==> f in b
    ensures a[0] == b[0]
  {
    assert a[0] in b && b[0] in a;
    var i :| 0 <= i < |b| && b[i] == a[0];
    var j :| 0 <= j < |a| && a[j] == b[0];
    var below := ByKey(le);
    assert below(b[0], b[i]) && below(a[0], a[j]);
    assert b[0].key == b[i].key;
  }

  lemma Tails(a: seq<Field>, b: seq<Field>)
    requires a != [] && b != [] && a[0] == b[0] && DistinctKeys(a) && DistinctKeys(b)
    requires forall f :: f in a <==> f in b
    ensures forall f :: f in a[1..] <==> f in b[1..]
  {
    forall f
      ensures f in a[1..] <==> f in b[1..]
    {
      if f in a[1..] {
        var k :| 1 <= k < |a| && a[k] == f;
        assert f in b;
        var m :| 0 <= m < |b| && b[m] == f;
        assert m != 0;
        assert b[1..][m - 1] == f;
      }
      if f in b[1..] {
        var k :| 1 <= k < |b| && b[k] == f;
        assert f in a;
        var m :| 0 <= m < |a| && a[m] == f;
        assert m != 0;
        assert a[1..][m - 1] == f;
      }
    }
  }

  lemma SortedFields(s: seq<Field>, le: (string, string) -> bool)
    requires Order(le) && DistinctKeys(s)
    ensures var t := Sort(s, ByKey(le));
            SortedBy(t, ByKey(le)) && DistinctKeys(t) && (forall f :: f in t <==> f in s)
  {
    var t := Sort(s, ByKey(le));
    KeyOrder(le);
    SortSorts(s, ByKey(le));
    forall f
      ensures f in t <==> f in s
    {
      assert f in multiset(t) <==> f in multiset(s);
    }
    SameCountDistinct(s, t);
  }

  lemma SameCountDistinct(s: seq<Field>, t: seq<Field>)
    requires multiset(s) == multiset(t) && DistinctKeys(s)
    ensures DistinctKeys(t)
  {
    forall i, j | 0 <= i < |t| && 0 <= j < |t| && t[i].key == t[j].key
      ensures i == j
    {
      assert t[i] in multiset(s) && t[j] in multiset(s);
      assert t[i] == t[j];
      if i != j {
        CountTwice(t, i, j);
        CountOnce(s, t[i]);
      }
    }
  }

  lemma CountTwice(t: seq<Field>, i: nat, j: nat)
    requires i < |t| && j < |t| && i != j && t[i] == t[j]
    ensures multiset(t)[t[i]] >= 2
  {
    var m := if i < j then i else j;
    var n := if i < j then j else i;
    assert t == t[..m] + [t[m]] + t[m + 1..n] + [t[n]] + t[n + 1..];
  }

  lemma {:induction false} CountOnce(s: seq<Field>, f: Field)
    requires DistinctKeys(s)
    ensures multiset(s)[f] <= 1
  {
    if s != [] {
      CountOnce(s[1..], f);
      assert s == [s[0]] + s[1..];
      if f == s[0] {
        assert f !in s[1..];
      }
    }
  }

  // The comparison made is exactly equality up to key order.
  lemma {:induction false} SameValueIsEqual(a: Json, b: Json, le: (string, string) -> bool)
    requires Order(le) && WellFormed(a) && WellFormed(b)
    ensures Stable(a, le) == Stable(b, le) <==> Equal(a, b)
    decreases a
  {
    if a.Arr? && b.Arr? {
      SameItems(a, b, le);
    } else if a.Obj? && b.Obj? {
      SameFields(a, b, le);
    }
  }

  lemma SameItems(a: Json, b: Json, le: (string, string) -> bool)
    requires Order(le) && WellFormed(a) && WellFormed(b) && a.Arr? && b.Arr?
    ensures Stable(a, le) == Stable(b, le) <==> Equal(a, b)
    decreases a, 0
  {
    var s, t := Stable(a, le).items, Stable(b, le).items;
    if |a.items| == |b.items| {
      forall i | 0 <= i < |a.items|
        ensures s[i] == t[i] <==> Equal(a.items[i], b.items[i])
      {
        SameValueIsEqual(a.items[i], b.items[i], le);
      }
      if Equal(a, b) {
        assert s == t;
      }
    }
  }

  lemma SameFields(a: Json, b: Json, le: (string, string) -> bool)
    requires Order(le) && WellFormed(a) && WellFormed(b) && a.Obj? && b.Obj?
    ensures Stable(a, le) == Stable(b, le) <==> Equal(a, b)
    decreases a, 0
  {
    var s, t := StableFields(a, le), StableFields(b, le);
    SortedFields(s, le);
    SortedFields(t, le);
    forall i, j | 0 <= i < |s| && 0 <= j < |t| && a.fields[i].key == b.fields[j].key
      ensures s[i] == t[j] <==> Equal(a.fields[i].value, b.fields[j].value)
    {
      SameValueIsEqual(a.fields[i].value, b.fields[j].value, le);
    }
    if Equal(a, b) {
      FieldsFromEqual(a, b, s, t);
      FieldsFromEqual(b, a, t, s);
      StrictIsUnique(Sort(s, ByKey(le)), Sort(t, ByKey(le)), le);
    }
    if Stable(a, le) == Stable(b, le) {
      EqualFromStable(a, b, le, s, t);
    }
  }

  lemma FieldsFromEqual(a: Json, b: Json, s: seq<Field>, t: seq<Field>)
    requires a.Obj? && b.Obj? && |s| == |a.fields| && |t| == |b.fields|
    requires SameKeys(a.fields, b.fields)
    requires forall i, j :: 0 <= i < |s| && 0 <= j < |t| && a.fields[i].key == b.fields[j].key ==> s[i] == t[j]
    ensures forall f :: f in s ==> f in t
  {
    forall f | f in s
      ensures f in t
    {
      var i :| 0 <= i < |s| && s[i] == f;
      assert HasKey(b.fields, a.fields[i].key);
      var j :| 0 <= j < |b.fields| && b.fields[j].key == a.fields[i].key;
      assert t[j] == f;
    }
  }

  lemma EqualFromStable(a: Json, b: Json, le: (string, string) -> bool, s: seq<Field>, t: seq<Field>)
    requires a.Obj? && b.Obj? && s == StableFields(a, le) && t == StableFields(b, le)
    requires DistinctKeys(s) && DistinctKeys(t)
    requires forall f :: f in s <==> f in t
    requires forall i, j :: 0 <= i < |s| && 0 <= j < |t| && a.fields[i].key == b.fields[j].key && s[i] == t[j]
               ==> Equal(a.fields[i].value, b.fields[j].value)
    ensures Equal(a, b)
  {
    forall i | 0 <= i < |a.fields|
      ensures HasKey(b.fields, a.fields[i].key)
    {
      assert s[i] in t;
      var j :| 0 <= j < |t| && t[j] == s[i];
      assert b.fields[j].key == a.fields[i].key;
    }
    forall j | 0 <= j < |b.fields|
      ensures HasKey(a.fields, b.fields[j].key)
    {
      assert t[j] in s;
      var i :| 0 <= i < |s| && s[i] == t[j];
      assert a.fields[i].key == b.fields[j].key;
    }
    forall i, j | 0 <= i < |a.fields| && 0 <= j < |b.fields| && a.fields[i].key == b.fields[j].key
      ensures Equal(a.fields[i].value, b.fields[j].value)
    {
      assert s[i] in t;
      var k :| 0 <= k < |t| && t[k] == s[i];
      assert t[k].key == t[j].key;
      assert k == j;
    }
  }

  /* ---- Paths ---- */

  function ParseIndex(s: string): Option<nat> {
    if s != "" && AllDigits(s) then Some(Value(s)) else None
  }

  function Joined(prefix: string, key: string): string {
    if prefix == "" then key else prefix + "." + key
  }

  function Indexed(prefix: string, i: nat): string { prefix + "[" + Decimal(i) + "]" }

  // The paths of all leaves; an empty array or object is a leaf.
  function Collect(v: Json, prefix: string): seq<string>
    decreases v, 1, 0
  {
    match v
    case Leaf(_) => if prefix == "" then [] else [prefix]
    case Arr(items) =>
      if items == [] then (if prefix == "" then [] else [prefix]) else CollectItems(v, 0, prefix)
    case Obj(fields) =>
      if fields == [] then (if prefix == "" then [] else [prefix]) else CollectFields(v, 0, prefix)
  }

  function CollectItems(v: Json, i: nat, prefix: string): seq<string>
    requires v.Arr? && i <= |v.items|
    decreases v, 0, |v.items| - i
  {
    if i == |v.items| then [] else Collect(v.items[i], Indexed(prefix, i)) + CollectItems(v, i + 1, prefix)
  }

  function CollectFields(v: Json, i: nat, prefix: string): seq<string>
    requires v.Obj? && i <= |v.fields|
    decreases v, 0, |v.fields| - i
  {
    if i == |v.fields| then []
    else Collect(v.fields[i].value, Joined(prefix, v.fields[i].key)) + CollectFields(v, i + 1, prefix)
  }

  // Does s start with a bracketed index?
  predicate Bracketed(s: string) {
    s != "" && s[0] == '[' && Run(s[1..]) > 0 && 1 + Run(s[1..]) < |s| && s[1 + Run(s[1..])] == ']'
  }

  // Every bracketed index becomes a dotted one.
  function Dotted(s: string): string {
    if s == "" then ""
    else if Bracketed(s) then "." + s[1..1 + Run(s[1..])] + Dotted(s[2 + Run(s[1..])..])
    else [s[0]] + Dotted(s[1..])
  }

  // The non-empty pieces between dots; `cur` is the piece begun.
  function Pieces(s: string, cur: string): seq<string> {
    if s == "" then (if cur == "" then [] else [cur])
    else if s[0] == '.' then (if cur == "" then [] else [cur]) + Pieces(s[1..], "")
    else Pieces(s[1..], cur + [s[0]])
  }

  function Segments(path: string): seq<string> { Pieces(Dotted(path), "") }

  // A key that a path can carry: not empty, no dot, no bracketed index inside.
  predicate Plain(key: string) { key != "" && '.' !in key && Dotted(key) == key }

  lemma {:induction false} RunAppend(s: string, t: string)
    requires t != "" && !Digit(t[0])
    ensures Run(s + t) == Run(s)
  {
    if s == "" {
      assert s + t == t;
    } else {
      assert (s + t)[1..] == s[1..] + t;
      RunAppend(s[1..], t);
    }
  }

  // How the path goes on after a part of it.
  predicate Opens(t: string) { t != "" && (t[0] == '.' || t[0] == '[') }

  lemma BracketedAppend(s: string, t: string)
    requires s != "" && Opens(t)
    ensures Run((s + t)[1..]) == Run(s[1..]) && (Bracketed(s + t) <==> Bracketed(s))
  {
    assert (s + t)[1..] == s[1..] + t;
    RunAppend(s[1..], t);
  }

  lemma DottedIndex(s: string)
    requires Bracketed(s)
    ensures Dotted(s) == ("." + s[1..1 + Run(s[1..])]) + Dotted(s[2 + Run(s[1..])..])
  {
  }

  lemma DottedChar(s: string)
    requires s != "" && !Bracketed(s)
    ensures Dotted(s) == [s[0]] + Dotted(s[1..])
  {
  }

  lemma IndexFirst(s: string, t: string)
    requires Bracketed(s) && Opens(t)
    ensures Dotted(s + t) == ("." + s[1..1 + Run(s[1..])]) + Dotted(s[2 + Run(s[1..])..] + t)
  {
    BracketedAppend(s, t);
    var n, u := Run(s[1..]), s + t;
    DottedIndex(u);
    assert u[1..1 + n] == s[1..1 + n];
    assert u[2 + n..] == s[2 + n..] + t;
  }

  lemma TailOf(s: string, t: string)
    requires s != ""
    ensures (s + t)[1..] == s[1..] + t && (s + t)[0] == s[0]
  {
  }

  lemma CharFirst(s: string, t: string)
    requires s != "" && !Bracketed(s) && Opens(t)
    ensures Dotted(s + t) == [s[0]] + Dotted(s[1..] + t)
  {
    BracketedAppend(s, t);
    DottedChar(s + t);
    TailOf(s, t);
  }

  lemma Reassociate(d: string, a: string, b: string, c: string)
    requires d == a + b
    ensures d + c == a + (b + c)
  {
  }

  // What follows a path cannot complete an index the path left open.
  lemma {:induction false} DottedAppend(s: string, t: string)
    requires Opens(t)
    ensures Dotted(s + t) == Dotted(s) + Dotted(t)
  {
    if s == "" {
      assert s + t == t;
      assert Dotted(s) == "";
    } else {
      var bracketed := Bracketed(s);
      var head := if bracketed then "." + s[1..1 + Run(s[1..])] else [s[0]];
      var rest := if bracketed then s[2 + Run(s[1..])..] else s[1..];
      if bracketed {
        DottedIndex(s);
        IndexFirst(s, t);
      } else {
        DottedChar(s);
        CharFirst(s, t);
      }
      DottedAppend(rest, t);
      Reassociate(Dotted(s), head, Dotted(rest), Dotted(t));
    }
  }

  lemma {:induction false} PiecesAppend(s: string, cur: string, t: string)
    ensures Pieces(s + "." + t, cur) == Pieces(s, cur) + Pieces(t, "")
  {
    var u := s + "." + t;
    if s == "" {
      assert u == "." + t && u[1..] == t;
    } else {
      assert u[1..] == s[1..] + "." + t;
      if s[0] == '.' {
        PiecesAppend(s[1..], "", t);
      } else {
        PiecesAppend(s[1..], cur + [s[0]], t);
      }
    }
  }

  lemma {:induction false} PiecesOne(s: string, cur: string)
    requires '.' !in s && (s != "" || cur != "")
    ensures Pieces(s, cur) == [cur + s]
  {
    if s == "" {
      assert cur + s == cur;
    } else {
      PiecesOne(s[1..], cur + [s[0]]);
      assert cur + [s[0]] + s[1..] == cur + s;
    }
  }

  lemma SegmentsOfKey(prefix: string, key: string)
    requires Plain(key)
    ensures Segments(Joined(prefix, key)) == Segments(prefix) + [key]
    ensures Joined(prefix, key) != ""
  {
    PiecesOne(key, "");
    assert "" + key == key;
    if prefix != "" {
      assert prefix + "." + key == prefix + ("." + key);
      DottedAppend(prefix, "." + key);
      assert ("." + key)[1..] == key;
      assert Dotted("." + key) == "." + key;
      assert Dotted(prefix) + ("." + key) == Dotted(prefix) + "." + key;
      PiecesAppend(Dotted(prefix), "", key);
    }
  }

  lemma {:induction false} RunOfDigits(d: string)
    requires forall i :: 0 <= i < |d| ==> Digit(d[i])
    ensures Run(d + "]") == |d|
  {
    if d == "" {
      assert d + "]" == "]";
    } else {
      assert (d + "]")[1..] == d[1..] + "]";
      RunOfDigits(d[1..]);
    }
  }

  lemma DottedNumber(d: string)
    requires d != "" && AllDigits(d)
    ensures Dotted("[" + d + "]") == "." + d
  {
    var t := "[" + d + "]";
    assert t[1..] == d + "]";
    RunOfDigits(d);
    assert t[1..1 + |d|] == d && t[2 + |d|..] == "";
    DottedIndex(t);
    assert ("." + d) + "" == "." + d;
  }

  lemma SegmentsOfIndex(prefix: string, i: nat)
    ensures Segments(Indexed(prefix, i)) == Segments(prefix) + [Decimal(i)]
    ensures Indexed(prefix, i) != ""
  {
    var d := Decimal(i);
    DecimalParses(i);
    DottedNumber(d);
    assert Indexed(prefix, i) == prefix + ("[" + d + "]");
    DottedAppend(prefix, "[" + d + "]");
    assert Dotted(prefix) + ("." + d) == Dotted(prefix) + "." + d;
    PiecesAppend(Dotted(prefix), "", d);
    PiecesOne(d, "");
    assert "" + d == d;
  }

  /* ---- Reading a path back ---- */

  function Find(fields: seq<Field>, key: string): Option<Json> {
    if fields == [] then None
    else if fields[0].key == key then Some(fields[0].value)
    else Find(fields[1..], key)
  }

  function Child(v: Json, name: string): Option<Json> {
    match v
    case Leaf(_) => None
    case Arr(items) =>
      var i := ParseIndex(name);
      if i.Some? && i.value < |items| then Some(items[i.value]) else None
    case Obj(fields) => Find(fields, name)
  }

  function Walk(v: Option<Json>, names: seq<string>): Option<Json>
    decreases |names|
  {
    if v.None? || names == [] then v else Walk(Child(v.value, names[0]), names[1..])
  }

  function AtPath(v: Option<Json>, path: string): Option<Json> {
    if path == "" then v else Walk(v, Segments(path))
  }

  method GetAtPath(v: Option<Json>, path: string) returns (r: Option<Json>)
    ensures r == AtPath(v, path)
  {
    if path == "" {
      return v;
    }
    var names := Segments(path);
    var current := v;
    for i := 0 to |names|
      invariant Walk(current, names[i..]) == Walk(v, names)
    {
      if current.None? {
        return None;
      }
      assert names[i..][1..] == names[i + 1..];
      current := Child(current.value, names[i]);
    }
    return current;
  }

  /* ---- The diff ---- */

  datatype Change = Added | Removed | Changed

  const SECTIONS: set<string> := {"basicSettings", "nodes", "subscriptions", "appUpdate", "ruleManage"}

  predicate Divider(c: char) { c == '.' || c == '[' || c == ']' }

  function Word(s: string): string { if s == "" || Divider(s[0]) then "" else [s[0]] + Word(s[1..]) }

  // The first word of a path.
  function Root(path: string): string { if path != "" && Divider(path[0]) then Root(path[1..]) else Word(path) }

  function SectionOf(path: string): string { if Root(path) in SECTIONS then Root(path) else "basicSettings" }

  datatype Diff = Diff(section: string, path: string, previous: Option<Json>, next: Option<Json>, change: Change)

  function DiffAt(a: Json, b: Json, path: string): Diff {
    var x, y := AtPath(Some(a), path), AtPath(Some(b), path);
    Diff(SectionOf(path), path, x, y, if x.None? then Added else if y.None? then Removed else Changed)
  }

  predicate Reported(a: Json, b: Json, le: (string, string) -> bool, d: Diff) {
    && (d.path in Collect(a, "") || d.path in Collect(b, ""))
    && d == DiffAt(a, b, d.path)
    && !SameValue(d.previous, d.next, le)
  }

  // An entry holds both values; it is added where only the next side has one,
  // removed where only the previous one has, else changed.
  lemma KindsExactly(a: Json, b: Json, le: (string, string) -> bool, d: Diff)
    requires Reported(a, b, le, d)
    ensures var was, will := AtPath(Some(a), d.path), AtPath(Some(b), d.path);
            && d.previous == was && d.next == will
            && (d.change == Added <==> was.None? && will.Some?)
            && (d.change == Removed <==> was.Some? && will.None?)
            && (d.change == Changed <==> was.Some? && will.Some?)
  {
  }

  function ByPath(le: (string, string) -> bool): (Diff, Diff) -> bool { (x: Diff, y: Diff) => le(x.path, y.path) }

  lemma PathOrder(le: (string, string) -> bool)
    requires Order(le)
    ensures TotalOrder(ByPath(le))
  {
    var below := ByPath(le);
    assert forall x, y :: below(x, y) == le(x.path, y.path);
    forall x, y
      ensures below(x, y) || below(y, x)
    {
      assert le(x.path, y.path) || le(y.path, x.path);
    }
    forall x, y, z | below(x, y) && below(y, z)
      ensures below(x, z)
    {
      assert le(x.path, y.path) && le(y.path, z.path);
    }
  }

  /* ---- When an empty diff means equal ---- */

  predicate PlainKeys(v: Json) {
    match v
    case Leaf(_) => true
    case Arr(items) => forall i :: 0 <= i < |items| ==> PlainKeys(items[i])
    case Obj(fields) => forall i :: 0 <= i < |fields| ==> Plain(fields[i].key) && PlainKeys(fields[i].value)
  }

  // Nowhere an array on one side and an object on the other.
  predicate NoClash(a: Json, b: Json) {
    match (a, b)
    case (Arr(x), Arr(y)) => forall i :: 0 <= i < |x| && i < |y| ==> NoClash(x[i], y[i])
    case (Obj(x), Obj(y)) =>
      forall i, j :: 0 <= i < |x| && 0 <= j < |y| && x[i].key == y[j].key ==> NoClash(x[i].value, y[j].value)
    case (Arr(_), Obj(_)) => false
    case (Obj(_), Arr(_)) => false
    case _ => true
  }

  // Every key is the number of one of `n` items, and every item has its key.
  predicate KeysAreIndices(fields: seq<Field>, n: nat) {
    && (forall j :: 0 <= j < |fields| ==> ParseIndex(fields[j].key).Some? && ParseIndex(fields[j].key).value < n)
    && (forall i :: 0 <= i < n ==> HasKey(fields, Decimal(i)))
  }

  // Equal, but for arrays that stand against objects keyed by their indices.
  predicate Alike(a: Json, b: Json) {
    match a
    case Leaf(_) => a == b
    case Arr(items) =>
      if b.Arr? then |items| == |b.items| && forall i :: 0 <= i < |items| ==> Alike(items[i], b.items[i])
      else
        && b.Obj? && items != [] && KeysAreIndices(b.fields, |items|)
        && forall i, j :: 0 <= i < |items| && 0 <= j < |b.fields| && ParseIndex(b.fields[j].key) == Some(i)
             ==> Alike(items[i], b.fields[j].value)
    case Obj(fields) =>
      if b.Obj? then
        && SameKeys(fields, b.fields)
        && forall i, j :: 0 <= i < |fields| && 0 <= j < |b.fields| && fields[i].key == b.fields[j].key
             ==> Alike(fields[i].value, b.fields[j].value)
      else
        && b.Arr? && b.items != [] && KeysAreIndices(fields, |b.items|)
        && forall i, j :: 0 <= i < |b.items| && 0 <= j < |fields| && ParseIndex(fields[j].key) == Some(i)
             ==> Alike(fields[j].value, b.items[i])
  }

  // Where no array stands against an object, alike is equal.
  lemma {:induction false} AlikeIsEqual(a: Json, b: Json)
    requires NoClash(a, b)
    ensures Alike(a, b) <==> Equal(a, b)
  {
    match (a, b)
    case (Arr(x), Arr(y)) =>
      forall i | 0 <= i < |x| && i < |y|
        ensures Alike(x[i], y[i]) <==> Equal(x[i], y[i])
      {
        AlikeIsEqual(x[i], y[i]);
      }
    case (Obj(x), Obj(y)) =>
      forall i, j | 0 <= i < |x| && 0 <= j < |y| && x[i].key == y[j].key
        ensures Alike(x[i].value, y[j].value) <==> Equal(x[i].value, y[j].value)
      {
        AlikeIsEqual(x[i].value, y[j].value);
      }
    case _ =>
  }

  // A whole value without a single leaf path.
  predicate Pathless(v: Json) { v.Leaf? || v == Arr([]) || v == Obj([]) }

  predicate SameAs(x: Option<Json>, y: Option<Json>) {
    match (x, y)
    case (None, None) => true
    case (Some(a), Some(b)) => Equal(a, b)
    case _ => false
  }

  predicate Proper(x: Option<Json>) { x.Some? ==> WellFormed(x.value) }

  lemma {:induction false} FindsField(fields: seq<Field>, i: nat)
    requires i < |fields| && DistinctKeys(fields)
    ensures Find(fields, fields[i].key) == Some(fields[i].value)
  {
    if i > 0 {
      FindsField(fields[1..], i - 1);
    }
  }

  lemma {:induction false} FindsNothing(fields: seq<Field>, key: string)
    requires !HasKey(fields, key)
    ensures Find(fields, key).None?
  {
    if fields != [] {
      FindsNothing(fields[1..], key);
    }
  }

  lemma ChildrenSame(a: Json, b: Json, name: string)
    requires WellFormed(a) && WellFormed(b) && Equal(a, b)
    ensures Proper(Child(a, name)) && Proper(Child(b, name)) && SameAs(Child(a, name), Child(b, name))
  {
    if a.Obj? {
      if HasKey(a.fields, name) {
        var i :| 0 <= i < |a.fields| && a.fields[i].key == name;
        assert HasKey(b.fields, name);
        var j :| 0 <= j < |b.fields| && b.fields[j].key == name;
        FindsField(a.fields, i);
        FindsField(b.fields, j);
      } else {
        FindsNothing(a.fields, name);
        assert !HasKey(b.fields, name);
        FindsNothing(b.fields, name);
      }
    }
  }

  // Equal values read the same along any path.
  lemma {:induction false} WalksSame(x: Option<Json>, y: Option<Json>, names: seq<string>)
    requires Proper(x) && Proper(y) && SameAs(x, y)
    ensures var p, q := Walk(x, names), Walk(y, names); Proper(p) && Proper(q) && SameAs(p, q)
    decreases |names|
  {
    if x.Some? && names != [] {
      ChildrenSame(x.value, y.value, names[0]);
      WalksSame(Child(x.value, names[0]), Child(y.value, names[0]), names[1..]);
    }
  }

  lemma {:induction false} ItemPaths(v: Json, i: nat, k: nat, prefix: string)
    requires v.Arr? && i <= k < |v.items|
    ensures forall p :: p in Collect(v.items[k], Indexed(prefix, k)) ==> p in CollectItems(v, i, prefix)
    decreases k - i
  {
    if i < k {
      ItemPaths(v, i + 1, k, prefix);
    }
  }

  lemma {:induction false} FieldPaths(v: Json, i: nat, k: nat, prefix: string)
    requires v.Obj? && i <= k < |v.fields|
    ensures forall p :: p in Collect(v.fields[k].value, Joined(prefix, v.fields[k].key)) ==> p in CollectFields(v, i, prefix)
    decreases k - i
  {
    if i < k {
      FieldPaths(v, i + 1, k, prefix);
    }
  }

  lemma WalkItem(v: Json, k: nat, rest: seq<string>)
    requires v.Arr?
    ensures Walk(Some(v), [Decimal(k)] + rest) == if k < |v.items| then Walk(Some(v.items[k]), rest) else None
  {
    DecimalParses(k);
    assert ([Decimal(k)] + rest)[1..] == rest;
  }

  lemma WalkField(v: Json, k: nat, rest: seq<string>)
    requires v.Obj? && WellFormed(v) && k < |v.fields|
    ensures Walk(Some(v), [v.fields[k].key] + rest) == Walk(Some(v.fields[k].value), rest)
  {
    FindsField(v.fields, k);
    assert ([v.fields[k].key] + rest)[1..] == rest;
  }

  // Every value has a leaf, and its path reads back to it.
  lemma {:induction false} SomeLeaf(v: Json, prefix: string) returns (p: string, names: seq<string>)
    requires WellFormed(v) && PlainKeys(v) && (prefix != "" || !Pathless(v))
    ensures p in Collect(v, prefix) && p != "" && Segments(p) == Segments(prefix) + names
    ensures Walk(Some(v), names).Some?
    ensures !Pathless(v) ==> names != []
    decreases v
  {
    if Pathless(v) {
      p, names := prefix, [];
    } else if v.Arr? {
      var rest;
      SegmentsOfIndex(prefix, 0);
      p, rest := SomeLeaf(v.items[0], Indexed(prefix, 0));
      names := [Decimal(0)] + rest;
      ItemPaths(v, 0, 0, prefix);
      WalkItem(v, 0, rest);
      Reassociated(Segments(prefix), Decimal(0), rest);
    } else {
      var rest;
      SegmentsOfKey(prefix, v.fields[0].key);
      p, rest := SomeLeaf(v.fields[0].value, Joined(prefix, v.fields[0].key));
      names := [v.fields[0].key] + rest;
      FieldPaths(v, 0, 0, prefix);
      WalkField(v, 0, rest);
      Reassociated(Segments(prefix), v.fields[0].key, rest);
    }
  }

  lemma Reassociated(a: seq<string>, x: string, b: seq<string>)
    ensures (a + [x]) + b == a + ([x] + b)
  {
  }

  // A leaf path of `a` that `a` has and `b` has not.
  predicate OneSided(a: Json, b: Json, prefix: string, p: string, names: seq<string>) {
    && p in Collect(a, prefix) && p != ""
    && Segments(p) == Segments(prefix) + names
    && Walk(Some(a), names).Some? && Walk(Some(b), names).None?
  }

  lemma MissingItem(a: Json, b: Json, k: nat, prefix: string) returns (p: string, names: seq<string>)
    requires WellFormed(a) && PlainKeys(a) && a.Arr? && k < |a.items|
    requires Child(b, Decimal(k)).None?
    ensures OneSided(a, b, prefix, p, names)
  {
    var rest;
    SegmentsOfIndex(prefix, k);
    p, rest := SomeLeaf(a.items[k], Indexed(prefix, k));
    names := [Decimal(k)] + rest;
    ItemPaths(a, 0, k, prefix);
    WalkItem(a, k, rest);
    assert Child(b, names[0]).None?;
    Reassociated(Segments(prefix), Decimal(k), rest);
  }

  lemma MissingField(a: Json, b: Json, k: nat, prefix: string) returns (p: string, names: seq<string>)
    requires WellFormed(a) && PlainKeys(a) && a.Obj? && k < |a.fields|
    requires Child(b, a.fields[k].key).None?
    ensures OneSided(a, b, prefix, p, names)
  {
    var rest;
    SegmentsOfKey(prefix, a.fields[k].key);
    p, rest := SomeLeaf(a.fields[k].value, Joined(prefix, a.fields[k].key));
    names := [a.fields[k].key] + rest;
    FieldPaths(a, 0, k, prefix);
    WalkField(a, k, rest);
    assert Child(b, names[0]).None?;
    Reassociated(Segments(prefix), a.fields[k].key, rest);
  }

  lemma LeafAgainst(a: Json, b: Json, prefix: string) returns (p: string, names: seq<string>)
    requires WellFormed(a) && PlainKeys(a) && !Pathless(a) && b.Leaf?
    ensures OneSided(a, b, prefix, p, names)
  {
    p, names := SomeLeaf(a, prefix);
    assert Child(b, names[0]).None?;
    assert Walk(Some(b), names) == Walk(Child(b, names[0]), names[1..]);
  }

  // A leaf path of either side, read back the same way for both, where they differ.
  predicate Tells(a: Json, b: Json, pa: string, pb: string, p: string, names: seq<string>) {
    && (p in Collect(a, pa) || p in Collect(b, pb)) && p != ""
    && Segments(p) == Segments(pa) + names
    && !SameAs(Walk(Some(a), names), Walk(Some(b), names))
  }

  // No key spells an index otherwise than in plain decimals.
  predicate PlainNumbers(v: Json) {
    match v
    case Leaf(_) => true
    case Arr(items) => forall i :: 0 <= i < |items| ==> PlainNumbers(items[i])
    case Obj(fields) =>
      forall i :: 0 <= i < |fields| ==>
        PlainNumbers(fields[i].value)
        && (ParseIndex(fields[i].key).Some? ==> fields[i].key == Decimal(ParseIndex(fields[i].key).value))
  }

  predicate Carried(a: Json, b: Json) {
    && WellFormed(a) && WellFormed(b) && PlainKeys(a) && PlainKeys(b)
    && (NoClash(a, b) || (PlainNumbers(a) && PlainNumbers(b)))
  }

  predicate Comparable(a: Json, b: Json) {
    WellFormed(a) && WellFormed(b) && PlainKeys(a) && PlainKeys(b) && NoClash(a, b)
  }

  // The same place, by its path on either side.
  predicate SamePlace(pa: string, pb: string) { Segments(pa) == Segments(pb) && (pa == "" <==> pb == "") }

  // Two values that are not alike differ at some leaf path of one of them.
  lemma {:induction false} Witness(a: Json, b: Json, pa: string, pb: string) returns (p: string, names: seq<string>)
    requires Carried(a, b) && !Alike(a, b) && SamePlace(pa, pb)
    requires pa != "" || !Pathless(a) || !Pathless(b)
    ensures Tells(a, b, pa, pb, p, names)
    decreases a, 1
  {
    if a.Leaf? || b.Leaf? || (Pathless(a) && Pathless(b)) {
      p, names := WitnessLeaf(a, b, pa, pb);
    } else if a.Arr? && b.Arr? {
      p, names := WitnessItem(a, b, pa, pb);
    } else if a.Obj? && b.Obj? {
      p, names := WitnessField(a, b, pa, pb);
    } else if a.Obj? {
      p, names := WitnessObject(a, b, pa, pb);
    } else {
      p, names := WitnessArray(a, b, pa, pb);
    }
  }

  lemma WitnessLeaf(a: Json, b: Json, pa: string, pb: string) returns (p: string, names: seq<string>)
    requires Carried(a, b) && !Alike(a, b) && SamePlace(pa, pb)
    requires a.Leaf? || b.Leaf? || (Pathless(a) && Pathless(b))
    requires pa != "" || !Pathless(a) || !Pathless(b)
    ensures Tells(a, b, pa, pb, p, names)
  {
    if pa != "" {
      names := [];
      p := if Pathless(a) then pa else pb;
      assert Segments(pa) + [] == Segments(pa);
    } else if !Pathless(a) {
      p, names := LeafAgainst(a, b, pa);
    } else {
      p, names := LeafAgainst(b, a, pb);
    }
  }

  lemma WitnessItem(a: Json, b: Json, pa: string, pb: string) returns (p: string, names: seq<string>)
    requires Carried(a, b) && !Alike(a, b) && a.Arr? && b.Arr? && SamePlace(pa, pb)
    ensures Tells(a, b, pa, pb, p, names)
    decreases a, 0
  {
    if |a.items| > |b.items| {
      DecimalParses(|b.items|);
      p, names := MissingItem(a, b, |b.items|, pa);
    } else if |a.items| < |b.items| {
      DecimalParses(|a.items|);
      p, names := MissingItem(b, a, |a.items|, pb);
    } else {
      var k :| 0 <= k < |a.items| && !Alike(a.items[k], b.items[k]);
      var rest;
      SegmentsOfIndex(pa, k);
      SegmentsOfIndex(pb, k);
      p, rest := Witness(a.items[k], b.items[k], Indexed(pa, k), Indexed(pb, k));
      names := [Decimal(k)] + rest;
      ItemPaths(a, 0, k, pa);
      ItemPaths(b, 0, k, pb);
      WalkItem(a, k, rest);
      WalkItem(b, k, rest);
      Reassociated(Segments(pa), Decimal(k), rest);
    }
  }

  lemma WitnessField(a: Json, b: Json, pa: string, pb: string) returns (p: string, names: seq<string>)
    requires Carried(a, b) && !Alike(a, b) && a.Obj? && b.Obj? && SamePlace(pa, pb)
    ensures Tells(a, b, pa, pb, p, names)
    decreases a, 0
  {
    if i :| 0 <= i < |a.fields| && !HasKey(b.fields, a.fields[i].key) {
      FindsNothing(b.fields, a.fields[i].key);
      p, names := MissingField(a, b, i, pa);
    } else if j :| 0 <= j < |b.fields| && !HasKey(a.fields, b.fields[j].key) {
      FindsNothing(a.fields, b.fields[j].key);
      p, names := MissingField(b, a, j, pb);
    } else {
      assert SameKeys(a.fields, b.fields);
      var i, j :| 0 <= i < |a.fields| && 0 <= j < |b.fields| && a.fields[i].key == b.fields[j].key
                  && !Alike(a.fields[i].value, b.fields[j].value);
      var key, rest := a.fields[i].key, [];
      SegmentsOfKey(pa, key);
      SegmentsOfKey(pb, key);
      p, rest := Witness(a.fields[i].value, b.fields[j].value, Joined(pa, key), Joined(pb, key));
      names := [key] + rest;
      FieldPaths(a, 0, i, pa);
      FieldPaths(b, 0, j, pb);
      WalkField(a, i, rest);
      WalkField(b, j, rest);
      Reassociated(Segments(pa), key, rest);
    }
  }

  // An object against an array: a key that is no index of it, or an index that
  // is no key, tells at once.
  lemma OddKey(o: Json, r: Json, po: string, pr: string) returns (p: string, names: seq<string>)
    requires WellFormed(o) && PlainKeys(o) && WellFormed(r) && PlainKeys(r)
    requires o.Obj? && r.Arr? && !KeysAreIndices(o.fields, |r.items|)
    ensures OneSided(o, r, po, p, names) || OneSided(r, o, pr, p, names)
  {
    if j :| 0 <= j < |o.fields| && !(ParseIndex(o.fields[j].key).Some? && ParseIndex(o.fields[j].key).value < |r.items|) {
      p, names := MissingField(o, r, j, po);
    } else {
      var i :| 0 <= i < |r.items| && !HasKey(o.fields, Decimal(i));
      FindsNothing(o.fields, Decimal(i));
      p, names := MissingItem(r, o, i, pr);
    }
  }

  lemma WitnessObject(a: Json, b: Json, pa: string, pb: string) returns (p: string, names: seq<string>)
    requires Carried(a, b) && !Alike(a, b) && a.Obj? && b.Arr? && SamePlace(pa, pb) && !(Pathless(a) && Pathless(b))
    ensures Tells(a, b, pa, pb, p, names)
    decreases a, 0
  {
    if !KeysAreIndices(a.fields, |b.items|) {
      p, names := OddKey(a, b, pa, pb);
    } else {
      var i, j :| 0 <= i < |b.items| && 0 <= j < |a.fields| && ParseIndex(a.fields[j].key) == Some(i)
                  && !Alike(a.fields[j].value, b.items[i]);
      var key, rest := a.fields[j].key, [];
      SegmentsOfKey(pa, key);
      SegmentsOfIndex(pb, i);
      p, rest := Witness(a.fields[j].value, b.items[i], Joined(pa, key), Indexed(pb, i));
      names := [key] + rest;
      FieldPaths(a, 0, j, pa);
      ItemPaths(b, 0, i, pb);
      WalkField(a, j, rest);
      WalkItem(b, i, rest);
      Reassociated(Segments(pa), key, rest);
    }
  }

  lemma NoIndices(fields: seq<Field>, n: nat)
    requires KeysAreIndices(fields, n) && fields != []
    ensures n > 0
  {
    assert ParseIndex(fields[0].key).value < n;
  }

  lemma UnlikeItem(a: Json, b: Json) returns (i: nat, j: nat)
    requires a.Arr? && b.Obj? && !Alike(a, b) && a.items != [] && KeysAreIndices(b.fields, |a.items|)
    ensures i < |a.items| && j < |b.fields| && ParseIndex(b.fields[j].key) == Some(i) && !Alike(a.items[i], b.fields[j].value)
  {
    i, j :| 0 <= i < |a.items| && 0 <= j < |b.fields| && ParseIndex(b.fields[j].key) == Some(i)
            && !Alike(a.items[i], b.fields[j].value);
  }

  lemma WitnessArray(a: Json, b: Json, pa: string, pb: string) returns (p: string, names: seq<string>)
    requires Carried(a, b) && !Alike(a, b) && a.Arr? && b.Obj? && SamePlace(pa, pb) && !(Pathless(a) && Pathless(b))
    ensures Tells(a, b, pa, pb, p, names)
    decreases a, 0
  {
    if !KeysAreIndices(b.fields, |a.items|) {
      p, names := OddKey(b, a, pb, pa);
    } else {
      if b.fields != [] {
        NoIndices(b.fields, |a.items|);
      }
      var i, j := UnlikeItem(a, b);
      var key, rest := b.fields[j].key, [];
      SegmentsOfIndex(pa, i);
      SegmentsOfKey(pb, key);
      p, rest := Witness(a.items[i], b.fields[j].value, Indexed(pa, i), Joined(pb, key));
      names := [key] + rest;
      ItemPaths(a, 0, i, pa);
      FieldPaths(b, 0, j, pb);
      WalkItem(a, i, rest);
      WalkField(b, j, rest);
      Reassociated(Segments(pa), key, rest);
    }
  }

  ghost predicate NoDiffs(a: Json, b: Json, le: (string, string) -> bool) {
    forall d :: !Reported(a, b, le, d)
  }

  lemma SameValueMeansSame(x: Option<Json>, y: Option<Json>, le: (string, string) -> bool)
    requires Order(le) && Proper(x) && Proper(y)
    ensures SameValue(x, y, le) <==> SameAs(x, y)
  {
    if x.Some? && y.Some? {
      SameValueIsEqual(x.value, y.value, le);
    }
  }

  lemma WalkIsProper(x: Option<Json>, names: seq<string>)
    requires Proper(x)
    ensures Proper(Walk(x, names))
  {
    if x.Some? {
      EqualToItself(x.value);
      WalksSame(x, x, names);
    }
  }

  lemma {:induction false} EqualToItself(v: Json)
    requires WellFormed(v)
    ensures Equal(v, v)
  {
    match v
    case Leaf(_) =>
    case Arr(items) =>
      forall i | 0 <= i < |items|
        ensures Equal(items[i], items[i])
      {
        EqualToItself(items[i]);
      }
    case Obj(fields) =>
      forall i | 0 <= i < |fields|
        ensures Equal(fields[i].value, fields[i].value)
      {
        EqualToItself(fields[i].value);
      }
  }

  lemma {:induction false} ItemOf(v: Json, i: nat, prefix: string, p: string) returns (k: nat)
    requires v.Arr? && i <= |v.items| && p in CollectItems(v, i, prefix)
    ensures i <= k < |v.items| && p in Collect(v.items[k], Indexed(prefix, k))
    decreases |v.items| - i
  {
    if p in Collect(v.items[i], Indexed(prefix, i)) {
      k := i;
    } else {
      k := ItemOf(v, i + 1, prefix, p);
    }
  }

  lemma {:induction false} FieldOf(v: Json, i: nat, prefix: string, p: string) returns (k: nat)
    requires v.Obj? && i <= |v.fields| && p in CollectFields(v, i, prefix)
    ensures i <= k < |v.fields| && p in Collect(v.fields[k].value, Joined(prefix, v.fields[k].key))
    decreases |v.fields| - i
  {
    if p in Collect(v.fields[i].value, Joined(prefix, v.fields[i].key)) {
      k := i;
    } else {
      k := FieldOf(v, i + 1, prefix, p);
    }
  }

  // The value that stands where item k of an alike array does.
  lemma AlikeItem(a: Json, b: Json, k: nat) returns (w: Json)
    requires WellFormed(b) && PlainKeys(b) && Alike(a, b) && a.Arr? && k < |a.items|
    ensures Child(b, Decimal(k)) == Some(w) && Alike(a.items[k], w) && WellFormed(w) && PlainKeys(w)
  {
    DecimalParses(k);
    if b.Arr? {
      w := b.items[k];
    } else {
      assert HasKey(b.fields, Decimal(k));
      var j :| 0 <= j < |b.fields| && b.fields[j].key == Decimal(k);
      FindsField(b.fields, j);
      w := b.fields[j].value;
    }
  }

  // The value that stands where field k of an alike object does.
  lemma AlikeField(a: Json, b: Json, k: nat) returns (w: Json)
    requires WellFormed(b) && PlainKeys(b) && Alike(a, b) && a.Obj? && k < |a.fields|
    ensures Child(b, a.fields[k].key) == Some(w) && Alike(a.fields[k].value, w) && WellFormed(w) && PlainKeys(w)
  {
    if b.Obj? {
      assert HasKey(b.fields, a.fields[k].key);
      var j :| 0 <= j < |b.fields| && b.fields[j].key == a.fields[k].key;
      FindsField(b.fields, j);
      w := b.fields[j].value;
    } else {
      w := b.items[ParseIndex(a.fields[k].key).value];
    }
  }

  lemma ChildWalk(b: Json, key: string, w: Json, rest: seq<string>)
    requires Child(b, key) == Some(w)
    ensures Walk(Some(b), [key] + rest) == Walk(Some(w), rest)
  {
    assert ([key] + rest)[1..] == rest;
  }

  lemma ItemReads(a: Json, b: Json, k: nat, w: Json, prefix: string, p: string, rest: seq<string>)
    requires a.Arr? && k < |a.items| && Child(b, Decimal(k)) == Some(w)
    requires Segments(p) == Segments(Indexed(prefix, k)) + rest
    requires SameAs(Walk(Some(a.items[k]), rest), Walk(Some(w), rest))
    ensures Segments(p) == Segments(prefix) + ([Decimal(k)] + rest)
    ensures SameAs(Walk(Some(a), [Decimal(k)] + rest), Walk(Some(b), [Decimal(k)] + rest))
  {
    SegmentsOfIndex(prefix, k);
    Reassociated(Segments(prefix), Decimal(k), rest);
    WalkItem(a, k, rest);
    ChildWalk(b, Decimal(k), w, rest);
  }

  lemma FieldReads(a: Json, b: Json, k: nat, w: Json, prefix: string, p: string, rest: seq<string>)
    requires a.Obj? && WellFormed(a) && PlainKeys(a) && k < |a.fields| && Child(b, a.fields[k].key) == Some(w)
    requires Segments(p) == Segments(Joined(prefix, a.fields[k].key)) + rest
    requires SameAs(Walk(Some(a.fields[k].value), rest), Walk(Some(w), rest))
    ensures Segments(p) == Segments(prefix) + ([a.fields[k].key] + rest)
    ensures SameAs(Walk(Some(a), [a.fields[k].key] + rest), Walk(Some(b), [a.fields[k].key] + rest))
  {
    var key := a.fields[k].key;
    SegmentsOfKey(prefix, key);
    Reassociated(Segments(prefix), key, rest);
    WalkField(a, k, rest);
    ChildWalk(b, key, w, rest);
  }

  // Every leaf path of a value reads the same in one that is alike.
  lemma {:induction false} LeavesReadAlike(a: Json, b: Json, prefix: string, p: string) returns (names: seq<string>)
    requires WellFormed(a) && PlainKeys(a) && WellFormed(b) && PlainKeys(b) && Alike(a, b) && p in Collect(a, prefix)
    ensures Segments(p) == Segments(prefix) + names && p != ""
    ensures SameAs(Walk(Some(a), names), Walk(Some(b), names))
    decreases a
  {
    if Pathless(a) {
      names := [];
      assert Segments(prefix) + [] == Segments(prefix);
      PathlessAlike(a, b);
    } else if a.Arr? {
      var k := ItemOf(a, 0, prefix, p);
      var w := AlikeItem(a, b, k);
      var rest := LeavesReadAlike(a.items[k], w, Indexed(prefix, k), p);
      names := [Decimal(k)] + rest;
      ItemReads(a, b, k, w, prefix, p, rest);
    } else {
      var k := FieldOf(a, 0, prefix, p);
      var w := AlikeField(a, b, k);
      var rest := LeavesReadAlike(a.fields[k].value, w, Joined(prefix, a.fields[k].key), p);
      names := [a.fields[k].key] + rest;
      FieldReads(a, b, k, w, prefix, p, rest);
    }
  }

  lemma PathlessAlike(a: Json, b: Json)
    requires Pathless(a) && Alike(a, b)
    ensures Equal(a, b)
  {
    if a == Obj([]) {
      assert !HasKey(a.fields, Decimal(0));
      assert b.Obj? && b.fields != [] ==> HasKey(a.fields, b.fields[0].key);
    }
  }

  lemma {:induction false} AlikeBothWays(a: Json, b: Json)
    requires Alike(a, b)
    ensures Alike(b, a)
    decreases a
  {
    match (a, b)
    case (Arr(x), Arr(y)) =>
      forall i | 0 <= i < |x|
        ensures Alike(y[i], x[i])
      {
        AlikeBothWays(x[i], y[i]);
      }
    case (Obj(x), Obj(y)) =>
      forall i, j | 0 <= i < |x| && 0 <= j < |y| && x[i].key == y[j].key
        ensures Alike(y[j].value, x[i].value)
      {
        AlikeBothWays(x[i].value, y[j].value);
      }
    case (Arr(x), Obj(y)) =>
      forall i, j | 0 <= i < |x| && 0 <= j < |y| && ParseIndex(y[j].key) == Some(i)
        ensures Alike(y[j].value, x[i])
      {
        AlikeBothWays(x[i], y[j].value);
      }
    case (Obj(x), Arr(y)) =>
      forall i, j | 0 <= i < |y| && 0 <= j < |x| && ParseIndex(x[j].key) == Some(i)
        ensures Alike(y[i], x[j].value)
      {
        AlikeBothWays(x[j].value, y[i]);
      }
    case _ =>
  }

  lemma LeafReadsSame(a: Json, b: Json, p: string, le: (string, string) -> bool)
    requires Order(le) && WellFormed(a) && PlainKeys(a) && WellFormed(b) && PlainKeys(b) && Alike(a, b) && p in Collect(a, "")
    ensures SameValue(AtPath(Some(a), p), AtPath(Some(b), p), le)
  {
    var names := LeavesReadAlike(a, b, "", p);
    assert Segments("") + names == names;
    WalkIsProper(Some(a), names);
    WalkIsProper(Some(b), names);
    SameValueMeansSame(AtPath(Some(a), p), AtPath(Some(b), p), le);
  }

  // For all values whose keys a path can carry: the diff is empty exactly when
  // the two are alike, or neither has a leaf path.
  lemma EmptyDiffIsAlike(a: Json, b: Json, le: (string, string) -> bool)
    requires Order(le) && Carried(a, b)
    ensures NoDiffs(a, b, le) <==> Alike(a, b) || (Pathless(a) && Pathless(b))
  {
    if Alike(a, b) {
      AlikeBothWays(a, b);
      forall d
        ensures !Reported(a, b, le, d)
      {
        if d.path in Collect(a, "") {
          LeafReadsSame(a, b, d.path, le);
        } else if d.path in Collect(b, "") {
          LeafReadsSame(b, a, d.path, le);
        }
      }
    } else if !Pathless(a) || !Pathless(b) {
      var p, names := Witness(a, b, "", "");
      assert Segments("") + names == names;
      WalkIsProper(Some(a), names);
      WalkIsProper(Some(b), names);
      SameValueMeansSame(AtPath(Some(a), p), AtPath(Some(b), p), le);
      assert Reported(a, b, le, DiffAt(a, b, p));
    } else {
      assert Collect(a, "") == [] && Collect(b, "") == [];
    }
  }

  // Where moreover no array stands against an object, that is equality up to
  // key order: every real change is reported, and nothing else.
  lemma EmptyDiffIsEqual(a: Json, b: Json, le: (string, string) -> bool)
    requires Order(le) && Comparable(a, b)
    ensures NoDiffs(a, b, le) <==> Equal(a, b) || (Pathless(a) && Pathless(b))
  {
    EmptyDiffIsAlike(a, b, le);
    AlikeIsEqual(a, b);
  }

  method CollectChanges(a: Json, b: Json, paths: seq<string>, le: (string, string) -> bool) returns (found: seq<Diff>)
    ensures forall d :: d in found <==> d.path in paths && d == DiffAt(a, b, d.path) && !SameValue(d.previous, d.next, le)
    ensures forall d :: multiset(found)[d] <= 1
  {
    var seen := {};
    found := [];
    for i := 0 to |paths|
      invariant forall p :: p in seen <==> p in paths[..i]
      invariant forall d :: d in found <==> d.path in seen && d == DiffAt(a, b, d.path) && !SameValue(d.previous, d.next, le)
      invariant forall d :: multiset(found)[d] <= 1
    {
      var path := paths[i];
      assert paths[..i + 1] == paths[..i] + [path];
      if path !in seen {
        seen := seen + {path};
        var x := GetAtPath(Some(a), path);
        var y := GetAtPath(Some(b), path);
        if !SameValue(x, y, le) {
          var change := if x.None? then Added else if y.None? then Removed else Changed;
          found := found + [Diff(SectionOf(path), path, x, y, change)];
        }
      }
    }
    assert paths[..|paths|] == paths;
  }

  lemma WhenNoneIsReported(a: Json, b: Json, diffs: seq<Diff>, le: (string, string) -> bool)
    requires Order(le) && forall d :: d in diffs <==> Reported(a, b, le, d)
    ensures Carried(a, b) ==> (diffs == [] <==> Alike(a, b) || (Pathless(a) && Pathless(b)))
    ensures Comparable(a, b) ==> (diffs == [] <==> Equal(a, b) || (Pathless(a) && Pathless(b)))
  {
    assert diffs != [] ==> diffs[0] in diffs;
    if Carried(a, b) {
      EmptyDiffIsAlike(a, b, le);
    }
    if Comparable(a, b) {
      EmptyDiffIsEqual(a, b, le);
    }
  }

  // One entry per leaf path of either side whose two values differ, in path
  // order; none exactly when the sides are equal, where paths can tell.
  method BuildFieldDiffs(a: Json, b: Json, le: (string, string) -> bool) returns (diffs: seq<Diff>)
    requires Order(le)
    ensures forall d :: d in diffs <==> Reported(a, b, le, d)
    ensures forall d :: multiset(diffs)[d] <= 1
    ensures SortedBy(diffs, ByPath(le))
    ensures Carried(a, b) ==> (diffs == [] <==> Alike(a, b) || (Pathless(a) && Pathless(b)))
    ensures Comparable(a, b) ==> (diffs == [] <==> Equal(a, b) || (Pathless(a) && Pathless(b)))
  {
    var paths := Collect(a, "") + Collect(b, "");
    var found := CollectChanges(a, b, paths, le);
    diffs := Sort(found, ByPath(le));
    PathOrder(le);
    SortSorts(found, ByPath(le));
    forall d
      ensures d in diffs <==> d in found
    {
      assert d in multiset(diffs) <==> d in multiset(found);
    }
    WhenNoneIsReported(a, b, diffs, le);
  }

  /* ---- The excluded cases are real ---- */

  function One(key: string, v: Json): Json { Obj([Field(key, v)]) }

  function Number(n: real): Json { Leaf(Num(n)) }

  lemma CollectOne(key: string, v: Json, prefix: string)
    ensures Collect(One(key, v), prefix) == Collect(v, Joined(prefix, key))
  {
    var o := One(key, v);
    assert CollectFields(o, 1, prefix) == [];
    assert CollectFields(o, 0, prefix) == Collect(v, Joined(prefix, key)) + [];
  }

  lemma WalkOne(key: string, v: Json, names: seq<string>)
    ensures Walk(Some(One(key, v)), names) ==
            if names == [] then Some(One(key, v)) else if names[0] == key then Walk(Some(v), names[1..]) else None
  {
    assert One(key, v).fields[1..] == [];
    if names != [] && names[0] != key {
      assert Find(One(key, v).fields[1..], names[0]).None?;
    }
  }

  lemma WalkLeaf(v: Json, names: seq<string>)
    requires v.Leaf?
    ensures Walk(Some(v), names) == if names == [] then Some(v) else None
  {
    if names != [] {
      assert Child(v, names[0]).None?;
    }
  }

  lemma NumbersDiffer(key: string, x: real, y: real)
    requires x != y
    ensures !Equal(One(key, Number(x)), One(key, Number(y)))
  {
    var a, b := One(key, Number(x)), One(key, Number(y));
    assert a.fields[0].key == b.fields[0].key && !Equal(a.fields[0].value, b.fields[0].value);
  }

  // A change under a single key goes unreported exactly when the key is empty
  // or its path is read back as other keys: a dotted or indexed key.
  lemma KeyHidesExactly(key: string, x: real, y: real, le: (string, string) -> bool)
    requires x != y && Order(le)
    ensures !Equal(One(key, Number(x)), One(key, Number(y)))
    ensures NoDiffs(One(key, Number(x)), One(key, Number(y)), le)
            <==> key == "" || (Segments(key) != [] && Segments(key) != [key])
  {
    var a, b := One(key, Number(x)), One(key, Number(y));
    var names := Segments(key);
    NumbersDiffer(key, x, y);
    CollectOne(key, Number(x), "");
    CollectOne(key, Number(y), "");
    WalkOne(key, Number(x), names);
    WalkOne(key, Number(y), names);
    if names != [] {
      WalkLeaf(Number(x), names[1..]);
      WalkLeaf(Number(y), names[1..]);
      assert names[0] == key && names[1..] == [] <==> names == [key];
    }
    if key != "" {
      SameValueMeansSame(AtPath(Some(a), key), AtPath(Some(b), key), le);
      assert Reported(a, b, le, DiffAt(a, b, key)) <==> !SameAs(AtPath(Some(a), key), AtPath(Some(b), key));
    }
  }

  lemma TwinsAreAlike(v: Json)
    requires v.Leaf?
    ensures var o, r := One("0", v), Arr([v]);
            Alike(o, r) && !Equal(o, r) && PlainNumbers(o) && PlainNumbers(r) && PlainKeys(o)
  {
    var o := One("0", v);
    assert Plain("0") && Decimal(0) == "0";
    DecimalParses(0);
    assert ParseIndex("0") == Some(0);
    assert o.fields[0].key == Decimal(0);
  }

  // An array and an object keyed by its indices are alike, and nothing is reported.
  lemma ClashHidesAChange(v: Json, le: (string, string) -> bool)
    requires Order(le) && v.Leaf?
    ensures var a, b := One("k", One("0", v)), One("k", Arr([v]));
            !Equal(a, b) && NoDiffs(a, b, le)
  {
    var a, b := One("k", One("0", v)), One("k", Arr([v]));
    TwinsAreAlike(v);
    assert Plain("k") && !Digit("k"[0]);
    assert ParseIndex("k").None?;
    assert a.fields[0].key == b.fields[0].key;
    EmptyDiffIsAlike(a, b, le);
  }
}
