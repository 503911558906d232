/** The sections of a diff: which parts of a configuration its entries lie in. */
module ConfigSections {
  import opened ConfigDiff
  import opened Digits
  import opened Sorting
  import opened Wrappers

  predicate Undivided(s: string) { forall i :: 0 <= i < |s| ==> !Divider(s[i]) }

  lemma SectionsAreWords(s: string)
    requires s in SECTIONS
    ensures Undivided(s) && s != ""
  {
    assert Undivided("basicSettings");
    assert Undivided("nodes");
    assert Undivided("subscriptions");
    assert Undivided("appUpdate");
    assert Undivided("ruleManage");
  }

  // The first word of a path, past any dividers.
  lemma {:induction false} RootExactly(dividers: string, word: string, rest: string)
    requires (forall i :: 0 <= i < |dividers| ==> dividers[i] == '.' || dividers[i] == '[' || dividers[i] == ']')
    requires word != "" && Undivided(word) && GoesOn(rest)
    ensures Root(dividers + (word + rest)) == word
  {
    var s := dividers + (word + rest);
    if dividers == "" {
      assert s == word + rest && s[0] == word[0];
      WordOf(word, rest);
    } else {
      assert s[1..] == dividers[1..] + (word + rest);
      RootExactly(dividers[1..], word, rest);
    }
  }

  // A path lies in the section its first word names, and in the basic settings
  // where that names none.
  lemma SectionExactly(path: string)
    ensures SectionOf(path) ==
            if Root(path) in {"basicSettings", "nodes", "subscriptions", "appUpdate", "ruleManage"} then Root(path) else "basicSettings"
  {
  }

  // What may follow a path in a longer one.
  predicate GoesOn(t: string) { t == "" || Divider(t[0]) }

  lemma {:induction false} WordOf(s: string, t: string)
    requires Undivided(s) && GoesOn(t)
    ensures Word(s + t) == s
  {
    if s == "" {
      assert s + t == t;
    } else {
      assert (s + t)[1..] == s[1..] + t;
      WordOf(s[1..], t);
    }
  }

  lemma SectionOfPath(s: string, t: string)
    requires s in {"basicSettings", "nodes", "subscriptions", "appUpdate", "ruleManage"} && GoesOn(t)
    ensures SectionOf(s + t) == s
  {
    SectionsAreWords(s);
    WordOf(s, t);
    assert (s + t)[0] == s[0];
  }

  // The paths below a prefix go on from it.
  predicate Below(p: string, prefix: string) { |prefix| <= |p| && p[..|prefix|] == prefix && GoesOn(p[|prefix|..]) }

  lemma BelowTwice(p: string, prefix: string, more: string)
    requires GoesOn(more) && more != "" && Below(p, prefix + more)
    ensures Below(p, prefix)
  {
    var q := prefix + more;
    assert p[..|prefix|] == q[..|prefix|] == prefix;
    assert p[|prefix|] == q[|prefix|] == more[0];
  }

  lemma BelowItem(p: string, prefix: string, k: nat)
    requires Below(p, Indexed(prefix, k))
    ensures Below(p, prefix)
  {
    var more := "[" + (Decimal(k) + "]");
    assert Indexed(prefix, k) == prefix + more;
    BelowTwice(p, prefix, more);
  }

  lemma BelowField(p: string, prefix: string, key: string)
    requires prefix != "" && Below(p, Joined(prefix, key))
    ensures Below(p, prefix)
  {
    assert Joined(prefix, key) == prefix + ("." + key);
    BelowTwice(p, prefix, "." + key);
  }

  lemma {:induction false} CollectGoesOn(v: Json, prefix: string, p: string)
    requires prefix != "" && p in Collect(v, prefix)
    ensures Below(p, prefix)
    decreases v
  {
    if Pathless(v) {
      assert p == prefix;
    } else if v.Arr? {
      var k := ItemOf(v, 0, prefix, p);
      CollectGoesOn(v.items[k], Indexed(prefix, k), p);
      BelowItem(p, prefix, k);
    } else {
      var k := FieldOf(v, 0, prefix, p);
      CollectGoesOn(v.fields[k].value, Joined(prefix, v.fields[k].key), p);
      BelowField(p, prefix, v.fields[k].key);
    }
  }

  /* ---- One section of a configuration ---- */

  // A configuration's keys are sections; no two are the same.
  predicate Sectioned(v: Json) {
    v.Obj? && WellFormed(v) && PlainKeys(v) && forall i :: 0 <= i < |v.fields| ==> v.fields[i].key in SECTIONS
  }

  function Only(v: Json, s: string): Json
    requires v.Obj?
  {
    match Find(v.fields, s)
    case None => Obj([])
    case Some(x) => One(s, x)
  }

  lemma {:induction false} FoundAt(fields: seq<Field>, s: string) returns (i: nat)
    requires Find(fields, s).Some?
    ensures i < |fields| && fields[i] == Field(s, Find(fields, s).value)
  {
    if fields[0].key == s {
      i := 0;
    } else {
      i := FoundAt(fields[1..], s);
      i := i + 1;
    }
  }

  // The paths under a section's key are in that section.
  lemma PathsOfKey(x: Json, key: string, p: string)
    requires key in SECTIONS && p in Collect(x, key)
    ensures SectionOf(p) == key
  {
    SectionsAreWords(key);
    CollectGoesOn(x, key, p);
    assert p == key + p[|key|..];
    SectionOfPath(key, p[|key|..]);
  }

  lemma PathOfSection(v: Json, p: string)
    requires Sectioned(v) && p in Collect(v, "")
    ensures p in Collect(Only(v, SectionOf(p)), "")
  {
    var k := FieldOf(v, 0, "", p);
    var f := v.fields[k];
    PathsOfKey(f.value, f.key, p);
    FindsField(v.fields, k);
    CollectOne(f.key, f.value, "");
  }

  lemma SectionOfOnly(v: Json, s: string, p: string)
    requires Sectioned(v) && s in SECTIONS && p in Collect(Only(v, s), "")
    ensures p in Collect(v, "") && SectionOf(p) == s
  {
    var i := FoundAt(v.fields, s);
    CollectOne(s, v.fields[i].value, "");
    PathsOfKey(v.fields[i].value, s, p);
    FieldPaths(v, 0, i, "");
  }

  lemma SectionPaths(v: Json, s: string, p: string)
    requires Sectioned(v) && s in SECTIONS
    ensures p in Collect(v, "") && SectionOf(p) == s <==> p in Collect(Only(v, s), "")
  {
    if p in Collect(v, "") {
      PathOfSection(v, p);
    }
    if p in Collect(Only(v, s), "") {
      SectionOfOnly(v, s, p);
    }
  }

  lemma {:induction false} ClashesNotWithItself(v: Json)
    requires WellFormed(v)
    ensures NoClash(v, v)
  {
    match v
    case Leaf(_) =>
    case Arr(items) =>
      forall i | 0 <= i < |items|
        ensures NoClash(items[i], items[i])
      {
        ClashesNotWithItself(items[i]);
      }
    case Obj(fields) =>
      forall i | 0 <= i < |fields|
        ensures NoClash(fields[i].value, fields[i].value)
      {
        ClashesNotWithItself(fields[i].value);
      }
  }

  lemma AlikeToItself(v: Json)
    requires WellFormed(v)
    ensures Alike(v, v)
  {
    ClashesNotWithItself(v);
    EqualToItself(v);
    AlikeIsEqual(v, v);
  }

  // A path of a section leads through it first, whatever it is read on.
  lemma SectionFirst(v: Json, s: string, p: string) returns (rest: seq<string>)
    requires Sectioned(v) && s in SECTIONS && p in Collect(Only(v, s), "")
    ensures p != "" && Segments(p) == [s] + rest
  {
    var i := FoundAt(v.fields, s);
    var x := v.fields[i].value;
    CollectOne(s, x, "");
    AlikeToItself(x);
    rest := LeavesReadAlike(x, x, s, p);
    SegmentsOfKey("", s);
    assert Segments("") == [] && [] + [s] == [s];
  }

  lemma ReadsOnly(v: Json, s: string, rest: seq<string>)
    requires v.Obj?
    ensures Walk(Some(v), [s] + rest) == Walk(Some(Only(v, s)), [s] + rest)
  {
    assert ([s] + rest)[1..] == rest;
    assert Child(Only(v, s), s) == Child(v, s);
  }

  // The entries of a section are those of its two values alone.
  lemma SectionEntries(a: Json, b: Json, le: (string, string) -> bool, s: string, d: Diff)
    requires Sectioned(a) && Sectioned(b) && s in SECTIONS
    ensures Reported(a, b, le, d) && d.section == s <==> Reported(Only(a, s), Only(b, s), le, d)
  {
    var p := d.path;
    SectionPaths(a, s, p);
    SectionPaths(b, s, p);
    if p in Collect(Only(a, s), "") || p in Collect(Only(b, s), "") {
      var rest;
      if p in Collect(Only(a, s), "") {
        rest := SectionFirst(a, s, p);
      } else {
        rest := SectionFirst(b, s, p);
      }
      ReadsOnly(a, s, rest);
      ReadsOnly(b, s, rest);
    }
  }

  predicate AlikeThere(x: Option<Json>, y: Option<Json>) {
    match (x, y)
    case (None, None) => true
    case (Some(a), Some(b)) => Alike(a, b)
    case _ => false
  }

  lemma OnlyAlike(a: Json, b: Json, s: string)
    requires a.Obj? && b.Obj?
    ensures Alike(Only(a, s), Only(b, s)) <==> AlikeThere(Find(a.fields, s), Find(b.fields, s))
  {
    var x, y := Only(a, s), Only(b, s);
    assert x.fields != [] ==> x.fields[0].key == s;
    assert y.fields != [] ==> y.fields[0].key == s;
    assert x.fields != [] && y.fields != [] ==> SameKeys(x.fields, y.fields);
    assert x.fields != [] && y.fields == [] ==> !HasKey(y.fields, x.fields[0].key);
    assert y.fields != [] && x.fields == [] ==> !HasKey(x.fields, y.fields[0].key);
  }

  lemma OnlyIsSound(v: Json, s: string)
    requires Sectioned(v)
    ensures WellFormed(Only(v, s)) && PlainKeys(Only(v, s)) && (PlainNumbers(v) ==> PlainNumbers(Only(v, s)))
  {
    if Find(v.fields, s).Some? {
      var i := FoundAt(v.fields, s);
    }
  }

  lemma OnlyNoClash(a: Json, b: Json, s: string)
    requires a.Obj? && b.Obj? && NoClash(a, b)
    ensures NoClash(Only(a, s), Only(b, s))
  {
    if Find(a.fields, s).Some? && Find(b.fields, s).Some? {
      var i := FoundAt(a.fields, s);
      var j := FoundAt(b.fields, s);
      assert NoClash(a.fields[i].value, b.fields[j].value);
    }
  }

  lemma OnlyCarried(a: Json, b: Json, s: string)
    requires Sectioned(a) && Sectioned(b) && Carried(a, b)
    ensures Carried(Only(a, s), Only(b, s))
  {
    OnlyIsSound(a, s);
    OnlyIsSound(b, s);
    if NoClash(a, b) {
      OnlyNoClash(a, b, s);
    }
  }

  // A section has an entry exactly when its two values differ (up to key order
  // and to arrays against objects keyed by their indices), or only one side has it.
  lemma SectionsAreExact(a: Json, b: Json, le: (string, string) -> bool, s: string)
    requires Order(le) && Carried(a, b) && Sectioned(a) && Sectioned(b) && s in SECTIONS
    ensures (exists d :: Reported(a, b, le, d) && d.section == s) <==> !AlikeThere(Find(a.fields, s), Find(b.fields, s))
  {
    var x, y := Only(a, s), Only(b, s);
    forall d
      ensures Reported(a, b, le, d) && d.section == s <==> Reported(x, y, le, d)
    {
      SectionEntries(a, b, le, s, d);
    }
    OnlyCarried(a, b, s);
    OnlyAlike(a, b, s);
    EmptyDiffIsAlike(x, y, le);
  }
}
