/** The draft editor's operations on a configuration: removing nodes, binding
    shunt rules to nodes, renaming a rule. Each works on a copy of the draft. */
module RouterEditor {
  import opened Picking
  import opened Trimming
  import opened Wrappers

  datatype Extra = Text(s: string) | Other(n: int)

  type Extras = map<string, Extra>

  datatype Node = Node(id: string, protocol: string, title: string, extras: Extras)

  datatype Socks = Socks(id: string, nodeId: string, backups: seq<string>)

  datatype Rule = Rule(id: string, title: string, outbound: Option<string>, extras: Extras)

  datatype Subscription = Subscription(id: string, extras: Extras)

  // The rules are kept twice: in the basic settings and in the rule manager.
  datatype Config = Config(
    selected: Option<string>,
    socks: seq<Socks>,
    rules: seq<Rule>,
    managedRules: seq<Rule>,
    nodes: seq<Node>,
    subscriptions: seq<Subscription>)

  predicate Synced(c: Config) { c.managedRules == c.rules }

  /* ---- Removing nodes ---- */

  predicate EndsWith(s: string, suffix: string) { |suffix| <= |s| && s[|s| - |suffix|..] == suffix }

  predicate RefKey(key: string) { key == "default_node" || key == "to_node" || EndsWith(key, "_proxy_tag") }

  predicate NamesRemoved(e: Extras, key: string, removed: set<string>) {
    key in e && RefKey(key) && e[key].Text? && e[key].s in removed
  }

  function PrunedExtras(e: Extras, removed: set<string>): Extras {
    map k | k in e && !NamesRemoved(e, k, removed) :: e[k]
  }

  method PruneExtras(e: Extras, removed: set<string>) returns (r: Extras)
    ensures r == PrunedExtras(e, removed)
  {
    r := e;
    var rest := e.Keys;
    while rest != {}
      invariant rest <= e.Keys
      invariant r == map k | k in e && (k in rest || !NamesRemoved(e, k, removed)) :: e[k]
    {
      var key :| key in rest;
      rest := rest - {key};
      if e[key].Text? && RefKey(key) && e[key].s in removed {
        r := r - {key};
      }
    }
  }

  // What goes of a node's or subscription's extras is exactly what refers, by its
  // key, to a node and names a removed one.
  lemma PrunedExtrasExactly(e: Extras, removed: set<string>, k: string)
    requires k in e
    ensures k in PrunedExtras(e, removed) <==>
              !(e[k].Text? && e[k].s in removed && (k == "default_node" || k == "to_node" || exists p :: k == p + "_proxy_tag"))
    ensures k in PrunedExtras(e, removed) ==> PrunedExtras(e, removed)[k] == e[k]
  {
    var suffix := "_proxy_tag";
    if p :| k == p + suffix {
      assert k[|k| - |suffix|..] == suffix;
    }
    if EndsWith(k, suffix) {
      assert k == k[..|k| - |suffix|] + suffix;
    }
  }

  function KeptNodes(nodes: seq<Node>, removed: set<string>): seq<Node> {
    if nodes == [] then []
    else
      var n := nodes[|nodes| - 1];
      KeptNodes(nodes[..|nodes| - 1], removed)
      + if n.id in removed then [] else [n.(extras := PrunedExtras(n.extras, removed))]
  }

  function KeptBackups(ids: seq<string>, removed: set<string>, fallback: Option<string>): seq<string> {
    if ids == [] then []
    else
      var kept, id := KeptBackups(ids[..|ids| - 1], removed, fallback), ids[|ids| - 1];
      if id in removed || fallback == Some(id) || id in kept then kept else kept + [id]
  }

  predicate MovesTo(fallback: Option<string>) { fallback.Some? && fallback.value != "" }

  // An entry whose node goes moves to the first node left.
  function Moved(x: Socks, removed: set<string>, fallback: Option<string>): Socks
    requires x.nodeId !in removed || MovesTo(fallback)
  {
    Socks(x.id, if x.nodeId in removed then fallback.value else x.nodeId, KeptBackups(x.backups, removed, fallback))
  }

  function KeptSocks(socks: seq<Socks>, removed: set<string>, fallback: Option<string>): seq<Socks> {
    if socks == [] then []
    else
      var kept, x := KeptSocks(socks[..|socks| - 1], removed, fallback), socks[|socks| - 1];
      if x.nodeId !in removed || MovesTo(fallback) then kept + [Moved(x, removed, fallback)] else kept
  }

  function KeptRule(r: Rule, removed: set<string>): Rule {
    if r.outbound.Some? && r.outbound.value != "" && r.outbound.value in removed then r.(outbound := None) else r
  }

  function KeptRules(rules: seq<Rule>, removed: set<string>): (r: seq<Rule>)
    ensures |r| == |rules| && forall i :: 0 <= i < |r| ==> r[i] == KeptRule(rules[i], removed)
  {
    seq(|rules|, i requires 0 <= i < |rules| => KeptRule(rules[i], removed))
  }

  function KeptSubscriptions(subs: seq<Subscription>, removed: set<string>): seq<Subscription> {
    seq(|subs|, i requires 0 <= i < |subs| => subs[i].(extras := PrunedExtras(subs[i].extras, removed)))
  }

  function FirstId(nodes: seq<Node>): Option<string> { if nodes == [] then None else Some(nodes[0].id) }

  function Pruned(c: Config, removed: set<string>): Config {
    if removed == {} then c
    else
      var nodes := KeptNodes(c.nodes, removed);
      var fallback := FirstId(nodes);
      var rules := KeptRules(c.rules, removed);
      Config(
        if c.selected.Some? && c.selected.value != "" && c.selected.value in removed then fallback else c.selected,
        KeptSocks(c.socks, removed, fallback),
        rules, rules, nodes,
        KeptSubscriptions(c.subscriptions, removed))
  }

  method PruneBackups(ids: seq<string>, removed: set<string>, fallback: Option<string>) returns (kept: seq<string>)
    ensures kept == KeptBackups(ids, removed, fallback)
  {
    kept := [];
    for i := 0 to |ids|
      invariant kept == KeptBackups(ids[..i], removed, fallback)
    {
      assert ids[..i + 1][..i] == ids[..i];
      if ids[i] !in removed && fallback != Some(ids[i]) && ids[i] !in kept {
        kept := kept + [ids[i]];
      }
    }
    assert ids[..|ids|] == ids;
  }

  method PruneNodes(c: Config, ids: seq<string>) returns (next: Config)
    ensures next == Pruned(c, set id | id in ids)
    ensures ids == [] ==> next == c
  {
    var removed := set id | id in ids;
    next := c;
    if removed == {} {
      return;
    }
    var nodes: seq<Node> := [];
    for i := 0 to |c.nodes|
      invariant nodes == KeptNodes(c.nodes[..i], removed)
    {
      assert c.nodes[..i + 1][..i] == c.nodes[..i];
      if c.nodes[i].id !in removed {
        var extras := PruneExtras(c.nodes[i].extras, removed);
        nodes := nodes + [c.nodes[i].(extras := extras)];
      }
    }
    assert c.nodes[..|c.nodes|] == c.nodes;
    var fallback := FirstId(nodes);
    var selected := c.selected;
    if selected.Some? && selected.value != "" && selected.value in removed {
      selected := fallback;
    }
    var socks: seq<Socks> := [];
    for i := 0 to |c.socks|
      invariant socks == KeptSocks(c.socks[..i], removed, fallback)
    {
      assert c.socks[..i + 1][..i] == c.socks[..i];
      var x := c.socks[i];
      var backups := PruneBackups(x.backups, removed, fallback);
      if x.nodeId !in removed {
        socks := socks + [x.(backups := backups)];
      } else if fallback.Some? && fallback.value != "" {
        socks := socks + [x.(nodeId := fallback.value, backups := backups)];
      }
    }
    assert c.socks[..|c.socks|] == c.socks;
    var rules := KeptRules(c.rules, removed);
    next := Config(selected, socks, rules, rules, nodes, KeptSubscriptions(c.subscriptions, removed));
  }

  // The single-node delete only looks at the selection.
  function Deleted(c: Config, i: nat): Config {
    if i >= |c.nodes| then c
    else
      var nodes := c.nodes[..i] + c.nodes[i + 1..];
      c.(nodes := nodes,
         selected := if c.selected.Some? && c.selected.value != "" && c.selected.value == c.nodes[i].id
                     then FirstId(nodes) else c.selected)
  }

  /* ---- Binding rules to shunt nodes ---- */

  // The node a rule sends to, if it names one.
  function Target(r: Rule): Option<string> {
    if r.outbound.Some? && JsTrim(r.outbound.value) != "" then r.outbound else None
  }

  // The bindings by rule id; the last rule of an id wins.
  function Bindings(rules: seq<Rule>): map<string, Option<string>> {
    if rules == [] then map[]
    else
      var r := rules[|rules| - 1];
      Bindings(rules[..|rules| - 1])[r.id := Target(r)]
  }

  function Bound(e: Extras, b: map<string, Option<string>>): Extras {
    map k | k in e.Keys + b.Keys && (if k in b then b[k].Some? else k in e) :: if k in b then Text(b[k].value) else e[k]
  }

  function BoundNode(n: Node, b: map<string, Option<string>>): Node {
    if n.protocol == "shunt" then n.(extras := Bound(n.extras, b)) else n
  }

  function Normalized(c: Config): Config {
    var b := Bindings(c.rules);
    c.(managedRules := c.rules, nodes := seq(|c.nodes|, i requires 0 <= i < |c.nodes| => BoundNode(c.nodes[i], b)))
  }

  method BindExtras(e: Extras, b: map<string, Option<string>>) returns (r: Extras)
    ensures r == Bound(e, b)
  {
    r := e;
    var rest := b.Keys;
    while rest != {}
      invariant rest <= b.Keys
      invariant forall k :: k in r <==> if k in b && k !in rest then b[k].Some? else k in e
      invariant forall k :: k in r ==> r[k] == if k in b && k !in rest then Text(b[k].value) else e[k]
    {
      var id :| id in rest;
      rest := rest - {id};
      if b[id].Some? {
        r := r[id := Text(b[id].value)];
      } else {
        r := r - {id};
      }
    }
  }

  method NormalizeShuntRuleBindings(c: Config) returns (next: Config)
    ensures next == Normalized(c)
  {
    var b: map<string, Option<string>> := map[];
    for i := 0 to |c.rules|
      invariant b == Bindings(c.rules[..i])
    {
      assert c.rules[..i + 1][..i] == c.rules[..i];
      b := b[c.rules[i].id := Target(c.rules[i])];
    }
    assert c.rules[..|c.rules|] == c.rules;
    var nodes: seq<Node> := [];
    for i := 0 to |c.nodes|
      invariant |nodes| == i && forall k :: 0 <= k < i ==> nodes[k] == BoundNode(c.nodes[k], b)
    {
      var n := c.nodes[i];
      if n.protocol == "shunt" {
        var extras := BindExtras(n.extras, b);
        n := n.(extras := extras);
      }
      nodes := nodes + [n];
    }
    next := c.(managedRules := c.rules, nodes := nodes);
  }

  lemma {:induction false} LastRuleWins(rules: seq<Rule>, j: nat)
    requires j < |rules| && forall k :: j < k < |rules| ==> rules[k].id != rules[j].id
    ensures rules[j].id in Bindings(rules) && Bindings(rules)[rules[j].id] == Target(rules[j])
  {
    if j < |rules| - 1 {
      assert rules[..|rules| - 1][j] == rules[j];
      LastRuleWins(rules[..|rules| - 1], j);
    }
  }

  // After normalising a shunt node binds a rule's id to the node the last rule of
  // that id sends to, or not at all when that names none; its other keys, and
  // every other node, are as they were.
  lemma BoundExactly(c: Config, i: nat, j: nat)
    requires i < |c.nodes| && j < |c.rules| && forall k :: j < k < |c.rules| ==> c.rules[k].id != c.rules[j].id
    ensures var n, m, r := c.nodes[i], Normalized(c).nodes[i], c.rules[j];
            && m == n.(extras := m.extras)
            && (n.protocol != "shunt" ==> m == n)
            && (n.protocol == "shunt" ==>
                  if r.outbound.Some? && JsTrim(r.outbound.value) != ""
                  then r.id in m.extras && m.extras[r.id] == Text(r.outbound.value)
                  else r.id !in m.extras)
    ensures forall k :: !HasRule(c.rules, k) ==>
              (k in Normalized(c).nodes[i].extras <==> k in c.nodes[i].extras)
              && (k in c.nodes[i].extras ==> Normalized(c).nodes[i].extras[k] == c.nodes[i].extras[k])
  {
    LastRuleWins(c.rules, j);
    BindingsAreRules(c.rules);
  }

  /* ---- No reference to a removed node is left ---- */

  predicate CleanExtras(e: Extras, removed: set<string>) { forall k :: k in e ==> !NamesRemoved(e, k, removed) }

  predicate CleanRules(rules: seq<Rule>, removed: set<string>) {
    forall r :: r in rules && r.outbound.Some? && r.outbound.value != "" ==> r.outbound.value !in removed
  }

  predicate HasRule(rules: seq<Rule>, id: string) { exists i :: 0 <= i < |rules| && rules[i].id == id }

  predicate CleanBinding(n: Node, rules: seq<Rule>, removed: set<string>) {
    n.protocol == "shunt" ==>
      forall k :: k in n.extras && HasRule(rules, k) && n.extras[k].Text? ==> n.extras[k].s !in removed
  }

  predicate CleanSocks(x: Socks, removed: set<string>) {
    x.nodeId !in removed && forall id :: id in x.backups ==> id !in removed
  }

  predicate NoReference(c: Config, removed: set<string>) {
    && (c.selected.Some? && c.selected.value != "" ==> c.selected.value !in removed)
    && (forall x :: x in c.socks ==> CleanSocks(x, removed))
    && CleanRules(c.rules, removed) && CleanRules(c.managedRules, removed)
    && (forall n :: n in c.nodes ==> n.id !in removed && CleanExtras(n.extras, removed) && CleanBinding(n, c.rules, removed))
    && (forall s :: s in c.subscriptions ==> CleanExtras(s.extras, removed))
  }

  lemma {:induction false} NodesKeptClean(nodes: seq<Node>, removed: set<string>)
    ensures forall n :: n in KeptNodes(nodes, removed) ==> n.id !in removed && CleanExtras(n.extras, removed)
  {
    if nodes != [] {
      NodesKeptClean(nodes[..|nodes| - 1], removed);
    }
  }

  lemma {:induction false} BackupsKeptClean(ids: seq<string>, removed: set<string>, fallback: Option<string>)
    ensures var kept := KeptBackups(ids, removed, fallback);
            && (forall id :: id in kept <==> id in ids && id !in removed && fallback != Some(id))
            && (forall i, j :: 0 <= i < j < |kept| ==> kept[i] != kept[j])
  {
    if ids != [] {
      BackupsKeptClean(ids[..|ids| - 1], removed, fallback);
      assert ids == ids[..|ids| - 1] + [ids[|ids| - 1]];
    }
  }

  lemma {:induction false} SocksKeptClean(socks: seq<Socks>, removed: set<string>, fallback: Option<string>)
    requires fallback.Some? ==> fallback.value !in removed
    ensures forall x :: x in KeptSocks(socks, removed, fallback) ==> CleanSocks(x, removed)
  {
    if socks != [] {
      SocksKeptClean(socks[..|socks| - 1], removed, fallback);
      BackupsKeptClean(socks[|socks| - 1].backups, removed, fallback);
    }
  }

  lemma {:induction false} BindingsAreRules(rules: seq<Rule>)
    ensures forall k :: k in Bindings(rules) <==> HasRule(rules, k)
    ensures forall k :: k in Bindings(rules) ==> exists r :: r in rules && r.id == k && Bindings(rules)[k] == Target(r)
  {
    if rules != [] {
      var init, last := rules[..|rules| - 1], rules[|rules| - 1];
      BindingsAreRules(init);
      assert rules == init + [last];
      assert last in rules;
    }
  }

  lemma BoundClean(n: Node, rules: seq<Rule>, removed: set<string>)
    requires CleanRules(rules, removed) && CleanExtras(n.extras, removed)
    ensures var m := BoundNode(n, Bindings(rules));
            m.id == n.id && CleanExtras(m.extras, removed) && CleanBinding(m, rules, removed)
  {
    var b := Bindings(rules);
    BindingsAreRules(rules);
    assert forall k :: k in b && b[k].Some? ==> b[k].value !in removed;
    if n.protocol == "shunt" {
      var e := Bound(n.extras, b);
      forall k | k in e
        ensures !NamesRemoved(e, k, removed)
      {
        if k !in b {
          assert !NamesRemoved(n.extras, k, removed);
        }
      }
    }
  }

  lemma PrunedHasNoReference(c: Config, removed: set<string>)
    requires removed != {}
    ensures var p := Pruned(c, removed);
            && Synced(p)
            && (p.selected.Some? && p.selected.value != "" ==> p.selected.value !in removed)
            && (forall x :: x in p.socks ==> CleanSocks(x, removed))
            && CleanRules(p.rules, removed)
            && (forall n :: n in p.nodes ==> n.id !in removed && CleanExtras(n.extras, removed))
            && (forall s :: s in p.subscriptions ==> CleanExtras(s.extras, removed))
  {
    NodesKeptClean(c.nodes, removed);
    var nodes := KeptNodes(c.nodes, removed);
    assert nodes != [] ==> nodes[0] in nodes;
    SocksKeptClean(c.socks, removed, FirstId(nodes));
  }

  // Removing nodes and normalising leaves no reference to a removed node, and
  // both copies of the rules agree.
  lemma RemovalLeavesNoReference(c: Config, removed: set<string>)
    requires removed != {}
    ensures var next := Normalized(Pruned(c, removed)); NoReference(next, removed) && Synced(next)
  {
    var p := Pruned(c, removed);
    PrunedHasNoReference(c, removed);
    var next := Normalized(p);
    forall n | n in next.nodes
      ensures n.id !in removed && CleanExtras(n.extras, removed) && CleanBinding(n, next.rules, removed)
    {
      var i :| 0 <= i < |next.nodes| && next.nodes[i] == n;
      assert p.nodes[i] in p.nodes;
      BoundClean(p.nodes[i], p.rules, removed);
    }
  }

  // A node that stays and whose binding of a rule names a removed node, under
  // a key that pruning does not look at.
  predicate StaleBinding(n: Node, rules: seq<Rule>, removed: set<string>) {
    && n.id !in removed && n.protocol == "shunt"
    && exists k :: k in n.extras && HasRule(rules, k) && !RefKey(k) && n.extras[k].Text? && n.extras[k].s in removed
  }

  lemma SameRules(rules: seq<Rule>, removed: set<string>)
    ensures forall k :: HasRule(KeptRules(rules, removed), k) <==> HasRule(rules, k)
  {
    var kept := KeptRules(rules, removed);
    assert forall i :: 0 <= i < |rules| ==> kept[i].id == rules[i].id;
  }

  lemma PrunedBinding(n: Node, rules: seq<Rule>, removed: set<string>)
    requires n.id !in removed
    ensures CleanBinding(n.(extras := PrunedExtras(n.extras, removed)), KeptRules(rules, removed), removed)
            <==> !StaleBinding(n, rules, removed)
  {
    var kept := KeptRules(rules, removed);
    SameRules(rules, removed);
    var e := PrunedExtras(n.extras, removed);
    assert forall k :: k in e && e[k].Text? && e[k].s in removed ==> !RefKey(k);
    assert forall k :: k in n.extras && !RefKey(k) ==> k in e && e[k] == n.extras[k];
  }

  // Pruning alone leaves a reference exactly when a node that stays has a
  // stale binding: those go only when the bindings are normalised.
  lemma PruningLeavesExactlyStaleBindings(c: Config, removed: set<string>)
    ensures NoReference(Pruned(c, removed), removed) <==> forall n :: n in c.nodes ==> !StaleBinding(n, c.rules, removed)
  {
    if removed != {} {
      PrunedHasNoReference(c, removed);
      var p := Pruned(c, removed);
      var at := NodesKeptInOrder(c.nodes, removed);
      NodesLeftAre(c.nodes, p.nodes, at, removed);
      forall n | n in c.nodes && n.id !in removed
        ensures CleanBinding(n.(extras := PrunedExtras(n.extras, removed)), p.rules, removed) <==> !StaleBinding(n, c.rules, removed)
      {
        PrunedBinding(n, c.rules, removed);
      }
    }
  }

  /* ---- What stays, stays as it was ---- */

  // What is left of the nodes: those not removed, in their order, with their
  // extras pruned. `at` says where each was.
  function Staying(nodes: seq<Node>, removed: set<string>): set<nat> { set i: nat | i < |nodes| && nodes[i].id !in removed }

  ghost predicate NodesLeft(before: seq<Node>, after: seq<Node>, at: seq<nat>, removed: set<string>) {
    && Picks(at, Staying(before, removed)) && |at| == |after|
    && forall k :: 0 <= k < |at| ==> NodeLeft(before, at[k], after[k], removed)
  }

  predicate NodeLeft(before: seq<Node>, i: nat, n: Node, removed: set<string>) {
    i < |before| && n == before[i].(extras := PrunedExtras(before[i].extras, removed))
  }

  lemma {:induction false} NodesKeptInOrder(nodes: seq<Node>, removed: set<string>) returns (at: seq<nat>)
    ensures NodesLeft(nodes, KeptNodes(nodes, removed), at, removed)
  {
    if nodes == [] {
      at := [];
    } else {
      var last := |nodes| - 1;
      at := NodesKeptInOrder(nodes[..last], removed);
      assert forall i, n :: NodeLeft(nodes[..last], i, n, removed) ==> NodeLeft(nodes, i, n, removed);
      if nodes[last].id !in removed {
        PicksLast(at, Staying(nodes[..last], removed), last);
        assert Staying(nodes, removed) == Staying(nodes[..last], removed) + {last};
        at := at + [last];
      } else {
        assert Staying(nodes, removed) == Staying(nodes[..last], removed);
      }
    }
  }

  lemma NodesLeftAre(before: seq<Node>, after: seq<Node>, at: seq<nat>, removed: set<string>)
    requires NodesLeft(before, after, at, removed)
    ensures forall n :: n in before && n.id !in removed ==> n.(extras := PrunedExtras(n.extras, removed)) in after
    ensures forall m :: m in after ==> exists n :: n in before && n.id !in removed && m == n.(extras := PrunedExtras(n.extras, removed))
  {
    forall n | n in before && n.id !in removed
      ensures n.(extras := PrunedExtras(n.extras, removed)) in after
    {
      var i: nat :| i < |before| && before[i] == n;
      assert i in Staying(before, removed);
      var k :| 0 <= k < |at| && at[k] == i;
      assert NodeLeft(before, at[k], after[k], removed);
    }
    forall m | m in after
      ensures exists n :: n in before && n.id !in removed && m == n.(extras := PrunedExtras(n.extras, removed))
    {
      var k :| 0 <= k < |after| && after[k] == m;
      assert at[k] in at && NodeLeft(before, at[k], after[k], removed);
      assert before[at[k]] in before;
    }
  }

  // The backups left: where an id is first listed, unless removed or the fallback.
  function BackupsStaying(ids: seq<string>, removed: set<string>, fallback: Option<string>): set<nat> {
    set i: nat | i < |ids| && ids[i] !in removed && fallback != Some(ids[i]) && ids[i] !in ids[..i]
  }

  lemma BackupsStayingOn(ids: seq<string>, removed: set<string>, fallback: Option<string>)
    requires ids != []
    ensures var last: nat := |ids| - 1;
            BackupsStaying(ids, removed, fallback) == BackupsStaying(ids[..last], removed, fallback)
              + if ids[last] in removed || fallback == Some(ids[last]) || ids[last] in ids[..last] then {} else {last}
  {
    var last := |ids| - 1;
    assert forall i :: 0 <= i < last ==> ids[..last][..i] == ids[..i];
  }

  lemma {:induction false} BackupsKeptInOrder(ids: seq<string>, removed: set<string>, fallback: Option<string>) returns (at: seq<nat>)
    ensures Picks(at, BackupsStaying(ids, removed, fallback))
    ensures Taken(ids, at, KeptBackups(ids, removed, fallback))
  {
    if ids == [] {
      at := [];
    } else {
      var last := |ids| - 1;
      at := BackupsKeptInOrder(ids[..last], removed, fallback);
      BackupsKeptClean(ids[..last], removed, fallback);
      BackupsStayingOn(ids, removed, fallback);
      if last in BackupsStaying(ids, removed, fallback) {
        PicksLast(at, BackupsStaying(ids[..last], removed, fallback), last);
        at := at + [last];
      }
    }
  }

  predicate SocksMoved(before: seq<Socks>, i: nat, y: Socks, removed: set<string>, fallback: Option<string>) {
    && i < |before|
    && (before[i].nodeId !in removed || (fallback.Some? && fallback.value != ""))
    && y == Socks(before[i].id, if before[i].nodeId in removed then fallback.value else before[i].nodeId,
                  KeptBackups(before[i].backups, removed, fallback))
  }

  // What is left of the socks entries: those whose node stays and, where there
  // is a first node left to move to, all of them; in their order.
  function SocksStaying(socks: seq<Socks>, removed: set<string>, fallback: Option<string>): set<nat> {
    set i: nat | i < |socks| && (socks[i].nodeId !in removed || (fallback.Some? && fallback.value != ""))
  }

  ghost predicate SocksLeft(before: seq<Socks>, after: seq<Socks>, at: seq<nat>, removed: set<string>, fallback: Option<string>) {
    && Picks(at, SocksStaying(before, removed, fallback)) && |at| == |after|
    && forall k :: 0 <= k < |at| ==> SocksMoved(before, at[k], after[k], removed, fallback)
  }

  lemma {:induction false} SocksKeptInOrder(socks: seq<Socks>, removed: set<string>, fallback: Option<string>) returns (at: seq<nat>)
    ensures SocksLeft(socks, KeptSocks(socks, removed, fallback), at, removed, fallback)
  {
    if socks == [] {
      at := [];
    } else {
      var last := |socks| - 1;
      at := SocksKeptInOrder(socks[..last], removed, fallback);
      if socks[last].nodeId !in removed || MovesTo(fallback) {
        PicksLast(at, SocksStaying(socks[..last], removed, fallback), last);
        assert SocksStaying(socks, removed, fallback) == SocksStaying(socks[..last], removed, fallback) + {last};
        at := at + [last];
      } else {
        assert SocksStaying(socks, removed, fallback) == SocksStaying(socks[..last], removed, fallback);
      }
    }
  }

  // Pruning touches nothing else: what is left is in its order, a rule loses
  // at most its outbound, a subscription at most extras, and a selection that
  // is not removed stays.
  lemma PruningKeepsTheRest(c: Config, removed: set<string>) returns (nodesAt: seq<nat>, socksAt: seq<nat>)
    requires removed != {}
    ensures var p := Pruned(c, removed);
            && NodesLeft(c.nodes, p.nodes, nodesAt, removed)
            && SocksLeft(c.socks, p.socks, socksAt, removed, FirstId(p.nodes))
            && |p.rules| == |c.rules| && (forall i :: 0 <= i < |p.rules| ==> SameButOutbound(c.rules[i], p.rules[i], removed))
            && |p.subscriptions| == |c.subscriptions|
            && (forall i :: 0 <= i < |p.subscriptions| ==>
                  p.subscriptions[i] == c.subscriptions[i].(extras := PrunedExtras(c.subscriptions[i].extras, removed)))
            && (c.selected.None? || c.selected.value !in removed ==> p.selected == c.selected)
            && (c.selected.Some? && c.selected.value != "" && c.selected.value in removed ==>
                  p.selected == if p.nodes == [] then None else Some(p.nodes[0].id))
  {
    nodesAt := NodesKeptInOrder(c.nodes, removed);
    socksAt := SocksKeptInOrder(c.socks, removed, FirstId(KeptNodes(c.nodes, removed)));
  }

  predicate SameButOutbound(r: Rule, s: Rule, removed: set<string>) {
    && s == r.(outbound := s.outbound)
    && (r.outbound.Some? && r.outbound.value != "" && r.outbound.value in removed ==> s.outbound.None?)
    && (r.outbound.None? || r.outbound.value == "" || r.outbound.value !in removed ==> s.outbound == r.outbound)
  }

  // Normalising twice is normalising once.
  lemma NormalizingIsIdempotent(c: Config)
    ensures Normalized(Normalized(c)) == Normalized(c)
  {
    var n := Normalized(c);
    var b := Bindings(c.rules);
    forall i | 0 <= i < |c.nodes|
      ensures BoundNode(BoundNode(c.nodes[i], b), b) == BoundNode(c.nodes[i], b)
    {
      var e := Bound(c.nodes[i].extras, b);
      assert Bound(e, b) == e;
    }
    assert Normalized(n).nodes == n.nodes;
  }

  // After a single-node delete everything but the selection still names the
  // node, exactly where it did before.
  lemma DeletingLeavesReferences(c: Config, i: nat, removed: set<string>)
    requires i < |c.nodes| && removed == {c.nodes[i].id}
    requires forall n :: n in c.nodes[..i] + c.nodes[i + 1..] ==> n.id !in removed
    ensures var d := Deleted(c, i);
            NoReference(d, removed) <==> NoReference(c.(selected := None, nodes := c.nodes[..i] + c.nodes[i + 1..]), removed)
  {
    var nodes := c.nodes[..i] + c.nodes[i + 1..];
    assert nodes != [] ==> nodes[0] in nodes;
  }

  /* ---- Renaming a shunt rule ---- */

  const FAKEDNS := "_fakedns"
  const PROXY := "_proxy_tag"

  function RenamedKey(e: Extras, from: string, to: string): Extras {
    if from !in e || from == to then e else e[to := e[from]] - {from}
  }

  // A rule's three keys, one after the other.
  function RenamedExtras(e: Extras, from: string, to: string): Extras {
    RenamedKey(RenamedKey(RenamedKey(e, from, to), from + FAKEDNS, to + FAKEDNS), from + PROXY, to + PROXY)
  }

  // Where the first rule of an id is.
  function Place(rules: seq<Rule>, id: string): (i: nat)
    requires HasRule(rules, id)
    ensures i < |rules| && rules[i].id == id && forall k :: 0 <= k < i ==> rules[k].id != id
  {
    if rules[0].id == id then 0
    else
      assert HasRule(rules[1..], id) by { var k :| 0 <= k < |rules| && rules[k].id == id; assert rules[1..][k - 1].id == id; }
      1 + Place(rules[1..], id)
  }

  predicate MayRename(c: Config, from: string, to: string) {
    to != "" && HasRule(c.rules, from) && (to == from || !HasRule(c.rules, to))
  }

  function Renamed(c: Config, from: string, typed: string): Config {
    var to := JsTrim(typed);
    if !MayRename(c, from, to) then c
    else
      var i := Place(c.rules, from);
      var rules := c.rules[i := c.rules[i].(id := to)];
      c.(rules := rules, managedRules := rules,
         nodes := seq(|c.nodes|, k requires 0 <= k < |c.nodes| =>
                    c.nodes[k].(extras := RenamedExtras(c.nodes[k].extras, from, to))))
  }

  method RenameExtraKey(e: Extras, from: string, to: string) returns (r: Extras)
    ensures r == RenamedKey(e, from, to)
  {
    r := e;
    if from !in e || from == to {
      return;
    }
    r := r[to := r[from]];
    r := r - {from};
  }

  method RenameShuntRule(c: Config, from: string, typed: string) returns (next: Config)
    ensures next == Renamed(c, from, typed)
  {
    next := c;
    var to := JsTrim(typed);
    if to == "" {
      return;
    }
    var i := 0;
    while i < |c.rules| && c.rules[i].id != from
      invariant i <= |c.rules| && forall k :: 0 <= k < i ==> c.rules[k].id != from
    {
      i := i + 1;
    }
    if i == |c.rules| {
      return;
    }
    for k := 0 to |c.rules|
      invariant to == from || forall m :: 0 <= m < k ==> c.rules[m].id != to
    {
      if c.rules[k].id == to && c.rules[k].id != from {
        return;
      }
    }
    assert i == Place(c.rules, from);
    var rules := c.rules[i := c.rules[i].(id := to)];
    var nodes: seq<Node> := [];
    for k := 0 to |c.nodes|
      invariant |nodes| == k
      invariant forall m :: 0 <= m < k ==> nodes[m] == c.nodes[m].(extras := RenamedExtras(c.nodes[m].extras, from, to))
    {
      var e := RenameExtraKey(c.nodes[k].extras, from, to);
      e := RenameExtraKey(e, from + FAKEDNS, to + FAKEDNS);
      e := RenameExtraKey(e, from + PROXY, to + PROXY);
      nodes := nodes + [c.nodes[k].(extras := e)];
    }
    next := c.(rules := rules, managedRules := rules, nodes := nodes);
  }

  // Nothing bears the new name or a key made from it.
  predicate FreshKeys(e: Extras, to: string) { to !in e && to + FAKEDNS !in e && to + PROXY !in e }

  predicate Fresh(c: Config, to: string) {
    !HasRule(c.rules, to) && forall n :: n in c.nodes ==> FreshKeys(n.extras, to)
  }

  // The new name is not one of the old name's own keys.
  predicate Unrelated(from: string, to: string) { to != from + FAKEDNS && to != from + PROXY }

  lemma KeysDiffer(a: string, b: string)
    ensures a + FAKEDNS != b + PROXY && a + FAKEDNS != a && a + PROXY != a
    ensures a + FAKEDNS == b + FAKEDNS ==> a == b
    ensures a + PROXY == b + PROXY ==> a == b
  {
    var x, y := a + FAKEDNS, b + PROXY;
    assert x[|x| - 1] == FAKEDNS[7] && y[|y| - 1] == PROXY[9];
    assert FAKEDNS[7] == 's' && PROXY[9] == 'g';
    assert (a + FAKEDNS)[..|a|] == a && (b + FAKEDNS)[..|b|] == b;
    assert (a + PROXY)[..|a|] == a && (b + PROXY)[..|b|] == b;
  }

  lemma KeysGoAndComeBack(e: Extras, k1: string, k2: string, k3: string, n1: string, n2: string, n3: string)
    requires n1 !in e && n2 !in e && n3 !in e
    requires k1 != k2 && k1 != k3 && k2 != k3 && n1 != n2 && n1 != n3 && n2 != n3
    requires n1 != k1 && n2 != k2 && n3 != k3
    requires n1 != k2 && n1 != k3 && n2 != k3 && n3 != k2
    ensures var out := RenamedKey(RenamedKey(RenamedKey(e, k1, n1), k2, n2), k3, n3);
            RenamedKey(RenamedKey(RenamedKey(out, n1, k1), n2, k2), n3, k3) == e
  {
    var o1 := RenamedKey(e, k1, n1);
    var o2 := RenamedKey(o1, k2, n2);
    var o3 := RenamedKey(o2, k3, n3);
    var b1 := RenamedKey(o3, n1, k1);
    var b2 := RenamedKey(b1, n2, k2);
    var b3 := RenamedKey(b2, n3, k3);
    assert b3 == e;
  }

  lemma ExtrasGoAndComeBack(e: Extras, from: string, to: string)
    requires FreshKeys(e, to) && Unrelated(from, to) && from != to
    ensures RenamedExtras(RenamedExtras(e, from, to), to, from) == e
  {
    KeysDiffer(from, to);
    KeysDiffer(to, from);
    KeysGoAndComeBack(e, from, from + FAKEDNS, from + PROXY, to, to + FAKEDNS, to + PROXY);
  }

  // Each of a rule's bindings stands where it belongs under the new name; every
  // other key is as it was.
  lemma RenamedExactly(e: Extras, from: string, to: string)
    requires Unrelated(from, to) && Unrelated(to, from) && from != to
    ensures MovedTo(e, RenamedExtras(e, from, to), from, to)
    ensures MovedTo(e, RenamedExtras(e, from, to), from + "_fakedns", to + "_fakedns")
    ensures MovedTo(e, RenamedExtras(e, from, to), from + "_proxy_tag", to + "_proxy_tag")
    ensures forall k :: k !in RuleKeys(from) + RuleKeys(to) ==> SameUnder(e, k, RenamedExtras(e, from, to), k)
  {
    KeysDiffer(from, to);
    KeysDiffer(to, from);
  }

  predicate SameUnder(e: Extras, k: string, out: Extras, m: string) {
    (k in e <==> m in out) && (k in e ==> out[m] == e[k])
  }

  predicate MovedTo(e: Extras, out: Extras, from: string, to: string) {
    from !in out && if from in e then SameUnder(e, from, out, to) else SameUnder(e, to, out, to)
  }

  // With a related name it fails, however fresh: there is a node it changes.
  lemma RelatedNamesClash(from: string, to: string, v: Extra) returns (e: Extras)
    requires !Unrelated(from, to)
    ensures FreshKeys(e, to) && RenamedExtras(RenamedExtras(e, from, to), to, from) != e
  {
    KeysDiffer(from, to);
    KeysDiffer(to, from);
    e := map[from := v];
    var moved := if to == from + FAKEDNS then to + FAKEDNS else to + PROXY;
    assert RenamedKey(e, from, to) == map[to := v];
    assert RenamedExtras(e, from, to) == map[moved := v];
    assert RenamedExtras(map[moved := v], to, from) == map[to := v];
    assert from !in map[to := v];
  }

  // With an unrelated name a node's extras come back exactly if the new keys were fresh.
  lemma ExtrasComeBackExactly(e: Extras, from: string, to: string)
    requires Unrelated(from, to) && from != to
    ensures RenamedExtras(RenamedExtras(e, from, to), to, from) == e <==> FreshKeys(e, to)
  {
    KeysDiffer(from, to);
    KeysDiffer(to, from);
    if FreshKeys(e, to) {
      ExtrasGoAndComeBack(e, from, to);
    } else {
      var d := RenamedExtras(e, from, to);
      var b1 := RenamedKey(d, to, from);
      var b2 := RenamedKey(b1, to + FAKEDNS, from + FAKEDNS);
      assert to !in b1 && to !in b2 && to + FAKEDNS !in b2;
    }
  }

  // Only one rule has this id.
  predicate Once(rules: seq<Rule>, id: string) {
    forall i, j :: 0 <= i < |rules| && 0 <= j < |rules| && rules[i].id == rules[j].id == id ==> i == j
  }

  // Renaming a rule to a fresh, unrelated name and back restores the draft.
  lemma RenameAndBack(c: Config, from: string, to: string)
    requires Synced(c) && Fresh(c, to) && Unrelated(from, to)
    requires JsTrim(from) == from != "" && JsTrim(to) == to != ""
    requires HasRule(c.rules, from) && Once(c.rules, from)
    ensures Renamed(Renamed(c, from, to), to, from) == c
    ensures HasRule(Renamed(c, from, to).rules, to) && !HasRule(Renamed(c, from, to).rules, from)
  {
    var i := Place(c.rules, from);
    assert from != to;
    var d := Renamed(c, from, to);
    assert d.rules[i].id == to;
    assert !HasRule(d.rules, from);
    assert Place(d.rules, to) == i;
    forall k | 0 <= k < |c.nodes|
      ensures RenamedExtras(d.nodes[k].extras, to, from) == c.nodes[k].extras
    {
      assert c.nodes[k] in c.nodes;
      ExtrasGoAndComeBack(c.nodes[k].extras, from, to);
    }
    var back := Renamed(d, to, from);
    assert back.rules == c.rules;
    assert back.nodes == c.nodes;
  }

  // And to an unrelated name it does exactly if both renames are refused, the
  // new name being a rule's already, or the old name was a single rule's and
  // no node bore a key of the new one.
  lemma RenameAndBackExactly(c: Config, from: string, to: string)
    requires Synced(c) && Unrelated(from, to) && from != to
    requires JsTrim(from) == from != "" && JsTrim(to) == to != "" && HasRule(c.rules, from)
    ensures Renamed(Renamed(c, from, to), to, from) == c
            <==> HasRule(c.rules, to) || (Once(c.rules, from) && forall n :: n in c.nodes ==> FreshKeys(n.extras, to))
  {
    if !HasRule(c.rules, to) {
      if Fresh(c, to) && Once(c.rules, from) {
        RenameAndBack(c, from, to);
      } else if !Once(c.rules, from) {
        RepeatedNameStays(c, from, to);
      } else {
        var n :| n in c.nodes && !FreshKeys(n.extras, to);
        var k :| 0 <= k < |c.nodes| && c.nodes[k] == n;
        TakenKeyStays(c, from, to, k);
      }
    }
  }

  lemma RepeatedNameStays(c: Config, from: string, to: string)
    requires !HasRule(c.rules, to) && HasRule(c.rules, from) && !Once(c.rules, from) && from != to
    requires JsTrim(from) == from != "" && JsTrim(to) == to != ""
    ensures Renamed(Renamed(c, from, to), to, from) != c
  {
    var i := Place(c.rules, from);
    var d := Renamed(c, from, to);
    var j :| 0 <= j < |c.rules| && c.rules[j].id == from && j != i;
    assert d.rules[j].id == from && d.rules[i].id == to;
    assert Renamed(d, to, from) == d;
  }

  lemma TakenKeyStays(c: Config, from: string, to: string, k: nat)
    requires !HasRule(c.rules, to) && HasRule(c.rules, from) && Once(c.rules, from)
    requires Unrelated(from, to) && from != to
    requires JsTrim(from) == from != "" && JsTrim(to) == to != ""
    requires k < |c.nodes| && !FreshKeys(c.nodes[k].extras, to)
    ensures Renamed(Renamed(c, from, to), to, from) != c
  {
    var i := Place(c.rules, from);
    var d := Renamed(c, from, to);
    assert d.rules[i].id == to;
    assert !HasRule(d.rules, from);
    ExtrasComeBackExactly(c.nodes[k].extras, from, to);
    assert Renamed(d, to, from).nodes[k].extras == RenamedExtras(d.nodes[k].extras, to, from);
  }

  /* ---- Deleting a shunt rule ---- */

  function RuleKeys(id: string): set<string> { {id, id + FAKEDNS, id + PROXY} }

  function RuleDeleted(c: Config, i: nat): Config {
    if i >= |c.rules| then c.(managedRules := c.rules)
    else
      var rules := c.rules[..i] + c.rules[i + 1..];
      c.(rules := rules, managedRules := rules,
         nodes := seq(|c.nodes|, k requires 0 <= k < |c.nodes| =>
                    c.nodes[k].(extras := c.nodes[k].extras - RuleKeys(c.rules[i].id))))
  }

  method DeleteShuntRule(c: Config, i: nat) returns (next: Config)
    ensures next == RuleDeleted(c, i)
  {
    if i >= |c.rules| {
      return c.(managedRules := c.rules);
    }
    var id := c.rules[i].id;
    var nodes: seq<Node> := [];
    for k := 0 to |c.nodes|
      invariant |nodes| == k
      invariant forall m :: 0 <= m < k ==> nodes[m] == c.nodes[m].(extras := c.nodes[m].extras - RuleKeys(id))
    {
      var e := c.nodes[k].extras;
      e := e - {id};
      e := e - {id + FAKEDNS};
      e := e - {id + PROXY};
      assert e == c.nodes[k].extras - RuleKeys(id);
      nodes := nodes + [c.nodes[k].(extras := e)];
    }
    var rules := c.rules[..i] + c.rules[i + 1..];
    next := c.(rules := rules, managedRules := rules, nodes := nodes);
  }

  // The rule's bindings go from every node; another rule's binding stays
  // exactly when its name is not one of the deleted rule's own keys.
  lemma DeletingSparesUnrelatedRules(c: Config, i: nat, other: string, k: nat)
    requires i < |c.rules| && k < |c.nodes| && other != c.rules[i].id && other in c.nodes[k].extras
    ensures var d := RuleDeleted(c, i);
            && Synced(d)
            && c.rules[i].id !in d.nodes[k].extras
            && (other in d.nodes[k].extras <==> Unrelated(c.rules[i].id, other))
            && (other in d.nodes[k].extras ==> d.nodes[k].extras[other] == c.nodes[k].extras[other])
  {
  }
}
