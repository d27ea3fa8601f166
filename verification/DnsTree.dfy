/**
 * The DNS record tree, at most two labels deep, refining a map from the last two labels of a zone to record sets
 * (names as in section 3.1 of RFC 1034).
 */
module DnsTree {

  const NUM_DNS_LEVELS := 3

  datatype Record = Record(domain: string, kind: int, ip: int)

  /** A node by its path: the root, a top-level domain, or a domain under one. */
  datatype Key = Root | Tld(tld: string) | Auth(tld: string, sub: string)

  function Level(k: Key): nat {
    match k case Root => 0 case Tld(_) => 1 case Auth(_, _) => 2
  }

  type Flat = map<Key, set<Record>>

  /**
   * Zones are given as their labels in written order: the top-level domain is the last. Labels before the last two are
   * dropped.
   */
  function KeyOf(labels: seq<string>): Key {
    if labels == [] then Root
    else if |labels| == 1 then Tld(labels[0])
    else Auth(labels[|labels| - 1], labels[|labels| - 2])
  }

  function RecordsAt(m: Flat, k: Key): set<Record> { if k in m then m[k] else {} }

  function WithNode(m: Flat, k: Key): Flat { if k in m then m else m[k := {}] }

  function WithRecord(m: Flat, k: Key, r: Record): Flat { m[k := RecordsAt(m, k) + {r}] }

  /** The nodes on the path to a key. */
  function WithPath(m: Flat, k: Key): Flat {
    match k
    case Root => m
    case Tld(a) => WithNode(m, Tld(a))
    case Auth(a, b) => WithNode(WithNode(m, Tld(a)), Auth(a, b))
  }

  /** The nodes on the path appear; the record joins the last one's set. */
  function FlatInsert(m: Flat, labels: seq<string>, r: Record): Flat {
    WithRecord(WithPath(m, KeyOf(labels)), KeyOf(labels), r)
  }

  ghost predicate HasTlds(m: Flat) { exists a :: Tld(a) in m }

  ghost predicate HasSubs(m: Flat, a: string) { exists b :: Auth(a, b) in m }

  datatype Found = Nothing | At(key: Key)

  /**
   * Best-effort search as a function of the flat map: an empty tree answers for everything, a top-level domain
   * without children answers for all names below it, and otherwise the last two labels must be known.
   */
  ghost function FlatSearch(m: Flat, labels: seq<string>): Found {
    if labels == [] || !HasTlds(m) then At(Root)
    else
      var a := labels[|labels| - 1];
      if Tld(a) !in m then Nothing
      else if |labels| == 1 || !HasSubs(m, a) then At(Tld(a))
      else
        var b := labels[|labels| - 2];
        if Auth(a, b) in m then At(Auth(a, b)) else Nothing
  }

  class TreeNode {
    const domain: string
    const level: nat
    ghost const key: Key
    var children: map<string, TreeNode>
    var records: set<Record>

    constructor (domain: string, level: nat, ghost key: Key)
      ensures this.domain == domain && this.level == level && this.key == key && children == map[] && records == {}
    {
      this.domain, this.level, this.key, children, records := domain, level, key, map[], {};
    }

    method GetChild(domain: string) returns (c: TreeNode?)
      ensures c == if domain in children then children[domain] else null
    {
      c := if domain in children then children[domain] else null;
    }

    method GetChildOrCreate(domain: string, ghost path: Key) returns (c: TreeNode)
      modifies this`children
      ensures domain in old(children) ==> c == old(children)[domain] && children == old(children)
      ensures domain !in old(children) ==>
                fresh(c) && c.domain == domain && c.level == level + 1 && c.key == path && c.children == map[]
                    && c.records == {}
                && children == old(children)[domain := c]
    {
      if domain in children {
        return children[domain];
      }
      c := new TreeNode(domain, level + 1, path);
      children := children[domain := c];
    }

    method AddRecord(r: Record)
      modifies this`records
      ensures records == old(records) + {r}
    {
      records := records + {r};
    }
  }

  /** removeRecord follows a null pointer when the node it finds has no records. */
  datatype Removal = NotFound | NullRecords | Erased(existed: bool)

  class Tree {
    var root: TreeNode
    ghost var nodes: map<Key, TreeNode>

    /** The node at k knows its place, and its children are exactly the nodes one label below. */
    ghost predicate NodeOk(k: Key)
      requires k in nodes
      reads this, nodes.Values
    {
      var n := nodes[k];
      && n.level == Level(k) && n.key == k
      && match k
         case Root =>
           forall a :: (a in n.children <==> Tld(a) in nodes) && (a in n.children ==> n.children[a] == nodes[Tld(a)])
         case Tld(a) =>
           forall b ::
             (b in n.children <==> Auth(a, b) in nodes) && (b in n.children ==> n.children[b] == nodes[Auth(a, b)])
         case Auth(a, b) => n.children == map[] && Tld(a) in nodes
    }

    ghost predicate Valid()
      reads this, nodes.Values
    {
      Root in nodes && nodes[Root] == root && forall k :: k in nodes ==> NodeOk(k)
    }

    ghost function View(): Flat
      reads this, nodes.Values
    {
      map k | k in nodes :: nodes[k].records
    }

    constructor ()
      ensures Valid() && View() == map[Root := {}] && fresh(nodes.Values)
    {
      root := new TreeNode(".", 0, Root);
      nodes := map[Root := root];
    }

    method TldOrCreate(a: string) returns (child: TreeNode)
      requires Valid()
      modifies this`nodes, root`children
      ensures Valid() && root == old(root)
      ensures Tld(a) in nodes && nodes[Tld(a)] == child
      ensures View() == WithNode(old(View()), Tld(a))
      ensures fresh(nodes.Values - old(nodes.Values))
    {
      assert NodeOk(Root);
      if a in root.children {
        return root.children[a];
      }
      child := root.GetChildOrCreate(a, Tld(a));
      nodes := nodes[Tld(a) := child];
      forall k | k in nodes ensures NodeOk(k) {
        if k in old(nodes) { assert old(NodeOk(k)); }
        if k.Auth? { assert old(NodeOk(Tld(k.tld))); }
      }
    }

    method SubOrCreate(ghost a: string, node: TreeNode, b: string) returns (child: TreeNode)
      requires Valid() && Tld(a) in nodes && nodes[Tld(a)] == node
      modifies this`nodes, node`children
      ensures Valid() && root == old(root)
      ensures Auth(a, b) in nodes && nodes[Auth(a, b)] == child
      ensures View() == WithNode(old(View()), Auth(a, b))
      ensures fresh(nodes.Values - old(nodes.Values))
    {
      assert NodeOk(Tld(a)) && NodeOk(Root);
      if b in node.children {
        return node.children[b];
      }
      child := node.GetChildOrCreate(b, Auth(a, b));
      nodes := nodes[Auth(a, b) := child];
      forall k | k in nodes ensures NodeOk(k) {
        if k in old(nodes) { assert old(NodeOk(k)); }
      }
    }

    /** From the root down one or two labels, whatever the zone's length. */
    method InsertRecord(labels: seq<string>, r: Record)
      requires Valid()
      modifies this`nodes, nodes.Values
      ensures Valid() && root == old(root)
      ensures View() == FlatInsert(old(View()), labels, r)
      ensures fresh(nodes.Values - old(nodes.Values))
    {
      if |labels| == 0 {
        Store(Root, root, r);
        return;
      }
      var node := MakePath(labels);
      Store(KeyOf(labels), node, r);
    }

    method MakePath(labels: seq<string>) returns (node: TreeNode)
      requires Valid() && labels != []
      modifies this`nodes, nodes.Values
      ensures Valid() && root == old(root)
      ensures View() == WithPath(old(View()), KeyOf(labels))
      ensures KeyOf(labels) in nodes && nodes[KeyOf(labels)] == node
      ensures fresh(nodes.Values - old(nodes.Values))
    {
      var subdomains := labels;
      node := TldOrCreate(subdomains[|subdomains| - 1]);
      ghost var a := subdomains[|subdomains| - 1];
      subdomains := subdomains[..|subdomains| - 1];
      node := MakeRest(a, node, subdomains);
    }

    /** The path below a top-level domain: one more label, if there is one. */
    method MakeRest(ghost a: string, tld: TreeNode, labels: seq<string>) returns (node: TreeNode)
      requires Valid() && Tld(a) in nodes && nodes[Tld(a)] == tld
      modifies this`nodes, tld`children
      ensures Valid() && root == old(root)
      ensures labels == [] ==> View() == old(View()) && node == tld && nodes == old(nodes)
      ensures labels != [] ==>
                var k := Auth(a, labels[|labels| - 1]);
                View() == WithNode(old(View()), k) && k in nodes && nodes[k] == node
      ensures fresh(nodes.Values - old(nodes.Values))
    {
      var subdomains := labels;
      node := tld;
      var i := 0;
      while i < NUM_DNS_LEVELS - 2 && |subdomains| > 0
        invariant 0 <= i <= 1 && i <= |labels| && Valid() && root == old(root)
        invariant i == 0 ==> subdomains == labels && node == tld && nodes == old(nodes) && View() == old(View())
        invariant i == 1 ==>
                    var k := Auth(a, labels[|labels| - 1]);
                    View() == WithNode(old(View()), k) && k in nodes && nodes[k] == node
        invariant fresh(nodes.Values - old(nodes.Values))
      {
        var b := subdomains[|subdomains| - 1];
        node := SubOrCreate(a, node, b);
        subdomains := subdomains[..|subdomains| - 1];
        i := i + 1;
      }
    }

    method Store(ghost k: Key, node: TreeNode, r: Record)
      requires Valid() && k in nodes && nodes[k] == node
      modifies node`records
      ensures Valid() && View() == WithRecord(old(View()), k, r)
    {
      node.AddRecord(r);
      forall j | j in nodes ensures NodeOk(j) { assert old(NodeOk(j)); }
    }

    /** The node found, or null. */
    method SearchRecordsForUpdate(labels: seq<string>) returns (node: TreeNode?)
      requires Valid()
      ensures match FlatSearch(View(), labels)
              case Nothing => node == null
              case At(k) => k in nodes && node == nodes[k]
    {
      var subdomains := labels;
      if |subdomains| == 0 || |root.children| == 0 {
        NoChildrenAtRoot();
        return root;
      }
      assert HasTlds(View()) by { var a :| a in root.children; assert Tld(a) in View(); }
      ghost var a := subdomains[|subdomains| - 1];
      node := root.GetChild(subdomains[|subdomains| - 1]);
      subdomains := subdomains[..|subdomains| - 1];
      ghost var depth := 0;
      while |subdomains| > 0 && node != null
        invariant depth <= 1 && depth < |labels| && subdomains == labels[..|labels| - 1 - depth]
        invariant depth == 0 ==> if Tld(a) in nodes then node == nodes[Tld(a)] else node == null
        invariant depth == 1 ==> |labels| > 1 && Tld(a) in nodes && HasSubs(View(), a)
                                 && var k := Auth(a, labels[|labels| - 2]);
                                    if k in nodes then node == nodes[k] else node == null
        decreases |subdomains|
      {
        if |node.children| == 0 {
          if depth == 0 { NoChildrenBelow(a); }
          return node;
        }
        if depth == 0 { SomeChildrenBelow(a); }
        node := node.GetChild(subdomains[|subdomains| - 1]);
        subdomains := subdomains[..|subdomains| - 1];
        depth := depth + 1;
      }
    }

    lemma NoChildrenAtRoot()
      requires Valid()
      ensures |root.children| == 0 ==> !HasTlds(View())
    {
      forall a | Tld(a) in View() ensures a in root.children { assert NodeOk(Tld(a)); }
    }

    lemma NoChildrenBelow(a: string)
      requires Valid() && Tld(a) in nodes
      ensures |nodes[Tld(a)].children| == 0 ==> !HasSubs(View(), a)
    {
      forall b | Auth(a, b) in View() ensures b in nodes[Tld(a)].children { assert NodeOk(Auth(a, b)); }
    }

    lemma SomeChildrenBelow(a: string)
      requires Valid() && Tld(a) in nodes && |nodes[Tld(a)].children| != 0
      ensures HasSubs(View(), a)
    {
      var b :| b in nodes[Tld(a)].children;
      assert Auth(a, b) in View();
    }

    method RemoveRecord(labels: seq<string>, r: Record) returns (outcome: Removal)
      requires Valid()
      modifies nodes.Values
      ensures Valid()
      ensures (View(), outcome) == FlatRemove(old(View()), labels, r)
    {
      var node := SearchRecordsForUpdate(labels);
      ghost var found := FlatSearch(View(), labels);
      if node == null {
        return NotFound;
      }
      if |node.records| == 0 {
        return NullRecords;
      }
      var existed := r in node.records;
      ghost var m := View();
      node.records := node.records - {r};
      forall k | k in nodes ensures NodeOk(k) && (k != found.key ==> nodes[k].records == m[k]) {
        assert old(NodeOk(k));
      }
      assert View() == m[found.key := RecordsAt(m, found.key) - {r}];
      return Erased(existed);
    }
  }

  ghost function FlatRemove(m: Flat, labels: seq<string>, r: Record): (Flat, Removal) {
    match FlatSearch(m, labels)
    case Nothing => (m, NotFound)
    case At(k) =>
      if RecordsAt(m, k) == {} then (m, NullRecords)
      else (m[k := RecordsAt(m, k) - {r}], Erased(r in RecordsAt(m, k)))
  }

  // ---------------------------------------------------------------- the tree as a map

  /** What every tree's map satisfies: the root is there, and so is the parent of every node. */
  ghost predicate Rooted(m: Flat) {
    Root in m && forall a, b :: Auth(a, b) in m ==> Tld(a) in m
  }

  /** Inserting touches one key's records and nothing else's. */
  lemma InsertChangesOneKey(m: Flat, labels: seq<string>, r: Record, k: Key)
    requires Rooted(m)
    ensures Rooted(FlatInsert(m, labels, r))
    ensures RecordsAt(FlatInsert(m, labels, r), k) == RecordsAt(m, k) + if k == KeyOf(labels) then {r} else {}
  {
  }

  /** A zone just inserted is found at its own key, with the record. */
  lemma InsertThenSearch(m: Flat, labels: seq<string>, r: Record)
    requires Rooted(m)
    ensures var g := FlatInsert(m, labels, r);
            FlatSearch(g, labels) == At(KeyOf(labels)) && r in RecordsAt(g, KeyOf(labels))
  {
    var g := FlatInsert(m, labels, r);
    match KeyOf(labels)
    case Root =>
    case Tld(a) => assert Tld(a) in g;
    case Auth(a, b) => assert Tld(a) in g && Auth(a, b) in g;
  }

  /** Removing a fresh insertion puts every key's records back. */
  lemma RemoveUndoesInsert(m: Flat, labels: seq<string>, r: Record, k: Key)
    requires Rooted(m) && r !in RecordsAt(m, KeyOf(labels))
    ensures var (g, outcome) := FlatRemove(FlatInsert(m, labels, r), labels, r);
            outcome == Erased(true) && RecordsAt(g, k) == RecordsAt(m, k)
  {
    InsertThenSearch(m, labels, r);
    InsertChangesOneKey(m, labels, r, k);
  }

  /** The nodes created stay, though: an empty tree that answered for everything stops doing so. */
  lemma CreatedNodesStay(labels: seq<string>, other: seq<string>, r: Record)
    requires labels != [] && other != [] && labels[|labels| - 1] != other[|other| - 1]
    ensures var m: Flat := map[Root := {}];
            && FlatSearch(m, other) == At(Root)
            && FlatSearch(FlatRemove(FlatInsert(m, labels, r), labels, r).0, other) == Nothing
  {
    var m: Flat := map[Root := {}];
    InsertThenSearch(m, labels, r);
    var g := FlatRemove(FlatInsert(m, labels, r), labels, r).0;
    assert Tld(labels[|labels| - 1]) in g;
  }

  // ---------------------------------------------------------------- what a removal hits

  /** A record that is there is found and removed, and no other key's records change. */
  lemma RemoveTakesExactlyThis(m: Flat, labels: seq<string>, r: Record, k: Key)
    requires Rooted(m) && r in RecordsAt(m, KeyOf(labels))
    ensures var (g, outcome) := FlatRemove(m, labels, r);
            outcome == Erased(true) && RecordsAt(g, k) == RecordsAt(m, k) - if k == KeyOf(labels) then {r} else {}
  {
    SearchFindsKnown(m, labels);
  }

  lemma SearchFindsKnown(m: Flat, labels: seq<string>)
    requires Rooted(m) && KeyOf(labels) in m
    ensures FlatSearch(m, labels) == At(KeyOf(labels))
  {
    match KeyOf(labels)
    case Root =>
    case Tld(a) => assert Tld(a) in m;
    case Auth(a, b) => assert Tld(a) in m && Auth(a, b) in m;
  }

  /** Removing a zone's only record twice follows a null pointer. */
  lemma SecondRemovalCrashes(m: Flat, labels: seq<string>, r: Record)
    requires Rooted(m) && RecordsAt(m, KeyOf(labels)) == {r}
    ensures var once := FlatRemove(m, labels, r);
            once.1 == Erased(true) && FlatRemove(once.0, labels, r).1 == NullRecords
  {
    SearchFindsKnown(m, labels);
    var g := FlatRemove(m, labels, r).0;
    forall a, b | Auth(a, b) in g ensures Tld(a) in g { assert Auth(a, b) in m; }
    SearchFindsKnown(g, labels);
  }

  // ---------------------------------------------------------------- what is left of an insert that was undone

  ghost predicate SameAnswer(m: Flat, g: Flat, labels: seq<string>) {
    FlatSearch(g, labels) == FlatSearch(m, labels)
  }

  lemma SameNodesSameAnswers(m: Flat, g: Flat, labels: seq<string>)
    requires m.Keys == g.Keys
    ensures SameAnswer(m, g, labels)
  {
    assert forall k :: k in m <==> k in g;
    assert HasTlds(m) <==> HasTlds(g);
    if labels != [] {
      assert HasSubs(m, labels[|labels| - 1]) <==> HasSubs(g, labels[|labels| - 1]);
    }
  }

  lemma NodesAfterUndoing(m: Flat, labels: seq<string>, r: Record)
    requires Rooted(m)
    ensures FlatRemove(FlatInsert(m, labels, r), labels, r).0.Keys == WithPath(m, KeyOf(labels)).Keys
    ensures Rooted(FlatRemove(FlatInsert(m, labels, r), labels, r).0)
  {
    var f := FlatInsert(m, labels, r);
    InsertChangesOneKey(m, labels, r, Root);
    InsertThenSearch(m, labels, r);
    var g := FlatRemove(f, labels, r).0;
    assert g.Keys == f.Keys;
    assert f.Keys == WithPath(m, KeyOf(labels)).Keys;
    forall a, b | Auth(a, b) in g ensures Tld(a) in g { assert Auth(a, b) in f; }
  }

  /** Removing a fresh insert restores every search if and only if the zone's node was there before. */
  lemma SearchesRestoredIff(m: Flat, labels: seq<string>, r: Record)
    requires Rooted(m) && r !in RecordsAt(m, KeyOf(labels))
    ensures (forall other :: SameAnswer(m, FlatRemove(FlatInsert(m, labels, r), labels, r).0, other)) <==>
              KeyOf(labels) in m
  {
    var g := FlatRemove(FlatInsert(m, labels, r), labels, r).0;
    NodesAfterUndoing(m, labels, r);
    if KeyOf(labels) in m {
      assert WithPath(m, KeyOf(labels)) == m;
      forall other ensures SameAnswer(m, g, other) { SameNodesSameAnswers(m, g, other); }
    } else {
      SearchFindsKnown(g, labels);
      if FlatSearch(m, labels).At? { FoundIsThere(m, labels); }
      assert !SameAnswer(m, g, labels);
    }
  }

  /** Two zones share a node exactly when their last two labels are the same; longer names count no further. */
  lemma SameKeyIff(x: seq<string>, y: seq<string>)
    ensures KeyOf(x) == KeyOf(y) <==>
            x[if |x| > 2 then |x| - 2 else 0..] == y[if |y| > 2 then |y| - 2 else 0..]
  {
    var u, v := x[if |x| > 2 then |x| - 2 else 0..], y[if |y| > 2 then |y| - 2 else 0..];
    assert |u| == 1 ==> u == [u[0]];
    assert |u| == 2 ==> u == [u[0], u[1]];
    assert |v| == 2 ==> v == [v[0], v[1]];
    assert |v| == 1 ==> v == [v[0]];
  }

  /** A removal takes another zone's record: of a parent without children, or of the root of an empty tree. */
  ghost predicate Strays(m: Flat, labels: seq<string>, r: Record) {
    exists k :: k != KeyOf(labels) && RecordsAt(FlatRemove(m, labels, r).0, k) != RecordsAt(m, k)
  }

  // ---------------------------------------------------------------- ... in terms of what was inserted

  datatype Op = Insert(labels: seq<string>, r: Record) | Remove(labels: seq<string>, r: Record)

  ghost function Apply(m: Flat, op: Op): Flat {
    match op
    case Insert(labels, r) => FlatInsert(m, labels, r)
    case Remove(labels, r) => FlatRemove(m, labels, r).0
  }

  /** The tree after a history of operations on an empty one. */
  ghost function History(ops: seq<Op>): Flat {
    if ops == [] then map[Root := {}] else Apply(History(ops[..|ops| - 1]), ops[|ops| - 1])
  }

  /** Some zone with at least n labels was inserted that ends in a. */
  ghost predicate InsertedBelow(ops: seq<Op>, a: string, n: nat) {
    exists i :: 0 <= i < |ops| && EndsIn(ops[i], a, n)
  }

  ghost predicate EndsIn(op: Op, a: string, n: nat) {
    op.Insert? && |op.labels| >= n && op.labels != [] && op.labels[|op.labels| - 1] == a
  }

  ghost predicate InsertedKey(ops: seq<Op>, k: Key) {
    exists i :: 0 <= i < |ops| && ops[i].Insert? && KeyOf(ops[i].labels) == k
  }

  /** Which nodes exist is decided by the inserts alone. */
  lemma {:induction false} NodesOfHistory(ops: seq<Op>)
    ensures Rooted(History(ops))
    ensures forall a :: Tld(a) in History(ops) <==> InsertedBelow(ops, a, 1)
    ensures forall a, b :: Auth(a, b) in History(ops) <==> InsertedKey(ops, Auth(a, b))
  {
    if ops != [] {
      var k := |ops| - 1;
      NodesOfHistory(ops[..k]);
      var m, g := History(ops[..k]), History(ops);
      forall a ensures Tld(a) in g <==> InsertedBelow(ops, a, 1) {
        LastTld(ops, a);
        KeysAfter(m, ops[k], Tld(a));
      }
      forall a, b ensures Auth(a, b) in g <==> InsertedKey(ops, Auth(a, b)) {
        LastKey(ops, Auth(a, b));
        KeysAfter(m, ops[k], Auth(a, b));
      }
      RootedAfter(m, ops[k]);
    }
  }

  lemma RootedAfter(m: Flat, op: Op)
    requires Rooted(m)
    ensures Rooted(Apply(m, op))
  {
    match op
    case Insert(labels, r) => InsertChangesOneKey(m, labels, r, Root);
    case Remove(labels, r) =>
      forall a, b | Auth(a, b) in Apply(m, op) ensures Tld(a) in Apply(m, op) {
        KeysAfter(m, op, Auth(a, b));
        KeysAfter(m, op, Tld(a));
      }
  }

  lemma KeysAfter(m: Flat, op: Op, k: Key)
    requires Rooted(m)
    ensures k in Apply(m, op) <==> k in m || (op.Insert? && k in WithPath(map[Root := {}], KeyOf(op.labels)))
  {
    if op.Remove? && FlatSearch(m, op.labels).At? { FoundIsThere(m, op.labels); }
  }

  lemma FoundIsThere(m: Flat, labels: seq<string>)
    requires Rooted(m) && FlatSearch(m, labels).At?
    ensures FlatSearch(m, labels).key in m
  {
  }

  lemma LastTld(ops: seq<Op>, a: string)
    requires ops != []
    ensures InsertedBelow(ops, a, 1) <==> InsertedBelow(ops[..|ops| - 1], a, 1) || EndsIn(ops[|ops| - 1], a, 1)
  {
    var front := ops[..|ops| - 1];
    if InsertedBelow(front, a, 1) {
      var i :| 0 <= i < |front| && EndsIn(front[i], a, 1);
      assert EndsIn(ops[i], a, 1);
    }
    if InsertedBelow(ops, a, 1) {
      var i :| 0 <= i < |ops| && EndsIn(ops[i], a, 1);
      assert i < |front| ==> EndsIn(front[i], a, 1);
    }
  }

  lemma LastKey(ops: seq<Op>, k: Key)
    requires ops != []
    ensures InsertedKey(ops, k) <==>
            InsertedKey(ops[..|ops| - 1], k) || (ops[|ops| - 1].Insert? && KeyOf(ops[|ops| - 1].labels) == k)
  {
    var front := ops[..|ops| - 1];
    if InsertedKey(front, k) {
      var i :| 0 <= i < |front| && front[i].Insert? && KeyOf(front[i].labels) == k;
      assert ops[i].Insert? && KeyOf(ops[i].labels) == k;
    }
    if InsertedKey(ops, k) {
      var i :| 0 <= i < |ops| && ops[i].Insert? && KeyOf(ops[i].labels) == k;
      assert i < |front| ==> front[i].Insert? && KeyOf(front[i].labels) == k;
    }
  }

  ghost predicate AnyZoneInserted(ops: seq<Op>) { exists a :: InsertedBelow(ops, a, 1) }

  /** Whose records an operation under these labels works on, by what was ever inserted. */
  ghost function Target(ops: seq<Op>, labels: seq<string>): Found {
    if labels == [] || !AnyZoneInserted(ops) then At(Root)
    else
      var a := labels[|labels| - 1];
      if !InsertedBelow(ops, a, 1) then Nothing
      else if |labels| == 1 || !InsertedBelow(ops, a, 2) then At(Tld(a))
      else if InsertedKey(ops, KeyOf(labels)) then At(KeyOf(labels))
      else Nothing
  }

  lemma TargetIsFound(ops: seq<Op>, labels: seq<string>)
    ensures FlatSearch(History(ops), labels) == Target(ops, labels)
  {
    var m := History(ops);
    NodesOfHistory(ops);
    assert HasTlds(m) <==> AnyZoneInserted(ops);
    if labels != [] {
      var a := labels[|labels| - 1];
      SubsInserted(ops, a);
    }
  }

  lemma SubsInserted(ops: seq<Op>, a: string)
    ensures HasSubs(History(ops), a) <==> InsertedBelow(ops, a, 2)
  {
    NodesOfHistory(ops);
    if HasSubs(History(ops), a) {
      var b :| Auth(a, b) in History(ops);
      var i :| 0 <= i < |ops| && ops[i].Insert? && KeyOf(ops[i].labels) == Auth(a, b);
      assert EndsIn(ops[i], a, 2);
    }
    if InsertedBelow(ops, a, 2) {
      var i :| 0 <= i < |ops| && EndsIn(ops[i], a, 2);
      var b := ops[i].labels[|ops[i].labels| - 2];
      assert InsertedKey(ops, Auth(a, b));
      assert Auth(a, b) in History(ops);
    }
  }

  /**
   * After any history, a removal takes another zone's record if and only if no zone but the root was ever inserted
   * and the root has it, or nothing was ever inserted below its top-level domain and that has it.
   */
  lemma RemovalStraysIff(ops: seq<Op>, labels: seq<string>, r: Record)
    ensures Strays(History(ops), labels, r) <==>
              && labels != []
              && var a := labels[|labels| - 1];
                 || (!AnyZoneInserted(ops) && r in RecordsAt(History(ops), Root))
                 || (|labels| >= 2 && !InsertedBelow(ops, a, 2) && r in RecordsAt(History(ops), Tld(a)))
  {
    var m := History(ops);
    NodesOfHistory(ops);
    TargetIsFound(ops, labels);
    StraysAt(m, labels, r);
    if labels != [] && !AnyZoneInserted(ops) {
      var a := labels[|labels| - 1];
      assert Tld(a) !in m;
    }
  }

  lemma StraysAt(m: Flat, labels: seq<string>, r: Record)
    ensures Strays(m, labels, r) <==>
            FlatSearch(m, labels).At? && FlatSearch(m, labels).key != KeyOf(labels)
                && r in RecordsAt(m, FlatSearch(m, labels).key)
  {
    var f := FlatSearch(m, labels);
    if f.At? && f.key != KeyOf(labels) && r in RecordsAt(m, f.key) {
      assert RecordsAt(FlatRemove(m, labels, r).0, f.key) != RecordsAt(m, f.key);
    }
  }

  /**
   * What a removal comes to, after any history: the answer says whether the record was among those it works on, and
   * only then does anything change, by that record alone.
   */
  lemma RemovalOutcome(ops: seq<Op>, labels: seq<string>, r: Record)
    ensures var m := History(ops);
            var (g, outcome) := FlatRemove(m, labels, r);
            match Target(ops, labels)
            case Nothing => g == m && outcome == NotFound
            case At(k) =>
              && (RecordsAt(m, k) == {} ==> outcome == NullRecords && g == m)
              && (RecordsAt(m, k) != {} && r !in RecordsAt(m, k) ==> outcome == Erased(false) && g == m)
              && (r in RecordsAt(m, k) ==>
                    outcome == Erased(true)
                    && forall j :: RecordsAt(g, j) == RecordsAt(m, j) - if j == k then {r} else {})
  {
    TargetIsFound(ops, labels);
    NodesOfHistory(ops);
    var m := History(ops);
    if FlatSearch(m, labels).At? {
      FoundIsThere(m, labels);
      var k := FlatSearch(m, labels).key;
      if r !in RecordsAt(m, k) {
        assert RecordsAt(m, k) - {r} == m[k];
        assert m[k := m[k]] == m;
      }
    }
  }

  /** After any history, a removal follows a null pointer if and only if the zone it works on has no record (left). */
  lemma RemovalCrashesIff(ops: seq<Op>, labels: seq<string>, r: Record)
    ensures FlatRemove(History(ops), labels, r).1 == NullRecords <==>
            Target(ops, labels).At? && RecordsAt(History(ops), Target(ops, labels).key) == {}
  {
    TargetIsFound(ops, labels);
  }

  /** A removal under a.com empties com, when com was the only zone inserted. */
  lemma ParentLosesItsRecord(r: Record, com: string, a: string)
    ensures var ops := [Insert([com], r)];
            && Strays(History(ops), [a, com], r)
            && FlatRemove(History(ops), [a, com], r).1 == Erased(true)
            && RecordsAt(FlatRemove(History(ops), [a, com], r).0, Tld(com)) == {}
  {
    var ops := [Insert([com], r)];
    assert ops[..|ops| - 1] == [] && History([]) == map[Root := {}];
    assert EndsIn(ops[0], com, 1);
    assert !InsertedBelow(ops, com, 2);
    var m := History(ops);
    assert m == FlatInsert(map[Root := {}], [com], r);
    TargetIsFound(ops, [a, com]);
    assert AnyZoneInserted(ops) && InsertedBelow(ops, com, 1);
    RemovalStraysIff(ops, [a, com], r);
  }
}
