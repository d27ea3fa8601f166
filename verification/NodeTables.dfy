/** The provider's node table: resources by node id, and two sorted vectors that index them by topic and by zone. */
module NodeTables {
  import opened Sums

  // ---------------------------------------------------------------- strings in strcmp order

  predicate Less(a: string, b: string) {
    b != [] && (a == [] || a[0] < b[0] || (a[0] == b[0] && Less(a[1..], b[1..])))
  }

  /** a comes first: it is a proper prefix of b, or smaller at the first difference. */
  ghost predicate FirstAt(a: string, b: string, k: nat) {
    k <= |a| && k < |b| && a[..k] == b[..k] && (k == |a| || a[k] < b[k])
  }

  lemma {:induction false} LessMeans(a: string, b: string)
    ensures Less(a, b) <==> exists k: nat :: FirstAt(a, b, k)
  {
    if a == [] || b == [] || a[0] != b[0] {
      if Less(a, b) { assert FirstAt(a, b, 0); }
      forall k: nat | FirstAt(a, b, k) ensures Less(a, b) { FirstMeansLess(a, b, k); }
    } else {
      LessMeans(a[1..], b[1..]);
      if Less(a, b) {
        var k: nat :| FirstAt(a[1..], b[1..], k);
        assert a[..k + 1] == [a[0]] + a[1..][..k] && b[..k + 1] == [b[0]] + b[1..][..k];
        assert FirstAt(a, b, k + 1);
      }
      forall k: nat | FirstAt(a, b, k) ensures Less(a, b) { FirstMeansLess(a, b, k); }
    }
  }

  lemma {:induction false} FirstMeansLess(a: string, b: string, k: nat)
    requires FirstAt(a, b, k)
    ensures Less(a, b)
  {
    if k > 0 {
      assert a[0] == a[..k][0] == b[..k][0] == b[0];
      assert a[1..][..k - 1] == a[..k][1..] && b[1..][..k - 1] == b[..k][1..];
      FirstMeansLess(a[1..], b[1..], k - 1);
    }
  }

  lemma {:induction false} LessTransitive(a: string, b: string, c: string)
    requires Less(a, b) && Less(b, c)
    ensures Less(a, c)
  {
    if a != [] && a[0] == b[0] && b[0] == c[0] { LessTransitive(a[1..], b[1..], c[1..]); }
  }

  lemma {:induction false} LessTotal(a: string, b: string)
    ensures Less(a, b) || Less(b, a) || a == b
  {
    if a != [] && b != [] && a[0] == b[0] {
      LessTotal(a[1..], b[1..]);
      if a[1..] == b[1..] { assert a == [a[0]] + a[1..] && b == [b[0]] + b[1..]; }
    }
  }

  lemma {:induction false} LessIrreflexive(a: string)
    ensures !Less(a, a)
  {
    if a != [] { LessIrreflexive(a[1..]); }
  }

  // ---------------------------------------------------------------- sorted vectors

  datatype Keyed<V> = Keyed(key: string, value: V)

  /** Strictly ascending: sorted and without duplicates. */
  ghost predicate Sorted<V>(s: seq<Keyed<V>>) {
    forall i, j :: 0 <= i < j < |s| ==> Less(s[i].key, s[j].key)
  }

  ghost predicate IsLowerBound<V>(s: seq<Keyed<V>>, key: string, p: nat) {
    p <= |s| && forall i :: 0 <= i < |s| ==> (Less(s[i].key, key) <==> i < p)
  }

  /** Where std::lower_bound stops. */
  function Lower<V>(s: seq<Keyed<V>>, key: string): (p: nat)
    ensures p <= |s|
  {
    if s == [] || !Less(s[0].key, key) then 0 else 1 + Lower(s[1..], key)
  }

  lemma {:induction false} LowerIsLowerBound<V>(s: seq<Keyed<V>>, key: string)
    requires Sorted(s)
    ensures IsLowerBound(s, key, Lower(s, key))
  {
    if s != [] {
      if Less(s[0].key, key) {
        LowerIsLowerBound(s[1..], key);
        var p := Lower(s[1..], key);
        forall i | 0 <= i < p + 1 ensures Less(s[i].key, key) { if i > 0 { assert s[i] == s[1..][i - 1]; } }
        forall i | p + 1 <= i < |s| ensures !Less(s[i].key, key) { assert s[i] == s[1..][i - 1]; }
      } else {
        forall i | 0 < i < |s| ensures !Less(s[i].key, key) {
          if Less(s[i].key, key) { LessTransitive(s[0].key, s[i].key, key); }
        }
      }
    }
  }

  lemma LowerBoundIsUnique<V>(s: seq<Keyed<V>>, key: string, p: nat, q: nat)
    requires IsLowerBound(s, key, p) && IsLowerBound(s, key, q)
    ensures p == q
  {
    var i := if p < q then p else q;
    assert i == |s| || (Less(s[i].key, key) <==> i < p);
  }

  /** Binary search. */
  method LowerBound<V>(s: seq<Keyed<V>>, key: string) returns (p: nat)
    requires Sorted(s)
    ensures p == Lower(s, key)
  {
    var first, len := 0, |s|;
    while len > 0
      invariant 0 <= first && 0 <= len && first + len <= |s|
      invariant forall i :: 0 <= i < first ==> Less(s[i].key, key)
      invariant forall i :: first + len <= i < |s| ==> !Less(s[i].key, key)
    {
      var half := len / 2;
      var middle := first + half;
      if Less(s[middle].key, key) {
        forall i | 0 <= i < middle ensures Less(s[i].key, key) { LessTransitive(s[i].key, s[middle].key, key); }
        first := middle + 1;
        len := len - half - 1;
      } else {
        forall i | middle <= i < |s| ensures !Less(s[i].key, key) {
          if Less(s[i].key, key) && i > middle { LessTransitive(s[middle].key, s[i].key, key); }
        }
        len := half;
      }
    }
    LowerIsLowerBound(s, key);
    LowerBoundIsUnique(s, key, first, Lower(s, key));
    return first;
  }

  /** The lookup both find functions make: the position, if its key is the one asked for. */
  function Position<V>(s: seq<Keyed<V>>, key: string): Option<nat> {
    var p := Lower(s, key);
    if p < |s| && !Less(key, s[p].key) then Some(p) else None
  }

  lemma PositionMeans<V>(s: seq<Keyed<V>>, key: string)
    requires Sorted(s)
    ensures Position(s, key).Some? ==> Position(s, key).value < |s| && s[Position(s, key).value].key == key
    ensures !Position(s, key).Some? ==> forall i :: 0 <= i < |s| ==> s[i].key != key
  {
    LowerIsLowerBound(s, key);
    var p := Lower(s, key);
    if p < |s| { LessTotal(s[p].key, key); }
    LessIrreflexive(key);
    if !Position(s, key).Some? {
      forall i | 0 <= i < |s| ensures s[i].key != key {
        if i > p { assert Less(s[p].key, s[i].key); }
      }
    }
  }

  function Inserted<V>(s: seq<Keyed<V>>, p: nat, x: Keyed<V>): seq<Keyed<V>>
    requires p <= |s|
  {
    s[..p] + [x] + s[p..]
  }

  /** Sorting a sorted vector with one entry appended: the entry moves down to its place. */
  method SortAppended<V>(s: seq<Keyed<V>>, x: Keyed<V>) returns (r: seq<Keyed<V>>)
    requires Sorted(s) && Position(s, x.key) == None
    ensures r == Inserted(s, Lower(s, x.key), x)
  {
    r := s + [x];
    var i := |s|;
    LowerIsLowerBound(s, x.key);
    while i > 0 && Less(r[i].key, r[i - 1].key)
      invariant 0 <= i <= |s| && r == Inserted(s, i, x)
      invariant forall j :: i <= j < |s| ==> Less(x.key, s[j].key)
    {
      assert r[i - 1] == s[i - 1];
      r := r[i := r[i - 1]][i - 1 := r[i]];
      i := i - 1;
      assert r == Inserted(s, i, x);
    }
    assert IsLowerBound(s, x.key, i) by {
      PositionMeans(s, x.key);
      forall j | 0 <= j < i ensures Less(s[j].key, x.key) {
        assert r[i - 1] == s[i - 1];
        LessTotal(s[i - 1].key, x.key);
        if j < i - 1 { LessTransitive(s[j].key, s[i - 1].key, x.key); }
      }
      forall j | i <= j < |s| ensures !Less(s[j].key, x.key) {
        if Less(s[j].key, x.key) { LessTransitive(s[j].key, x.key, s[j].key); LessIrreflexive(s[j].key); }
      }
    }
    LowerBoundIsUnique(s, x.key, i, Lower(s, x.key));
  }

  lemma InsertKeepsSorted<V>(s: seq<Keyed<V>>, x: Keyed<V>)
    requires Sorted(s) && Position(s, x.key) == None
    ensures Sorted(Inserted(s, Lower(s, x.key), x))
  {
    LowerIsLowerBound(s, x.key);
    PositionMeans(s, x.key);
    var p := Lower(s, x.key);
    var r := Inserted(s, p, x);
    forall i, j | 0 <= i < j < |r| ensures Less(r[i].key, r[j].key) {
      if i == p { LessTotal(s[j - 1].key, x.key); }
    }
  }

  lemma PositionOf<V>(s: seq<Keyed<V>>, i: nat)
    requires Sorted(s) && i < |s|
    ensures Position(s, s[i].key) == Some(i)
  {
    PositionMeans(s, s[i].key);
    var p := Position(s, s[i].key);
    if p.Some? && p.value != i { LessIrreflexive(s[i].key); }
  }

  // ---------------------------------------------------------------- vectors as maps

  /** Lookups in the vector answer like lookups in the map. */
  ghost predicate Represents<V(!new)>(s: seq<Keyed<V>>, m: map<string, V>) {
    forall key :: Answers(s, m, key)
  }

  ghost predicate Answers<V>(s: seq<Keyed<V>>, m: map<string, V>, key: string) {
    ValueOf(s, key) == if key in m then Some(m[key]) else None
  }

  lemma InsertRepresents<V(!new)>(s: seq<Keyed<V>>, m: map<string, V>, x: Keyed<V>)
    requires Sorted(s) && Represents(s, m) && x.key !in m
    ensures Position(s, x.key) == None
    ensures Represents(Inserted(s, Lower(s, x.key), x), m[x.key := x.value])
  {
    assert Answers(s, m, x.key);
    PositionMeans(s, x.key);
    var r, m' := Inserted(s, Lower(s, x.key), x), m[x.key := x.value];
    forall key ensures Answers(r, m', key) {
      assert Answers(s, m, key);
      ValueAfterInsert(s, x, key);
    }
  }

  lemma SetRepresents<V(!new)>(s: seq<Keyed<V>>, m: map<string, V>, i: nat, v: V)
    requires Sorted(s) && Represents(s, m) && i < |s|
    ensures Sorted(s[i := s[i].(value := v)])
    ensures Represents(s[i := s[i].(value := v)], m[s[i].key := v])
  {
    var r := s[i := s[i].(value := v)];
    forall j, k | 0 <= j < k < |r| ensures Less(r[j].key, r[k].key) {
      assert r[j].key == s[j].key && r[k].key == s[k].key;
    }
    var m' := m[s[i].key := v];
    forall key ensures Answers(r, m', key) {
      assert Answers(s, m, key);
      SameKeysSamePosition(s, r, key);
      PositionMeans(s, key);
      PositionOf(s, i);
    }
  }

  lemma {:induction false} SameKeysSameLower<V>(s: seq<Keyed<V>>, r: seq<Keyed<V>>, key: string)
    requires |s| == |r| && forall i :: 0 <= i < |s| ==> s[i].key == r[i].key
    ensures Lower(s, key) == Lower(r, key)
  {
    if s != [] && Less(s[0].key, key) {
      assert forall i :: 0 <= i < |s[1..]| ==> s[1..][i] == s[i + 1] && r[1..][i] == r[i + 1];
      SameKeysSameLower(s[1..], r[1..], key);
    }
  }

  lemma SameKeysSamePosition<V>(s: seq<Keyed<V>>, r: seq<Keyed<V>>, key: string)
    requires |s| == |r| && forall i :: 0 <= i < |s| ==> s[i].key == r[i].key
    ensures Position(s, key) == Position(r, key)
  {
    SameKeysSameLower(s, r, key);
  }

  // ---------------------------------------------------------------- the table

  datatype NodeEntry = NodeEntry(cores: nat, ram: nat, disk: nat, topicIndex: nat, zoneIndex: nat)

  datatype Table = Table(nodes: seq<NodeEntry>, topics: seq<Keyed<nat>>, zones: seq<Keyed<set<nat>>>)

  const EMPTY := Table([], [], [])

  /** Sorted vectors, ids and indices in range. */
  ghost predicate Valid(t: Table) {
    && Sorted(t.topics) && Sorted(t.zones) && |t.topics| == |t.nodes|
    && (forall i :: 0 <= i < |t.topics| ==> t.topics[i].value < |t.nodes|)
    && (forall z, n :: 0 <= z < |t.zones| && n in t.zones[z].value ==> n < |t.nodes|)
    && (forall n :: 0 <= n < |t.nodes| ==> t.nodes[n].topicIndex < |t.topics| && t.nodes[n].zoneIndex < |t.zones|)
  }

  /** What a lookup in a sorted vector answers. */
  function ValueOf<V>(s: seq<Keyed<V>>, key: string): Option<V> {
    match Position(s, key)
    case None => None
    case Some(p) => if p < |s| then Some(s[p].value) else None
  }

  function FindNodeByTopic(t: Table, topic: string): Option<nat> { ValueOf(t.topics, topic) }

  function FindNodesByZone(t: Table, zone: string): Option<set<nat>> { ValueOf(t.zones, zone) }

  function Updated(t: Table, n: nat, cores: nat, ram: nat, disk: nat): Table
    requires n < |t.nodes|
  {
    t.(nodes := t.nodes[n := t.nodes[n].(cores := cores, ram := ram, disk := disk)])
  }

  /**
   * A new node: appended, its topic sorted in, its zone extended or sorted in. The indices recorded are those before
   * sorting.
   */
  function Added(t: Table, topic: string, zone: string, cores: nat, ram: nat, disk: nat): Table {
    var n := |t.nodes|;
    var topics := Inserted(t.topics, Lower(t.topics, topic), Keyed(topic, n));
    match Position(t.zones, zone)
    case Some(z) =>
      if z < |t.zones| then
        Table(t.nodes + [NodeEntry(cores, ram, disk, |t.topics|, z)], topics,
              t.zones[z := t.zones[z].(value := t.zones[z].value + {n})])
      else t
    case None =>
      Table(t.nodes + [NodeEntry(cores, ram, disk, |t.topics|, |t.zones|)], topics,
            Inserted(t.zones, Lower(t.zones, zone), Keyed(zone, {n})))
  }

  function AddOrUpdate(t: Table, topic: string, zone: string, cores: nat, ram: nat, disk: nat): Table {
    match FindNodeByTopic(t, topic)
    case Some(n) => if n < |t.nodes| then Updated(t, n, cores, ram, disk) else t
    case None => Added(t, topic, zone, cores, ram, disk)
  }

  class NodeTable {
    var nodes: seq<NodeEntry>
    var topics: seq<Keyed<nat>>
    var zones: seq<Keyed<set<nat>>>

    ghost function View(): Table
      reads this
    {
      Table(nodes, topics, zones)
    }

    constructor ()
      ensures View() == EMPTY && Valid(View())
    {
      nodes, topics, zones := [], [], [];
    }

    method FindByTopic(topic: string) returns (n: Option<nat>)
      requires Valid(View())
      ensures n == FindNodeByTopic(View(), topic)
    {
      var p := LowerBound(topics, topic);
      if p < |topics| && !Less(topic, topics[p].key) {
        return Some(topics[p].value);
      }
      return None;
    }

    method FindByZone(zone: string) returns (ns: Option<set<nat>>)
      requires Valid(View())
      ensures ns == FindNodesByZone(View(), zone)
    {
      var p := LowerBound(zones, zone);
      if p < |zones| && !Less(zone, zones[p].key) {
        return Some(zones[p].value);
      }
      return None;
    }

    /** The returned id is read through the slot the new topic had before sorting. */
    method AddOrUpdateNode(topic: string, zone: string, cores: nat, ram: nat, disk: nat) returns (id: nat)
      requires Valid(View())
      modifies this
      ensures View() == AddOrUpdate(old(View()), topic, zone, cores, ram, disk) && Valid(View())
      ensures match FindNodeByTopic(old(View()), topic)
              case Some(n) => id == n
              case None => |old(topics)| < |topics| && id == topics[|old(topics)|].value
    {
      ghost var t := View();
      AddOrUpdateIsValid(t, topic, zone, cores, ram, disk);
      var p := LowerBound(topics, topic);
      if p < |topics| && !Less(topic, topics[p].key) {
        id := topics[p].value;
        nodes := nodes[id := nodes[id].(cores := cores, ram := ram, disk := disk)];
        return id;
      }
      var nodeIndex, topicIndex := |nodes|, |topics|;
      topics := SortAppended(topics, Keyed(topic, nodeIndex));
      var z := LowerBound(zones, zone);
      if z < |zones| && !Less(zone, zones[z].key) {
        zones := zones[z := zones[z].(value := zones[z].value + {nodeIndex})];
        nodes := nodes + [NodeEntry(cores, ram, disk, topicIndex, z)];
      } else {
        nodes := nodes + [NodeEntry(cores, ram, disk, topicIndex, |zones|)];
        zones := SortAppended(zones, Keyed(zone, {nodeIndex}));
      }
      return topics[topicIndex].value;
    }
  }

  lemma AddOrUpdateIsValid(t: Table, topic: string, zone: string, cores: nat, ram: nat, disk: nat)
    requires Valid(t)
    ensures Valid(AddOrUpdate(t, topic, zone, cores, ram, disk))
  {
    PositionMeans(t.topics, topic);
    if FindNodeByTopic(t, topic) == None { AddedIsValid(t, topic, zone, cores, ram, disk); }
  }

  lemma AddedIsValid(t: Table, topic: string, zone: string, cores: nat, ram: nat, disk: nat)
    requires Valid(t) && Position(t.topics, topic) == None
    ensures Valid(Added(t, topic, zone, cores, ram, disk))
  {
    PositionMeans(t.zones, zone);
    TopicsStayValid(t, topic);
    ZonesStayValid(t, zone);
  }

  lemma TopicsStayValid(t: Table, topic: string)
    requires Valid(t) && Position(t.topics, topic) == None
    ensures var topics := Inserted(t.topics, Lower(t.topics, topic), Keyed(topic, |t.nodes|));
            Sorted(topics) && |topics| == |t.nodes| + 1 && forall i :: 0 <= i < |topics| ==>
                topics[i].value <= |t.nodes|
  {
    InsertKeepsSorted(t.topics, Keyed(topic, |t.nodes|));
  }

  lemma ZonesStayValid(t: Table, zone: string)
    requires Valid(t)
    ensures Position(t.zones, zone) == None ==>
              var zones := Inserted(t.zones, Lower(t.zones, zone), Keyed(zone, {|t.nodes|}));
              && Sorted(zones) && |zones| == |t.zones| + 1
              && forall z, n :: 0 <= z < |zones| && n in zones[z].value ==> n <= |t.nodes|
  {
    if Position(t.zones, zone) == None { InsertKeepsSorted(t.zones, Keyed(zone, {|t.nodes|})); }
  }

  /** The resources after a report, node by node. */
  lemma AddOrUpdateNodes(t: Table, topic: string, zone: string, cores: nat, ram: nat, disk: nat)
    requires Valid(t)
    ensures var g := AddOrUpdate(t, topic, zone, cores, ram, disk);
            match FindNodeByTopic(t, topic)
            case Some(n) => n < |t.nodes| && |g.nodes| == |t.nodes| && g.nodes[n].cores == cores
                            && forall i :: 0 <= i < |t.nodes| && i != n ==> g.nodes[i] == t.nodes[i]
            case None => |g.nodes| == |t.nodes| + 1 && g.nodes[|t.nodes|].cores == cores
                         && forall i :: 0 <= i < |t.nodes| ==> g.nodes[i] == t.nodes[i]
  {
    PositionMeans(t.topics, topic);
    PositionMeans(t.zones, zone);
  }

  // ---------------------------------------------------------------- forward lookups

  /** The table answers like a map from topics to node ids and a map from zones to sets of ids. */
  ghost predicate Refines(t: Table, topics: map<string, nat>, zones: map<string, set<nat>>) {
    Valid(t) && Represents(t.topics, topics) && Represents(t.zones, zones)
  }

  ghost function ZonesWith(zones: map<string, set<nat>>, zone: string, n: nat): map<string, set<nat>> {
    zones[zone := (if zone in zones then zones[zone] else {}) + {n}]
  }

  lemma LookupsAgree(t: Table, topics: map<string, nat>, zones: map<string, set<nat>>, key: string)
    requires Refines(t, topics, zones)
    ensures FindNodeByTopic(t, key) == if key in topics then Some(topics[key]) else None
    ensures FindNodesByZone(t, key) == if key in zones then Some(zones[key]) else None
  {
    assert Answers(t.topics, topics, key) && Answers(t.zones, zones, key);
  }

  lemma AddOrUpdateRefines(t: Table, topics: map<string, nat>, zones: map<string, set<nat>>,
                           topic: string, zone: string, cores: nat, ram: nat, disk: nat)
    requires Refines(t, topics, zones)
    ensures var g := AddOrUpdate(t, topic, zone, cores, ram, disk);
            if topic in topics then
              && Refines(g, topics, zones) && topics[topic] < |t.nodes|
              && g.nodes == t.nodes[topics[topic] := t.nodes[topics[topic]].(cores := cores, ram := ram, disk := disk)]
            else
              && Refines(g, topics[topic := |t.nodes|], ZonesWith(zones, zone, |t.nodes|))
              && |g.nodes| == |t.nodes| + 1 && g.nodes[..|t.nodes|] == t.nodes
              && g.nodes[|t.nodes|].cores == cores && g.nodes[|t.nodes|].ram == ram && g.nodes[|t.nodes|].disk == disk
  {
    LookupsAgree(t, topics, zones, topic);
    LookupsAgree(t, topics, zones, zone);
    AddOrUpdateIsValid(t, topic, zone, cores, ram, disk);
    PositionMeans(t.zones, zone);
    PositionMeans(t.topics, topic);
    var n := |t.nodes|;
    if topic !in topics {
      InsertRepresents(t.topics, topics, Keyed(topic, n));
      if zone in zones {
        var z := Position(t.zones, zone).value;
        SetRepresents(t.zones, zones, z, t.zones[z].value + {n});
      } else {
        InsertRepresents(t.zones, zones, Keyed(zone, {n}));
        assert ZonesWith(zones, zone, n)[zone] == {n};
      }
    }
  }

  // ---------------------------------------------------------------- back pointers

  /** The topic a node entry points back to is its own. */
  ghost predicate TopicsPointBack(t: Table) {
    forall n :: 0 <= n < |t.nodes| ==> t.nodes[n].topicIndex < |t.topics| && t.topics[t.nodes[n].topicIndex].value == n
  }

  ghost predicate ZonesPointBack(t: Table) {
    forall n :: 0 <= n < |t.nodes| ==> t.nodes[n].zoneIndex < |t.zones| && n in t.zones[t.nodes[n].zoneIndex].value
  }

  function TopicForNode(t: Table, n: nat): (r: string)
    requires n < |t.nodes| && t.nodes[n].topicIndex < |t.topics|
  {
    t.topics[t.nodes[n].topicIndex].key
  }

  /** The key comes after every key already there. */
  ghost predicate Last<V>(s: seq<Keyed<V>>, key: string) {
    forall i :: 0 <= i < |s| ==> Less(s[i].key, key)
  }

  lemma LastIsLowerEnd<V>(s: seq<Keyed<V>>, key: string)
    requires Sorted(s)
    ensures Last(s, key) <==> Lower(s, key) == |s|
  {
    LowerIsLowerBound(s, key);
  }

  /** With the topic last, everybody keeps a position ... */
  lemma LastKeepsPointers(t: Table, g: Table, topic: string)
    requires TopicsPointBack(t) && |t.topics| == |t.nodes| && g.topics == t.topics + [Keyed(topic, |t.nodes|)]
    requires |g.nodes| == |t.nodes| + 1 && g.nodes[..|t.nodes|] == t.nodes
               && g.nodes[|t.nodes|].topicIndex == |t.topics|
    ensures TopicsPointBack(g)
  {
    forall m | 0 <= m < |g.nodes|
      ensures g.nodes[m].topicIndex < |g.topics| && g.topics[g.nodes[m].topicIndex].value == m
    {
      if m < |t.nodes| { assert g.nodes[m] == g.nodes[..|t.nodes|][m]; }
    }
  }

  /** ... and otherwise the new node's position is another's. */
  lemma NotLastBreaksPointers(t: Table, g: Table, topic: string)
    requires |t.topics| == |t.nodes| && Lower(t.topics, topic) < |t.topics|
    requires forall i :: 0 <= i < |t.topics| ==> t.topics[i].value < |t.nodes|
    requires g.topics == Inserted(t.topics, Lower(t.topics, topic), Keyed(topic, |t.nodes|))
    requires |g.nodes| == |t.nodes| + 1 && g.nodes[|t.nodes|].topicIndex == |t.topics|
    ensures !TopicsPointBack(g)
  {
    InsertedAt(t.topics, Lower(t.topics, topic), Keyed(topic, |t.nodes|), |t.topics|);
    assert g.topics[g.nodes[|t.nodes|].topicIndex].value < |t.nodes|;
  }

  /** Adding a node keeps the topic back pointers right exactly when its topic sorts after all others. */
  lemma TopicsPointBackIff(t: Table, topic: string, zone: string, cores: nat, ram: nat, disk: nat)
    requires Valid(t) && TopicsPointBack(t) && FindNodeByTopic(t, topic) == None
    ensures TopicsPointBack(AddOrUpdate(t, topic, zone, cores, ram, disk)) <==> Last(t.topics, topic)
  {
    AddedParts(t, topic, zone, cores, ram, disk);
    LastIsLowerEnd(t.topics, topic);
    var g := Added(t, topic, zone, cores, ram, disk);
    if Last(t.topics, topic) { LastKeepsPointers(t, g, topic); } else { NotLastBreaksPointers(t, g, topic); }
  }

  /** The id handed back is the new node's own exactly in the same case. */
  lemma ReturnedIdIff(t: Table, topic: string, zone: string, cores: nat, ram: nat, disk: nat)
    requires Valid(t) && FindNodeByTopic(t, topic) == None
    ensures var g := AddOrUpdate(t, topic, zone, cores, ram, disk);
            |g.topics| == |t.topics| + 1 && (g.topics[|t.topics|].value == |t.nodes| <==> Last(t.topics, topic))
  {
    var g := AddOrUpdate(t, topic, zone, cores, ram, disk);
    PositionMeans(t.zones, zone);
    LastIsLowerEnd(t.topics, topic);
    if Lower(t.topics, topic) < |t.topics| {
      assert g.topics[|t.topics|] == t.topics[|t.topics| - 1];
    }
  }

  /** Zone back pointers survive exactly when the zone is known or sorts after all others. */
  lemma ZonesPointBackIff(t: Table, topic: string, zone: string, cores: nat, ram: nat, disk: nat)
    requires Valid(t) && ZonesPointBack(t) && FindNodeByTopic(t, topic) == None
    ensures ZonesPointBack(AddOrUpdate(t, topic, zone, cores, ram, disk)) <==>
            FindNodesByZone(t, zone).Some? || Last(t.zones, zone)
  {
    var g := AddOrUpdate(t, topic, zone, cores, ram, disk);
    var n := |t.nodes|;
    PositionMeans(t.zones, zone);
    LastIsLowerEnd(t.zones, zone);
    if FindNodesByZone(t, zone).Some? || Last(t.zones, zone) {
      forall m | 0 <= m < |g.nodes|
        ensures g.nodes[m].zoneIndex < |g.zones| && m in g.zones[g.nodes[m].zoneIndex].value
      {
        if m < n { assert g.nodes[m] == t.nodes[m]; }
      }
    } else {
      assert g.nodes[n].zoneIndex == |t.zones|;
      assert g.zones[|t.zones|] == t.zones[|t.zones| - 1];
    }
  }

  // ---------------------------------------------------------------- back pointers over a table's whole life

  /** Where an entry of the vector, or the new one, is found after the insertion. */
  lemma InsertedAt<V>(s: seq<Keyed<V>>, p: nat, x: Keyed<V>, j: nat)
    requires p <= |s| && j <= |s|
    ensures Inserted(s, p, x)[j] == if j < p then s[j] else if j == p then x else s[j - 1]
  {
  }

  lemma UnknownAfterInsert<V>(s: seq<Keyed<V>>, x: Keyed<V>, key: string)
    requires Sorted(s) && Position(s, x.key) == None && key != x.key && Position(s, key) == None
    ensures Position(Inserted(s, Lower(s, x.key), x), key) == None
  {
    var r := Inserted(s, Lower(s, x.key), x);
    InsertKeepsSorted(s, x);
    PositionMeans(s, key);
    forall j | 0 <= j < |r| ensures r[j].key != key { InsertedAt(s, Lower(s, x.key), x, j); }
    PositionMeans(r, key);
  }

  lemma ValueAfterInsert<V>(s: seq<Keyed<V>>, x: Keyed<V>, key: string)
    requires Sorted(s) && Position(s, x.key) == None
    ensures ValueOf(Inserted(s, Lower(s, x.key), x), key) == if key == x.key then Some(x.value) else ValueOf(s, key)
  {
    var p := Lower(s, x.key);
    var r := Inserted(s, p, x);
    InsertKeepsSorted(s, x);
    if key == x.key {
      InsertedAt(s, p, x, p);
      PositionOf(r, p);
    } else if Position(s, key).Some? {
      PositionMeans(s, key);
      var i := Position(s, key).value;
      var j := if i < p then i else i + 1;
      InsertedAt(s, p, x, j);
      PositionOf(r, j);
    } else {
      UnknownAfterInsert(s, x, key);
    }
  }

  /**
   * `names` lists the topics by node id, which is their order of arrival: node n recorded position n, and the lookup of
   * its name finds it.
   */
  ghost predicate NamedBy(t: Table, names: seq<string>) {
    && Valid(t) && |names| == |t.nodes|
    && (forall n :: 0 <= n < |t.nodes| ==> t.nodes[n].topicIndex == n)
    && (forall n :: 0 <= n < |names| ==> FindNodeByTopic(t, names[n]) == Some(n))
    && (forall q :: 0 <= q < |t.topics| ==> t.topics[q].key == names[t.topics[q].value])
  }

  function Arrived(names: seq<string>, topic: string): seq<string> {
    if topic in names then names else names + [topic]
  }

  lemma KnownIffNamed(t: Table, names: seq<string>, topic: string)
    requires NamedBy(t, names)
    ensures FindNodeByTopic(t, topic).Some? <==> topic in names
  {
    PositionMeans(t.topics, topic);
    assert forall q :: 0 <= q < |t.topics| ==> t.topics[q].key in names;
    if topic in names {
      var n :| 0 <= n < |names| && names[n] == topic;
      assert FindNodeByTopic(t, names[n]) == Some(n);
    }
  }

  lemma NamedAfterReport(t: Table, names: seq<string>, topic: string, zone: string, cores: nat, ram: nat, disk: nat)
    requires NamedBy(t, names)
    ensures NamedBy(AddOrUpdate(t, topic, zone, cores, ram, disk), Arrived(names, topic))
  {
    AddOrUpdateIsValid(t, topic, zone, cores, ram, disk);
    KnownIffNamed(t, names, topic);
    if topic in names {
      NamedAfterUpdate(t, names, FindNodeByTopic(t, topic).value, cores, ram, disk);
    } else {
      AddedParts(t, topic, zone, cores, ram, disk);
      NamedAfterArrival(t, names, topic, Added(t, topic, zone, cores, ram, disk));
    }
  }

  lemma AddedParts(t: Table, topic: string, zone: string, cores: nat, ram: nat, disk: nat)
    requires Valid(t) && FindNodeByTopic(t, topic) == None
    ensures Position(t.topics, topic) == None
    ensures var g := Added(t, topic, zone, cores, ram, disk);
            && g.topics == Inserted(t.topics, Lower(t.topics, topic), Keyed(topic, |t.nodes|))
            && |g.nodes| == |t.nodes| + 1 && g.nodes[..|t.nodes|] == t.nodes
                && g.nodes[|t.nodes|].topicIndex == |t.topics|
  {
    PositionMeans(t.topics, topic);
    PositionMeans(t.zones, zone);
  }

  lemma NamedAfterUpdate(t: Table, names: seq<string>, n: nat, cores: nat, ram: nat, disk: nat)
    requires NamedBy(t, names) && n < |t.nodes| && Valid(Updated(t, n, cores, ram, disk))
    ensures NamedBy(Updated(t, n, cores, ram, disk), names)
  {
    var g := Updated(t, n, cores, ram, disk);
    forall k | 0 <= k < |names| ensures FindNodeByTopic(g, names[k]) == Some(k) {
      assert FindNodeByTopic(t, names[k]) == Some(k);
    }
  }

  lemma NamedAfterArrival(t: Table, names: seq<string>, topic: string, g: Table)
    requires NamedBy(t, names) && Position(t.topics, topic) == None && topic !in names && Valid(g)
    requires g.topics == Inserted(t.topics, Lower(t.topics, topic), Keyed(topic, |t.nodes|))
    requires |g.nodes| == |t.nodes| + 1 && g.nodes[..|t.nodes|] == t.nodes
               && g.nodes[|t.nodes|].topicIndex == |t.topics|
    ensures NamedBy(g, names + [topic])
  {
    PositionsAfterArrival(t.nodes, g.nodes);
    forall n | 0 <= n <= |names| ensures FindNodeByTopic(g, (names + [topic])[n]) == Some(n) {
      NameFoundAfterArrival(t, names, topic, g.topics, n);
    }
    NamesOfTopicsAfterArrival(t, names, topic, g.topics);
  }

  lemma PositionsAfterArrival(nodes: seq<NodeEntry>, all: seq<NodeEntry>)
    requires forall n :: 0 <= n < |nodes| ==> nodes[n].topicIndex == n
    requires |all| == |nodes| + 1 && all[..|nodes|] == nodes && all[|nodes|].topicIndex == |nodes|
    ensures forall n :: 0 <= n < |all| ==> all[n].topicIndex == n
  {
    forall n | 0 <= n < |all| ensures all[n].topicIndex == n {
      if n < |nodes| { assert all[n] == all[..|nodes|][n]; }
    }
  }

  lemma NameFoundAfterArrival(t: Table, names: seq<string>, topic: string, topics: seq<Keyed<nat>>, n: nat)
    requires NamedBy(t, names) && Position(t.topics, topic) == None && topic !in names && n <= |names|
    requires topics == Inserted(t.topics, Lower(t.topics, topic), Keyed(topic, |t.nodes|))
    ensures ValueOf(topics, (names + [topic])[n]) == Some(n)
  {
    var name := (names + [topic])[n];
    ValueAfterInsert(t.topics, Keyed(topic, |t.nodes|), name);
    if n < |names| { assert FindNodeByTopic(t, names[n]) == Some(n); }
  }

  lemma NamesOfTopicsAfterArrival(t: Table, names: seq<string>, topic: string, topics: seq<Keyed<nat>>)
    requires NamedBy(t, names)
    requires topics == Inserted(t.topics, Lower(t.topics, topic), Keyed(topic, |t.nodes|))
    ensures forall q :: 0 <= q < |topics| ==>
              topics[q].value <= |names| && topics[q].key == (names + [topic])[topics[q].value]
  {
    forall q | 0 <= q < |topics|
      ensures topics[q].value <= |names| && topics[q].key == (names + [topic])[topics[q].value]
    {
      InsertedAt(t.topics, Lower(t.topics, topic), Keyed(topic, |t.nodes|), q);
    }
  }

  ghost predicate Ascending(names: seq<string>) {
    forall i, j :: 0 <= i < j < |names| ==> Less(names[i], names[j])
  }

  /** With right back pointers the sorted topics are the names themselves. */
  lemma PointBackMeansAscending(t: Table, names: seq<string>)
    requires NamedBy(t, names) && TopicsPointBack(t)
    ensures Ascending(names)
  {
    forall i, j | 0 <= i < j < |names| ensures Less(names[i], names[j]) {
      assert t.topics[t.nodes[i].topicIndex].value == i && t.topics[t.nodes[j].topicIndex].value == j;
      assert t.topics[i].key == names[i] && t.topics[j].key == names[j];
    }
  }

  /** A name that continues an ascending series sorts after all topics there are. */
  lemma AscendingArrivalIsLast(t: Table, names: seq<string>, topic: string)
    requires NamedBy(t, names) && topic !in names && Ascending(names + [topic])
    ensures Last(t.topics, topic) && FindNodeByTopic(t, topic) == None
  {
    var all := names + [topic];
    KnownIffNamed(t, names, topic);
    forall q | 0 <= q < |t.topics| ensures Less(t.topics[q].key, topic) {
      assert t.topics[q].key == all[t.topics[q].value] && topic == all[|names|];
    }
  }

  /** A report keeps the back pointers right as long as the arrivals ascend. */
  lemma AscendingArrivalsPointBack(t: Table, names: seq<string>, topic: string, zone: string, cores: nat, ram: nat,
                                   disk: nat)
    requires NamedBy(t, names) && TopicsPointBack(t) && Ascending(Arrived(names, topic))
    ensures TopicsPointBack(AddOrUpdate(t, topic, zone, cores, ram, disk))
  {
    KnownIffNamed(t, names, topic);
    if topic !in names {
      AscendingArrivalIsLast(t, names, topic);
      TopicsPointBackIff(t, topic, zone, cores, ram, disk);
    }
  }
}
