/** Node selection: first fit scans, best fit keeps a heap of leftover resources. */
module Strategies {
  import opened Sums
  import opened NodeResources

  datatype Node = Node(available: Resources, address: int, state: int)

  datatype Strategy = FirstFit | BestFit

  datatype NodeDistance = NodeDistance(distance: Option<int>, index: nat)

  /** What a strategy sees in a node. */
  predicate Acceptable(s: Strategy, vm: Vm, n: Resources) {
    match s
    case FirstFit => Fits(vm, n)
    case BestFit => LogicalDistance(n, vm).Some?
  }

  /** What a strategy may answer. */
  ghost predicate Chooses(s: Strategy, vm: Vm, nodes: seq<Node>, i: nat) {
    && i < |nodes| && Acceptable(s, vm, nodes[i].available)
    && match s
       case FirstFit => forall j :: 0 <= j < i ==> !Fits(vm, nodes[j].available)
       case BestFit => (forall j :: 0 <= j < |nodes| ==> NoOverflow(nodes[j].available, vm)) ==>
                         forall j :: 0 <= j < |nodes| ==> Closer(vm, nodes[i].available, nodes[j].available)
  }

  /** a is at least as near as b, in exact arithmetic, among nodes with enough resources. */
  ghost predicate Closer(vm: Vm, a: Resources, b: Resources) {
    Enough(vm, b) ==> Enough(vm, a) && a.cores + a.disk + a.memory <= b.cores + b.disk + b.memory
  }

  ghost predicate NoneAcceptable(s: Strategy, vm: Vm, nodes: seq<Node>) {
    forall j :: 0 <= j < |nodes| ==> !Acceptable(s, vm, nodes[j].available)
  }

  method SelectNode(s: Strategy, vm: Vm, nodes: seq<Node>) returns (found: bool, index: nat)
    requires s == BestFit ==> nodes != []
    ensures found ==> Chooses(s, vm, nodes, index)
    ensures !found ==> NoneAcceptable(s, vm, nodes)
  {
    match s
    case FirstFit => found, index := SelectFirstFit(vm, nodes);
    case BestFit => found, index := SelectBestFit(vm, nodes);
  }

  method SelectFirstFit(vm: Vm, nodes: seq<Node>) returns (found: bool, index: nat)
    ensures found ==> index < |nodes| && Fits(vm, nodes[index].available)
                      && forall j :: 0 <= j < index ==> !Fits(vm, nodes[j].available)
    ensures !found ==> forall j :: 0 <= j < |nodes| ==> !Fits(vm, nodes[j].available)
  {
    for i := 0 to |nodes|
      invariant forall j :: 0 <= j < i ==> !Fits(vm, nodes[j].available)
    {
      if Fits(vm, nodes[i].available) {
        return true, i;
      }
    }
    return false, 0;
  }

  // ---------------------------------------------------------------- the heap

  /** a.distance <= b.distance, the missing distance being the largest. */
  predicate Leq(a: NodeDistance, b: NodeDistance) {
    !b.distance.Some? || (a.distance.Some? && a.distance.value <= b.distance.value)
  }

  /** Parent p is not above its children. */
  predicate Ordered(h: seq<NodeDistance>, p: nat) {
    && (2 * p + 1 < |h| ==> Leq(h[p], h[2 * p + 1]))
    && (2 * p + 2 < |h| ==> Leq(h[p], h[2 * p + 2]))
  }

  ghost predicate HeapFrom(h: seq<NodeDistance>, k: nat) {
    forall p :: k <= p < |h| ==> p < |h| && Ordered(h, p)
  }

  lemma {:induction false} RootIsLeast(h: seq<NodeDistance>, j: nat)
    requires HeapFrom(h, 0) && j < |h|
    ensures Leq(h[0], h[j])
  {
    if j > 0 {
      var p := (j - 1) / 2;
      RootIsLeast(h, p);
      assert Ordered(h, p);
    }
  }

  function Swapped(h: seq<NodeDistance>, i: nat, j: nat): seq<NodeDistance>
    requires i < |h| && j < |h|
  {
    h[i := h[j]][j := h[i]]
  }

  lemma SwapKeepsMultiset(h: seq<NodeDistance>, i: nat, j: nat)
    requires i < |h| && j < |h|
    ensures multiset(Swapped(h, i, j)) == multiset(h)
  {
  }

  /** The heap property from k on, but for node i, whose parent is not above i's children either. */
  ghost predicate HeapExcept(h: seq<NodeDistance>, k: nat, i: nat) {
    && (forall p :: k <= p < |h| && p != i ==> Ordered(h, p))
    && (forall p :: k <= p < |h| && (i == 2 * p + 1 || i == 2 * p + 2) ==>
          && (2 * i + 1 < |h| ==> Leq(h[p], h[2 * i + 1]))
          && (2 * i + 2 < |h| ==> Leq(h[p], h[2 * i + 2])))
  }

  /** Exchanging i with its lesser child c moves the exception to c. */
  lemma SiftStep(h: seq<NodeDistance>, k: nat, i: nat, c: nat)
    requires k <= i < |h| && HeapExcept(h, k, i) && c < |h| && (c == 2 * i + 1 || c == 2 * i + 2)
    requires !Leq(h[i], h[c])
    requires c == 2 * i + 2 ==> Leq(h[c], h[2 * i + 1])
    requires c == 2 * i + 1 && c + 1 < |h| ==> Leq(h[c], h[c + 1])
    ensures HeapExcept(Swapped(h, i, c), k, c)
  {
    var g := Swapped(h, i, c);
    assert Ordered(h, c);
    forall p | k <= p < |g| && p != c ensures Ordered(g, p) {
      if p != i { assert Ordered(h, p); }
    }
  }

  method LesserChild(h: seq<NodeDistance>, i: nat) returns (c: nat)
    requires 2 * i + 1 < |h|
    ensures c < |h| && (c == 2 * i + 1 || c == 2 * i + 2)
    ensures Leq(h[c], h[2 * i + 1]) && (2 * i + 2 < |h| ==> Leq(h[c], h[2 * i + 2]))
  {
    c := 2 * i + 1;
    if c + 1 < |h| && !Leq(h[c], h[c + 1]) {
      c := c + 1;
    }
  }

  /** Sifts the element at k down until the heap property holds from k on. */
  method SiftDown(h0: seq<NodeDistance>, k: nat) returns (h: seq<NodeDistance>)
    requires k < |h0| && HeapFrom(h0, k + 1)
    ensures HeapFrom(h, k) && |h| == |h0| && multiset(h) == multiset(h0)
  {
    h := h0;
    var i := k;
    while 2 * i + 1 < |h|
      invariant k <= i < |h| == |h0| && multiset(h) == multiset(h0)
      invariant HeapExcept(h, k, i)
      decreases |h| - i
    {
      var c := LesserChild(h, i);
      if Leq(h[i], h[c]) {
        return;
      }
      SwapKeepsMultiset(h, i, c);
      SiftStep(h, k, i, c);
      h := Swapped(h, i, c);
      i := c;
    }
  }

  /** std::make_heap with the reversed comparison: the least distance ends in front. */
  method MakeHeap(d: seq<NodeDistance>) returns (h: seq<NodeDistance>)
    ensures HeapFrom(h, 0) && |h| == |d| && multiset(h) == multiset(d)
  {
    h := d;
    var k := |d| / 2;
    while k > 0
      invariant 0 <= k <= |d| == |h| && multiset(h) == multiset(d)
      invariant HeapFrom(h, k)
    {
      k := k - 1;
      h := SiftDown(h, k);
    }
  }

  // ---------------------------------------------------------------- best fit

  function Entry(vm: Vm, nodes: seq<Node>, i: nat): NodeDistance
    requires i < |nodes|
  {
    NodeDistance(LogicalDistance(nodes[i].available, vm), i)
  }

  function Entries(vm: Vm, nodes: seq<Node>, n: nat): (r: seq<NodeDistance>)
    requires n <= |nodes|
    ensures |r| == n && forall i :: 0 <= i < n ==> r[i] == Entry(vm, nodes, i)
  {
    seq(n, i requires 0 <= i < n => Entry(vm, nodes, i))
  }

  /** The front of the heap is the least of the first n distances. */
  lemma FrontIsLeast(h: seq<NodeDistance>, vm: Vm, nodes: seq<Node>, n: nat)
    requires 0 < n <= |nodes| && HeapFrom(h, 0) && multiset(h) == multiset(Entries(vm, nodes, n))
    ensures |h| == n && h[0].index < n && h[0] == Entry(vm, nodes, h[0].index)
    ensures forall i :: 0 <= i < n ==> Leq(h[0], Entry(vm, nodes, i))
  {
    var es := Entries(vm, nodes, n);
    assert |multiset(h)| == |h| && |multiset(es)| == n;
    assert h[0] in multiset(h);
    assert h[0] in es;
    forall i | 0 <= i < n ensures Leq(h[0], Entry(vm, nodes, i)) {
      assert es[i] in multiset(es);
      assert es[i] in h;
      var j :| 0 <= j < |h| && h[j] == es[i];
      RootIsLeast(h, j);
    }
  }

  /** The least wrapped distance is the least exact leftover when nothing overflows; a zero cannot be beaten. */
  lemma LeastIsClosest(vm: Vm, nodes: seq<Node>, i: nat, n: nat)
    requires i < n <= |nodes| && LogicalDistance(nodes[i].available, vm).Some?
    requires forall j :: 0 <= j < n ==> Leq(Entry(vm, nodes, i), Entry(vm, nodes, j))
    requires n == |nodes| || LogicalDistance(nodes[i].available, vm) == Some(0)
    ensures Chooses(BestFit, vm, nodes, i)
  {
    if forall j :: 0 <= j < |nodes| ==> NoOverflow(nodes[j].available, vm) {
      forall j | 0 <= j < |nodes| ensures Closer(vm, nodes[i].available, nodes[j].available) {
        assert NoOverflow(nodes[i].available, vm);
        DistanceMeans(nodes[i].available, vm);
        DistanceMeans(nodes[j].available, vm);
        if j < n { assert Leq(Entry(vm, nodes, i), Entry(vm, nodes, j)); }
      }
    }
  }

  method SelectBestFit(vm: Vm, nodes: seq<Node>) returns (found: bool, index: nat)
    requires nodes != []
    ensures found ==> Chooses(BestFit, vm, nodes, index)
    ensures found <==> exists j :: 0 <= j < |nodes| && LogicalDistance(nodes[j].available, vm).Some?
  {
    var distances: seq<NodeDistance> := [];
    for i := 0 to |nodes|
      invariant multiset(distances) == multiset(Entries(vm, nodes, i))
      invariant i > 0 ==> |distances| == i && HeapFrom(distances, 0)
    {
      ghost var before := Entries(vm, nodes, i);
      assert Entries(vm, nodes, i + 1) == before + [Entry(vm, nodes, i)];
      distances := distances + [Entry(vm, nodes, i)];
      distances := MakeHeap(distances);
      FrontIsLeast(distances, vm, nodes, i + 1);
      if distances[0].distance == Some(0) {
        LeastIsClosest(vm, nodes, distances[0].index, i + 1);
        return true, distances[0].index;
      }
    }
    FrontIsLeast(distances, vm, nodes, |nodes|);
    var best := distances[0];
    if best.distance == None {
      forall j | 0 <= j < |nodes| ensures !LogicalDistance(nodes[j].available, vm).Some? {
        assert Leq(best, Entry(vm, nodes, j));
      }
      return false, 0;
    }
    LeastIsClosest(vm, nodes, best.index, |nodes|);
    return true, best.index;
  }
}
