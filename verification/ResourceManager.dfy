/** The pool of nodes, and the all-or-nothing allocation of a request with several VMs. */
module ResourceManager {
  import opened Sums
  import opened NodeResources
  import opened Strategies

  datatype Record = Record(node: nat, vm: Vm)

  function Reserve(n: Resources, vm: Vm): Resources {
    n.(memory := Wrap(n.memory - vm.memory), disk := Wrap(n.disk - vm.disk),
       cores := Wrap(n.cores - vm.cores), vms := Wrap(n.vms - 1))
  }

  function Unreserve(n: Resources, vm: Vm): Resources {
    n.(memory := Wrap(n.memory + vm.memory), disk := Wrap(n.disk + vm.disk),
       cores := Wrap(n.cores + vm.cores), vms := Wrap(n.vms + 1))
  }

  ghost predicate InPool(recs: seq<Record>, n: nat) {
    forall i :: 0 <= i < |recs| ==> recs[i].node < n
  }

  /** The pool after the listed reservations, in order. */
  ghost function AfterAll(nodes: seq<Node>, recs: seq<Record>): (r: seq<Node>)
    requires InPool(recs, |nodes|)
    ensures |r| == |nodes|
  {
    if recs == [] then nodes
    else
      var k := |recs| - 1;
      var r := AfterAll(nodes, recs[..k]);
      r[recs[k].node := r[recs[k].node].(available := Reserve(r[recs[k].node].available, recs[k].vm))]
  }

  /** The pool after the listed reservations are given back, in the same order. */
  ghost function UndoneAll(nodes: seq<Node>, recs: seq<Record>): (r: seq<Node>)
    requires InPool(recs, |nodes|)
    ensures |r| == |nodes|
  {
    if recs == [] then nodes
    else
      var k := |recs| - 1;
      var r := UndoneAll(nodes, recs[..k]);
      r[recs[k].node := r[recs[k].node].(available := Unreserve(r[recs[k].node].available, recs[k].vm))]
  }

  // ---------------------------------------------------------------- what a list of records asks of one node

  ghost function CoresOn(j: nat): Record -> nat { (r: Record) => if r.node == j then r.vm.cores else 0 }

  ghost function MemoryOn(j: nat): Record -> nat { (r: Record) => if r.node == j then r.vm.memory else 0 }

  ghost function DiskOn(j: nat): Record -> nat { (r: Record) => if r.node == j then r.vm.disk else 0 }

  ghost function VmsOn(j: nat): Record -> nat { (r: Record) => if r.node == j then 1 else 0 }

  function Neg(x: int): int { -x }

  /** Resources with each counter lowered, modulo 2^32. */
  function Lowered(a: Resources, memory: int, disk: int, cores: int, vms: int): Resources {
    Resources(Wrap(a.memory - memory), Wrap(a.disk - disk), Wrap(a.cores - cores), Wrap(a.vms - vms), a.users)
  }

  /** What the records leave of node j's resources; what giving them back makes of them. */
  ghost function Less(a: Resources, recs: seq<Record>, j: nat): Resources {
    Lowered(a, Sum(recs, MemoryOn(j)), Sum(recs, DiskOn(j)), Sum(recs, CoresOn(j)), Sum(recs, VmsOn(j)))
  }

  ghost function More(a: Resources, recs: seq<Record>, j: nat): Resources {
    Lowered(a, Neg(Sum(recs, MemoryOn(j))), Neg(Sum(recs, DiskOn(j))), Neg(Sum(recs, CoresOn(j))),
            Neg(Sum(recs, VmsOn(j))))
  }

  lemma WrapOnce(a: int, b: int)
    ensures Wrap(Wrap(a) + b) == Wrap(a + b)
  {
    var q, r := a / TWO32, a % TWO32;
    assert a == q * TWO32 + r;
    WrapShift(r + b, q);
  }

  lemma WrapShift(x: int, q: int)
    ensures Wrap(q * TWO32 + x) == Wrap(x)
  {
    var p, r := x / TWO32, x % TWO32;
    assert q * TWO32 + x == (q + p) * TWO32 + r;
  }

  lemma LowerTwice(a: Resources, m: int, d: int, c: int, v: int, m': int, d': int, c': int, v': int)
    ensures Lowered(Lowered(a, m, d, c, v), m', d', c', v') == Lowered(a, m + m', d + d', c + c', v + v')
  {
    WrapOnce(a.memory - m, 0 - m');
    WrapOnce(a.disk - d, 0 - d');
    WrapOnce(a.cores - c, 0 - c');
    WrapOnce(a.vms - v, 0 - v');
  }

  lemma ReserveIsLowered(n: Resources, vm: Vm)
    ensures Reserve(n, vm) == Lowered(n, vm.memory, vm.disk, vm.cores, 1)
    ensures Unreserve(n, vm) == Lowered(n, Neg(vm.memory), Neg(vm.disk), Neg(vm.cores), -1)
  {
  }

  lemma LessPush(a: Resources, front: seq<Record>, r: Record, j: nat)
    ensures Less(a, front + [r], j) == if r.node == j then Reserve(Less(a, front, j), r.vm) else Less(a, front, j)
  {
    SumPushAll(front, r, j);
    if r.node == j {
      ReserveIsLowered(Less(a, front, j), r.vm);
      LowerTwice(a, Sum(front, MemoryOn(j)), Sum(front, DiskOn(j)), Sum(front, CoresOn(j)), Sum(front, VmsOn(j)),
                 r.vm.memory, r.vm.disk, r.vm.cores, 1);
    }
  }

  lemma MorePush(a: Resources, front: seq<Record>, r: Record, j: nat)
    ensures More(a, front + [r], j) == if r.node == j then Unreserve(More(a, front, j), r.vm) else More(a, front, j)
  {
    SumPushAll(front, r, j);
    if r.node == j {
      ReserveIsLowered(More(a, front, j), r.vm);
      LowerTwice(a, Neg(Sum(front, MemoryOn(j))), Neg(Sum(front, DiskOn(j))),
                 Neg(Sum(front, CoresOn(j))), Neg(Sum(front, VmsOn(j))),
                 Neg(r.vm.memory), Neg(r.vm.disk), Neg(r.vm.cores), -1);
    }
  }

  /** Each node is lowered by exactly the sum of the templates placed on it. */
  lemma {:induction false} AfterAllIsLess(nodes: seq<Node>, recs: seq<Record>, j: nat)
    requires InPool(recs, |nodes|) && j < |nodes|
    ensures AfterAll(nodes, recs)[j] == nodes[j].(available := Less(nodes[j].available, recs, j))
  {
    if recs == [] {
      LowerByNothing(nodes[j].available);
    } else {
      var k := |recs| - 1;
      AfterAllIsLess(nodes, recs[..k], j);
      LessPush(nodes[j].available, recs[..k], recs[k], j);
      assert recs == recs[..k] + [recs[k]];
    }
  }

  lemma {:induction false} UndoneAllIsMore(nodes: seq<Node>, recs: seq<Record>, j: nat)
    requires InPool(recs, |nodes|) && j < |nodes|
    ensures UndoneAll(nodes, recs)[j] == nodes[j].(available := More(nodes[j].available, recs, j))
  {
    if recs == [] {
      LowerByNothing(nodes[j].available);
    } else {
      var k := |recs| - 1;
      UndoneAllIsMore(nodes, recs[..k], j);
      MorePush(nodes[j].available, recs[..k], recs[k], j);
      assert recs == recs[..k] + [recs[k]];
    }
  }

  lemma LowerByNothing(a: Resources)
    ensures Lowered(a, 0, 0, 0, 0) == a
  {
  }

  lemma SumPushAll(front: seq<Record>, r: Record, j: nat)
    ensures Sum(front + [r], MemoryOn(j)) == Sum(front, MemoryOn(j)) + MemoryOn(j)(r)
    ensures Sum(front + [r], DiskOn(j)) == Sum(front, DiskOn(j)) + DiskOn(j)(r)
    ensures Sum(front + [r], CoresOn(j)) == Sum(front, CoresOn(j)) + CoresOn(j)(r)
    ensures Sum(front + [r], VmsOn(j)) == Sum(front, VmsOn(j)) + VmsOn(j)(r)
  {
    SumPush(front, r, MemoryOn(j));
    SumPush(front, r, DiskOn(j));
    SumPush(front, r, CoresOn(j));
    SumPush(front, r, VmsOn(j));
  }

  lemma MoreUndoesLess(a: Resources, recs: seq<Record>, j: nat)
    ensures More(Less(a, recs, j), recs, j) == a
  {
    var m, d, c, v := Sum(recs, MemoryOn(j)), Sum(recs, DiskOn(j)), Sum(recs, CoresOn(j)), Sum(recs, VmsOn(j));
    LowerTwice(a, m, d, c, v, Neg(m), Neg(d), Neg(c), Neg(v));
    LowerByNothing(a);
  }

  /** Rolling back restores every node bit for bit, wrapped fields included. */
  lemma RollbackIsExact(nodes: seq<Node>, recs: seq<Record>)
    requires InPool(recs, |nodes|)
    ensures UndoneAll(AfterAll(nodes, recs), recs) == nodes
  {
    forall j | 0 <= j < |nodes| ensures UndoneAll(AfterAll(nodes, recs), recs)[j] == nodes[j] {
      AfterAllIsLess(nodes, recs, j);
      UndoneAllIsMore(AfterAll(nodes, recs), recs, j);
      MoreUndoesLess(nodes[j].available, recs, j);
    }
  }

  // ---------------------------------------------------------------- placements

  /** Record i answers VM i, chosen against what the first i placements left. */
  ghost predicate Placed(s: Strategy, nodes: seq<Node>, request: seq<Vm>, recs: seq<Record>) {
    && |recs| <= |request| && InPool(recs, |nodes|)
    && forall i :: 0 <= i < |recs| ==> PlacedAt(s, nodes, request, recs, i)
  }

  ghost predicate PlacedAt(s: Strategy, nodes: seq<Node>, request: seq<Vm>, recs: seq<Record>, i: nat)
    requires i < |recs| <= |request| && InPool(recs, |nodes|)
  {
    recs[i].vm == request[i] && Chooses(s, request[i], AfterAll(nodes, recs[..i]), recs[i].node)
  }

  /** Some VM of the request found no node after those before it were placed. */
  ghost predicate Blocked(s: Strategy, nodes: seq<Node>, request: seq<Vm>) {
    exists recs :: Placed(s, nodes, request, recs) && |recs| < |request|
                   && NoneAcceptable(s, request[|recs|], AfterAll(nodes, recs))
  }

  class NodePool {
    var nodes: seq<Node>

    constructor ()
      ensures nodes == []
    {
      nodes := [];
    }

    method AddNode(address: int, resources: Resources) returns (index: nat)
      modifies this
      ensures index == |old(nodes)|
      ensures nodes == old(nodes) + [Node(resources, address, 1)]
    {
      index := |nodes|;
      nodes := nodes + [Node(resources, address, 1)];
    }

    method AllocateResources(index: nat, vm: Vm)
      requires index < |nodes|
      modifies this
      ensures nodes == old(nodes)[index := old(nodes)[index].(available := Reserve(old(nodes)[index].available, vm))]
    {
      var r := nodes[index].available;
      r := r.(memory := Wrap(r.memory - vm.memory));
      r := r.(disk := Wrap(r.disk - vm.disk));
      r := r.(cores := Wrap(r.cores - vm.cores));
      r := r.(vms := Wrap(r.vms - 1));
      nodes := nodes[index := nodes[index].(available := r)];
    }

    method DeallocateResources(index: nat, vm: Vm)
      requires index < |nodes|
      modifies this
      ensures nodes == old(nodes)[index := old(nodes)[index].(available := Unreserve(old(nodes)[index].available, vm))]
    {
      var r := nodes[index].available;
      r := r.(memory := Wrap(r.memory + vm.memory));
      r := r.(disk := Wrap(r.disk + vm.disk));
      r := r.(cores := Wrap(r.cores + vm.cores));
      r := r.(vms := Wrap(r.vms + 1));
      nodes := nodes[index := nodes[index].(available := r)];
    }
  }

  class Manager {
    const pool: NodePool
    const strategy: Strategy

    constructor (pool: NodePool, strategy: Strategy)
      ensures this.pool == pool && this.strategy == strategy
    {
      this.pool, this.strategy := pool, strategy;
    }

    /** Either a placement for the whole request, or the pool exactly as it was. */
    method AllocateVms(request: seq<Vm>) returns (records: Option<seq<Record>>)
      requires strategy == BestFit ==> pool.nodes != []
      modifies pool
      ensures records.Some? ==>
                && |records.value| == |request| && Placed(strategy, old(pool.nodes), request, records.value)
                && pool.nodes == AfterAll(old(pool.nodes), records.value)
      ensures !records.Some? ==> pool.nodes == old(pool.nodes) && Blocked(strategy, old(pool.nodes), request)
    {
      ghost var nodes := pool.nodes;
      var recs: seq<Record> := [];
      var ok := true;
      var i := 0;
      while i < |request| && ok
        invariant |recs| <= |request| && (ok ==> i == |recs|)
        invariant Placed(strategy, nodes, request, recs) && pool.nodes == AfterAll(nodes, recs)
        invariant !ok ==> |recs| < |request| && NoneAcceptable(strategy, request[|recs|], pool.nodes)
        decreases |request| - i
      {
        var found, index := SelectNode(strategy, request[i], pool.nodes);
        if !found {
          ok := false;
        } else {
          pool.AllocateResources(index, request[i]);
          PlacedPush(strategy, nodes, request, recs, index);
          recs := recs + [Record(index, request[i])];
        }
        i := i + 1;
      }
      if !ok {
        assert Blocked(strategy, nodes, request);
        Rollback(recs);
        RollbackIsExact(nodes, recs);
        return None;
      }
      return Some(recs);
    }

    method Rollback(recs: seq<Record>)
      requires InPool(recs, |pool.nodes|)
      modifies pool
      ensures pool.nodes == UndoneAll(old(pool.nodes), recs)
    {
      ghost var nodes := pool.nodes;
      for i := 0 to |recs|
        invariant |pool.nodes| == |nodes| && pool.nodes == UndoneAll(nodes, recs[..i])
      {
        pool.DeallocateResources(recs[i].node, recs[i].vm);
        assert recs[..i + 1][..i] == recs[..i];
      }
      assert recs[..|recs|] == recs;
    }

    method ConfirmNodeDeallocation(node: nat, vm: Vm)
      requires node < |pool.nodes|
      modifies pool
      ensures var was := old(pool.nodes);
              pool.nodes == was[node := was[node].(available := Unreserve(was[node].available, vm))]
    {
      pool.DeallocateResources(node, vm);
    }
  }

  lemma PlacedPush(s: Strategy, nodes: seq<Node>, request: seq<Vm>, recs: seq<Record>, index: nat)
    requires Placed(s, nodes, request, recs) && |recs| < |request|
    requires Chooses(s, request[|recs|], AfterAll(nodes, recs), index)
    ensures Placed(s, nodes, request, recs + [Record(index, request[|recs|])])
    ensures var r := AfterAll(nodes, recs);
            AfterAll(nodes, recs + [Record(index, request[|recs|])])
            == r[index := r[index].(available := Reserve(r[index].available, request[|recs|]))]
  {
    var more := recs + [Record(index, request[|recs|])];
    assert more[..|recs|] == recs;
    forall i | 0 <= i < |more| ensures PlacedAt(s, nodes, request, more, i) {
      if i < |recs| {
        assert PlacedAt(s, nodes, request, recs, i);
        assert more[..i] == recs[..i];
      }
    }
  }

  // ---------------------------------------------------------------- no underflow

  /** Template sizes for which best fit judges cores correctly. */
  predicate Judgeable(s: Strategy, vm: Vm) { s == FirstFit || vm.cores <= TWO31 }

  lemma AcceptedHasCores(s: Strategy, vm: Vm, n: Resources)
    requires Acceptable(s, vm, n) && Judgeable(s, vm)
    ensures vm.cores <= n.cores && n.vms > 0
  {
  }

  /** A node without cores turns a template down exactly when the template asks for 1 to 2^31 of them. */
  lemma CorelessNodeAccepts(n: Resources, vm: Vm)
    requires n.HasUserAndVmSpace() && n.cores == 0 && vm.disk == n.disk && vm.memory == n.memory
    ensures Acceptable(BestFit, vm, n) <==> vm.cores == 0 || vm.cores > TWO31
  {
  }

  ghost predicate SafeToAccept(s: Strategy, vm: Vm, n: Resources) { Acceptable(s, vm, n) ==> vm.cores <= n.cores }

  /** The bound on templates is exact: best fit never overcommits the cores of any node if and only if it holds. */
  lemma NeverOvercommitsIff(s: Strategy, vm: Vm)
    ensures (forall n :: SafeToAccept(s, vm, n)) <==> Judgeable(s, vm)
  {
    if Judgeable(s, vm) {
      forall n ensures SafeToAccept(s, vm, n) {}
    } else {
      var n := Resources(vm.memory, vm.disk, 0, 1, 1);
      CorelessNodeAccepts(n, vm);
      assert !SafeToAccept(s, vm, n);
    }
  }

  lemma PlacedPrefix(s: Strategy, nodes: seq<Node>, request: seq<Vm>, recs: seq<Record>, n: nat)
    requires Placed(s, nodes, request, recs) && n <= |recs|
    ensures Placed(s, nodes, request, recs[..n])
  {
    forall i | 0 <= i < n ensures PlacedAt(s, nodes, request, recs[..n], i) {
      assert PlacedAt(s, nodes, request, recs, i);
      assert recs[..n][..i] == recs[..i];
    }
  }

  lemma LastHasCores(s: Strategy, nodes: seq<Node>, request: seq<Vm>, recs: seq<Record>)
    requires Placed(s, nodes, request, recs) && recs != [] && Judgeable(s, request[|recs| - 1])
    ensures var r := recs[|recs| - 1];
            var before := AfterAll(nodes, recs[..|recs| - 1])[r.node].available;
            r.vm.cores <= before.cores && before.vms > 0
  {
    var k := |recs| - 1;
    assert PlacedAt(s, nodes, request, recs, k);
    AcceptedHasCores(s, request[k], AfterAll(nodes, recs[..k])[recs[k].node].available);
  }

  lemma ReserveWithoutWrap(n: Resources, vm: Vm)
    requires vm.cores <= n.cores && n.vms > 0
    ensures Reserve(n, vm).cores == n.cores - vm.cores && Reserve(n, vm).vms == n.vms - 1
  {
  }

  /** The last record takes its cores and its slot without wrapping. */
  lemma LastTakesExactly(s: Strategy, nodes: seq<Node>, request: seq<Vm>, recs: seq<Record>, j: nat)
    requires Placed(s, nodes, request, recs) && recs != [] && j < |nodes| && Judgeable(s, request[|recs| - 1])
    ensures var k := |recs| - 1;
            var before, after := AfterAll(nodes, recs[..k])[j].available, AfterAll(nodes, recs)[j].available;
            after.cores == before.cores - CoresOn(j)(recs[k]) && after.vms == before.vms - VmsOn(j)(recs[k])
  {
    LastHasCores(s, nodes, request, recs);
    var k := |recs| - 1;
    var before := AfterAll(nodes, recs[..k]);
    if recs[k].node == j { ReserveWithoutWrap(before[j].available, recs[k].vm); }
  }

  /** Cores and VM slots of a placement are taken without wrapping. */
  lemma {:induction false} NoCoreUnderflow(s: Strategy, nodes: seq<Node>, request: seq<Vm>, recs: seq<Record>, j: nat)
    requires Placed(s, nodes, request, recs) && j < |nodes|
    requires forall i :: 0 <= i < |request| ==> Judgeable(s, request[i])
    ensures AfterAll(nodes, recs)[j].available.cores == nodes[j].available.cores - Sum(recs, CoresOn(j))
    ensures AfterAll(nodes, recs)[j].available.vms == nodes[j].available.vms - Sum(recs, VmsOn(j))
    decreases |recs|
  {
    if recs != [] {
      var k := |recs| - 1;
      PlacedPrefix(s, nodes, request, recs, k);
      NoCoreUnderflow(s, nodes, request, recs[..k], j);
      assert recs == recs[..k] + [recs[k]];
      SumPushAll(recs[..k], recs[k], j);
      LastTakesExactly(s, nodes, request, recs, j);
    }
  }

  // ---------------------------------------------------------------- best fit and the sizes

  predicate Moderate(vm: Vm) { vm.cores <= TWO31 && vm.disk <= TWO31 && vm.memory <= TWO31 }

  ghost predicate FitsIfAccepted(vm: Vm, n: Resources) { Acceptable(BestFit, vm, n) ==> Enough(vm, n) }

  /** Best fit accepts only nodes that have enough of everything if and only if no size of the template exceeds 2^31. */
  lemma AcceptsOnlyEnoughIff(vm: Vm)
    ensures (forall n :: FitsIfAccepted(vm, n)) <==> Moderate(vm)
  {
    if Moderate(vm) {
      forall n ensures FitsIfAccepted(vm, n) { if Acceptable(BestFit, vm, n) { ModerateFits(vm, n); } }
    } else {
      var n := Resources(if vm.memory > TWO31 then 0 else vm.memory, if vm.disk > TWO31 then 0 else vm.disk,
                         if vm.cores > TWO31 then 0 else vm.cores, 1, 1);
      SurplusIff(n.cores, vm.cores);
      SurplusIff(n.disk, vm.disk);
      SurplusIff(n.memory, vm.memory);
      assert !FitsIfAccepted(vm, n);
    }
  }

  lemma ModerateFits(vm: Vm, n: Resources)
    requires Moderate(vm) && Acceptable(BestFit, vm, n)
    ensures Enough(vm, n)
  {
    SurplusIff(n.cores, vm.cores);
    SurplusIff(n.disk, vm.disk);
    SurplusIff(n.memory, vm.memory);
  }

  lemma ReserveEnough(n: Resources, vm: Vm)
    requires Enough(vm, n)
    ensures Reserve(n, vm).memory == n.memory - vm.memory && Reserve(n, vm).disk == n.disk - vm.disk
  {
  }

  lemma LastTakesSizesExactly(nodes: seq<Node>, request: seq<Vm>, recs: seq<Record>, j: nat)
    requires Placed(BestFit, nodes, request, recs) && recs != [] && j < |nodes| && Moderate(request[|recs| - 1])
    ensures var k := |recs| - 1;
            var before, after := AfterAll(nodes, recs[..k])[j].available, AfterAll(nodes, recs)[j].available;
            && after.memory == before.memory - MemoryOn(j)(recs[k])
            && after.disk == before.disk - DiskOn(j)(recs[k])
  {
    var k := |recs| - 1;
    var before := AfterAll(nodes, recs[..k]);
    assert PlacedAt(BestFit, nodes, request, recs, k);
    assert recs[k].vm == request[k] && Chooses(BestFit, request[k], before, recs[k].node);
    ModerateFits(request[k], before[recs[k].node].available);
    if recs[k].node == j { ReserveEnough(before[j].available, recs[k].vm); }
  }

  /** Under best fit, memory and disk of a placement of moderate templates are taken without wrapping as well. */
  lemma {:induction false} NoSizeUnderflow(nodes: seq<Node>, request: seq<Vm>, recs: seq<Record>, j: nat)
    requires Placed(BestFit, nodes, request, recs) && j < |nodes|
    requires forall i :: 0 <= i < |request| ==> Moderate(request[i])
    ensures AfterAll(nodes, recs)[j].available.memory == nodes[j].available.memory - Sum(recs, MemoryOn(j))
    ensures AfterAll(nodes, recs)[j].available.disk == nodes[j].available.disk - Sum(recs, DiskOn(j))
    decreases |recs|
  {
    if recs != [] {
      var k := |recs| - 1;
      PlacedPrefix(BestFit, nodes, request, recs, k);
      NoSizeUnderflow(nodes, request, recs[..k], j);
      assert recs == recs[..k] + [recs[k]];
      SumPushAll(recs[..k], recs[k], j);
      LastTakesSizesExactly(nodes, request, recs, j);
    }
  }
}
