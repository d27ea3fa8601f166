/** Two-level accounting: the manager reserves on paper, the node takes physical cores on arrival and never checks. */
module TwoLevel {
  import opened Sums
  import opened NodeResources
  import opened Strategies
  import opened ResourceManager
  import opened CoreTable
  import opened CoreUsage

  /** The node's side of the manager: physical cores at once, no test. */
  class DcHardwareManager {
    const hardware: HardwareManager
    const manager: Manager
    const nodeId: nat

    constructor (hardware: HardwareManager, manager: Manager, nodeId: nat)
      ensures this.hardware == hardware && this.manager == manager && this.nodeId == nodeId
    {
      this.hardware, this.manager, this.nodeId := hardware, manager, nodeId;
    }

    /** `thrown` is the exception of the index allocation; there is no other way to fail. */
    method TryAllocateResources(vm: Vm, now: Time) returns (ok: bool, coreIndex: Option<array<int>>, thrown: bool)
      modifies hardware
      ensures ok <==> Indexable(vm)
      ensures thrown <==> !Indexable(vm)
      ensures ok ==> && coreIndex.Some? && coreIndex.value[..] == AllocIndex(old(hardware.coresState), vm.cores)
                     && hardware.coresState == Take(old(hardware.coresState),
                                                    Chosen(old(hardware.coresState), vm.cores), Seconds(now))
      ensures thrown ==> !coreIndex.Some? && hardware.coresState == old(hardware.coresState)
    {
      coreIndex := hardware.AllocateCores(Signed(vm.cores), now);
      return coreIndex.Some?, coreIndex, !coreIndex.Some?;
    }

    method DeallocateResources(vm: Vm, coreIndex: array<int>, now: Time)
      requires vm.cores <= coreIndex.Length && InTable(coreIndex[..vm.cores], hardware.coresState)
      requires nodeId < |manager.pool.nodes|
      modifies hardware, manager.pool
      ensures hardware.coresState == Release(old(hardware.coresState), old(coreIndex[..vm.cores]), Seconds(now))
      ensures var was := old(manager.pool.nodes);
              manager.pool.nodes == was[nodeId := was[nodeId].(available := Unreserve(was[nodeId].available, vm))]
    {
      hardware.DeallocateCores(coreIndex, vm.cores, now);
      manager.ConfirmNodeDeallocation(nodeId, vm);
    }
  }

  // ---------------------------------------------------------------- the data centre as a state machine

  /** A node: its size, its cores, the VMs reserved but still on their way, and those running. */
  datatype NodeState = NodeState(total: Resources, hw: Hardware, coming: seq<Vm>, running: seq<Vm>)

  datatype Cluster = Cluster(strategy: Strategy, pool: seq<Node>, nodes: seq<NodeState>)

  datatype Event =
    | Grant(request: seq<Vm>, recs: seq<Record>)  // a request was placed
    | Deliver(j: nat, k: nat)                     // the k-th VM on its way to node j arrives
    | Retire(j: nat, k: nat)                      // the k-th VM running on node j is released
    | Wait(j: nat, d: Time)                         // time passes on node j

  /** The VMs a placement puts on node j. */
  ghost function VmsFor(recs: seq<Record>, j: nat): seq<Vm> {
    if recs == [] then []
    else
      var k := |recs| - 1;
      VmsFor(recs[..k], j) + if recs[k].node == j then [recs[k].vm] else []
  }

  ghost predicate Enabled(c: Cluster, e: Event) {
    && |c.pool| == |c.nodes|
    && match e
       case Grant(request, recs) =>
         && |recs| == |request| && Placed(c.strategy, c.pool, request, recs)
         && forall i :: 0 <= i < |request| ==> Judgeable(c.strategy, request[i])
       case Deliver(j, k) => j < |c.nodes| && k < |c.nodes[j].coming|
       case Retire(j, k) => j < |c.nodes| && k < |c.nodes[j].running| && |c.nodes[j].hw.live| == |c.nodes[j].running|
                            && InTable(c.nodes[j].hw.live[k], c.nodes[j].hw.table)
       case Wait(j, d) => j < |c.nodes| && |c.nodes[j].hw.past| == |c.nodes[j].hw.table|
  }

  ghost function Next(c: Cluster, e: Event): Cluster
    requires Enabled(c, e)
  {
    match e
    case Grant(request, recs) =>
      c.(pool := AfterAll(c.pool, recs),
         nodes := seq(|c.nodes|, j requires 0 <= j < |c.nodes| => Promised(c.nodes[j], VmsFor(recs, j))))
    case Deliver(j, k) =>
      var n := c.nodes[j];
      if !Indexable(n.coming[k]) then c  // the index cannot be built: an exception, and nothing is taken
      else c.(nodes := c.nodes[j := Delivered(n, k)])
    case Retire(j, k) =>
      var n := c.nodes[j];
      c.(nodes := c.nodes[j := Retired(n, k)],
         pool := c.pool[j := c.pool[j].(available := Unreserve(c.pool[j].available, n.running[k]))])
    case Wait(j, d) => c.(nodes := c.nodes[j := c.nodes[j].(hw := Elapse(c.nodes[j].hw, d))])
  }

  // ---------------------------------------------------------------- the invariant

  ghost function Cores(): Vm -> nat { (vm: Vm) => vm.cores }

  ghost function Memory(): Vm -> nat { (vm: Vm) => vm.memory }

  ghost function Disk(): Vm -> nat { (vm: Vm) => vm.disk }

  /** Live index arrays belong to the running VMs, one each and of the right size. */
  ghost predicate Matched(n: NodeState) {
    |n.hw.live| == |n.running| && forall k :: 0 <= k < |n.running| ==> |n.hw.live[k]| == n.running[k].cores
  }

  /** Free physical cores are the manager's free cores and those still promised to VMs on their way. */
  ghost predicate CoresAgree(a: Resources, n: NodeState) {
    |n.hw.table| == n.total.cores && |FreeList(n.hw.table)| == a.cores + Sum(n.coming, Cores())
  }

  ghost predicate SlotsAgree(a: Resources, n: NodeState) {
    a.vms + |n.coming| + |n.running| == n.total.vms && a.users == n.total.users
  }

  /** Memory and disk agree modulo 2^32: the lexicographic fit test lets them wrap. */
  ghost predicate SizesAgree(a: Resources, n: NodeState) {
    && a.memory == Wrap(Left(n.total.memory, n.coming, n.running, Memory()))
    && a.disk == Wrap(Left(n.total.disk, n.coming, n.running, Disk()))
  }

  /** What the VMs leave of a total, if that is enough for them. */
  ghost function Left(total: int, coming: seq<Vm>, running: seq<Vm>, f: Vm -> nat): int {
    total - Sum(coming, f) - Sum(running, f)
  }

  ghost predicate NodeOk(a: Resources, n: NodeState) {
    Sound(n.hw) && Matched(n) && CoresAgree(a, n) && SlotsAgree(a, n) && SizesAgree(a, n)
  }

  ghost predicate Accounted(c: Cluster) {
    |c.pool| == |c.nodes| && forall j :: 0 <= j < |c.nodes| ==> NodeOk(c.pool[j].available, c.nodes[j])
  }

  // ---------------------------------------------------------------- steps

  lemma {:induction false} VmsForSums(recs: seq<Record>, j: nat)
    ensures Sum(VmsFor(recs, j), Cores()) == Sum(recs, CoresOn(j))
    ensures Sum(VmsFor(recs, j), Memory()) == Sum(recs, MemoryOn(j))
    ensures Sum(VmsFor(recs, j), Disk()) == Sum(recs, DiskOn(j))
    ensures |VmsFor(recs, j)| == Sum(recs, VmsOn(j))
  {
    if recs != [] {
      var k := |recs| - 1;
      VmsForSums(recs[..k], j);
      assert recs == recs[..k] + [recs[k]];
      SumPushAll(recs[..k], recs[k], j);
      var last := if recs[k].node == j then [recs[k].vm] else [];
      SumConcat(VmsFor(recs[..k], j), last, Cores());
      SumConcat(VmsFor(recs[..k], j), last, Memory());
      SumConcat(VmsFor(recs[..k], j), last, Disk());
    }
  }

  /** A node with more VMs promised to it. */
  ghost function Promised(n: NodeState, vms: seq<Vm>): NodeState { n.(coming := n.coming + vms) }

  lemma PromiseKeepsSizes(a: Resources, b: Resources, n: NodeState, vms: seq<Vm>)
    requires SizesAgree(a, n) && Granted(a, b, vms)
    ensures SizesAgree(b, Promised(n, vms))
  {
    SumConcat(n.coming, vms, Memory());
    SumConcat(n.coming, vms, Disk());
    WrapsOn(a.memory, Left(n.total.memory, n.coming, n.running, Memory()), Neg(Sum(vms, Memory())));
    WrapsOn(a.disk, Left(n.total.disk, n.coming, n.running, Disk()), Neg(Sum(vms, Disk())));
  }

  lemma WrapsOn(a: int, x: int, d: int)
    requires a == Wrap(x)
    ensures Wrap(a + d) == Wrap(x + d)
  {
    WrapOnce(x, d);
  }

  lemma GrantedResources(c: Cluster, request: seq<Vm>, recs: seq<Record>, j: nat)
    requires Enabled(c, Grant(request, recs)) && j < |c.nodes|
    ensures Granted(c.pool[j].available, AfterAll(c.pool, recs)[j].available, VmsFor(recs, j))
  {
    AfterAllIsLess(c.pool, recs, j);
    NoCoreUnderflow(c.strategy, c.pool, request, recs, j);
    VmsForSums(recs, j);
  }

  lemma PromiseKeepsCounts(a: Resources, b: Resources, n: NodeState, vms: seq<Vm>)
    requires CoresAgree(a, n) && SlotsAgree(a, n) && Granted(a, b, vms)
    ensures CoresAgree(b, Promised(n, vms)) && SlotsAgree(b, Promised(n, vms))
  {
    SumConcat(n.coming, vms, Cores());
  }

  /** The manager's view after it promised VMs to a node. */
  ghost predicate Granted(a: Resources, b: Resources, vms: seq<Vm>) {
    && b.memory == Wrap(a.memory + Neg(Sum(vms, Memory()))) && b.disk == Wrap(a.disk + Neg(Sum(vms, Disk())))
    && b.cores == a.cores - Sum(vms, Cores()) && b.vms == a.vms - |vms| && b.users == a.users
  }

  lemma PromiseKeepsNode(a: Resources, b: Resources, n: NodeState, vms: seq<Vm>)
    requires NodeOk(a, n) && Granted(a, b, vms)
    ensures NodeOk(b, Promised(n, vms))
  {
    PromiseKeepsCounts(a, b, n, vms);
    PromiseKeepsSizes(a, b, n, vms);
  }

  lemma GrantKeepsNode(c: Cluster, request: seq<Vm>, recs: seq<Record>, j: nat)
    requires Enabled(c, Grant(request, recs)) && j < |c.nodes| && NodeOk(c.pool[j].available, c.nodes[j])
    ensures NodeOk(AfterAll(c.pool, recs)[j].available, Promised(c.nodes[j], VmsFor(recs, j)))
  {
    GrantedResources(c, request, recs, j);
    PromiseKeepsNode(c.pool[j].available, AfterAll(c.pool, recs)[j].available, c.nodes[j], VmsFor(recs, j));
  }

  ghost function Delivered(n: NodeState, k: nat): NodeState
    requires k < |n.coming|
  {
    n.(hw := Seize(n.hw, n.coming[k].cores), coming := Without(n.coming, k), running := n.running + [n.coming[k]])
  }

  lemma DeliverKeepsSizes(a: Resources, n: NodeState, k: nat)
    requires SizesAgree(a, n) && SlotsAgree(a, n) && k < |n.coming|
    ensures SizesAgree(a, Delivered(n, k)) && SlotsAgree(a, Delivered(n, k))
  {
    SumRemove(n.coming, k, Memory());
    SumRemove(n.coming, k, Disk());
    SumPush(n.running, n.coming[k], Memory());
    SumPush(n.running, n.coming[k], Disk());
  }

  lemma DeliverKeepsNode(a: Resources, n: NodeState, k: nat)
    requires NodeOk(a, n) && k < |n.coming|
    ensures n.coming[k].cores <= |FreeList(n.hw.table)|
    ensures NodeOk(a, Delivered(n, k))
  {
    SumRemove(n.coming, k, Cores());
    SeizeIsSound(n.hw, n.coming[k].cores);
    DeliverKeepsSizes(a, n, k);
  }

  ghost function Retired(n: NodeState, k: nat): NodeState
    requires k < |n.running| && k < |n.hw.live| && InTable(n.hw.live[k], n.hw.table)
  {
    n.(hw := GiveBack(n.hw, k), running := Without(n.running, k))
  }

  lemma RetireKeepsSizes(a: Resources, n: NodeState, k: nat, g: NodeState)
    requires SizesAgree(a, n) && k < |n.running|
    requires g.running == Without(n.running, k) && g.coming == n.coming && g.total == n.total
    ensures SizesAgree(Unreserve(a, n.running[k]), g)
  {
    var vm := n.running[k];
    SumRemove(n.running, k, Memory());
    SumRemove(n.running, k, Disk());
    WrapsOn(a.memory, Left(n.total.memory, n.coming, n.running, Memory()), vm.memory);
    WrapsOn(a.disk, Left(n.total.disk, n.coming, n.running, Disk()), vm.disk);
  }

  lemma RetireMatches(n: NodeState, k: nat)
    requires Matched(n) && k < |n.running| && InTable(n.hw.live[k], n.hw.table)
    ensures Matched(Retired(n, k))
  {
    var g := Retired(n, k);
    forall i | 0 <= i < |g.running| ensures |g.hw.live[i]| == g.running[i].cores {
      assert g.running[i] == n.running[if i < k then i else i + 1];
    }
  }

  lemma RetireKeepsNode(a: Resources, n: NodeState, k: nat)
    requires NodeOk(a, n) && k < |n.running|
    ensures NodeOk(Unreserve(a, n.running[k]), Retired(n, k))
  {
    var b, g := Unreserve(a, n.running[k]), Retired(n, k);
    GiveBackIsSound(n.hw, k);
    RetireMatches(n, k);
    RetireKeepsSizes(a, n, k, g);
    RetireKeepsCounts(a, n, k, g);
  }

  lemma UnreserveWithoutWrap(a: Resources, vm: Vm)
    requires a.cores + vm.cores < TWO32 && a.vms + 1 < TWO32
    ensures Unreserve(a, vm).cores == a.cores + vm.cores && Unreserve(a, vm).vms == a.vms + 1
  {
  }

  lemma RetireKeepsCounts(a: Resources, n: NodeState, k: nat, g: NodeState)
    requires CoresAgree(a, n) && SlotsAgree(a, n) && k < |n.running|
    requires g.running == Without(n.running, k) && g.coming == n.coming && g.total == n.total
    requires |g.hw.table| == |n.hw.table| && |FreeList(g.hw.table)| == |FreeList(n.hw.table)| + n.running[k].cores
    ensures CoresAgree(Unreserve(a, n.running[k]), g) && SlotsAgree(Unreserve(a, n.running[k]), g)
  {
    assert |FreeList(g.hw.table)| <= |g.hw.table| == n.total.cores;
    UnreserveWithoutWrap(a, n.running[k]);
  }

  /** Node j and the manager's view of it after a step. */
  ghost function NodeAfter(c: Cluster, e: Event, j: nat): (Resources, NodeState)
    requires Enabled(c, e) && j < |c.nodes|
  {
    var a, n := c.pool[j].available, c.nodes[j];
    match e
    case Grant(request, recs) => (AfterAll(c.pool, recs)[j].available, Promised(n, VmsFor(recs, j)))
    case Deliver(i, k) => (a, if i == j && Indexable(n.coming[k]) then Delivered(n, k) else n)
    case Retire(i, k) => if i == j then (Unreserve(a, n.running[k]), Retired(n, k)) else (a, n)
    case Wait(i, d) => (a, if i == j then n.(hw := Elapse(n.hw, d)) else n)
  }

  lemma NextIsNodeAfter(c: Cluster, e: Event, j: nat)
    requires Enabled(c, e) && j < |c.nodes|
    ensures j < |Next(c, e).pool| == |Next(c, e).nodes|
    ensures (Next(c, e).pool[j].available, Next(c, e).nodes[j]) == NodeAfter(c, e, j)
  {
  }

  lemma StepKeepsNode(c: Cluster, e: Event, j: nat)
    requires Accounted(c) && Enabled(c, e) && j < |c.nodes|
    ensures NodeOk(NodeAfter(c, e, j).0, NodeAfter(c, e, j).1)
  {
    var a, n := c.pool[j].available, c.nodes[j];
    assert NodeOk(a, n);
    match e
    case Grant(request, recs) => GrantKeepsNode(c, request, recs, j);
    case Deliver(i, k) => if i == j && Indexable(n.coming[k]) { DeliverKeepsNode(a, n, k); }
    case Retire(i, k) => if i == j { RetireKeepsNode(a, n, k); }
    case Wait(i, d) => if i == j { ElapseKeepsNode(a, n, d); }
  }

  lemma StepKeeps(c: Cluster, e: Event)
    requires Accounted(c) && Enabled(c, e)
    ensures Accounted(Next(c, e))
  {
    var g := Next(c, e);
    forall j | 0 <= j < |g.nodes| ensures NodeOk(g.pool[j].available, g.nodes[j]) {
      NextIsNodeAfter(c, e, j);
      StepKeepsNode(c, e, j);
    }
  }

  lemma SameCoresKeepNode(a: Resources, n: NodeState, h: Hardware)
    requires NodeOk(a, n) && Sound(h) && h.table == n.hw.table && h.live == n.hw.live
    ensures NodeOk(a, n.(hw := h))
  {
  }

  lemma ElapseKeepsNode(a: Resources, n: NodeState, d: Time)
    requires NodeOk(a, n)
    ensures NodeOk(a, n.(hw := Elapse(n.hw, d)))
  {
    ElapseIsSound(n.hw, d);
    SameCoresKeepNode(a, n, Elapse(n.hw, d));
  }

  // ---------------------------------------------------------------- runs

  /** A data centre at rest: every node offers exactly what it has. */
  ghost predicate Initial(c: Cluster) {
    && |c.pool| == |c.nodes|
    && forall j :: 0 <= j < |c.nodes| ==>
         c.nodes[j] == NodeState(c.pool[j].available, Fresh(c.pool[j].available.cores), [], [])
  }

  ghost predicate Possible(c: Cluster, es: seq<Event>)
    decreases |es|
  {
    es == [] || (Enabled(c, es[0]) && Possible(Next(c, es[0]), es[1..]))
  }

  ghost function After(c: Cluster, es: seq<Event>): Cluster
    requires Possible(c, es)
    decreases |es|
  {
    if es == [] then c else After(Next(c, es[0]), es[1..])
  }

  lemma InitialIsAccounted(c: Cluster)
    requires Initial(c)
    ensures Accounted(c)
  {
    forall j | 0 <= j < |c.nodes| ensures NodeOk(c.pool[j].available, c.nodes[j]) {
      FreshIsSound(c.pool[j].available.cores);
    }
  }

  lemma {:induction false} AlwaysAccounted(c: Cluster, es: seq<Event>)
    requires Accounted(c) && Possible(c, es)
    ensures Accounted(After(c, es))
    decreases |es|
  {
    if es != [] {
      StepKeeps(c, es[0]);
      AlwaysAccounted(Next(c, es[0]), es[1..]);
    }
  }

  /**
   * In every run, the unchecked allocation on a node is safe: whenever a reserved VM arrives, it gets as many
   * different free cores as its template names, and the books of both levels agree.
   */
  lemma DeliveriesAreFilled(c: Cluster, es: seq<Event>, j: nat, k: nat)
    requires Initial(c) && Possible(c, es)
    requires j < |After(c, es).nodes| && k < |After(c, es).nodes[j].coming|
    ensures var n := After(c, es).nodes[j];
            && Filled(AllocIndex(n.hw.table, n.coming[k].cores), n.hw.table)
            && j < |After(c, es).pool| && NodeOk(After(c, es).pool[j].available, n)
  {
    InitialIsAccounted(c);
    AlwaysAccounted(c, es);
    var g := After(c, es);
    assert NodeOk(g.pool[j].available, g.nodes[j]);
    DeliverKeepsNode(g.pool[j].available, g.nodes[j], k);
    FilledIffEnoughFree(g.nodes[j].hw.table, g.nodes[j].coming[k].cores);
  }

  /** In every run, each core's recorded usage is the time it was held, up to less than a second for each hold. */
  lemma UsageIsAlwaysClose(c: Cluster, es: seq<Event>, j: nat, i: nat)
    requires Initial(c) && Possible(c, es) && j < |After(c, es).nodes| && i < |After(c, es).nodes[j].hw.table|
    ensures i < |After(c, es).nodes[j].hw.past| && UsageIsClose(After(c, es).nodes[j].hw, i)
  {
    InitialIsAccounted(c);
    AlwaysAccounted(c, es);
    var g := After(c, es);
    assert NodeOk(g.pool[j].available, g.nodes[j]);
    SoundUsageIsClose(g.nodes[j].hw, i);
  }

  /** What is left on node j for the VMs on their way once a VM without a reservation took its cores. */
  ghost predicate ReservedStillFit(n: NodeState, vm: Vm) {
    && InTable(Chosen(n.hw.table, vm.cores), n.hw.table)
    && Sum(n.coming, Cores()) <= |FreeList(Seize(n.hw, vm.cores).table)|
  }

  /**
   * In every run, a VM delivered without a reservation meets enough free cores if and only if it asks for no more
   * than the manager's free cores and the reserved ones together; and it leaves the reserved VMs theirs if and
   * only if it asks for no more than the manager's free cores.
   */
  lemma UnreservedDelivery(c: Cluster, es: seq<Event>, j: nat, vm: Vm)
    requires Initial(c) && Possible(c, es) && j < |After(c, es).nodes|
    ensures var g := After(c, es);
            && j < |g.pool|
            && var free, reserved := g.pool[j].available.cores, Sum(g.nodes[j].coming, Cores());
               && (Filled(AllocIndex(g.nodes[j].hw.table, vm.cores), g.nodes[j].hw.table) <==>
                   vm.cores <= free + reserved)
               && (vm.cores <= free + reserved ==> (ReservedStillFit(g.nodes[j], vm) <==> vm.cores <= free))
  {
    InitialIsAccounted(c);
    AlwaysAccounted(c, es);
    var g := After(c, es);
    assert NodeOk(g.pool[j].available, g.nodes[j]);
    FilledIffEnoughFree(g.nodes[j].hw.table, vm.cores);
    if vm.cores <= |FreeList(g.nodes[j].hw.table)| { SeizeIsSound(g.nodes[j].hw, vm.cores); }
  }

  /** Once everything reserved has been delivered and released, the manager's view is the node's size again. */
  lemma EmptyNodeIsWhole(a: Resources, n: NodeState)
    requires NodeOk(a, n) && n.coming == [] && n.running == []
    ensures a == n.total
  {
    assert forall i :: 0 <= i < |n.hw.table| ==> !Owned(n.hw, i);
    AllFree(n.hw.table);
  }

  // ---------------------------------------------------------------- best fit never wraps

  /** Memory and disk are what the VMs leave of the node, with no wrap at all. */
  ghost predicate SizesExact(a: Resources, n: NodeState) {
    && a.memory == Left(n.total.memory, n.coming, n.running, Memory())
    && a.disk == Left(n.total.disk, n.coming, n.running, Disk())
  }

  ghost predicate AllExact(c: Cluster) {
    |c.pool| == |c.nodes| && forall j :: 0 <= j < |c.nodes| ==> SizesExact(c.pool[j].available, c.nodes[j])
  }

  ghost predicate ModerateGrant(e: Event) {
    e.Grant? ==> forall i :: 0 <= i < |e.request| ==> Moderate(e.request[i])
  }

  lemma GrantIsExact(c: Cluster, request: seq<Vm>, recs: seq<Record>, j: nat)
    requires Enabled(c, Grant(request, recs)) && c.strategy == BestFit && ModerateGrant(Grant(request, recs))
    requires j < |c.nodes| && SizesExact(c.pool[j].available, c.nodes[j])
    ensures SizesExact(AfterAll(c.pool, recs)[j].available, Promised(c.nodes[j], VmsFor(recs, j)))
  {
    NoSizeUnderflow(c.pool, request, recs, j);
    VmsForSums(recs, j);
    SumConcat(c.nodes[j].coming, VmsFor(recs, j), Memory());
    SumConcat(c.nodes[j].coming, VmsFor(recs, j), Disk());
  }

  lemma DeliverIsExact(a: Resources, n: NodeState, k: nat)
    requires SizesExact(a, n) && k < |n.coming|
    ensures SizesExact(a, Delivered(n, k))
  {
    SumRemove(n.coming, k, Memory());
    SumRemove(n.coming, k, Disk());
    SumPush(n.running, n.coming[k], Memory());
    SumPush(n.running, n.coming[k], Disk());
  }

  lemma UnreserveSizes(a: Resources, vm: Vm)
    requires a.memory + vm.memory < TWO32 && a.disk + vm.disk < TWO32
    ensures Unreserve(a, vm).memory == a.memory + vm.memory && Unreserve(a, vm).disk == a.disk + vm.disk
  {
  }

  lemma RetireIsExact(a: Resources, n: NodeState, k: nat)
    requires SizesExact(a, n) && k < |n.running| && k < |n.hw.live| && InTable(n.hw.live[k], n.hw.table)
    ensures SizesExact(Unreserve(a, n.running[k]), Retired(n, k))
  {
    SumRemove(n.running, k, Memory());
    SumRemove(n.running, k, Disk());
    UnreserveSizes(a, n.running[k]);
  }

  lemma StepIsExact(c: Cluster, e: Event)
    requires AllExact(c) && Enabled(c, e) && c.strategy == BestFit && ModerateGrant(e)
    ensures AllExact(Next(c, e)) && Next(c, e).strategy == BestFit
  {
    var g := Next(c, e);
    forall j | 0 <= j < |g.nodes| ensures SizesExact(g.pool[j].available, g.nodes[j]) {
      NextIsNodeAfter(c, e, j);
      var a, n := c.pool[j].available, c.nodes[j];
      assert SizesExact(a, n);
      match e
      case Grant(request, recs) => GrantIsExact(c, request, recs, j);
      case Deliver(i, k) => if i == j && Indexable(n.coming[k]) { DeliverIsExact(a, n, k); }
      case Retire(i, k) => if i == j { RetireIsExact(a, n, k); }
      case Wait(i, d) =>
    }
  }

  lemma {:induction false} AlwaysExact(c: Cluster, es: seq<Event>)
    requires AllExact(c) && Possible(c, es) && c.strategy == BestFit
    requires forall i :: 0 <= i < |es| ==> ModerateGrant(es[i])
    ensures AllExact(After(c, es))
    decreases |es|
  {
    if es != [] {
      StepIsExact(c, es[0]);
      AlwaysExact(Next(c, es[0]), es[1..]);
    }
  }

  /** Under best fit and with moderate templates, no field ever wraps: memory and disk are exact in every run. */
  lemma BestFitNeverWraps(c: Cluster, es: seq<Event>)
    requires Initial(c) && Possible(c, es) && c.strategy == BestFit
    requires forall i :: 0 <= i < |es| ==> ModerateGrant(es[i])
    ensures Accounted(After(c, es)) && AllExact(After(c, es))
  {
    InitialIsAccounted(c);
    AlwaysAccounted(c, es);
    AlwaysExact(c, es);
  }
}
