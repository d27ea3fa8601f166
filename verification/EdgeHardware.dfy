/** The single-level variant: an edge node that tests, takes and returns its own resources. */
module EdgeHardware {
  import opened Sums
  import opened NodeResources
  import opened ResourceManager
  import opened CoreTable
  import opened CoreUsage

  class EdgeHardwareManager {
    const hardware: HardwareManager
    var available: Resources

    constructor (total: Resources)
      ensures available == total && hardware.coresState == seq(total.cores, _ => CoreState(0, 0, true))
      ensures fresh(hardware)
    {
      hardware := new HardwareManager(total.cores);
      available := total;
    }

    /** `thrown` is the exception of the index allocation; nothing has been taken by then. */
    method TryAllocateResources(vm: Vm, now: Time) returns (ok: bool, coreIndex: Option<array<int>>, thrown: bool)
      modifies this, hardware
      ensures ok <==> Fits(vm, old(available)) && Indexable(vm)
      ensures thrown <==> Fits(vm, old(available)) && !Indexable(vm)
      ensures ok ==> && available == Reserve(old(available), vm)
                     && coreIndex.Some? && coreIndex.value[..] == AllocIndex(old(hardware.coresState), vm.cores)
                     && hardware.coresState == Take(old(hardware.coresState),
                                                    Chosen(old(hardware.coresState), vm.cores), Seconds(now))
      ensures !ok ==> !coreIndex.Some? && available == old(available) && hardware.coresState == old(hardware.coresState)
    {
      if !Fits(vm, available) {
        return false, None, false;
      }
      coreIndex := hardware.AllocateCores(Signed(vm.cores), now);
      if !coreIndex.Some? {
        return false, None, true;
      }
      available := available.(cores := Wrap(available.cores - vm.cores));
      available := available.(memory := Wrap(available.memory - vm.memory));
      available := available.(disk := Wrap(available.disk - vm.disk));
      available := available.(vms := Wrap(available.vms - 1));
      return true, coreIndex, false;
    }

    method DeallocateResources(vm: Vm, coreIndex: array<int>, now: Time)
      requires vm.cores <= coreIndex.Length && InTable(coreIndex[..vm.cores], hardware.coresState)
      modifies this, hardware
      ensures available == Unreserve(old(available), vm)
      ensures hardware.coresState == Release(old(hardware.coresState), old(coreIndex[..vm.cores]), Seconds(now))
    {
      available := available.(vms := Wrap(available.vms + 1));
      available := available.(memory := Wrap(available.memory + vm.memory));
      available := available.(disk := Wrap(available.disk + vm.disk));
      available := available.(cores := Wrap(available.cores + vm.cores));
      hardware.DeallocateCores(coreIndex, vm.cores, now);
    }
  }

  // ---------------------------------------------------------------- runs

  datatype Edge = Edge(total: Resources, available: Resources, hw: Hardware, running: seq<Vm>)

  datatype Event = TryAllocate(vm: Vm) | Deallocate(k: nat) | Wait(d: Time)

  ghost predicate Enabled(e: Edge, ev: Event) {
    match ev
    case TryAllocate(vm) => true
    case Deallocate(k) => k < |e.running| && |e.hw.live| == |e.running| && InTable(e.hw.live[k], e.hw.table)
    case Wait(d) => |e.hw.past| == |e.hw.table|
  }

  ghost function Next(e: Edge, ev: Event): Edge
    requires Enabled(e, ev)
  {
    match ev
    case TryAllocate(vm) =>
      if !Fits(vm, e.available) || !Indexable(vm) then e
      else e.(available := Reserve(e.available, vm), hw := Seize(e.hw, vm.cores), running := e.running + [vm])
    case Deallocate(k) =>
      e.(available := Unreserve(e.available, e.running[k]), hw := GiveBack(e.hw, k),
         running := e.running[..k] + e.running[k + 1..])
    case Wait(d) => e.(hw := Elapse(e.hw, d))
  }

  ghost predicate Matched(e: Edge) {
    |e.hw.live| == |e.running| && forall k :: 0 <= k < |e.running| ==> |e.hw.live[k]| == e.running[k].cores
  }

  ghost predicate Counted(e: Edge) {
    && |e.hw.table| == e.total.cores && e.available.cores == |FreeList(e.hw.table)|
    && e.available.vms + |e.running| == e.total.vms
  }

  /** `available.cores` counts the free cores; live VMs own disjoint cores; all holds of every core are booked. */
  ghost predicate Accounted(e: Edge) {
    Sound(e.hw) && Counted(e) && Matched(e)
  }

  lemma TryMatches(e: Edge, vm: Vm)
    requires Matched(e) && InTable(Chosen(e.hw.table, vm.cores), e.hw.table)
    ensures Matched(e.(hw := Seize(e.hw, vm.cores), running := e.running + [vm]))
  {
  }

  lemma TryCounts(e: Edge, vm: Vm, h: Hardware)
    requires Counted(e) && Fits(vm, e.available)
    requires |h.table| == |e.hw.table| && |FreeList(h.table)| == |FreeList(e.hw.table)| - vm.cores
    ensures Counted(e.(available := Reserve(e.available, vm), hw := h, running := e.running + [vm]))
  {
  }

  lemma DeallocateCounts(e: Edge, k: nat, h: Hardware)
    requires Counted(e) && k < |e.running|
    requires |h.table| == |e.hw.table| && |FreeList(h.table)| == |FreeList(e.hw.table)| + e.running[k].cores
    ensures Counted(e.(available := Unreserve(e.available, e.running[k]), hw := h,
                       running := e.running[..k] + e.running[k + 1..]))
  {
  }

  lemma TryKeeps(e: Edge, vm: Vm)
    requires Accounted(e) && Enabled(e, TryAllocate(vm))
    ensures Accounted(Next(e, TryAllocate(vm)))
    ensures Fits(vm, e.available) ==> vm.cores <= |FreeList(e.hw.table)|
  {
    if Fits(vm, e.available) && Indexable(vm) {
      SeizeIsSound(e.hw, vm.cores);
      TryMatches(e, vm);
      TryCounts(e, vm, Seize(e.hw, vm.cores));
    }
  }

  lemma DeallocateMatches(e: Edge, k: nat)
    requires Matched(e) && k < |e.running| && InTable(e.hw.live[k], e.hw.table)
    ensures Matched(e.(hw := GiveBack(e.hw, k), running := e.running[..k] + e.running[k + 1..]))
  {
    var g := e.(hw := GiveBack(e.hw, k), running := e.running[..k] + e.running[k + 1..]);
    forall i | 0 <= i < |g.running| ensures |g.hw.live[i]| == g.running[i].cores {
      assert g.running[i] == e.running[if i < k then i else i + 1];
    }
  }

  lemma DeallocateKeeps(e: Edge, k: nat)
    requires Accounted(e) && Enabled(e, Deallocate(k))
    ensures Accounted(Next(e, Deallocate(k)))
  {
    GiveBackIsSound(e.hw, k);
    DeallocateCounts(e, k, GiveBack(e.hw, k));
    DeallocateMatches(e, k);
  }

  lemma StepKeeps(e: Edge, ev: Event)
    requires Accounted(e) && Enabled(e, ev)
    ensures Accounted(Next(e, ev))
  {
    match ev
    case TryAllocate(vm) => TryKeeps(e, vm);
    case Deallocate(k) => DeallocateKeeps(e, k);
    case Wait(d) => ElapseIsSound(e.hw, d);
  }

  ghost predicate Possible(e: Edge, es: seq<Event>)
    decreases |es|
  {
    es == [] || (Enabled(e, es[0]) && Possible(Next(e, es[0]), es[1..]))
  }

  ghost function After(e: Edge, es: seq<Event>): Edge
    requires Possible(e, es)
    decreases |es|
  {
    if es == [] then e else After(Next(e, es[0]), es[1..])
  }

  lemma {:induction false} AlwaysAccounted(e: Edge, es: seq<Event>)
    requires Accounted(e) && Possible(e, es)
    ensures Accounted(After(e, es)) && After(e, es).total == e.total
    decreases |es|
  {
    if es != [] {
      StepKeeps(e, es[0]);
      AlwaysAccounted(Next(e, es[0]), es[1..]);
    }
  }

  /**
   * From a fresh node, in every run: free cores are counted exactly, owners are disjoint, and usage is the time held up
   * to a second per hold.
   */
  lemma EdgeBooksBalance(total: Resources, es: seq<Event>)
    requires Possible(Edge(total, total, Fresh(total.cores), []), es)
    ensures var g := After(Edge(total, total, Fresh(total.cores), []), es);
            && g.available.cores == |FreeList(g.hw.table)|
            && Disjoint(g.hw) && ProperIndexes(g.hw) && BusyIffOwned(g.hw)
            && |g.hw.past| == |g.hw.table|
            && forall i :: 0 <= i < |g.hw.table| ==> UsageIsClose(g.hw, i)
  {
    FreshIsSound(total.cores);
    AlwaysAccounted(Edge(total, total, Fresh(total.cores), []), es);
    var g := After(Edge(total, total, Fresh(total.cores), []), es);
    forall i | 0 <= i < |g.hw.table| ensures UsageIsClose(g.hw, i) { SoundUsageIsClose(g.hw, i); }
  }

  /** Taking and returning a VM leaves the resources as they were, even when memory or disk wrapped in between. */
  lemma DeallocateUndoesTry(a: Resources, vm: Vm)
    ensures Unreserve(Reserve(a, vm), vm) == a
  {
    LowerTwice(a, vm.memory, vm.disk, vm.cores, 1, Neg(vm.memory), Neg(vm.disk), Neg(vm.cores), -1);
    LowerByNothing(a);
  }

  /** Memory can wrap: it does exactly when the template asks for more than is left. */
  lemma MemoryWrapsIff(a: Resources, vm: Vm)
    requires Fits(vm, a)
    ensures Reserve(a, vm).memory != a.memory - vm.memory <==> vm.memory > a.memory
    ensures vm.memory > a.memory ==> vm.cores < a.cores || vm.disk < a.disk
  {
  }
}
