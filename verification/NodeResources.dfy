/** Resources of a node in 32-bit unsigned fields, and when a VM is judged to fit. */
module NodeResources {
  import opened Sums

  const TWO31 := 0x8000_0000
  const TWO32 := 0x1_0000_0000

  type uint32 = x: int | 0 <= x < TWO32

  function Wrap(x: int): uint32 { x % TWO32 }

  /** Conversion of an unsigned value to a signed 32-bit one. */
  function Signed(x: uint32): int { if x < TWO31 then x else x - TWO32 }

  datatype Vm = Vm(cores: uint32, disk: uint32, memory: uint32)

  /** The node reads the core count of a template as a signed number, and can only index a positive one. */
  predicate Indexable(vm: Vm) { 0 < Signed(vm.cores) }

  datatype Resources = Resources(memory: uint32, disk: uint32, cores: uint32, vms: uint32, users: uint32) {
    predicate HasUserAndVmSpace() { vms > 0 && users > 0 }
  }

  /** The fit test: a lexicographic comparison of (cores, disk, memory), and a free slot. */
  predicate Fits(vm: Vm, n: Resources) {
    && (vm.cores < n.cores
        || (vm.cores == n.cores && (vm.disk < n.disk || (vm.disk == n.disk && vm.memory <= n.memory))))
    && n.HasUserAndVmSpace()
  }

  /** What fitting should mean: enough of everything, and a slot. */
  predicate Enough(vm: Vm, n: Resources) {
    vm.cores <= n.cores && vm.disk <= n.disk && vm.memory <= n.memory && n.vms > 0 && n.users > 0
  }

  /** Everything that fits is accepted; what is wrongly accepted is exactly what one surplus hides. */
  lemma FitsOverapproximates(vm: Vm, n: Resources)
    ensures Enough(vm, n) ==> Fits(vm, n)
    ensures Fits(vm, n) ==> vm.cores <= n.cores && n.vms > 0 && n.users > 0
    ensures Fits(vm, n) && !Enough(vm, n) <==>
              && n.vms > 0 && n.users > 0
              && ((vm.cores < n.cores && (vm.disk > n.disk || vm.memory > n.memory))
                  || (vm.cores == n.cores && vm.disk < n.disk && vm.memory > n.memory))
  {
  }

  /** The sum of what would be left over; `None` stands for the largest double. */
  function LogicalDistance(n: Resources, vm: Vm): Option<int> {
    var d1 := Signed(Wrap(n.cores - vm.cores));
    var d2 := Signed(Wrap(n.disk - vm.disk));
    var d3 := Signed(Wrap(n.memory - vm.memory));
    if !n.HasUserAndVmSpace() || d1 < 0 || d2 < 0 || d3 < 0 then None else Some(Signed(Wrap(d1 + d2 + d3)))
  }

  /** A difference is judged right exactly when it fits a signed 32-bit integer. */
  predicate Judged(have: uint32, want: uint32) { -TWO31 <= have - want < TWO31 }

  lemma SignIsRight(have: uint32, want: uint32)
    ensures (Signed(Wrap(have - want)) >= 0 <==> want <= have) <==> Judged(have, want)
    ensures Judged(have, want) ==> Signed(Wrap(have - want)) == have - want
  {
  }

  predicate AllJudged(n: Resources, vm: Vm) {
    Judged(n.cores, vm.cores) && Judged(n.disk, vm.disk) && Judged(n.memory, vm.memory)
  }

  predicate NoOverflow(n: Resources, vm: Vm) {
    AllJudged(n, vm) && (Enough(vm, n) ==> (n.cores - vm.cores) + (n.disk - vm.disk) + (n.memory - vm.memory) < TWO31)
  }

  /** Within the range of int, the distance exists exactly for nodes with enough of everything, and is the leftover. */
  lemma DistanceMeans(n: Resources, vm: Vm)
    ensures AllJudged(n, vm) ==> (LogicalDistance(n, vm).Some? <==> Enough(vm, n))
    ensures NoOverflow(n, vm) && Enough(vm, n) ==>
              LogicalDistance(n, vm) == Some((n.cores - vm.cores) + (n.disk - vm.disk) + (n.memory - vm.memory))
  {
    SignIsRight(n.cores, vm.cores);
    SignIsRight(n.disk, vm.disk);
    SignIsRight(n.memory, vm.memory);
  }

  /** A difference that the signed comparison takes for a surplus. */
  predicate LooksLikeSurplus(have: uint32, want: uint32) { 0 <= have - want < TWO31 || have - want < -TWO31 }

  /** The test agrees with the three comparisons, except when a surplus is too large or every shortage is. */
  lemma AgreesIff(n: Resources, vm: Vm)
    ensures (LogicalDistance(n, vm).Some? <==> Enough(vm, n)) <==>
              n.vms == 0 || n.users == 0
              || (if Enough(vm, n)
                  then n.cores - vm.cores < TWO31 && n.disk - vm.disk < TWO31 && n.memory - vm.memory < TWO31
                  else !(LooksLikeSurplus(n.cores, vm.cores) && LooksLikeSurplus(n.disk, vm.disk)
                         && LooksLikeSurplus(n.memory, vm.memory)))
  {
    SurplusIff(n.cores, vm.cores);
    SurplusIff(n.disk, vm.disk);
    SurplusIff(n.memory, vm.memory);
  }

  lemma SurplusIff(have: uint32, want: uint32)
    ensures Signed(Wrap(have - want)) >= 0 <==> LooksLikeSurplus(have, want)
  {
  }

  /** With 2^31 MiB to spare, a node that has enough is turned down. */
  lemma LargeSurplusIsRefused(n: Resources, vm: Vm)
    requires Enough(vm, n) && n.memory - vm.memory >= TWO31
    ensures LogicalDistance(n, vm) == None
  {
  }
}
