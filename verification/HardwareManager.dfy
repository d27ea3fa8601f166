/** The physical cores of a node: which are free, who holds which, and for how long each was used. */
module CoreTable {
  import opened Sums

  const UINT32_MAX := 0xFFFF_FFFF

  /** Simulation time, and what the source reads of it: whole seconds. */
  type Time = t: real | 0.0 <= t

  function Seconds(t: Time): nat { t.Floor }

  /** A core's books, in whole seconds. */
  datatype CoreState = CoreState(usageTime: int, startTime: int, free: bool)

  function Seized(c: CoreState, now: int): CoreState { c.(free := false, startTime := now) }

  function Freed(c: CoreState, now: int): CoreState {
    c.(free := true, usageTime := c.usageTime + (now - c.startTime))
  }

  /** Positions of the free cores, ascending. */
  function FreeList(t: seq<CoreState>): (r: seq<int>)
    ensures forall k :: 0 <= k < |r| ==> 0 <= r[k] < |t| && t[r[k]].free
    ensures forall i, j :: 0 <= i < j < |r| ==> r[i] < r[j]
    ensures |r| <= |t|
  {
    if t == [] then []
    else
      var k := |t| - 1;
      FreeList(t[..k]) + if t[k].free then [k] else []
  }

  ghost predicate InTable(idx: seq<int>, t: seq<CoreState>) {
    forall k :: 0 <= k < |idx| ==> 0 <= idx[k] < |t|
  }

  /** The table after seizing the listed cores, one by one. */
  ghost function Take(t: seq<CoreState>, idx: seq<int>, now: int): (r: seq<CoreState>)
    requires InTable(idx, t)
    ensures |r| == |t|
  {
    if idx == [] then t
    else
      var k := |idx| - 1;
      Take(t, idx[..k], now)[idx[k] := Seized(t[idx[k]], now)]
  }

  /** The table after freeing the listed cores, one by one. */
  ghost function Release(t: seq<CoreState>, idx: seq<int>, now: int): (r: seq<CoreState>)
    requires InTable(idx, t)
    ensures |r| == |t|
  {
    if idx == [] then t
    else
      var k := |idx| - 1;
      var r := Release(t, idx[..k], now);
      r[idx[k] := Freed(r[idx[k]], now)]
  }

  lemma {:induction false} FreeListComplete(t: seq<CoreState>, i: nat)
    requires i < |t| && t[i].free
    ensures i in FreeList(t)
  {
    if i < |t| - 1 { FreeListComplete(t[..|t| - 1], i); }
  }

  lemma {:induction false} TakeAt(t: seq<CoreState>, idx: seq<int>, now: int, i: nat)
    requires InTable(idx, t) && i < |t|
    ensures Take(t, idx, now)[i] == if i in idx then Seized(t[i], now) else t[i]
  {
    if idx != [] {
      var k := |idx| - 1;
      assert idx == idx[..k] + [idx[k]];
      TakeAt(t, idx[..k], now, i);
    }
  }

  lemma {:induction false} ReleaseAt(t: seq<CoreState>, idx: seq<int>, now: int, i: nat)
    requires InTable(idx, t) && Distinct(idx) && i < |t|
    ensures Release(t, idx, now)[i] == if i in idx then Freed(t[i], now) else t[i]
  {
    if idx != [] {
      var k := |idx| - 1;
      assert idx == idx[..k] + [idx[k]];
      ReleaseAt(t, idx[..k], now, i);
    }
  }

  /** The cores an allocation of n takes: the first n free ones, or as many as there are. */
  function Chosen(t: seq<CoreState>, n: nat): (r: seq<int>)
    ensures |r| <= n && |r| <= |FreeList(t)| && r == FreeList(t)[..|r|]
    ensures forall k :: 0 <= k < |r| ==> 0 <= r[k] < |t| && t[r[k]].free
  {
    FreeList(t)[..Min(n, |FreeList(t)|)]
  }

  /** What the fresh index array holds before anything is written: only slot 0 has the marker. */
  function Filler(n: nat): seq<int> {
    seq(n, i => if i == 0 then UINT32_MAX else 0)
  }

  /** The index array handed back. */
  function AllocIndex(t: seq<CoreState>, n: nat): (r: seq<int>)
    ensures |r| == n
  {
    Chosen(t, n) + Filler(n)[|Chosen(t, n)|..]
  }

  /** Slot by slot: the free cores in order; beyond them the marker in slot 0 and zero elsewhere. */
  lemma IndexSlots(t: seq<CoreState>, n: nat)
    ensures forall k :: 0 <= k < n ==>
      AllocIndex(t, n)[k] == if k < |FreeList(t)| then FreeList(t)[k] else if k == 0 then 0xFFFF_FFFF else 0
  {
  }

  /** The scan looks at core i: it is taken exactly when it was free to begin with. */
  lemma ScanStep(t: seq<CoreState>, i: nat, now: int)
    requires i < |t| && InTable(FreeList(t[..i]), t)
    ensures FreeList(t[..i + 1]) == FreeList(t[..i]) + if t[i].free then [i] else []
    ensures Take(t, FreeList(t[..i]), now)[i] == t[i]
    ensures InTable(FreeList(t[..i + 1]), t)
    ensures Take(t, FreeList(t[..i + 1]), now)
         == if t[i].free then Take(t, FreeList(t[..i]), now)[i := Seized(t[i], now)] else Take(t, FreeList(t[..i]), now)
  {
    assert t[..i + 1][..i] == t[..i];
    TakeAt(t, FreeList(t[..i]), now, i);
    var idx := FreeList(t[..i + 1]);
    if t[i].free {
      assert idx[..|idx| - 1] == FreeList(t[..i]);
    } else {
      assert idx == FreeList(t[..i]);
    }
  }

  /** The state of the scan before it looks at core i, with j slots filled. */
  ghost predicate Scanned(t: seq<CoreState>, i: nat, now: int, table: seq<CoreState>, slots: seq<int>, j: nat) {
    && i <= |t| && j <= |slots| && InTable(FreeList(t[..i]), t)
    && j == |FreeList(t[..i])|
    && table == Take(t, FreeList(t[..i]), now)
    && slots == FreeList(t[..i]) + Filler(|slots|)[j..]
  }

  lemma ScanBegins(t: seq<CoreState>, now: int, slots: seq<int>)
    requires slots == Filler(|slots|)
    ensures Scanned(t, 0, now, t, slots, 0)
  {
  }

  lemma ScanEnds(t: seq<CoreState>, i: nat, now: int, table: seq<CoreState>, slots: seq<int>, j: nat)
    requires Scanned(t, i, now, table, slots, j) && (i == |t| || j == |slots|)
    ensures slots == AllocIndex(t, |slots|) && table == Take(t, Chosen(t, |slots|), now)
  {
    ChosenByPrefix(t, i, |slots|);
  }

  lemma ScanLooks(t: seq<CoreState>, i: nat, now: int, table: seq<CoreState>, slots: seq<int>, j: nat)
    requires i < |t| && j < |slots| && Scanned(t, i, now, table, slots, j)
    ensures table[i].free ==> Scanned(t, i + 1, now, table[i := Seized(table[i], now)], slots[j := i], j + 1)
    ensures !table[i].free ==> Scanned(t, i + 1, now, table, slots, j)
  {
    ScanStep(t, i, now);
    FillSlot(FreeList(t[..i]), Filler(|slots|), i);
  }

  lemma FillSlot(taken: seq<int>, filler: seq<int>, i: int)
    requires |taken| < |filler|
    ensures (taken + filler[|taken|..])[|taken| := i] == (taken + [i]) + filler[|taken| + 1..]
  {
  }

  class HardwareManager {
    var coresState: seq<CoreState>

    constructor (totalCores: nat)
      ensures coresState == seq(totalCores, _ => CoreState(0, 0, true))
    {
      coresState := seq(totalCores, _ => CoreState(0, 0, true));
    }

    /** `None` is the exception of an array allocation without room for its initialiser. */
    method AllocateCores(cores: int, now: Time) returns (coreIndex: Option<array<int>>)
      modifies this
      ensures cores <= 0 ==> coreIndex == None && coresState == old(coresState)
      ensures cores > 0 ==> coreIndex.Some? && fresh(coreIndex.value)
                            && coreIndex.value[..] == AllocIndex(old(coresState), cores)
                            && coresState == Take(old(coresState), Chosen(old(coresState), cores), Seconds(now))
      ensures forall k :: 0 <= k < cores ==>
                coreIndex.value[k] == if k < |FreeList(old(coresState))| then FreeList(old(coresState))[k]
                                      else if k == 0 then 0xFFFF_FFFF else 0
    {
      if cores <= 0 { return None; }
      IndexSlots(coresState, cores);
      var index := new int[cores](i => if i == 0 then UINT32_MAX else 0);
      TakeFreeCores(index, Seconds(now));
      return Some(index);
    }

    /** The scan: free cores go to the next slots of the index until it is full or the table ends. */
    method TakeFreeCores(index: array<int>, second: nat)
      requires index[..] == Filler(index.Length)
      modifies this, index
      ensures index[..] == AllocIndex(old(coresState), index.Length)
      ensures coresState == Take(old(coresState), Chosen(old(coresState), index.Length), second)
    {
      ghost var t := coresState;
      var i, j := 0, 0;
      ScanBegins(t, second, index[..]);
      while j < index.Length && i < |coresState|
        invariant 0 <= i && 0 <= j && |coresState| == |t|
        invariant Scanned(t, i, second, coresState, index[..], j)
        decreases |t| - i
      {
        j := LookAtCore(index, i, j, second, t);
        i := i + 1;
      }
      ScanEnds(t, i, second, coresState, index[..], j);
    }

    method LookAtCore(index: array<int>, i: nat, j: nat, second: nat, ghost t: seq<CoreState>) returns (next: nat)
      requires i < |coresState| == |t| && j < index.Length && Scanned(t, i, second, coresState, index[..], j)
      modifies this, index
      ensures |coresState| == |t| && Scanned(t, i + 1, second, coresState, index[..], next)
    {
      ScanLooks(t, i, second, coresState, index[..], j);
      if !coresState[i].free {
        return j;
      }
      TakeSlot(index, j, i);
      SeizeCore(i, second);
      return j + 1;
    }

    method SeizeCore(i: nat, second: nat)
      requires i < |coresState|
      modifies this
      ensures coresState == old(coresState)[i := Seized(old(coresState)[i], second)]
    {
      coresState := coresState[i := coresState[i].(free := false)];
      coresState := coresState[i := coresState[i].(startTime := second)];
    }

    static method TakeSlot(index: array<int>, j: nat, i: int)
      requires j < index.Length
      modifies index
      ensures index[..] == old(index[..])[j := i]
    {
      index[j] := i;
    }

    method DeallocateCores(coreIndex: array<int>, size: nat, now: Time)
      requires size <= coreIndex.Length && InTable(coreIndex[..size], coresState)
      modifies this
      ensures coresState == Release(old(coresState), coreIndex[..size], Seconds(now))
    {
      ghost var t := coresState;
      for i := 0 to size
        invariant InTable(coreIndex[..i], t)
        invariant coresState == Release(t, coreIndex[..i], Seconds(now))
      {
        var index := coreIndex[i];
        assert index in coreIndex[..size];
        assert coreIndex[..i + 1][..i] == coreIndex[..i];
        coresState := coresState[index := coresState[index].(free := true)];
        var used := Seconds(now) - coresState[index].startTime;
        coresState := coresState[index := coresState[index].(usageTime := coresState[index].usageTime + used)];
      }
    }

    /** End of the simulation: the interval still open on a busy core is added. */
    method Finish(now: Time)
      modifies this
      ensures |coresState| == |old(coresState)|
      ensures forall i :: 0 <= i < |coresState| ==>
                coresState[i] == old(coresState)[i].(usageTime := Used(old(coresState)[i], Seconds(now)))
    {
      ghost var t := coresState;
      for i := 0 to |coresState|
        invariant |coresState| == |t|
        invariant forall k :: 0 <= k < i ==> coresState[k] == t[k].(usageTime := Used(t[k], Seconds(now)))
        invariant forall k :: i <= k < |t| ==> coresState[k] == t[k]
      {
        if !coresState[i].free {
          var used := Seconds(now) - coresState[i].startTime;
          coresState := coresState[i := coresState[i].(usageTime := coresState[i].usageTime + used)];
        }
      }
    }
  }

  /** Usage of a core up to now, its open interval included. */
  function Used(c: CoreState, now: int): int {
    if c.free then c.usageTime else c.usageTime + (now - c.startTime)
  }

  lemma {:induction false} FreeListPrefix(t: seq<CoreState>, i: nat)
    requires i <= |t|
    ensures |FreeList(t[..i])| <= |FreeList(t)|
    ensures FreeList(t)[..|FreeList(t[..i])|] == FreeList(t[..i])
  {
    if i < |t| {
      var k := |t| - 1;
      FreeListPrefix(t[..k], i);
      assert t[..k][..i] == t[..i];
    } else {
      assert t[..i] == t;
    }
  }

  /** A scan that stopped at i, at the end of the table or with n cores in hand, has found the chosen ones. */
  lemma ChosenByPrefix(t: seq<CoreState>, i: nat, n: nat)
    requires i <= |t| && |FreeList(t[..i])| <= n
    requires i == |t| || |FreeList(t[..i])| == n
    ensures Chosen(t, n) == FreeList(t[..i])
  {
    FreeListPrefix(t, i);
    if i == |t| { assert t[..i] == t; }
  }

  // ---------------------------------------------------------------- what allocation means

  /** The caller gets n different cores that were free. */
  ghost predicate Filled(idx: seq<int>, t: seq<CoreState>) {
    Distinct(idx) && InTable(idx, t) && forall k :: 0 <= k < |idx| ==> t[idx[k]].free
  }

  /** The returned index is a proper one exactly when enough cores are free; otherwise filler leaks into it. */
  lemma FilledIffEnoughFree(t: seq<CoreState>, n: nat)
    ensures Filled(AllocIndex(t, n), t) <==> n <= |FreeList(t)|
    ensures n <= |FreeList(t)| ==> AllocIndex(t, n) == Chosen(t, n)
  {
    var free := FreeList(t);
    if n <= |free| {
      assert Filler(n)[n..] == [];
      assert AllocIndex(t, n) == free[..n];
    } else if Filled(AllocIndex(t, n), t) {
      var idx := AllocIndex(t, n);
      var a := set i | i in idx;
      var b := set i | i in free;
      DistinctSize(idx);
      DistinctSize(free);
      forall i | i in idx ensures i in b {
        var k :| 0 <= k < |idx| && idx[k] == i;
        FreeListComplete(t, i);
      }
      SubsetSize(a, b);
      assert false;
    }
  }

  lemma SubsetSize(a: set<int>, b: set<int>)
    requires a <= b
    ensures |a| <= |b|
  {
    assert b == a + (b - a);
    assert |b| == |a| + |b - a|;
  }

  lemma {:induction false} DistinctSize(idx: seq<int>)
    requires Distinct(idx)
    ensures |set i | i in idx| == |idx|
  {
    if idx != [] {
      var k := |idx| - 1;
      DistinctSize(idx[..k]);
      assert (set i | i in idx) == (set i | i in idx[..k]) + {idx[k]};
    }
  }

  /** Freeing an allocation restores every core's flag and charges its cores the difference in whole seconds. */
  lemma DeallocateUndoesAllocate(t: seq<CoreState>, n: nat, from: Time, to: Time, i: nat)
    requires n <= |FreeList(t)| && i < |t|
    ensures var r := Release(Take(t, Chosen(t, n), Seconds(from)), AllocIndex(t, n), Seconds(to));
            && r[i].free == t[i].free
            && r[i].usageTime == t[i].usageTime + if i in Chosen(t, n) then Seconds(to) - Seconds(from) else 0
  {
    var taken := Take(t, Chosen(t, n), Seconds(from));
    FilledIffEnoughFree(t, n);
    TakeAt(t, Chosen(t, n), Seconds(from), i);
    ReleaseAt(taken, AllocIndex(t, n), Seconds(to), i);
  }

  // ---------------------------------------------------------------- free cores, counted

  ghost function IsFree(): CoreState -> nat { (c: CoreState) => if c.free then 1 else 0 }

  lemma {:induction false} FreeListSize(t: seq<CoreState>)
    ensures |FreeList(t)| == Sum(t, IsFree())
  {
    if t != [] {
      var k := |t| - 1;
      FreeListSize(t[..k]);
      SumPush(t[..k], t[k], IsFree());
      assert t == t[..k] + [t[k]];
    }
  }

  lemma {:induction false} TakeCount(t: seq<CoreState>, idx: seq<int>, now: int)
    requires Filled(idx, t)
    ensures Sum(Take(t, idx, now), IsFree()) + |idx| == Sum(t, IsFree())
  {
    if idx != [] {
      var k := |idx| - 1;
      TakeCount(t, idx[..k], now);
      TakeAt(t, idx[..k], now, idx[k]);
      SumSet(Take(t, idx[..k], now), idx[k], Seized(t[idx[k]], now), IsFree());
    }
  }

  lemma {:induction false} ReleaseCount(t: seq<CoreState>, idx: seq<int>, now: int)
    requires Distinct(idx) && InTable(idx, t) && forall k :: 0 <= k < |idx| ==> !t[idx[k]].free
    ensures Sum(Release(t, idx, now), IsFree()) == Sum(t, IsFree()) + |idx|
  {
    if idx != [] {
      var k := |idx| - 1;
      ReleaseCount(t, idx[..k], now);
      ReleaseAt(t, idx[..k], now, idx[k]);
      var r := Release(t, idx[..k], now);
      SumSet(r, idx[k], Freed(r[idx[k]], now), IsFree());
    }
  }
}
