/** The disk of a node: one queue and one completion event per VM, against the recurrence of a FIFO server. */
module Disk {
  import opened Sums

  datatype Io = Io(vm: nat, read: bool, size: real)

  /** A VM's queue, and when its completion event is due. */
  datatype DiskQueue = DiskQueue(queue: seq<Io>, ioFinished: Option<real>)

  datatype Specs = Specs(readBandwidth: real, writeBandwidth: real)

  ghost predicate Works(d: Specs) { d.readBandwidth > 0.0 && d.writeBandwidth > 0.0 }

  function Eta(d: Specs, io: Io): real
    requires Works(d)
  {
    io.size / if io.read then d.readBandwidth else d.writeBandwidth
  }

  function Scheduled(d: Specs, q: DiskQueue, now: real): DiskQueue
    requires Works(d)
  {
    if q.queue == [] then q else q.(ioFinished := Some(now + Eta(d, q.queue[0])))
  }

  function OnRequest(d: Specs, q: DiskQueue, io: Io, now: real): DiskQueue
    requires Works(d)
  {
    var r := q.(queue := q.queue + [io]);
    if |r.queue| == 1 then Scheduled(d, r, now) else r
  }

  function OnFinished(d: Specs, q: DiskQueue, now: real): DiskQueue
    requires Works(d) && q.queue != []
  {
    Scheduled(d, DiskQueue(q.queue[1..], None), now)
  }

  const FLUSHED := DiskQueue([], None)

  class DiskManager {
    const specs: Specs
    var queueTable: seq<DiskQueue>

    constructor (readBandwidth: real, writeBandwidth: real, numVms: nat)
      ensures specs == Specs(readBandwidth, writeBandwidth) && queueTable == seq(numVms, _ => FLUSHED)
    {
      specs := Specs(readBandwidth, writeBandwidth);
      queueTable := seq(numVms, _ => FLUSHED);
    }

    /** `false` is the exception for an unknown VM. */
    method HandleRequest(io: Io, now: real) returns (ok: bool)
      requires Works(specs)
      modifies this
      ensures ok <==> io.vm < |old(queueTable)|
      ensures queueTable == if ok then old(queueTable)[io.vm := OnRequest(specs, old(queueTable)[io.vm], io, now)]
                else old(queueTable)
    {
      if io.vm >= |queueTable| {
        return false;
      }
      queueTable := queueTable[io.vm := queueTable[io.vm].(queue := queueTable[io.vm].queue + [io])];
      if |queueTable[io.vm].queue| == 1 {
        ScheduleIo(io.vm, now);
      }
      return true;
    }

    /** The completion event of a VM fires: the head is answered and the next one starts. */
    method HandleFinished(vm: nat, now: real) returns (answered: Io)
      requires Works(specs) && vm < |queueTable| && queueTable[vm].queue != []
      modifies this
      ensures answered == old(queueTable)[vm].queue[0]
      ensures queueTable == old(queueTable)[vm := OnFinished(specs, old(queueTable)[vm], now)]
    {
      answered := queueTable[vm].queue[0];
      queueTable := queueTable[vm := DiskQueue(queueTable[vm].queue[1..], None)];
      ScheduleIo(vm, now);
    }

    method ScheduleIo(vm: nat, now: real)
      requires Works(specs) && vm < |queueTable|
      modifies this
      ensures queueTable == old(queueTable)[vm := Scheduled(specs, old(queueTable)[vm], now)]
      ensures old(queueTable)[vm].queue == [] ==> queueTable == old(queueTable)
      ensures old(queueTable)[vm].queue != [] ==>
        var head := old(queueTable)[vm].queue[0];
        && queueTable[vm].queue == old(queueTable)[vm].queue
        && (head.read ==> queueTable[vm].ioFinished == Some(now + head.size / specs.readBandwidth))
        && (!head.read ==> queueTable[vm].ioFinished == Some(now + head.size / specs.writeBandwidth))
    {
      var entry := queueTable[vm];
      if |entry.queue| > 0 {
        var head := entry.queue[0];
        var eta := if head.read then head.size / specs.readBandwidth else head.size / specs.writeBandwidth;
        queueTable := queueTable[vm := entry.(ioFinished := Some(now + eta))];
      }
    }

    method StopVmQueue(vm: nat) returns (ok: bool)
      modifies this
      ensures ok <==> vm < |old(queueTable)|
      ensures queueTable == if ok then old(queueTable)[vm := FLUSHED] else old(queueTable)
    {
      if vm >= |queueTable| {
        return false;
      }
      var entry := queueTable[vm];
      if entry.ioFinished.Some? {
        entry := entry.(ioFinished := None);
      }
      entry := entry.(queue := []);
      queueTable := queueTable[vm := entry];
      return true;
    }
  }

  // ---------------------------------------------------------------- the recurrence

  datatype Arrival = Arrival(io: Io, at: real)

  function Max(a: real, b: real): real { if a < b then b else a }

  /** A request starts when it has arrived and its predecessor is done. */
  function FinishTime(d: Specs, a: seq<Arrival>, k: nat): real
    requires Works(d) && k < |a|
  {
    (if k == 0 then a[0].at else Max(a[k].at, FinishTime(d, a, k - 1))) + Eta(d, a[k].io)
  }

  lemma {:induction false} FinishTimeLooksBack(d: Specs, a: seq<Arrival>, b: seq<Arrival>, k: nat)
    requires Works(d) && k < |a| && k < |b| && forall i :: 0 <= i <= k ==> a[i] == b[i]
    ensures FinishTime(d, a, k) == FinishTime(d, b, k)
  {
    if k > 0 { FinishTimeLooksBack(d, a, b, k - 1); }
  }

  lemma PrefixFinishes(d: Specs, a: seq<Arrival>, b: seq<Arrival>)
    requires Works(d) && b <= a
    ensures forall k :: 0 <= k < |b| ==> FinishTime(d, a, k) == FinishTime(d, b, k)
  {
    forall k | 0 <= k < |b| ensures FinishTime(d, a, k) == FinishTime(d, b, k) { FinishTimeLooksBack(d, a, b, k); }
  }

  // ---------------------------------------------------------------- runs

  /** A VM's disk: its queue, the arrivals that were not flushed, and the completions so far. */
  datatype VmDisk = VmDisk(q: DiskQueue, accepted: seq<Arrival>, answered: seq<Io>, done: seq<real>)

  datatype World = World(specs: Specs, now: real, vms: seq<VmDisk>)

  datatype Event = Arrive(io: Io) | Finish(vm: nat) | Stop(vm: nat)

  datatype Timed = Timed(at: real, event: Event)

  /** Time moves forward and never past a scheduled completion. */
  ghost predicate MayMoveTo(w: World, t: real) {
    w.now <= t && forall v :: 0 <= v < |w.vms| && w.vms[v].q.ioFinished.Some? ==> t <= w.vms[v].q.ioFinished.value
  }

  ghost predicate Enabled(w: World, e: Timed) {
    && Works(w.specs) && MayMoveTo(w, e.at)
    && match e.event
       case Arrive(io) => io.vm < |w.vms| && io.size >= 0.0
       case Finish(vm) => vm < |w.vms| && w.vms[vm].q.ioFinished == Some(e.at) && w.vms[vm].q.queue != []
       case Stop(vm) => vm < |w.vms| && |w.vms[vm].done| <= |w.vms[vm].accepted|
  }

  ghost function Next(w: World, e: Timed): World
    requires Enabled(w, e)
  {
    match e.event
    case Arrive(io) =>
      var v := w.vms[io.vm];
      w.(now := e.at, vms := w.vms[io.vm := v.(q := OnRequest(w.specs, v.q, io, e.at),
                                               accepted := v.accepted + [Arrival(io, e.at)])])
    case Finish(vm) =>
      var v := w.vms[vm];
      w.(now := e.at, vms := w.vms[vm := v.(q := OnFinished(w.specs, v.q, e.at),
                                            answered := v.answered + [v.q.queue[0]], done := v.done + [e.at])])
    case Stop(vm) =>
      var v := w.vms[vm];
      w.(now := e.at, vms := w.vms[vm := v.(q := FLUSHED, accepted := v.accepted[..|v.done|])])
  }

  /** The k-th answer is the k-th accepted request, at the time the recurrence gives. */
  ghost predicate Answered(d: Specs, v: VmDisk)
    requires Works(d)
  {
    && |v.done| == |v.answered| <= |v.accepted|
    && forall k :: 0 <= k < |v.done| ==> v.done[k] == FinishTime(d, v.accepted, k) && v.answered[k] == v.accepted[k].io
  }

  /** The queue holds the accepted requests not answered yet. */
  ghost predicate Lined(v: VmDisk) {
    && |v.done| + |v.q.queue| == |v.accepted|
    && forall k :: 0 <= k < |v.q.queue| ==> v.q.queue[k] == v.accepted[|v.done| + k].io
  }

  ghost predicate Past(now: real, v: VmDisk) {
    && (forall k :: 0 <= k < |v.accepted| ==> v.accepted[k].at <= now && v.accepted[k].io.size >= 0.0)
    && (forall k :: 0 <= k < |v.done| ==> v.done[k] <= now)
  }

  /** A completion is scheduled exactly while something is queued, at the time the recurrence gives. */
  ghost predicate Timely(d: Specs, v: VmDisk)
    requires Works(d)
  {
    && (v.q.ioFinished.Some? <==> v.q.queue != [])
    && (v.q.queue != [] ==> |v.done| < |v.accepted| && v.q.ioFinished == Some(FinishTime(d, v.accepted, |v.done|)))
  }

  ghost predicate VmOk(d: Specs, now: real, v: VmDisk)
    requires Works(d)
  {
    Answered(d, v) && Lined(v) && Past(now, v) && Timely(d, v)
  }

  ghost predicate Inv(w: World) {
    Works(w.specs) && forall v :: 0 <= v < |w.vms| ==> VmOk(w.specs, w.now, w.vms[v])
  }

  lemma Later(d: Specs, now: real, t: real, v: VmDisk)
    requires Works(d) && VmOk(d, now, v) && now <= t
    ensures VmOk(d, t, v)
  {
  }

  ghost function Arrived(d: Specs, t: real, v: VmDisk, io: Io): VmDisk
    requires Works(d)
  {
    v.(q := OnRequest(d, v.q, io, t), accepted := v.accepted + [Arrival(io, t)])
  }

  lemma ArriveTimely(d: Specs, t: real, v: VmDisk, io: Io)
    requires Works(d) && VmOk(d, t, v)
    ensures Timely(d, Arrived(d, t, v, io))
  {
    PrefixFinishes(d, v.accepted + [Arrival(io, t)], v.accepted);
    if v.q.queue == [] && |v.done| > 0 {
      assert v.done[|v.done| - 1] <= t;
    }
  }

  lemma ArriveKeeps(d: Specs, t: real, v: VmDisk, io: Io)
    requires Works(d) && VmOk(d, t, v) && io.size >= 0.0
    ensures VmOk(d, t, Arrived(d, t, v, io))
  {
    PrefixFinishes(d, v.accepted + [Arrival(io, t)], v.accepted);
    ArriveTimely(d, t, v, io);
  }

  lemma FinishKeeps(d: Specs, t: real, v: VmDisk)
    requires Works(d) && VmOk(d, t, v) && v.q.queue != [] && v.q.ioFinished == Some(t)
    ensures VmOk(d, t, v.(q := OnFinished(d, v.q, t), answered := v.answered + [v.q.queue[0]], done := v.done + [t]))
  {
    var k := |v.done|;
    assert v.q.queue[0] == v.accepted[k].io;
    if |v.q.queue| > 1 {
      assert v.q.queue[1] == v.accepted[k + 1].io;
      assert v.accepted[k + 1].at <= t;
    }
  }

  lemma StopKeeps(d: Specs, t: real, v: VmDisk)
    requires Works(d) && VmOk(d, t, v)
    ensures VmOk(d, t, v.(q := FLUSHED, accepted := v.accepted[..|v.done|]))
  {
    var a := v.accepted[..|v.done|];
    PrefixFinishes(d, v.accepted, a);
  }

  lemma StepKeeps(w: World, e: Timed)
    requires Inv(w) && Enabled(w, e)
    ensures Inv(Next(w, e))
  {
    forall v | 0 <= v < |w.vms| ensures VmOk(w.specs, e.at, Next(w, e).vms[v]) {
      Later(w.specs, w.now, e.at, w.vms[v]);
      match e.event
      case Arrive(io) => if io.vm == v { ArriveKeeps(w.specs, e.at, w.vms[v], io); }
      case Finish(vm) => if vm == v { FinishKeeps(w.specs, e.at, w.vms[v]); }
      case Stop(vm) => if vm == v { StopKeeps(w.specs, e.at, w.vms[v]); }
    }
  }

  ghost predicate Possible(w: World, es: seq<Timed>)
    decreases |es|
  {
    es == [] || (Enabled(w, es[0]) && Possible(Next(w, es[0]), es[1..]))
  }

  ghost function After(w: World, es: seq<Timed>): World
    requires Possible(w, es)
    decreases |es|
  {
    if es == [] then w else After(Next(w, es[0]), es[1..])
  }

  lemma {:induction false} AlwaysInv(w: World, es: seq<Timed>)
    requires Inv(w) && Possible(w, es)
    ensures Inv(After(w, es)) && After(w, es).specs == w.specs && |After(w, es).vms| == |w.vms|
    decreases |es|
  {
    if es != [] {
      StepKeeps(w, es[0]);
      AlwaysInv(Next(w, es[0]), es[1..]);
    }
  }

  const IDLE := VmDisk(FLUSHED, [], [], [])

  /**
   * In every run, whatever the other VMs do: a VM's k-th surviving request is the k-th answered, at
   * max(its arrival, the previous completion) + size / bandwidth, and a completion is scheduled exactly
   * while something is queued.
   */
  lemma DiskFollowsRecurrence(d: Specs, numVms: nat, es: seq<Timed>, vm: nat)
    requires Works(d) && vm < numVms && Possible(World(d, 0.0, seq(numVms, _ => IDLE)), es)
    ensures var w := After(World(d, 0.0, seq(numVms, _ => IDLE)), es);
            && vm < |w.vms|
            && var v := w.vms[vm];
            && |v.done| == |v.answered| <= |v.accepted|
            && (forall k :: 0 <= k < |v.done| ==>
                  v.done[k] == FinishTime(d, v.accepted, k) && v.answered[k] == v.accepted[k].io)
            && (v.q.ioFinished.Some? <==> v.q.queue != [])
  {
    AlwaysInv(World(d, 0.0, seq(numVms, _ => IDLE)), es);
    var w := After(World(d, 0.0, seq(numVms, _ => IDLE)), es);
    assert VmOk(d, w.now, w.vms[vm]);
  }

  // ---------------------------------------------------------------- what a read and a write cost

  /** A run of a disk that starts idle at time zero. */
  ghost predicate Run(d: Specs, numVms: nat, es: seq<Timed>) {
    Possible(World(d, 0.0, seq(numVms, _ => IDLE)), es)
  }

  ghost function Final(d: Specs, numVms: nat, es: seq<Timed>, vm: nat): VmDisk
    requires Works(d) && vm < numVms && Run(d, numVms, es)
  {
    AlwaysInv(World(d, 0.0, seq(numVms, _ => IDLE)), es);
    After(World(d, 0.0, seq(numVms, _ => IDLE)), es).vms[vm]
  }

  lemma FinalIsOk(d: Specs, numVms: nat, es: seq<Timed>, vm: nat) returns (now: real)
    requires Works(d) && vm < numVms && Run(d, numVms, es)
    ensures VmOk(d, now, Final(d, numVms, es, vm))
  {
    AlwaysInv(World(d, 0.0, seq(numVms, _ => IDLE)), es);
    now := After(World(d, 0.0, seq(numVms, _ => IDLE)), es).now;
  }

  /**
   * In every run a request starts when it has arrived and its predecessor is done; a read then takes its size over
   * the read bandwidth, a write its size over the write bandwidth.
   */
  lemma RequestsTakeTheirTime(d: Specs, numVms: nat, es: seq<Timed>, vm: nat, k: nat)
    requires Works(d) && vm < numVms && Run(d, numVms, es) && k < |Final(d, numVms, es, vm).done|
    ensures var v := Final(d, numVms, es, vm);
            && k < |v.answered| && k < |v.accepted|
            && var io, at := v.answered[k], v.accepted[k].at;
            var start := if k > 0 && at < v.done[k - 1] then v.done[k - 1] else at;
            && io == v.accepted[k].io
            && (io.read ==> v.done[k] == start + io.size / d.readBandwidth)
            && (!io.read ==> v.done[k] == start + io.size / d.writeBandwidth)
  {
    var now := FinalIsOk(d, numVms, es, vm);
  }

  /** The same of the request being served: the completion scheduled for it. */
  lemma HeadIsDueInTime(d: Specs, numVms: nat, es: seq<Timed>, vm: nat)
    requires Works(d) && vm < numVms && Run(d, numVms, es) && Final(d, numVms, es, vm).q.queue != []
    ensures var v := Final(d, numVms, es, vm);
            var k := |v.done|;
            && k < |v.accepted| && v.q.queue[0] == v.accepted[k].io && v.q.ioFinished.Some?
            && var io, at, due := v.q.queue[0], v.accepted[k].at, v.q.ioFinished.value;
            var start := if k > 0 && at < v.done[k - 1] then v.done[k - 1] else at;
            && (io.read ==> due == start + io.size / d.readBandwidth)
            && (!io.read ==> due == start + io.size / d.writeBandwidth)
  {
    var now := FinalIsOk(d, numVms, es, vm);
  }

  /** The two bandwidths are independent: requests of one direction never notice the other's. */
  lemma {:induction false} OtherBandwidthIsIrrelevant(d: Specs, e: Specs, numVms: nat, ds: seq<Timed>, es: seq<Timed>,
                                                      vm: nat, read: bool, k: nat)
    requires Works(d) && Works(e) && vm < numVms && Run(d, numVms, ds) && Run(e, numVms, es)
    requires if read then d.readBandwidth == e.readBandwidth else d.writeBandwidth == e.writeBandwidth
    requires k < |Final(d, numVms, ds, vm).done| && k < |Final(e, numVms, es, vm).done|
    requires Final(d, numVms, ds, vm).accepted == Final(e, numVms, es, vm).accepted
    requires forall a :: a in Final(d, numVms, ds, vm).accepted ==> a.io.read == read
    ensures Final(d, numVms, ds, vm).done[k] == Final(e, numVms, es, vm).done[k]
    decreases k
  {
    RequestsTakeTheirTime(d, numVms, ds, vm, k);
    RequestsTakeTheirTime(e, numVms, es, vm, k);
    assert Final(d, numVms, ds, vm).accepted[k] in Final(d, numVms, ds, vm).accepted;
    if k > 0 { OtherBandwidthIsIrrelevant(d, e, numVms, ds, es, vm, read, k - 1); }
  }
}
