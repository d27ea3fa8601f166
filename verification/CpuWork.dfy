/** Every request runs for exactly the ticks it needs, in full slices, and a node without arrivals drains. */
module CpuWork {
  import opened Sums
  import opened CpuMessages
  import Cores = CpuCores
  import opened CoreTable
  import RR = RoundRobin
  import opened CpuSystem
  import opened CpuSafety
  import opened CpuAccounting

  // ---------------------------------------------------------------- ticks and slices of one request

  /** ceil(need / quantum), or one slice when the quantum is infinite. */
  function SlicesNeeded(need: nat, quantum: int): nat
    requires quantum > 0 || quantum == INFINITE_QUANTUM
  {
    if quantum == INFINITE_QUANTUM then 1 else (need + quantum - 1) / quantum
  }

  /** Between slices: whole slices only, and the rest is still to run. */
  ghost predicate Waiting(m: Msg, quantum: int, spec: CoreSpec)
    requires Positive(spec)
  {
    && !m.completed && m.meter.need == m.meter.ran + Remaining(m, spec)
    && if quantum == INFINITE_QUANTUM then m.meter.slices == m.meter.ran == 0
        else m.meter.ran == m.meter.slices * quantum
  }

  /** In a slice: what is left of its quantum is what the slice has not used. */
  ghost predicate InSlice(m: Msg, quantum: int, spec: CoreSpec)
    requires Positive(spec)
  {
    && m.meter.need == m.meter.ran + Remaining(m, spec)
    && if quantum == INFINITE_QUANTUM then m.quantum == quantum && m.meter.slices == 1
       else 0 <= m.quantum < quantum && m.meter.slices >= 1 && m.meter.ran == m.meter.slices * quantum - m.quantum
  }

  ghost predicate SliceEnded(m: Msg, quantum: int, spec: CoreSpec)
    requires Positive(spec)
  {
    InSlice(m, quantum, spec) && (m.completed || m.quantum == 0)
  }

  /** Done: it ran for as many ticks as it needed, in the fewest slices that hold them. */
  ghost predicate RanExactly(m: Msg, quantum: int)
    requires quantum > 0 || quantum == INFINITE_QUANTUM
  {
    m.completed && m.meter.ran == m.meter.need && m.meter.slices == SlicesNeeded(m.meter.need, quantum)
  }

  lemma SliceStarts(m: Msg, quantum: int, spec: CoreSpec)
    requires Positive(spec) && (quantum > 0 || quantum == INFINITE_QUANTUM)
    requires Waiting(m, quantum, spec) && m.quantum == quantum
    ensures InSlice(Executed(Cores.BeginSlice(m), spec), quantum, spec)
  {
    TickLowersRemaining(Cores.BeginSlice(m), spec);
    assert (m.meter.slices + 1) * quantum == m.meter.slices * quantum + quantum;
  }

  lemma SliceContinues(m: Msg, quantum: int, spec: CoreSpec)
    requires Positive(spec) && InSlice(m, quantum, spec) && !m.completed && m.quantum != 0
    ensures InSlice(Executed(m, spec), quantum, spec)
  {
    TickLowersRemaining(m, spec);
  }

  lemma SliceIsTheLast(m: Msg, quantum: int, spec: CoreSpec)
    requires Positive(spec) && (quantum > 0 || quantum == INFINITE_QUANTUM)
    requires SliceEnded(m, quantum, spec)
    ensures m.completed ==> RanExactly(m, quantum)
    ensures !m.completed ==> Waiting(m.(response := false), quantum, spec)
  {
    if m.completed && quantum != INFINITE_QUANTUM {
      RoundUp(m.meter.slices, quantum, m.quantum);
    }
  }

  lemma RoundUp(slices: nat, quantum: int, unused: int)
    requires 0 <= unused < quantum
    ensures (slices * quantum - unused + quantum - 1) / quantum == slices
  {
    var rest := quantum - 1 - unused;
    assert slices * quantum - unused + quantum - 1 == slices * quantum + rest;
    DivideBack(slices, quantum, rest);
  }

  lemma DivideBack(a: nat, b: int, rest: int)
    requires 0 <= rest < b
    ensures (a * b + rest) / b == a
  {
    var d, left := (a * b + rest) / b, (a * b + rest) % b;
    assert (d - a) * b == rest - left;
    NoMultipleWithin(d - a, b, rest - left);
  }

  lemma NoMultipleWithin(k: int, b: int, product: int)
    requires k * b == product && -b < product < b
    ensures k == 0
  {
    if k >= 1 { Grows(k, 1, b); } else if k <= -1 { Grows(-1, k, b); }
  }

  lemma Grows(k: int, l: int, b: int)
    requires k >= l && b > 0
    ensures k * b >= l * b
  {
  }

  // ---------------------------------------------------------------- every request in the node

  ghost predicate Metered(st: System) {
    && Shape(st)
    && (forall s, i :: 0 <= s < |st.scheds| && 0 <= i < |st.scheds[s].queue| ==>
          Waiting(st.scheds[s].queue[i], st.scheds[s].quantum, st.spec))
    && (forall r :: 0 <= r < |st.cores| ==> CoreMetered(st, r))
    && (forall k :: 0 <= k < |st.replies| ==> ReplyMetered(st, st.replies[k]))
    && (forall k :: 0 <= k < |st.finished| ==> FinishedExactly(st, st.finished[k]))
  }

  ghost predicate CoreMetered(st: System, r: nat)
    requires Positive(st.spec) && r < |st.cores| == |st.inbox|
  {
    && (forall i :: 0 <= i < |st.inbox[r]| && st.inbox[r][i].op == ExecCpu && st.inbox[r][i].sender < |st.scheds| ==>
          Waiting(st.inbox[r][i], st.scheds[st.inbox[r][i].sender].quantum, st.spec))
    && (st.cores[r].pending.Some? && st.cores[r].pending.value.sender < |st.scheds| ==>
          InSlice(st.cores[r].pending.value, st.scheds[st.cores[r].pending.value.sender].quantum, st.spec))
  }

  ghost predicate ReplyMetered(st: System, m: Msg)
    requires Positive(st.spec)
  {
    m.sender < |st.scheds| ==> SliceEnded(m, st.scheds[m.sender].quantum, st.spec)
  }

  ghost predicate FinishedExactly(st: System, m: Msg) {
    && m.sender < |st.scheds| && m.op == ExecCpu
    && (st.scheds[m.sender].quantum > 0 || st.scheds[m.sender].quantum == INFINITE_QUANTUM)
    && RanExactly(m, st.scheds[m.sender].quantum)
  }

  ghost predicate SameQuanta(st: System, g: System) {
    |g.scheds| == |st.scheds| && forall s :: 0 <= s < |g.scheds| ==> g.scheds[s].quantum == st.scheds[s].quantum
  }

  /** Requests that a step leaves alone stay metered. */
  lemma Untouched(st: System, g: System)
    requires Metered(st) && Shape(g) && g.spec == st.spec && SameQuanta(st, g) && |g.cores| == |st.cores|
    requires forall s, i :: 0 <= s < |g.scheds| && 0 <= i < |g.scheds[s].queue| ==>
               g.scheds[s].queue[i] in st.scheds[s].queue || Waiting(g.scheds[s].queue[i], g.scheds[s].quantum, g.spec)
    requires forall r :: 0 <= r < |g.cores| && (g.cores[r] != st.cores[r] || g.inbox[r] != st.inbox[r]) ==>
               CoreMetered(g, r)
    requires forall k :: 0 <= k < |g.replies| ==> g.replies[k] in st.replies || ReplyMetered(g, g.replies[k])
    requires forall k :: 0 <= k < |g.finished| ==> g.finished[k] in st.finished || FinishedExactly(g, g.finished[k])
    ensures Metered(g)
  {
    forall r | 0 <= r < |g.cores| ensures CoreMetered(g, r) { assert CoreMetered(st, r); }
    forall k | 0 <= k < |g.replies| ensures ReplyMetered(g, g.replies[k]) {
      if g.replies[k] in st.replies { assert ReplyMetered(st, g.replies[k]); }
    }
    forall k | 0 <= k < |g.finished| ensures FinishedExactly(g, g.finished[k]) {
      if g.finished[k] in st.finished { assert FinishedExactly(st, g.finished[k]); }
    }
  }

  /** A metered request added to an inbox. */
  lemma BoxGrows(st: System, g: System, r: nat, m: Msg)
    requires Metered(st) && g.spec == st.spec && SameQuanta(st, g) && r < |st.cores| == |g.cores| == |g.inbox|
    requires g.cores[r] == st.cores[r] && g.inbox[r] == st.inbox[r] + [m]
    requires m.op == ExecCpu && m.sender < |st.scheds| ==> Waiting(m, st.scheds[m.sender].quantum, st.spec)
    ensures CoreMetered(g, r)
  {
    assert CoreMetered(st, r);
    forall i | 0 <= i < |g.inbox[r]| && g.inbox[r][i].op == ExecCpu && g.inbox[r][i].sender < |g.scheds|
      ensures Waiting(g.inbox[r][i], g.scheds[g.inbox[r][i].sender].quantum, g.spec)
    {
      if i < |st.inbox[r]| { assert g.inbox[r][i] == st.inbox[r][i]; }
    }
  }

  lemma SubmitMeters(st: System, s: nat, m: Msg)
    requires Exclusive(st) && Metered(st) && Enabled(st, Submit(s, m))
    ensures Metered(Next(st, Submit(s, m)))
  {
    var g, x := Next(st, Submit(s, m)), st.scheds[s];
    SubmitKeeps(st, s, m);
    assert SchedShape(st, s);
    var armed := m.(quantum := x.quantum);
    assert Waiting(armed, x.quantum, st.spec);
    if RR.IdleCore(x.flags) != RR.NOT_FOUND {
      var r := x.index[RR.IdleCore(x.flags)];
      var sent := armed.(core := r);
      assert Post(st.inbox, [sent]) == st.inbox[r := st.inbox[r] + [sent]];
      BoxGrows(st, g, r, sent);
    }
    Untouched(st, g);
  }

  lemma DeliverMeters(st: System, r: nat)
    requires Exclusive(st) && Metered(st) && Enabled(st, Deliver(r))
    ensures Metered(Next(st, Deliver(r)))
  {
    var g, m := Next(st, Deliver(r)), st.inbox[r][0];
    DeliverKeeps(st, r);
    ExclusiveIsUndisturbed(st);
    assert CoreMetered(st, r) && CoreShape(st, r) && AtCoreShape(st, r, m) && SchedShape(st, m.sender);
    if m.op == ExecCpu { SliceStarts(m, st.scheds[m.sender].quantum, st.spec); }
    assert CoreMetered(g, r) by {
      assert forall i :: 0 <= i < |g.inbox[r]| ==> g.inbox[r][i] == st.inbox[r][i + 1];
    }
    Untouched(st, g);
  }

  lemma TickMeters(st: System, r: nat)
    requires Exclusive(st) && Metered(st) && Enabled(st, Tick(r))
    ensures Metered(Next(st, Tick(r)))
  {
    var g := Next(st, Tick(r));
    TickKeeps(st, r);
    TickEffect(st, r);
    var m := st.cores[r].pending.value;
    assert CoreMetered(st, r);
    if m.completed || m.quantum == 0 {
      assert SliceEnded(m.(response := true), st.scheds[m.sender].quantum, st.spec);
    } else {
      SliceContinues(m, st.scheds[m.sender].quantum, st.spec);
    }
    assert CoreMetered(g, r) by { assert g.inbox[r] == st.inbox[r]; }
    Untouched(st, g);
  }

  lemma ZombieMeters(st: System, k: nat)
    requires Exclusive(st) && Metered(st) && Enabled(st, Respond(k)) && ReplyShape(st, st.replies[k])
    requires !st.scheds[st.replies[k].sender].running
    ensures Metered(Next(st, Respond(k)))
  {
    var g := Next(st, Respond(k));
    RespondKeeps(st, k);
    WithoutSubset(st, k);
    assert g.finished == st.finished;
    Untouched(st, g);
  }

  lemma RespondMeters(st: System, k: nat)
    requires Exclusive(st) && Metered(st) && Enabled(st, Respond(k))
    ensures Metered(Next(st, Respond(k)))
  {
    assert ReplyShape(st, st.replies[k]);
    if !st.scheds[st.replies[k].sender].running {
      ZombieMeters(st, k);
    } else {
      var g := Next(st, Respond(k));
      RespondKeeps(st, k);
      var v := ReplyFindsItsCore(st, k);
      RespondQueues(st, k, v);
      BoxMeters(st, k, v);
      LogMeters(st, k, v);
      Untouched(st, g);
    }
  }

  lemma LogMeters(st: System, k: nat, v: nat)
    requires Exclusive(st) && Metered(st) && Enabled(st, Respond(k)) && ReplyShape(st, st.replies[k])
    requires st.scheds[st.replies[k].sender].running && v < |st.scheds[st.replies[k].sender].flags|
    requires SameQuanta(st, Next(st, Respond(k)))
    ensures var g := Next(st, Respond(k));
            && (forall i :: 0 <= i < |g.replies| ==> g.replies[i] in st.replies)
            && (forall i :: 0 <= i < |g.finished| ==> g.finished[i] in st.finished || FinishedExactly(g, g.finished[i]))
  {
    WithoutSubset(st, k);
    RespondEffect(st, k);
    QueueMeters(st, k, v);
  }

  lemma QueueMeters(st: System, k: nat, v: nat)
    requires Metered(st) && k < |st.replies| && ReplyShape(st, st.replies[k])
               && v < |st.scheds[st.replies[k].sender].flags|
    ensures var m := st.replies[k];
            var x := st.scheds[m.sender];
            var queue := RR.Requeued(x.(flags := x.flags[v := true]), m).queue;
            && (forall i :: 0 <= i < |queue| ==> Waiting(queue[i], x.quantum, st.spec))
            && (m.completed ==> FinishedExactly(st, m))
  {
    var m := st.replies[k];
    var x := st.scheds[m.sender];
    assert SchedShape(st, m.sender) && ReplyMetered(st, m);
    SliceIsTheLast(m, x.quantum, st.spec);
    var queue := RR.Requeued(x.(flags := x.flags[v := true]), m).queue;
    forall i | 0 <= i < |queue| ensures Waiting(queue[i], x.quantum, st.spec) {
      if i < |x.queue| { assert queue[i] == x.queue[i]; }
    }
  }

  lemma RespondQueues(st: System, k: nat, v: nat)
    requires Exclusive(st) && Metered(st) && Enabled(st, Respond(k)) && ReplyShape(st, st.replies[k])
    requires var m := st.replies[k];
             var x := st.scheds[m.sender];
             x.running && v == RR.VirtualCore(x.index, m.core) && v < |x.index| == |x.flags|
    ensures var g := Next(st, Respond(k));
            && SameQuanta(st, g)
            && forall s, i :: 0 <= s < |g.scheds| && 0 <= i < |g.scheds[s].queue| ==>
                 g.scheds[s].queue[i] in st.scheds[s].queue
                     || Waiting(g.scheds[s].queue[i], g.scheds[s].quantum, g.spec)
  {
    var g, m := Next(st, Respond(k)), st.replies[k];
    var x := st.scheds[m.sender];
    QueueMeters(st, k, v);
    assert SchedShape(st, m.sender);
    var ready := RR.Requeued(x.(flags := x.flags[v := true]), m);
    forall s, i | 0 <= s < |g.scheds| && 0 <= i < |g.scheds[s].queue|
      ensures g.scheds[s].queue[i] in st.scheds[s].queue || Waiting(g.scheds[s].queue[i], g.scheds[s].quantum, g.spec)
    {
      if s == m.sender && ready.queue != [] { assert g.scheds[s].queue[i] == ready.queue[i + 1]; }
    }
  }

  lemma BoxMeters(st: System, k: nat, v: nat)
    requires Exclusive(st) && Metered(st) && Enabled(st, Respond(k)) && ReplyShape(st, st.replies[k])
    requires var m := st.replies[k];
             var x := st.scheds[m.sender];
             x.running && v == RR.VirtualCore(x.index, m.core) && v < |x.index| == |x.flags|
    ensures forall r :: 0 <= r < |st.cores| && Next(st, Respond(k)).inbox[r] != st.inbox[r] ==>
              CoreMetered(Next(st, Respond(k)), r)
  {
    var g, m := Next(st, Respond(k)), st.replies[k];
    var x := st.scheds[m.sender];
    QueueMeters(st, k, v);
    assert SchedShape(st, m.sender);
    var ready := RR.Requeued(x.(flags := x.flags[v := true]), m);
    if ready.queue != [] {
      var sent := RR.HeadFor(ready, m.core);
      assert Post(st.inbox, [sent]) == st.inbox[m.core := st.inbox[m.core] + [sent]];
      BoxGrows(st, g, m.core, sent);
    }
  }

  lemma StopMeters(st: System, s: nat)
    requires Exclusive(st) && Metered(st) && Enabled(st, Stop(s))
    ensures Metered(Next(st, Stop(s)))
  {
    var g := Next(st, Stop(s));
    StopKeeps(st, s);
    forall r | 0 <= r < |g.cores| ensures g.inbox[r] == st.inbox[r] || CoreMetered(g, r) {
      StopInbox(st, s, r);
      if BusyOn(st.scheds[s], r) { BoxGrows(st, g, r, g.inbox[r][|st.inbox[r]|]); }
    }
    Untouched(st, g);
  }

  lemma StepMeters(st: System, e: Event)
    requires Exclusive(st) && Metered(st) && Enabled(st, e) && (e.Start? ==> Drained(st, e.s))
    ensures Metered(Next(st, e))
  {
    match e
    case Submit(s, m) => SubmitMeters(st, s, m);
    case AbortRequest(s, app) => AbortRequestKeeps(st, s, app); Untouched(st, Next(st, e));
    case Deliver(r) => DeliverMeters(st, r);
    case Tick(r) => TickMeters(st, r);
    case Respond(k) => RespondMeters(st, k);
    case Start(s, n) => StepKeeps(st, e); assert SchedShape(st, s); Untouched(st, Next(st, e));
    case Stop(s) => StopMeters(st, s);
  }

  lemma {:induction false} AlwaysMetered(st: System, es: seq<Event>)
    requires Exclusive(st) && Metered(st) && Possible(st, es) && RestartsDrained(st, es)
    ensures Exclusive(After(st, es)) && Metered(After(st, es))
    decreases |es|
  {
    if es != [] {
      StepMeters(st, es[0]);
      StepKeeps(st, es[0]);
      AlwaysMetered(Next(st, es[0]), es[1..]);
    }
  }

  /** Only fresh requests are submitted. */
  ghost predicate AllFresh(st: System)
    requires Positive(st.spec)
  {
    forall j :: 0 <= j < |st.submitted| ==> FreshRequest(st.submitted[j], st.submitted[j].sender, st.spec)
  }

  lemma {:induction false} AlwaysFresh(st: System, es: seq<Event>)
    requires Positive(st.spec) && AllFresh(st) && Possible(st, es)
    ensures After(st, es).spec == st.spec && AllFresh(After(st, es))
    decreases |es|
  {
    if es != [] { AlwaysFresh(Next(st, es[0]), es[1..]); }
  }

  /**
   * m is what became of a submitted request: the same id and sender, and a meter set to the ticks that request needs.
   */
  ghost predicate Submitted(st: System, j: int, m: Msg)
    requires Positive(st.spec)
  {
    && 0 <= j < |st.submitted| && st.submitted[j].id == m.id && st.submitted[j].sender == m.sender
    && m.meter.need == TicksNeeded(Work(st.submitted[j]), Rate(st.submitted[j], st.spec))
  }

  lemma FinishedWasSubmitted(st: System, es: seq<Event>, k: nat)
    requires Initial(st) && Possible(st, es) && RestartsDrained(st, es) && k < |After(st, es).finished|
    requires After(st, es).finished[k].op == ExecCpu
    ensures After(st, es).spec == st.spec
    ensures exists j :: Submitted(After(st, es), j, After(st, es).finished[k])
  {
    AlwaysFresh(st, es);
    var g := After(st, es);
    var m := g.finished[k];
    var key := ByNeed(m.id, m.sender, m.meter.need);
    RequestsAreConserved(st, es, key);
    SumZero(g.finished, Is(key));
    assert Is(key)(m) == 1;
    SumZero(g.submitted, Is(key));
    var j :| 0 <= j < |g.submitted| && Is(key)(g.submitted[j]) != 0;
    assert Submitted(g, j, m);
  }

  /**
   * Whatever the interleaving, a request that was reported finished was submitted, and ran for exactly
   * max(1, ceil(work / rate)) ticks of the work and rate it was submitted with, in exactly ceil(ticks / quantum)
   * slices.
   */
  lemma FinishedRequestsRanExactly(st: System, es: seq<Event>, k: nat)
    requires Initial(st) && Possible(st, es) && RestartsDrained(st, es) && k < |After(st, es).finished|
    ensures Positive(After(st, es).spec)
    ensures var g := After(st, es);
            var m := g.finished[k];
            && FinishedExactly(g, m)
            && exists j :: Submitted(g, j, m)
                && m.meter.ran == TicksNeeded(Work(g.submitted[j]), Rate(g.submitted[j], g.spec))
  {
    InitialIsExclusive(st);
    AlwaysMetered(st, es);
    FinishedWasSubmitted(st, es, k);
  }

  // ---------------------------------------------------------------- draining

  /** Remaining ticks dominate; within a tick a request moves from a reply to the queue to an inbox to a core. */
  ghost function Effort(spec: CoreSpec): Weights
    requires Positive(spec)
  {
    Weights((m: Msg) => 4 * Remaining(m, spec) + 3,
            (m: Msg) => if m.op == AbortCpu then 1 else 4 * Remaining(m, spec) + 2,
            (m: Msg) => 4 * Remaining(m, spec) + 5,
            (m: Msg) => 4 * Remaining(m, spec) + 4)
  }

  ghost predicate Internal(e: Event) { e.Deliver? || e.Tick? || e.Respond? }

  lemma DeliveryWorks(st: System, r: nat)
    requires Exclusive(st) && Metered(st) && Enabled(st, Deliver(r))
    ensures Mass(Next(st, Deliver(r)), Effort(st.spec)) < Mass(st, Effort(st.spec))
  {
    var m := st.inbox[r][0];
    WeighDeliver(st, r, Effort(st.spec));
    assert CoreMetered(st, r) && CoreShape(st, r) && AtCoreShape(st, r, m);
    if m.op == ExecCpu { TickLowersRemaining(Cores.BeginSlice(m), st.spec); }
  }

  lemma TickWorks(st: System, r: nat)
    requires Exclusive(st) && Metered(st) && Enabled(st, Tick(r))
    ensures Mass(Next(st, Tick(r)), Effort(st.spec)) < Mass(st, Effort(st.spec))
  {
    WeighTick(st, r, Effort(st.spec));
    var m := st.cores[r].pending.value;
    if !m.completed { TickLowersRemaining(m, st.spec); }
  }

  lemma InternalStepsWork(st: System, e: Event)
    requires Exclusive(st) && Metered(st) && Enabled(st, e) && Internal(e)
    ensures Mass(Next(st, e), Effort(st.spec)) < Mass(st, Effort(st.spec))
  {
    match e
    case Deliver(r) => DeliveryWorks(st, r);
    case Tick(r) => TickWorks(st, r);
    case Respond(k) => RespondWorks(st, k);
    case _ =>
  }

  /** A request moves on with one unit of effort less. */
  lemma EffortDrops(m: Msg, core: int, quantum: int, spec: CoreSpec)
    requires Positive(spec)
    ensures Effort(spec).queue(m.(response := false)) == Effort(spec).reply(m) - 1
    ensures m.op == ExecCpu ==> Effort(spec).inbox(m.(core := core, quantum := quantum)) == Effort(spec).queue(m) - 1
  {
  }

  lemma RespondWorks(st: System, k: nat)
    requires Exclusive(st) && Enabled(st, Respond(k))
    ensures Mass(Next(st, Respond(k)), Effort(st.spec)) < Mass(st, Effort(st.spec))
  {
    var w, m := Effort(st.spec), st.replies[k];
    ReleasedIsRequest(st, k);
    var x := st.scheds[m.sender];
    var next := Released(x, m);
    EffortDrops(m, m.core, x.quantum, st.spec);
    if next.Some? { EffortDrops(next.value, m.core, x.quantum, st.spec); }
    WeighRespond(st, k, w);
  }

  lemma ReleasedIsRequest(st: System, k: nat)
    requires Exclusive(st) && Enabled(st, Respond(k))
    ensures st.replies[k].sender < |st.scheds|
    ensures var m := st.replies[k];
            Released(st.scheds[m.sender], m).Some? ==> Released(st.scheds[m.sender], m).value.op == ExecCpu
  {
    assert ReplyShape(st, st.replies[k]) && SchedShape(st, st.replies[k].sender);
  }

  /** The effort left in the whole system. */
  ghost function Effortful(st: System): int
    requires Positive(st.spec)
  {
    Mass(st, Effort(st.spec))
  }

  ghost predicate Working(st: System) { Exclusive(st) && Metered(st) }

  lemma QuietStep(st: System, e: Event)
    requires Working(st) && Enabled(st, e) && Internal(e)
    ensures Working(Next(st, e)) && Next(st, e).spec == st.spec && Effortful(Next(st, e)) < Effortful(st)
  {
    InternalStepsWork(st, e);
    StepKeeps(st, e);
    StepMeters(st, e);
  }

  lemma {:induction false} QuietRuns(st: System, es: seq<Event>)
    requires Working(st) && Possible(st, es) && forall i :: 0 <= i < |es| ==> Internal(es[i])
    ensures Working(After(st, es)) && After(st, es).spec == st.spec && |es| + Effortful(After(st, es)) <= Effortful(st)
    decreases |es|
  {
    if es != [] {
      QuietStep(st, es[0]);
      QuietRuns(Next(st, es[0]), es[1..]);
    }
  }

  /** With no arrivals, at most as many steps happen as the total effort left; so every such run ends. */
  lemma QuietRunsAreShort(st: System, es: seq<Event>)
    requires Exclusive(st) && Metered(st) && Possible(st, es) && forall i :: 0 <= i < |es| ==> Internal(es[i])
    ensures |es| + Mass(After(st, es), Effort(st.spec)) <= Mass(st, Effort(st.spec))
  {
    QuietRuns(st, es);
  }

  /** A quiet run can only get stuck when nothing is left: no request waits forever. */
  lemma StuckMeansEmpty(st: System)
    requires Exclusive(st) && forall e :: Internal(e) ==> !Enabled(st, e)
    ensures forall key :: Inside(st, key) == 0
  {
    forall r | 0 <= r < |st.cores| ensures st.inbox[r] == [] && !st.cores[r].pending.Some? {
      assert !Enabled(st, Deliver(r)) && !Enabled(st, Tick(r)) && CoreShape(st, r);
    }
    assert !Enabled(st, Respond(0));
    forall s | 0 <= s < |st.scheds| ensures st.scheds[s].queue == [] { NothingWaits(st, s); }
    forall key ensures Inside(st, key) == 0 {
      SumZero(st.scheds, InQueue(Is(key)));
      SumZero(st.inbox, InBox(Is(key)));
      SumZero(st.cores, OnCore(Is(key)));
    }
  }

  lemma NothingWaits(st: System, s: nat)
    requires Exclusive(st) && s < |st.scheds| && st.replies == []
    requires forall r :: 0 <= r < |st.cores| ==> st.inbox[r] == [] && !st.cores[r].pending.Some?
    ensures st.scheds[s].queue == []
  {
    var x := st.scheds[s];
    assert SchedShape(st, s) && WorkConserving(x);
    if x.running && x.queue != [] {
      IdleCoreIsEmpty(st, s, 0);
      assert false;
    }
  }

  /** Liveness: a run from rest that has taken every internal step it can has finished or removed every submission. */
  lemma DrainedRunsFinishEverything(st: System, es: seq<Event>, key: Key)
    requires Initial(st) && Possible(st, es) && RestartsDrained(st, es)
    requires Shape(After(st, es)) && forall e :: Internal(e) ==> !Enabled(After(st, es), e)
    ensures var g := After(st, es);
            Sum(g.submitted, Is(key)) == Sum(g.finished, Is(key)) + Sum(g.removed, Is(key))
  {
    InitialIsExclusive(st);
    AlwaysExclusive(st, es);
    RequestsAreConserved(st, es, key);
    StuckMeansEmpty(After(st, es));
  }
}
