/** One CPU core: it burns a request one tick at a time until the request or its quantum is over. */
module CpuCores {
  import opened Sums
  import opened CpuMessages

  /** What a core holds; `armed` says that its latency timer is scheduled. */
  datatype CoreView = CoreView(pending: Option<Msg>, armed: bool)

  /** Outcomes of a request: the last two stop the simulation. */
  datatype Outcome = Working | Cancelled | ZeroQuantum | TimerAlreadyScheduled

  datatype TimerResult = Reply(m: Msg) | Continue(m: Msg)

  const IDLE := CoreView(None, false)

  function BeginSlice(m: Msg): Msg {
    m.(meter := m.meter.(slices := m.meter.slices + 1))
  }

  function OnRequest(c: CoreView, m: Msg, spec: CoreSpec): (CoreView, Outcome) {
    if m.op == AbortCpu then (IDLE, Cancelled)
    else if m.quantum <= 0 && m.quantum != INFINITE_QUANTUM then (c.(pending := Some(BeginSlice(m))), ZeroQuantum)
    else (CoreView(Some(Executed(BeginSlice(m), spec)), true),
          if c.armed then TimerAlreadyScheduled else Working)
  }

  function OnTimer(m: Msg, spec: CoreSpec): TimerResult {
    if m.completed || m.quantum == 0 then Reply(m.(response := true)) else Continue(Executed(m, spec))
  }

  class CpuCore {
    const spec: CoreSpec
    var pendingMessage: CpuMessage?
    var latencyScheduled: bool

    ghost function View(): CoreView
      reads this, pendingMessage
    {
      CoreView(if pendingMessage == null then None else Some(pendingMessage.View()), latencyScheduled)
    }

    constructor (tick: real, speed: real)
      ensures View() == IDLE
      ensures spec == CoreSpec(tick, speed * tick)
    {
      spec, pendingMessage, latencyScheduled := CoreSpec(tick, speed * tick), null, false;
    }

    /** A request takes the core whatever it held before: nothing here looks at `pendingMessage`. */
    method ProcessRequestMessage(sm: CpuMessage) returns (outcome: Outcome)
      modifies this, sm
      ensures (View(), outcome) == OnRequest(old(View()), old(sm.View()), spec)
      ensures outcome == Cancelled ==> sm.View() == old(sm.View())
      ensures outcome != Cancelled ==> pendingMessage == sm
    {
      if sm.op == AbortCpu {
        pendingMessage := null;
        latencyScheduled := false;
        return Cancelled;
      }
      pendingMessage := sm;
      sm.meter := sm.meter.(slices := sm.meter.slices + 1);
      if sm.quantum <= 0 && sm.quantum != INFINITE_QUANTUM {
        return ZeroQuantum;
      }
      ExecuteTick(sm);
      outcome := if latencyScheduled then TimerAlreadyScheduled else Working;
      latencyScheduled := true;
    }

    method ExecuteTick(sm: CpuMessage)
      modifies sm
      ensures sm.View() == Executed(old(sm.View()), spec)
    {
      if sm.useTime {
        sm.ExecuteTime(spec.tick);
      } else {
        sm.ExecuteMIs(spec.ipt);
      }
    }

    /** The latency timer: hand the request back, or burn another tick. */
    method ProcessSelfMessage() returns (reply: CpuMessage?)
      requires latencyScheduled && pendingMessage != null
      modifies this, pendingMessage
      ensures var was := OnTimer(old(pendingMessage.View()), spec);
              match was
              case Reply(m) => reply == old(pendingMessage) && reply.View() == m && View() == IDLE
              case Continue(m) => reply == null && View() == CoreView(Some(m), true)
                                  && pendingMessage == old(pendingMessage)
    {
      latencyScheduled := false;
      var sm := pendingMessage;
      if sm.completed || sm.quantum == 0 {
        pendingMessage := null;
        sm.response := true;
        return sm;
      }
      ExecuteTick(sm);
      latencyScheduled := true;
      return null;
    }
  }

  /** When each outcome of a request arises, and what the core holds then. */
  lemma OutcomeIff(c: CoreView, m: Msg, spec: CoreSpec)
    ensures var (d, o) := OnRequest(c, m, spec);
            var stuck := m.quantum <= 0 && m.quantum != INFINITE_QUANTUM;
            && (o == Cancelled <==> m.op == AbortCpu)
            && (o == ZeroQuantum <==> m.op == ExecCpu && stuck)
            && (o == TimerAlreadyScheduled <==> m.op == ExecCpu && !stuck && c.armed)
            && (m.op == AbortCpu ==> !d.pending.Some? && !d.armed)
            && (m.op == ExecCpu ==>
                  && d.pending.Some? && d.armed == (c.armed || !stuck)
                  && d.pending.value.id == m.id && d.pending.value.sender == m.sender
                  && d.pending.value.meter.slices == m.meter.slices + 1
                  && d.pending.value.meter.ran == m.meter.ran + if stuck then 0 else 1)
  {
  }

  /** The timer hands a request back, marked as a response and otherwise as it is, exactly at the end of its slice. */
  lemma HandedBackIff(m: Msg, spec: CoreSpec)
    ensures OnTimer(m, spec).Reply? <==> m.completed || m.quantum == 0
    ensures OnTimer(m, spec).Reply? ==>
      OnTimer(m, spec).m == Msg(m.id, m.sender, m.op, m.app, m.useTime, m.cpuTime, m.useMis, m.mis, m.quantum,
                                m.completed, m.core, true, m.meter)
    ensures OnTimer(m, spec).Continue? ==> OnTimer(m, spec).m.meter == m.meter.(ran := m.meter.ran + 1)
  {
  }

  // ---------------------------------------------------------------- exact slices

  /** Fires the timer until the core replies: the reply and how many times the timer fired. */
  function Slice(m: Msg, spec: CoreSpec): (Msg, nat)
    requires Positive(spec)
    decreases Remaining(m, spec)
  {
    match OnTimer(m, spec)
    case Reply(r) => (r, 1)
    case Continue(m') =>
      TickLowersRemaining(m, spec);
      var (r, n) := Slice(m', spec);
      (r, n + 1)
  }

  /** Ticks in the next slice of a request that still needs `remaining` ticks. */
  function SliceTicks(remaining: nat, quantum: int): nat
    requires quantum > 0 || quantum == INFINITE_QUANTUM
  {
    if quantum == INFINITE_QUANTUM || remaining < quantum then remaining else quantum
  }

  lemma {:induction false} SliceOnCore(m: Msg, spec: CoreSpec)
    requires Positive(spec) && (m.quantum >= 0 || m.quantum == INFINITE_QUANTUM)
    ensures var extra := if m.quantum == INFINITE_QUANTUM || Remaining(m, spec) < m.quantum
                         then Remaining(m, spec) else m.quantum;
            && Slice(m, spec).1 == extra + 1
            && Slice(m, spec).0.meter == m.meter.(ran := m.meter.ran + extra)
            && Remaining(Slice(m, spec).0, spec) == Remaining(m, spec) - extra
    decreases Remaining(m, spec)
  {
    if !m.completed && m.quantum != 0 {
      TickLowersRemaining(m, spec);
      SliceOnCore(Executed(m, spec), spec);
    }
  }

  /**
   * A slice given to an idle core by a request needing r ticks under quantum q lasts exactly
   * min(q, r) ticks of the timer (r for the infinite quantum) and leaves r minus that many.
   */
  lemma SliceIsExact(m: Msg, spec: CoreSpec)
    requires Positive(spec) && !m.completed && m.op == ExecCpu
    requires m.quantum > 0 || m.quantum == INFINITE_QUANTUM
    ensures OnRequest(IDLE, m, spec).1 == Working
    ensures var ticks := SliceTicks(Remaining(m, spec), m.quantum);
            var (reply, fired) := Slice(OnRequest(IDLE, m, spec).0.pending.value, spec);
            && fired == ticks
            && reply.meter == Meter(m.meter.need, m.meter.ran + ticks, m.meter.slices + 1)
            && Remaining(reply, spec) == Remaining(m, spec) - ticks
            && (reply.completed <==> ticks == Remaining(m, spec))
  {
    var b := BeginSlice(m);
    TickLowersRemaining(b, spec);
    SliceOnCore(Executed(b, spec), spec);
  }
}
