/** CPU requests: the mutable message, its value, and how many ticks it needs. */
module CpuMessages {

  const INFINITE_QUANTUM := -1

  datatype Operation = ExecCpu | AbortCpu

  /** Instrumentation: ticks the request needs, ticks it has run, slices it has been given. */
  datatype Meter = Meter(need: nat, ran: nat, slices: nat)

  /** Speed of a core: seconds per tick, and instructions (in MIs) per tick. */
  datatype CoreSpec = CoreSpec(tick: real, ipt: real)

  /** The value of a CPU message. `sender` is the return route its trace records. */
  datatype Msg = Msg(
    id: nat, sender: nat, op: Operation, app: string,
    useTime: bool, cpuTime: real, useMis: bool, mis: real,
    quantum: int, completed: bool, core: int, response: bool, meter: Meter)

  function Countdown(quantum: int): int {
    if quantum == INFINITE_QUANTUM then quantum else quantum - 1
  }

  function Lowered(amount: real, step: real): real {
    if amount - step > 0.0 then amount - step else 0.0
  }

  function ExecutedMis(m: Msg, amount: real): Msg {
    m.(quantum := Countdown(m.quantum),
       mis := Lowered(m.mis, amount),
       completed := m.completed || m.mis - amount <= 0.0,
       meter := m.meter.(ran := m.meter.ran + 1))
  }

  function ExecutedTime(m: Msg, amount: real): Msg {
    m.(quantum := Countdown(m.quantum),
       cpuTime := Lowered(m.cpuTime, amount),
       completed := m.completed || m.cpuTime - amount <= 0.0,
       meter := m.meter.(ran := m.meter.ran + 1))
  }

  /** One tick of a core: a request in time units burns a tick of time, any other burns instructions. */
  function Executed(m: Msg, spec: CoreSpec): Msg {
    if m.useTime then ExecutedTime(m, spec.tick) else ExecutedMis(m, spec.ipt)
  }

  class CpuMessage {
    const id: nat
    var sender: nat
    var op: Operation
    var app: string
    var useTime: bool
    var cpuTime: real
    var useMis: bool
    var mis: real
    var quantum: int
    var completed: bool
    var core: int
    var response: bool
    ghost var meter: Meter

    ghost function View(): Msg
      reads this
    {
      Msg(id, sender, op, app, useTime, cpuTime, useMis, mis, quantum, completed, core, response, meter)
    }

    /** A blank message: the defaults of the message definition. */
    constructor (id: nat, sender: nat)
      ensures View() == Msg(id, sender, ExecCpu, "", false, 0.0, false, 0.0, 0, false, 0, false, Meter(0, 0, 0))
    {
      this.id, this.sender, op, app := id, sender, ExecCpu, "";
      useTime, cpuTime, useMis, mis := false, 0.0, false, 0.0;
      quantum, completed, core, response, meter := 0, false, 0, false, Meter(0, 0, 0);
    }

    method ExecuteMIs(numberMIs: real)
      modifies this
      ensures View() == ExecutedMis(old(View()), numberMIs)
    {
      if quantum != INFINITE_QUANTUM {
        quantum := quantum - 1;
      }
      if mis - numberMIs > 0.0 {
        mis := mis - numberMIs;
      } else {
        mis := 0.0;
        completed := true;
      }
      meter := meter.(ran := meter.ran + 1);
    }

    method ExecuteTime(executedTime: real)
      modifies this
      ensures View() == ExecutedTime(old(View()), executedTime)
    {
      var remainingTime := cpuTime;
      if quantum != INFINITE_QUANTUM {
        quantum := quantum - 1;
      }
      if remainingTime - executedTime > 0.0 {
        cpuTime := remainingTime - executedTime;
      } else {
        cpuTime := 0.0;
        completed := true;
      }
      meter := meter.(ran := meter.ran + 1);
    }
  }

  // ---------------------------------------------------------------- ticks a request needs

  function Ceil(x: real): int {
    -(-x).Floor
  }

  /** max(1, ceil(work / rate)). */
  function TicksNeeded(work: real, rate: real): nat
    requires rate > 0.0
  {
    if Ceil(work / rate) < 1 then 1 else Ceil(work / rate)
  }

  ghost predicate Positive(spec: CoreSpec) {
    spec.tick > 0.0 && spec.ipt > 0.0
  }

  function Work(m: Msg): real { if m.useTime then m.cpuTime else m.mis }

  function Rate(m: Msg, spec: CoreSpec): real { if m.useTime then spec.tick else spec.ipt }

  /** Ticks still to run. */
  function Remaining(m: Msg, spec: CoreSpec): nat
    requires Positive(spec)
  {
    if m.completed then 0 else TicksNeeded(Work(m), Rate(m, spec))
  }

  lemma MulPositive(a: real, b: real)
    requires a > 0.0 && b > 0.0
    ensures a * b > 0.0
  {
  }

  lemma TicksNeededStep(work: real, rate: real)
    requires rate > 0.0
    ensures work - rate <= 0.0 <==> TicksNeeded(work, rate) == 1
    ensures work - rate > 0.0 ==> TicksNeeded(work - rate, rate) == TicksNeeded(work, rate) - 1
  {
    var x := work / rate;
    assert x * rate == work;
    var y := (work - rate) / rate;
    assert y * rate == work - rate;
    assert (y - (x - 1.0)) * rate == 0.0;
    if y > x - 1.0 { MulPositive(y - (x - 1.0), rate); }
    if y < x - 1.0 { MulPositive((x - 1.0) - y, rate); }
    assert work - rate <= 0.0 <==> x <= 1.0 by {
      if x <= 1.0 { assert x * rate <= 1.0 * rate; }
      if x > 1.0 { assert x * rate > 1.0 * rate; }
    }
    assert (-(x - 1.0)).Floor == (-x).Floor + 1;
  }

  /** A tick on an unfinished request lowers what remains by exactly one, and completes it at zero. */
  lemma TickLowersRemaining(m: Msg, spec: CoreSpec)
    requires Positive(spec) && !m.completed
    ensures Remaining(Executed(m, spec), spec) == Remaining(m, spec) - 1
    ensures Executed(m, spec).completed <==> Remaining(m, spec) == 1
  {
    TicksNeededStep(Work(m), Rate(m, spec));
  }

  /** `n` ticks in a row. */
  function Ticks(m: Msg, spec: CoreSpec, n: nat): Msg
    decreases n
  {
    if n == 0 then m else Ticks(Executed(m, spec), spec, n - 1)
  }

  /** At a positive rate, a request is complete after n ticks if and only if n >= max(1, ceil(work / rate)). */
  lemma {:induction false} ExactWork(m: Msg, spec: CoreSpec, n: nat)
    requires Positive(spec) && !m.completed
    ensures Ticks(m, spec, n).completed <==> n >= TicksNeeded(Work(m), Rate(m, spec))
    decreases n
  {
    if n > 0 {
      TickLowersRemaining(m, spec);
      if Executed(m, spec).completed {
        CompletedStays(Executed(m, spec), spec, n - 1);
      } else {
        ExactWork(Executed(m, spec), spec, n - 1);
      }
    }
  }

  lemma NeededMeans(work: real, rate: real, n: nat)
    requires rate > 0.0
    ensures n >= TicksNeeded(work, rate) <==> n >= 1 && n as real * rate >= work
  {
    var x := work / rate;
    assert x * rate == work;
    if n as real >= x { MulMonotone(x, n as real, rate); } else { MulStrict(n as real, x, rate); }
    assert Ceil(x) <= n <==> x <= n as real;
  }

  lemma MulMonotone(a: real, b: real, c: real)
    requires a <= b && c > 0.0
    ensures a * c <= b * c
  {
  }

  lemma MulStrict(a: real, b: real, c: real)
    requires a < b && c > 0.0
    ensures a * c < b * c
  {
  }

  /**
   * A request in time units is complete after n ticks exactly when n ticks last as long as it asks, any other when the
   * core runs that many instructions in n ticks; one tick is always needed.
   */
  lemma CompleteAfter(m: Msg, spec: CoreSpec, n: nat)
    requires Positive(spec) && !m.completed
    ensures m.useTime ==> (Ticks(m, spec, n).completed <==> n >= 1 && n as real * spec.tick >= m.cpuTime)
    ensures !m.useTime ==> (Ticks(m, spec, n).completed <==> n >= 1 && n as real * spec.ipt >= m.mis)
  {
    ExactWork(m, spec, n);
    NeededMeans(Work(m), Rate(m, spec), n);
  }

  lemma {:induction false} CompletedStays(m: Msg, spec: CoreSpec, n: nat)
    requires m.completed
    ensures Ticks(m, spec, n).completed
    decreases n
  {
    if n > 0 { CompletedStays(Executed(m, spec), spec, n - 1); }
  }

  ghost predicate CompletesBy(m: Msg, spec: CoreSpec, n: nat) { Ticks(m, spec, n).completed }

  ghost predicate CompletesSometime(m: Msg, spec: CoreSpec) { exists n: nat :: CompletesBy(m, spec, n) }

  /** A request completes at all exactly when the core makes progress or one tick is enough. */
  lemma CompletesIff(m: Msg, spec: CoreSpec)
    requires !m.completed
    ensures CompletesSometime(m, spec) <==> Rate(m, spec) > 0.0 || Work(m) <= Rate(m, spec)
  {
    var rate := Rate(m, spec);
    if Work(m) <= rate {
      var n: nat := 1;
      assert Ticks(m, spec, n) == Ticks(Executed(m, spec), spec, 0) == Executed(m, spec);
      assert CompletesBy(m, spec, n);
    } else if rate > 0.0 {
      var n := TicksNeeded(Work(m), rate);
      OnlyOwnRateMatters(m, spec, CoreSpec(rate, rate), n);
      ExactWork(m, CoreSpec(rate, rate), n);
      assert CompletesBy(m, spec, n);
    } else {
      forall n: nat ensures !CompletesBy(m, spec, n) { NoProgress(m, spec, n); }
    }
  }

  lemma {:induction false} NoProgress(m: Msg, spec: CoreSpec, n: nat)
    requires !m.completed && Rate(m, spec) <= 0.0 && Work(m) > Rate(m, spec)
    ensures !Ticks(m, spec, n).completed
    decreases n
  {
    if n > 0 && Work(m) - Rate(m, spec) > 0.0 { NoProgress(Executed(m, spec), spec, n - 1); }
  }

  lemma {:induction false} OnlyOwnRateMatters(m: Msg, a: CoreSpec, b: CoreSpec, n: nat)
    requires Rate(m, a) == Rate(m, b)
    ensures Ticks(m, a, n) == Ticks(m, b, n)
    decreases n
  {
    if n > 0 { OnlyOwnRateMatters(Executed(m, a), a, b, n - 1); }
  }
}
