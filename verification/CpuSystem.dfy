/** The CPU stack of a node as one state machine: schedulers, cores and messages; each handler call is a step. */
module CpuSystem {
  import opened Sums
  import opened CpuMessages
  import Cores = CpuCores
  import opened CoreTable
  import RR = RoundRobin

  datatype System = System(
    spec: CoreSpec,
    scheds: seq<RR.Sched>,
    table: seq<CoreState>,
    cores: seq<Cores.CoreView>,
    inbox: seq<seq<Msg>>,
    replies: seq<Msg>,
    submitted: seq<Msg>,
    finished: seq<Msg>,
    removed: seq<Msg>,
    told: seq<Msg>)

  /** Requests to one core arrive in the order they were sent; replies may arrive in any order. */
  datatype Event =
    | Submit(s: nat, m: Msg)             // the hypervisor hands a request to a scheduler
    | AbortRequest(s: nat, app: string)  // ... or asks it to drop one
    | Deliver(r: nat)                    // the oldest message on the way to core r arrives
    | Tick(r: nat)                       // the latency timer of core r fires
    | Respond(k: nat)                    // a reply arrives at the scheduler that sent the request
    | Start(s: nat, n: nat)              // a VM with n cores is placed on a stopped scheduler
    | Stop(s: nat)                       // its cores are freed and the scheduler is stopped

  function AbortOf(s: nat, app: string): Msg {
    Msg(0, s, AbortCpu, app, false, 0.0, false, 0.0, 0, false, 0, false, Meter(0, 0, 0))
  }

  /** Messages leave in order; each joins the inbox of the core it names. */
  function Post(inbox: seq<seq<Msg>>, msgs: seq<Msg>): (r: seq<seq<Msg>>)
    ensures |r| == |inbox|
    decreases |msgs|
  {
    if msgs == [] then inbox
    else
      var c := msgs[0].core;
      Post(if 0 <= c < |inbox| then inbox[c := inbox[c] + [msgs[0]]] else inbox, msgs[1..])
  }

  /** A request as an application builds it: nothing run yet, and the meter set to what it needs. */
  ghost predicate FreshRequest(m: Msg, s: nat, spec: CoreSpec)
    requires Positive(spec)
  {
    && m.sender == s && m.op == ExecCpu && !m.completed && !m.response && (m.useTime || m.useMis)
    && m.meter == Meter(TicksNeeded(Work(m), Rate(m, spec)), 0, 0)
  }

  /** The shape every state has: parallel tables, and every message where its fields say it is. */
  ghost predicate Shape(st: System) {
    && Positive(st.spec)
    && |st.table| == |st.cores| == |st.inbox|
    && (forall s :: 0 <= s < |st.scheds| ==> SchedShape(st, s))
    && (forall r :: 0 <= r < |st.cores| ==> CoreShape(st, r))
    && (forall k :: 0 <= k < |st.replies| ==> ReplyShape(st, st.replies[k]))
  }

  ghost predicate SchedShape(st: System, s: nat)
    requires s < |st.scheds|
  {
    var x := st.scheds[s];
    && x.self == s && (x.quantum > 0 || x.quantum == INFINITE_QUANTUM)
    && (x.running ==> |x.index| == |x.flags| > 0 && InTable(x.index, st.table) && Distinct(x.index))
    && (!x.running ==> x.queue == [])
    && forall i :: 0 <= i < |x.queue| ==> x.queue[i].sender == s && x.queue[i].op == ExecCpu
  }

  ghost predicate CoreShape(st: System, r: nat)
    requires r < |st.cores| == |st.inbox|
  {
    && (st.cores[r].armed <==> st.cores[r].pending.Some?)
    && (st.cores[r].pending.Some? ==>
          AtCoreShape(st, r, st.cores[r].pending.value) && st.cores[r].pending.value.op == ExecCpu)
    && forall i :: 0 <= i < |st.inbox[r]| ==>
         && AtCoreShape(st, r, st.inbox[r][i])
         && (st.inbox[r][i].op == ExecCpu ==> st.inbox[r][i].quantum == st.scheds[st.inbox[r][i].sender].quantum)
  }

  ghost predicate AtCoreShape(st: System, r: nat, m: Msg) {
    m.core == r && m.sender < |st.scheds|
  }

  ghost predicate ReplyShape(st: System, m: Msg) {
    m.op == ExecCpu && m.response && 0 <= m.core < |st.cores| && m.sender < |st.scheds|
  }

  ghost predicate Enabled(st: System, e: Event)
    requires Shape(st)
  {
    match e
    case Submit(s, m) => s < |st.scheds| && st.scheds[s].running && FreshRequest(m, s, st.spec)
    case AbortRequest(s, app) => s < |st.scheds|
    case Deliver(r) => r < |st.cores| && st.inbox[r] != []
    case Tick(r) => r < |st.cores| && st.cores[r].armed
    case Respond(k) => k < |st.replies|
    case Start(s, n) => s < |st.scheds| && !st.scheds[s].running && 0 < n <= |FreeList(st.table)|
    case Stop(s) => s < |st.scheds| && st.scheds[s].running
  }

  function PendingAsSeq(c: Cores.CoreView): seq<Msg> {
    if c.pending.Some? then [c.pending.value] else []
  }

  ghost function Next(st: System, e: Event): System
    requires Shape(st) && Enabled(st, e)
  {
    match e
    case Submit(s, m) =>
      assert SchedShape(st, s);
      var x := RR.OnRequest(st.scheds[s], m);
      st.(scheds := st.scheds[s := x.next], inbox := Post(st.inbox, x.toHub), submitted := st.submitted + [m],
          told := st.told + x.toHypervisor)
    case AbortRequest(s, app) =>
      assert SchedShape(st, s);
      var x := RR.OnRequest(st.scheds[s], AbortOf(s, app));
      st.(scheds := st.scheds[s := x.next], removed := st.removed + x.removed, told := st.told + x.toHypervisor)
    case Deliver(r) =>
      var m := st.inbox[r][0];
      st.(inbox := st.inbox[r := st.inbox[r][1..]],
          cores := st.cores[r := Cores.OnRequest(st.cores[r], m, st.spec).0],
          removed := st.removed + if m.op == AbortCpu then PendingAsSeq(st.cores[r]) else [])
    case Tick(r) =>
      assert CoreShape(st, r);
      (match Cores.OnTimer(st.cores[r].pending.value, st.spec)
       case Reply(m) => st.(cores := st.cores[r := Cores.IDLE], replies := st.replies + [m])
       case Continue(m) => st.(cores := st.cores[r := Cores.CoreView(Some(m), true)]))
    case Respond(k) =>
      var m := st.replies[k];
      var s := m.sender;
      assert ReplyShape(st, m) && SchedShape(st, s);
      var x := RR.OnResponse(st.scheds[s], m);
      st.(scheds := st.scheds[s := x.next],
          inbox := Post(st.inbox, x.toHub),
          replies := Without(st.replies, k),
          finished := st.finished + if st.scheds[s].running && m.completed then [m] else [],
          removed := st.removed + x.removed,
          told := st.told + x.toHypervisor)
    case Start(s, n) =>
      var idle := RR.OnManage(st.scheds[s], n).next.(index := AllocIndex(st.table, n));
      var x := RR.OnSetRunning(idle, true);
      st.(scheds := st.scheds[s := x.next],
          table := Take(st.table, Chosen(st.table, n), 0),
          told := st.told + x.toHypervisor)
    case Stop(s) =>
      assert SchedShape(st, s);
      var x := RR.OnSetRunning(st.scheds[s], false);
      st.(scheds := st.scheds[s := x.next],
          inbox := Post(st.inbox, x.toHub),
          table := Release(st.table, st.scheds[s].index, 0),
          removed := st.removed + x.removed,
          told := st.told + x.toHypervisor)
  }

  // ---------------------------------------------------------------- who holds which core

  /** Requests of scheduler s among a sequence of messages. */
  ghost function ExecOf(s: nat): Msg -> nat {
    (m: Msg) => if m.op == ExecCpu && m.sender == s then 1 else 0
  }

  /** Replies to scheduler s from core r. */
  ghost function ReplyTo(s: nat, r: nat): Msg -> nat {
    (m: Msg) => if m.sender == s && m.core == r then 1 else 0
  }

  /** Requests of s that core r holds or will receive. */
  ghost function AtCore(st: System, s: nat, r: nat): nat
    requires r < |st.cores| == |st.inbox|
  {
    var c := st.cores[r];
    Sum(st.inbox[r], ExecOf(s)) + if c.pending.Some? && c.pending.value.sender == s then 1 else 0
  }

  /** Requests of s in flight on core r: on the way there, on the core, or on the way back. */
  ghost function InFlight(st: System, s: nat, r: nat): nat
    requires r < |st.cores| == |st.inbox|
  {
    AtCore(st, s, r) + Sum(st.replies, ReplyTo(s, r))
  }

  /** s has marked the virtual core behind r as busy. */
  ghost predicate BusyOn(x: RR.Sched, r: int) {
    exists v :: 0 <= v < |x.index| && v < |x.flags| && x.index[v] == r && !x.flags[v]
  }

  /** Whose request core r will hold once its inbox is empty, if no timer fires meanwhile. */
  ghost function Holder(st: System, r: nat): Option<nat>
    requires r < |st.cores| == |st.inbox|
  {
    var box := st.inbox[r];
    if box == [] then (if st.cores[r].pending.Some? then Some(st.cores[r].pending.value.sender) else None)
    else if box[|box| - 1].op == ExecCpu then Some(box[|box| - 1].sender)
    else None
  }

  /** No execute request in the inbox can find the core occupied. */
  ghost predicate InboxSafe(c: Cores.CoreView, box: seq<Msg>) {
    && (box != [] && box[0].op == ExecCpu ==> !c.pending.Some?)
    && forall i :: 1 <= i < |box| && box[i].op == ExecCpu ==> box[i - 1].op != ExecCpu
  }

  ghost predicate CoreExclusive(st: System, r: nat)
    requires r < |st.cores| == |st.inbox|
  {
    && InboxSafe(st.cores[r], st.inbox[r])
    && (Holder(st, r).Some? ==> Holder(st, r).value < |st.scheds| && st.scheds[Holder(st, r).value].running)
  }

  /** The flags of a running scheduler count its requests exactly. */
  ghost predicate FlagsExact(st: System, s: nat, r: nat)
    requires s < |st.scheds| && r < |st.cores| == |st.inbox|
  {
    && AtCore(st, s, r) == (if Holder(st, r) == Some(s) then 1 else 0)
    && InFlight(st, s, r) == (if BusyOn(st.scheds[s], r) then 1 else 0)
  }

  ghost predicate OwnersDisjoint(st: System) {
    forall s, t, u, v ::
      && 0 <= s < |st.scheds| && 0 <= t < |st.scheds| && s != t
      && st.scheds[s].running && st.scheds[t].running
      && 0 <= u < |st.scheds[s].index| && 0 <= v < |st.scheds[t].index|
      ==> st.scheds[s].index[u] != st.scheds[t].index[v]
  }

  ghost predicate OwnedCoresTaken(st: System) {
    forall s, u :: 0 <= s < |st.scheds| && st.scheds[s].running && 0 <= u < |st.scheds[s].index| ==>
      0 <= st.scheds[s].index[u] < |st.table| && !st.table[st.scheds[s].index[u]].free
  }

  /** While a request waits, every core of its scheduler is busy. */
  ghost predicate WorkConserving(x: RR.Sched) {
    x.running && x.queue != [] ==> true !in x.flags
  }

  ghost predicate Exclusive(st: System) {
    && Shape(st)
    && OwnersDisjoint(st)
    && OwnedCoresTaken(st)
    && (forall r :: 0 <= r < |st.cores| ==> CoreExclusive(st, r))
    && (forall s, r :: 0 <= s < |st.scheds| && st.scheds[s].running && 0 <= r < |st.cores| ==> FlagsExact(st, s, r))
    && (forall s :: 0 <= s < |st.scheds| ==> WorkConserving(st.scheds[s]))
  }

  /** Nothing of scheduler s is left on a core, on the way to one, or on the way back. */
  ghost predicate Drained(st: System, s: nat)
    requires |st.cores| == |st.inbox|
  {
    forall r :: 0 <= r < |st.cores| ==> InFlight(st, s, r) == 0
  }

  /** A node at rest: idle cores, stopped schedulers. */
  ghost predicate Initial(st: System) {
    && Positive(st.spec)
    && |st.table| == |st.cores| == |st.inbox|
    && (forall r :: 0 <= r < |st.cores| ==> st.cores[r] == Cores.IDLE && st.inbox[r] == [])
    && (forall s :: 0 <= s < |st.scheds| ==>
          && st.scheds[s].self == s && !st.scheds[s].running && st.scheds[s].queue == []
          && (st.scheds[s].quantum > 0 || st.scheds[s].quantum == INFINITE_QUANTUM))
    && st.replies == [] && st.submitted == [] && st.finished == [] && st.removed == [] && st.told == []
  }

  /** Every step of the run can be taken when its turn comes. */
  ghost predicate Possible(st: System, es: seq<Event>)
    decreases |es|
  {
    es == [] || (Shape(st) && Enabled(st, es[0]) && Possible(Next(st, es[0]), es[1..]))
  }

  ghost function After(st: System, es: seq<Event>): System
    requires Possible(st, es)
    decreases |es|
  {
    if es == [] then st else After(Next(st, es[0]), es[1..])
  }

  /** Every restart in the run waits until what the scheduler sent before has come to rest. */
  ghost predicate RestartsDrained(st: System, es: seq<Event>)
    requires Possible(st, es)
    decreases |es|
  {
    es == [] || ((es[0].Start? ==> Drained(st, es[0].s)) && RestartsDrained(Next(st, es[0]), es[1..]))
  }
}
