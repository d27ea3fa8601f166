/** The round-robin CPU scheduler: a busy/idle flag per virtual core, a virtual-to-real index, a FIFO queue. */
module RoundRobin {
  import opened Sums
  import opened CpuMessages

  const NOT_FOUND := -4

  /** `flags[v]` is true while virtual core v is idle; `index[v]` is the real core behind it. */
  datatype Sched = Sched(self: nat, quantum: int, running: bool, flags: seq<bool>, index: seq<int>, queue: seq<Msg>)

  /**
   * What one handler call does: the new state, what it sends each way, what it throws away, and whether it raised an
   * error.
   */
  datatype Effect = Effect(next: Sched, toHub: seq<Msg>, toHypervisor: seq<Msg>, removed: seq<Msg>, error: bool)

  ghost predicate WellFormed(s: Sched) {
    s.running ==> |s.index| == |s.flags|
  }

  /** The lowest idle virtual core. */
  function IdleCore(flags: seq<bool>): (v: int)
    ensures v == NOT_FOUND <==> true !in flags
    ensures v != NOT_FOUND ==> 0 <= v < |flags| && flags[v] && forall u :: 0 <= u < v ==> !flags[u]
  {
    if flags == [] then NOT_FOUND
    else if flags[0] then 0
    else var v := IdleCore(flags[1..]); if v == NOT_FOUND then v else v + 1
  }

  /** The lowest virtual core mapped to a real core. */
  function VirtualCore(index: seq<int>, realCore: int): (v: int)
    ensures v == -1 <==> realCore !in index
    ensures v != -1 ==> 0 <= v < |index| && index[v] == realCore && realCore !in index[..v]
  {
    if index == [] then -1
    else if index[0] == realCore then 0
    else
      var v := VirtualCore(index[1..], realCore);
      assert v >= 0 ==> index[..v + 1] == [index[0]] + index[1..][..v];
      if v == -1 then -1 else v + 1
  }

  /** Position of the first queued request of an application instance, or the queue length. */
  function FirstOfApp(queue: seq<Msg>, app: string): (i: nat)
    ensures i <= |queue|
    ensures i < |queue| ==> queue[i].app == app
    ensures forall j :: 0 <= j < i ==> queue[j].app != app
  {
    if queue == [] || queue[0].app == app then 0 else 1 + FirstOfApp(queue[1..], app)
  }

  function Quiet(s: Sched): Effect { Effect(s, [], [], [], false) }

  function Failed(s: Sched): Effect { Effect(s, [], [], [], true) }

  /** A request from the hypervisor. */
  function OnRequest(s: Sched, m: Msg): Effect
    requires WellFormed(s)
  {
    if m.op == AbortCpu then
      var i := FirstOfApp(s.queue, m.app);
      if i < |s.queue| then Quiet(s.(queue := Without(s.queue, i))).(removed := [s.queue[i]]) else Quiet(s)
    else if !s.running || (!m.useTime && !m.useMis) then Failed(s)
    else
      var armed := m.(quantum := s.quantum);
      var v := IdleCore(s.flags);
      if v == NOT_FOUND then Quiet(s.(queue := s.queue + [armed]))
      else Quiet(s.(flags := s.flags[v := false])).(toHub := [armed.(core := s.index[v])])
  }

  /** A slice handed back by a core. */
  function OnResponse(s: Sched, m: Msg): Effect
    requires WellFormed(s)
  {
    if !s.running then Quiet(s).(removed := [m])
    else
      var v := VirtualCore(s.index, m.core);
      if v < 0 then Failed(s)
      else
        var ready := Requeued(s.(flags := s.flags[v := true]), m);
        if ready.queue == [] then Effect(ready, [], [Report(m)], [], false)
        else Effect(DispatchHead(ready, v), [HeadFor(ready, m.core)], [Report(m)], [], false)
  }

  /** An unfinished request goes to the back of the queue. */
  function Requeued(s: Sched, m: Msg): Sched {
    if m.completed then s else s.(queue := s.queue + [m.(response := false)])
  }

  /** What the hypervisor is told: the request itself once complete, a progress report before that. */
  function Report(m: Msg): Msg {
    if m.completed then m.(response := true) else StatusCopy(m)
  }

  function DispatchHead(s: Sched, v: nat): Sched
    requires s.queue != [] && v < |s.flags|
  {
    s.(flags := s.flags[v := false], queue := s.queue[1..])
  }

  function HeadFor(s: Sched, realCore: int): Msg
    requires s.queue != []
  {
    s.queue[0].(core := realCore, quantum := s.quantum)
  }

  /** The progress report for an unfinished request is a copy; the copy loses the application instance. */
  function StatusCopy(m: Msg): Msg { m.(app := "", response := true) }

  function AbortFor(s: Sched, v: nat): Msg
    requires v < |s.index|
  {
    Msg(0, s.self, AbortCpu, "", false, 0.0, false, 0.0, 0, false, s.index[v], false, Meter(0, 0, 0))
  }

  /** Abort messages for the busy cores from `v` on. */
  function AbortsFrom(s: Sched, v: nat): seq<Msg>
    requires |s.index| == |s.flags| && v <= |s.flags|
    decreases |s.flags| - v
  {
    if v == |s.flags| then []
    else (if s.flags[v] then [] else [AbortFor(s, v)]) + AbortsFrom(s, v + 1)
  }

  lemma AbortsUnroll(s: Sched, v: nat, before: seq<Msg>)
    requires |s.index| == |s.flags| && v < |s.flags| && !s.flags[v]
    ensures before + AbortsFrom(s, v) == (before + [AbortFor(s, v)]) + AbortsFrom(s, v + 1)
  {
  }

  function OnSetRunning(s: Sched, on: bool): Effect
    requires WellFormed(s)
  {
    if s.running && !on then Effect(s.(running := on, queue := []), AbortsFrom(s, 0), [], s.queue, false)
    else Quiet(s.(running := on))
  }

  /** setManagedCpuCores: refused while running, otherwise every core starts idle. */
  function OnManage(s: Sched, managed: nat): Effect {
    if s.running then Failed(s) else Quiet(s.(flags := seq(managed, _ => true)))
  }

  // ---------------------------------------------------------------- what the handlers come to

  /**
   * A request is dropped from the queue, refused, sent to the lowest idle core or put at the end of the queue; it is
   * refused exactly when the scheduler is stopped or nothing is asked for. The hypervisor is told nothing.
   */
  lemma RequestOutcome(s: Sched, m: Msg)
    requires WellFormed(s)
    ensures var e, i, v := OnRequest(s, m), FirstOfApp(s.queue, m.app), IdleCore(s.flags);
            && e.toHypervisor == [] && e.next == s.(flags := e.next.flags, queue := e.next.queue)
            && (e.error <==> m.op == ExecCpu && (!s.running || !(m.useTime || m.useMis)))
            && (e.error ==> e.next == s && e.toHub == [] && e.removed == [])
            && (m.op == AbortCpu ==> e.toHub == [] && e.next.flags == s.flags)
            && (m.op == AbortCpu && i == |s.queue| ==> e.next.queue == s.queue && e.removed == [])
            && (m.op == AbortCpu && i < |s.queue| ==>
                  e.next.queue == s.queue[..i] + s.queue[i + 1..] && e.removed == [s.queue[i]])
            && (m.op == ExecCpu && !e.error ==> e.removed == [])
            && (m.op == ExecCpu && !e.error && true !in s.flags ==>
                  e.next.queue == s.queue + [m.(quantum := s.quantum)] && e.next.flags == s.flags && e.toHub == [])
            && (m.op == ExecCpu && !e.error && true in s.flags ==>
                  && 0 <= v < |s.flags| == |s.index| && e.next.queue == s.queue && e.next.flags == s.flags[v := false]
                  && e.toHub == [m.(quantum := s.quantum, core := s.index[v])])
  {
  }

  /** A reply counts if the scheduler runs and the reply's core is one of its own. */
  ghost predicate Accepts(s: Sched, m: Msg) {
    s.running && m.core in s.index
  }

  /** What the hypervisor is told about an accepted reply: everything, but only a finished request keeps its app. */
  ghost function Told(m: Msg): Msg {
    Msg(m.id, m.sender, m.op, if m.completed then m.app else "", m.useTime, m.cpuTime, m.useMis, m.mis, m.quantum,
        m.completed, m.core, true, m.meter)
  }

  /**
   * An accepted reply is told to the hypervisor once; if unfinished it goes to the end of the queue, and whoever then
   * is at the head gets the core. Any other reply is told to nobody and changes nothing.
   */
  lemma ReplyOutcome(s: Sched, m: Msg)
    requires WellFormed(s)
    ensures var e, v := OnResponse(s, m), VirtualCore(s.index, m.core);
            var waiting := if m.completed then s.queue else s.queue + [m.(response := false)];
            && (e.error <==> s.running && m.core !in s.index)
            && e.removed == (if s.running then [] else [m])
            && e.toHypervisor == (if Accepts(s, m) then [Told(m)] else [])
            && (!Accepts(s, m) ==> e.next == s && e.toHub == [])
            && (Accepts(s, m) ==> 0 <= v < |s.flags|)
            && (Accepts(s, m) && waiting == [] ==> e.next == s.(flags := s.flags[v := true]) && e.toHub == [])
            && (Accepts(s, m) && waiting != [] ==>
                  && e.next == s.(flags := s.flags[v := false], queue := waiting[1..])
                  && e.toHub == [waiting[0].(core := m.core, quantum := s.quantum)])
  {
    if Accepts(s, m) {
      var v := VirtualCore(s.index, m.core);
      assert s.flags[v := true][v := false] == s.flags[v := false];
    }
  }

  lemma ReplyIsTold(s: Sched, m: Msg)
    requires WellFormed(s)
    ensures OnResponse(s, m).toHypervisor == if Accepts(s, m) then [Told(m)] else []
    ensures !Accepts(s, m) ==> OnResponse(s, m).next == s && OnResponse(s, m).toHub == []
  {
  }

  // ---------------------------------------------------------------- the module itself

  ghost function Views(q: seq<CpuMessage>): seq<Msg>
    reads q
  {
    seq(|q|, i requires 0 <= i < |q| reads q => q[i].View())
  }

  class CpuSchedulerRR {
    const self: nat
    const quantum: int
    var running: bool
    var cores: seq<bool>
    var cpuCoreIndex: seq<int>
    var requestsQueue: seq<CpuMessage>

    ghost function View(): Sched
      reads this, requestsQueue
    {
      Sched(self, quantum, running, cores, cpuCoreIndex, Views(requestsQueue))
    }

    ghost predicate Valid()
      reads this, requestsQueue
    {
      WellFormed(View()) && Distinct(requestsQueue)
    }

    /** Virtual hardware starts stopped and without cores. */
    constructor (self: nat, quantum: int)
      ensures Valid() && View() == Sched(self, quantum, false, [], [], [])
    {
      this.self, this.quantum, running := self, quantum, false;
      cores, cpuCoreIndex, requestsQueue := [], [], [];
    }

    method SearchIdleCPU() returns (v: int)
      ensures v == IdleCore(cores)
    {
      for i := 0 to |cores|
        invariant forall u :: 0 <= u < i ==> !cores[u]
      {
        if cores[i] { return i; }
      }
      return NOT_FOUND;
    }

    method GetVirtualCpuIndex(realCpuIndex: int) returns (v: int)
      requires |cpuCoreIndex| == |cores|
      ensures v == VirtualCore(cpuCoreIndex, realCpuIndex)
    {
      for i := 0 to |cores|
        invariant realCpuIndex !in cpuCoreIndex[..i]
      {
        if cpuCoreIndex[i] == realCpuIndex {
          return i;
        }
      }
      assert cpuCoreIndex[..|cores|] == cpuCoreIndex;
      return -1;
    }

    method FindByApp(app: string) returns (i: nat)
      ensures i == FirstOfApp(Views(requestsQueue), app)
    {
      ghost var q := Views(requestsQueue);
      i := 0;
      while i < |requestsQueue|
        invariant i <= |requestsQueue|
        invariant forall j :: 0 <= j < i ==> q[j].app != app
      {
        if requestsQueue[i].app == app {
          assert q[i].app == app;
          return i;
        }
        assert q[i].app != app;
        i := i + 1;
      }
      assert FirstOfApp(q, app) == |q|;
    }

    method DeleteFromRequestsQueue(sm: CpuMessage) returns (found: bool, ghost gone: seq<Msg>)
      requires Valid()
      modifies this`requestsQueue
      ensures Valid()
      ensures var e := OnRequest(old(View()), sm.View().(op := AbortCpu));
              View() == e.next && gone == e.removed && found == (e.removed != [])
    {
      ghost var q := Views(requestsQueue);
      var i := FindByApp(sm.app);
      if i == |requestsQueue| {
        return false, [];
      }
      RemoveAt(i);
      return true, [q[i]];
    }

    method RemoveAt(i: nat)
      requires Valid() && i < |requestsQueue|
      modifies this`requestsQueue
      ensures Valid() && View() == old(View()).(queue := Without(old(View()).queue, i))
    {
      ghost var q := Views(requestsQueue);
      requestsQueue := Without(requestsQueue, i);
      assert Views(requestsQueue) == Without(q, i);
    }

    method ProcessRequestMessage(sm: CpuMessage) returns (toHub: seq<CpuMessage>, error: bool, ghost e: Effect)
      requires Valid() && sm !in requestsQueue
      modifies this, sm
      ensures Valid()
      ensures e == OnRequest(old(View()), old(sm.View()))
      ensures error == e.error && View() == e.next && Views(toHub) == e.toHub
      ensures toHub == [] || toHub == [sm]
    {
      e := OnRequest(View(), sm.View());
      toHub := [];
      if sm.op == AbortCpu {
        var found, gone := DeleteFromRequestsQueue(sm);
        return toHub, false, e;
      }
      if !running || (!sm.useTime && !sm.useMis) {
        return toHub, true, e;
      }
      toHub := Place(sm);
      return toHub, false, e;
    }

    /** Sets the quantum, then an idle core or the queue. */
    method Place(sm: CpuMessage) returns (toHub: seq<CpuMessage>)
      requires Valid() && running && sm !in requestsQueue
      requires sm.op != AbortCpu && (sm.useTime || sm.useMis)
      modifies this, sm
      ensures Valid()
      ensures var e := OnRequest(old(View()), old(sm.View())); View() == e.next && Views(toHub) == e.toHub
      ensures toHub == [] || toHub == [sm]
    {
      ghost var q := Views(requestsQueue);
      toHub := [];
      sm.quantum := quantum;
      assert Views(requestsQueue) == q;
      var v := SearchIdleCPU();
      if v == NOT_FOUND {
        Enqueue(sm);
      } else {
        sm.core := cpuCoreIndex[v];
        cores := cores[v := false];
        toHub := [sm];
      }
    }

    method Enqueue(sm: CpuMessage)
      requires Valid() && sm !in requestsQueue
      modifies this`requestsQueue
      ensures Valid() && requestsQueue == old(requestsQueue) + [sm]
      ensures View() == old(View()).(queue := old(View()).queue + [sm.View()])
    {
      ghost var q := Views(requestsQueue);
      requestsQueue := requestsQueue + [sm];
      assert Views(requestsQueue) == q + [sm.View()];
    }

    method ProcessResponseMessage(sm: CpuMessage)
      returns (toHub: seq<CpuMessage>, toHypervisor: seq<CpuMessage>, error: bool, ghost e: Effect)
      requires Valid() && sm !in requestsQueue
      modifies this, sm, requestsQueue
      ensures Valid()
      ensures e == OnResponse(old(View()), old(sm.View()))
      ensures error == e.error && View() == e.next
      ensures Views(toHub) == e.toHub && Views(toHypervisor) == e.toHypervisor
      ensures Views(toHypervisor) == if old(Accepts(View(), sm.View())) then [Told(old(sm.View()))] else []
    {
      ReplyIsTold(View(), sm.View());
      e := OnResponse(View(), sm.View());
      toHub, toHypervisor := [], [];
      if !running {
        return toHub, toHypervisor, false, e;
      }
      var realCpuIndex := sm.core;
      var v := GetVirtualCpuIndex(realCpuIndex);
      if v >= |cores| || v < 0 {
        return toHub, toHypervisor, true, e;
      }
      cores := cores[v := true];
      var up := ReportOrRequeue(sm);
      toHypervisor := [up];
      if requestsQueue != [] {
        var next := DispatchNext(realCpuIndex, v);
        toHub := [next];
      }
      return toHub, toHypervisor, false, e;
    }

    /** A finished request goes up; an unfinished one goes to the back of the queue and a copy goes up. */
    method ReportOrRequeue(sm: CpuMessage) returns (up: CpuMessage)
      requires Valid() && sm !in requestsQueue
      modifies this`requestsQueue, sm
      ensures Valid()
      ensures up !in requestsQueue
      ensures View() == Requeued(old(View()), old(sm.View()))
      ensures up.View() == Report(old(sm.View()))
      ensures requestsQueue == if old(sm.completed) then old(requestsQueue) else old(requestsQueue) + [sm]
    {
      ghost var q := Views(requestsQueue);
      if !sm.completed {
        up := Dup(sm);
        up.response := true;
        sm.response := false;
        assert Views(requestsQueue) == q;
        Enqueue(sm);
      } else {
        sm.response := true;
        up := sm;
        assert Views(requestsQueue) == q;
      }
    }

    method DispatchNext(realCpuIndex: int, v: nat) returns (next: CpuMessage)
      requires Valid() && requestsQueue != [] && v < |cores|
      modifies this`requestsQueue, this`cores, requestsQueue[0]
      ensures Valid()
      ensures next == old(requestsQueue[0])
      ensures View() == DispatchHead(old(View()), v)
      ensures next.View() == HeadFor(old(View()), realCpuIndex)
    {
      ghost var q := Views(requestsQueue);
      next := requestsQueue[0];
      requestsQueue := requestsQueue[1..];
      next.core := realCpuIndex;
      cores := cores[v := false];
      next.quantum := quantum;
      assert Views(requestsQueue) == q[1..];
    }

    /** The copy sent upwards as a progress report. */
    method Dup(sm: CpuMessage) returns (copy: CpuMessage)
      ensures fresh(copy) && copy.View() == sm.View().(app := "")
    {
      copy := new CpuMessage(sm.id, sm.sender);
      copy.op, copy.response, copy.core := sm.op, sm.response, sm.core;
      copy.useTime, copy.cpuTime, copy.useMis, copy.mis := sm.useTime, sm.cpuTime, sm.useMis, sm.mis;
      copy.quantum, copy.completed, copy.meter := sm.quantum, sm.completed, sm.meter;
    }

    method SetManagedCpuCores(managed: nat) returns (error: bool)
      requires Valid()
      modifies this`cores
      ensures Valid()
      ensures var e := OnManage(old(View()), managed); error == e.error && View() == e.next
      ensures error <==> old(running)
      ensures cores == if old(running) then old(cores) else seq(managed, _ => true)
    {
      if running { return true; }
      cores := seq(managed, _ => true);
      return false;
    }

    /** Nothing checks the new array's length: while running it has to be that of the flags. */
    method SetCpuCoreIndex(index: seq<int>)
      requires Valid()
      modifies this`cpuCoreIndex
      ensures View() == old(View()).(index := index)
      ensures Valid() <==> !running || |index| == |cores|
    {
      cpuCoreIndex := index;
    }

    method SetIsRunning(on: bool) returns (toHub: seq<CpuMessage>, ghost e: Effect)
      requires Valid() && (on ==> |cpuCoreIndex| == |cores|)
      modifies this`running, this`requestsQueue
      ensures Valid()
      ensures e == OnSetRunning(old(View()), on)
      ensures View() == e.next && Views(toHub) == e.toHub && (forall t :: t in toHub ==> fresh(t))
    {
      e := OnSetRunning(View(), on);
      toHub := [];
      if running && !on {
        toHub := StopAllProcess();
      }
      running := on;
    }

    method StopAllProcess() returns (toHub: seq<CpuMessage>)
      requires Valid() && running
      modifies this`requestsQueue
      ensures Valid() && View() == old(View()).(queue := [])
      ensures Views(toHub) == AbortsFrom(old(View()), 0) && (forall t :: t in toHub ==> fresh(t))
    {
      ghost var s := View();
      requestsQueue := [];
      toHub := [];
      assert AbortsFrom(s, 0) == Views(toHub) + AbortsFrom(s, 0);
      for v := 0 to |cores|
        invariant View() == s.(queue := [])
        invariant forall t :: t in toHub ==> fresh(t)
        invariant AbortsFrom(s, 0) == Views(toHub) + AbortsFrom(s, v)
      {
        if !cores[v] {
          AbortsUnroll(s, v, Views(toHub));
          var abort := StopCpu(v);
          ghost var before := Views(toHub);
          toHub := toHub + [abort];
          assert Views(toHub) == before + [AbortFor(s, v)];
        }
      }
    }

    method StopCpu(v: nat) returns (abort: CpuMessage)
      requires v < |cpuCoreIndex|
      ensures fresh(abort)
      ensures abort.View() == Msg(0, self, AbortCpu, "", false, 0.0, false, 0.0, 0, false, cpuCoreIndex[v], false,
                                  Meter(0, 0, 0))
    {
      abort := new CpuMessage(0, self);
      abort.op := AbortCpu;
      abort.core := cpuCoreIndex[v];
    }
  }
}
