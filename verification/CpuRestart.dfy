/** A scheduler may be restarted exactly when it has drained; else some run overwrites a core or refuses a reply. */
module CpuRestart {
  import opened Sums
  import opened CpuMessages
  import Cores = CpuCores
  import opened CoreTable
  import RR = RoundRobin
  import opened CpuSystem
  import opened CpuSafety

  /** Core r holds a request and the next message it gets is another one. */
  ghost predicate Clash(st: System, r: int) {
    && 0 <= r < |st.cores| == |st.inbox| && st.cores[r].pending.Some?
    && st.inbox[r] != [] && st.inbox[r][0].op == ExecCpu
  }

  /** The k-th reply will be refused: its core means nothing to the scheduler it goes to. */
  ghost predicate Refused(st: System, k: int) {
    0 <= k < |st.replies| && !ReplyAccepted(st, st.replies[k])
  }

  ghost predicate Faulty(st: System) {
    (exists r :: Clash(st, r)) || (exists k :: Refused(st, k))
  }

  lemma UndisturbedHasNoFault(st: System)
    requires Shape(st) && Undisturbed(st)
    ensures !Faulty(st)
  {
    forall k | 0 <= k < |st.replies| ensures !Refused(st, k) { assert ReplyAccepted(st, st.replies[k]); }
  }

  // ---------------------------------------------------------------- runs that lead to a goal

  ghost predicate NoStarts(es: seq<Event>) { forall i :: 0 <= i < |es| ==> !es[i].Start? }

  ghost predicate LeadsTo(st: System, es: seq<Event>, goal: System -> bool) {
    Possible(st, es) && NoStarts(es) && goal(After(st, es))
  }

  /** Some run without restarts reaches the goal. */
  ghost predicate Reaches(st: System, goal: System -> bool) { exists es :: LeadsTo(st, es, goal) }

  ghost function Clashing(r: int): System -> bool { (x: System) => Clash(x, r) }

  ghost function Fault(): System -> bool { (x: System) => Faulty(x) }

  lemma ReachesNow(st: System, goal: System -> bool)
    requires goal(st)
    ensures Reaches(st, goal)
  {
    assert LeadsTo(st, [], goal);
  }

  lemma ReachesBy(st: System, e: Event, goal: System -> bool)
    requires Shape(st) && Enabled(st, e) && !e.Start? && Reaches(Next(st, e), goal)
    ensures Reaches(st, goal)
  {
    var es :| LeadsTo(Next(st, e), es, goal);
    OneStep(st, e, es);
    assert LeadsTo(st, [e] + es, goal);
  }

  lemma ClashIsFault(st: System, r: int)
    requires Reaches(st, Clashing(r))
    ensures Reaches(st, Fault())
  {
    var es :| LeadsTo(st, es, Clashing(r));
    assert Clash(After(st, es), r);
    assert LeadsTo(st, es, Fault());
  }

  lemma {:induction false} NoStartsIsDrained(st: System, es: seq<Event>)
    requires Possible(st, es) && NoStarts(es)
    ensures RestartsDrained(st, es)
    decreases |es|
  {
    if es != [] { NoStartsIsDrained(Next(st, es[0]), es[1..]); }
  }

  // ---------------------------------------------------------------- from two requests in a row to a clash

  /** Two requests in a row on the way to a core: once the first is there, the second overwrites it. */
  lemma {:induction false} DeliverUpTo(st: System, r: nat, i: nat)
    requires Shape(st) && r < |st.cores| && i + 1 < |st.inbox[r]|
    requires st.inbox[r][i].op == ExecCpu && st.inbox[r][i + 1].op == ExecCpu
    ensures Reaches(st, Clashing(r))
    decreases i
  {
    var g := Next(st, Deliver(r));
    DeliverShape(st, r);
    if i == 0 {
      assert Clash(g, r);
      ReachesNow(g, Clashing(r));
    } else {
      DeliverUpTo(g, r, i - 1);
    }
    ReachesBy(st, Deliver(r), Clashing(r));
  }

  /** A message as an application may always send it. */
  ghost function AnyRequest(s: nat, spec: CoreSpec): (m: Msg)
    requires Positive(spec)
    ensures FreshRequest(m, s, spec)
  {
    Msg(0, s, ExecCpu, "", true, 1.0, false, 0.0, 0, false, 0, false, Meter(TicksNeeded(1.0, spec.tick), 0, 0))
  }

  /** A reply to s from the real core behind its virtual core v. */
  ghost predicate ReplyFor(st: System, s: nat, v: nat, k: nat) {
    && s < |st.scheds| && st.scheds[s].running && st.scheds[s].queue == []
    && v < |st.scheds[s].index| == |st.scheds[s].flags|
    && k < |st.replies| && st.replies[k].sender == s && st.replies[k].core == st.scheds[s].index[v]
  }

  lemma DispatchedTwice(st: System, g: System, s: nat, v: nat, m: Msg)
    requires s < |st.scheds| && Dispatches(st, g, s, v, m) && Shape(st) && Shape(g)
    requires var box := st.inbox[st.scheds[s].index[v]]; box != [] && box[|box| - 1].op == ExecCpu
    ensures Reaches(g, Clashing(st.scheds[s].index[v]))
  {
    var r := st.scheds[s].index[v];
    DeliverUpTo(g, r, |st.inbox[r]| - 1);
  }

  lemma VirtualCoreOf(index: seq<int>, v: nat)
    requires Distinct(index) && v < |index|
    ensures RR.VirtualCore(index, index[v]) == v
  {
    var u := RR.VirtualCore(index, index[v]);
    assert index[v] in index;
    assert forall w :: 0 <= w < u ==> index[..u][w] == index[w];
  }

  lemma IdleCoreIs(flags: seq<bool>, v: nat)
    requires v < |flags| && flags[v] && forall u :: 0 <= u < v ==> !flags[u]
    ensures RR.IdleCore(flags) == v
  {
    assert flags[v] in flags;
  }

  lemma IdleCoreMoves(flags: seq<bool>, u: nat, v: nat)
    requires RR.IdleCore(flags) == u && u < v < |flags| && flags[v]
    ensures u < RR.IdleCore(flags[u := false]) <= v
  {
    assert flags[u := false][v] in flags[u := false];
  }

  lemma UnfinishedReply(st: System, s: nat, v: nat, k: nat)
    requires Shape(st) && ReplyFor(st, s, v, k) && !st.replies[k].completed
    ensures Enabled(st, Respond(k)) && Shape(Next(st, Respond(k)))
    ensures exists m :: Dispatches(st, Next(st, Respond(k)), s, v, m)
  {
    var g, m, x := Next(st, Respond(k)), st.replies[k], st.scheds[s];
    assert ReplyShape(st, m) && SchedShape(st, s);
    VirtualCoreOf(x.index, v);
    var ready := RR.Requeued(x.(flags := x.flags[v := true]), m);
    assert ready.queue == [m.(response := false)];
    var sent := RR.HeadFor(ready, m.core);
    assert x.flags[v := true][v := false] == x.flags[v := false];
    assert Post(st.inbox, [sent]) == st.inbox[m.core := st.inbox[m.core] + [sent]];
    assert Dispatches(st, g, s, v, sent) && SchedShape(g, s);
    WithoutSubset(st, k);
    DispatchShape(st, g, s, v, sent);
  }

  lemma FinishedReply(st: System, s: nat, v: nat, k: nat)
    requires Shape(st) && ReplyFor(st, s, v, k) && st.replies[k].completed
    ensures Enabled(st, Respond(k)) && Shape(Next(st, Respond(k))) && Frees(st, Next(st, Respond(k)), s, v)
  {
    var g, x := Next(st, Respond(k)), st.scheds[s];
    assert ReplyShape(st, st.replies[k]) && SchedShape(st, s);
    VirtualCoreOf(x.index, v);
    assert x.(flags := x.flags[v := true]).queue == [];
    WithoutSubset(st, k);
    FreesShape(st, g, s, v);
  }

  /** Once a finished one is consumed, the core is idle again, and the next request is sent after the newer one. */
  lemma NextRequestFollows(st: System, g: System, s: nat, v: nat)
    requires s < |st.scheds| && Frees(st, g, s, v) && Shape(st) && Shape(g)
    requires forall u :: 0 <= u < v ==> !st.scheds[s].flags[u]
    requires 0 <= st.scheds[s].index[v] < |st.inbox|
    requires var box := st.inbox[st.scheds[s].index[v]]; box != [] && box[|box| - 1].op == ExecCpu
    ensures Reaches(g, Clashing(st.scheds[s].index[v]))
  {
    var r, m := st.scheds[s].index[v], AnyRequest(s, st.spec);
    IdleCoreIs(g.scheds[s].flags, v);
    SubmitDispatches(g, s, m);
    DispatchedTwice(g, Next(g, Submit(s, m)), s, v, m.(quantum := g.scheds[s].quantum, core := r));
    ReachesBy(g, Submit(s, m), Clashing(r));
  }

  /** A reply that arrives when a newer request was just sent to its core makes the scheduler send another. */
  lemma OldReplyMeetsNewRequest(st: System, s: nat, v: nat, k: nat)
    requires Shape(st) && ReplyFor(st, s, v, k) && forall u :: 0 <= u < v ==> !st.scheds[s].flags[u]
    requires 0 <= st.scheds[s].index[v] < |st.inbox|
    requires var box := st.inbox[st.scheds[s].index[v]]; box != [] && box[|box| - 1].op == ExecCpu
    ensures Reaches(st, Clashing(st.replies[k].core))
  {
    var g := Next(st, Respond(k));
    if st.replies[k].completed {
      FinishedReply(st, s, v, k);
      NextRequestFollows(st, g, s, v);
    } else {
      UnfinishedReply(st, s, v, k);
      var m :| Dispatches(st, g, s, v, m);
      DispatchedTwice(st, g, s, v, m);
    }
    ReachesBy(st, Respond(k), Clashing(st.replies[k].core));
  }

  /** Requests go to the lowest idle cores until the one the old reply names is busy again. */
  lemma {:induction false} FillUpTo(st: System, s: nat, v: nat, k: nat)
    requires Shape(st) && ReplyFor(st, s, v, k) && st.scheds[s].flags[v]
    ensures Reaches(st, Clashing(st.replies[k].core))
    decreases v - RR.IdleCore(st.scheds[s].flags)
  {
    var x, m := st.scheds[s], AnyRequest(s, st.spec);
    var u := RR.IdleCore(x.flags);
    assert SchedShape(st, s);
    SubmitDispatches(st, s, m);
    var g := Next(st, Submit(s, m));
    if u == v {
      OldReplyMeetsNewRequest(g, s, v, k);
    } else {
      IdleCoreMoves(x.flags, u, v);
      FillUpTo(g, s, v, k);
    }
    ReachesBy(st, Submit(s, m), Clashing(st.replies[k].core));
  }

  // ---------------------------------------------------------------- just started, with something old in flight

  ghost predicate JustStarted(st: System, s: nat) {
    && s < |st.scheds| && st.scheds[s].running && st.scheds[s].queue == []
    && forall v :: 0 <= v < |st.scheds[s].flags| ==> st.scheds[s].flags[v]
  }

  /**
   * An old reply ends in an overwritten request or is refused, depending on whether its core is one of the new ones.
   */
  lemma OldReplyIsFault(st: System, s: nat, k: nat)
    requires Shape(st) && JustStarted(st, s) && k < |st.replies| && st.replies[k].sender == s
    ensures if st.replies[k].core in st.scheds[s].index then Reaches(st, Clashing(st.replies[k].core))
              else Refused(st, k)
  {
    assert SchedShape(st, s);
    if st.replies[k].core in st.scheds[s].index {
      var v :| 0 <= v < |st.scheds[s].index| && st.scheds[s].index[v] == st.replies[k].core;
      FillUpTo(st, s, v, k);
    }
  }

  lemma OldReplyLeadsToFault(st: System, s: nat, k: nat)
    requires Shape(st) && JustStarted(st, s) && k < |st.replies| && st.replies[k].sender == s
    ensures Reaches(st, Fault())
  {
    OldReplyIsFault(st, s, k);
    if Refused(st, k) { ReachesNow(st, Fault()); } else { ClashIsFault(st, st.replies[k].core); }
  }

  /** An old request on a core comes back as a reply ... */
  lemma {:induction false} TickOut(st: System, s: nat, r: nat)
    requires Shape(st) && JustStarted(st, s) && r < |st.cores|
    requires st.cores[r].pending.Some? && st.cores[r].pending.value.sender == s
    ensures Reaches(st, Fault())
    decreases Remaining(st.cores[r].pending.value, st.spec)
  {
    var m := st.cores[r].pending.value;
    assert CoreShape(st, r);
    TickEffect(st, r);
    TickShape(st, r);
    var g := Next(st, Tick(r));
    if m.completed || m.quantum == 0 {
      OldReplyLeadsToFault(g, s, |st.replies|);
    } else {
      TickLowersRemaining(m, st.spec);
      TickOut(g, s, r);
    }
    ReachesBy(st, Tick(r), Fault());
  }

  /** ... and one on its way to a core gets there. */
  lemma {:induction false} DeliverOut(st: System, s: nat, r: nat, i: nat)
    requires Shape(st) && JustStarted(st, s) && r < |st.cores| && i < |st.inbox[r]|
    requires st.inbox[r][i].op == ExecCpu && st.inbox[r][i].sender == s
    ensures Reaches(st, Fault())
    decreases i
  {
    var g := Next(st, Deliver(r));
    DeliverShape(st, r);
    if i == 0 { TickOut(g, s, r); } else { DeliverOut(g, s, r, i - 1); }
    ReachesBy(st, Deliver(r), Fault());
  }

  lemma InFlightLeadsToFault(st: System, s: nat, r: nat)
    requires Shape(st) && JustStarted(st, s) && r < |st.cores| && InFlight(st, s, r) > 0
    ensures Reaches(st, Fault())
  {
    SumZero(st.inbox[r], ExecOf(s));
    SumZero(st.replies, ReplyTo(s, r));
    if Sum(st.inbox[r], ExecOf(s)) > 0 {
      var i :| 0 <= i < |st.inbox[r]| && ExecOf(s)(st.inbox[r][i]) != 0;
      DeliverOut(st, s, r, i);
    } else if Sum(st.replies, ReplyTo(s, r)) > 0 {
      var k :| 0 <= k < |st.replies| && ReplyTo(s, r)(st.replies[k]) != 0;
      OldReplyLeadsToFault(st, s, k);
    } else {
      TickOut(st, s, r);
    }
  }

  // ---------------------------------------------------------------- the exact condition for a restart

  lemma StartEffect(st: System, s: nat, n: nat)
    requires Exclusive(st) && Enabled(st, Start(s, n))
    ensures var a := Next(st, Start(s, n));
            && Shape(a) && JustStarted(a, s) && a.scheds[s].index == AllocIndex(st.table, n)
            && a.replies == st.replies && a.inbox == st.inbox && a.cores == st.cores
  {
    StartTables(st, s, n);
    assert SchedShape(st, s);
  }

  /** No run goes wrong, as long as later restarts wait. */
  ghost predicate FaultFree(st: System, es: seq<Event>) {
    Possible(st, es) && RestartsDrained(st, es) ==> !Faulty(After(st, es))
  }

  /**
   * Placing a VM on a stopped scheduler is safe if and only if the scheduler has drained: otherwise some run from
   * there overwrites a request on a core or has a reply refused.
   */
  lemma RestartIsSafeIffDrained(st: System, s: nat, n: nat)
    requires Exclusive(st) && Enabled(st, Start(s, n))
    ensures (forall es :: FaultFree(Next(st, Start(s, n)), es)) <==> Drained(st, s)
  {
    var a := Next(st, Start(s, n));
    if Drained(st, s) {
      StartKeepsIffDrained(st, s, n);
      forall es ensures FaultFree(a, es) { SoundRunsAreFaultFree(a, es); }
    } else {
      var r :| 0 <= r < |st.cores| && InFlight(st, s, r) != 0;
      StartEffect(st, s, n);
      InFlightLeadsToFault(a, s, r);
      var es :| LeadsTo(a, es, Fault());
      NoStartsIsDrained(a, es);
      assert !FaultFree(a, es);
    }
  }

  lemma SoundRunsAreFaultFree(a: System, es: seq<Event>)
    requires Exclusive(a)
    ensures FaultFree(a, es)
  {
    if Possible(a, es) && RestartsDrained(a, es) {
      AlwaysExclusive(a, es);
      ExclusiveIsUndisturbed(After(a, es));
      UndisturbedHasNoFault(After(a, es));
    }
  }

  /**
   * An old reply, finished or not: after the restart it overwrites a request if its core is among the new ones, and is
   * refused otherwise.
   */
  lemma StaleReplyOverwrites(st: System, s: nat, n: nat, k: nat)
    requires Exclusive(st) && Enabled(st, Start(s, n)) && k < |st.replies| && st.replies[k].sender == s
    ensures var a := Next(st, Start(s, n));
            if st.replies[k].core in AllocIndex(st.table, n) then Reaches(a, Clashing(st.replies[k].core))
                else Refused(a, k)
  {
    StartEffect(st, s, n);
    OldReplyIsFault(Next(st, Start(s, n)), s, k);
  }

  // ---------------------------------------------------------------- such a state is reached from rest

  /** The first reply is to the stopped scheduler s, from the first free core. */
  ghost predicate Stale(st: System, s: nat) {
    && s < |st.scheds| && !st.scheds[s].running && st.replies != [] && st.replies[0].sender == s
    && FreeList(st.table) != [] && FreeList(st.table)[0] == st.replies[0].core
  }

  lemma RestartOn(st: System, s: nat, r: int)
    requires Exclusive(st) && s < |st.scheds| && !st.scheds[s].running
    requires FreeList(st.table) != [] && FreeList(st.table)[0] == r
    ensures Enabled(st, Start(s, 1))
    ensures var a := Next(st, Start(s, 1));
            && Shape(a) && a.replies == st.replies && a.cores == st.cores && a.inbox == st.inbox && a.spec == st.spec
            && |a.scheds| == |st.scheds| && a.scheds[s].running
            && a.scheds[s].flags == [true] && a.scheds[s].index == [r] && a.scheds[s].queue == []
            && a.scheds[s].quantum == st.scheds[s].quantum
            && a.table == Take(st.table, [r], 0)
  {
    assert SchedShape(st, s);
    StartTables(st, s, 1);
    FilledIffEnoughFree(st.table, 1);
  }

  lemma SubmitOn(a: System, s: nat, r: int, m: Msg)
    requires Shape(a) && s < |a.scheds| && a.scheds[s].running && 0 <= r < |a.cores|
    requires a.scheds[s].flags == [true] && a.scheds[s].index == [r] && a.scheds[s].queue == []
    requires FreshRequest(m, s, a.spec) && a.inbox[r] == []
    ensures Enabled(a, Submit(s, m))
    ensures var b := Next(a, Submit(s, m));
            && Shape(b) && b.replies == a.replies && b.cores == a.cores && b.spec == a.spec && |b.scheds| == |a.scheds|
            && b.scheds[s] == a.scheds[s].(flags := [false])
            && b.inbox[r] == [m.(quantum := a.scheds[s].quantum, core := r)]
  {
    assert RR.IdleCore([true]) == 0;
    SubmitDispatches(a, s, m);
  }

  lemma OneStep(st: System, e: Event, es: seq<Event>)
    requires Shape(st) && Enabled(st, e) && Possible(Next(st, e), es)
    ensures Possible(st, [e] + es) && After(st, [e] + es) == After(Next(st, e), es)
  {
    assert ([e] + es)[1..] == es;
  }

  /** A node with one core and one scheduler that gives slices of one tick. */
  ghost predicate Smallest(st: System) {
    Initial(st) && |st.scheds| == |st.cores| == 1 && st.table == [CoreState(0, 0, true)] && st.scheds[0].quantum == 1
  }

  /** One unfinished request has used up its slice and sits on the only core. */
  ghost predicate SliceOver(c: System) {
    && Exclusive(c) && |c.scheds| == |c.cores| == 1 && |c.table| == 1 && !c.table[0].free && c.replies == []
    && c.scheds[0].running && c.scheds[0].flags == [false] && c.scheds[0].index == [0]
    && c.inbox[0] == [] && c.cores[0].pending.Some? && c.cores[0].armed
    && !c.cores[0].pending.value.completed && c.cores[0].pending.value.quantum == 0
  }

  /** The same request, still on its way to the core. */
  ghost predicate Launched(b: System) {
    && Exclusive(b) && |b.scheds| == |b.cores| == 1 && |b.table| == 1 && !b.table[0].free && b.replies == []
    && b.scheds[0].running && b.scheds[0].flags == [false] && b.scheds[0].index == [0]
    && |b.inbox[0]| == 1 && b.cores[0] == Cores.IDLE
    && var sent := b.inbox[0][0];
       sent.op == ExecCpu && sent.quantum == 1 && !sent.completed && Remaining(sent, b.spec) > 1
  }

  lemma FirstStart(st: System)
    requires Smallest(st)
    ensures Enabled(st, Start(0, 1))
    ensures var a := Next(st, Start(0, 1));
            && Exclusive(a) && |a.scheds| == |a.cores| == 1 && |a.table| == 1 && a.replies == [] && a.spec == st.spec
            && a.scheds[0].running && a.scheds[0].flags == [true] && a.scheds[0].index == [0] && a.scheds[0].queue == []
            && a.scheds[0].quantum == 1 && a.inbox[0] == [] && a.cores[0] == Cores.IDLE && !a.table[0].free
  {
    InitialIsExclusive(st);
    assert FreeList(st.table) == [0] by { assert st.table[..0] == []; }
    assert Drained(st, 0);
    RestartOn(st, 0, 0);
    StartKeepsIffDrained(st, 0, 1);
    TakeAt(st.table, [0], 0, 0);
  }

  lemma Launch(st: System, m: Msg)
    requires Smallest(st) && FreshRequest(m, 0, st.spec) && m.meter.need > 1
    ensures Exclusive(st) && Enabled(st, Start(0, 1)) && Exclusive(Next(st, Start(0, 1)))
    ensures Enabled(Next(st, Start(0, 1)), Submit(0, m)) && Launched(Next(Next(st, Start(0, 1)), Submit(0, m)))
  {
    FirstStart(st);
    InitialIsExclusive(st);
    var a := Next(st, Start(0, 1));
    SubmitOn(a, 0, 0, m);
    SubmitKeeps(a, 0, m);
  }

  lemma RunSlice(b: System)
    requires Launched(b)
    ensures Enabled(b, Deliver(0)) && SliceOver(Next(b, Deliver(0)))
  {
    var sent := b.inbox[0][0];
    TickLowersRemaining(Cores.BeginSlice(sent), b.spec);
    DeliverKeeps(b, 0);
    assert Next(b, Deliver(0)).cores[0].pending.value == Executed(Cores.BeginSlice(sent), b.spec);
  }

  lemma FirstSlice(st: System, m: Msg)
    requires Smallest(st) && FreshRequest(m, 0, st.spec) && m.meter.need > 1
    ensures var es := [Start(0, 1), Submit(0, m), Deliver(0)];
            Possible(st, es) && SliceOver(After(st, es))
  {
    Launch(st, m);
    RunSlice(Next(Next(st, Start(0, 1)), Submit(0, m)));
    ThreeSteps(st, Start(0, 1), Submit(0, m), Deliver(0));
  }

  /** The reply is on its way back, the core is idle. */
  ghost predicate ReplyOut(d: System) {
    && Exclusive(d) && |d.scheds| == |d.cores| == 1 && |d.table| == 1 && !d.table[0].free
    && d.scheds[0].running && d.scheds[0].flags == [false] && d.scheds[0].index == [0]
    && d.inbox[0] == [] && d.cores[0] == Cores.IDLE
    && |d.replies| == 1 && !d.replies[0].completed && d.replies[0].core == 0 && d.replies[0].sender == 0
  }

  lemma HandBack(c: System)
    requires SliceOver(c)
    ensures Enabled(c, Tick(0)) && ReplyOut(Next(c, Tick(0)))
  {
    TickEffect(c, 0);
    TickKeeps(c, 0);
  }

  lemma StopThenAbort(d: System)
    requires ReplyOut(d)
    ensures Enabled(d, Stop(0)) && Exclusive(Next(d, Stop(0))) && Enabled(Next(d, Stop(0)), Deliver(0))
    ensures var f := Next(Next(d, Stop(0)), Deliver(0)); Exclusive(f) && Stale(f, 0)
  {
    assert d.scheds[0].index[0] == 0 && !d.scheds[0].flags[0];
    assert BusyOn(d.scheds[0], 0);
    StopInbox(d, 0, 0);
    StopKeeps(d, 0);
    var e := Next(d, Stop(0));
    DeliverKeeps(e, 0);
    var f := Next(e, Deliver(0));
    ReleaseAt(d.table, [0], 0, 0);
    assert FreeList(f.table) == [0] by { assert f.table[..0] == []; }
  }

  lemma StoppedInFlight(c: System)
    requires SliceOver(c)
    ensures var es := [Tick(0), Stop(0), Deliver(0)];
            Possible(c, es) && Exclusive(After(c, es)) && Stale(After(c, es), 0)
  {
    HandBack(c);
    StopThenAbort(Next(c, Tick(0)));
    ThreeSteps(c, Tick(0), Stop(0), Deliver(0));
  }

  lemma ThreeSteps(st: System, e0: Event, e1: Event, e2: Event)
    requires Shape(st) && Enabled(st, e0)
    requires Shape(Next(st, e0)) && Enabled(Next(st, e0), e1)
    requires Shape(Next(Next(st, e0), e1)) && Enabled(Next(Next(st, e0), e1), e2)
    ensures Possible(st, [e0, e1, e2]) && After(st, [e0, e1, e2]) == Next(Next(Next(st, e0), e1), e2)
  {
    TwoSteps(Next(st, e0), e1, e2);
    OneStep(st, e0, [e1, e2]);
    assert [e0] + [e1, e2] == [e0, e1, e2];
  }

  lemma TwoSteps(st: System, e0: Event, e1: Event)
    requires Shape(st) && Enabled(st, e0)
    requires Shape(Next(st, e0)) && Enabled(Next(st, e0), e1)
    ensures Possible(st, [e0, e1]) && After(st, [e0, e1]) == Next(Next(st, e0), e1)
  {
    OneStep(Next(st, e0), e1, []);
    OneStep(st, e0, [e1]);
    assert [e0] + [e1] == [e0, e1] && [e1] + [] == [e1];
  }

  lemma {:induction false} Compose(st: System, es: seq<Event>, fs: seq<Event>)
    requires Possible(st, es) && Possible(After(st, es), fs)
    ensures Possible(st, es + fs) && After(st, es + fs) == After(After(st, es), fs)
    decreases |es|
  {
    if es == [] {
      assert es + fs == fs;
    } else {
      assert (es + fs)[1..] == es[1..] + fs;
      Compose(Next(st, es[0]), es[1..], fs);
    }
  }

  ghost predicate LeadsToStale(st: System, es: seq<Event>) {
    Possible(st, es) && Exclusive(After(st, es)) && Stale(After(st, es), 0) && |After(st, es).cores| == 1
  }

  /** Up to the stale reply. */
  lemma StaleIsReachable(st: System, m: Msg)
    requires Smallest(st) && FreshRequest(m, 0, st.spec) && m.meter.need > 1
    ensures exists es :: LeadsToStale(st, es)
  {
    var es, fs := [Start(0, 1), Submit(0, m), Deliver(0)], [Tick(0), Stop(0), Deliver(0)];
    FirstSlice(st, m);
    StoppedInFlight(After(st, es));
    Compose(st, es, fs);
    SizesAreFixed(st, es + fs);
    assert LeadsToStale(st, es + fs);
  }

  lemma StaleLeadsToClash(f: System)
    requires Exclusive(f) && Stale(f, 0) && |f.cores| == 1
    ensures exists gs :: Possible(f, gs) && Clash(After(f, gs), 0)
  {
    assert ReplyShape(f, f.replies[0]);
    RestartOn(f, 0, 0);
    StartEffect(f, 0, 1);
    StaleReplyOverwrites(f, 0, 1, 0);
    var gs :| LeadsTo(Next(f, Start(0, 1)), gs, Clashing(0));
    OneStep(f, Start(0, 1), gs);
    assert Clash(After(f, [Start(0, 1)] + gs), 0);
  }

  /**
   * A run from rest in which a core is overwritten: the VM is stopped with its first slice on the way back, then
   * restarted.
   */
  lemma OverwriteIsReachable(st: System, m: Msg)
    requires Smallest(st) && FreshRequest(m, 0, st.spec) && m.meter.need > 1
    ensures exists es :: Possible(st, es) && Clash(After(st, es), 0)
  {
    StaleIsReachable(st, m);
    var es :| LeadsToStale(st, es);
    StaleLeadsToClash(After(st, es));
    var gs :| Possible(After(st, es), gs) && Clash(After(After(st, es), gs), 0);
    Compose(st, es, gs);
    assert Possible(st, es + gs) && Clash(After(st, es + gs), 0);
  }

  lemma {:induction false} SizesAreFixed(st: System, es: seq<Event>)
    requires Possible(st, es)
    ensures |After(st, es).cores| == |st.cores|
    decreases |es|
  {
    if es != [] { SizesAreFixed(Next(st, es[0]), es[1..]); }
  }
}
