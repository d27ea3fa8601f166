/** Requests are conserved: what was submitted is in the node, finished or removed. */
module CpuAccounting {
  import opened Sums
  import opened CpuMessages
  import Cores = CpuCores
  import opened CoreTable
  import RR = RoundRobin
  import opened CpuSystem
  import opened CpuSafety

  // ---------------------------------------------------------------- weighing everything in the node

  /** A weight for a request in each place it can be. */
  datatype Weights = Weights(queue: Msg -> nat, inbox: Msg -> nat, core: Msg -> nat, reply: Msg -> nat)

  ghost function InQueue(f: Msg -> nat): RR.Sched -> nat { (x: RR.Sched) => Sum(x.queue, f) }

  ghost function InBox(f: Msg -> nat): seq<Msg> -> nat { (box: seq<Msg>) => Sum(box, f) }

  ghost function Held(c: Cores.CoreView, f: Msg -> nat): nat {
    if c.pending.Some? then f(c.pending.value) else 0
  }

  ghost function OnCore(f: Msg -> nat): Cores.CoreView -> nat { (c: Cores.CoreView) => Held(c, f) }

  ghost function Mass(st: System, w: Weights): nat {
    Sum(st.scheds, InQueue(w.queue)) + Sum(st.inbox, InBox(w.inbox)) + Sum(st.cores, OnCore(w.core))
        + Sum(st.replies, w.reply)
  }

  lemma PostWeighs(inbox: seq<seq<Msg>>, m: Msg, f: Msg -> nat)
    requires 0 <= m.core < |inbox|
    ensures Sum(Post(inbox, [m]), InBox(f)) == Sum(inbox, InBox(f)) + f(m)
  {
    var box := inbox[m.core] + [m];
    assert Post(inbox, [m]) == Post(inbox[m.core := box], []);
    SumSet(inbox, m.core, box, InBox(f));
    SumPush(inbox[m.core], m, f);
  }

  lemma {:induction false} PostAborts(inbox: seq<seq<Msg>>, msgs: seq<Msg>, f: Msg -> nat)
    requires forall i :: 0 <= i < |msgs| ==> f(msgs[i]) == 0
    ensures Sum(Post(inbox, msgs), InBox(f)) == Sum(inbox, InBox(f))
    decreases |msgs|
  {
    if msgs != [] {
      var c := msgs[0].core;
      if 0 <= c < |inbox| {
        SumSet(inbox, c, inbox[c] + [msgs[0]], InBox(f));
        SumPush(inbox[c], msgs[0], f);
        PostAborts(inbox[c := inbox[c] + [msgs[0]]], msgs[1..], f);
      } else {
        PostAborts(inbox, msgs[1..], f);
      }
    }
  }

  lemma {:induction false} AbortsAreAborts(x: RR.Sched, v: nat)
    requires |x.index| == |x.flags| && v <= |x.flags|
    ensures forall i :: 0 <= i < |RR.AbortsFrom(x, v)| ==> RR.AbortsFrom(x, v)[i].op == AbortCpu
    decreases |x.flags| - v
  {
    if v < |x.flags| { AbortsAreAborts(x, v + 1); }
  }

  lemma WeighSubmit(st: System, s: nat, m: Msg, w: Weights)
    requires Exclusive(st) && Enabled(st, Submit(s, m))
    ensures var x := st.scheds[s];
            var v := RR.IdleCore(x.flags);
            Mass(Next(st, Submit(s, m)), w) == Mass(st, w) +
              if v == RR.NOT_FOUND then w.queue(m.(quantum := x.quantum))
              else w.inbox(m.(quantum := x.quantum, core := if v < |x.index| then x.index[v] else 0))
  {
    var g, x := Next(st, Submit(s, m)), st.scheds[s];
    assert SchedShape(st, s);
    SumSet(st.scheds, s, g.scheds[s], InQueue(w.queue));
    if RR.IdleCore(x.flags) == RR.NOT_FOUND {
      SumPush(x.queue, m.(quantum := x.quantum), w.queue);
    } else {
      PostWeighs(st.inbox, m.(quantum := x.quantum, core := x.index[RR.IdleCore(x.flags)]), w.inbox);
    }
  }

  lemma WeighAbortRequest(st: System, s: nat, app: string, w: Weights)
    requires Exclusive(st) && Enabled(st, AbortRequest(s, app))
    ensures var x := st.scheds[s];
            var i := RR.FirstOfApp(x.queue, app);
            Mass(st, w) == Mass(Next(st, AbortRequest(s, app)), w) + if i < |x.queue| then w.queue(x.queue[i]) else 0
  {
    var g, x := Next(st, AbortRequest(s, app)), st.scheds[s];
    SumSet(st.scheds, s, g.scheds[s], InQueue(w.queue));
    if RR.FirstOfApp(x.queue, app) < |x.queue| { SumRemove(x.queue, RR.FirstOfApp(x.queue, app), w.queue); }
  }

  lemma WeighDeliver(st: System, r: nat, w: Weights)
    requires Exclusive(st) && Enabled(st, Deliver(r))
    ensures var m := st.inbox[r][0];
            && (m.op == ExecCpu ==> !st.cores[r].pending.Some?)
            && Mass(Next(st, Deliver(r)), w) + w.inbox(m)
               + (if m.op == AbortCpu && st.cores[r].pending.Some? then w.core(st.cores[r].pending.value) else 0)
            == Mass(st, w) + if m.op == ExecCpu then w.core(Executed(Cores.BeginSlice(m), st.spec)) else 0
  {
    var g, m := Next(st, Deliver(r)), st.inbox[r][0];
    ExclusiveIsUndisturbed(st);
    SumSet(st.inbox, r, g.inbox[r], InBox(w.inbox));
    SumSet(st.cores, r, g.cores[r], OnCore(w.core));
  }

  lemma WeighTick(st: System, r: nat, w: Weights)
    requires Exclusive(st) && Enabled(st, Tick(r))
    ensures st.cores[r].pending.Some?
    ensures var m := st.cores[r].pending.value;
            Mass(Next(st, Tick(r)), w) + w.core(m) == Mass(st, w) +
              if m.completed || m.quantum == 0 then w.reply(m.(response := true)) else w.core(Executed(m, st.spec))
  {
    TickEffect(st, r);
    var g, m := Next(st, Tick(r)), st.cores[r].pending.value;
    assert g.cores == st.cores[r := g.cores[r]];
    SumSet(st.cores, r, g.cores[r], OnCore(w.core));
    SumPush(st.replies, m.(response := true), w.reply);
  }

  /** The request a reply lets out of the queue, if any. */
  ghost function Released(x: RR.Sched, m: Msg): Option<Msg> {
    var ready := RR.Requeued(x, m);
    if ready.queue == [] then None else Some(ready.queue[0])
  }

  lemma WeighRespond(st: System, k: nat, w: Weights)
    requires Exclusive(st) && Enabled(st, Respond(k))
    ensures ReplyShape(st, st.replies[k])
    ensures var m := st.replies[k];
            var x := st.scheds[m.sender];
            Mass(Next(st, Respond(k)), w) + w.reply(m)
              + (if x.running && Released(x, m).Some? then w.queue(Released(x, m).value) else 0)
            == Mass(st, w)
              + (if x.running && !m.completed then w.queue(m.(response := false)) else 0)
              + (if x.running && Released(x, m).Some?
                 then w.inbox(Released(x, m).value.(core := m.core, quantum := x.quantum)) else 0)
  {
    var g, m := Next(st, Respond(k)), st.replies[k];
    assert ReplyShape(st, m) && SchedShape(st, m.sender);
    var s, x := m.sender, st.scheds[m.sender];
    SumRemove(st.replies, k, w.reply);
    SumSet(st.scheds, s, g.scheds[s], InQueue(w.queue));
    if x.running {
      var v := ReplyFindsItsCore(st, k);
      SumPush(x.queue, m.(response := false), w.queue);
      var ready := RR.Requeued(x.(flags := x.flags[v := true]), m);
      assert ready.queue == RR.Requeued(x, m).queue;
      if ready.queue != [] { PostWeighs(st.inbox, RR.HeadFor(ready, m.core), w.inbox); }
    }
  }

  lemma WeighStop(st: System, s: nat, w: Weights)
    requires Exclusive(st) && Enabled(st, Stop(s))
    requires forall a: Msg :: a.op == AbortCpu ==> w.inbox(a) == 0
    ensures Mass(st, w) == Mass(Next(st, Stop(s)), w) + Sum(st.scheds[s].queue, w.queue)
  {
    var g := Next(st, Stop(s));
    assert SchedShape(st, s);
    SumSet(st.scheds, s, g.scheds[s], InQueue(w.queue));
    AbortsAreAborts(st.scheds[s], 0);
    PostAborts(st.inbox, RR.AbortsFrom(st.scheds[s], 0), w.inbox);
  }

  lemma WeighStart(st: System, s: nat, n: nat, w: Weights)
    requires Exclusive(st) && Enabled(st, Start(s, n))
    ensures Mass(Next(st, Start(s, n)), w) == Mass(st, w)
  {
    SumSet(st.scheds, s, Next(st, Start(s, n)).scheds[s], InQueue(w.queue));
  }

  // ---------------------------------------------------------------- conservation

  /** Which requests to count: all copies of an id, those among them that need so many ticks, or all of a scheduler. */
  datatype Key = ById(id: nat) | ByNeed(id: nat, sender: nat, need: nat) | BySender(sender: nat)

  predicate Matches(key: Key, m: Msg) {
    m.op == ExecCpu
    && match key
       case ById(id) => m.id == id
       case ByNeed(id, sender, need) => m.id == id && m.sender == sender && m.meter.need == need
       case BySender(sender) => m.sender == sender
  }

  ghost function Is(key: Key): Msg -> nat {
    (m: Msg) => if Matches(key, m) then 1 else 0
  }

  ghost function Alike(key: Key): Weights { Weights(Is(key), Is(key), Is(key), Is(key)) }

  /** How many such requests are in the node: waiting, on the way to a core, on one, or on the way back. */
  ghost function Inside(st: System, key: Key): nat {
    Mass(st, Alike(key))
  }

  /** Every submission is inside the node, finished, or removed: nothing is lost, nothing is duplicated. */
  ghost predicate Balanced(st: System, key: Key) {
    Sum(st.submitted, Is(key)) == Inside(st, key) + Sum(st.finished, Is(key)) + Sum(st.removed, Is(key))
  }

  lemma HypervisorConserves(st: System, e: Event, key: Key)
    requires Exclusive(st) && Enabled(st, e) && (e.Submit? || e.AbortRequest? || e.Start? || e.Stop?)
               && Balanced(st, key)
    ensures Balanced(Next(st, e), key)
  {
    match e
    case Submit(s, m) => SubmitConserves(st, s, m, key);
    case AbortRequest(s, app) => AbortConserves(st, s, app, key);
    case Start(s, n) => WeighStart(st, s, n, Alike(key));
    case Stop(s) =>
      WeighStop(st, s, Alike(key));
      SumConcat(st.removed, st.scheds[s].queue, Is(key));
  }

  lemma SubmitConserves(st: System, s: nat, m: Msg, key: Key)
    requires Exclusive(st) && Enabled(st, Submit(s, m)) && Balanced(st, key)
    ensures Balanced(Next(st, Submit(s, m)), key)
  {
    WeighSubmit(st, s, m, Alike(key));
    SumPush(st.submitted, m, Is(key));
    assert SchedShape(st, s);
  }

  lemma AbortConserves(st: System, s: nat, app: string, key: Key)
    requires Exclusive(st) && Enabled(st, AbortRequest(s, app)) && Balanced(st, key)
    ensures Balanced(Next(st, AbortRequest(s, app)), key)
  {
    WeighAbortRequest(st, s, app, Alike(key));
    var x := st.scheds[s];
    var i := RR.FirstOfApp(x.queue, app);
    SumConcat(st.removed, if i < |x.queue| then [x.queue[i]] else [], Is(key));
  }

  /** What an arriving abort removes. */
  ghost function Aborted(st: System, r: nat): seq<Msg>
    requires r < |st.cores| == |st.inbox| && st.inbox[r] != []
  {
    if st.inbox[r][0].op == AbortCpu then PendingAsSeq(st.cores[r]) else []
  }

  lemma DeliverInside(st: System, r: nat, key: Key)
    requires Exclusive(st) && Enabled(st, Deliver(r))
    ensures Inside(Next(st, Deliver(r)), key) + Sum(Aborted(st, r), Is(key)) == Inside(st, key)
  {
    WeighDeliver(st, r, Alike(key));
    assert CoreShape(st, r);
  }

  lemma DeliverConserves(st: System, r: nat, key: Key)
    requires Exclusive(st) && Enabled(st, Deliver(r)) && Balanced(st, key)
    ensures Balanced(Next(st, Deliver(r)), key)
  {
    DeliverInside(st, r, key);
    SumConcat(st.removed, Aborted(st, r), Is(key));
  }

  lemma CoreConserves(st: System, e: Event, key: Key)
    requires Exclusive(st) && Enabled(st, e) && (e.Deliver? || e.Tick?) && Balanced(st, key)
    ensures Balanced(Next(st, e), key)
  {
    if e.Deliver? {
      DeliverConserves(st, e.r, key);
    } else {
      WeighTick(st, e.r, Alike(key));
      TickEffect(st, e.r);
    }
  }

  lemma ZombieConserves(st: System, k: nat, key: Key)
    requires Exclusive(st) && Enabled(st, Respond(k)) && Balanced(st, key)
    requires st.replies[k].sender < |st.scheds| && !st.scheds[st.replies[k].sender].running
    ensures Balanced(Next(st, Respond(k)), key)
  {
    WeighRespond(st, k, Alike(key));
    SumPush(st.removed, st.replies[k], Is(key));
    assert st.finished + [] == st.finished;
  }

  lemma RespondEffect(st: System, k: nat)
    requires Exclusive(st) && Enabled(st, Respond(k)) && ReplyShape(st, st.replies[k])
               && st.scheds[st.replies[k].sender].running
    ensures var g, m := Next(st, Respond(k)), st.replies[k];
            && g.submitted == st.submitted && g.removed == st.removed
            && g.finished == st.finished + (if m.completed then [m] else [])
            && (Released(st.scheds[m.sender], m).Some? ==> Released(st.scheds[m.sender], m).value.op == ExecCpu)
  {
    assert SchedShape(st, st.replies[k].sender);
    var v := ReplyFindsItsCore(st, k);
    assert st.removed + [] == st.removed;
  }

  lemma RespondInside(st: System, k: nat, key: Key)
    requires Exclusive(st) && Enabled(st, Respond(k)) && ReplyShape(st, st.replies[k])
               && st.scheds[st.replies[k].sender].running
    ensures Inside(Next(st, Respond(k)), key)
              + (if st.replies[k].completed then Is(key)(st.replies[k]) else 0) == Inside(st, key)
  {
    RespondEffect(st, k);
    WeighRespond(st, k, Alike(key));
  }

  lemma RespondConserves(st: System, k: nat, key: Key)
    requires Exclusive(st) && Enabled(st, Respond(k)) && Balanced(st, key)
    ensures Balanced(Next(st, Respond(k)), key)
  {
    var m := st.replies[k];
    assert ReplyShape(st, m);
    if !st.scheds[m.sender].running {
      ZombieConserves(st, k, key);
    } else {
      RespondEffect(st, k);
      RespondInside(st, k, key);
      SumConcat(st.finished, if m.completed then [m] else [], Is(key));
    }
  }

  lemma StepConserves(st: System, e: Event, key: Key)
    requires Exclusive(st) && Enabled(st, e) && Balanced(st, key)
    ensures Balanced(Next(st, e), key)
  {
    match e
    case Deliver(r) => CoreConserves(st, e, key);
    case Tick(r) => CoreConserves(st, e, key);
    case Respond(k) => RespondConserves(st, k, key);
    case _ => HypervisorConserves(st, e, key);
  }

  lemma {:induction false} AlwaysBalanced(st: System, es: seq<Event>, key: Key)
    requires Exclusive(st) && Possible(st, es) && RestartsDrained(st, es) && Balanced(st, key)
    ensures Balanced(After(st, es), key)
    decreases |es|
  {
    if es != [] {
      StepConserves(st, es[0], key);
      StepKeeps(st, es[0]);
      AlwaysBalanced(Next(st, es[0]), es[1..], key);
    }
  }

  lemma InitialIsEmpty(st: System, w: Weights)
    requires Initial(st)
    ensures Mass(st, w) == 0
  {
    SumZero(st.scheds, InQueue(w.queue));
    SumZero(st.inbox, InBox(w.inbox));
    SumZero(st.cores, OnCore(w.core));
  }

  /** In every run from rest, each submission of a request is inside the node, finished or removed, exactly once. */
  lemma RequestsAreConserved(st: System, es: seq<Event>, key: Key)
    requires Initial(st) && Possible(st, es) && RestartsDrained(st, es)
    ensures var g := After(st, es);
            Sum(g.submitted, Is(key)) == Inside(g, key) + Sum(g.finished, Is(key)) + Sum(g.removed, Is(key))
  {
    InitialIsExclusive(st);
    InitialIsEmpty(st, Alike(key));
    AlwaysBalanced(st, es, key);
  }

  // ---------------------------------------------------------------- nobody else's requests are removed

  /** An abort that reaches a core finds it empty, or with a request of a scheduler that was stopped. */
  lemma AbortsHitOnlyStopped(st: System, r: nat)
    requires Exclusive(st) && Enabled(st, Deliver(r)) && st.inbox[r][0].op == AbortCpu && st.cores[r].pending.Some?
    ensures var m := st.cores[r].pending.value; m.sender < |st.scheds| && !st.scheds[m.sender].running
  {
    var s := st.cores[r].pending.value.sender;
    assert CoreShape(st, r) && AtCoreShape(st, r, st.cores[r].pending.value);
    if st.scheds[s].running {
      assert FlagsExact(st, s, r);
      HolderCounts(st, s, r);
      assert false;
    }
  }

  /** m is of a scheduler that is stopped, or its own application asked for the removal. */
  ghost predicate OwnRemoval(st: System, e: Event, m: Msg)
    requires Shape(st) && Enabled(st, e)
  {
    && m.sender < |Next(st, e).scheds|
    && (!Next(st, e).scheds[m.sender].running || (e.AbortRequest? && e.s == m.sender && m.app == e.app))
  }

  lemma RemovalsAreOwn(st: System, e: Event, i: nat)
    requires Exclusive(st) && Enabled(st, e) && |st.removed| <= i < |Next(st, e).removed|
    ensures OwnRemoval(st, e, Next(st, e).removed[i])
  {
    match e
    case Deliver(r) => AbortsHitOnlyStopped(st, r);
    case Respond(k) =>
      assert ReplyShape(st, st.replies[k]) && SchedShape(st, st.replies[k].sender);
    case AbortRequest(s, app) => assert SchedShape(st, s);
    case Stop(s) => assert SchedShape(st, s);
    case _ =>
  }

  /** Nobody stops s or drops one of its requests. */
  ghost predicate Spares(es: seq<Event>, s: nat) {
    forall i :: 0 <= i < |es| ==> !(es[i].Stop? && es[i].s == s) && !(es[i].AbortRequest? && es[i].s == s)
  }

  /** s keeps running once started, and has submitted nothing before; none of its requests was removed. */
  ghost predicate Unharmed(st: System, s: nat) {
    && s < |st.scheds| && (st.scheds[s].running || Sum(st.submitted, Is(BySender(s))) == 0)
    && Sum(st.removed, Is(BySender(s))) == 0 && Balanced(st, BySender(s))
  }

  lemma NoneRemovedOf(st: System, e: Event, s: nat)
    requires Exclusive(st) && Enabled(st, e) && s < |st.scheds| && Next(st, e).scheds[s].running
    requires !(e.AbortRequest? && e.s == s) && Sum(st.removed, Is(BySender(s))) == 0
    ensures Sum(Next(st, e).removed, Is(BySender(s))) == 0
  {
    var g := Next(st, e);
    SumZero(st.removed, Is(BySender(s)));
    SumZero(g.removed, Is(BySender(s)));
    forall i | 0 <= i < |g.removed| ensures Is(BySender(s))(g.removed[i]) == 0 {
      if i < |st.removed| { assert g.removed[i] == st.removed[i]; } else { RemovalsAreOwn(st, e, i); }
    }
  }

  lemma StepSpares(st: System, e: Event, s: nat)
    requires Exclusive(st) && Enabled(st, e) && Unharmed(st, s) && Spares([e], s)
    ensures Unharmed(Next(st, e), s)
  {
    var g := Next(st, e);
    assert [e][0] == e;
    StepConserves(st, e, BySender(s));
    if g.scheds[s].running {
      NoneRemovedOf(st, e, s);
    } else {
      StaysUnused(st, e, s);
    }
  }

  lemma StaysUnused(st: System, e: Event, s: nat)
    requires Exclusive(st) && Enabled(st, e) && s < |st.scheds| && !(e.Stop? && e.s == s)
               && !Next(st, e).scheds[s].running
    ensures !st.scheds[s].running && Sum(Next(st, e).submitted, Is(BySender(s))) == Sum(st.submitted, Is(BySender(s)))
  {
    match e
    case Submit(t, m) =>
      assert SchedShape(st, t);
      SumPush(st.submitted, m, Is(BySender(s)));
    case Respond(k) => assert ReplyShape(st, st.replies[k]);
    case _ =>
  }

  lemma {:induction false} AlwaysSpared(st: System, es: seq<Event>, s: nat)
    requires Exclusive(st) && Possible(st, es) && RestartsDrained(st, es) && Unharmed(st, s) && Spares(es, s)
    ensures Unharmed(After(st, es), s)
    decreases |es|
  {
    if es != [] {
      StepSpares(st, es[0], s);
      StepKeeps(st, es[0]);
      AlwaysSpared(Next(st, es[0]), es[1..], s);
    }
  }

  /**
   * Stopping other VMs costs a scheduler nothing: unless it is stopped or asked to drop one, all it was given is in the
   * node or finished.
   */
  lemma OnlyOwnStopsRemove(st: System, es: seq<Event>, s: nat)
    requires Initial(st) && Possible(st, es) && RestartsDrained(st, es) && s < |st.scheds| && Spares(es, s)
    ensures var g := After(st, es);
            && Sum(g.removed, Is(BySender(s))) == 0
            && Sum(g.submitted, Is(BySender(s))) == Inside(g, BySender(s)) + Sum(g.finished, Is(BySender(s)))
  {
    InitialIsExclusive(st);
    InitialIsEmpty(st, Alike(BySender(s)));
    AlwaysSpared(st, es, s);
  }
}
