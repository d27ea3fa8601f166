/** A real core never receives a request while it holds one, in any run of the CPU stack. */
module CpuSafety {
  import opened Sums
  import opened CpuMessages
  import Cores = CpuCores
  import opened CoreTable
  import RR = RoundRobin
  import opened CpuSystem

  // ---------------------------------------------------------------- counting requests at a core

  lemma LastCounts(box: seq<Msg>, s: nat)
    requires box != [] && box[|box| - 1].op == ExecCpu && box[|box| - 1].sender == s
    ensures Sum(box, ExecOf(s)) >= 1
  {
    SumPush(box[..|box| - 1], box[|box| - 1], ExecOf(s));
    assert box == box[..|box| - 1] + [box[|box| - 1]];
  }

  lemma HolderCounts(st: System, s: nat, r: nat)
    requires Shape(st) && r < |st.cores| && Holder(st, r) == Some(s)
    ensures AtCore(st, s, r) >= 1
    ensures st.inbox[r] != [] ==> Sum(st.inbox[r], ExecOf(s)) >= 1
  {
    assert CoreShape(st, r);
    if st.inbox[r] != [] { LastCounts(st.inbox[r], s); }
  }

  /** If the core behind one of s's virtual cores carries nothing of s, it will end up empty. */
  lemma UnusedCoreIsVacant(st: System, s: nat, v: nat)
    requires Exclusive(st) && s < |st.scheds| && st.scheds[s].running && v < |st.scheds[s].index|
    requires 0 <= st.scheds[s].index[v] < |st.cores| && AtCore(st, s, st.scheds[s].index[v]) == 0
    ensures Holder(st, st.scheds[s].index[v]) == None
  {
    var r := st.scheds[s].index[v];
    assert CoreExclusive(st, r);
    if Holder(st, r).Some? {
      var t := Holder(st, r).value;
      HolderCounts(st, t, r);
      assert FlagsExact(st, t, r);
    }
  }

  /** What a core looks like after one more request of s was sent to it. */
  lemma PushRequest(st: System, g: System, r: nat, m: Msg)
    requires r < |st.cores| == |st.inbox| && g.cores == st.cores
    requires g.inbox == st.inbox[r := st.inbox[r] + [m]] && m.op == ExecCpu
    requires Holder(st, r) == None && InboxSafe(st.cores[r], st.inbox[r])
    ensures InboxSafe(g.cores[r], g.inbox[r]) && Holder(g, r) == Some(m.sender)
    ensures forall t: nat :: AtCore(g, t, r) == AtCore(st, t, r) + if t == m.sender then 1 else 0
  {
    var box := st.inbox[r];
    assert box != [] ==> box[|box| - 1].op != ExecCpu;
    forall t: nat ensures AtCore(g, t, r) == AtCore(st, t, r) + if t == m.sender then 1 else 0 {
      SumPush(st.inbox[r], m, ExecOf(t));
    }
  }

  // ---------------------------------------------------------------- the steps, one by one

  lemma DeliverShape(st: System, r: nat)
    requires Shape(st) && Enabled(st, Deliver(r))
    ensures Shape(Next(st, Deliver(r)))
  {
    var g := Next(st, Deliver(r));
    var box := st.inbox[r];
    assert CoreShape(st, r);
    assert AtCoreShape(st, r, box[0]) && SchedShape(st, box[0].sender);
    assert CoreShape(g, r) by {
      forall i | 0 <= i < |g.inbox[r]|
        ensures AtCoreShape(g, r, g.inbox[r][i])
        ensures g.inbox[r][i].op == ExecCpu ==> g.inbox[r][i].quantum == g.scheds[g.inbox[r][i].sender].quantum
      {
        assert AtCoreShape(st, r, box[i + 1]);
      }
    }
    CoresUnchanged(st, g, r);
  }

  /** Steps of one core leave the shape of everything else alone. */
  lemma CoresUnchanged(st: System, g: System, r: nat)
    requires Shape(st) && r < |st.cores| == |g.cores| == |g.inbox| && g.spec == st.spec && g.table == st.table
    requires g.scheds == st.scheds && CoreShape(g, r)
    requires forall q :: 0 <= q < |st.cores| && q != r ==> g.cores[q] == st.cores[q] && g.inbox[q] == st.inbox[q]
    requires forall k :: 0 <= k < |g.replies| ==> g.replies[k] in st.replies || ReplyShape(g, g.replies[k])
    ensures Shape(g)
  {
    forall q | 0 <= q < |g.cores| ensures CoreShape(g, q) {
      assert CoreShape(st, q);
      if q != r {
        forall i | 0 <= i < |g.inbox[q]| ensures AtCoreShape(g, q, g.inbox[q][i]) {
          assert AtCoreShape(st, q, st.inbox[q][i]);
        }
        if g.cores[q].pending.Some? { assert AtCoreShape(st, q, st.cores[q].pending.value); }
      }
    }
    forall s | 0 <= s < |g.scheds| ensures SchedShape(g, s) { assert SchedShape(st, s); }
    forall k | 0 <= k < |g.replies| ensures ReplyShape(g, g.replies[k]) {
      if g.replies[k] in st.replies { assert ReplyShape(st, g.replies[k]); }
    }
  }

  /** A core step that moves no request of a running scheduler keeps who owns what. */
  lemma CoreStepKeeps(st: System, g: System, r: nat)
    requires Exclusive(st) && Shape(g) && r < |st.cores| == |g.cores| && g.table == st.table && g.scheds == st.scheds
    requires forall q :: 0 <= q < |st.cores| && q != r ==> g.cores[q] == st.cores[q] && g.inbox[q] == st.inbox[q]
    requires CoreExclusive(g, r)
    requires forall s :: 0 <= s < |st.scheds| && st.scheds[s].running ==> FlagsExact(g, s, r)
    requires forall s, q :: 0 <= s < |st.scheds| && 0 <= q < |st.cores| && q != r ==>
               Sum(g.replies, ReplyTo(s, q)) == Sum(st.replies, ReplyTo(s, q))
    ensures Exclusive(g)
  {
    forall q | 0 <= q < |g.cores| ensures CoreExclusive(g, q) { assert CoreExclusive(st, q); }
    forall s, q | 0 <= s < |g.scheds| && g.scheds[s].running && 0 <= q < |g.cores| ensures FlagsExact(g, s, q) {
      assert FlagsExact(st, s, q);
    }
  }

  lemma DeliverFlags(st: System, r: nat, s: nat)
    requires Exclusive(st) && Enabled(st, Deliver(r)) && s < |st.scheds| && st.scheds[s].running
    ensures FlagsExact(Next(st, Deliver(r)), s, r)
  {
    var g, box := Next(st, Deliver(r)), st.inbox[r];
    assert FlagsExact(st, s, r) && CoreShape(st, r) && CoreExclusive(st, r);
    assert AtCoreShape(st, r, box[0]) && SchedShape(st, box[0].sender);
    assert g.inbox[r] == box[1..];
    assert Sum(box, ExecOf(s)) == ExecOf(s)(box[0]) + Sum(box[1..], ExecOf(s));
    assert Holder(g, r) == Holder(st, r);
    if Holder(st, r) == Some(s) { HolderCounts(st, s, r); }
  }

  lemma DeliverKeeps(st: System, r: nat)
    requires Exclusive(st) && Enabled(st, Deliver(r))
    ensures Exclusive(Next(st, Deliver(r)))
  {
    var g := Next(st, Deliver(r));
    DeliverShape(st, r);
    assert CoreExclusive(g, r) by { assert CoreExclusive(st, r) && CoreShape(st, r); }
    forall s | 0 <= s < |st.scheds| && st.scheds[s].running ensures FlagsExact(g, s, r) { DeliverFlags(st, r, s); }
    CoreStepKeeps(st, g, r);
  }

  /** A timer step hands the request back or keeps it, and touches nothing else of the core. */
  lemma TickEffect(st: System, r: nat)
    requires Shape(st) && Enabled(st, Tick(r))
    ensures st.cores[r].pending.Some?
    ensures var g, m := Next(st, Tick(r)), st.cores[r].pending.value;
            && g == st.(cores := g.cores, replies := g.replies) && |g.cores| == |st.cores|
            && m.op == ExecCpu && m.core == r && m.sender < |st.scheds|
            && (forall q :: 0 <= q < |st.cores| && q != r ==> g.cores[q] == st.cores[q])
            && (if m.completed || m.quantum == 0
                then g.cores[r] == Cores.IDLE && g.replies == st.replies + [m.(response := true)]
                else g.cores[r] == Cores.CoreView(Some(Executed(m, st.spec)), true) && g.replies == st.replies)
  {
    assert CoreShape(st, r);
    assert AtCoreShape(st, r, st.cores[r].pending.value);
  }

  lemma TickExclusive(st: System, r: nat)
    requires Exclusive(st) && Enabled(st, Tick(r))
    ensures CoreExclusive(Next(st, Tick(r)), r)
  {
    TickEffect(st, r);
    assert CoreExclusive(st, r);
    assert Next(st, Tick(r)).inbox[r] == st.inbox[r];
  }

  lemma TickShape(st: System, r: nat)
    requires Shape(st) && Enabled(st, Tick(r))
    ensures Shape(Next(st, Tick(r)))
  {
    var g := Next(st, Tick(r));
    assert CoreShape(st, r);
    assert AtCoreShape(st, r, st.cores[r].pending.value);
    assert CoreShape(g, r) by {
      forall i | 0 <= i < |g.inbox[r]| ensures AtCoreShape(g, r, g.inbox[r][i]) {
        assert AtCoreShape(st, r, st.inbox[r][i]);
      }
    }
    forall k | 0 <= k < |g.replies| ensures g.replies[k] in st.replies || ReplyShape(g, g.replies[k]) {
      if k < |st.replies| { assert g.replies[k] == st.replies[k]; }
    }
    CoresUnchanged(st, g, r);
  }

  lemma TickReplies(st: System, r: nat, s: nat, q: nat)
    requires Exclusive(st) && Enabled(st, Tick(r)) && q < |st.cores|
    ensures var m := st.cores[r].pending;
            && m.Some? && m.value.op == ExecCpu && m.value.core == r
            && Sum(Next(st, Tick(r)).replies, ReplyTo(s, q)) == Sum(st.replies, ReplyTo(s, q))
               + if (m.value.completed || m.value.quantum == 0) && m.value.sender == s && q == r then 1 else 0
  {
    assert CoreShape(st, r);
    var m := st.cores[r].pending.value;
    assert AtCoreShape(st, r, m);
    SumPush(st.replies, m.(response := true), ReplyTo(s, q));
  }

  lemma TickFlags(st: System, r: nat, s: nat)
    requires Exclusive(st) && Enabled(st, Tick(r)) && s < |st.scheds| && st.scheds[s].running
    ensures FlagsExact(Next(st, Tick(r)), s, r)
  {
    TickEffect(st, r);
    var g := Next(st, Tick(r));
    assert FlagsExact(st, s, r);
    TickReplies(st, r, s, r);
    assert g.inbox[r] == st.inbox[r];
    if Holder(st, r) == Some(s) { HolderCounts(st, s, r); }
  }

  lemma TickKeeps(st: System, r: nat)
    requires Exclusive(st) && Enabled(st, Tick(r))
    ensures Exclusive(Next(st, Tick(r)))
  {
    var g := Next(st, Tick(r));
    TickShape(st, r);
    TickExclusive(st, r);
    forall s | 0 <= s < |st.scheds| && st.scheds[s].running ensures FlagsExact(g, s, r) { TickFlags(st, r, s); }
    forall s, q | 0 <= s < |st.scheds| && 0 <= q < |st.cores| && q != r
      ensures Sum(g.replies, ReplyTo(s, q)) == Sum(st.replies, ReplyTo(s, q))
    {
      TickReplies(st, r, s, q);
    }
    CoreStepKeeps(st, g, r);
  }

  lemma AbortRequestKeeps(st: System, s: nat, app: string)
    requires Exclusive(st) && Enabled(st, AbortRequest(s, app))
    ensures Exclusive(Next(st, AbortRequest(s, app)))
  {
    var g := Next(st, AbortRequest(s, app));
    forall t | 0 <= t < |g.scheds| ensures SchedShape(g, t) && WorkConserving(g.scheds[t]) {
      assert SchedShape(st, t) && WorkConserving(st.scheds[t]);
    }
    SameElsewhere(st, g, s);
  }

  /** Steps that touch one scheduler's queue and nothing else. */
  lemma SameElsewhere(st: System, g: System, s: nat)
    requires Exclusive(st) && s < |st.scheds|
    requires g.spec == st.spec && g.table == st.table && g.cores == st.cores && g.inbox == st.inbox
               && g.replies == st.replies
    requires exists q :: g.scheds == st.scheds[s := st.scheds[s].(queue := q)]
    requires forall t :: 0 <= t < |g.scheds| ==> SchedShape(g, t) && WorkConserving(g.scheds[t])
    ensures Exclusive(g)
  {
    forall r | 0 <= r < |g.cores| ensures CoreShape(g, r) && CoreExclusive(g, r) {
      assert CoreShape(st, r) && CoreExclusive(st, r);
      forall i | 0 <= i < |g.inbox[r]| ensures AtCoreShape(g, r, g.inbox[r][i]) {
        assert AtCoreShape(st, r, st.inbox[r][i]);
      }
    }
    forall k | 0 <= k < |g.replies| ensures ReplyShape(g, g.replies[k]) { assert ReplyShape(st, st.replies[k]); }
    forall t, r | 0 <= t < |g.scheds| && g.scheds[t].running && 0 <= r < |g.cores| ensures FlagsExact(g, t, r) {
      assert FlagsExact(st, t, r);
    }
  }

  // ---------------------------------------------------------------- a scheduler sends a request to a core

  /** Scheduler s changes, and sends m to the core r behind its virtual core v; `gone` are the replies it consumed. */
  ghost predicate Dispatches(st: System, g: System, s: nat, v: nat, m: Msg)
    requires s < |st.scheds|
  {
    var x := st.scheds[s];
    && |g.scheds| == |st.scheds| && g.spec == st.spec && g.table == st.table && g.cores == st.cores
    && x.running && v < |x.index| == |x.flags| && 0 <= x.index[v] < |st.inbox|
    && (forall t :: 0 <= t < |st.scheds| && t != s ==> g.scheds[t] == st.scheds[t])
    && g.scheds[s] == x.(queue := g.scheds[s].queue, flags := x.flags[v := false])
    && m.op == ExecCpu && m.sender == s && m.core == x.index[v] && m.quantum == x.quantum
    && g.inbox == st.inbox[x.index[v] := st.inbox[x.index[v]] + [m]]
  }

  lemma DispatchShape(st: System, g: System, s: nat, v: nat, m: Msg)
    requires Shape(st) && s < |st.scheds| && Dispatches(st, g, s, v, m)
    requires SchedShape(g, s)
    requires forall k :: 0 <= k < |g.replies| ==> g.replies[k] in st.replies
    ensures Shape(g)
  {
    var r := st.scheds[s].index[v];
    forall q | 0 <= q < |g.cores| ensures CoreShape(g, q) {
      assert CoreShape(st, q);
      if st.cores[q].pending.Some? { assert AtCoreShape(st, q, st.cores[q].pending.value); }
      forall i | 0 <= i < |g.inbox[q]|
        ensures AtCoreShape(g, q, g.inbox[q][i])
        ensures g.inbox[q][i].op == ExecCpu ==> g.inbox[q][i].quantum == g.scheds[g.inbox[q][i].sender].quantum
      {
        if i < |st.inbox[q]| { assert g.inbox[q][i] == st.inbox[q][i] && AtCoreShape(st, q, st.inbox[q][i]); }
      }
    }
    forall t | 0 <= t < |g.scheds| ensures SchedShape(g, t) { assert SchedShape(st, t); }
    forall k | 0 <= k < |g.replies| ensures ReplyShape(g, g.replies[k]) { assert ReplyShape(st, g.replies[k]); }
  }

  /** Only v changes among the busy marks. */
  lemma BusyAfterDispatch(x: RR.Sched, y: RR.Sched, v: nat, r: int)
    requires v < |x.index| == |x.flags| && Distinct(x.index)
    requires y == x.(queue := y.queue, flags := x.flags[v := false])
    ensures BusyOn(y, r) <==> r == x.index[v] || BusyOn(x, r)
  {
    if BusyOn(x, r) {
      var u :| 0 <= u < |x.index| && x.index[u] == r && !x.flags[u];
      assert !y.flags[u];
    }
    assert !y.flags[v];
  }

  /** Sending to a core that carries nothing of s keeps every core exclusive. */
  lemma DispatchKeeps(st: System, g: System, s: nat, v: nat, m: Msg)
    requires Exclusive(st) && s < |st.scheds| && Dispatches(st, g, s, v, m) && Shape(g)
    requires AtCore(st, s, m.core) == 0
    requires forall t, q :: 0 <= t < |st.scheds| && 0 <= q < |st.cores| && (t != s || q != m.core) ==>
               Sum(g.replies, ReplyTo(t, q)) == Sum(st.replies, ReplyTo(t, q))
    requires Sum(g.replies, ReplyTo(s, m.core)) == 0
    requires WorkConserving(g.scheds[s])
    ensures Exclusive(g)
  {
    var r := st.scheds[s].index[v];
    UnusedCoreIsVacant(st, s, v);
    assert CoreExclusive(st, r);
    PushRequest(st, g, r, m);
    forall q | 0 <= q < |g.cores| ensures CoreExclusive(g, q) { assert CoreExclusive(st, q); }
    forall t, q | 0 <= t < |g.scheds| && g.scheds[t].running && 0 <= q < |g.cores| ensures FlagsExact(g, t, q) {
      DispatchFlags(st, g, s, v, m, t, q);
    }
    forall t | 0 <= t < |g.scheds| ensures WorkConserving(g.scheds[t]) { assert WorkConserving(st.scheds[t]); }
  }

  lemma DispatchFlags(st: System, g: System, s: nat, v: nat, m: Msg, t: nat, q: nat)
    requires Shape(st) && Shape(g) && s < |st.scheds| && Dispatches(st, g, s, v, m)
    requires t < |st.scheds| && st.scheds[t].running && q < |st.cores| && FlagsExact(st, t, q)
    requires AtCore(g, t, q) == AtCore(st, t, q) + if t == s && q == m.core then 1 else 0
    requires Holder(g, q) == if q == m.core then Some(s) else Holder(st, q)
    requires q == m.core ==> Holder(st, q) == None
    requires Sum(g.replies, ReplyTo(t, q)) == if t == s && q == m.core then 0 else Sum(st.replies, ReplyTo(t, q))
    ensures FlagsExact(g, t, q)
  {
    assert SchedShape(st, s);
    BusyAfterDispatch(st.scheds[s], g.scheds[s], v, q);
  }

  lemma SubmitKeeps(st: System, s: nat, m: Msg)
    requires Exclusive(st) && Enabled(st, Submit(s, m))
    ensures Exclusive(Next(st, Submit(s, m)))
  {
    var g, x := Next(st, Submit(s, m)), st.scheds[s];
    assert SchedShape(st, s) && WorkConserving(x);
    var v := RR.IdleCore(x.flags);
    if v == RR.NOT_FOUND {
      forall t | 0 <= t < |g.scheds| ensures SchedShape(g, t) && WorkConserving(g.scheds[t]) {
        assert SchedShape(st, t) && WorkConserving(st.scheds[t]);
      }
      assert g.scheds == st.scheds[s := x.(queue := g.scheds[s].queue)];
      SameElsewhere(st, g, s);
    } else {
      SubmitDispatches(st, s, m);
      IdleCoreIsEmpty(st, s, v);
      DispatchKeeps(st, g, s, v, m.(quantum := x.quantum, core := x.index[v]));
    }
  }

  /** A request goes to the lowest idle core, if there is one. */
  lemma SubmitDispatches(st: System, s: nat, m: Msg)
    requires Shape(st) && Enabled(st, Submit(s, m)) && RR.IdleCore(st.scheds[s].flags) != RR.NOT_FOUND
    ensures var g, x := Next(st, Submit(s, m)), st.scheds[s];
            var v := RR.IdleCore(x.flags);
            && 0 <= v < |x.index| == |x.flags|
            && Shape(g) && Dispatches(st, g, s, v, m.(quantum := x.quantum, core := x.index[v]))
            && g.replies == st.replies && g.scheds[s] == x.(flags := x.flags[v := false])
  {
    var g, x := Next(st, Submit(s, m)), st.scheds[s];
    assert SchedShape(st, s);
    var v := RR.IdleCore(x.flags);
    var sent := m.(quantum := x.quantum, core := x.index[v]);
    assert Post(st.inbox, [sent]) == st.inbox[x.index[v] := st.inbox[x.index[v]] + [sent]];
    assert SchedShape(g, s);
    DispatchShape(st, g, s, v, sent);
  }

  /** An idle flag means that nothing is in flight on the core. */
  lemma IdleCoreIsEmpty(st: System, s: nat, v: nat)
    requires Exclusive(st) && s < |st.scheds| && st.scheds[s].running && v < |st.scheds[s].flags|
    ensures |st.scheds[s].index| == |st.scheds[s].flags| && 0 <= st.scheds[s].index[v] < |st.cores|
    ensures InFlight(st, s, st.scheds[s].index[v]) == if st.scheds[s].flags[v] then 0 else 1
  {
    var x := st.scheds[s];
    assert SchedShape(st, s);
    var r := x.index[v];
    assert FlagsExact(st, s, r);
  }

  // ---------------------------------------------------------------- replies

  lemma RepliesWithout(st: System, k: nat, t: nat, q: nat)
    requires k < |st.replies|
    ensures Sum(st.replies, ReplyTo(t, q)) == Sum(Without(st.replies, k), ReplyTo(t, q))
              + if st.replies[k].sender == t && st.replies[k].core == q then 1 else 0
  {
    SumRemove(st.replies, k, ReplyTo(t, q));
  }

  lemma WithoutSubset(st: System, k: nat)
    requires k < |st.replies|
    ensures forall j :: 0 <= j < |Without(st.replies, k)| ==> Without(st.replies, k)[j] in st.replies
  {
  }

  lemma ZombieShape(st: System, k: nat)
    requires Exclusive(st) && Enabled(st, Respond(k)) && st.replies[k].sender < |st.scheds|
    requires !st.scheds[st.replies[k].sender].running
    ensures 0 <= st.replies[k].core < |st.cores| && CoreShape(Next(st, Respond(k)), st.replies[k].core)
  {
    var g, r := Next(st, Respond(k)), st.replies[k].core;
    assert ReplyShape(st, st.replies[k]) && CoreShape(st, r);
    forall i | 0 <= i < |g.inbox[r]| ensures AtCoreShape(g, r, g.inbox[r][i]) {
      assert AtCoreShape(st, r, st.inbox[r][i]);
    }
  }

  lemma ZombieKeeps(st: System, k: nat)
    requires Exclusive(st) && Enabled(st, Respond(k)) && st.replies[k].sender < |st.scheds|
    requires !st.scheds[st.replies[k].sender].running
    ensures Exclusive(Next(st, Respond(k)))
  {
    var g, m := Next(st, Respond(k)), st.replies[k];
    assert ReplyShape(st, m);
    assert CoreExclusive(st, m.core);
    WithoutSubset(st, k);
    ZombieShape(st, k);
    CoresUnchanged(st, g, m.core);
    forall t | 0 <= t < |st.scheds| && st.scheds[t].running ensures FlagsExact(g, t, m.core) {
      assert FlagsExact(st, t, m.core);
      RepliesWithout(st, k, t, m.core);
    }
    forall t, q | 0 <= t < |st.scheds| && 0 <= q < |st.cores| && q != m.core
      ensures Sum(g.replies, ReplyTo(t, q)) == Sum(st.replies, ReplyTo(t, q))
    {
      RepliesWithout(st, k, t, q);
    }
    CoreStepKeeps(st, g, m.core);
  }

  /** A reply to a running scheduler: its core is one it marked busy, and nothing else of it is in flight there. */
  lemma ReplyFindsItsCore(st: System, k: nat) returns (v: nat)
    requires Exclusive(st) && Enabled(st, Respond(k)) && st.replies[k].sender < |st.scheds|
    requires st.scheds[st.replies[k].sender].running
    ensures ReplyShape(st, st.replies[k])
    ensures var m := st.replies[k];
            var x := st.scheds[m.sender];
            && v == RR.VirtualCore(x.index, m.core) && v < |x.index| == |x.flags| && x.index[v] == m.core && !x.flags[v]
            && AtCore(st, m.sender, m.core) == 0
            && Sum(Without(st.replies, k), ReplyTo(m.sender, m.core)) == 0
  {
    var m := st.replies[k];
    var x := st.scheds[m.sender];
    assert ReplyShape(st, m) && SchedShape(st, m.sender) && FlagsExact(st, m.sender, m.core);
    RepliesWithout(st, k, m.sender, m.core);
    assert BusyOn(x, m.core);
    var u :| 0 <= u < |x.index| && x.index[u] == m.core && !x.flags[u];
    assert m.core in x.index;
    v := RR.VirtualCore(x.index, m.core);
  }

  /** A reply to s is consumed and its core, virtual core v, becomes idle again. */
  ghost predicate Frees(st: System, g: System, s: nat, v: nat)
    requires s < |st.scheds|
  {
    var x := st.scheds[s];
    && g.spec == st.spec && g.table == st.table && g.cores == st.cores && g.inbox == st.inbox
    && x.running && v < |x.index| == |x.flags| && x.queue == []
    && g.scheds == st.scheds[s := x.(flags := x.flags[v := true])]
  }

  lemma FreesShape(st: System, g: System, s: nat, v: nat)
    requires Shape(st) && s < |st.scheds| && Frees(st, g, s, v)
    requires forall k :: 0 <= k < |g.replies| ==> g.replies[k] in st.replies
    ensures Shape(g)
  {
    forall q | 0 <= q < |g.cores| ensures CoreShape(g, q) {
      assert CoreShape(st, q);
      if st.cores[q].pending.Some? { assert AtCoreShape(st, q, st.cores[q].pending.value); }
      forall i | 0 <= i < |g.inbox[q]| ensures AtCoreShape(g, q, g.inbox[q][i]) {
        assert AtCoreShape(st, q, st.inbox[q][i]);
      }
    }
    forall t | 0 <= t < |g.scheds| ensures SchedShape(g, t) { assert SchedShape(st, t); }
    forall j | 0 <= j < |g.replies| ensures ReplyShape(g, g.replies[j]) { assert ReplyShape(st, g.replies[j]); }
  }

  lemma FreesKeeps(st: System, g: System, s: nat, v: nat)
    requires Exclusive(st) && s < |st.scheds| && Frees(st, g, s, v) && Shape(g)
    requires 0 <= st.scheds[s].index[v] < |st.cores| && AtCore(st, s, st.scheds[s].index[v]) == 0
    requires forall t, q :: 0 <= t < |st.scheds| && 0 <= q < |st.cores| && (t != s || q != st.scheds[s].index[v]) ==>
               Sum(g.replies, ReplyTo(t, q)) == Sum(st.replies, ReplyTo(t, q))
    requires Sum(g.replies, ReplyTo(s, st.scheds[s].index[v])) == 0
    ensures Exclusive(g)
  {
    forall q | 0 <= q < |g.cores| ensures CoreExclusive(g, q) { assert CoreExclusive(st, q); }
    forall t | 0 <= t < |g.scheds| ensures WorkConserving(g.scheds[t]) { assert WorkConserving(st.scheds[t]); }
    forall t, q | 0 <= t < |g.scheds| && g.scheds[t].running && 0 <= q < |g.cores| ensures FlagsExact(g, t, q) {
      assert FlagsExact(st, t, q) && SchedShape(st, s);
      BusyAfterFreeing(st.scheds[s], v, q);
    }
  }

  lemma BusyAfterFreeing(x: RR.Sched, v: nat, r: int)
    requires v < |x.index| == |x.flags| && Distinct(x.index)
    ensures BusyOn(x.(flags := x.flags[v := true]), r) <==> r != x.index[v] && BusyOn(x, r)
  {
    var y := x.(flags := x.flags[v := true]);
    if r != x.index[v] && BusyOn(x, r) {
      var u :| 0 <= u < |x.index| && x.index[u] == r && !x.flags[u];
      assert !y.flags[u];
    }
  }

  lemma OtherRepliesSame(st: System, k: nat, s: nat, r: nat)
    requires k < |st.replies| && st.replies[k].sender == s && st.replies[k].core == r
    ensures forall t: nat, q: nat :: t != s || q != r ==>
              Sum(Without(st.replies, k), ReplyTo(t, q)) == Sum(st.replies, ReplyTo(t, q))
  {
    forall t: nat, q: nat | t != s || q != r
      ensures Sum(Without(st.replies, k), ReplyTo(t, q)) == Sum(st.replies, ReplyTo(t, q))
    {
      RepliesWithout(st, k, t, q);
    }
  }

  /** A finished request leaves a core nobody waits for. */
  lemma RespondFrees(st: System, k: nat, s: nat, r: nat)
    requires Exclusive(st) && Enabled(st, Respond(k)) && st.replies[k].sender == s && st.replies[k].core == r
    requires s < |st.scheds| && st.scheds[s].running && st.scheds[s].queue == [] && st.replies[k].completed
    ensures Exclusive(Next(st, Respond(k)))
  {
    var g, x := Next(st, Respond(k)), st.scheds[s];
    var v := ReplyFindsItsCore(st, k);
    assert x.(flags := x.flags[v := true]).queue == [];
    WithoutSubset(st, k);
    FreesShape(st, g, s, v);
    OtherRepliesSame(st, k, s, r);
    FreesKeeps(st, g, s, v);
  }

  /** Otherwise the head of the queue takes the core over. */
  lemma RespondDispatches(st: System, k: nat, s: nat, r: nat, v: nat)
    requires Exclusive(st) && Enabled(st, Respond(k)) && ReplyShape(st, st.replies[k])
    requires st.replies[k].sender == s && st.replies[k].core == r && SchedShape(st, s) && WorkConserving(st.scheds[s])
    requires st.scheds[s].running && (st.scheds[s].queue != [] || !st.replies[k].completed)
    requires v == RR.VirtualCore(st.scheds[s].index, r) && v < |st.scheds[s].index| && st.scheds[s].index[v] == r
               && !st.scheds[s].flags[v]
    ensures var g, x := Next(st, Respond(k)), st.scheds[s];
            var ready := RR.Requeued(x.(flags := x.flags[v := true]), st.replies[k]);
            && ready.queue != [] && g.replies == Without(st.replies, k)
            && Dispatches(st, g, s, v, RR.HeadFor(ready, r)) && SchedShape(g, s) && WorkConserving(g.scheds[s])
  {
    var g, m, x := Next(st, Respond(k)), st.replies[k], st.scheds[s];
    var ready := RR.Requeued(x.(flags := x.flags[v := true]), m);
    var sent := RR.HeadFor(ready, r);
    assert x.flags[v := true][v := false] == x.flags;
    assert Post(st.inbox, [sent]) == st.inbox[r := st.inbox[r] + [sent]];
  }

  lemma RespondKeeps(st: System, k: nat)
    requires Exclusive(st) && Enabled(st, Respond(k))
    ensures Exclusive(Next(st, Respond(k)))
  {
    var g, m := Next(st, Respond(k)), st.replies[k];
    assert ReplyShape(st, m);
    var s := m.sender;
    var x := st.scheds[s];
    assert SchedShape(st, s) && WorkConserving(x);
    if !x.running {
      ZombieKeeps(st, k);
    } else if x.queue == [] && m.completed {
      RespondFrees(st, k, s, m.core);
    } else {
      var v := ReplyFindsItsCore(st, k);
      RespondDispatches(st, k, s, m.core, v);
      WithoutSubset(st, k);
      var sent := RR.HeadFor(RR.Requeued(x.(flags := x.flags[v := true]), m), m.core);
      DispatchShape(st, g, s, v, sent);
      OtherRepliesSame(st, k, s, m.core);
      DispatchKeeps(st, g, s, v, sent);
    }
  }

  // ---------------------------------------------------------------- starting and stopping a scheduler

  lemma ChosenAreNew(st: System, n: nat, t: nat, u: nat, k: nat)
    requires Exclusive(st) && n <= |FreeList(st.table)| && k < n
    requires t < |st.scheds| && st.scheds[t].running && u < |st.scheds[t].index|
    ensures Filled(AllocIndex(st.table, n), st.table) && AllocIndex(st.table, n)[k] != st.scheds[t].index[u]
  {
    FilledIffEnoughFree(st.table, n);
  }

  lemma StartShape(st: System, s: nat, n: nat)
    requires Exclusive(st) && Enabled(st, Start(s, n))
    ensures Shape(Next(st, Start(s, n)))
  {
    var g := Next(st, Start(s, n));
    FilledIffEnoughFree(st.table, n);
    forall q | 0 <= q < |g.cores| ensures CoreShape(g, q) {
      assert CoreShape(st, q);
      if st.cores[q].pending.Some? { assert AtCoreShape(st, q, st.cores[q].pending.value); }
      forall i | 0 <= i < |g.inbox[q]| ensures AtCoreShape(g, q, g.inbox[q][i]) {
        assert AtCoreShape(st, q, st.inbox[q][i]);
      }
    }
    forall t | 0 <= t < |g.scheds| ensures SchedShape(g, t) { assert SchedShape(st, t); }
    forall j | 0 <= j < |g.replies| ensures ReplyShape(g, g.replies[j]) { assert ReplyShape(st, st.replies[j]); }
  }

  lemma StartTables(st: System, s: nat, n: nat)
    requires Exclusive(st) && Enabled(st, Start(s, n))
    ensures var g := Next(st, Start(s, n));
            Shape(g) && OwnersDisjoint(g) && OwnedCoresTaken(g)
  {
    var g := Next(st, Start(s, n));
    FilledIffEnoughFree(st.table, n);
    StartShape(st, s, n);
    forall t, u | 0 <= t < |st.scheds| && st.scheds[t].running && 0 <= u < |st.scheds[t].index|
      ensures 0 <= st.scheds[t].index[u] < |g.table| && !g.table[st.scheds[t].index[u]].free
    {
      TakeAt(st.table, Chosen(st.table, n), 0, st.scheds[t].index[u]);
    }
    forall k | 0 <= k < n ensures !g.table[g.scheds[s].index[k]].free {
      assert AllocIndex(st.table, n)[k] == Chosen(st.table, n)[k];
      TakeAt(st.table, Chosen(st.table, n), 0, Chosen(st.table, n)[k]);
    }
    forall t, u, k | 0 <= t < |st.scheds| && st.scheds[t].running && 0 <= u < |st.scheds[t].index| && 0 <= k < n
      ensures g.scheds[s].index[k] != st.scheds[t].index[u]
    {
      ChosenAreNew(st, n, t, u, k);
    }
  }

  /** A fresh scheduler counts exactly when nothing of it is left in flight. */
  lemma StartFlags(st: System, s: nat, n: nat, r: nat)
    requires Exclusive(st) && Enabled(st, Start(s, n)) && r < |st.cores|
    ensures FlagsExact(Next(st, Start(s, n)), s, r) <==> InFlight(st, s, r) == 0
  {
    var g := Next(st, Start(s, n));
    assert !BusyOn(g.scheds[s], r);
    assert AtCore(g, s, r) == AtCore(st, s, r) && Holder(g, r) == Holder(st, r);
    if Holder(st, r) == Some(s) { HolderCounts(st, s, r); }
  }

  /**
   * Placing a VM on a stopped scheduler is safe exactly when everything that scheduler sent before has come to rest.
   */
  lemma StartKeepsIffDrained(st: System, s: nat, n: nat)
    requires Exclusive(st) && Enabled(st, Start(s, n))
    ensures Exclusive(Next(st, Start(s, n))) <==> Drained(st, s)
  {
    var g := Next(st, Start(s, n));
    StartTables(st, s, n);
    assert SchedShape(st, s);
    forall r | 0 <= r < |st.cores| ensures FlagsExact(g, s, r) <==> InFlight(st, s, r) == 0 { StartFlags(st, s, n, r); }
    forall q | 0 <= q < |g.cores| ensures CoreExclusive(g, q) { assert CoreExclusive(st, q); }
    forall t | 0 <= t < |g.scheds| ensures WorkConserving(g.scheds[t]) { assert WorkConserving(st.scheds[t]); }
    forall t, q | 0 <= t < |g.scheds| && t != s && g.scheds[t].running && 0 <= q < |g.cores|
      ensures FlagsExact(g, t, q)
    {
      assert FlagsExact(st, t, q);
    }
  }

  /** What a caller can check: with nothing on the way in either direction, a stopped scheduler has drained. */
  lemma NothingOnTheWayMeansDrained(st: System, s: nat)
    requires Exclusive(st) && s < |st.scheds| && !st.scheds[s].running
    requires st.replies == [] && forall r :: 0 <= r < |st.inbox| ==> st.inbox[r] == []
    ensures Drained(st, s)
  {
    forall r | 0 <= r < |st.cores| ensures InFlight(st, s, r) == 0 { assert CoreExclusive(st, r); }
  }

  /** A box after an abort from x, aimed at core r, joined it. */
  ghost predicate GotAbort(box: seq<Msg>, later: seq<Msg>, x: RR.Sched, r: nat) {
    && |later| == |box| + 1 && later == box + [later[|box|]]
    && later[|box|].op == AbortCpu && later[|box|].core == r && later[|box|].sender == x.self
  }

  ghost predicate BusyFrom(x: RR.Sched, v: nat, r: nat)
    requires |x.index| == |x.flags|
  {
    exists u :: v <= u < |x.flags| && x.index[u] == r && !x.flags[u]
  }

  lemma BusyFromStep(x: RR.Sched, v: nat, r: nat)
    requires |x.index| == |x.flags| && v < |x.flags| && Distinct(x.index)
    ensures BusyFrom(x, v, r) <==> (x.index[v] == r && !x.flags[v]) || BusyFrom(x, v + 1, r)
    ensures x.index[v] == r ==> !BusyFrom(x, v + 1, r)
  {
  }

  lemma PostOne(inbox: seq<seq<Msg>>, a: Msg, rest: seq<Msg>)
    requires 0 <= a.core < |inbox|
    ensures Post(inbox, [a] + rest) == Post(inbox[a.core := inbox[a.core] + [a]], rest)
  {
    assert ([a] + rest)[1..] == rest;
  }

  /** Stopping sends one abort to each busy core, after whatever was sent there before. */
  lemma {:induction false} AbortsArrive(inbox: seq<seq<Msg>>, x: RR.Sched, v: nat, r: nat)
    requires |x.index| == |x.flags| && v <= |x.flags| && Distinct(x.index) && r < |inbox|
    requires forall u :: 0 <= u < |x.index| ==> 0 <= x.index[u] < |inbox|
    ensures var later := Post(inbox, RR.AbortsFrom(x, v))[r];
            if BusyFrom(x, v, r) then GotAbort(inbox[r], later, x, r) else later == inbox[r]
    decreases |x.flags| - v
  {
    if v < |x.flags| {
      BusyFromStep(x, v, r);
      if x.flags[v] {
        assert [] + RR.AbortsFrom(x, v + 1) == RR.AbortsFrom(x, v + 1);
        AbortsArrive(inbox, x, v + 1, r);
      } else {
        var a := RR.AbortFor(x, v);
        PostOne(inbox, a, RR.AbortsFrom(x, v + 1));
        AbortsArrive(inbox[x.index[v] := inbox[x.index[v]] + [a]], x, v + 1, r);
      }
    }
  }

  lemma StopInbox(st: System, s: nat, r: nat)
    requires Exclusive(st) && Enabled(st, Stop(s)) && r < |st.cores|
    ensures var box := Next(st, Stop(s)).inbox[r];
            if BusyOn(st.scheds[s], r)
            then |box| == |st.inbox[r]| + 1 && box == st.inbox[r] + [box[|st.inbox[r]|]]
                && box[|st.inbox[r]|].op == AbortCpu
                 && box[|st.inbox[r]|].core == r && box[|st.inbox[r]|].sender == s
            else box == st.inbox[r]
  {
    assert SchedShape(st, s);
    AbortsArrive(st.inbox, st.scheds[s], 0, r);
    assert BusyFrom(st.scheds[s], 0, r) == BusyOn(st.scheds[s], r);
  }

  lemma StopCoreShape(st: System, s: nat, r: nat)
    requires Exclusive(st) && Enabled(st, Stop(s)) && r < |st.cores|
    ensures CoreShape(Next(st, Stop(s)), r)
  {
    var g := Next(st, Stop(s));
    StopInbox(st, s, r);
    assert CoreShape(st, r);
    if st.cores[r].pending.Some? { assert AtCoreShape(st, r, st.cores[r].pending.value); }
    forall i | 0 <= i < |g.inbox[r]|
      ensures AtCoreShape(g, r, g.inbox[r][i])
      ensures g.inbox[r][i].op == ExecCpu ==> g.inbox[r][i].quantum == g.scheds[g.inbox[r][i].sender].quantum
    {
      if i < |st.inbox[r]| { assert g.inbox[r][i] == st.inbox[r][i] && AtCoreShape(st, r, st.inbox[r][i]); }
    }
  }

  lemma StopCore(st: System, s: nat, r: nat)
    requires Exclusive(st) && Enabled(st, Stop(s)) && r < |st.cores|
    ensures var g := Next(st, Stop(s));
            && CoreShape(g, r) && CoreExclusive(g, r)
            && forall t :: 0 <= t < |st.scheds| && t != s && st.scheds[t].running ==> FlagsExact(g, t, r)
  {
    var g := Next(st, Stop(s));
    StopInbox(st, s, r);
    StopCoreShape(st, s, r);
    assert CoreExclusive(st, r) && FlagsExact(st, s, r);
    forall t | 0 <= t < |st.scheds| && t != s && st.scheds[t].running ensures FlagsExact(g, t, r) {
      StopFlags(st, s, t, r);
    }
  }

  lemma StopFlags(st: System, s: nat, t: nat, r: nat)
    requires Exclusive(st) && Enabled(st, Stop(s)) && r < |st.cores|
    requires t < |st.scheds| && t != s && st.scheds[t].running
    ensures FlagsExact(Next(st, Stop(s)), t, r)
  {
    var g := Next(st, Stop(s));
    StopInbox(st, s, r);
    assert CoreExclusive(st, r) && FlagsExact(st, t, r);
    if BusyOn(st.scheds[s], r) { SumPush(st.inbox[r], g.inbox[r][|st.inbox[r]|], ExecOf(t)); }
  }

  lemma StopKeeps(st: System, s: nat)
    requires Exclusive(st) && Enabled(st, Stop(s))
    ensures Exclusive(Next(st, Stop(s)))
  {
    var g := Next(st, Stop(s));
    assert SchedShape(st, s);
    forall r | 0 <= r < |g.cores| ensures CoreShape(g, r) && CoreExclusive(g, r) { StopCore(st, s, r); }
    forall t, r | 0 <= t < |g.scheds| && g.scheds[t].running && 0 <= r < |g.cores| ensures FlagsExact(g, t, r) {
      StopCore(st, s, r);
    }
    forall t | 0 <= t < |g.scheds| ensures SchedShape(g, t) && WorkConserving(g.scheds[t]) {
      assert SchedShape(st, t) && WorkConserving(st.scheds[t]);
    }
    forall k | 0 <= k < |g.replies| ensures ReplyShape(g, g.replies[k]) { assert ReplyShape(st, st.replies[k]); }
    forall t, u | 0 <= t < |g.scheds| && g.scheds[t].running && 0 <= u < |g.scheds[t].index|
      ensures 0 <= g.scheds[t].index[u] < |g.table| && !g.table[g.scheds[t].index[u]].free
    {
      ReleaseAt(st.table, st.scheds[s].index, 0, st.scheds[t].index[u]);
    }
  }

  // ---------------------------------------------------------------- the theorems

  lemma StepKeeps(st: System, e: Event)
    requires Exclusive(st) && Enabled(st, e) && (e.Start? ==> Drained(st, e.s))
    ensures Exclusive(Next(st, e))
  {
    match e
    case Submit(s, m) => SubmitKeeps(st, s, m);
    case AbortRequest(s, app) => AbortRequestKeeps(st, s, app);
    case Deliver(r) => DeliverKeeps(st, r);
    case Tick(r) => TickKeeps(st, r);
    case Respond(k) => RespondKeeps(st, k);
    case Start(s, n) => StartKeepsIffDrained(st, s, n);
    case Stop(s) => StopKeeps(st, s);
  }

  lemma InitialIsExclusive(st: System)
    requires Initial(st)
    ensures Exclusive(st)
  {
    forall r | 0 <= r < |st.cores| ensures CoreShape(st, r) && CoreExclusive(st, r) {}
    forall s | 0 <= s < |st.scheds| ensures SchedShape(st, s) && WorkConserving(st.scheds[s]) {}
  }

  lemma {:induction false} AlwaysExclusive(st: System, es: seq<Event>)
    requires Exclusive(st) && Possible(st, es) && RestartsDrained(st, es)
    ensures Exclusive(After(st, es))
    decreases |es|
  {
    if es != [] {
      StepKeeps(st, es[0]);
      AlwaysExclusive(Next(st, es[0]), es[1..]);
    }
  }

  /** What exclusivity buys: no core is ever handed a second request, and no reply is refused. */
  ghost predicate Undisturbed(st: System)
    requires Shape(st)
  {
    && (forall r :: 0 <= r < |st.cores| && st.inbox[r] != [] && st.inbox[r][0].op == ExecCpu ==>
          !st.cores[r].pending.Some? && Cores.OnRequest(st.cores[r], st.inbox[r][0], st.spec).1 == Cores.Working)
    && (forall k :: 0 <= k < |st.replies| ==> ReplyAccepted(st, st.replies[k]))
    && (forall s, v :: 0 <= s < |st.scheds| && st.scheds[s].running && 0 <= v < |st.scheds[s].flags| ==>
        OneInFlight(st, s, v))
  }

  ghost predicate ReplyAccepted(st: System, m: Msg) {
    && m.sender < |st.scheds| && RR.WellFormed(st.scheds[m.sender])
    && !RR.OnResponse(st.scheds[m.sender], m).error
  }

  /** A virtual core is marked busy exactly when one request of its scheduler is in flight on the real core. */
  ghost predicate OneInFlight(st: System, s: nat, v: nat)
    requires Shape(st) && s < |st.scheds| && v < |st.scheds[s].flags|
  {
    && v < |st.scheds[s].index| && 0 <= st.scheds[s].index[v] < |st.cores|
    && InFlight(st, s, st.scheds[s].index[v]) == if st.scheds[s].flags[v] then 0 else 1
  }

  lemma ExclusiveIsUndisturbed(st: System)
    requires Exclusive(st)
    ensures Undisturbed(st)
  {
    forall r | 0 <= r < |st.cores| && st.inbox[r] != [] && st.inbox[r][0].op == ExecCpu
      ensures !st.cores[r].pending.Some? && Cores.OnRequest(st.cores[r], st.inbox[r][0], st.spec).1 == Cores.Working
    {
      assert CoreShape(st, r) && CoreExclusive(st, r) && AtCoreShape(st, r, st.inbox[r][0]);
      assert SchedShape(st, st.inbox[r][0].sender);
    }
    forall k | 0 <= k < |st.replies| ensures ReplyAccepted(st, st.replies[k]) {
      assert ReplyShape(st, st.replies[k]) && SchedShape(st, st.replies[k].sender);
      if st.scheds[st.replies[k].sender].running { var v := ReplyFindsItsCore(st, k); }
    }
    forall s, v | 0 <= s < |st.scheds| && st.scheds[s].running && 0 <= v < |st.scheds[s].flags|
      ensures OneInFlight(st, s, v)
    {
      assert SchedShape(st, s);
      IdleCoreIsEmpty(st, s, v);
    }
  }

  /** In every run from rest: one request per core, no lost reply, no waiting while a core is idle. */
  lemma NoCoreIsOverwritten(st: System, es: seq<Event>)
    requires Initial(st) && Possible(st, es) && RestartsDrained(st, es)
    ensures Exclusive(After(st, es)) && Undisturbed(After(st, es))
    ensures forall s :: 0 <= s < |After(st, es).scheds| ==> WorkConserving(After(st, es).scheds[s])
  {
    InitialIsExclusive(st);
    AlwaysExclusive(st, es);
    ExclusiveIsUndisturbed(After(st, es));
  }
}
