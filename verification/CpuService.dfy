/** Fairness of the node: a waiting request is sent to a core by its scheduler's (k+1)-th reply, come what may. */
module CpuService {
  import opened Sums
  import opened CpuMessages
  import opened CoreTable
  import RR = RoundRobin
  import Fair = CpuFairness
  import opened CpuSystem
  import opened CpuSafety

  /** The step is a reply to m's scheduler, which sends m, with a new quantum, to the core the reply came from. */
  ghost predicate SendsNow(st: System, e: Event, m: Msg)
    requires Shape(st) && Enabled(st, e)
  {
    && e.Respond? && st.replies[e.k].sender == m.sender < |st.scheds|
    && var r := st.replies[e.k].core;
       && 0 <= r < |st.inbox|
       && Next(st, e).inbox == st.inbox[r := st.inbox[r] + [m.(core := r, quantum := st.scheds[m.sender].quantum)]]
  }

  /** Some step of the run sends m. */
  ghost predicate IsSent(st: System, es: seq<Event>, m: Msg)
    requires Possible(st, es)
    decreases |es|
  {
    es != [] && (SendsNow(st, es[0], m) || IsSent(Next(st, es[0]), es[1..], m))
  }

  ghost predicate RepliesTo(st: System, e: Event, s: nat)
    requires Shape(st) && Enabled(st, e)
  {
    e.Respond? && st.replies[e.k].sender == s
  }

  /** How many replies scheduler s handles in the run. */
  ghost function RepliesHandled(st: System, es: seq<Event>, s: nat): nat
    requires Possible(st, es)
    decreases |es|
  {
    if es == [] then 0
    else (if RepliesTo(st, es[0], s) then 1 else 0) + RepliesHandled(Next(st, es[0]), es[1..], s)
  }

  /** The scheduler is stopped, or asked to drop a request of the application. */
  ghost predicate Withdraws(e: Event, s: nat, app: string) {
    (e.Stop? && e.s == s) || (e.AbortRequest? && e.s == s && e.app == app)
  }

  /** m waits at position p of scheduler s. */
  ghost predicate WaitsAt(st: System, s: nat, p: int, m: Msg) {
    s < |st.scheds| && 0 <= p < |st.scheds[s].queue| && st.scheds[s].queue[p] == m && m.sender == s
  }

  lemma WaitingMeansBusy(st: System, s: nat, p: nat, m: Msg)
    requires Exclusive(st) && WaitsAt(st, s, p, m)
    ensures Fair.Busy(st.scheds[s])
  {
    assert SchedShape(st, s) && WorkConserving(st.scheds[s]);
  }

  lemma ReplyMovesUp(st: System, k: nat, p: nat, m: Msg)
    requires Exclusive(st) && Enabled(st, Respond(k)) && WaitsAt(st, m.sender, p, m)
               && RepliesTo(st, Respond(k), m.sender)
    ensures if p == 0 then SendsNow(st, Respond(k), m) else WaitsAt(Next(st, Respond(k)), m.sender, p - 1, m)
  {
    var s, reply := m.sender, st.replies[k];
    var x := st.scheds[s];
    WaitingMeansBusy(st, s, p, m);
    var v := ReplyFindsItsCore(st, k);
    Fair.NobodyOvertakes(x, Fair.Response(reply), p);
    if p == 0 {
      var ready := RR.Requeued(x.(flags := x.flags[v := true]), reply);
      assert ready.queue[0] == m;
      var sent := RR.HeadFor(ready, reply.core);
      assert Post(st.inbox, [sent]) == st.inbox[reply.core := st.inbox[reply.core] + [sent]];
    }
  }

  lemma HypervisorKeepsWaiting(st: System, e: Event, p: nat, m: Msg)
    requires Exclusive(st) && Enabled(st, e) && WaitsAt(st, m.sender, p, m)
    requires (e.Submit? || e.AbortRequest?) && e.s == m.sender && !Withdraws(e, m.sender, m.app)
    ensures exists q :: 0 <= q <= p && WaitsAt(Next(st, e), m.sender, q, m)
  {
    var s := m.sender;
    WaitingMeansBusy(st, s, p, m);
    var request := if e.Submit? then e.m else AbortOf(s, e.app);
    Fair.NobodyOvertakes(st.scheds[s], Fair.Request(request), p);
    var f := Fair.Follow(st.scheds[s], Fair.Request(request), p);
    assert WaitsAt(Next(st, e), s, f.p, m);
  }

  lemma OthersKeepWaiting(st: System, e: Event, p: nat, m: Msg)
    requires Exclusive(st) && Enabled(st, e) && WaitsAt(st, m.sender, p, m)
    requires !RepliesTo(st, e, m.sender) && !Withdraws(e, m.sender, m.app)
    requires !((e.Submit? || e.AbortRequest?) && e.s == m.sender)
    ensures WaitsAt(Next(st, e), m.sender, p, m)
  {
    assert SchedShape(st, m.sender);
    if e.Respond? { assert ReplyShape(st, st.replies[e.k]); }
    if e.Tick? { TickEffect(st, e.r); }
  }

  /** One step: a reply moves m up by one place or sends it; nothing else sets it back. */
  lemma StepServes(st: System, e: Event, p: nat, m: Msg)
    requires Exclusive(st) && Enabled(st, e) && WaitsAt(st, m.sender, p, m) && !Withdraws(e, m.sender, m.app)
    ensures SendsNow(st, e, m)
         || exists q :: 0 <= q <= (if RepliesTo(st, e, m.sender) then p - 1 else p)
             && WaitsAt(Next(st, e), m.sender, q, m)
  {
    if RepliesTo(st, e, m.sender) {
      ReplyMovesUp(st, e.k, p, m);
    } else if (e.Submit? || e.AbortRequest?) && e.s == m.sender {
      HypervisorKeepsWaiting(st, e, p, m);
    } else {
      OthersKeepWaiting(st, e, p, m);
    }
  }

  /**
   * In every run from a sound state, a request with p others ahead is sent to a core by the (p+1)-th reply its
   * scheduler handles, whatever is submitted, aborted, started or stopped elsewhere.
   */
  lemma {:induction false} SentWithinReplies(st: System, es: seq<Event>, p: nat, m: Msg)
    requires Exclusive(st) && Possible(st, es) && RestartsDrained(st, es) && WaitsAt(st, m.sender, p, m)
    requires forall i :: 0 <= i < |es| ==> !Withdraws(es[i], m.sender, m.app)
    requires RepliesHandled(st, es, m.sender) >= p + 1
    ensures IsSent(st, es, m)
    decreases |es|
  {
    StepServes(st, es[0], p, m);
    if !SendsNow(st, es[0], m) {
      var q :| 0 <= q <= (if RepliesTo(st, es[0], m.sender) then p - 1 else p)
          && WaitsAt(Next(st, es[0]), m.sender, q, m);
      StepKeeps(st, es[0]);
      SentWithinReplies(Next(st, es[0]), es[1..], q, m);
    }
  }

  /** ... in particular from any state a node at rest can get into. */
  lemma EveryWaitingRequestIsServed(start: System, before: seq<Event>, es: seq<Event>, p: nat, m: Msg)
    requires Initial(start) && Possible(start, before) && RestartsDrained(start, before)
    requires Possible(After(start, before), es) && RestartsDrained(After(start, before), es)
    requires WaitsAt(After(start, before), m.sender, p, m)
    requires forall i :: 0 <= i < |es| ==> !Withdraws(es[i], m.sender, m.app)
    requires RepliesHandled(After(start, before), es, m.sender) >= p + 1
    ensures IsSent(After(start, before), es, m)
  {
    InitialIsExclusive(start);
    AlwaysExclusive(start, before);
    SentWithinReplies(After(start, before), es, p, m);
  }
}
