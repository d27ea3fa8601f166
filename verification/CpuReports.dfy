/**
 * What the hypervisor hears of a node's requests: one message per reply that counts, and the finished ones in order.
 */
module CpuReports {
  import opened Sums
  import opened CpuMessages
  import opened CoreTable
  import RR = RoundRobin
  import opened CpuSystem
  import opened CpuSafety

  /** What one event tells the hypervisor: an accepted reply, once; nothing else. */
  ghost function Upward(st: System, e: Event): seq<Msg>
    requires Shape(st) && Enabled(st, e)
  {
    if e.Respond? && st.replies[e.k].sender < |st.scheds|
       && RR.Accepts(st.scheds[st.replies[e.k].sender], st.replies[e.k])
    then [RR.Told(st.replies[e.k])] else []
  }

  lemma StepTells(st: System, e: Event)
    requires Shape(st) && Enabled(st, e)
    ensures Next(st, e).told == st.told + Upward(st, e)
  {
    match e
    case Submit(s, m) => assert SchedShape(st, s); RR.RequestOutcome(st.scheds[s], m);
    case AbortRequest(s, app) => assert SchedShape(st, s); RR.RequestOutcome(st.scheds[s], AbortOf(s, app));
    case Respond(k) =>
      assert ReplyShape(st, st.replies[k]) && SchedShape(st, st.replies[k].sender);
      RR.ReplyOutcome(st.scheds[st.replies[k].sender], st.replies[k]);
    case _ =>
  }

  /** The messages of a run, read off the replies it handles. */
  ghost function Reports(st: System, es: seq<Event>): seq<Msg>
    requires Possible(st, es)
    decreases |es|
  {
    if es == [] then [] else Upward(st, es[0]) + Reports(Next(st, es[0]), es[1..])
  }

  /** In every run the hypervisor is told of each accepted reply, finished or not, exactly once and in order. */
  lemma {:induction false} TheHypervisorIsTold(st: System, es: seq<Event>)
    requires Possible(st, es)
    ensures After(st, es).told == st.told + Reports(st, es)
    decreases |es|
  {
    if es == [] {
      assert st.told + [] == st.told;
    } else {
      var g := Next(st, es[0]);
      StepTells(st, es[0]);
      TheHypervisorIsTold(g, es[1..]);
      Associate(st.told, Upward(st, es[0]), Reports(g, es[1..]));
    }
  }

  lemma Associate<T>(a: seq<T>, b: seq<T>, c: seq<T>)
    ensures (a + b) + c == a + (b + c)
  {
  }

  // ---------------------------------------------------------------- finished requests

  ghost function Completed(ms: seq<Msg>): seq<Msg> {
    if ms == [] then [] else (if ms[0].completed then [ms[0]] else []) + Completed(ms[1..])
  }

  lemma {:induction false} CompletedConcat(a: seq<Msg>, b: seq<Msg>)
    ensures Completed(a + b) == Completed(a) + Completed(b)
  {
    if a == [] {
      assert a + b == b;
    } else {
      var first, rest := if a[0].completed then [a[0]] else [], Completed(a[1..]);
      assert (a + b)[0] == a[0] && (a + b)[1..] == a[1..] + b;
      CompletedConcat(a[1..], b);
      assert first + (rest + Completed(b)) == (first + rest) + Completed(b);
    }
  }

  lemma CompletedOne(m: Msg)
    ensures Completed([m]) == if m.completed then [m] else []
  {
    assert [m][1..] == [];
  }

  /** What a reply adds to the finished requests is what it adds to the completed ones told of. */
  lemma ReplyIsToldAsFinished(st: System, k: nat)
    requires Exclusive(st) && Enabled(st, Respond(k))
    ensures Next(st, Respond(k)).finished == st.finished + Completed(Upward(st, Respond(k)))
  {
    var m := st.replies[k];
    assert ReplyShape(st, m);
    assert st.finished + [] == st.finished;
    if st.scheds[m.sender].running {
      var v := ReplyFindsItsCore(st, k);
      CompletedOne(RR.Told(m));
      assert m.completed ==> RR.Told(m) == m;
    }
  }

  lemma StepFinishes(st: System, e: Event)
    requires Exclusive(st) && Enabled(st, e) && Completed(st.told) == st.finished
    ensures Completed(Next(st, e).told) == Next(st, e).finished
  {
    StepTells(st, e);
    CompletedConcat(st.told, Upward(st, e));
    if e.Respond? {
      ReplyIsToldAsFinished(st, e.k);
    } else {
      NothingFinishes(st, e);
      assert Completed(st.told) + [] == Completed(st.told);
    }
  }

  lemma {:induction false} AlwaysTold(st: System, es: seq<Event>)
    requires Exclusive(st) && Possible(st, es) && RestartsDrained(st, es)
    requires Completed(st.told) == st.finished
    ensures Completed(After(st, es).told) == After(st, es).finished
    decreases |es|
  {
    if es != [] {
      StepKeeps(st, es[0]);
      StepFinishes(st, es[0]);
      AlwaysTold(Next(st, es[0]), es[1..]);
    }
  }

  lemma NothingFinishes(st: System, e: Event)
    requires Shape(st) && Enabled(st, e) && !e.Respond?
    ensures Next(st, e).finished == st.finished
  {
  }

  /**
   * In every run from rest the finished requests are the completed ones among what the hypervisor was told, in order.
   */
  lemma FinishedAreTold(start: System, es: seq<Event>)
    requires Initial(start) && Possible(start, es) && RestartsDrained(start, es)
    ensures Completed(After(start, es).told) == After(start, es).finished
  {
    InitialIsExclusive(start);
    AlwaysTold(start, es);
  }
}
