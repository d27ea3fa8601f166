/** Round-robin fairness of one scheduler: nobody is overtaken, and every reply moves the queue by one. */
module CpuFairness {
  import opened CpuMessages
  import opened RoundRobin

  datatype Event = Request(m: Msg) | Response(m: Msg)

  function Handle(s: Sched, e: Event): Effect
    requires WellFormed(s)
  {
    match e
    case Request(m) => OnRequest(s, m)
    case Response(m) => OnResponse(s, m)
  }

  /** A running scheduler with every core busy while somebody waits (CpuSafety.NoCoreIsOverwritten). */
  ghost predicate Busy(s: Sched) {
    s.running && |s.index| == |s.flags| && (s.queue != [] ==> true !in s.flags)
  }

  /** What has become of the request that waits at position p. */
  datatype Fate = StillAt(p: nat) | Sent | Dropped

  /** The fate of the request at position p after one more event, read off what the handler did. */
  ghost function Follow(s: Sched, e: Event, p: nat): Fate
    requires WellFormed(s) && p < |s.queue|
  {
    var x := Handle(s, e);
    match e
    case Request(m) =>
      if m.op == AbortCpu && FirstOfApp(s.queue, m.app) == p then Dropped
      else if m.op == AbortCpu && FirstOfApp(s.queue, m.app) < p then StillAt(p - 1)
      else StillAt(p)
    case Response(m) => if x.toHub == [] then StillAt(p) else if p == 0 then Sent else StillAt(p - 1)
  }

  /**
   * What the event did to the request at position p: it keeps its place or moves up, is sent to a core, or is dropped.
   */
  ghost predicate Fair(s: Sched, e: Event, p: nat)
    requires WellFormed(s) && p < |s.queue|
  {
    var t, f := Handle(s, e), Follow(s, e, p);
    && (f.StillAt? ==> f.p <= p && f.p < |t.next.queue| && t.next.queue[f.p] == s.queue[p]
                       && forall i :: 0 <= i < f.p ==> t.next.queue[i] in s.queue[..p])
    && (f.Sent? ==> |t.toHub| == 1 && t.toHub[0] == s.queue[p].(core := t.toHub[0].core, quantum := s.quantum))
    && (f.Dropped? ==> t.removed == [s.queue[p]] && e.Request? && e.m.op == AbortCpu && e.m.app == s.queue[p].app)
  }

  lemma FairRequest(s: Sched, m: Msg, p: nat)
    requires Busy(s) && p < |s.queue| && !OnRequest(s, m).error
    ensures Fair(s, Request(m), p) && Busy(OnRequest(s, m).next)
  {
    if m.op == AbortCpu {
      var i := FirstOfApp(s.queue, m.app);
      if i < |s.queue| { assert OnRequest(s, m).next.queue == s.queue[..i] + s.queue[i + 1..]; }
    } else {
      assert IdleCore(s.flags) == NOT_FOUND;
    }
  }

  lemma FairResponse(s: Sched, m: Msg, p: nat)
    requires Busy(s) && p < |s.queue| && !OnResponse(s, m).error
    ensures Fair(s, Response(m), p) && Busy(OnResponse(s, m).next)
    ensures Follow(s, Response(m), p) == if p == 0 then Sent else StillAt(p - 1)
  {
    var t := OnResponse(s, m);
    var v := VirtualCore(s.index, m.core);
    var ready := Requeued(s.(flags := s.flags[v := true]), m);
    assert ready.queue[..|s.queue|] == s.queue;
    assert t.next.queue == ready.queue[1..];
    assert true !in s.flags[v := true][v := false];
  }

  /** A request behind p joins the queue later or waits already; it is never in front of p afterwards. */
  lemma NobodyOvertakes(s: Sched, e: Event, p: nat)
    requires Busy(s) && p < |s.queue| && !Handle(s, e).error
    ensures Fair(s, e, p) && Busy(Handle(s, e).next)
    ensures e.Response? ==> Follow(s, e, p) == if p == 0 then Sent else StillAt(p - 1)
  {
    match e
    case Request(m) => FairRequest(s, m, p);
    case Response(m) => FairResponse(s, m, p);
  }

  ghost predicate Smooth(s: Sched, es: seq<Event>)
    decreases |es|
  {
    es == [] || (WellFormed(s) && !Handle(s, es[0]).error && Smooth(Handle(s, es[0]).next, es[1..]))
  }

  function Responses(es: seq<Event>): nat {
    if es == [] then 0 else (if es[0].Response? then 1 else 0) + Responses(es[1..])
  }

  /** The request's fate over a run: followed until it is sent or dropped. */
  ghost function FateAfter(s: Sched, es: seq<Event>, p: nat): Fate
    requires Busy(s) && p < |s.queue| && Smooth(s, es)
    decreases |es|
  {
    if es == [] then StillAt(p)
    else
      NobodyOvertakes(s, es[0], p);
      match Follow(s, es[0], p)
      case StillAt(q) => FateAfter(Handle(s, es[0]).next, es[1..], q)
      case done => done
  }

  /**
   * A request with k others ahead is sent to a core by the (k+1)-th response at the latest, whatever is
   * submitted meanwhile, unless an abort of its own application takes it out of the queue.
   */
  lemma {:induction false} SentWithinKPlusOneResponses(s: Sched, es: seq<Event>, k: nat)
    requires Busy(s) && k < |s.queue| && Smooth(s, es)
    ensures Responses(es) >= k + 1 ==> !FateAfter(s, es, k).StillAt?
    ensures FateAfter(s, es, k).Dropped? ==> exists i :: 0 <= i < |es| && AbortsApp(es[i], s.queue[k].app)
    decreases |es|
  {
    if es != [] {
      NobodyOvertakes(s, es[0], k);
      var f := Follow(s, es[0], k);
      if f.Dropped? {
        assert AbortsApp(es[0], s.queue[k].app);
      } else if f.StillAt? {
        var t := Handle(s, es[0]).next;
        SentWithinKPlusOneResponses(t, es[1..], f.p);
        if FateAfter(t, es[1..], f.p).Dropped? {
          var i :| 0 <= i < |es[1..]| && AbortsApp(es[1..][i], s.queue[k].app);
          assert AbortsApp(es[i + 1], s.queue[k].app);
        }
      }
    }
  }

  ghost predicate AbortsApp(e: Event, app: string) {
    e.Request? && e.m.op == AbortCpu && e.m.app == app
  }

  /** In particular, without aborts of its application the request is sent. */
  lemma FairWithoutAborts(s: Sched, es: seq<Event>, k: nat)
    requires Busy(s) && k < |s.queue| && Smooth(s, es) && Responses(es) >= k + 1
    requires forall i :: 0 <= i < |es| ==> !AbortsApp(es[i], s.queue[k].app)
    ensures FateAfter(s, es, k) == Sent
  {
    SentWithinKPlusOneResponses(s, es, k);
  }
}
