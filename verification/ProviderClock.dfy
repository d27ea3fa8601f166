/** The provider's timeouts on the clock: a subscription expires when its patience ends, and none waits longer. */
module ProviderClock {
  import opened Sums
  import opened CloudProvider
  import opened ProviderRuns

  datatype Timed = Timed(at: real, event: Event)

  /** A subscription that left the queue, when, and whether it was for its timeout. */
  datatype Exit = Exit(sub: Sub, at: real, expired: bool)

  datatype World = World(p: Provider, now: real, exits: seq<Exit>)

  /** Scheduled events fire when they are due: the clock does not pass one. */
  ghost predicate MayMoveTo(w: World, t: real) {
    w.now <= t && forall e :: e in w.p.timers ==> t <= w.p.timers[e].due
  }

  ghost predicate EnabledAt(w: World, t: Timed) {
    && WellFormed(w.p) && Enabled(w.p, t.event) && !Step(w.p, t.event).error && MayMoveTo(w, t.at)
    && match t.event
       case Subscribe(r, now) => now == t.at && r.maxSub >= 0.0  // nothing can be scheduled in the past
       case Expire(event) => t.at == w.p.timers[event].due
       case _ => true
  }

  /** Which subscriptions an event takes out of the queue. */
  ghost function Leaving(p: Provider, e: Event): seq<Sub>
    requires WellFormed(p) && Enabled(p, e)
  {
    match e
    case Expire(event) =>
      var i := IndexOf(p.queue, p.timers[event].request);
      if i < |p.queue| then [p.queue[i]] else []
    case Report(_, _, _, _, _) => p.queue[..Min(|Step(p, e).out|, |p.queue|)]
    case _ => []
  }

  ghost function Exits(subs: seq<Sub>, at: real, expired: bool): (r: seq<Exit>)
    ensures |r| == |subs| && forall i :: 0 <= i < |r| ==> r[i] == Exit(subs[i], at, expired)
  {
    seq(|subs|, i requires 0 <= i < |subs| => Exit(subs[i], at, expired))
  }

  ghost function Next(w: World, t: Timed): World
    requires EnabledAt(w, t)
  {
    World(Step(w.p, t.event).next, t.at, w.exits + Exits(Leaving(w.p, t.event), t.at, t.event.Expire?))
  }

  /** Nobody has waited longer than its patience. */
  ghost predicate Patient(w: World) {
    && (forall i :: 0 <= i < |w.p.queue| ==> StillPatient(w.p.queue[i], w.now))
    && (forall i :: 0 <= i < |w.exits| ==> LeftInTime(w.exits[i]))
  }

  ghost predicate StillPatient(s: Sub, now: real) { s.since <= now <= s.since + s.request.maxSub }

  /** Expired exactly when the patience ended, or dispatched before or then. */
  ghost predicate LeftInTime(x: Exit) {
    StillPatient(x.sub, x.at) && (x.expired ==> x.at == x.sub.since + x.sub.request.maxSub)
  }

  ghost predicate OnTime(w: World) { Inv(w.p) && Patient(w) }

  lemma LaterStillPatient(w: World, t: Timed, i: nat)
    requires OnTime(w) && EnabledAt(w, t) && i < |w.p.queue|
    ensures StillPatient(w.p.queue[i], t.at)
  {
    assert w.p.timers[w.p.queue[i].timeout] == TimerOf(w.p.queue[i]);
  }

  /** A report serves the front of the queue. */
  lemma ReportLeaves(p: Provider, e: Event)
    requires Inv(p) && e.Report?
    ensures var x := Step(p, e);
            && |x.out| <= |p.queue| && x.next.queue == p.queue[|x.out|..] && Leaving(p, e) == p.queue[..|x.out|]
            && x.next.dispatched == p.dispatched + Tickets(p.queue[..|x.out|]) && x.next.expired == p.expired
  {
    ReportServesQueue(p, e.topic, e.zone, e.cores, e.ram, e.disk);
    DrainExpiresNone(Reported(p, e.topic, e.zone, e.cores, e.ram, e.disk));
  }

  /** The queue after an event: a part of the queue before, and the new subscription if the event was one. */
  lemma QueueAfter(p: Provider, e: Event, i: nat)
    requires Inv(p) && Enabled(p, e) && i < |Step(p, e).next.queue|
    ensures var s := Step(p, e).next.queue[i];
            s in p.queue || (e.Subscribe? && s == Sub(e.r, e.now, p.nextEvent))
  {
    match e
    case Report(_, _, _, _, _) => ReportLeaves(p, e);
    case Ask(r) => AskKeepsQueue(p, r);
    case Expire(event) => ExpiryKeepsOthers(p, event, i);
    case Subscribe(_, _) =>
  }

  lemma ExpiryKeepsOthers(p: Provider, event: nat, i: nat)
    requires event in p.timers && i < |OnTimeout(p, event).next.queue|
    ensures OnTimeout(p, event).next.queue[i] in p.queue
  {
    var k := IndexOf(p.queue, p.timers[event].request);
    if k < |p.queue| { LeaveAt(p, k, i); }
  }

  lemma AskKeepsQueue(p: Provider, r: Request)
    requires WellFormed(p)
    ensures OnRequest(p, r).next.queue == p.queue && OnRequest(p, r).next.expired == p.expired
    ensures OnRequest(p, r).next.dispatched == p.dispatched
  {
    SelectMeans(p.table, p.defaultZone, r);
  }

  lemma ExpiringHead(p: Provider, event: nat)
    requires Inv(p) && event in p.timers
    ensures var i := IndexOf(p.queue, p.timers[event].request);
            i < |p.queue| && p.timers[event] == TimerOf(p.queue[i]) && Leaving(p, Expire(event)) == [p.queue[i]]
  {
    assert Waits(p.queue, event);
    var i :| 0 <= i < |p.queue| && p.queue[i].timeout == event;
    IndexOfUnique(p.queue, p.timers[event].request, i);
  }

  lemma StepStaysOnTime(w: World, t: Timed)
    requires OnTime(w) && EnabledAt(w, t)
    ensures OnTime(Next(w, t))
  {
    var g := Next(w, t);
    StepKeeps(w.p, t.event);
    forall i | 0 <= i < |g.p.queue| ensures StillPatient(g.p.queue[i], g.now) {
      QueueAfter(w.p, t.event, i);
      if g.p.queue[i] in w.p.queue {
        var k :| 0 <= k < |w.p.queue| && w.p.queue[k] == g.p.queue[i];
        LaterStillPatient(w, t, k);
      }
    }
    forall i | 0 <= i < |g.exits| ensures LeftInTime(g.exits[i]) {
      if i >= |w.exits| { NewExitIsInTime(w, t, i - |w.exits|); }
    }
  }

  lemma NewExitIsInTime(w: World, t: Timed, i: nat)
    requires OnTime(w) && EnabledAt(w, t) && i < |Leaving(w.p, t.event)|
    ensures LeftInTime(Exit(Leaving(w.p, t.event)[i], t.at, t.event.Expire?))
  {
    match t.event
    case Expire(event) =>
      ExpiringHead(w.p, event);
      LaterStillPatient(w, t, IndexOf(w.p.queue, w.p.timers[event].request));
    case Report(_, _, _, _, _) =>
      ReportLeaves(w.p, t.event);
      LaterStillPatient(w, t, i);
    case _ =>
  }

  /** The exits are those the provider itself keeps account of, by their tickets. */
  lemma LeavingIsBooked(p: Provider, e: Event)
    requires Inv(p) && Enabled(p, e) && !Step(p, e).error
    ensures var q := Step(p, e).next;
            && q.expired == p.expired + (if e.Expire? then Tickets(Leaving(p, e)) else [])
            && q.dispatched == p.dispatched + (if e.Expire? then [] else Tickets(Leaving(p, e)))
  {
    assert p.expired + [] == p.expired && p.dispatched + [] == p.dispatched;
    match e
    case Expire(event) => ExpiryIsBooked(p, event);
    case Report(_, _, _, _, _) => ReportLeaves(p, e);
    case Ask(r) => AskKeepsQueue(p, r);
    case Subscribe(_, _) =>
  }

  lemma ExpiryIsBooked(p: Provider, event: nat)
    requires Inv(p) && event in p.timers
    ensures var q := OnTimeout(p, event).next;
            q.expired == p.expired + Tickets(Leaving(p, Expire(event))) && q.dispatched == p.dispatched
  {
    assert Waits(p.queue, event);
    var i :| 0 <= i < |p.queue| && p.queue[i].timeout == event;
    TimeoutOf(p, event, i);
    IndexOfUnique(p.queue, p.timers[event].request, i);
    assert Tickets([p.queue[i]]) == [event];
  }

  lemma {:induction false} DrainExpiresNone(p: Provider)
    requires WellFormed(p)
    ensures Drain(p).next.expired == p.expired
    decreases |p.queue|
  {
    if p.queue != [] {
      SelectMeans(p.table, p.defaultZone, p.queue[0].request);
      var s := Select(p.table, p.defaultZone, p.queue[0].request);
      if s.Selected? {
        ChargeKeepsValid(p, s.node, p.queue[0].request);
        DrainExpiresNone(Advance(p, s.node));
      }
    }
  }

  ghost predicate TimedPossible(w: World, ts: seq<Timed>)
    decreases |ts|
  {
    ts == [] || (EnabledAt(w, ts[0]) && TimedPossible(Next(w, ts[0]), ts[1..]))
  }

  ghost function TimedAfter(w: World, ts: seq<Timed>): World
    requires TimedPossible(w, ts)
    decreases |ts|
  {
    if ts == [] then w else TimedAfter(Next(w, ts[0]), ts[1..])
  }

  lemma {:induction false} AlwaysOnTime(w: World, ts: seq<Timed>)
    requires OnTime(w) && TimedPossible(w, ts)
    ensures OnTime(TimedAfter(w, ts))
    decreases |ts|
  {
    if ts != [] {
      StepStaysOnTime(w, ts[0]);
      AlwaysOnTime(Next(w, ts[0]), ts[1..]);
    }
  }

  /**
   * On the clock: in every run no subscription waits longer than its patience, whoever expires does so at the moment
   * it ends, and whoever is dispatched is so before or then.
   */
  lemma PatienceIsKept(defaultZone: string, priorityOn: bool, ts: seq<Timed>)
    requires TimedPossible(World(Start(defaultZone, priorityOn), 0.0, []), ts)
    ensures Patient(TimedAfter(World(Start(defaultZone, priorityOn), 0.0, []), ts))
  {
    StartInv(defaultZone, priorityOn);
    AlwaysOnTime(World(Start(defaultZone, priorityOn), 0.0, []), ts);
  }
}
