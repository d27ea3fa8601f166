/** Runs of the cloud provider: queue against timers, each subscription's single exit, and the core estimates. */
module ProviderRuns {
  import opened Sums
  import opened NodeTables
  import opened CloudProvider

  datatype Event =
    | Ask(r: Request)
    | Subscribe(r: Request, now: real)
    | Expire(event: nat)
    | Report(topic: string, zone: string, cores: nat, ram: nat, disk: nat)

  /** A request object is queued at most once; only scheduled events fire. */
  ghost predicate Enabled(p: Provider, e: Event) {
    match e
    case Subscribe(r, _) => IndexOf(p.queue, r.id) == |p.queue|
    case Expire(event) => event in p.timers
    case _ => true
  }

  ghost function Step(p: Provider, e: Event): Effect
    requires WellFormed(p) && Enabled(p, e)
  {
    match e
    case Ask(r) => OnRequest(p, r)
    case Subscribe(r, now) => Effect(OnSubscribe(p, r, now), [], false)
    case Expire(event) => OnTimeout(p, event)
    case Report(topic, zone, cores, ram, disk) => OnUpdate(p, topic, zone, cores, ram, disk)
  }

  // ---------------------------------------------------------------- the invariant

  ghost function Tickets(queue: seq<Sub>): seq<nat> {
    seq(|queue|, i requires 0 <= i < |queue| => queue[i].timeout)
  }

  ghost function Numbers(n: nat): seq<nat> { seq(n, i => i) }

  ghost predicate Waits(queue: seq<Sub>, event: nat) {
    exists i :: 0 <= i < |queue| && queue[i].timeout == event
  }

  /** Queued subscriptions and scheduled timeouts are in one-to-one correspondence. */
  ghost predicate TimersMatch(p: Provider) {
    QueuedAreTimed(p) && TimedAreQueued(p) && IdsDistinct(p.queue)
  }

  /** The event that belongs to a subscription, due when its patience ends. */
  function TimerOf(s: Sub): Timer { Timer(s.request.id, s.since + s.request.maxSub) }

  ghost predicate QueuedAreTimed(p: Provider) {
    forall i :: 0 <= i < |p.queue| ==>
      p.queue[i].timeout in p.timers && p.timers[p.queue[i].timeout] == TimerOf(p.queue[i])
  }

  ghost predicate TimedAreQueued(p: Provider) {
    forall e :: e in p.timers ==> Waits(p.queue, e)
  }

  ghost predicate IdsDistinct(queue: seq<Sub>) {
    forall i, j :: 0 <= i < j < |queue| ==> queue[i].request.id != queue[j].request.id
  }

  /** The queue keeps the order of arrival, and whatever was dispatched came before all that still waits. */
  ghost predicate InOrder(p: Provider) {
    && (forall i, j :: 0 <= i < j < |p.queue| ==> p.queue[i].timeout < p.queue[j].timeout)
    && (forall i :: 0 <= i < |p.queue| ==> p.queue[i].timeout < p.nextEvent)
    && (forall i, j :: 0 <= i < j < |p.dispatched| ==> p.dispatched[i] < p.dispatched[j])
    && (forall i, j :: 0 <= i < |p.dispatched| && 0 <= j < |p.queue| ==> p.dispatched[i] < p.queue[j].timeout)
    && (forall i :: 0 <= i < |p.dispatched| ==> p.dispatched[i] < p.nextEvent)
  }

  /** Every subscription ever made is waiting, dispatched or expired, exactly once. */
  ghost predicate LeavesOnce(p: Provider) {
    multiset(Tickets(p.queue)) + multiset(p.dispatched) + multiset(p.expired) == multiset(Numbers(p.nextEvent))
  }

  /** The cores an assignment takes from node n. */
  ghost function AskedOf(n: nat): Assignment -> nat {
    (a: Assignment) => if a.node == n then Total(a.request.vms) else 0
  }

  /** Each estimate is what the node last reported less the cores of every request sent to it since. */
  ghost predicate EstimatesBalance(p: Provider) {
    && |p.reported| == |p.since| == |p.table.nodes|
    && forall n :: 0 <= n < |p.table.nodes| ==>
         p.since[n] <= |p.sent| && p.table.nodes[n].cores + Sum(p.sent[p.since[n]..], AskedOf(n)) == p.reported[n]
  }

  ghost predicate Inv(p: Provider) {
    WellFormed(p) && TimersMatch(p) && InOrder(p) && LeavesOnce(p) && EstimatesBalance(p)
  }

  // ---------------------------------------------------------------- steps

  lemma {:induction false} IndexOfUnique(queue: seq<Sub>, id: nat, i: nat)
    requires i < |queue| && queue[i].request.id == id
    requires IdsDistinct(queue)
    ensures IndexOf(queue, id) == i
  {
    var j := IndexOf(queue, id);
    assert j <= i;
  }

  lemma SubscribeTimed(p: Provider, r: Request, now: real)
    requires TimedAreQueued(p)
    ensures TimedAreQueued(OnSubscribe(p, r, now))
  {
    var q := OnSubscribe(p, r, now);
    forall e | e in q.timers ensures Waits(q.queue, e) {
      if e == p.nextEvent {
        assert q.queue[|p.queue|].timeout == e;
      } else {
        assert Waits(p.queue, e);
        var i :| 0 <= i < |p.queue| && p.queue[i].timeout == e;
        assert q.queue[i].timeout == e;
      }
    }
  }

  lemma SubscribeTimers(p: Provider, r: Request, now: real)
    requires TimersMatch(p) && InOrder(p) && Enabled(p, Subscribe(r, now))
    ensures TimersMatch(OnSubscribe(p, r, now))
  {
    SubscribeTimed(p, r, now);
  }

  lemma SubscribeLeaves(p: Provider, r: Request, now: real)
    requires LeavesOnce(p)
    ensures LeavesOnce(OnSubscribe(p, r, now))
  {
    var q := OnSubscribe(p, r, now);
    assert Tickets(q.queue) == Tickets(p.queue) + [p.nextEvent];
    assert Numbers(q.nextEvent) == Numbers(p.nextEvent) + [p.nextEvent];
  }

  lemma SubscribeOrder(p: Provider, r: Request, now: real)
    requires InOrder(p)
    ensures InOrder(OnSubscribe(p, r, now))
  {
  }

  lemma SubscribeKeeps(p: Provider, r: Request, now: real)
    requires Inv(p) && Enabled(p, Subscribe(r, now))
    ensures Inv(OnSubscribe(p, r, now))
  {
    SubscribeTimers(p, r, now);
    SubscribeLeaves(p, r, now);
    SubscribeOrder(p, r, now);
  }

  /** Taking the i-th subscription out of the queue, with its timer. */
  ghost function Leave(p: Provider, i: nat): Provider
    requires i < |p.queue|
  {
    p.(queue := p.queue[..i] + p.queue[i + 1..], timers := p.timers - {p.queue[i].timeout})
  }

  lemma LeaveAt(p: Provider, i: nat, k: nat)
    requires i < |p.queue| && k < |p.queue| - 1
    ensures Leave(p, i).queue[k] == p.queue[if k < i then k else k + 1]
  {
  }

  lemma LeaveTimed(p: Provider, i: nat)
    requires TimedAreQueued(p) && i < |p.queue|
    ensures TimedAreQueued(Leave(p, i))
  {
    var q := Leave(p, i);
    forall e | e in q.timers ensures Waits(q.queue, e) {
      assert Waits(p.queue, e);
      var k :| 0 <= k < |p.queue| && p.queue[k].timeout == e;
      assert q.queue[if k < i then k else k - 1].timeout == e;
    }
  }

  lemma LeaveIds(p: Provider, i: nat)
    requires IdsDistinct(p.queue) && i < |p.queue|
    ensures IdsDistinct(Leave(p, i).queue)
  {
    var q := Leave(p, i);
    forall j, k | 0 <= j < k < |q.queue| ensures q.queue[j].request.id != q.queue[k].request.id {
      LeaveAt(p, i, j);
      LeaveAt(p, i, k);
    }
  }

  lemma LeaveTimers(p: Provider, i: nat)
    requires TimersMatch(p) && InOrder(p) && i < |p.queue|
    ensures TimersMatch(Leave(p, i))
  {
    var q := Leave(p, i);
    forall k | 0 <= k < |q.queue|
      ensures q.queue[k].timeout in q.timers && q.timers[q.queue[k].timeout] == TimerOf(q.queue[k])
    {
      LeaveAt(p, i, k);
    }
    LeaveTimed(p, i);
    LeaveIds(p, i);
  }

  lemma LeaveTickets(p: Provider, i: nat)
    requires i < |p.queue|
    ensures multiset(Tickets(p.queue)) == multiset(Tickets(Leave(p, i).queue)) + multiset{p.queue[i].timeout}
  {
    var t := Tickets(p.queue);
    assert Tickets(Leave(p, i).queue) == t[..i] + t[i + 1..];
    assert t == t[..i] + [t[i]] + t[i + 1..];
  }

  ghost function Expired(p: Provider, i: nat): Provider
    requires i < |p.queue|
  {
    Leave(p, i).(expired := p.expired + [p.queue[i].timeout])
  }

  lemma ExpireOrder(p: Provider, i: nat)
    requires InOrder(p) && i < |p.queue|
    ensures InOrder(Expired(p, i))
  {
    var q := Expired(p, i);
    forall j, k | 0 <= j < k < |q.queue| ensures q.queue[j].timeout < q.queue[k].timeout {
      LeaveAt(p, i, j);
      LeaveAt(p, i, k);
    }
    forall k | 0 <= k < |q.queue|
      ensures q.queue[k].timeout < q.nextEvent
      ensures forall j :: 0 <= j < |q.dispatched| ==> q.dispatched[j] < q.queue[k].timeout
    {
      LeaveAt(p, i, k);
    }
  }

  lemma ExpireKeeps(p: Provider, i: nat)
    requires Inv(p) && i < |p.queue|
    ensures Inv(Expired(p, i))
  {
    LeaveTimers(p, i);
    LeaveTickets(p, i);
    ExpireOrder(p, i);
    assert multiset(Expired(p, i).expired) == multiset(p.expired) + multiset{p.queue[i].timeout};
  }

  lemma TimeoutOf(p: Provider, event: nat, i: nat)
    requires TimersMatch(p) && event in p.timers && i < |p.queue| && p.queue[i].timeout == event
    ensures OnTimeout(p, event) == Effect(Expired(p, i), [TimedOut(p.queue[i].request)], false)
    ensures p.queue[i].request.id == p.timers[event].request
  {
    IndexOfUnique(p.queue, p.timers[event].request, i);
  }

  /** A scheduled timeout always finds its subscription: the error branch cannot be reached. */
  lemma TimeoutFindsItsRequest(p: Provider, event: nat)
    requires Inv(p) && event in p.timers
    ensures var e := OnTimeout(p, event);
            && !e.error && e.next.expired == p.expired + [event] && e.next.dispatched == p.dispatched
            && Inv(e.next)
            && exists i :: 0 <= i < |p.queue| && p.queue[i].timeout == event
                           && e.out == [TimedOut(p.queue[i].request)] && e.next.queue == Without(p.queue, i)
  {
    assert Waits(p.queue, event);
    var i :| 0 <= i < |p.queue| && p.queue[i].timeout == event;
    TimeoutOf(p, event, i);
    ExpireKeeps(p, i);
  }

  lemma ChargeBalances(p: Provider, n: nat, r: Request)
    requires WellFormed(p) && EstimatesBalance(p) && n < |p.table.nodes| && Total(r.vms) <= p.table.nodes[n].cores
    ensures EstimatesBalance(Charge(p, n, r))
  {
    var q := Charge(p, n, r);
    forall k | 0 <= k < |q.table.nodes|
      ensures q.since[k] <= |q.sent| && q.table.nodes[k].cores + Sum(q.sent[q.since[k]..], AskedOf(k)) == q.reported[k]
    {
      AskedPush(p.sent, p.since[k], Assignment(n, r), k);
    }
  }

  lemma AskedPush(sent: seq<Assignment>, from: nat, a: Assignment, n: nat)
    requires from <= |sent|
    ensures Sum((sent + [a])[from..], AskedOf(n)) == Sum(sent[from..], AskedOf(n)) + AskedOf(n)(a)
  {
    assert (sent + [a])[from..] == sent[from..] + [a];
    SumPush(sent[from..], a, AskedOf(n));
  }

  lemma ChargeKeeps(p: Provider, n: nat, r: Request)
    requires Inv(p) && n < |p.table.nodes| && Total(r.vms) <= p.table.nodes[n].cores
    ensures Inv(Charge(p, n, r))
  {
    ChargeKeepsValid(p, n, r);
    ChargeBalances(p, n, r);
  }

  /** The head leaves the queue and is dispatched. */
  ghost function HeadGone(p: Provider): Provider
    requires p.queue != []
  {
    Leave(p, 0).(dispatched := p.dispatched + [p.queue[0].timeout])
  }

  lemma HeadGoneKeeps(p: Provider)
    requires Inv(p) && p.queue != []
    ensures Inv(HeadGone(p))
  {
    LeaveTimers(p, 0);
    LeaveTickets(p, 0);
    HeadGoneOrder(p);
    assert multiset(HeadGone(p).dispatched) == multiset(p.dispatched) + multiset{p.queue[0].timeout};
  }

  lemma HeadGoneOrder(p: Provider)
    requires InOrder(p) && p.queue != []
    ensures InOrder(HeadGone(p))
  {
    var q := HeadGone(p);
    assert forall k :: 0 <= k < |q.queue| ==> q.queue[k] == p.queue[k + 1];
  }

  lemma AdvanceKeeps(p: Provider, n: nat)
    requires Inv(p) && p.queue != [] && n < |p.table.nodes| && Total(p.queue[0].request.vms) <= p.table.nodes[n].cores
    ensures Inv(Advance(p, n))
  {
    var c := Charge(p, n, p.queue[0].request);
    ChargeKeeps(p, n, p.queue[0].request);
    HeadGoneKeeps(c);
    assert c.queue[..0] + c.queue[1..] == c.queue[1..];
    assert Advance(p, n) == HeadGone(c);
  }

  /** What serving the queue sent: the front of the queue, in order. */
  ghost predicate SentFront(p: Provider, e: Effect) {
    && |e.out| <= |p.queue| && e.next.queue == p.queue[|e.out|..]
    && e.next.dispatched == p.dispatched + Tickets(p.queue[..|e.out|])
    && forall i :: 0 <= i < |e.out| ==> e.out[i].Dispatched? && e.out[i].request == p.queue[i].request
  }

  lemma SentFrontStep(p: Provider, q: Provider, rest: Effect, topic: string)
    requires p.queue != [] && q.queue == p.queue[1..] && q.dispatched == p.dispatched + [p.queue[0].timeout]
    requires SentFront(q, rest)
    ensures SentFront(p, Effect(rest.next, [Dispatched(p.queue[0].request, topic)] + rest.out, rest.error))
  {
    var out := [Dispatched(p.queue[0].request, topic)] + rest.out;
    forall i | 0 <= i < |out| ensures out[i].Dispatched? && out[i].request == p.queue[i].request {
      if i > 0 { assert out[i] == rest.out[i - 1] && p.queue[i] == q.queue[i - 1]; }
    }
    assert Tickets(p.queue[..|out|]) == [p.queue[0].timeout] + Tickets(q.queue[..|rest.out|]);
  }

  /** Serving the queue ends with it empty, or with a head that fits nowhere, or for want of a default zone. */
  lemma {:induction false} DrainServesQueue(p: Provider)
    requires Inv(p)
    ensures var e := Drain(p);
            && Inv(e.next) && SentFront(p, e)
            && (!e.error ==> e.next.queue == [] || FitsNowhere(e.next.table, p.defaultZone, e.next.queue[0].request))
            && (e.error ==> !FindNodesByZone(e.next.table, p.defaultZone).Some? && e.next.queue != [])
    decreases |p.queue|
  {
    if p.queue != [] {
      SelectMeans(p.table, p.defaultZone, p.queue[0].request);
      if Select(p.table, p.defaultZone, p.queue[0].request).Selected? {
        var n := Select(p.table, p.defaultZone, p.queue[0].request).node;
        AdvanceKeeps(p, n);
        DrainServesQueue(Advance(p, n));
        SentFrontStep(p, Advance(p, n), Drain(Advance(p, n)), TopicForNode(p.table, n));
      }
    }
  }

  lemma ReportedKeeps(p: Provider, topic: string, zone: string, cores: nat, ram: nat, disk: nat)
    requires Inv(p)
    ensures Inv(Reported(p, topic, zone, cores, ram, disk))
  {
    AddOrUpdateNodes(p.table, topic, zone, cores, ram, disk);
    var q := Reported(p, topic, zone, cores, ram, disk);
    assert p.sent[|p.sent|..] == [];
    assert EstimatesBalance(q);
  }

  lemma AskKeeps(p: Provider, r: Request)
    requires Inv(p)
    ensures Inv(OnRequest(p, r).next) && |OnRequest(p, r).out| <= 1
    ensures OnRequest(p, r).out != [] && OnRequest(p, r).out[0].Dispatched? ==>
              p.queue == [] || (p.priorityOn && r.priority)
  {
    SelectMeans(p.table, p.defaultZone, r);
    match Select(p.table, p.defaultZone, r)
    case Selected(n) => ChargeKeeps(p, n, r);
    case _ =>
  }

  lemma StepKeeps(p: Provider, e: Event)
    requires Inv(p) && Enabled(p, e)
    ensures Inv(Step(p, e).next)
    ensures e.Expire? ==> !Step(p, e).error
  {
    match e
    case Ask(r) => AskKeeps(p, r);
    case Subscribe(r, now) => SubscribeKeeps(p, r, now);
    case Expire(event) => TimeoutFindsItsRequest(p, event);
    case Report(topic, zone, cores, ram, disk) =>
      ReportedKeeps(p, topic, zone, cores, ram, disk);
      DrainServesQueue(Reported(p, topic, zone, cores, ram, disk));
  }

  // ---------------------------------------------------------------- runs

  ghost predicate Possible(p: Provider, es: seq<Event>)
    decreases |es|
  {
    es == [] || (WellFormed(p) && Enabled(p, es[0]) && !Step(p, es[0]).error && Possible(Step(p, es[0]).next, es[1..]))
  }

  ghost function After(p: Provider, es: seq<Event>): Provider
    requires Possible(p, es)
    decreases |es|
  {
    if es == [] then p else After(Step(p, es[0]).next, es[1..])
  }

  lemma {:induction false} AlwaysInv(p: Provider, es: seq<Event>)
    requires Inv(p) && Possible(p, es)
    ensures Inv(After(p, es))
    decreases |es|
  {
    if es != [] {
      StepKeeps(p, es[0]);
      AlwaysInv(Step(p, es[0]).next, es[1..]);
    }
  }

  ghost function Start(defaultZone: string, priorityOn: bool): Provider {
    Provider(EMPTY, defaultZone, priorityOn, [], map[], 0, [], [], [], [], [])
  }

  lemma StartInv(defaultZone: string, priorityOn: bool)
    ensures Inv(Start(defaultZone, priorityOn))
  {
    var p := Start(defaultZone, priorityOn);
    assert Tickets(p.queue) == [] && Numbers(0) == [];
  }

  /**
   * In every run: timers and queue correspond and no timeout fails; each subscription leaves at most once, in
   * order of arrival when dispatched; every estimate is the last report less the dispatches since.
   */
  lemma ProviderAlwaysSound(defaultZone: string, priorityOn: bool, es: seq<Event>, event: nat)
    requires Possible(Start(defaultZone, priorityOn), es)
    ensures var p := After(Start(defaultZone, priorityOn), es);
            && TimersMatch(p) && InOrder(p) && LeavesOnce(p) && EstimatesBalance(p)
            && (event in p.timers ==> !OnTimeout(p, event).error)
            && (event < p.nextEvent ==>
                  multiset(Tickets(p.queue))[event] + multiset(p.dispatched)[event] + multiset(p.expired)[event] == 1)
  {
    StartInv(defaultZone, priorityOn);
    AlwaysInv(Start(defaultZone, priorityOn), es);
    var p := After(Start(defaultZone, priorityOn), es);
    if event in p.timers { TimeoutFindsItsRequest(p, event); }
    if event < p.nextEvent { NumberOnce(p.nextEvent, event); }
  }

  lemma {:induction false} NumberOnce(n: nat, k: nat)
    ensures multiset(Numbers(n))[k] == if k < n then 1 else 0
  {
    if n > 0 {
      NumberOnce(n - 1, k);
      assert Numbers(n) == Numbers(n - 1) + [n - 1];
    }
  }

  /** After a report, with no error, the queue is empty or its head fits nowhere. */
  lemma ReportServesQueue(p: Provider, topic: string, zone: string, cores: nat, ram: nat, disk: nat)
    requires Inv(p)
    ensures var e := OnUpdate(p, topic, zone, cores, ram, disk);
            && Inv(e.next)
            && (!e.error ==> e.next.queue == [] || FitsNowhere(e.next.table, p.defaultZone, e.next.queue[0].request))
            && SentFront(p, e)
  {
    ReportedKeeps(p, topic, zone, cores, ram, disk);
    DrainServesQueue(Reported(p, topic, zone, cores, ram, disk));
  }

  // ---------------------------------------------------------------- what was sent, and what was charged for it

  ghost function Dispatches(out: seq<Out>): seq<Out> {
    if out == [] then [] else (if out[0].Dispatched? then [out[0]] else []) + Dispatches(out[1..])
  }

  /** The message for an assignment: its request, sent to the topic the node's entry points back to. */
  ghost predicate Announces(t: Table, o: Out, a: Assignment) {
    && o.Dispatched? && o.request == a.request
    && a.node < |t.nodes| && t.nodes[a.node].topicIndex < |t.topics| && o.topic == TopicForNode(t, a.node)
  }

  /** What a handler charged is what it sent: one assignment per dispatched request, in order. */
  ghost predicate Logged(sent: seq<Assignment>, e: Effect) {
    var d := Dispatches(e.out);
    && |e.next.sent| == |sent| + |d| && sent <= e.next.sent
    && forall i :: 0 <= i < |d| ==> Announces(e.next.table, d[i], e.next.sent[|sent| + i])
  }

  /** Charging changes no more than the cores of nodes. */
  ghost predicate SameRoutes(t: Table, g: Table) {
    && g.topics == t.topics && |g.nodes| == |t.nodes|
    && g.zones == t.zones
    && forall n :: 0 <= n < |t.nodes| ==> g.nodes[n] == t.nodes[n].(cores := g.nodes[n].cores)
  }

  lemma LoggedStep(p: Provider, n: nat, rest: Effect)
    requires WellFormed(p) && p.queue != [] && n < |p.table.nodes|
               && Total(p.queue[0].request.vms) <= p.table.nodes[n].cores
    requires Logged(Advance(p, n).sent, rest) && SameRoutes(p.table, rest.next.table)
    ensures Logged(p.sent,
                   Effect(rest.next, [Dispatched(p.queue[0].request, TopicForNode(p.table, n))] + rest.out, rest.error))
  {
    var o, a := Dispatched(p.queue[0].request, TopicForNode(p.table, n)), Assignment(n, p.queue[0].request);
    var out := [o] + rest.out;
    assert out[1..] == rest.out;
    var d := Dispatches(out);
    assert d == [o] + Dispatches(rest.out);
    var sent := Advance(p, n).sent;
    assert sent == p.sent + [a] && rest.next.sent[|p.sent|] == sent[|p.sent|];
    assert Announces(rest.next.table, o, a);
    forall i | 0 <= i < |d| ensures Announces(rest.next.table, d[i], rest.next.sent[|p.sent| + i]) {
      if i > 0 { assert d[i] == Dispatches(rest.out)[i - 1]; }
    }
  }

  lemma {:induction false} DrainLogs(p: Provider)
    requires WellFormed(p)
    ensures Logged(p.sent, Drain(p)) && SameRoutes(p.table, Drain(p).next.table)
    decreases |p.queue|
  {
    if p.queue != [] {
      SelectMeans(p.table, p.defaultZone, p.queue[0].request);
      if Select(p.table, p.defaultZone, p.queue[0].request).Selected? {
        var n := Select(p.table, p.defaultZone, p.queue[0].request).node;
        ChargeKeepsValid(p, n, p.queue[0].request);
        DrainLogs(Advance(p, n));
        LoggedStep(p, n, Drain(Advance(p, n)));
      }
    }
  }

  lemma AskLogs(p: Provider, r: Request)
    requires WellFormed(p)
    ensures Logged(p.sent, OnRequest(p, r))
  {
    SelectMeans(p.table, p.defaultZone, r);
    var e := OnRequest(p, r);
    if e.out != [] { assert e.out[1..] == []; }
  }

  lemma NoneLogged(p: Provider, e: Event)
    requires Inv(p) && Enabled(p, e) && (e.Subscribe? || e.Expire?)
    ensures Logged(p.sent, Step(p, e))
  {
    if e.Expire? { TimeoutFindsItsRequest(p, e.event); }
    assert Dispatches(Step(p, e).out) == [];
  }

  lemma ReportLogs(p: Provider, topic: string, zone: string, cores: nat, ram: nat, disk: nat)
    requires WellFormed(p)
    ensures Logged(p.sent, OnUpdate(p, topic, zone, cores, ram, disk))
  {
    var q := Reported(p, topic, zone, cores, ram, disk);
    DrainLogs(q);
    assert q.sent == p.sent;
  }

  /** Every step charges nodes for exactly the requests it dispatches. */
  lemma StepLogs(p: Provider, e: Event)
    requires Inv(p) && Enabled(p, e)
    ensures Logged(p.sent, Step(p, e))
  {
    match e
    case Ask(r) => AskLogs(p, r);
    case Report(topic, zone, cores, ram, disk) => ReportLogs(p, topic, zone, cores, ram, disk);
    case _ => NoneLogged(p, e);
  }

  /** All messages of a run. */
  ghost function Outputs(p: Provider, es: seq<Event>): seq<Out>
    requires Possible(p, es)
    decreases |es|
  {
    if es == [] then [] else Step(p, es[0]).out + Outputs(Step(p, es[0]).next, es[1..])
  }

  lemma {:induction false} DispatchesConcat(a: seq<Out>, b: seq<Out>)
    ensures Dispatches(a + b) == Dispatches(a) + Dispatches(b)
  {
    if a == [] {
      assert a + b == b;
    } else {
      var first, rest := if a[0].Dispatched? then [a[0]] else [], Dispatches(a[1..]);
      assert (a + b)[0] == a[0] && (a + b)[1..] == a[1..] + b;
      DispatchesConcat(a[1..], b);
      assert first + (rest + Dispatches(b)) == (first + rest) + Dispatches(b);
    }
  }

  /** From one state to a later one, the assignments made are the requests dispatched, in order. */
  ghost predicate Ledger(before: seq<Assignment>, after: seq<Assignment>, d: seq<Out>) {
    && |after| == |before| + |d| && before <= after
    && forall i :: 0 <= i < |d| ==> d[i].Dispatched? && d[i].request == after[|before| + i].request
  }

  lemma LedgersJoin(a: seq<Assignment>, b: seq<Assignment>, c: seq<Assignment>, d: seq<Out>, e: seq<Out>)
    requires Ledger(a, b, d) && Ledger(b, c, e)
    ensures Ledger(a, c, d + e)
  {
    var all := d + e;
    forall i | 0 <= i < |all| ensures all[i].Dispatched? && all[i].request == c[|a| + i].request {
      if i < |d| { assert all[i] == d[i] && c[|a| + i] == b[|a| + i]; } else { assert all[i] == e[i - |d|]; }
    }
  }

  lemma {:induction false} RunLedger(p: Provider, es: seq<Event>)
    requires Inv(p) && Possible(p, es)
    ensures Ledger(p.sent, After(p, es).sent, Dispatches(Outputs(p, es)))
    decreases |es|
  {
    if es != [] {
      var q := Step(p, es[0]).next;
      StepLogs(p, es[0]);
      StepKeeps(p, es[0]);
      RunLedger(q, es[1..]);
      DispatchesConcat(Step(p, es[0]).out, Outputs(q, es[1..]));
      LedgersJoin(p.sent, q.sent, After(q, es[1..]).sent, Dispatches(Step(p, es[0]).out),
                  Dispatches(Outputs(q, es[1..])));
    }
  }

  /**
   * In every run the books name exactly the requests that were dispatched; each estimate is the last report less those
   * sent to the node since.
   */
  lemma EstimatesFollowDispatches(defaultZone: string, priorityOn: bool, es: seq<Event>)
    requires Possible(Start(defaultZone, priorityOn), es)
    ensures var p := After(Start(defaultZone, priorityOn), es);
            EstimatesBalance(p) && Ledger([], p.sent, Dispatches(Outputs(Start(defaultZone, priorityOn), es)))
  {
    StartInv(defaultZone, priorityOn);
    AlwaysInv(Start(defaultZone, priorityOn), es);
    RunLedger(Start(defaultZone, priorityOn), es);
  }
}
