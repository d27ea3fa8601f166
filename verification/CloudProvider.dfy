/** The cloud provider: requests go to a node with enough estimated cores; subscriptions wait in a queue. */
module CloudProvider {
  import opened Sums
  import opened NodeResources
  import opened NodeTables

  /** `vms` lists the cores of each VM asked for. */
  datatype Request = Request(id: nat, zone: string, vms: seq<nat>, priority: bool, maxSub: real)

  /** A queued subscription, when it was made, and the event scheduled for it, numbered in the order of arrival. */
  datatype Sub = Sub(request: Request, since: real, timeout: nat)

  /** A scheduled event: the request in its context pointer, and when it is due. */
  datatype Timer = Timer(request: nat, due: real)

  /** A request sent to a node, at the price of the node's estimate. */
  datatype Assignment = Assignment(node: nat, request: Request)

  datatype Out = Dispatched(request: Request, topic: string) | Rejected(request: Request) | TimedOut(request: Request)

  /**
   * The provider. The last five fields are books: the cores each node last reported and how many assignments
   * there were then, all assignments, and tickets by how they left the queue.
   */
  datatype Provider = Provider(
    table: Table, defaultZone: string, priorityOn: bool,
    queue: seq<Sub>, timers: map<nat, Timer>, nextEvent: nat,
    reported: seq<nat>, since: seq<nat>, sent: seq<Assignment>, dispatched: seq<nat>, expired: seq<nat>)

  datatype Effect = Effect(next: Provider, out: seq<Out>, error: bool)

  datatype Selection = Selected(node: nat) | NoFit | NoDefaultZone

  function Total(vms: seq<nat>): nat {
    if vms == [] then 0 else Total(vms[..|vms| - 1]) + vms[|vms| - 1]
  }

  /** The total of one VM is its cores, and totals of parts add up. */
  lemma {:induction false} TotalMeans(a: seq<nat>, b: seq<nat>, x: nat)
    ensures Total([]) == 0 && Total([x]) == x && Total(a + b) == Total(a) + Total(b)
  {
    assert [x][..0] == [];
    if b == [] {
      assert a + b == a;
    } else {
      assert (a + b)[..|a + b| - 1] == a + b[..|b| - 1];
      TotalMeans(a, b[..|b| - 1], x);
    }
  }

  // ---------------------------------------------------------------- selection

  /** The int that holds the best core count so far, and its comparison as an unsigned 64-bit value. */
  function Truncated(cores: nat): int { Signed(Wrap(cores)) }

  function AsUnsigned(x: int): int { if x < 0 then x + 0x1_0000_0000_0000_0000 else x }

  /** The scan over the first n node ids: best count so far and the node that had it. */
  function Scan(nodes: seq<NodeEntry>, zone: set<nat>, total: nat, n: nat): (int, int)
    requires n <= |nodes|
  {
    if n == 0 then (0, -1)
    else
      var (best, chosen) := Scan(nodes, zone, total, n - 1);
      var cores := nodes[n - 1].cores;
      if n - 1 in zone && cores >= total && cores > AsUnsigned(best) then (Truncated(cores), n - 1) else (best, chosen)
  }

  function Pick(t: Table, zone: set<nat>, total: nat): Option<nat> {
    var chosen := Scan(t.nodes, zone, total, |t.nodes|).1;
    if chosen < 0 then None else Some(chosen)
  }

  function Select(t: Table, defaultZone: string, r: Request): Selection {
    var total := Total(r.vms);
    match FindNodesByZone(t, r.zone)
    case Some(ns) => (match Pick(t, ns, total)
                      case Some(n) => Selected(n)
                      case None => SelectDefault(t, defaultZone, total))
    case None => SelectDefault(t, defaultZone, total)
  }

  function SelectDefault(t: Table, defaultZone: string, total: nat): Selection {
    match FindNodesByZone(t, defaultZone)
    case None => NoDefaultZone
    case Some(ns) => match Pick(t, ns, total) case Some(n) => Selected(n) case None => NoFit
  }

  ghost predicate Fits(nodes: seq<NodeEntry>, zone: set<nat>, total: nat, i: nat)
    requires i < |nodes|
  {
    i in zone && nodes[i].cores >= total && nodes[i].cores > 0
  }

  /** A node is found exactly when one in the zone has enough cores, and more than none. */
  lemma {:induction false} ScanFinds(nodes: seq<NodeEntry>, zone: set<nat>, total: nat, n: nat)
    requires n <= |nodes|
    ensures var (best, chosen) := Scan(nodes, zone, total, n);
            && -1 <= chosen < n
            && (chosen == -1 ==> best == 0 && forall i :: 0 <= i < n ==> !Fits(nodes, zone, total, i))
            && (chosen >= 0 ==> Fits(nodes, zone, total, chosen) && best == Truncated(nodes[chosen].cores))
  {
    if n > 0 { ScanFinds(nodes, zone, total, n - 1); }
  }

  /** Up to 2^31 cores, the chosen node has the most in its zone, the lowest id among equals. */
  lemma {:induction false} ScanIsBest(nodes: seq<NodeEntry>, zone: set<nat>, total: nat, n: nat)
    requires n <= |nodes| && forall i :: 0 <= i < n && i in zone ==> nodes[i].cores <= TWO31
    ensures var chosen := Scan(nodes, zone, total, n).1;
            0 <= chosen < n ==> forall i :: 0 <= i < n && i in zone ==> Beats(nodes, chosen, i)
  {
    if n > 0 {
      ScanIsBest(nodes, zone, total, n - 1);
      ScanFinds(nodes, zone, total, n - 1);
      ScanFinds(nodes, zone, total, n);
      var chosen, before := Scan(nodes, zone, total, n).1, Scan(nodes, zone, total, n - 1).1;
      if 0 <= chosen {
        forall i | 0 <= i < n && i in zone ensures Beats(nodes, chosen, i) {
          if i < n - 1 {
            if before == -1 { assert !Fits(nodes, zone, total, i); } else { assert Beats(nodes, before, i); }
          }
        }
      }
    }
  }

  /** More cores, or as many and a lower or equal id. */
  ghost predicate Beats(nodes: seq<NodeEntry>, a: nat, b: nat)
    requires a < |nodes| && b < |nodes|
  {
    nodes[b].cores < nodes[a].cores || (nodes[b].cores == nodes[a].cores && a <= b)
  }

  ghost predicate AtMost(nodes: seq<NodeEntry>, zone: set<nat>, c: nat) {
    forall i :: 0 <= i < |nodes| && i in zone ==> nodes[i].cores <= c
  }

  ghost predicate PicksMost(nodes: seq<NodeEntry>, zone: set<nat>, total: nat) {
    var chosen := Scan(nodes, zone, total, |nodes|).1;
    0 <= chosen < |nodes| ==> forall i :: 0 <= i < |nodes| && i in zone ==> Beats(nodes, chosen, i)
  }

  /** The bound is exact: with larger estimates in a zone, the scan can settle for a node that has fewer cores. */
  lemma PicksMostIff(c: nat)
    ensures (forall nodes, zone, total: nat :: AtMost(nodes, zone, c) ==> PicksMost(nodes, zone, total)) <==> c <= TWO31
  {
    if c <= TWO31 {
      forall nodes, zone, total: nat | AtMost(nodes, zone, c) ensures PicksMost(nodes, zone, total) {
        ScanIsBest(nodes, zone, total, |nodes|);
      }
    } else {
      var nodes := [NodeEntry(TWO31, 0, 0, 0, 0), NodeEntry(TWO31 + 1, 0, 0, 0, 0)];
      assert Scan(nodes, {0, 1}, 1, 1) == (-TWO31, 0);
      assert Scan(nodes, {0, 1}, 1, 2) == (-TWO31, 0);
      assert !Beats(nodes, 0, 1);
      assert AtMost(nodes, {0, 1}, c) && !PicksMost(nodes, {0, 1}, 1);
    }
  }

  /** The best count is kept in a signed 32-bit variable: a node with 2^32 cores is remembered as having none. */
  lemma LargeEstimateIsForgotten(a: NodeEntry, b: NodeEntry)
    requires a.cores == TWO32 && 0 < b.cores < TWO31
    ensures Scan([a, b], {0, 1}, 1, 2).1 == 1
  {
    assert Scan([a, b], {0, 1}, 1, 1) == (0, 0);
  }

  /** Nothing fits: neither in the request's own zone nor in the default one. */
  ghost predicate FitsNowhere(t: Table, defaultZone: string, r: Request) {
    && ZoneIsFull(t, r.zone, Total(r.vms))
    && ZoneIsFull(t, defaultZone, Total(r.vms))
  }

  ghost predicate ZoneIsFull(t: Table, zone: string, total: nat) {
    FindNodesByZone(t, zone).Some? ==>
      forall i :: 0 <= i < |t.nodes| ==> !Fits(t.nodes, FindNodesByZone(t, zone).value, total, i)
  }

  /** What a selection means. */
  lemma SelectMeans(t: Table, defaultZone: string, r: Request)
    ensures match Select(t, defaultZone, r)
            case Selected(n) =>
              && n < |t.nodes| && Total(r.vms) <= t.nodes[n].cores && t.nodes[n].cores > 0
              && ((FindNodesByZone(t, r.zone).Some? && n in FindNodesByZone(t, r.zone).value)
                  || (ZoneIsFull(t, r.zone, Total(r.vms))
                      && FindNodesByZone(t, defaultZone).Some? && n in FindNodesByZone(t, defaultZone).value))
            case NoFit => FindNodesByZone(t, defaultZone).Some? && FitsNowhere(t, defaultZone, r)
            case NoDefaultZone => !FindNodesByZone(t, defaultZone).Some? && ZoneIsFull(t, r.zone, Total(r.vms))
  {
    var total := Total(r.vms);
    if FindNodesByZone(t, r.zone).Some? { ScanFinds(t.nodes, FindNodesByZone(t, r.zone).value, total, |t.nodes|); }
    if FindNodesByZone(t, defaultZone).Some? {
      ScanFinds(t.nodes, FindNodesByZone(t, defaultZone).value, total, |t.nodes|);
    }
  }

  lemma RoomMeansNotFull(t: Table, zone: string, total: nat, n: nat)
    requires FindNodesByZone(t, zone).Some? && n in FindNodesByZone(t, zone).value
    requires n < |t.nodes| && total <= t.nodes[n].cores && t.nodes[n].cores > 0
    ensures !ZoneIsFull(t, zone, total)
  {
    assert Fits(t.nodes, FindNodesByZone(t, zone).value, total, n);
  }

  /** A selected node is in the request's own zone unless that is full, and then in the default one. */
  lemma SelectedWhere(t: Table, defaultZone: string, r: Request)
    requires Select(t, defaultZone, r).Selected?
    ensures !FitsNowhere(t, defaultZone, r)
    ensures var zone := if ZoneIsFull(t, r.zone, Total(r.vms)) then defaultZone else r.zone;
            FindNodesByZone(t, zone).Some? && Select(t, defaultZone, r).node in FindNodesByZone(t, zone).value
  {
    SelectMeans(t, defaultZone, r);
    var n := Select(t, defaultZone, r).node;
    if FindNodesByZone(t, r.zone).Some? && n in FindNodesByZone(t, r.zone).value {
      RoomMeansNotFull(t, r.zone, Total(r.vms), n);
    } else {
      RoomMeansNotFull(t, defaultZone, Total(r.vms), n);
    }
  }

  // ---------------------------------------------------------------- handlers

  /** The chosen node's estimate is lowered by what the request asks. */
  function Charge(p: Provider, n: nat, r: Request): Provider
    requires n < |p.table.nodes| && Total(r.vms) <= p.table.nodes[n].cores
  {
    var node := p.table.nodes[n].(cores := p.table.nodes[n].cores - Total(r.vms));
    p.(table := p.table.(nodes := p.table.nodes[n := node]),
       sent := p.sent + [Assignment(n, r)])
  }

  ghost predicate WellFormed(p: Provider) {
    Valid(p.table) && |p.reported| == |p.since| == |p.table.nodes|
  }

  ghost function OnRequest(p: Provider, r: Request): Effect
    requires WellFormed(p)
  {
    if p.queue != [] && !(p.priorityOn && r.priority) then Effect(p, [Rejected(r)], false)
    else
      SelectMeans(p.table, p.defaultZone, r);
      match Select(p.table, p.defaultZone, r)
      case NoDefaultZone => Effect(p, [], true)
      case NoFit => Effect(p, [Rejected(r)], false)
      case Selected(n) => Effect(Charge(p, n, r), [Dispatched(r, TopicForNode(p.table, n))], false)
  }

  /** A request is considered at once if nobody waits, or if it has priority and priorities count. */
  ghost predicate Considered(p: Provider, r: Request) {
    p.queue == [] || (p.priorityOn && r.priority)
  }

  /** The provider after request r is sent to node n: its cores are lower by what r asks, nothing else changes. */
  ghost predicate SentTo(p: Provider, q: Provider, r: Request, n: nat) {
    && n < |p.table.nodes| && Total(r.vms) <= p.table.nodes[n].cores && p.table.nodes[n].cores > 0
    && q.sent == p.sent + [Assignment(n, r)]
    && q.table.nodes == p.table.nodes[n := p.table.nodes[n].(cores := p.table.nodes[n].cores - Total(r.vms))]
    && q == p.(sent := q.sent, table := p.table.(nodes := q.table.nodes))
  }

  /**
   * What becomes of a request: exactly one answer about it, or the error. It is dispatched if and only if it is
   * considered and fits somewhere, and rejected, with nothing changed, otherwise; the error arises exactly when the
   * own zone has no room and the default zone is unknown.
   */
  lemma AskOutcome(p: Provider, r: Request)
    requires WellFormed(p)
    ensures var e := OnRequest(p, r);
            var noDefault := !FindNodesByZone(p.table, p.defaultZone).Some?;
            && (e.error <==> Considered(p, r) && noDefault && ZoneIsFull(p.table, r.zone, Total(r.vms)))
            && (e.error ==> e.out == [] && e.next == p)
            && (!e.error ==> |e.out| == 1 && e.out[0].request == r && !e.out[0].TimedOut?)
            && (!e.error ==>
                  (e.out[0].Dispatched? <==> Considered(p, r) && !FitsNowhere(p.table, p.defaultZone, r)))
            && (!e.error && e.out[0].Rejected? ==> e.next == p)
  {
    SelectMeans(p.table, p.defaultZone, r);
    if Select(p.table, p.defaultZone, r).Selected? { SelectedWhere(p.table, p.defaultZone, r); }
  }

  /** Where a dispatched request goes: to a node of its own zone if one fits, else of the default zone. */
  lemma DispatchOutcome(p: Provider, r: Request) returns (n: nat)
    requires WellFormed(p) && OnRequest(p, r).out != [] && OnRequest(p, r).out[0].Dispatched?
    ensures var e := OnRequest(p, r);
            && SentTo(p, e.next, r, n) && e.out[0].topic == TopicForNode(p.table, n)
            && var zone := if ZoneIsFull(p.table, r.zone, Total(r.vms)) then p.defaultZone else r.zone;
            FindNodesByZone(p.table, zone).Some? && n in FindNodesByZone(p.table, zone).value
  {
    SelectMeans(p.table, p.defaultZone, r);
    n := Select(p.table, p.defaultZone, r).node;
    SelectedWhere(p.table, p.defaultZone, r);
  }

  ghost function OnSubscribe(p: Provider, r: Request, now: real): Provider {
    p.(queue := p.queue + [Sub(r, now, p.nextEvent)],
       timers := p.timers[p.nextEvent := Timer(r.id, now + r.maxSub)],
       nextEvent := p.nextEvent + 1)
  }

  /** Position of the first queued subscription of a request, or the queue length. */
  function IndexOf(queue: seq<Sub>, id: nat): (i: nat)
    ensures i <= |queue|
    ensures i < |queue| ==> queue[i].request.id == id
    ensures forall j :: 0 <= j < i ==> queue[j].request.id != id
  {
    if queue == [] || queue[0].request.id == id then 0 else 1 + IndexOf(queue[1..], id)
  }

  ghost function OnTimeout(p: Provider, event: nat): Effect
    requires event in p.timers
  {
    var q := p.(timers := p.timers - {event});
    var i := IndexOf(p.queue, p.timers[event].request);
    if i == |p.queue| then Effect(q, [], true)
    else Effect(q.(queue := p.queue[..i] + p.queue[i + 1..], expired := p.expired + [p.queue[i].timeout]),
                [TimedOut(p.queue[i].request)], false)
  }

  /** The head of the queue leaves for node n, and its timeout is cancelled. */
  ghost function Advance(p: Provider, n: nat): Provider
    requires p.queue != [] && n < |p.table.nodes| && Total(p.queue[0].request.vms) <= p.table.nodes[n].cores
  {
    Charge(p, n, p.queue[0].request).(
      queue := p.queue[1..],
      timers := p.timers - {p.queue[0].timeout},
      dispatched := p.dispatched + [p.queue[0].timeout])
  }

  /** Dispatching from the front of the queue until its head fits nowhere. */
  ghost function Drain(p: Provider): Effect
    requires WellFormed(p)
    decreases |p.queue|
  {
    if p.queue == [] then Effect(p, [], false)
    else
      var r := p.queue[0].request;
      SelectMeans(p.table, p.defaultZone, r);
      match Select(p.table, p.defaultZone, r)
      case NoDefaultZone => Effect(p, [], true)
      case NoFit => Effect(p, [], false)
      case Selected(n) =>
        ChargeKeepsValid(p, n, r);
        var rest := Drain(Advance(p, n));
        Effect(rest.next, [Dispatched(r, TopicForNode(p.table, n))] + rest.out, rest.error)
  }

  /** The outcome of serving the queue when some messages are out already. */
  ghost function Drained(out: seq<Out>, p: Provider): Effect
    requires WellFormed(p)
  {
    Effect(Drain(p).next, out + Drain(p).out, Drain(p).error)
  }

  lemma DrainedStep(out: seq<Out>, p: Provider)
    requires WellFormed(p)
    ensures p.queue == [] ==> Drained(out, p) == Effect(p, out, false)
    ensures p.queue != [] ==>
      match Select(p.table, p.defaultZone, p.queue[0].request)
      case NoDefaultZone => Drained(out, p) == Effect(p, out, true)
      case NoFit => Drained(out, p) == Effect(p, out, false)
      case Selected(n) =>
        && n < |p.table.nodes| && Total(p.queue[0].request.vms) <= p.table.nodes[n].cores
        && WellFormed(Advance(p, n))
        && Drained(out, p) == Drained(out + [Dispatched(p.queue[0].request, TopicForNode(p.table, n))], Advance(p, n))
  {
    if p.queue != [] {
      SelectMeans(p.table, p.defaultZone, p.queue[0].request);
      match Select(p.table, p.defaultZone, p.queue[0].request)
      case Selected(n) =>
        ChargeKeepsValid(p, n, p.queue[0].request);
        var sent, rest := Dispatched(p.queue[0].request, TopicForNode(p.table, n)), Drain(Advance(p, n)).out;
        assert out + ([sent] + rest) == (out + [sent]) + rest;
      case _ => assert out + [] == out;
    } else {
      assert out + [] == out;
    }
  }

  lemma ChargeKeepsValid(p: Provider, n: nat, r: Request)
    requires WellFormed(p) && n < |p.table.nodes| && Total(r.vms) <= p.table.nodes[n].cores
    ensures WellFormed(Charge(p, n, r))
  {
  }

  /** A report from a node replaces its estimate, then the queue is served. */
  ghost function Reported(p: Provider, topic: string, zone: string, cores: nat, ram: nat, disk: nat): (q: Provider)
    requires WellFormed(p)
    ensures WellFormed(q)
  {
    AddOrUpdateIsValid(p.table, topic, zone, cores, ram, disk);
    AddOrUpdateNodes(p.table, topic, zone, cores, ram, disk);
    var table := AddOrUpdate(p.table, topic, zone, cores, ram, disk);
    match FindNodeByTopic(p.table, topic)
    case Some(n) => p.(table := table, reported := p.reported[n := cores], since := p.since[n := |p.sent|])
    case None => p.(table := table, reported := p.reported + [cores], since := p.since + [|p.sent|])
  }

  ghost function OnUpdate(p: Provider, topic: string, zone: string, cores: nat, ram: nat, disk: nat): Effect
    requires WellFormed(p)
  {
    Drain(Reported(p, topic, zone, cores, ram, disk))
  }

  // ---------------------------------------------------------------- the module itself

  class Broker {
    const nodeDb: NodeTable
    const defaultZone: string
    const priorityOn: bool
    var queue: seq<Sub>
    var timers: map<nat, Timer>
    var nextEvent: nat
    var out: seq<Out>
    ghost var reported: seq<nat>
    ghost var since: seq<nat>
    ghost var sent: seq<Assignment>
    ghost var dispatched: seq<nat>
    ghost var expired: seq<nat>

    ghost function View(): Provider
      reads this, nodeDb
    {
      Provider(nodeDb.View(), defaultZone, priorityOn, queue, timers, nextEvent, reported, since, sent,
               dispatched, expired)
    }

    constructor (nodeDb: NodeTable, defaultZone: string, priorityOn: bool)
      requires nodeDb.View() == EMPTY
      ensures View() == Provider(EMPTY, defaultZone, priorityOn, [], map[], 0, [], [], [], [], []) && out == []
      ensures this.nodeDb == nodeDb && WellFormed(View())
    {
      this.nodeDb, this.defaultZone, this.priorityOn := nodeDb, defaultZone, priorityOn;
      queue, timers, nextEvent, out := [], map[], 0, [];
      reported, since, sent, dispatched, expired := [], [], [], [], [];
    }

    method CalculateRequestedCores(request: Request) returns (total: nat)
      ensures total == Total(request.vms)
    {
      total := 0;
      for i := 0 to |request.vms|
        invariant total == Total(request.vms[..i])
      {
        assert request.vms[..i + 1][..i] == request.vms[..i];
        total := total + request.vms[i];
      }
      assert request.vms[..|request.vms|] == request.vms;
    }

    method ScanZone(zone: set<nat>, total: nat) returns (selected: int)
      ensures selected == Scan(nodeDb.nodes, zone, total, |nodeDb.nodes|).1
    {
      var best := 0;
      selected := -1;
      for i := 0 to |nodeDb.nodes|
        invariant (best, selected) == Scan(nodeDb.nodes, zone, total, i)
      {
        if i in zone {
          var cores := nodeDb.nodes[i].cores;
          if cores >= total && cores > AsUnsigned(best) {
            selected := i;
            best := Truncated(cores);
          }
        }
      }
    }

    method SelectNodeInPool(request: Request, zone: set<nat>) returns (topic: Option<string>)
      requires WellFormed(View())
      modifies nodeDb, this`sent
      ensures match old(Pick(View().table, zone, Total(request.vms)))
              case None => topic == None && View() == old(View())
              case Some(n) => && n < |old(View()).table.nodes| && Total(request.vms) <= old(View()).table.nodes[n].cores
                              && View() == Charge(old(View()), n, request)
                              && topic == Some(TopicForNode(old(View()).table, n))
    {
      var total := CalculateRequestedCores(request);
      var selected := ScanZone(zone, total);
      ScanFinds(nodeDb.nodes, zone, total, |nodeDb.nodes|);
      if selected == -1 {
        return None;
      }
      topic := Some(nodeDb.topics[nodeDb.nodes[selected].topicIndex].key);
      nodeDb.nodes := nodeDb.nodes[selected := nodeDb.nodes[selected].(cores := nodeDb.nodes[selected].cores - total)];
      sent := sent + [Assignment(selected, request)];
    }

    method SelectNode(request: Request) returns (topic: Option<string>, error: bool)
      requires WellFormed(View())
      modifies nodeDb, this`sent
      ensures match old(Select(View().table, defaultZone, request))
              case NoDefaultZone => error && topic == None && View() == old(View())
              case NoFit => !error && topic == None && View() == old(View())
              case Selected(n) => && !error && n < |old(View()).table.nodes|
                                  && Total(request.vms) <= old(View()).table.nodes[n].cores
                                  && View() == Charge(old(View()), n, request)
                                  && topic == Some(TopicForNode(old(View()).table, n))
    {
      var ns := nodeDb.FindByZone(request.zone);
      if ns.Some? {
        topic := SelectNodeInPool(request, ns.value);
        if topic.Some? {
          return topic, false;
        }
      }
      var ds := nodeDb.FindByZone(defaultZone);
      if !ds.Some? {
        return None, true;
      }
      topic := SelectNodeInPool(request, ds.value);
      return topic, false;
    }

    method HandleVmRequest(request: Request) returns (error: bool)
      requires WellFormed(View())
      modifies this`sent, this`out, nodeDb
      ensures var e := OnRequest(old(View()), request); error == e.error && View() == e.next && out == old(out) + e.out
      ensures if error then out == old(out) && View() == old(View())
              else |out| == |old(out)| + 1 && out[..|old(out)|] == old(out) && out[|old(out)|].request == request
      ensures !error ==> (out[|old(out)|].Dispatched? <==>
                            old(Considered(View(), request) && !FitsNowhere(View().table, defaultZone, request)))
    {
      AskOutcome(View(), request);
      var skip := priorityOn && request.priority;
      if |queue| > 0 && !skip {
        out := out + [Rejected(request)];
        return false;
      }
      var topic, failed := SelectNode(request);
      if failed {
        assert out == out + [];
        return true;
      }
      out := out + [if topic.Some? then Dispatched(request, topic.value) else Rejected(request)];
      return false;
    }

    method HandleVmSubscription(request: Request, now: real)
      modifies this`queue, this`timers, this`nextEvent
      ensures View() == OnSubscribe(old(View()), request, now)
      ensures queue == old(queue) + [Sub(request, now, old(nextEvent))]
      ensures timers == old(timers)[old(nextEvent) := Timer(request.id, now + request.maxSub)]
    {
      var event := nextEvent;
      nextEvent := nextEvent + 1;
      timers := timers[event := Timer(request.id, now + request.maxSub)];
      queue := queue + [Sub(request, now, event)];
    }

    method FindInQueue(id: nat) returns (i: nat)
      ensures i == IndexOf(queue, id)
    {
      i := 0;
      while i < |queue|
        invariant i <= |queue| && forall j :: 0 <= j < i ==> queue[j].request.id != id
      {
        if queue[i].request.id == id {
          return i;
        }
        i := i + 1;
      }
    }

    method HandleSubscriptionTimeout(event: nat) returns (error: bool)
      requires event in timers
      modifies this`queue, this`timers, this`out, this`expired
      ensures var e := OnTimeout(old(View()), event); error == e.error && View() == e.next && out == old(out) + e.out
      ensures timers == old(timers) - {event}
      ensures error <==> forall i :: 0 <= i < |old(queue)| ==> old(queue)[i].request.id != old(timers)[event].request
    {
      var id := timers[event].request;
      timers := timers - {event};
      var i := FindInQueue(id);
      if i == |queue| {
        assert out == out + [];
        return true;
      }
      var request := queue[i].request;
      expired := expired + [queue[i].timeout];
      queue := queue[..i] + queue[i + 1..];
      out := out + [TimedOut(request)];
      return false;
    }

    /** One turn of the dispatching loop. */
    method DispatchHead() returns (sent: bool, error: bool)
      requires WellFormed(View()) && queue != []
      modifies this`queue, this`timers, this`out, this`sent, this`dispatched, nodeDb
      ensures match old(Select(View().table, defaultZone, queue[0].request))
              case NoDefaultZone => error && !sent && View() == old(View()) && out == old(out)
              case NoFit => !error && !sent && View() == old(View()) && out == old(out)
              case Selected(n) => && !error && sent && WellFormed(View()) && n < |old(View()).table.nodes|
                                  && Total(old(queue)[0].request.vms) <= old(View()).table.nodes[n].cores
                                  && View() == Advance(old(View()), n)
                                  && out == old(out) + [Dispatched(old(queue)[0].request,
                                                                   TopicForNode(old(View()).table, n))]
    {
      ghost var p := View();
      var element := queue[0];
      var topic, failed := SelectNode(element.request);
      if failed || topic == None {
        return false, failed;
      }
      ghost var n := Select(p.table, p.defaultZone, element.request).node;
      ChargeKeepsValid(p, n, element.request);
      timers := timers - {element.timeout};
      out := out + [Dispatched(element.request, topic.value)];
      queue := queue[1..];
      dispatched := dispatched + [element.timeout];
      return true, false;
    }

    method AttemptDispatching() returns (error: bool)
      requires WellFormed(View())
      modifies this`queue, this`timers, this`out, this`sent, this`dispatched, nodeDb
      ensures var e := Drain(old(View())); error == e.error && View() == e.next && out == old(out) + e.out
    {
      ghost var e := Drained(out, View());
      while |queue| > 0
        invariant WellFormed(View()) && e == Drained(out, View())
        decreases |queue|
      {
        DrainedStep(out, View());
        var sent, failed := DispatchHead();
        if !sent {
          return failed;
        }
      }
      DrainedStep(out, View());
      return false;
    }

    method HandleNodeUpdate(topic: string, zone: string, cores: nat, ram: nat, disk: nat) returns (error: bool)
      requires WellFormed(View())
      modifies this`queue, this`timers, this`out, this`sent, this`since, this`reported, this`dispatched, nodeDb
      ensures var e := OnUpdate(old(View()), topic, zone, cores, ram, disk);
              error == e.error && View() == e.next && out == old(out) + e.out
    {
      ghost var p := View();
      ghost var known := FindNodeByTopic(p.table, topic);
      var id := nodeDb.AddOrUpdateNode(topic, zone, cores, ram, disk);
      reported := if known.Some? then reported[known.value := cores] else reported + [cores];
      since := if known.Some? then since[known.value := |sent|] else since + [|sent|];
      assert View() == Reported(p, topic, zone, cores, ram, disk);
      error := AttemptDispatching();
    }
  }
}
