/** Where the cloud provider sends requests: to the node charged for them, as long as the nodes reported in order. */
module ProviderRoutes {
  import opened Sums
  import opened NodeTables
  import opened CloudProvider
  import opened ProviderRuns

  // ---------------------------------------------------------------- where requests are sent

  function NamesAfter(names: seq<string>, e: Event): seq<string> {
    if e.Report? then Arrived(names, e.topic) else names
  }

  /** The topics of a run's reports in their order of arrival, each once. */
  function Arrivals(names: seq<string>, es: seq<Event>): seq<string>
    decreases |es|
  {
    if es == [] then names else Arrivals(NamesAfter(names, es[0]), es[1..])
  }

  lemma RoutesKeepNames(t: Table, g: Table, names: seq<string>)
    requires NamedBy(t, names) && SameRoutes(t, g) && Valid(g)
    ensures NamedBy(g, names) && (TopicsPointBack(t) <==> TopicsPointBack(g))
  {
    forall n | 0 <= n < |names| ensures FindNodeByTopic(g, names[n]) == Some(n) {
      assert FindNodeByTopic(t, names[n]) == Some(n);
    }
  }

  lemma StepRoutes(p: Provider, e: Event)
    requires Inv(p) && Enabled(p, e) && !e.Report?
    ensures SameRoutes(p.table, Step(p, e).next.table)
  {
    if e.Ask? { SelectMeans(p.table, p.defaultZone, e.r); }
  }

  lemma StepNames(p: Provider, e: Event, names: seq<string>)
    requires Inv(p) && Enabled(p, e) && NamedBy(p.table, names)
    ensures NamedBy(Step(p, e).next.table, NamesAfter(names, e))
    ensures TopicsPointBack(p.table) && Ascending(NamesAfter(names, e)) ==> TopicsPointBack(Step(p, e).next.table)
  {
    StepKeeps(p, e);
    match e
    case Report(topic, zone, cores, ram, disk) =>
      var q := Reported(p, topic, zone, cores, ram, disk);
      NamedAfterReport(p.table, names, topic, zone, cores, ram, disk);
      DrainLogs(q);
      RoutesKeepNames(q.table, Drain(q).next.table, NamesAfter(names, e));
      if TopicsPointBack(p.table) && Ascending(NamesAfter(names, e)) {
        AscendingArrivalsPointBack(p.table, names, topic, zone, cores, ram, disk);
      }
    case _ =>
      StepRoutes(p, e);
      RoutesKeepNames(p.table, Step(p, e).next.table, names);
  }

  lemma {:induction false} ArrivalsExtend(names: seq<string>, es: seq<Event>)
    ensures names <= Arrivals(names, es)
    decreases |es|
  {
    if es != [] { ArrivalsExtend(NamesAfter(names, es[0]), es[1..]); }
  }

  lemma {:induction false} RunNames(p: Provider, es: seq<Event>, names: seq<string>)
    requires Inv(p) && Possible(p, es) && NamedBy(p.table, names)
    ensures NamedBy(After(p, es).table, Arrivals(names, es))
    ensures TopicsPointBack(p.table) && Ascending(Arrivals(names, es)) ==> TopicsPointBack(After(p, es).table)
    decreases |es|
  {
    if es != [] {
      StepKeeps(p, es[0]);
      StepNames(p, es[0], names);
      RunNames(Step(p, es[0]).next, es[1..], NamesAfter(names, es[0]));
      ArrivalsExtend(NamesAfter(names, es[0]), es[1..]);
    }
  }

  /**
   * Over a whole run, all back pointers are right if and only if the nodes reported for the first time in ascending
   * order of their topics.
   */
  lemma TopicsPointBackIffAscending(defaultZone: string, priorityOn: bool, es: seq<Event>)
    requires Possible(Start(defaultZone, priorityOn), es)
    ensures TopicsPointBack(After(Start(defaultZone, priorityOn), es).table) <==> Ascending(Arrivals([], es))
  {
    var p := Start(defaultZone, priorityOn);
    StartInv(defaultZone, priorityOn);
    RunNames(p, es, []);
    if TopicsPointBack(After(p, es).table) { PointBackMeansAscending(After(p, es).table, Arrivals([], es)); }
  }

  /** Each dispatched request goes to the topic of the node that was charged for it. */
  ghost predicate RoutedRight(sent: seq<Assignment>, x: Effect) {
    Logged(sent, x) && forall i :: 0 <= i < |Dispatches(x.out)| ==>
        ReachesNode(x.next.table, Dispatches(x.out)[i], x.next.sent[|sent| + i])
  }

  ghost predicate ReachesNode(t: Table, o: Out, a: Assignment) {
    o.Dispatched? && FindNodeByTopic(t, o.topic) == Some(a.node)
  }

  /** Whether a message reaches the node charged for it is a matter of that node's back pointer. */
  lemma ReachesIfPointedBack(t: Table, o: Out, a: Assignment)
    requires Valid(t) && Announces(t, o, a)
    ensures ReachesNode(t, o, a) <==> t.topics[t.nodes[a.node].topicIndex].value == a.node
  {
    PositionOf(t.topics, t.nodes[a.node].topicIndex);
  }

  lemma PointedBackRoutesRight(sent: seq<Assignment>, x: Effect)
    requires Logged(sent, x) && Valid(x.next.table) && TopicsPointBack(x.next.table)
    ensures RoutedRight(sent, x)
  {
    forall i | 0 <= i < |Dispatches(x.out)|
      ensures ReachesNode(x.next.table, Dispatches(x.out)[i], x.next.sent[|sent| + i])
    {
      assert Announces(x.next.table, Dispatches(x.out)[i], x.next.sent[|sent| + i]);
      ReachesIfPointedBack(x.next.table, Dispatches(x.out)[i], x.next.sent[|sent| + i]);
    }
  }

  // ---------------------------------------------------------------- over whole runs, and both ways

  /** Every step of the run sends each request to the node charged for it. */
  ghost predicate RunRoutesRight(p: Provider, es: seq<Event>)
    requires Possible(p, es)
    decreases |es|
  {
    es == [] || (RoutedRight(p.sent, Step(p, es[0])) && RunRoutesRight(Step(p, es[0]).next, es[1..]))
  }

  lemma {:induction false} AscendingRunRoutesRight(p: Provider, es: seq<Event>, names: seq<string>)
    requires Inv(p) && Possible(p, es) && NamedBy(p.table, names) && TopicsPointBack(p.table)
    requires Ascending(Arrivals(names, es))
    ensures RunRoutesRight(p, es)
    decreases |es|
  {
    if es != [] {
      var next := NamesAfter(names, es[0]);
      ArrivalsExtend(next, es[1..]);
      StepKeeps(p, es[0]);
      StepLogs(p, es[0]);
      StepNames(p, es[0], names);
      PointedBackRoutesRight(p.sent, Step(p, es[0]));
      AscendingRunRoutesRight(Step(p, es[0]).next, es[1..], next);
    }
  }

  lemma {:induction false} RoutesRightSplit(p: Provider, es: seq<Event>, e: Event)
    requires Possible(p, es + [e]) && RunRoutesRight(p, es + [e])
    ensures Possible(p, es) && WellFormed(After(p, es)) && Enabled(After(p, es), e)
    ensures RoutedRight(After(p, es).sent, Step(After(p, es), e))
    decreases |es|
  {
    if es == [] {
      assert es + [e] == [e];
    } else {
      assert (es + [e])[1..] == es[1..] + [e];
      RoutesRightSplit(Step(p, es[0]).next, es[1..], e);
    }
  }

  lemma {:induction false} PossibleSnoc(p: Provider, es: seq<Event>, e: Event)
    requires Possible(p, es) && WellFormed(After(p, es)) && Enabled(After(p, es), e) && !Step(After(p, es), e).error
    ensures Possible(p, es + [e]) && After(p, es + [e]) == Step(After(p, es), e).next
    decreases |es|
  {
    if es == [] {
      assert es + [e] == [e] && [e][1..] == [];
    } else {
      assert (es + [e])[1..] == es[1..] + [e];
      PossibleSnoc(Step(p, es[0]).next, es[1..], e);
    }
  }

  lemma {:induction false} ArrivalsSnoc(names: seq<string>, es: seq<Event>, e: Event)
    ensures Arrivals(names, es + [e]) == NamesAfter(Arrivals(names, es), e)
    decreases |es|
  {
    if es == [] {
      assert es + [e] == [e] && [e][1..] == [];
    } else {
      assert (es + [e])[1..] == es[1..] + [e];
      ArrivalsSnoc(NamesAfter(names, es[0]), es[1..], e);
    }
  }

  /** Nodes that report in the given order, in one zone and without cores. */
  function Introductions(zone: string, names: seq<string>): seq<Event> {
    if names == [] then []
    else Introductions(zone, names[..|names| - 1]) + [Report(names[|names| - 1], zone, 0, 0, 0)]
  }

  ghost function ById(names: seq<string>): map<string, nat> {
    if names == [] then map[] else ById(names[..|names| - 1])[names[|names| - 1] := |names| - 1]
  }

  lemma {:induction false} ByIdKnows(names: seq<string>, name: string)
    ensures name in ById(names) <==> name in names
  {
    if names != [] {
      var k := |names| - 1;
      ByIdKnows(names[..k], name);
      assert names == names[..k] + [names[k]];
    }
  }

  /** The first n node ids. */
  function Ids(n: nat): (r: set<nat>)
    ensures forall i: nat :: i in r <==> i < n
  {
    if n == 0 then {} else Ids(n - 1) + {n - 1}
  }

  ghost function OneZone(zone: string, n: nat): map<string, set<nat>> {
    if n == 0 then map[] else map[zone := Ids(n)]
  }

  /** The nodes are known by these names, all in one zone and without cores. */
  ghost predicate Poor(t: Table, zone: string, names: seq<string>) {
    && NamedBy(t, names) && Refines(t, ById(names), OneZone(zone, |names|))
    && forall n :: 0 <= n < |t.nodes| ==> t.nodes[n].cores == 0
  }

  /** Nothing waits and nothing was sent. */
  ghost predicate Calm(p: Provider, zone: string) {
    Inv(p) && p.defaultZone == zone && p.queue == [] && p.sent == []
  }

  ghost predicate Introduced(p: Provider, zone: string, names: seq<string>) {
    Calm(p, zone) && Poor(p.table, zone, names)
  }

  lemma ReportWhenCalm(p: Provider, zone: string, name: string, cores: nat)
    requires Calm(p, zone)
    ensures var x := Step(p, Report(name, zone, cores, 0, 0));
            !x.error && Calm(x.next, zone) && x.next.table == AddOrUpdate(p.table, name, zone, cores, 0, 0)
  {
    StepKeeps(p, Report(name, zone, cores, 0, 0));
  }

  lemma IntroduceToMaps(t: Table, zone: string, names: seq<string>, name: string)
    requires Refines(t, ById(names), OneZone(zone, |names|)) && |t.nodes| == |names| && name !in names
    ensures var g := AddOrUpdate(t, name, zone, 0, 0, 0);
            && Refines(g, ById(names + [name]), OneZone(zone, |names| + 1))
            && |g.nodes| == |t.nodes| + 1 && g.nodes[..|t.nodes|] == t.nodes && g.nodes[|t.nodes|].cores == 0
  {
    ByIdKnows(names, name);
    ByIdPush(names, name);
    OneZoneGrows(zone, |names|);
    AddOrUpdateRefines(t, ById(names), OneZone(zone, |names|), name, zone, 0, 0, 0);
  }

  lemma ByIdPush(names: seq<string>, name: string)
    ensures ById(names + [name]) == ById(names)[name := |names|]
  {
    assert (names + [name])[..|names|] == names;
  }

  lemma OneZoneGrows(zone: string, n: nat)
    ensures ZonesWith(OneZone(zone, n), zone, n) == OneZone(zone, n + 1)
  {
  }

  lemma IntroduceToTable(t: Table, zone: string, names: seq<string>, name: string)
    requires Poor(t, zone, names) && name !in names
    ensures Poor(AddOrUpdate(t, name, zone, 0, 0, 0), zone, names + [name])
  {
    IntroduceToMaps(t, zone, names, name);
    NamedAfterReport(t, names, name, zone, 0, 0, 0);
    ZerosStay(t, AddOrUpdate(t, name, zone, 0, 0, 0));
  }

  lemma IntroduceOne(p: Provider, zone: string, names: seq<string>, name: string)
    requires Introduced(p, zone, names) && name !in names
    ensures !Step(p, Report(name, zone, 0, 0, 0)).error
    ensures Introduced(Step(p, Report(name, zone, 0, 0, 0)).next, zone, names + [name])
  {
    ReportWhenCalm(p, zone, name, 0);
    IntroduceToTable(p.table, zone, names, name);
  }

  lemma ZerosStay(t: Table, g: Table)
    requires |g.nodes| == |t.nodes| + 1 && g.nodes[..|t.nodes|] == t.nodes && g.nodes[|t.nodes|].cores == 0
    requires forall n :: 0 <= n < |t.nodes| ==> t.nodes[n].cores == 0
    ensures forall n :: 0 <= n < |g.nodes| ==> g.nodes[n].cores == 0
  {
    forall n | 0 <= n < |t.nodes| ensures g.nodes[n] == t.nodes[n] { assert g.nodes[n] == g.nodes[..|t.nodes|][n]; }
  }

  lemma {:induction false} IntroduceAll(zone: string, priorityOn: bool, names: seq<string>)
    requires Distinct(names)
    ensures var p, es := Start(zone, priorityOn), Introductions(zone, names);
            Possible(p, es) && Introduced(After(p, es), zone, names) && Arrivals([], es) == names
  {
    if names == [] {
      StartInv(zone, priorityOn);
    } else {
      var k := |names| - 1;
      var front, name := names[..k], names[k];
      IntroduceAll(zone, priorityOn, front);
      var p, es := Start(zone, priorityOn), Introductions(zone, front);
      assert name !in front && front + [name] == names;
      IntroduceOne(After(p, es), zone, front, name);
      PossibleSnoc(p, es, Report(name, zone, 0, 0, 0));
      ArrivalsSnoc([], es, Report(name, zone, 0, 0, 0));
    }
  }

  /** Node n alone has a core, in a zone all nodes are in. */
  ghost predicate OneRich(t: Table, zone: string, names: seq<string>, n: nat) {
    && NamedBy(t, names) && n < |names| && FindNodesByZone(t, zone) == Some(Ids(|names|))
    && forall i :: 0 <= i < |t.nodes| ==> t.nodes[i].cores == if i == n then 1 else 0
  }

  ghost predicate OnlyNode(p: Provider, zone: string, names: seq<string>, n: nat) {
    Calm(p, zone) && OneRich(p.table, zone, names, n)
  }

  lemma GiveOneCore(t: Table, zone: string, names: seq<string>, n: nat)
    requires Poor(t, zone, names) && n < |names|
    ensures var g := AddOrUpdate(t, names[n], zone, 1, 0, 0); OneRich(g, zone, names, n) && g.topics == t.topics
  {
    assert FindNodeByTopic(t, names[n]) == Some(n);
    AddOrUpdateNodes(t, names[n], zone, 1, 0, 0);
    LookupsAgree(t, ById(names), OneZone(zone, |names|), zone);
    NamedAfterReport(t, names, names[n], zone, 1, 0, 0);
  }

  lemma AskOnlyNode(p: Provider, zone: string, names: seq<string>, n: nat, r: Request)
    requires OnlyNode(p, zone, names, n) && r.vms == [1] && r.zone == zone
    ensures var x := Step(p, Ask(r));
            && !x.error && x.out == [Dispatched(r, TopicForNode(p.table, n))] && x.next.sent == [Assignment(n, r)]
  {
    assert [1][..|[1]| - 1] == [] && Total([]) == 0;
    assert Total([1]) == 1;
    var ns := FindNodesByZone(p.table, zone).value;
    ScanFinds(p.table.nodes, ns, 1, |p.table.nodes|);
    assert Fits(p.table.nodes, ns, 1, n);
    assert Select(p.table, p.defaultZone, r) == Selected(n);
  }

  lemma AskGoesWrong(p: Provider, zone: string, names: seq<string>, n: nat, r: Request)
    requires OnlyNode(p, zone, names, n) && r.vms == [1] && r.zone == zone && p.table.topics[n].value != n
    ensures !Step(p, Ask(r)).error && !RoutedRight(p.sent, Step(p, Ask(r)))
  {
    AskOnlyNode(p, zone, names, n, r);
    var x := Step(p, Ask(r));
    assert x.out[1..] == [] && Dispatches(x.out) == x.out;
    StepKeeps(p, Ask(r));
    StepRoutes(p, Ask(r));
    assert Announces(x.next.table, x.out[0], x.next.sent[0]);
    ReachesIfPointedBack(x.next.table, x.out[0], x.next.sent[0]);
  }

  /** A run whose last step goes wrong. */
  lemma EndsWrong(p: Provider, es: seq<Event>, e: Event)
    requires Possible(p, es) && WellFormed(After(p, es)) && Enabled(After(p, es), e) && !Step(After(p, es), e).error
    requires !RoutedRight(After(p, es).sent, Step(After(p, es), e))
    ensures Possible(p, es + [e]) && !RunRoutesRight(p, es + [e])
  {
    PossibleSnoc(p, es, e);
    if RunRoutesRight(p, es + [e]) { RoutesRightSplit(p, es, e); }
  }

  lemma ReportMakesRich(p: Provider, zone: string, names: seq<string>, n: nat)
    requires Introduced(p, zone, names) && n < |names|
    ensures var x := Step(p, Report(names[n], zone, 1, 0, 0));
            !x.error && OnlyNode(x.next, zone, names, n) && x.next.table.topics == p.table.topics
  {
    ReportWhenCalm(p, zone, names[n], 1);
    GiveOneCore(p.table, zone, names, n);
  }

  /** A run that introduced all nodes, with these topics, and gave node n a core. */
  ghost predicate RichRun(start: Provider, names: seq<string>, n: nat, es: seq<Event>, topics: seq<Keyed<nat>>) {
    && Possible(start, es) && Arrivals([], es) == names && OnlyNode(After(start, es), start.defaultZone, names, n)
    && After(start, es).table.topics == topics
  }

  /** The node whose pointer is wrong gets a core ... */
  lemma MisplacedNodeGetsCore(zone: string, priorityOn: bool, names: seq<string>, n: nat)
    requires Distinct(names) && n < |names|
    ensures var start, es := Start(zone, priorityOn), Introductions(zone, names);
            Possible(start, es) && exists fs :: RichRun(start, names, n, fs, After(start, es).table.topics)
  {
    var start, es, e := Start(zone, priorityOn), Introductions(zone, names), Report(names[n], zone, 1, 0, 0);
    IntroduceAll(zone, priorityOn, names);
    var p := After(start, es);
    ReportMakesRich(p, zone, names, n);
    PossibleSnoc(start, es, e);
    ArrivalsSnoc([], es, e);
    assert RichRun(start, names, n, es + [e], p.table.topics);
  }

  /** ... and a request for it goes elsewhere. */
  lemma RequestGoesElsewhere(
    zone: string, priorityOn: bool, names: seq<string>, n: nat, es: seq<Event>, topics: seq<Keyed<nat>>)
    requires RichRun(Start(zone, priorityOn), names, n, es, topics) && n < |topics| && topics[n].value != n
    ensures exists fs :: WrongRun(zone, priorityOn, fs, names)
  {
    var start, r := Start(zone, priorityOn), Request(0, zone, [1], false, 0.0);
    AskGoesWrong(After(start, es), zone, names, n, r);
    EndsWrong(start, es, Ask(r));
    ArrivalsSnoc([], es, Ask(r));
    assert WrongRun(zone, priorityOn, es + [Ask(r)], names);
  }

  lemma MisplacedNodeGoesWrong(zone: string, priorityOn: bool, names: seq<string>, n: nat)
    requires Distinct(names) && n < |names|
    requires Possible(Start(zone, priorityOn), Introductions(zone, names))
    requires var t := After(Start(zone, priorityOn), Introductions(zone, names)).table;
             n < |t.topics| && t.topics[n].value != n
    ensures exists es :: WrongRun(zone, priorityOn, es, names)
  {
    var topics := After(Start(zone, priorityOn), Introductions(zone, names)).table.topics;
    MisplacedNodeGetsCore(zone, priorityOn, names, n);
    var es :| RichRun(Start(zone, priorityOn), names, n, es, topics);
    RequestGoesElsewhere(zone, priorityOn, names, n, es, topics);
  }

  ghost predicate RightRun(zone: string, priorityOn: bool, es: seq<Event>, names: seq<string>) {
    Possible(Start(zone, priorityOn), es) && Arrivals([], es) == names ==> RunRoutesRight(Start(zone, priorityOn), es)
  }

  ghost predicate WrongRun(zone: string, priorityOn: bool, es: seq<Event>, names: seq<string>) {
    !RightRun(zone, priorityOn, es, names)
  }

  /**
   * Whatever else happens: all runs in which the nodes first report in a given order send every request to the node
   * charged for it if and only if that order is ascending.
   */
  lemma RoutesRightIffAscending(zone: string, priorityOn: bool, names: seq<string>)
    requires Distinct(names)
    ensures (forall es :: RightRun(zone, priorityOn, es, names)) <==> Ascending(names)
  {
    var start := Start(zone, priorityOn);
    StartInv(zone, priorityOn);
    if Ascending(names) {
      forall es ensures RightRun(zone, priorityOn, es, names) {
        if Possible(start, es) && Arrivals([], es) == names { AscendingRunRoutesRight(start, es, []); }
      }
    } else {
      IntroduceAll(zone, priorityOn, names);
      var t := After(start, Introductions(zone, names)).table;
      if TopicsPointBack(t) { PointBackMeansAscending(t, names); }
      var n :| 0 <= n < |t.nodes|
          && !(t.nodes[n].topicIndex < |t.topics| && t.topics[t.nodes[n].topicIndex].value == n);
      MisplacedNodeGoesWrong(zone, priorityOn, names, n);
      var es :| WrongRun(zone, priorityOn, es, names);
      assert !RightRun(zone, priorityOn, es, names);
    }
  }

  // ---------------------------------------------------------------- a request that goes astray

  const B_FIRST := Table([NodeEntry(4, 0, 0, 0, 0)], [Keyed("b", 0)], [Keyed("z", {0})])

  const A_SECOND := Table([NodeEntry(4, 0, 0, 0, 0), NodeEntry(1, 0, 0, 1, 0)], [Keyed("a", 1), Keyed("b", 0)],
                          [Keyed("z", {0, 1})])

  lemma FirstReport()
    ensures AddOrUpdate(EMPTY, "b", "z", 4, 0, 0) == B_FIRST && FindNodeByTopic(EMPTY, "b") == None
  {
    assert Lower(EMPTY.topics, "b") == 0 && Lower(EMPTY.zones, "z") == 0;
  }

  lemma SecondReport()
    ensures AddOrUpdate(B_FIRST, "a", "z", 1, 0, 0) == A_SECOND && FindNodeByTopic(B_FIRST, "a") == None
  {
    assert Less("a", "b");
    assert Lower(B_FIRST.topics, "a") == 0 && Position(B_FIRST.topics, "a") == None;
    LessIrreflexive("z");
    assert Lower(B_FIRST.zones, "z") == 0 && Position(B_FIRST.zones, "z") == Some(0);
    assert Inserted(B_FIRST.topics, 0, Keyed("a", 1)) == A_SECOND.topics;
    assert {0} + {1} == {0, 1};
  }

  lemma ReportOnEmptyQueue(p: Provider, topic: string, zone: string, cores: nat, g: Table)
    requires WellFormed(p) && p.queue == [] && FindNodeByTopic(p.table, topic) == None
    requires g == AddOrUpdate(p.table, topic, zone, cores, 0, 0)
    ensures Enabled(p, Report(topic, zone, cores, 0, 0)) && !Step(p, Report(topic, zone, cores, 0, 0)).error
    ensures var q := Step(p, Report(topic, zone, cores, 0, 0)).next;
            && WellFormed(q) && q.table == g && q.queue == [] && q.sent == p.sent
            && q.defaultZone == p.defaultZone && q.priorityOn == p.priorityOn
  {
  }

  /** r is charged to node 0 and sent to node 1, which has too few cores for it. */
  ghost predicate GoesAstray(p: Provider, r: Request) {
    && WellFormed(p)
    && var x := OnRequest(p, r);
       && |x.out| == 1 && x.out[0].Dispatched? && x.out[0].request == r && x.next.sent == p.sent + [Assignment(0, r)]
       && FindNodeByTopic(x.next.table, x.out[0].topic) == Some(1)
       && |x.next.table.nodes| == 2 && x.next.table.nodes[1].cores < Total(r.vms)
  }

  /** Node b reports four cores, then node a reports one: a request for two is charged to b and sent to a. */
  lemma RequestGoesAstray(r: Request, priorityOn: bool)
    requires r.vms == [2] && r.zone == "z"
    ensures var es := [Report("b", "z", 4, 0, 0), Report("a", "z", 1, 0, 0)];
            Possible(Start("z", priorityOn), es) && GoesAstray(After(Start("z", priorityOn), es), r)
  {
    var start := Start("z", priorityOn);
    StartInv("z", priorityOn);
    var e1, e2 := Report("b", "z", 4, 0, 0), Report("a", "z", 1, 0, 0);
    FirstReport();
    ReportOnEmptyQueue(start, "b", "z", 4, B_FIRST);
    var p1 := Step(start, e1).next;
    SecondReport();
    ReportOnEmptyQueue(p1, "a", "z", 1, A_SECOND);
    var p2 := Step(p1, e2).next;
    TwoSteps(start, e1, e2);
    AsksTwo(p2, r);
  }

  lemma TwoSteps(p: Provider, e1: Event, e2: Event)
    requires WellFormed(p) && Enabled(p, e1) && !Step(p, e1).error
    requires WellFormed(Step(p, e1).next) && Enabled(Step(p, e1).next, e2) && !Step(Step(p, e1).next, e2).error
    ensures Possible(p, [e1, e2]) && After(p, [e1, e2]) == Step(Step(p, e1).next, e2).next
  {
    assert [e1, e2][1..] == [e2] && [e2][1..] == [];
    var q := Step(p, e1).next;
    var r := Step(q, e2).next;
    assert Possible(r, []) && After(r, []) == r;
    assert Possible(q, [e2]) && After(q, [e2]) == Step(q, e2).next;
  }

  lemma AsksTwo(p: Provider, r: Request)
    requires WellFormed(p) && p.table == A_SECOND && p.queue == [] && r.vms == [2] && r.zone == "z"
    ensures GoesAstray(p, r)
  {
    assert [2][..|[2]| - 1] == [] && Total([]) == 0;
    assert Total([2]) == 2;
    PositionOf(A_SECOND.zones, 0);
    assert FindNodesByZone(A_SECOND, "z") == Some({0, 1});
    assert Scan(A_SECOND.nodes, {0, 1}, 2, 0) == (0, -1);
    assert Scan(A_SECOND.nodes, {0, 1}, 2, 1) == (4, 0);
    assert Scan(A_SECOND.nodes, {0, 1}, 2, 2) == (4, 0);
    assert Select(A_SECOND, p.defaultZone, r) == Selected(0);
    PositionOf(A_SECOND.topics, 0);
  }
}
