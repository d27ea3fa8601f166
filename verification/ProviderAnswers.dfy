/** Who gets an answer from the provider: every request asked or subscribed, exactly once, unless it still waits. */
module ProviderAnswers {
  import opened Sums
  import opened NodeTables
  import opened CloudProvider
  import opened ProviderRuns

  /** The requests of a run, asked or subscribed, in order. */
  ghost function Made(es: seq<Event>): seq<Request> {
    if es == [] then [] else MadeBy(es[0]) + Made(es[1..])
  }

  ghost function MadeBy(e: Event): seq<Request> {
    if e.Ask? || e.Subscribe? then [e.r] else []
  }

  ghost function AboutOut(f: Request -> nat): Out -> nat { (o: Out) => f(o.request) }

  ghost function AboutSub(f: Request -> nat): Sub -> nat { (s: Sub) => f(s.request) }

  lemma {:induction false} FrontSum(out: seq<Out>, queue: seq<Sub>, f: Request -> nat)
    requires |out| <= |queue| && forall i :: 0 <= i < |out| ==> out[i].request == queue[i].request
    ensures Sum(out, AboutOut(f)) + Sum(queue[|out|..], AboutSub(f)) == Sum(queue, AboutSub(f))
  {
    if out != [] {
      assert queue[1..][|out| - 1..] == queue[|out|..];
      FrontSum(out[1..], queue[1..], f);
    }
  }

  /** What is sent and what waits after a step, counted by f. */
  ghost function Count(x: Effect, f: Request -> nat): nat {
    Sum(x.out, AboutOut(f)) + Sum(x.next.queue, AboutSub(f))
  }

  lemma AskAnswers(p: Provider, r: Request, f: Request -> nat)
    requires WellFormed(p) && !OnRequest(p, r).error
    ensures Count(OnRequest(p, r), f) == Sum(p.queue, AboutSub(f)) + f(r)
  {
    AskOutcome(p, r);
    AskKeepsTheQueue(p, r);
    OneMessage(OnRequest(p, r).out, r, f);
  }

  lemma OneMessage(out: seq<Out>, r: Request, f: Request -> nat)
    requires |out| == 1 && out[0].request == r
    ensures Sum(out, AboutOut(f)) == f(r)
  {
    SumOne(out[0], AboutOut(f));
    assert out == [out[0]];
  }

  lemma OneExpiry(queue: seq<Sub>, i: nat, f: Request -> nat)
    requires i < |queue|
    ensures Sum([TimedOut(queue[i].request)], AboutOut(f)) + Sum(Without(queue, i), AboutSub(f))
            == Sum(queue, AboutSub(f))
  {
    OneMessage([TimedOut(queue[i].request)], queue[i].request, f);
    SumRemove(queue, i, AboutSub(f));
  }

  lemma ExpireAnswers(p: Provider, event: nat, f: Request -> nat)
    requires Inv(p) && event in p.timers
    ensures Count(OnTimeout(p, event), f) == Sum(p.queue, AboutSub(f))
  {
    TimeoutFindsItsRequest(p, event);
    forall i | 0 <= i < |p.queue| ensures Sum([TimedOut(p.queue[i].request)], AboutOut(f))
                                          + Sum(Without(p.queue, i), AboutSub(f)) == Sum(p.queue, AboutSub(f)) {
      OneExpiry(p.queue, i, f);
    }
  }

  /** Each step answers what it takes out of the queue, and a request asked for at once. */
  lemma StepAnswers(p: Provider, e: Event, f: Request -> nat)
    requires Inv(p) && Enabled(p, e) && !Step(p, e).error
    ensures Count(Step(p, e), f) == Sum(p.queue, AboutSub(f)) + Sum(MadeBy(e), f)
  {
    match e
    case Ask(r) => AskAnswers(p, r, f);
    case Subscribe(r, now) => SumPush(p.queue, Sub(r, now, p.nextEvent), AboutSub(f));
    case Expire(event) => ExpireAnswers(p, event, f);
    case Report(topic, zone, cores, ram, disk) =>
      ReportServesQueue(p, topic, zone, cores, ram, disk);
      FrontSum(Step(p, e).out, p.queue, f);
  }

  lemma AskKeepsTheQueue(p: Provider, r: Request)
    requires WellFormed(p)
    ensures OnRequest(p, r).next.queue == p.queue
  {
    SelectMeans(p.table, p.defaultZone, r);
  }

  lemma {:induction false} RunAnswers(p: Provider, es: seq<Event>, f: Request -> nat)
    requires Inv(p) && Possible(p, es)
    ensures Sum(Outputs(p, es), AboutOut(f)) + Sum(After(p, es).queue, AboutSub(f))
            == Sum(p.queue, AboutSub(f)) + Sum(Made(es), f)
    decreases |es|
  {
    if es != [] {
      var x := Step(p, es[0]);
      StepKeeps(p, es[0]);
      StepAnswers(p, es[0], f);
      RunAnswers(x.next, es[1..], f);
      SumConcat(x.out, Outputs(x.next, es[1..]), AboutOut(f));
      SumConcat(MadeBy(es[0]), Made(es[1..]), f);
    }
  }

  /**
   * In every run, for any way of counting requests: the messages sent and the subscriptions still waiting are about
   * exactly the requests that were asked or subscribed.
   */
  lemma EveryRequestIsAnsweredOnce(defaultZone: string, priorityOn: bool, es: seq<Event>, f: Request -> nat)
    requires Possible(Start(defaultZone, priorityOn), es)
    ensures Sum(Outputs(Start(defaultZone, priorityOn), es), AboutOut(f))
            + Sum(After(Start(defaultZone, priorityOn), es).queue, AboutSub(f)) == Sum(Made(es), f)
  {
    StartInv(defaultZone, priorityOn);
    RunAnswers(Start(defaultZone, priorityOn), es, f);
  }

  // ---------------------------------------------------------------- asked at once, answered at once

  ghost function Asked(es: seq<Event>): seq<Request> {
    if es == [] then [] else (if es[0].Ask? then [es[0].r] else []) + Asked(es[1..])
  }

  /** The messages sent while a request is handled. */
  ghost function Answers(p: Provider, es: seq<Event>): seq<Out>
    requires Possible(p, es)
    decreases |es|
  {
    if es == [] then []
    else (if es[0].Ask? then Step(p, es[0]).out else []) + Answers(Step(p, es[0]).next, es[1..])
  }

  /** Messages that answer requests one by one, in order. */
  ghost predicate AnswerEach(out: seq<Out>, asked: seq<Request>) {
    && |out| == |asked|
    && forall i :: 0 <= i < |asked| ==> out[i].request == asked[i] && !out[i].TimedOut?
  }

  lemma AnswersJoin(a: seq<Out>, b: seq<Out>, r: seq<Request>, s: seq<Request>)
    requires AnswerEach(a, r) && AnswerEach(b, s)
    ensures AnswerEach(a + b, r + s)
  {
  }

  lemma AnsweredAtOnce(p: Provider, r: Request)
    requires WellFormed(p) && !OnRequest(p, r).error
    ensures AnswerEach(OnRequest(p, r).out, [r])
  {
    AskOutcome(p, r);
  }

  /** Every request asked gets its answer while it is handled: the i-th answer is about the i-th request asked. */
  lemma {:induction false} AskedAreAnsweredAtOnce(p: Provider, es: seq<Event>)
    requires Inv(p) && Possible(p, es)
    ensures AnswerEach(Answers(p, es), Asked(es))
    decreases |es|
  {
    if es != [] {
      StepKeeps(p, es[0]);
      var q := Step(p, es[0]).next;
      AskedAreAnsweredAtOnce(q, es[1..]);
      if es[0].Ask? {
        AnsweredAtOnce(p, es[0].r);
        AnswersJoin(Step(p, es[0]).out, Answers(q, es[1..]), [es[0].r], Asked(es[1..]));
      } else {
        AnswersJoin([], Answers(q, es[1..]), [], Asked(es[1..]));
      }
    }
  }
}
