/** The outgoing message queue: one FIFO per topic, handed to the first consumer that registers, one packet per ack. */
module MessageQueue {
  import opened Sums

  type Payload = nat

  datatype Consumer = Consumer(socketId: int, ready: bool)

  datatype Delivery = Delivery(socketId: int, payload: Payload)

  /** One topic: its queue if it has been created, and its consumer if one registered. */
  datatype Topic = Topic(queue: Option<seq<Payload>>, consumer: Option<Consumer>)

  datatype Effect = Effect(next: Topic, sent: Option<Delivery>, error: bool)

  function Waiting(t: Topic): seq<Payload> { if t.queue.Some? then t.queue.value else [] }

  /** The head goes to the consumer, if there are both; nothing asks whether the consumer is ready. */
  function Attempt(t: Topic): Effect {
    if !t.consumer.Some? || Waiting(t) == [] then Effect(t, None, false)
    else Effect(Topic(Some(Waiting(t)[1..]), Some(t.consumer.value.(ready := false))),
                Some(Delivery(t.consumer.value.socketId, Waiting(t)[0])), false)
  }

  function OnPush(t: Topic, preemptive: bool, m: Payload): Effect {
    if t.queue.Some? then Attempt(t.(queue := Some(t.queue.value + [m])))
    else if preemptive then Effect(t.(queue := Some([m])), None, false)
    else Effect(t, None, true)
  }

  /** A message from a client: the first one registers it, later ones must be acks. */
  function OnClient(t: Topic, socketId: int, isAck: bool): Effect {
    if t.consumer.Some? then
      if !isAck then Effect(t, None, true)
      else Attempt(Topic(Some(Waiting(t)), Some(t.consumer.value.(ready := true))))
    else Attempt(Topic(Some(Waiting(t)), Some(Consumer(socketId, true))))
  }

  class MessageQueueOut {
    const preemptiveAlloc: bool
    var topicToQueueMap: map<string, seq<Payload>>
    var topicToConsumerMap: map<string, Consumer>

    ghost function At(topic: string): Topic
      reads this
    {
      Topic(if topic in topicToQueueMap then Some(topicToQueueMap[topic]) else None,
            if topic in topicToConsumerMap then Some(topicToConsumerMap[topic]) else None)
    }

    constructor (preemptiveAlloc: bool)
      ensures this.preemptiveAlloc == preemptiveAlloc && forall topic :: At(topic) == Topic(None, None)
    {
      this.preemptiveAlloc := preemptiveAlloc;
      topicToQueueMap, topicToConsumerMap := map[], map[];
    }

    method CreateOrFindQueue(topic: string)
      modifies this`topicToQueueMap
      ensures At(topic) == old(At(topic)).(queue := Some(Waiting(old(At(topic)))))
      ensures forall other :: other != topic ==> At(other) == old(At(other))
    {
      if topic !in topicToQueueMap {
        topicToQueueMap := topicToQueueMap[topic := []];
      }
    }

    method AttemptToSend(topic: string) returns (sent: Option<Delivery>)
      requires topic in topicToQueueMap
      modifies this
      ensures var e := Attempt(old(At(topic))); At(topic) == e.next && sent == e.sent
      ensures sent.Some? <==> topic in old(topicToConsumerMap) && old(topicToQueueMap)[topic] != []
      ensures sent.Some? ==>
        && sent.value == Delivery(old(topicToConsumerMap)[topic].socketId, old(topicToQueueMap)[topic][0])
        && topicToQueueMap[topic] == old(topicToQueueMap)[topic][1..]
        && topicToConsumerMap[topic] == Consumer(old(topicToConsumerMap)[topic].socketId, false)
      ensures forall other :: other != topic ==> At(other) == old(At(other))
    {
      if topic !in topicToConsumerMap {
        return None;
      }
      var consumer, queue := topicToConsumerMap[topic], topicToQueueMap[topic];
      if |queue| == 0 {
        return None;
      }
      topicToQueueMap := topicToQueueMap[topic := queue[1..]];
      topicToConsumerMap := topicToConsumerMap[topic := consumer.(ready := false)];
      return Some(Delivery(consumer.socketId, queue[0]));
    }

    method PushIncomingMessage(topic: string, m: Payload) returns (sent: Option<Delivery>, error: bool)
      modifies this
      ensures var e := OnPush(old(At(topic)), preemptiveAlloc, m);
              At(topic) == e.next && sent == e.sent && error == e.error
      ensures error <==> !preemptiveAlloc && topic !in old(topicToQueueMap)
      ensures forall other :: other != topic ==> At(other) == old(At(other))
    {
      if topic in topicToQueueMap {
        topicToQueueMap := topicToQueueMap[topic := topicToQueueMap[topic] + [m]];
        sent := AttemptToSend(topic);
        return sent, false;
      }
      if !preemptiveAlloc {
        return None, true;
      }
      CreateOrFindQueue(topic);
      assert [] + [m] == [m];
      topicToQueueMap := topicToQueueMap[topic := topicToQueueMap[topic] + [m]];
      return None, false;
    }

    method HandleIncomingMessage(socketId: int, topic: string, isAck: bool)
        returns (sent: Option<Delivery>, error: bool)
      modifies this
      ensures var e := OnClient(old(At(topic)), socketId, isAck);
              At(topic) == e.next && sent == e.sent && error == e.error
      ensures error <==> topic in old(topicToConsumerMap) && !isAck
      ensures forall other :: other != topic ==> At(other) == old(At(other))
    {
      if topic in topicToConsumerMap {
        if !isAck {
          return None, true;
        }
        topicToConsumerMap := topicToConsumerMap[topic := topicToConsumerMap[topic].(ready := true)];
        CreateOrFindQueue(topic);
        sent := AttemptToSend(topic);
        return sent, false;
      }
      CreateOrFindQueue(topic);
      topicToConsumerMap := topicToConsumerMap[topic := Consumer(socketId, true)];
      sent := AttemptToSend(topic);
      return sent, false;
    }
  }

  /** The consumer's end: unwraps every message of a packet, then acknowledges the packet once. */
  class PullClient {
    var forwarded: seq<Payload>
    var acks: nat

    constructor ()
      ensures forwarded == [] && acks == 0
    {
      forwarded, acks := [], 0;
    }

    /** The start-up event sends the first ack, which registers the client. */
    method Bootstrap()
      modifies this
      ensures acks == old(acks) + 1 && forwarded == old(forwarded)
    {
      acks := acks + 1;
    }

    method HandlePacket(packet: seq<Payload>)
      modifies this
      ensures forwarded == old(forwarded) + packet && acks == old(acks) + 1
    {
      var queue := packet;
      while |queue| > 0
        invariant acks == old(acks) && forwarded + queue == old(forwarded) + packet
      {
        var payload := queue[0];
        ghost var f, q := forwarded, queue;
        queue := queue[1..];
        forwarded := forwarded + [payload];
        assert forwarded + queue == f + q;
      }
      acks := acks + 1;
    }
  }

  // ---------------------------------------------------------------- one topic with its clients and the wire

  /** Packets on the way to the clients, acks on the way back (by socket), what was pushed and what was received. */
  datatype Wire = Wire(topic: Topic, packets: seq<Delivery>, acks: seq<int>, pushed: seq<Payload>,
                       received: seq<Delivery>)

  datatype Event =
    | Push(m: Payload)
    | Boot(socketId: int)             // a client starts and sends its first ack
    | AckIn(k: nat)                   // the k-th ack in flight reaches the queue
    | PacketIn(socketId: int, n: nat) // n messages reach the client they are addressed to, and it sends one ack back

  ghost predicate AllTo(ds: seq<Delivery>, socketId: int) {
    forall i :: 0 <= i < |ds| ==> ds[i].socketId == socketId
  }

  ghost predicate Enabled(w: Wire, e: Event) {
    match e
    case AckIn(k) => k < |w.acks|
    case PacketIn(s, n) => 0 < n <= |w.packets| && AllTo(w.packets[..n], s)
    case _ => true
  }

  ghost function Sent(e: Effect): seq<Delivery> {
    if e.sent.Some? then [e.sent.value] else []
  }

  ghost function Payloads(ds: seq<Delivery>): (r: seq<Payload>)
    ensures |r| == |ds|
  {
    seq(|ds|, i requires 0 <= i < |ds| => ds[i].payload)
  }

  ghost function Step(w: Wire, preemptive: bool, e: Event): (Wire, bool)
    requires Enabled(w, e)
  {
    match e
    case Push(m) =>
      var x := OnPush(w.topic, preemptive, m);
      (w.(topic := x.next,
          packets := w.packets + Sent(x),
          pushed := if x.error then w.pushed else w.pushed + [m]), x.error)
    case Boot(socketId) => (w.(acks := w.acks + [socketId]), false)
    case AckIn(k) =>
      var x := OnClient(w.topic, w.acks[k], true);
      (w.(topic := x.next, packets := w.packets + Sent(x), acks := w.acks[..k] + w.acks[k + 1..]), x.error)
    case PacketIn(s, n) =>
      (w.(packets := w.packets[n..], received := w.received + w.packets[..n], acks := w.acks + [s]), false)
  }

  /** Every message handed out, in the order it left: received already, or still on the wire. */
  ghost function HandedOut(w: Wire): seq<Delivery> { w.received + w.packets }

  /**
   * Nothing is lost, duplicated or reordered, everything handed out is addressed to the consumer, and a registered
   * consumer with messages waiting has something in flight.
   */
  ghost predicate Inv(w: Wire) {
    && w.pushed == Payloads(HandedOut(w)) + Waiting(w.topic)
    && (w.topic.consumer.Some? ==> w.topic.queue.Some? && AllTo(HandedOut(w), w.topic.consumer.value.socketId))
    && (w.topic.consumer.Some? && Waiting(w.topic) != [] ==> w.packets != [] || w.acks != [])
    && (!w.topic.consumer.Some? ==> w.packets == [] && w.received == [])
  }

  /** An attempt takes the head of the queue, if there is a consumer, and addresses it to the consumer's socket. */
  lemma AttemptMoves(t: Topic)
    ensures var e := Attempt(t);
            && !e.error && (t.queue.Some? ==> e.next.queue.Some?)
            && Payloads(Sent(e)) + Waiting(e.next) == Waiting(t)
            && (t.consumer.Some? && Waiting(t) != [] <==> Sent(e) != [])
            && (e.next.consumer.Some? <==> t.consumer.Some?)
            && (t.consumer.Some? ==>
                  && e.next.consumer.value.socketId == t.consumer.value.socketId
                  && AllTo(Sent(e), t.consumer.value.socketId)
                  && e.next.consumer.value.ready == (t.consumer.value.ready && Waiting(t) == []))
  {
    if t.consumer.Some? && Waiting(t) != [] {
      assert Payloads(Sent(Attempt(t))) == [Waiting(t)[0]];
    }
  }

  lemma PayloadsConcat(a: seq<Delivery>, b: seq<Delivery>)
    ensures Payloads(a + b) == Payloads(a) + Payloads(b)
  {
  }

  /** What an attempt on topic t does to the wire. */
  ghost function Attempted(w: Wire, t: Topic): Wire {
    w.(topic := Attempt(t).next, packets := w.packets + Sent(Attempt(t)))
  }

  /** An attempt moves the head of the queue to the end of the wire. */
  lemma AttemptKeepsOrder(w: Wire, t: Topic)
    ensures var g := Attempted(w, t);
            && HandedOut(g) == HandedOut(w) + Sent(Attempt(t))
            && Payloads(HandedOut(g)) + Waiting(g.topic) == Payloads(HandedOut(w)) + Waiting(t)
  {
    AttemptMoves(t);
    var sent, rest := Sent(Attempt(t)), Waiting(Attempt(t).next);
    PayloadsConcat(HandedOut(w), sent);
    assert w.received + (w.packets + sent) == HandedOut(w) + sent;
    assert Payloads(HandedOut(w)) + Payloads(sent) + rest == Payloads(HandedOut(w)) + (Payloads(sent) + rest);
  }

  lemma PushKeeps(w: Wire, preemptive: bool, m: Payload)
    requires Inv(w)
    ensures Inv(Step(w, preemptive, Push(m)).0)
    ensures Step(w, preemptive, Push(m)).1 <==> !preemptive && !w.topic.queue.Some?
  {
    if w.topic.queue.Some? {
      var t := w.topic.(queue := Some(w.topic.queue.value + [m]));
      AttemptMoves(t);
      AttemptKeepsOrder(w, t);
      assert Payloads(HandedOut(w)) + Waiting(t) == Payloads(HandedOut(w)) + Waiting(w.topic) + [m];
    } else if preemptive {
      assert Step(w, preemptive, Push(m)).0.packets == w.packets;
      assert Payloads(HandedOut(w)) + [m] == Payloads(HandedOut(w)) + [] + [m];
    }
  }

  /** The topic an ack finds: its consumer marked ready, or registered by this very ack. */
  ghost function Greeted(t: Topic, socketId: int): Topic {
    Topic(Some(Waiting(t)),
          Some(if t.consumer.Some? then t.consumer.value.(ready := true) else Consumer(socketId, true)))
  }

  lemma AckKeeps(w: Wire, preemptive: bool, k: nat)
    requires Inv(w) && k < |w.acks|
    ensures Inv(Step(w, preemptive, AckIn(k)).0) && !Step(w, preemptive, AckIn(k)).1
  {
    var t := Greeted(w.topic, w.acks[k]);
    AttemptMoves(t);
    AttemptKeepsOrder(w, t);
  }

  lemma PacketKeeps(w: Wire, preemptive: bool, s: int, n: nat)
    requires Inv(w) && Enabled(w, PacketIn(s, n))
    ensures Inv(Step(w, preemptive, PacketIn(s, n)).0)
  {
    assert HandedOut(Step(w, preemptive, PacketIn(s, n)).0) == HandedOut(w);
  }

  lemma StepKeeps(w: Wire, preemptive: bool, e: Event)
    requires Inv(w) && Enabled(w, e)
    ensures Inv(Step(w, preemptive, e).0)
    ensures Step(w, preemptive, e).1 <==> e.Push? && !preemptive && !w.topic.queue.Some?
  {
    match e
    case Push(m) => PushKeeps(w, preemptive, m);
    case Boot(socketId) =>
    case AckIn(k) => AckKeeps(w, preemptive, k);
    case PacketIn(s, n) => PacketKeeps(w, preemptive, s, n);
  }

  ghost predicate Possible(w: Wire, preemptive: bool, es: seq<Event>)
    decreases |es|
  {
    es == [] || (Enabled(w, es[0]) && !Step(w, preemptive, es[0]).1
                 && Possible(Step(w, preemptive, es[0]).0, preemptive, es[1..]))
  }

  ghost function After(w: Wire, preemptive: bool, es: seq<Event>): Wire
    requires Possible(w, preemptive, es)
    decreases |es|
  {
    if es == [] then w else After(Step(w, preemptive, es[0]).0, preemptive, es[1..])
  }

  const QUIET := Wire(Topic(None, None), [], [], [], [])

  lemma {:induction false} AlwaysInv(w: Wire, preemptive: bool, es: seq<Event>)
    requires Inv(w) && Possible(w, preemptive, es)
    ensures Inv(After(w, preemptive, es))
    decreases |es|
  {
    if es != [] {
      StepKeeps(w, preemptive, es[0]);
      AlwaysInv(Step(w, preemptive, es[0]).0, preemptive, es[1..]);
    }
  }

  /**
   * In every run, per topic: what was pushed is what was received, then what is on the wire, then what waits, in order;
   * no wake-up is lost.
   */
  lemma NothingIsLost(preemptive: bool, es: seq<Event>)
    requires Possible(QUIET, preemptive, es)
    ensures var w := After(QUIET, preemptive, es);
            && w.pushed == Payloads(w.received) + Payloads(w.packets) + Waiting(w.topic)
            && (w.topic.consumer.Some? && Waiting(w.topic) != [] ==> w.packets != [] || w.acks != [])
  {
    AlwaysInv(QUIET, preemptive, es);
    PayloadsConcat(After(QUIET, preemptive, es).received, After(QUIET, preemptive, es).packets);
  }

  // ---------------------------------------------------------------- who the consumer is

  /** Only an ack registers a consumer, and a registered one keeps its socket. */
  lemma StepRegisters(w: Wire, preemptive: bool, e: Event)
    requires Inv(w) && Enabled(w, e)
    ensures var c := Step(w, preemptive, e).0.topic.consumer;
            && (w.topic.consumer.Some? ==> c.Some? && c.value.socketId == w.topic.consumer.value.socketId)
            && (!w.topic.consumer.Some? ==>
                  if e.AckIn? then c.Some? && c.value.socketId == w.acks[e.k] else !c.Some?)
  {
    match e
    case Push(m) => if w.topic.queue.Some? { AttemptMoves(w.topic.(queue := Some(w.topic.queue.value + [m]))); }
    case Boot(socketId) =>
    case AckIn(k) => AttemptMoves(Greeted(w.topic, w.acks[k]));
    case PacketIn(s, n) =>
  }

  lemma {:induction false} ConsumerStays(w: Wire, preemptive: bool, es: seq<Event>)
    requires Inv(w) && Possible(w, preemptive, es) && w.topic.consumer.Some?
    ensures var g := After(w, preemptive, es);
            g.topic.consumer.Some? && g.topic.consumer.value.socketId == w.topic.consumer.value.socketId
    decreases |es|
  {
    if es != [] {
      StepKeeps(w, preemptive, es[0]);
      StepRegisters(w, preemptive, es[0]);
      ConsumerStays(Step(w, preemptive, es[0]).0, preemptive, es[1..]);
    }
  }

  lemma {:induction false} NobodyBeforeAnAck(w: Wire, preemptive: bool, es: seq<Event>)
    requires Inv(w) && Possible(w, preemptive, es) && !w.topic.consumer.Some?
    requires forall i :: 0 <= i < |es| ==> !es[i].AckIn?
    ensures !After(w, preemptive, es).topic.consumer.Some?
    decreases |es|
  {
    if es != [] {
      StepKeeps(w, preemptive, es[0]);
      StepRegisters(w, preemptive, es[0]);
      NobodyBeforeAnAck(Step(w, preemptive, es[0]).0, preemptive, es[1..]);
    }
  }

  lemma {:induction false} RunInTwo(w: Wire, preemptive: bool, before: seq<Event>, rest: seq<Event>)
    requires Possible(w, preemptive, before + rest)
    ensures Possible(w, preemptive, before) && Possible(After(w, preemptive, before), preemptive, rest)
    ensures After(w, preemptive, before + rest) == After(After(w, preemptive, before), preemptive, rest)
    decreases |before|
  {
    if before == [] {
      assert before + rest == rest;
    } else {
      assert (before + rest)[1..] == before[1..] + rest;
      RunInTwo(Step(w, preemptive, before[0]).0, preemptive, before[1..], rest);
    }
  }

  /**
   * In every run the first ack to reach the queue settles the consumer: every message handed out in that run, received
   * or on the wire, is addressed to the socket that ack came from, and together with what waits they are what was
   * pushed. Before it nothing is handed out.
   */
  lemma FirstAckGetsEverything(preemptive: bool, before: seq<Event>, k: nat, rest: seq<Event>)
    requires Possible(QUIET, preemptive, before + ([AckIn(k)] + rest))
    requires forall i :: 0 <= i < |before| ==> !before[i].AckIn?
    ensures Possible(QUIET, preemptive, before) && k < |After(QUIET, preemptive, before).acks|
    ensures var at, w := After(QUIET, preemptive, before), After(QUIET, preemptive, before + ([AckIn(k)] + rest));
            && at.received == at.packets == []
            && AllTo(w.received, at.acks[k]) && AllTo(w.packets, at.acks[k])
            && Payloads(w.received) + Payloads(w.packets) + Waiting(w.topic) == w.pushed
  {
    var all := [AckIn(k)] + rest;
    RunInTwo(QUIET, preemptive, before, all);
    AlwaysInv(QUIET, preemptive, before);
    NobodyBeforeAnAck(QUIET, preemptive, before);
    var at := After(QUIET, preemptive, before);
    assert all[0] == AckIn(k) && all[1..] == rest;
    StepKeeps(at, preemptive, AckIn(k));
    StepRegisters(at, preemptive, AckIn(k));
    ConsumerStays(Step(at, preemptive, AckIn(k)).0, preemptive, rest);
    AlwaysInv(QUIET, preemptive, before + all);
    NothingIsLost(preemptive, before + all);
    AllToBoth(After(QUIET, preemptive, before + all), at.acks[k]);
  }

  lemma AllToBoth(w: Wire, s: int)
    requires AllTo(HandedOut(w), s)
    ensures AllTo(w.received, s) && AllTo(w.packets, s)
  {
    forall i | 0 <= i < |w.received| ensures w.received[i].socketId == s { assert HandedOut(w)[i].socketId == s; }
    forall i | 0 <= i < |w.packets| ensures w.packets[i].socketId == s {
      assert HandedOut(w)[|w.received| + i].socketId == s;
    }
  }

  // ---------------------------------------------------------------- draining

  ghost predicate Internal(e: Event) { e.AckIn? || e.PacketIn? }

  ghost function Effort(w: Wire): nat { 3 * |Waiting(w.topic)| + 2 * |w.packets| + |w.acks| }

  lemma InternalStepsWork(w: Wire, preemptive: bool, e: Event)
    requires Inv(w) && Enabled(w, e) && Internal(e)
    ensures Effort(Step(w, preemptive, e).0) < Effort(w)
  {
    if e.AckIn? {
      AttemptMoves(Greeted(w.topic, w.acks[e.k]));
    }
  }

  /** Without pushes a run ends after at most `Effort` steps ... */
  lemma {:induction false} QuietRunsAreShort(w: Wire, preemptive: bool, es: seq<Event>)
    requires Inv(w) && Possible(w, preemptive, es) && forall i :: 0 <= i < |es| ==> Internal(es[i])
    ensures |es| + Effort(After(w, preemptive, es)) <= Effort(w)
    decreases |es|
  {
    if es != [] {
      InternalStepsWork(w, preemptive, es[0]);
      StepKeeps(w, preemptive, es[0]);
      QuietRunsAreShort(Step(w, preemptive, es[0]).0, preemptive, es[1..]);
    }
  }

  /** ... and when it can go no further, the registered consumer has received everything pushed. */
  lemma StuckMeansDelivered(w: Wire)
    requires Inv(w) && w.topic.consumer.Some? && forall e :: Internal(e) ==> !Enabled(w, e)
    ensures Payloads(w.received) == w.pushed && AllTo(w.received, w.topic.consumer.value.socketId)
  {
    var s := w.topic.consumer.value.socketId;
    AllToBoth(w, s);
    assert !Enabled(w, AckIn(0)) && !Enabled(w, PacketIn(s, 1));
    assert w.packets == [] && HandedOut(w) == w.received;
    assert Payloads(w.received) + [] == Payloads(w.received);
  }

  // ---------------------------------------------------------------- readiness is not asked for

  ghost function Pushes(ms: seq<Payload>): seq<Event> {
    if ms == [] then [] else [Push(ms[0])] + Pushes(ms[1..])
  }

  ghost predicate Caught(w: Wire) { w.topic.consumer.Some? && w.topic.queue == Some([]) }

  /** Messages addressed to one socket. */
  ghost function To(s: int, ms: seq<Payload>): seq<Delivery> {
    if ms == [] then [] else [Delivery(s, ms[0])] + To(s, ms[1..])
  }

  lemma PushGoesOut(w: Wire, preemptive: bool, m: Payload)
    requires Caught(w)
    ensures var g := Step(w, preemptive, Push(m)).0;
            AllOut(w, g, [m]) && !g.topic.consumer.value.ready
  {
    assert [m][1..] == [] && [] + [m] == [m];
    assert To(0, []) == [] && forall s :: To(s, [m]) == [Delivery(s, m)];
  }

  ghost predicate AllOut(w: Wire, g: Wire, ms: seq<Payload>)
    requires w.topic.consumer.Some?
  {
    && Caught(g) && g.acks == w.acks && g.received == w.received
    && g.topic.consumer.value.socketId == w.topic.consumer.value.socketId
    && g.packets == w.packets + To(w.topic.consumer.value.socketId, ms)
  }

  lemma OneMoreOut(w: Wire, g: Wire, h: Wire, m: Payload, ms: seq<Payload>)
    requires w.topic.consumer.Some? && AllOut(w, g, [m]) && AllOut(g, h, ms)
    ensures AllOut(w, h, [m] + ms)
  {
    var s := w.topic.consumer.value.socketId;
    assert To(s, [m] + ms) == [Delivery(s, m)] + To(s, ms) by { assert ([m] + ms)[1..] == ms; }
    assert To(s, [m]) == [Delivery(s, m)];
    assert (w.packets + To(s, [m])) + To(s, ms) == w.packets + (To(s, [m]) + To(s, ms));
  }

  /** However many messages are pushed to a registered consumer, all go out to it at once, with no ack between them. */
  lemma {:induction false} PushesNeedNoAck(w: Wire, preemptive: bool, ms: seq<Payload>)
    requires Caught(w)
    ensures Possible(w, preemptive, Pushes(ms))
    ensures AllOut(w, After(w, preemptive, Pushes(ms)), ms)
    decreases |ms|
  {
    if ms == [] {
      assert w.packets + [] == w.packets;
    } else {
      var es := Pushes(ms);
      assert es[0] == Push(ms[0]) && es[1..] == Pushes(ms[1..]);
      PushGoesOut(w, preemptive, ms[0]);
      var g := Step(w, preemptive, Push(ms[0])).0;
      PushesNeedNoAck(g, preemptive, ms[1..]);
      OneMoreOut(w, g, After(g, preemptive, Pushes(ms[1..])), ms[0], ms[1..]);
      assert ms == [ms[0]] + ms[1..];
    }
  }
}
