/** A PUBLISH that is encoded and decoded again arrives as it was sent. */
module RoundTrip {
  import opened Types
  import opened PacketStore
  import opened PacketIds
  import opened Wire
  import opened Transmit
  import opened TransmitRuns
  import opened Receive
  import opened Session
  import opened SessionInvariant
  import opened Decoding
  import opened Incoming

  /** What the receiver holds after the message. */
  function AfterDelivery(env: Env, l: Link, e: Entry, dup: bool): Link
    requires Sendable(e, dup) && e.value.body.PublishBody?
  {
    Outcome(env, l, e, Taken).0
  }

  /** The application takes this message. */
  predicate Accepts(env: Env, log: seq<Event>, e: Entry)
    requires e.value.body.PublishBody?
  {
    var p := e.value.body.publish;
    var n := PublishRemaining(p);
    && InMode(env, log, p, Taken, n)
    && env.accept(ReadLog(log, p, Taken, n) + [Delivered(Message(p.topic, p.payload, p.qos, p.retain), DeliveredId(e))])
  }

  /** The id set can take the message's id. */
  predicate HasRoomFor(ids: IdSet, e: Entry)
    requires e.value.body.PublishBody?
  {
    e.value.body.publish.qos == 2 ==> e.value.packetId !in ids.items && |ids.items| < ids.capacity
  }

  /** The acknowledgement that a message asks for: PUBACK for QoS 1, PUBREC for QoS 2, with its id. */
  function AckOf(e: Entry): seq<Entry>
  {
    if e.kind.Publish1? then [Entry(Puback, Value(e.value.packetId, 0, NoBody))]
    else if e.kind.Publish2? then [Entry(Pubrec, Value(e.value.packetId, 0, NoBody))]
    else []
  }

  /** The id that the receiver holds for a message until its PUBREL. */
  function HeldFor(e: Entry): seq<U16> { if e.kind.Publish2? then [e.value.packetId] else [] }

  /** As many of the entries as the store has places for. */
  function Fitting(s: StoreState, es: seq<Entry>): seq<Entry>
    requires s.Valid()
  {
    es[..Min(|es|, s.capacity - |s.entries|)]
  }

  /** What a message leaves in the store and the id set. A full store drops the acknowledgement. */
  lemma DeliveryAcknowledges(env: Env, l: Link, e: Entry, dup: bool)
    requires Sendable(e, dup) && e.value.body.PublishBody? && l.store.Valid() && HasRoomFor(l.ids, e)
    ensures var m := AfterDelivery(env, l, e, dup);
            && m.store == l.store.(entries := l.store.entries + Fitting(l.store, AckOf(e)))
            && m.ids == l.ids.(items := l.ids.items + HeldFor(e))
    ensures AfterDelivery(env, l, e, dup).store.entries == l.store.entries + AckOf(e) <==>
              e.kind.Publish0? || l.store.Queueable()
  {
    hide ReadLog, ValidPublish;
    QosOfKind(e);
  }

  /** PUBLISH round trip: a receiver between two packets that accepts the message and has room for its id
      gets the same topic, payload, QoS and retain flag, exactly once, and holds the id of QoS 2. It queues
      the acknowledgement with the sender's packet id if and only if the store has a place for it, and
      changes nothing else. */
  lemma PublishArrives(env: Env, c: Client, e: Entry, dup: bool)
    requires CanDecode(c) && c.rx == RESET_RX && Sendable(e, dup)
    requires Accepts(env, c.log, e) && HasRoomFor(c.ids, e)
    ensures LinkOf(c).store.Valid()
    ensures DecodeBytes(env, c, Packet(e, dup)) == WithLink(c, AfterDelivery(env, LinkOf(c), e, dup))
    ensures var s, t := LinkOf(c).store, LinkOf(DecodeBytes(env, c, Packet(e, dup))).store;
            && t == s.(entries := s.entries + Fitting(s, AckOf(e)))
            && (t.entries == s.entries + AckOf(e) <==> e.kind.Publish0? || s.Queueable())
  {
    hide Inv, WellFormed, AfterDelivery, Packet, Fitting, AckOf, DecodeBytes, Accepts, HasRoomFor;
    ValidOf(e);
    StoreIsValid(c);
    LinkIds(c);
    AcceptedIsDelivered(env, c, e, dup);
    DeliveryAcknowledges(env, LinkOf(c), e, dup);
    LinkStays(c, AfterDelivery(env, LinkOf(c), e, dup));
  }

  lemma AcceptedIsDelivered(env: Env, c: Client, e: Entry, dup: bool)
    requires CanDecode(c) && c.rx == RESET_RX && Sendable(e, dup)
    requires e.value.body.PublishBody? && Accepts(env, c.log, e) && HasRoomFor(c.ids, e)
    ensures DecodeBytes(env, c, Packet(e, dup)) == WithLink(c, AfterDelivery(env, LinkOf(c), e, dup))
  {
    hide Inv, Packet, DecodeBytes, WellFormed, CanDecode, ReadLog, InMode;
    QosOfKind(e);
    PublishOutcome(env, c, e, dup, Taken);
  }

  // ----- a queue of messages, end to end -----

  /** The receiver takes every message of the queue, each in the state the ones before leave it in. */
  ghost predicate TakesAll(env: Env, c: Client, es: seq<Entry>, encodes: multiset<nat>)
    decreases |es|
  {
    es == [] ||
    (&& Sendable(es[0], Dup(es[0], encodes)) && Accepts(env, c.log, es[0]) && HasRoomFor(c.ids, es[0])
     && TakesAll(env, Received1(env, c, es[0], encodes), es[1..], After(encodes, es[0])))
  }

  function Received1(env: Env, c: Client, e: Entry, encodes: multiset<nat>): Client
    requires Sendable(e, Dup(e, encodes))
  {
    WithLink(c, AfterDelivery(env, LinkOf(c), e, Dup(e, encodes)))
  }

  /** The receiver after every message of the queue, in order. */
  ghost function ReceivedAll(env: Env, c: Client, es: seq<Entry>, encodes: multiset<nat>): Client
    requires TakesAll(env, c, es, encodes)
    decreases |es|
  {
    if es == [] then c else ReceivedAll(env, Received1(env, c, es[0], encodes), es[1..], After(encodes, es[0]))
  }

  lemma ReceivedIsReset(env: Env, c: Client, e: Entry, encodes: multiset<nat>)
    requires Sendable(e, Dup(e, encodes))
    ensures Received1(env, c, e, encodes).rx == RESET_RX
  {
  }

  lemma LinkStays(c: Client, l: Link)
    ensures LinkOf(WithLink(c, l)) == l
  {
  }

  lemma {:induction false} StreamArrives(env: Env, c: Client, es: seq<Entry>, encodes: multiset<nat>)
    requires CanDecode(c) && c.rx == RESET_RX && TakesAll(env, c, es, encodes)
    requires forall i :: 0 <= i < |es| ==> WellFormed(es[i])
    ensures DecodeBytes(env, c, Stream(es, encodes)) == ReceivedAll(env, c, es, encodes)
    decreases |es|
  {
    hide Inv, WellFormed, Packet, DecodeByte, AfterDelivery, Accepts, HasRoomFor;
    if es != [] {
      var rest := Stream(es[1..], After(encodes, es[0]));
      PublishArrives(env, c, es[0], Dup(es[0], encodes));
      DecodeTwice(env, c, Packet(es[0], Dup(es[0], encodes)), rest);
      var next := Received1(env, c, es[0], encodes);
      ReceivedIsReset(env, c, es[0], encodes);
      assert Stream(es, encodes) == Packet(es[0], Dup(es[0], encodes)) + rest;
      StreamArrives(env, next, es[1..], After(encodes, es[0]));
    }
  }

  /** The messages handed to the application, in order. */
  function Deliveries(log: seq<Event>): seq<Message>
  {
    if log == [] then []
    else
      var n := |log| - 1;
      Deliveries(log[..n]) + (if log[n].Delivered? then [log[n].message] else [])
  }

  function Messages(es: seq<Entry>): seq<Message>
    requires forall i :: 0 <= i < |es| ==> es[i].value.body.PublishBody?
  {
    if es == [] then []
    else
      var p := es[0].value.body.publish;
      [Message(p.topic, p.payload, p.qos, p.retain)] + Messages(es[1..])
  }

  lemma DeliveriesAppend(log: seq<Event>, e: Event)
    ensures Deliveries(log + [e]) == Deliveries(log) + if e.Delivered? then [e.message] else []
  {
    assert (log + [e])[..|log|] == log;
  }

  lemma OneDelivery(env: Env, c: Client, e: Entry, encodes: multiset<nat>)
    requires Sendable(e, Dup(e, encodes)) && e.value.body.PublishBody? && HasRoomFor(c.ids, e)
    ensures var p := e.value.body.publish;
            Deliveries(Received1(env, c, e, encodes).log)
            == Deliveries(c.log) + [Message(p.topic, p.payload, p.qos, p.retain)]
  {
    hide HeaderOf, WellFormed, Deliveries;
    ValidOf(e);
    QosOfKind(e);
    var p := e.value.body.publish;
    var topic, payload := AllocateTopic(|p.topic|), AllocatePayload(p.topic, |p.payload|);
    var asked := ReadLog(c.log, p, Taken, PublishRemaining(p));
    DeliveriesAppend(c.log, topic);
    DeliveriesAppend(c.log + [topic], payload);
    assert c.log + [topic] + [] == c.log + [topic];
    assert asked == if p.payload == [] then c.log + [topic] else c.log + [topic] + [payload];
    var delivered := Delivered(Message(p.topic, p.payload, p.qos, p.retain), DeliveredId(e));
    DeliveriesAppend(asked, delivered);
    DeliveriesAppend(asked + [delivered], Deallocated);
    var log := Received1(env, c, e, encodes).log;
    assert log == if env.onDeallocate then asked + [delivered] + [Deallocated] else asked + [delivered];
    assert Deliveries(asked) == Deliveries(c.log);
  }

  lemma {:induction false} AllDelivered(env: Env, c: Client, es: seq<Entry>, encodes: multiset<nat>)
    requires TakesAll(env, c, es, encodes)
    ensures forall i :: 0 <= i < |es| ==> es[i].value.body.PublishBody?
    ensures Deliveries(ReceivedAll(env, c, es, encodes).log) == Deliveries(c.log) + Messages(es)
    decreases |es|
  {
    hide Deliveries, AfterDelivery, Accepts, HasRoomFor;
    if es != [] {
      AllDelivered(env, Received1(env, c, es[0], encodes), es[1..], After(encodes, es[0]));
      OneDelivery(env, c, es[0], encodes);
      assert forall i :: 1 <= i < |es| ==> es[i] == es[1..][i - 1];
      var p := es[0].value.body.publish;
      var first := [Message(p.topic, p.payload, p.qos, p.retain)];
      assert Deliveries(c.log) + first + Messages(es[1..]) == Deliveries(c.log) + (first + Messages(es[1..]));
    }
  }

  /** The acknowledgements the messages ask for, in order. */
  function Acks(es: seq<Entry>): seq<Entry> { if es == [] then [] else AckOf(es[0]) + Acks(es[1..]) }

  /** The ids held for the QoS 2 messages, in order. */
  function Qos2Ids(es: seq<Entry>): seq<U16> { if es == [] then [] else HeldFor(es[0]) + Qos2Ids(es[1..]) }

  /** What fits of two runs of entries is what fits of the first and then what still fits of the second. */
  lemma FittingParts(s: StoreState, a: seq<Entry>, b: seq<Entry>)
    requires s.Valid()
    ensures var t := s.(entries := s.entries + Fitting(s, a));
            t.Valid() && Fitting(s, a + b) == Fitting(s, a) + Fitting(t, b)
  {
  }

  lemma FitsWhen(s: StoreState, es: seq<Entry>)
    requires s.Valid()
    ensures s.entries + Fitting(s, es) == s.entries + es <==> |s.entries| + |es| <= s.capacity
  {
    if |s.entries| + |es| > s.capacity { assert |s.entries + Fitting(s, es)| < |s.entries + es|; }
  }

  lemma {:induction false} AllAcknowledged(env: Env, c: Client, es: seq<Entry>, encodes: multiset<nat>)
    requires TakesAll(env, c, es, encodes) && LinkOf(c).store.Valid()
    ensures var s, d := LinkOf(c).store, ReceivedAll(env, c, es, encodes);
            && LinkOf(d).store == s.(entries := s.entries + Fitting(s, Acks(es)))
            && d.ids == c.ids.(items := c.ids.items + Qos2Ids(es))
    decreases |es|
  {
    hide AfterDelivery, Accepts, HasRoomFor, WellFormed, Fitting, AckOf, HeldFor, LinkOf, WithLink;
    var s := LinkOf(c).store;
    LinkIds(c);
    if es == [] {
      NothingFits(s);
    } else {
      var next := Received1(env, c, es[0], encodes);
      ValidOf(es[0]);
      DeliveryAcknowledges(env, LinkOf(c), es[0], Dup(es[0], encodes));
      LinkStays(c, AfterDelivery(env, LinkOf(c), es[0], Dup(es[0], encodes)));
      LinkIds(next);
      FittingParts(s, AckOf(es[0]), Acks(es[1..]));
      AllAcknowledged(env, next, es[1..], After(encodes, es[0]));
      var t := LinkOf(next).store;
      Regroup(s.entries, Fitting(s, AckOf(es[0])), Fitting(t, Acks(es[1..])));
      Regroup(c.ids.items, HeldFor(es[0]), Qos2Ids(es[1..]));
    }
  }

  lemma LinkIds(c: Client)
    ensures LinkOf(c).ids == c.ids
  {
  }

  lemma Regroup<T>(a: seq<T>, b: seq<T>, c: seq<T>)
    ensures a + b + c == a + (b + c)
  {
  }

  lemma NothingFits(s: StoreState)
    requires s.Valid()
    ensures s.entries + Fitting(s, []) == s.entries
  {
  }

  /** The receiver's callbacks take every message of the queue. */
  ghost predicate AcceptsAll(env: Env, c: Client, es: seq<Entry>, encodes: multiset<nat>)
    decreases |es|
  {
    es == [] ||
    (&& Sendable(es[0], Dup(es[0], encodes)) && Accepts(env, c.log, es[0])
     && AcceptsAll(env, Received1(env, c, es[0], encodes), es[1..], After(encodes, es[0])))
  }

  /** The id set can take the ids of all the QoS 2 messages. */
  predicate IdsFit(ids: IdSet, es: seq<Entry>)
  {
    Distinct(ids.items + Qos2Ids(es)) && |ids.items| + |Qos2Ids(es)| <= ids.capacity
  }

  /** When the receiver takes the whole queue: exactly when its callbacks take every message, and the ids of
      the QoS 2 messages are new, different from each other, and as many as there are places for. */
  lemma {:induction false} WhenQueueIsTaken(env: Env, c: Client, es: seq<Entry>, encodes: multiset<nat>)
    requires c.ids.Valid() && LinkOf(c).store.Valid()
    ensures TakesAll(env, c, es, encodes) <==> AcceptsAll(env, c, es, encodes) && IdsFit(c.ids, es)
    decreases |es|
  {
    hide AfterDelivery, Accepts, WellFormed, HeldFor, HasRoomFor, Distinct;
    if es == [] {
      assert c.ids.items + Qos2Ids(es) == c.ids.items;
    } else if Sendable(es[0], Dup(es[0], encodes)) {
      var next := Received1(env, c, es[0], encodes);
      ValidOf(es[0]);
      HeldIdFits(c.ids, es[0], es[1..]);
      if HasRoomFor(c.ids, es[0]) {
        LinkIds(c);
        DeliveryAcknowledges(env, LinkOf(c), es[0], Dup(es[0], encodes));
        LinkStays(c, AfterDelivery(env, LinkOf(c), es[0], Dup(es[0], encodes)));
        WhenQueueIsTaken(env, next, es[1..], After(encodes, es[0]));
      }
    }
  }

  lemma HeldIdFits(ids: IdSet, e: Entry, rest: seq<Entry>)
    requires ids.Valid() && IsPublish(e.kind) && WellFormed(e)
    ensures e.value.body.PublishBody?
    ensures var held := ids.(items := ids.items + HeldFor(e));
            && (IdsFit(ids, [e] + rest) <==> HasRoomFor(ids, e) && IdsFit(held, rest))
            && (HasRoomFor(ids, e) ==> held.Valid())
  {
    hide ValidPublish, Qos2Ids;
    assert [e] + rest != [] && ([e] + rest)[1..] == rest;
    assert Qos2Ids([e] + rest) == HeldFor(e) + Qos2Ids(rest) by { QueuedIds(e, rest); }
    var all := ids.items + HeldFor(e) + Qos2Ids(rest);
    assert ids.items + (HeldFor(e) + Qos2Ids(rest)) == all;
    if e.kind.Publish2? && e.value.packetId in ids.items {
      var i :| 0 <= i < |ids.items| && ids.items[i] == e.value.packetId;
      assert all[i] == all[|ids.items|];
    }
  }

  lemma QueuedIds(e: Entry, rest: seq<Entry>)
    ensures Qos2Ids([e] + rest) == HeldFor(e) + Qos2Ids(rest)
  {
    assert ([e] + rest)[1..] == rest;
  }

  /** End to end: a queue of messages, and the ones queued while it is sent, encoded by calls of any sizes
      and decoded by calls of any sizes, reaches the other application complete, unchanged and in order.
      The receiver holds exactly the ids of the QoS 2 messages in addition. Of the acknowledgements it queues
      the first ones that fit, in order and each with its id; it queues all of them if and only if the store
      has places for all. */
  lemma EndToEnd(sender: Env, w: TxWorld, ops: seq<TxOp>, receiver: Env, c: Client, chunks: seq<seq<byte>>)
    requires TxValid(w) && w.tx == RESET_TX && forall i :: 0 <= i < |ops| ==> OpValid(ops[i])
    requires var run := RunTx(sender, w, ops);
             run.world.tx.error.None? && !run.world.store.HasCurrent() && Join(chunks) == run.bytes
    requires CanDecode(c) && c.rx == RESET_RX
    requires TakesAll(receiver, c, Unsent(w) + RunTx(sender, w, ops).accepted, w.encodes)
    ensures var sent := Unsent(w) + RunTx(sender, w, ops).accepted;
            && DecodeCalls(receiver, c, chunks) == ReceivedAll(receiver, c, sent, w.encodes)
            && (forall i :: 0 <= i < |sent| ==> sent[i].value.body.PublishBody?)
            && Deliveries(DecodeCalls(receiver, c, chunks).log) == Deliveries(c.log) + Messages(sent)
            && DecodeCalls(receiver, c, chunks).ids == c.ids.(items := c.ids.items + Qos2Ids(sent))
    ensures LinkOf(c).store.Valid()
    ensures var sent := Unsent(w) + RunTx(sender, w, ops).accepted;
            var s, t := LinkOf(c).store, LinkOf(DecodeCalls(receiver, c, chunks)).store;
            && t == s.(entries := s.entries + Fitting(s, Acks(sent)))
            && (t.entries == s.entries + Acks(sent) <==> |s.entries| + |Acks(sent)| <= s.capacity)
  {
    hide Inv, RunTx, WellFormed, Fields, DecodeBytes, DecodeCalls, Stream, ReceivedAll, TakesAll, Deliveries, Fitting,
         Acks,
         Qos2Ids;
    var sent := Unsent(w) + RunTx(sender, w, ops).accepted;
    QueueIsEmittedInOrder(sender, w, ops);
    SplitDoesNotMatter(receiver, c, chunks);
    CallIsBytewise(receiver, c, Join(chunks));
    StreamArrives(receiver, c, sent, w.encodes);
    AllDelivered(receiver, c, sent, w.encodes);
    StoreIsValid(c);
    AllAcknowledged(receiver, c, sent, w.encodes);
    FitsWhen(LinkOf(c).store, Acks(sent));
  }
}
