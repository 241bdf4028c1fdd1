/** A PUBLISH that comes in, byte by byte, and everything that can become of it: it is delivered, held back
    because its id is held, ignored, or refused. */
module Incoming {
  import opened Types
  import opened FixedHeader
  import opened PacketStore
  import opened Wire
  import opened Transmit
  import opened Receive
  import opened ReceiveInvariant
  import opened Rounds
  import opened Session
  import opened SessionInvariant
  import opened Decoding
  import opened Responses

  /** A PUBLISH that MQTT allows on the wire: DUP is clear on QoS 0. */
  predicate Sendable(e: Entry, dup: bool)
  {
    IsPublish(e.kind) && WellFormed(e) && (dup ==> !e.kind.Publish0?)
  }

  function TopicStart(): nat { 2 }

  function IdStart(p: PublishRequest): nat { 2 + |p.topic| }

  function PayloadStart(p: PublishRequest): nat { IdStart(p) + (if p.qos == 0 then 0 else 2) }

  function HeaderOf(e: Entry, dup: bool): Header
    requires Sendable(e, dup)
  {
    var p := e.value.body.publish;
    HeaderSteps(ZERO_HEADER, [PublishFirstByte(p, dup)] + RemainingLength(PublishRemaining(p)))
  }

  /** What the application does with a message: a callback is missing; it ignores the message when it is asked
      for the topic or for the payload; or it takes it. */
  datatype Mode = Missing | TopicIgnored | PayloadIgnored | Taken

  /** The log while the body is read. */
  function ReadLog(log: seq<Event>, p: PublishRequest, m: Mode, j: nat): seq<Event>
  {
    log + (if j > TopicStart() && !m.Missing? then [AllocateTopic(|p.topic|)] else [])
    + (if j > PayloadStart(p) && (m.PayloadIgnored? || m.Taken?) then [AllocatePayload(p.topic, |p.payload|)] else [])
  }

  /** The application's answers up to byte `j` are those of the mode. */
  predicate InMode(env: Env, log: seq<Event>, p: PublishRequest, m: Mode, j: nat)
  {
    var all := env.onPublish && env.onAllocateTopic && env.onAllocatePayload;
    var topic := env.allocate(log + [AllocateTopic(|p.topic|)]);
    var payload := env.allocate(log + [AllocateTopic(|p.topic|)] + [AllocatePayload(p.topic, |p.payload|)]);
    && (j > TopicStart() ==>
          match m
          case Missing => !all
          case TopicIgnored => all && topic.AllocateIgnore?
          case _ => all && topic.AllocateSuccess?)
    && (j > PayloadStart(p) ==>
          match m
          case PayloadIgnored => payload.AllocateIgnore?
          case Taken => payload.AllocateSuccess?
          case _ => true)
  }

  predicate Ignoring(p: PublishRequest, m: Mode, j: nat)
  {
    match m
    case Missing => j > TopicStart()
    case TopicIgnored => j > TopicStart()
    case PayloadIgnored => j > PayloadStart(p)
    case Taken => false
  }

  /** The decoder after `j` bytes of the packet's body. */
  function Expected(l: Link, e: Entry, dup: bool, m: Mode, j: nat): Link
    requires Sendable(e, dup)
  {
    var p := e.value.body.publish;
    var id := e.value.packetId;
    l.(log := ReadLog(l.log, p, m, j),
       rx := Rx(HeaderOf(e, dup), true, DPublish, j,
                if j == 0 then 0 else if j == 1 then |p.topic| / 256 * 256 else |p.topic|,
                if p.qos == 0 || j <= IdStart(p) then 0 else if j == IdStart(p) + 1 then id / 256 * 256 else id,
                ZERO_VALUE,
                if j <= 2 || m.Missing? || m.TopicIgnored? then [] else p.topic[..Min(j - 2, |p.topic|)],
                if j <= PayloadStart(p) || !m.Taken? then [] else p.payload[..Min(j - PayloadStart(p), |p.payload|)],
                Ignoring(p, m, j), None))
  }

  /** QoS 0 messages carry no id; the decoder reports 0. */
  function DeliveredId(e: Entry): U16
    requires e.value.body.PublishBody?
  {
    if e.value.body.publish.qos == 0 then 0 else e.value.packetId
  }

  lemma HeaderFields(e: Entry, dup: bool)
    requires Sendable(e, dup)
    ensures var h := HeaderOf(e, dup); var p := e.value.body.publish;
            && h.error.None? && h.finished && h.htype == 3 && h.remainingLength == PublishRemaining(p)
            && h.qos == p.qos && h.retain == p.retain && h.dup == dup
  {
    hide RemainingLength;
    var p := e.value.body.publish;
    var first := PublishFirstByte(p, dup);
    var bytes := [first] + RemainingLength(PublishRemaining(p));
    assert bytes[1..] == RemainingLength(PublishRemaining(p));
    FirstByteOfPublish(p, dup);
    RemainingLengthRoundTrip(HeaderStep(ZERO_HEADER, first), PublishRemaining(p));
  }

  lemma FirstByteOfPublish(p: PublishRequest, dup: bool)
    requires ValidQos(p.qos) && (dup ==> p.qos != 0)
    ensures var h := HeaderStep(ZERO_HEADER, PublishFirstByte(p, dup));
            AwaitsLength(h) && h.htype == 3 && h.qos == p.qos && h.retain == p.retain && h.dup == dup
  {
    hide PublishFirstByte;
    PublishFlags(p, dup);
  }

  lemma PublishFlags(p: PublishRequest, dup: bool)
    requires ValidQos(p.qos)
    ensures var b := PublishFirstByte(p, dup) as int;
            && b / 16 == 3 && b % 16 / 8 == (if dup then 1 else 0)
            && b % 16 / 2 == p.qos + (if dup then 4 else 0) && b % 16 % 2 == (if p.retain then 1 else 0)
  {
    var r, d := if p.retain then 1 else 0, if dup then 1 else 0;
    assert PublishFirstByte(p, dup) == 48 + r + 2 * p.qos + 8 * d;
  }

  /** The bytes of the body, by position. */
  lemma BodyByteAt(e: Entry, j: nat)
    requires Sendable(e, false) || Sendable(e, true)
    requires j < PublishRemaining(e.value.body.publish)
    ensures |PublishPacketBody(e.value)| == PublishRemaining(e.value.body.publish)
    ensures var p := e.value.body.publish; var b := PublishPacketBody(e.value)[j];
            && (j == 0 ==> b == |p.topic| / 256) && (j == 1 ==> b == |p.topic| % 256)
            && (2 <= j < IdStart(p) ==> b == p.topic[j - 2])
            && (IdStart(p) <= j < PayloadStart(p) ==> b == U16Bytes(e.value.packetId)[j - IdStart(p)])
            && (PayloadStart(p) <= j ==> b == p.payload[j - PayloadStart(p)])
  {
  }

  // ----- one byte at a time -----

  lemma ReadsNothingYet(log: seq<Event>, p: PublishRequest, m: Mode, j: nat)
    requires j < 2
    ensures ReadLog(log, p, m, j + 1) == ReadLog(log, p, m, j)
  {
  }

  lemma LengthBytes(env: Env, l: Link, e: Entry, dup: bool, m: Mode, j: nat)
    requires Sendable(e, dup) && j < 2
    ensures PublishLengthByte(Expected(l, e, dup, m, j), PublishPacketBody(e.value)[j])
            == (Expected(l, e, dup, m, j).(rx := Expected(l, e, dup, m, j + 1).rx.(remainPos := j)), true)
    ensures Expected(l, e, dup, m, j + 1).log == Expected(l, e, dup, m, j).log
  {
    hide HeaderOf, WellFormed, PublishPacketBody, ReadLog;
    ValidOf(e);
    ReadsNothingYet(l.log, e.value.body.publish, m, j);
    HeaderFields(e, dup);
    BodyByteAt(e, j);
  }

  lemma ValidOf(e: Entry)
    requires WellFormed(e) && IsPublish(e.kind)
    ensures e.value.body.PublishBody? && ValidPublish(e.value.body.publish)
  {
  }

  lemma TopicBytes(env: Env, l: Link, e: Entry, dup: bool, m: Mode, j: nat)
    requires Sendable(e, dup) && 2 <= j < IdStart(e.value.body.publish)
    requires InMode(env, l.log, e.value.body.publish, m, j + 1)
    ensures PublishTopicByte(env, Expected(l, e, dup, m, j), PublishPacketBody(e.value)[j])
            == (Expected(l, e, dup, m, j + 1).(rx := Expected(l, e, dup, m, j + 1).rx.(remainPos := j)), true)
  {
    hide HeaderOf, WellFormed;
    ValidOf(e);
    var p := e.value.body.publish;
    BodyByteAt(e, j);
    assert p.topic[..j - 2] + [p.topic[j - 2]] == p.topic[..j - 1];
    assert l.log + [] + [] == l.log && l.log + [AllocateTopic(|p.topic|)] + [] == l.log + [AllocateTopic(|p.topic|)];
  }

  lemma IdBytes(env: Env, l: Link, e: Entry, dup: bool, m: Mode, j: nat)
    requires Sendable(e, dup) && IdStart(e.value.body.publish) <= j < PayloadStart(e.value.body.publish)
    ensures var a, b := Expected(l, e, dup, m, j), Expected(l, e, dup, m, j + 1);
            a.(rx := a.rx.(packetId := IdByte(a.rx.packetId, j == IdStart(e.value.body.publish),
                                              PublishPacketBody(e.value)[j])))
            == b.(rx := b.rx.(remainPos := j))
  {
    hide HeaderOf, WellFormed;
    ValidOf(e);
    var p := e.value.body.publish;
    BodyByteAt(e, j);
    assert p.topic[..|p.topic|] == p.topic;
  }

  /** The payload is asked for in front of its first byte, and only if the topic was taken. */
  lemma PayloadAsked(env: Env, log: seq<Event>, p: PublishRequest, m: Mode, j: nat)
    requires p.topic != [] && PayloadStart(p) <= j < PublishRemaining(p) && InMode(env, log, p, m, j + 1)
    ensures PublishRemaining(p) == PayloadStart(p) + |p.payload|
    ensures var before, after := ReadLog(log, p, m, j), ReadLog(log, p, m, j + 1);
            if j == PayloadStart(p) && !Ignoring(p, m, j) then
              && after == before + [AllocatePayload(p.topic, |p.payload|)] && env.onAllocatePayload
              && (m.PayloadIgnored? || m.Taken?)
              && env.allocate(after) == (if m.Taken? then AllocateSuccess else AllocateIgnore)
              && Ignoring(p, m, j + 1) == !m.Taken?
            else after == before && Ignoring(p, m, j + 1) == Ignoring(p, m, j) == !m.Taken?
  {
    assert log + [AllocateTopic(|p.topic|)] + [] == log + [AllocateTopic(|p.topic|)];
  }

  lemma PayloadBytes(env: Env, l: Link, e: Entry, dup: bool, m: Mode, j: nat)
    requires Sendable(e, dup) && PayloadStart(e.value.body.publish) <= j < PublishRemaining(e.value.body.publish)
    requires InMode(env, l.log, e.value.body.publish, m, j + 1)
    ensures PublishPayloadByte(env, Expected(l, e, dup, m, j), PublishPacketBody(e.value)[j])
            == (Expected(l, e, dup, m, j + 1).(rx := Expected(l, e, dup, m, j + 1).rx.(remainPos := j)), true)
  {
    hide HeaderOf, WellFormed, PublishPacketBody, PublishRemaining, ReadLog, Ignoring, InMode;
    ValidOf(e);
    HeaderFields(e, dup);
    var p := e.value.body.publish;
    BodyByteAt(e, j);
    PayloadAsked(env, l.log, p, m, j);
    var i := j - PayloadStart(p);
    assert p.payload[..i] + [p.payload[i]] == p.payload[..i + 1] && p.payload[..0] == [];
    assert p.topic[..|p.topic|] == p.topic;
  }

  /** Reading byte `j` of the body, before the end-of-packet check. */
  lemma PartReads(env: Env, l: Link, e: Entry, dup: bool, m: Mode, j: nat)
    requires Sendable(e, dup) && j < PublishRemaining(e.value.body.publish)
    requires InMode(env, l.log, e.value.body.publish, m, j + 1)
    ensures |PublishPacketBody(e.value)| == PublishRemaining(e.value.body.publish)
    ensures var a, b := Expected(l, e, dup, m, j), Expected(l, e, dup, m, j + 1);
            PublishByte(env, a, PublishPacketBody(e.value)[j])
            == (var read := b.(rx := b.rx.(remainPos := j));
                if j + 1 < PublishRemaining(e.value.body.publish) then (read, true)
                else DeliverPublish(env, AcknowledgePublish(read)))
  {
    hide HeaderOf, WellFormed, PublishLengthByte, PublishTopicByte, PublishPayloadByte, DeliverPublish,
         AcknowledgePublish;
    ValidOf(e);
    HeaderFields(e, dup);
    BodyByteAt(e, j);
    var p := e.value.body.publish;
    var a, b := Expected(l, e, dup, m, j), Expected(l, e, dup, m, j + 1);
    if j < 2 {
      LengthBytes(env, l, e, dup, m, j);
      assert a.(rx := b.rx.(remainPos := j)) == b.(rx := b.rx.(remainPos := j));
    } else if j < IdStart(p) {
      TopicBytes(env, l, e, dup, m, j);
    } else if j < PayloadStart(p) {
      IdBytes(env, l, e, dup, m, j);
    } else {
      PayloadBytes(env, l, e, dup, m, j);
    }
  }

  lemma BodyStep(env: Env, l: Link, e: Entry, dup: bool, m: Mode, j: nat)
    requires Sendable(e, dup) && j + 1 < PublishRemaining(e.value.body.publish) && l.store.Valid()
    requires InMode(env, l.log, e.value.body.publish, m, j + 1)
    ensures |PublishPacketBody(e.value)| == PublishRemaining(e.value.body.publish)
    ensures RxStep(env, Expected(l, e, dup, m, j), PublishPacketBody(e.value)[j])
            == RxOut(Expected(l, e, dup, m, j + 1), false)
  {
    hide HeaderOf, WellFormed, PublishByte;
    HeaderFields(e, dup);
    PartReads(env, l, e, dup, m, j);
  }

  // ----- the whole packet -----

  /** A byte that completes nothing. */
  lemma PlainByte(env: Env, c: Client, l: Link, b: byte, m: Link)
    requires c.main.Valid() && c.conn.Valid() && LinkOf(c) == l && RxStep(env, l, b) == RxOut(m, false)
    ensures DecodeByte(env, c, b) == WithLink(c, m) && LinkOf(WithLink(c, m)) == m
  {
    hide RxStep;
  }

  lemma Relink(c: Client, m: Link, n: Link)
    ensures WithLink(WithLink(c, m), n) == WithLink(c, n) && LinkOf(WithLink(c, m)) == m && WithLink(c, m).rx == m.rx
  {
  }

  /** The fixed header up to its last byte leaves everything but the header alone. */
  lemma {:induction false} HeaderBytes(env: Env, c: Client, h: Header, bytes: seq<byte>, e: Entry, dup: bool, m: Mode)
    requires CanDecode(c) && Sendable(e, dup) && bytes != []
    requires c.rx == RESET_RX.(header := h) && h.error.None? && !h.finished
    requires HeaderSteps(h, bytes) == HeaderOf(e, dup)
    ensures DecodeBytes(env, c, bytes) == WithLink(c, Expected(LinkOf(c).(rx := RESET_RX), e, dup, m, 0))
    decreases |bytes|
  {
    hide Inv, IsOpen, WellFormed, HeaderOf;
    HeaderFields(e, dup);
    ByteStaysDecodable(env, c, bytes[0]);
    var next := DecodeByte(env, c, bytes[0]);
    var g := HeaderStep(h, bytes[0]);
    if g.error.Some? {
      ErrorSticks(g, bytes[1..]);
      assert false;
    } else if g.finished {
      HeaderStepCounts(h, bytes[0]);
      if bytes[1..] != [] {
        FinishedRejects(g, bytes[1..]);
        assert false;
      }
      assert g == HeaderOf(e, dup);
      LastHeaderByte(env, c, h, bytes[0], e, dup, m);
    } else {
      PlainByte(env, c, LinkOf(c), bytes[0], LinkOf(c).(rx := RESET_RX.(header := g)));
      HeaderBytes(env, next, g, bytes[1..], e, dup, m);
    }
  }

  lemma HeaderStepCounts(h: Header, b: byte)
    requires HeaderStep(h, b).error.None? && HeaderStep(h, b).finished
    ensures HeaderStep(h, b).bytesRead > 0
  {
  }

  lemma LastHeaderByte(env: Env, c: Client, h: Header, b: byte, e: Entry, dup: bool, m: Mode)
    requires CanDecode(c) && Sendable(e, dup) && c.rx == RESET_RX.(header := h) && h.error.None? && !h.finished
    requires HeaderStep(h, b) == HeaderOf(e, dup)
    ensures DecodeByte(env, c, b) == WithLink(c, Expected(LinkOf(c).(rx := RESET_RX), e, dup, m, 0))
    requires c.main.Valid() && c.conn.Valid()
  {
    hide Inv, IsOpen, WellFormed, HeaderOf;
    ValidOf(e);
    HeaderFields(e, dup);
    var l := LinkOf(c).(rx := RESET_RX);
    assert ReadLog(l.log, e.value.body.publish, m, 0) == l.log;
    assert RxStep(env, LinkOf(c), b) == RxOut(Expected(l, e, dup, m, 0), false);
  }

  lemma StoreIsValid(c: Client)
    requires CanDecode(c)
    ensures LinkOf(c).store.Valid()
  {
    hide WellFormed, RxInv, TxValid;
  }

  lemma PacketParts(e: Entry, dup: bool)
    requires Sendable(e, dup)
    ensures var p := e.value.body.publish;
            Packet(e, dup)
            == [PublishFirstByte(p, dup)] + RemainingLength(PublishRemaining(p)) + PublishPacketBody(e.value)
  {
    hide RemainingLength, PublishPacketBody, PacketBody, FirstByte;
    BodyOfPublish(e, dup);
  }

  lemma BodyOfPublish(e: Entry, dup: bool)
    requires Sendable(e, dup)
    ensures e.value.body.PublishBody? && FirstByte(e, dup) == PublishFirstByte(e.value.body.publish, dup)
    ensures PacketBody(e) == PublishPacketBody(e.value)
            && |PublishPacketBody(e.value)| == PublishRemaining(e.value.body.publish)
  {
    hide PublishFirstByte;
  }

  /** What becomes of a message that was read, and the error that ends the decoding. The acknowledgement is queued
      first, if it fits. A QoS 2 message whose id is held is not delivered again; with no place for its id it is
      an error; otherwise the id is held and the message is delivered, unless it is ignored. */
  function Outcome(env: Env, l: Link, e: Entry, m: Mode): (Link, Option<Error>)
    requires e.value.body.PublishBody?
  {
    var p, id := e.value.body.publish, e.value.packetId;
    var asked := ReadLog(l.log, p, m, PublishRemaining(p));
    var freed := if m.Taken? && env.onDeallocate then [Deallocated] else [];
    var acks := if e.kind.Publish1? then [Entry(Puback, Value(id, 0, NoBody))]
                else if e.kind.Publish2? then [Entry(Pubrec, Value(id, 0, NoBody))] else [];
    var s := if |l.store.entries| < l.store.capacity then l.store.(entries := l.store.entries + acks) else l.store;
    if e.kind.Publish2? && id in l.ids.items then (Link(RESET_RX, s, l.ids, asked + freed), None)
    else if e.kind.Publish2? && |l.ids.items| >= l.ids.capacity then
      (Link(RESET_RX, s, l.ids, asked + freed), Some(PublishIdSetFull))
    else
      var held := if e.kind.Publish2? then l.ids.(items := l.ids.items + [id]) else l.ids;
      if !m.Taken? then (Link(RESET_RX, s, held, asked), None)
      else
        var told := asked + [Delivered(Message(p.topic, p.payload, p.qos, p.retain), DeliveredId(e))];
        (Link(RESET_RX, s, held, told + freed), if env.accept(told) then None else Some(MessageCallbackFailed))
  }

  /** In front of the last byte's effect the whole message is there. */
  lemma ExpectedAtEnd(l: Link, e: Entry, dup: bool, m: Mode)
    requires Sendable(e, dup) && (m.PayloadIgnored? ==> e.value.body.publish.payload != [])
    ensures var p := e.value.body.publish;
            var n := PublishRemaining(p);
            var b := Expected(l, e, dup, m, n);
            && n > 0 && b.log == ReadLog(l.log, p, m, n) && b.store == l.store && b.ids == l.ids
            && b.rx.header == HeaderOf(e, dup) && b.rx.headerFinished && b.rx.decoder.DPublish? && b.rx.remainPos == n
            && b.rx.packetId == (if p.qos == 0 then 0 else e.value.packetId) && b.rx.slot == ZERO_VALUE
            && (m.Taken? ==> b.rx.topic == p.topic && b.rx.payload == p.payload)
            && b.rx.ignorePublish == !m.Taken? && b.rx.error.None?
  {
    hide HeaderOf, WellFormed;
    ValidOf(e);
    var p := e.value.body.publish;
    assert p.topic[..|p.topic|] == p.topic && p.payload[..|p.payload|] == p.payload;
  }

  lemma FinalDelivery(env: Env, l: Link, e: Entry, dup: bool, m: Mode)
    requires Sendable(e, dup) && (m.PayloadIgnored? ==> e.value.body.publish.payload != [])
    requires InMode(env, l.log, e.value.body.publish, m, PublishRemaining(e.value.body.publish))
    ensures var n := PublishRemaining(e.value.body.publish);
            var b := Expected(l, e, dup, m, n);
            var (k, ok) := DeliverPublish(env, AcknowledgePublish(b.(rx := b.rx.(remainPos := n - 1))));
            var (link, error) := Outcome(env, l, e, m);
            && ok == error.None? && k == link.(rx := k.rx) && k.rx.error == error
            && (ok ==> k.rx == b.rx.(remainPos := n - 1))
  {
    hide HeaderOf, WellFormed, Expected, ReadLog, PublishRemaining, InMode, AcknowledgePublish;
    ValidOf(e);
    QosOfKind(e);
    HeaderFields(e, dup);
    ExpectedAtEnd(l, e, dup, m);
    var n := PublishRemaining(e.value.body.publish);
    var b := Expected(l, e, dup, m, n);
    AcknowledgmentQueued(b.(rx := b.rx.(remainPos := n - 1)), e);
    AllPresent(env, l.log, e.value.body.publish, m);
  }

  lemma AcknowledgmentQueued(l: Link, e: Entry)
    requires WellFormed(e) && IsPublish(e.kind) && e.value.body.PublishBody?
    requires l.rx.header.qos == e.value.body.publish.qos
             && l.rx.packetId == if l.rx.header.qos == 0 then 0 else e.value.packetId
    ensures var acks := if e.kind.Publish1? then [Entry(Puback, Value(e.value.packetId, 0, NoBody))]
                        else if e.kind.Publish2? then [Entry(Pubrec, Value(e.value.packetId, 0, NoBody))] else [];
            AcknowledgePublish(l) == l.(store := if |l.store.entries| < l.store.capacity
                                                 then l.store.(entries := l.store.entries + acks) else l.store)
  {
    hide WellFormed;
    QosOfKind(e);
    assert l.store.entries + [] == l.store.entries;
  }

  lemma QosOfKind(e: Entry)
    requires WellFormed(e) && IsPublish(e.kind)
    ensures var q := e.value.body.publish.qos;
            (e.kind.Publish0? <==> q == 0) && (e.kind.Publish1? <==> q == 1) && (e.kind.Publish2? <==> q == 2)
  {
    hide ValidPublish;
  }

  lemma AllPresent(env: Env, log: seq<Event>, p: PublishRequest, m: Mode)
    requires InMode(env, log, p, m, PublishRemaining(p)) && p.topic != []
    ensures !m.Missing? ==> env.onPublish
  {
  }

  lemma LastByte(env: Env, l: Link, e: Entry, dup: bool, m: Mode)
    requires Sendable(e, dup) && l.store.Valid() && l.rx == RESET_RX
    requires m.PayloadIgnored? ==> e.value.body.publish.payload != []
    requires InMode(env, l.log, e.value.body.publish, m, PublishRemaining(e.value.body.publish))
    ensures var n := PublishRemaining(e.value.body.publish);
            && |PublishPacketBody(e.value)| == n && n > 0
            && var out := RxStep(env, Expected(l, e, dup, m, n - 1), PublishPacketBody(e.value)[n - 1]);
               var (link, error) := Outcome(env, l, e, m);
               && out.link == link.(rx := out.link.rx) && out.link.rx.error == error
               && (error.None? ==> out.call && out.link.rx.slot == ZERO_VALUE) && (error.Some? ==> !out.call)
  {
    hide Expected, HeaderOf, WellFormed, PublishByte, DeliverPublish, AcknowledgePublish, Outcome, ReadLog,
         PublishPacketBody,
         InMode;
    ValidOf(e);
    HeaderFields(e, dup);
    var n := PublishRemaining(e.value.body.publish);
    ExpectedAtEnd(l, e, dup, m);
    ExpectedIsFine(l, e, dup, m, n - 1);
    ExpectedFrame(l, e, dup, m, n - 1);
    PartReads(env, l, e, dup, m, n - 1);
    FinalDelivery(env, l, e, dup, m);
  }

  /** The body up to its last byte. */
  lemma {:induction false} BodyRun(env: Env, l: Link, e: Entry, dup: bool, m: Mode, j: nat)
    requires Sendable(e, dup) && l.store.Valid() && l.rx == RESET_RX && 0 < j < PublishRemaining(e.value.body.publish)
    requires InMode(env, l.log, e.value.body.publish, m, j)
    ensures j <= |PublishPacketBody(e.value)|
    ensures RxMany(env, Expected(l, e, dup, m, 0), PublishPacketBody(e.value)[..j])
            == RxOut(Expected(l, e, dup, m, j), false)
    decreases j
  {
    hide RxStep, Expected, PublishPacketBody, WellFormed;
    ValidOf(e);
    BodyByteAt(e, j - 1);
    var body := PublishPacketBody(e.value);
    EarlierMode(env, l.log, e.value.body.publish, m, j - 1, j);
    BodyStep(env, l, e, dup, m, j - 1);
    ExpectedIsFine(l, e, dup, m, 0);
    if j == 1 {
      assert body[..1] == [body[0]] && [body[0]][1..] == [];
    } else {
      BodyRun(env, l, e, dup, m, j - 1);
      ExpectedIsFine(l, e, dup, m, j - 1);
      RxManyAppend(env, Expected(l, e, dup, m, 0), body[..j - 1], body[j - 1]);
      assert body[..j - 1] + [body[j - 1]] == body[..j];
    }
  }

  lemma EarlierMode(env: Env, log: seq<Event>, p: PublishRequest, m: Mode, i: nat, j: nat)
    requires i <= j && InMode(env, log, p, m, j)
    ensures InMode(env, log, p, m, i)
  {
  }

  lemma ExpectedFrame(l: Link, e: Entry, dup: bool, m: Mode, j: nat)
    requires Sendable(e, dup)
    ensures var rx := Expected(l, e, dup, m, j).rx;
            rx.header == HeaderOf(e, dup) && rx.headerFinished && rx.decoder.DPublish? && rx.remainPos == j
            && rx.slot == ZERO_VALUE
  {
  }

  lemma ExpectedIsFine(l: Link, e: Entry, dup: bool, m: Mode, j: nat)
    requires Sendable(e, dup)
    ensures Expected(l, e, dup, m, j).rx.error.None? && Expected(l, e, dup, m, j).store == l.store
  {
  }

  /** The fixed header brings the decoder in front of the body. */
  lemma HeaderArrives(env: Env, c: Client, e: Entry, dup: bool, m: Mode) returns (header: seq<byte>)
    requires CanDecode(c) && c.rx == RESET_RX && Sendable(e, dup)
    ensures e.value.body.PublishBody? && Packet(e, dup) == header + PublishPacketBody(e.value)
    ensures var d := DecodeBytes(env, c, header);
            && d == WithLink(c, Expected(LinkOf(c), e, dup, m, 0)) && LinkOf(d) == Expected(LinkOf(c), e, dup, m, 0)
            && CanDecode(d)
  {
    hide Inv, IsOpen, WellFormed, Expected, PublishPacketBody, RemainingLength, DecodeByte;
    ValidOf(e);
    var p := e.value.body.publish;
    header := [PublishFirstByte(p, dup)] + RemainingLength(PublishRemaining(p));
    PacketParts(e, dup);
    var l := LinkOf(c);
    assert l == l.(rx := RESET_RX);
    HeaderBytes(env, c, ZERO_HEADER, header, e, dup, m);
    ExpectedIsFine(l, e, dup, m, 0);
    Relink(c, Expected(l, e, dup, m, 0), Expected(l, e, dup, m, 0));
  }

  /** The callback of a packet without a request resets the decoder. */
  lemma SilentEnd(env: Env, c: Client, out: RxOut)
    requires c.main.Valid() && c.conn.Valid() && out.link.store.Valid() && out.call && out.link.rx.slot == ZERO_VALUE
    ensures AfterRound(env, c, out) == WithLink(c, out.link.(rx := RESET_RX))
  {
  }

  /** Every message that comes in between two packets, whatever the application answers, but for an error: what
      becomes of it is its outcome, and the decoder is at rest again unless that is an error. */
  lemma PublishOutcome(env: Env, c: Client, e: Entry, dup: bool, m: Mode)
    requires CanDecode(c) && c.rx == RESET_RX && Sendable(e, dup)
    requires m.PayloadIgnored? ==> e.value.body.PublishBody? && e.value.body.publish.payload != []
    requires e.value.body.PublishBody?
             && InMode(env, c.log, e.value.body.publish, m, PublishRemaining(e.value.body.publish))
    ensures var d := DecodeBytes(env, c, Packet(e, dup));
            var (link, error) := Outcome(env, LinkOf(c), e, m);
            d == WithLink(c, link.(rx := d.rx)) && d.rx.error == error && (error.None? ==> d.rx == RESET_RX)
  {
    hide Inv, IsOpen, WellFormed, Expected, PublishPacketBody, RxStep, RxMany, DecodeByte, Outcome, InMode, Packet,
         DecodeBytes, AfterRound, CanDecode;
    ValidOf(e);
    StoreIsValid(c);
    var p, l, body := e.value.body.publish, LinkOf(c), PublishPacketBody(e.value);
    var n := PublishRemaining(p);
    var header := HeaderArrives(env, c, e, dup, m);
    DecodeTwice(env, c, header, body);
    var d := DecodeBytes(env, c, header);
    ExpectedIsFine(l, e, dup, m, 0);
    ExpectedIsFine(l, e, dup, m, n - 1);
    Relink(c, Expected(l, e, dup, m, 0), l);
    EarlierMode(env, l.log, p, m, n - 1, n);
    BodyRun(env, l, e, dup, m, n - 1);
    LastByte(env, l, e, dup, m);
    LastDecides(env, d, body, Expected(l, e, dup, m, n - 1));
    var out := RxStep(env, Expected(l, e, dup, m, n - 1), body[n - 1]);
    if out.call { SilentEnd(env, d, out); } else { NoCallEnd(env, d, out); }
    Relink(c, Expected(l, e, dup, m, 0), out.link.(rx := RESET_RX));
    Relink(c, Expected(l, e, dup, m, 0), out.link);
  }

  lemma NoCallEnd(env: Env, c: Client, out: RxOut)
    requires c.main.Valid() && c.conn.Valid() && out.link.store.Valid() && !out.call
    ensures AfterRound(env, c, out) == WithLink(c, out.link)
  {
  }

  /** The application refuses the topic: the decoder fails, the buffers are given back, nothing else happens. */
  lemma TopicRefused(env: Env, c: Client, e: Entry, dup: bool)
    requires CanDecode(c) && c.rx == RESET_RX && Sendable(e, dup) && e.value.body.PublishBody?
    requires env.onPublish && env.onAllocateTopic && env.onAllocatePayload
    requires env.allocate(c.log + [AllocateTopic(|e.value.body.publish.topic|)]).AllocateError?
    ensures var d := DecodeBytes(env, c, Packet(e, dup));
            && d == c.(rx := d.rx, log := c.log + [AllocateTopic(|e.value.body.publish.topic|)]
                                          + if env.onDeallocate then [Deallocated] else [])
            && d.rx.error == Some(TopicAllocateFailed)
  {
    hide Inv, IsOpen, WellFormed, Expected, PublishPacketBody, RxStep, RxMany, DecodeByte, Packet, DecodeBytes,
         CanDecode;
    ValidOf(e);
    StoreIsValid(c);
    var p, l, body := e.value.body.publish, LinkOf(c), PublishPacketBody(e.value);
    BodyByteAt(e, 2);
    var header := HeaderArrives(env, c, e, dup, Taken);
    var d := DecodeBytes(env, c, header);
    BodyRun(env, l, e, dup, Taken, 2);
    ExpectedIsFine(l, e, dup, Taken, 0);
    ExpectedIsFine(l, e, dup, Taken, 2);
    RxManyAppend(env, Expected(l, e, dup, Taken, 0), body[..2], body[2]);
    assert body[..2] + [body[2]] == body[..3];
    TopicFails(env, l, e, dup);
    QuietBytes(env, d, body[..3]);
    DecodeTwice(env, d, body[..3], body[3..]);
    DecodeTwice(env, c, header, body);
    assert body[..3] + body[3..] == body;
    Relink(c, Expected(l, e, dup, Taken, 0), RxStep(env, Expected(l, e, dup, Taken, 2), body[2]).link);
    LinkBack(c);
  }

  lemma LinkBack(c: Client)
    ensures forall k: Link :: k.store == LinkOf(c).store && k.ids == c.ids ==>
              WithLink(c, k) == c.(rx := k.rx, log := k.log)
  {
  }

  lemma TopicFails(env: Env, l: Link, e: Entry, dup: bool)
    requires Sendable(e, dup) && e.value.body.PublishBody? && l.store.Valid()
    requires env.onPublish && env.onAllocateTopic && env.onAllocatePayload
    requires env.allocate(l.log + [AllocateTopic(|e.value.body.publish.topic|)]).AllocateError?
    ensures forall b: byte ::
              var out := RxStep(env, Expected(l, e, dup, Taken, 2), b);
              && !out.call && out.link.rx.error == Some(TopicAllocateFailed) && out.link.store == l.store
              && out.link.ids == l.ids
              && out.link.log == l.log + [AllocateTopic(|e.value.body.publish.topic|)]
                                 + if env.onDeallocate then [Deallocated] else []
  {
    hide HeaderOf, WellFormed, StoreState.PopMarked;
    ValidOf(e);
    HeaderFields(e, dup);
    assert l.log + [] + [] == l.log;
  }

  /** The application refuses the payload, after it took the topic. */
  lemma PayloadRefused(env: Env, c: Client, e: Entry, dup: bool)
    requires CanDecode(c) && c.rx == RESET_RX && Sendable(e, dup) && e.value.body.PublishBody?
    requires env.onPublish && env.onAllocateTopic && env.onAllocatePayload && e.value.body.publish.payload != []
    requires var p := e.value.body.publish;
             && env.allocate(c.log + [AllocateTopic(|p.topic|)]).AllocateSuccess?
             && env.allocate(c.log + [AllocateTopic(|p.topic|)] + [AllocatePayload(p.topic,
                |p.payload|)]).AllocateError?
    ensures var p := e.value.body.publish;
            var d := DecodeBytes(env, c, Packet(e, dup));
            && d == c.(rx := d.rx, log := c.log + [AllocateTopic(|p.topic|)] + [AllocatePayload(p.topic, |p.payload|)]
                                          + if env.onDeallocate then [Deallocated] else [])
            && d.rx.error == Some(PayloadAllocateFailed)
  {
    hide Inv, IsOpen, WellFormed, Expected, PublishPacketBody, RxStep, RxMany, DecodeByte, Packet, DecodeBytes,
         CanDecode;
    ValidOf(e);
    StoreIsValid(c);
    var p, l, body := e.value.body.publish, LinkOf(c), PublishPacketBody(e.value);
    var j := PayloadStart(p);
    BodyByteAt(e, j);
    var header := HeaderArrives(env, c, e, dup, Taken);
    var d := DecodeBytes(env, c, header);
    BodyRun(env, l, e, dup, Taken, j);
    ExpectedIsFine(l, e, dup, Taken, 0);
    ExpectedIsFine(l, e, dup, Taken, j);
    RxManyAppend(env, Expected(l, e, dup, Taken, 0), body[..j], body[j]);
    assert body[..j] + [body[j]] == body[..j + 1];
    PayloadFails(env, l, e, dup, body[j]);
    QuietBytes(env, d, body[..j + 1]);
    DecodeTwice(env, d, body[..j + 1], body[j + 1..]);
    DecodeTwice(env, c, header, body);
    assert body[..j + 1] + body[j + 1..] == body;
    Relink(c, Expected(l, e, dup, Taken, 0), RxStep(env, Expected(l, e, dup, Taken, j), body[j]).link);
    LinkBack(c);
  }

  lemma PayloadFails(env: Env, l: Link, e: Entry, dup: bool, b: byte)
    requires Sendable(e, dup) && e.value.body.PublishBody? && l.store.Valid() && e.value.body.publish.payload != []
    requires env.onPublish && env.onAllocateTopic && env.onAllocatePayload
    requires var p := e.value.body.publish;
             env.allocate(l.log + [AllocateTopic(|p.topic|)] + [AllocatePayload(p.topic, |p.payload|)]).AllocateError?
    ensures var p := e.value.body.publish;
            var out := RxStep(env, Expected(l, e, dup, Taken, PayloadStart(p)), b);
            && !out.call && out.link.rx.error == Some(PayloadAllocateFailed) && out.link.store == l.store
            && out.link.ids == l.ids
            && out.link.log == l.log + [AllocateTopic(|p.topic|)] + [AllocatePayload(p.topic, |p.payload|)]
                               + if env.onDeallocate then [Deallocated] else []
  {
    hide HeaderOf, WellFormed, StoreState.PopMarked, PublishLengthByte, PublishTopicByte, DeliverPublish,
         AcknowledgePublish;
    ValidOf(e);
    HeaderFields(e, dup);
    var p := e.value.body.publish;
    assert p.topic[..|p.topic|] == p.topic;
    assert l.log + [AllocateTopic(|p.topic|)] + [] == l.log + [AllocateTopic(|p.topic|)];
  }
}
