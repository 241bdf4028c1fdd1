/** A server that knows nothing but MQTT 3.1.1 reads the client's packets: it gets back exactly what was asked
    for. The reader below takes types, flags and layout from the standard, and nothing from the encoder. */
module ServerReading {
  import opened Types
  import opened FixedHeader
  import opened Wire
  import opened Transmit
  import opened TransmitRuns

  datatype Will = Will(topic: seq<byte>, message: seq<byte>)

  /** A control packet from a client (sections 3.1, 3.3 to 3.7, 3.8, 3.10, 3.12 and 3.14). */
  datatype ControlPacket =
    | ConnectPacket(protocol: seq<byte>, level: nat, cleanSession: bool, willQos: nat, willRetain: bool, keepAlive: nat,
                    clientId: seq<byte>, will: Option<Will>, userName: Option<seq<byte>>, password: Option<seq<byte>>)
    | PublishPacket(dup: bool, qos: nat, retain: bool, topic: seq<byte>, packetId: Option<nat>, payload: seq<byte>)
    | PubackPacket(id: nat) | PubrecPacket(id: nat) | PubrelPacket(id: nat) | PubcompPacket(id: nat)
    | SubscribePacket(id: nat, filters: seq<(seq<byte>, nat)>)
    | UnsubscribePacket(id: nat, topics: seq<seq<byte>>)
    | PingreqPacket
    | DisconnectPacket

  // ----- reading -----

  function Number(bytes: seq<byte>): nat
    requires |bytes| >= 2
  {
    (bytes[0] as int) * 256 + bytes[1]
  }

  /** A length-prefixed string and what follows it (section 1.5.3). */
  function ReadString(bytes: seq<byte>): Option<(seq<byte>, seq<byte>)>
  {
    if |bytes| < 2 || |bytes| < 2 + Number(bytes) then None
    else Some((bytes[2..2 + Number(bytes)], bytes[2 + Number(bytes)..]))
  }

  /** A string that a flag announces. */
  function ReadIf(present: bool, bytes: seq<byte>): Option<(Option<seq<byte>>, seq<byte>)>
  {
    if !present then Some((None, bytes))
    else
      match ReadString(bytes)
      case Some((s, rest)) => Some((Some(s), rest))
      case None => None
  }

  /** The Remaining Length (section 2.2.3) and what follows it; at most `left` more bytes. */
  function ReadLength(bytes: seq<byte>, left: nat): Option<(nat, seq<byte>)>
    decreases left
  {
    if bytes == [] || left == 0 then None
    else if bytes[0] < 128 then Some((bytes[0] as int, bytes[1..]))
    else
      match ReadLength(bytes[1..], left - 1)
      case Some((high, rest)) => Some((bytes[0] - 128 + 128 * high, rest))
      case None => None
  }

  function ReadConnect(body: seq<byte>): Option<ControlPacket>
  {
    match ReadString(body)
    case None => None
    case Some((protocol, fixed)) =>
      if |fixed| < 4 then None
      else
        var flags := fixed[1];
        match ReadString(fixed[4..])
        case None => None
        case Some((clientId, a)) =>
          match ReadIf(flags / 4 % 2 == 1, a)
          case None => None
          case Some((topic, b)) =>
            match ReadIf(flags / 4 % 2 == 1, b)
            case None => None
            case Some((message, c)) =>
              match ReadIf(flags / 128 == 1, c)
              case None => None
              case Some((userName, d)) =>
                match ReadIf(flags / 64 % 2 == 1, d)
                case None => None
                case Some((password, end)) =>
                  if end != [] || flags % 2 == 1 then None
                  else Some(ConnectPacket(protocol, fixed[0], flags / 2 % 2 == 1, flags / 8 % 4, flags / 32 % 2 == 1,
                                          Number(fixed[2..]), clientId,
                                          if topic.Some? && message.Some? then Some(Will(topic.value, message.value))
                                          else None,
                                          userName, password))
  }

  function ReadPublish(flags: nat, body: seq<byte>): Option<ControlPacket>
  {
    var dup, qos, retain := flags / 8 == 1, flags / 2 % 4, flags % 2 == 1;
    match ReadString(body)
    case None => None
    case Some((topic, rest)) =>
      if qos == 0 then Some(PublishPacket(dup, 0, retain, topic, None, rest))
      else if qos == 3 || |rest| < 2 then None
      else Some(PublishPacket(dup, qos, retain, topic, Some(Number(rest)), rest[2..]))
  }

  function ReadFilters(bytes: seq<byte>): Option<seq<(seq<byte>, nat)>>
    decreases |bytes|
  {
    if bytes == [] then Some([])
    else
      match ReadString(bytes)
      case None => None
      case Some((topic, rest)) =>
        if rest == [] || rest[0] > 2 then None
        else
          match ReadFilters(rest[1..])
          case None => None
          case Some(more) => Some([(topic, rest[0] as nat)] + more)
  }

  function ReadTopics(bytes: seq<byte>): Option<seq<seq<byte>>>
    decreases |bytes|
  {
    if bytes == [] then Some([])
    else
      match ReadString(bytes)
      case None => None
      case Some((topic, rest)) =>
        match ReadTopics(rest)
        case None => None
        case Some(more) => Some([topic] + more)
  }

  function ReadSubscribe(body: seq<byte>): Option<ControlPacket>
  {
    if |body| < 2 then None
    else
      match ReadFilters(body[2..])
      case None => None
      case Some(filters) => if filters == [] then None else Some(SubscribePacket(Number(body), filters))
  }

  function ReadUnsubscribe(body: seq<byte>): Option<ControlPacket>
  {
    if |body| < 2 then None
    else
      match ReadTopics(body[2..])
      case None => None
      case Some(topics) => if topics == [] then None else Some(UnsubscribePacket(Number(body), topics))
  }

  /** Types and reserved flags of sections 2.2.1 and 2.2.2. */
  function ReadBody(first: byte, body: seq<byte>): Option<ControlPacket>
  {
    var flags := first % 16;
    match first / 16
    case 1 => if flags == 0 then ReadConnect(body) else None
    case 3 => ReadPublish(flags, body)
    case 4 => if flags == 0 && |body| == 2 then Some(PubackPacket(Number(body))) else None
    case 5 => if flags == 0 && |body| == 2 then Some(PubrecPacket(Number(body))) else None
    case 6 => if flags == 2 && |body| == 2 then Some(PubrelPacket(Number(body))) else None
    case 7 => if flags == 0 && |body| == 2 then Some(PubcompPacket(Number(body))) else None
    case 8 => if flags == 2 then ReadSubscribe(body) else None
    case 10 => if flags == 2 then ReadUnsubscribe(body) else None
    case 12 => if flags == 0 && body == [] then Some(PingreqPacket) else None
    case 14 => if flags == 0 && body == [] then Some(DisconnectPacket) else None
    case _ => None
  }

  /** One packet and what follows it. */
  function ReadPacket(bytes: seq<byte>): Option<(ControlPacket, seq<byte>)>
  {
    if bytes == [] then None
    else
      match ReadLength(bytes[1..], 4)
      case None => None
      case Some((n, rest)) =>
        if |rest| < n then None
        else
          match ReadBody(bytes[0], rest[..n])
          case None => None
          case Some(p) => Some((p, rest[n..]))
  }

  // ----- what was asked for -----

  function Present(s: seq<byte>): Option<seq<byte>> { if s == [] then None else Some(s) }

  function Filters(subs: seq<Subscription>): (r: seq<(seq<byte>, nat)>)
    requires forall i :: 0 <= i < |subs| ==> subs[i].requestedQos >= 0
  {
    if subs == [] then [] else [(subs[0].topic, subs[0].requestedQos)] + Filters(subs[1..])
  }

  function TopicsOf(subs: seq<Subscription>): seq<seq<byte>>
  {
    if subs == [] then [] else [subs[0].topic] + TopicsOf(subs[1..])
  }

  /** The packet that a queued entry stands for. */
  function Asked(e: Entry, dup: bool): ControlPacket
    requires WellFormed(e)
  {
    var id := e.value.packetId;
    match e.kind
    case Connect =>
      var q := e.value.body.connect;
      ConnectPacket([77, 81, 84, 84], 4, q.cleanSession, q.willQos, q.willRetain, q.keepAlive, q.clientId,
                    if q.willTopic == [] then None else Some(Will(q.willTopic, q.willMessage)),
                    Present(q.userName), Present(q.password))
    case Publish0 =>
      var p := e.value.body.publish;
      PublishPacket(dup, 0, p.retain, p.topic, None, p.payload)
    case Publish1 =>
      var p := e.value.body.publish;
      PublishPacket(dup, 1, p.retain, p.topic, Some(id), p.payload)
    case Publish2 =>
      var p := e.value.body.publish;
      PublishPacket(dup, 2, p.retain, p.topic, Some(id), p.payload)
    case Puback => PubackPacket(id)
    case Pubrec => PubrecPacket(id)
    case Pubrel => PubrelPacket(id)
    case Pubcomp => PubcompPacket(id)
    case Subscribe => SubscribePacket(id, Filters(e.value.body.subscriptions))
    case Unsubscribe => UnsubscribePacket(id, TopicsOf(e.value.body.subscriptions))
    case Pingreq => PingreqPacket
    case Disconnect => DisconnectPacket
  }

  // ----- strings and lengths -----

  lemma StringReads(s: seq<byte>, rest: seq<byte>)
    requires |s| <= 0xffff
    ensures ReadString(LengthPrefixed(s) + rest) == Some((s, rest))
  {
    var bytes := LengthPrefixed(s) + rest;
    assert bytes[0] == |s| / 256 && bytes[1] == |s| % 256;
    assert bytes[2..2 + |s|] == s && bytes[2 + |s|..] == rest;
  }

  lemma OptionalReads(s: seq<byte>, rest: seq<byte>)
    requires |s| <= 0xffff
    ensures ReadIf(s != [], OptionalString(s) + rest) == Some((Present(s), rest))
  {
    hide ReadString;
    if s == [] { assert OptionalString(s) + rest == rest; } else { StringReads(s, rest); }
  }

  lemma NumberReads(n: U16, rest: seq<byte>)
    ensures Number(U16Bytes(n) + rest) == n && (U16Bytes(n) + rest)[2..] == rest && U16Bytes(n) + [] == U16Bytes(n)
  {
  }

  lemma {:induction false} LengthReads(n: nat, left: nat, rest: seq<byte>)
    requires |RemainingLength(n)| <= left
    ensures ReadLength(RemainingLength(n) + rest, left) == Some((n, rest))
    decreases n
  {
    var bytes := RemainingLength(n) + rest;
    if n < 128 {
      assert bytes[1..] == rest;
    } else {
      assert bytes[1..] == RemainingLength(n / 128) + rest;
      LengthReads(n / 128, left - 1, rest);
    }
  }

  lemma {:induction false} FiltersRead(subs: seq<Subscription>)
    requires forall i :: 0 <= i < |subs| ==> FieldLengthOk(subs[i].topic) && 0 <= subs[i].requestedQos <= 2
    ensures ReadFilters(Topics(subs, true)) == Some(Filters(subs))
  {
    hide ReadString, LengthPrefixed;
    if subs != [] {
      var rest := [subs[0].requestedQos % 256] + Topics(subs[1..], true);
      assert Topics(subs, true) == LengthPrefixed(subs[0].topic) + rest;
      StringReads(subs[0].topic, rest);
      PrefixIsSomething(subs[0].topic, rest);
      FiltersRead(subs[1..]);
      assert rest[1..] == Topics(subs[1..], true);
    }
  }

  lemma PrefixIsSomething(s: seq<byte>, rest: seq<byte>)
    ensures |LengthPrefixed(s) + rest| == 2 + |s| + |rest|
  {
  }

  lemma {:induction false} TopicsRead(subs: seq<Subscription>)
    requires forall i :: 0 <= i < |subs| ==> FieldLengthOk(subs[i].topic)
    ensures ReadTopics(Topics(subs, false)) == Some(TopicsOf(subs))
  {
    hide ReadString, LengthPrefixed;
    if subs != [] {
      var rest := Topics(subs[1..], false);
      assert Topics(subs, false) == LengthPrefixed(subs[0].topic) + rest;
      StringReads(subs[0].topic, rest);
      PrefixIsSomething(subs[0].topic, rest);
      TopicsRead(subs[1..]);
    }
  }

  // ----- the bodies -----

  lemma ConnectReads(q: ConnectRequest)
    requires ValidConnect(q)
    ensures ReadConnect(ConnectVariableHeader(q) + LengthPrefixed(q.clientId) + OptionalString(q.willTopic)
                        + OptionalString(q.willMessage) + OptionalString(q.userName) + OptionalString(q.password))
            == Some(ConnectPacket([77, 81, 84, 84], 4, q.cleanSession, q.willQos, q.willRetain, q.keepAlive, q.clientId,
                                  if q.willTopic == [] then None else Some(Will(q.willTopic, q.willMessage)),
                                  Present(q.userName), Present(q.password)))
  {
    hide ReadString, ReadIf, LengthPrefixed, OptionalString, ConnectFlags, U16Bytes, Number;
    var e := OptionalString(q.password) + [];
    var d := OptionalString(q.userName) + e;
    var c := OptionalString(q.willMessage) + d;
    var b := OptionalString(q.willTopic) + c;
    var a := LengthPrefixed(q.clientId) + b;
    HeaderReads(q, a);
    StringReads(q.clientId, b);
    OptionalReads(q.willTopic, c);
    OptionalReads(q.willMessage, d);
    OptionalReads(q.userName, e);
    OptionalReads(q.password, []);
    FlagsRead(q);
    assert ConnectVariableHeader(q) + LengthPrefixed(q.clientId) + OptionalString(q.willTopic)
           + OptionalString(q.willMessage) + OptionalString(q.userName) + OptionalString(q.password)
        == ConnectVariableHeader(q) + a;
  }

  lemma HeaderReads(q: ConnectRequest, rest: seq<byte>)
    ensures var fixed := [4, ConnectFlags(q)] + U16Bytes(q.keepAlive) + rest;
            && ReadString(ConnectVariableHeader(q) + rest) == Some(([77, 81, 84, 84], fixed))
            && fixed[4..] == rest && Number(fixed[2..]) == q.keepAlive
  {
    hide ConnectFlags;
    var bytes := ConnectVariableHeader(q) + rest;
    var fixed := [4, ConnectFlags(q)] + U16Bytes(q.keepAlive) + rest;
    assert bytes[2..6] == [77, 81, 84, 84] && bytes[6..] == fixed;
    assert fixed[2..] == U16Bytes(q.keepAlive) + rest;
  }

  lemma FlagsRead(q: ConnectRequest)
    requires ValidConnect(q)
    ensures var f := ConnectFlags(q);
            && (f / 4 % 2 == 1 <==> q.willTopic != []) && (f / 4 % 2 == 1 <==> q.willMessage != [])
            && (f / 128 == 1 <==> q.userName != []) && (f / 64 % 2 == 1 <==> q.password != [])
            && (f / 2 % 2 == 1 <==> q.cleanSession) && (f / 32 % 2 == 1 <==> q.willRetain)
            && f / 8 % 4 == q.willQos && f % 2 == 0
  {
    hide ConnectFlags, OptionalString;
    FlagsOf(q);
  }

  lemma PublishReads(v: Value, dup: bool)
    requires v.body.PublishBody? && ValidPublish(v.body.publish)
    ensures var p := v.body.publish;
            ReadPublish((if p.retain then 1 else 0) + 2 * p.qos + (if dup then 8 else 0), PublishPacketBody(v))
            == Some(PublishPacket(dup, p.qos, p.retain, p.topic, if p.qos == 0 then None else Some(v.packetId as nat),
                                  p.payload))
  {
    hide ReadString, LengthPrefixed, U16Bytes, Number;
    var p := v.body.publish;
    var rest := (if p.qos == 0 then [] else U16Bytes(v.packetId)) + p.payload;
    StringReads(p.topic, rest);
    assert PublishPacketBody(v) == LengthPrefixed(p.topic) + rest;
    NumberReads(v.packetId, p.payload);
    LowFlags(p, dup);
    if p.qos == 0 { assert rest == p.payload; } else { assert |U16Bytes(v.packetId)| == 2; }
  }

  lemma LowFlags(p: PublishRequest, dup: bool)
    requires ValidQos(p.qos)
    ensures var f := (if p.retain then 1 else 0) + 2 * p.qos + (if dup then 8 else 0);
            && 0 <= f < 16 && (f / 8 == 1 <==> dup) && f / 2 % 4 == p.qos && (f % 2 == 1 <==> p.retain)
            && PublishFirstByte(p, dup) == 48 + f
  {
  }

  lemma SubscriptionReads(e: Entry)
    requires WellFormed(e) && (e.kind.Subscribe? || e.kind.Unsubscribe?)
    ensures if e.kind.Subscribe? then ReadSubscribe(PacketBody(e)) == Some(Asked(e, false))
            else ReadUnsubscribe(PacketBody(e)) == Some(Asked(e, false))
  {
    hide U16Bytes, Number, Topics, ReadFilters, ReadTopics;
    var subs := e.value.body.subscriptions;
    NumberReads(e.value.packetId, Topics(subs, e.kind.Subscribe?));
    assert |U16Bytes(e.value.packetId)| == 2;
    if e.kind.Subscribe? { FiltersRead(subs); } else { TopicsRead(subs); }
  }

  /** The body of every kind, under its own first byte. */
  lemma BodyReads(e: Entry, dup: bool)
    requires WellFormed(e)
    ensures ReadBody(FirstByte(e, dup), PacketBody(e)) == Some(Asked(e, dup))
  {
    if e.kind.Connect? {
      ConnectReads(e.value.body.connect);
    } else if IsPublish(e.kind) {
      PublishBodyReads(e, dup);
    } else if e.kind.Subscribe? || e.kind.Unsubscribe? {
      SubscriptionBodyReads(e, dup);
    } else {
      ShortBodyReads(e, dup);
    }
  }

  lemma PublishBodyReads(e: Entry, dup: bool)
    requires WellFormed(e) && IsPublish(e.kind)
    ensures ReadBody(FirstByte(e, dup), PacketBody(e)) == Some(Asked(e, dup))
  {
    hide PublishPacketBody, ReadPublish, PublishFirstByte;
    var p := e.value.body.publish;
    PublishReads(e.value, dup);
    LowFlags(p, dup);
  }

  lemma SubscriptionBodyReads(e: Entry, dup: bool)
    requires WellFormed(e) && (e.kind.Subscribe? || e.kind.Unsubscribe?)
    ensures ReadBody(FirstByte(e, dup), PacketBody(e)) == Some(Asked(e, dup))
  {
    hide PacketBody, ReadSubscribe, ReadUnsubscribe;
    SubscriptionReads(e);
  }

  lemma ShortBodyReads(e: Entry, dup: bool)
    requires WellFormed(e) && !e.kind.Connect? && !IsPublish(e.kind) && !e.kind.Subscribe? && !e.kind.Unsubscribe?
    ensures ReadBody(FirstByte(e, dup), PacketBody(e)) == Some(Asked(e, dup))
  {
    NumberReads(e.value.packetId, []);
  }

  // ----- packets and streams -----

  /** Every packet the client encodes is read by the server as exactly what was asked for, and the reader
      stops where the packet ends. */
  lemma PacketIsUnderstood(e: Entry, dup: bool, rest: seq<byte>)
    requires WellFormed(e) && Encodable(e)
    ensures ReadPacket(Packet(e, dup) + rest) == Some((Asked(e, dup), rest))
  {
    hide FirstByte, PacketBody, RemainingLength, ReadBody, ReadLength, Asked, Declared;
    var body := PacketBody(e);
    DeclaredIsBodyLength(e);
    var bytes := Packet(e, dup) + rest;
    assert bytes[1..] == RemainingLength(|body|) + (body + rest);
    LengthReads(|body|, 4, body + rest);
    assert (body + rest)[..|body|] == body && (body + rest)[|body|..] == rest;
    BodyReads(e, dup);
  }

  /** The DUP flag and the type, QoS and retain flag of a PUBLISH, as the client's own header decoder and any
      other reader of the first byte see them. */
  lemma FirstByteMeans(e: Entry, dup: bool)
    requires WellFormed(e)
    ensures var b := Packet(e, dup)[0] as int;
            && b / 16 == ControlType(e.kind)
            && (if e.kind.Publish0? || e.kind.Publish1? || e.kind.Publish2? then
                  var qos := if e.kind.Publish0? then 0 else if e.kind.Publish1? then 1 else 2;
                  && (b / 8 % 2 == 1 <==> dup) && b / 2 % 4 == qos
                  && (b % 2 == 1 <==> e.value.body.publish.retain)
                else b % 16 == if e.kind.Pubrel? || e.kind.Subscribe? || e.kind.Unsubscribe? then 2 else 0)
  {
    hide RemainingLength, PacketBody;
    if IsPublish(e.kind) { LowFlags(e.value.body.publish, dup); }
  }

  /** The control packet types of section 2.2.1. */
  function ControlType(k: Kind): nat
  {
    match k
    case Connect => 1
    case Publish0 => 3
    case Publish1 => 3
    case Publish2 => 3
    case Puback => 4
    case Pubrec => 5
    case Pubrel => 6
    case Pubcomp => 7
    case Subscribe => 8
    case Unsubscribe => 10
    case Pingreq => 12
    case Disconnect => 14
  }

  /** The client's own header decoder reads the fixed header of every packet: type and length are those of the
      packet. Only DUP on a QoS 0 message is an error. */
  lemma HeaderIsUnderstood(e: Entry, dup: bool)
    requires WellFormed(e) && Encodable(e)
    ensures var n := 1 + |RemainingLength(|PacketBody(e)|)|;
            n <= |Packet(e, dup)| &&
            var h := HeaderSteps(ZERO_HEADER, Packet(e, dup)[..n]);
            if e.kind.Publish0? && dup then h.error == Some(InvalidFlags)
            else
              && h.error.None? && h.finished && h.htype == ControlType(e.kind) && h.remainingLength == |PacketBody(e)|
              && (e.kind.Publish0? || e.kind.Publish1? || e.kind.Publish2? ==>
                    && h.dup == dup && h.retain == e.value.body.publish.retain
                    && h.qos == if e.kind.Publish0? then 0 else if e.kind.Publish1? then 1 else 2)
  {
    hide RemainingLength, PacketBody, FirstByte, Declared, HeaderLength, HeaderFirst;
    DeclaredIsBodyLength(e);
    var b, n := FirstByte(e, dup), |PacketBody(e)|;
    var header := Packet(e, dup)[..1 + |RemainingLength(n)|];
    assert header == [b] + RemainingLength(n) && header[1..] == RemainingLength(n);
    if e.kind.Publish0? && dup {
      DupNeedsAnId(e);
      ErrorSticks(HeaderStep(ZERO_HEADER, b), header[1..]);
    } else {
      FirstIsAccepted(e, dup);
      RemainingLengthRoundTrip(HeaderStep(ZERO_HEADER, b), n);
    }
  }

  lemma DupNeedsAnId(e: Entry)
    requires WellFormed(e) && e.kind.Publish0?
    ensures HeaderStep(ZERO_HEADER, FirstByte(e, true)).error == Some(InvalidFlags)
  {
    LowFlags(e.value.body.publish, true);
  }

  lemma FirstIsAccepted(e: Entry, dup: bool)
    requires WellFormed(e) && (e.kind.Publish0? ==> !dup)
    ensures var h := HeaderStep(ZERO_HEADER, FirstByte(e, dup));
            && AwaitsLength(h) && h.htype == ControlType(e.kind)
            && (e.kind.Publish0? || e.kind.Publish1? || e.kind.Publish2? ==>
                  && h.dup == dup && h.retain == e.value.body.publish.retain
                  && h.qos == if e.kind.Publish0? then 0 else if e.kind.Publish1? then 1 else 2)
  {
    if IsPublish(e.kind) { LowFlags(e.value.body.publish, dup); }
  }

  /** What a queue asks for, up to and including the first DISCONNECT. A PUBLISH carries DUP exactly when a
      PUBLISH of the same request was sent before; `sent` are the requests of those. */
  function AskedAll(es: seq<Entry>, sent: multiset<nat>): seq<ControlPacket>
    requires AllWellFormed(es)
  {
    if es == [] then []
    else if es[0].kind.Disconnect? then [DisconnectPacket]
    else if es[0].kind.Publish0? || es[0].kind.Publish1? || es[0].kind.Publish2? then
      [Asked(es[0], es[0].value.ref in sent)] + AskedAll(es[1..], sent + multiset{es[0].value.ref})
    else [Asked(es[0], false)] + AskedAll(es[1..], sent)
  }

  /** The server reads packets one after the other. */
  predicate Reads(bytes: seq<byte>, packets: seq<ControlPacket>)
    decreases |packets|
  {
    if packets == [] then bytes == []
    else
      match ReadPacket(bytes)
      case Some((packet, rest)) => packet == packets[0] && Reads(rest, packets[1..])
      case None => false
  }

  /** A whole stream of packets is understood. */
  lemma {:induction false} StreamIsUnderstood(es: seq<Entry>, sent: multiset<nat>)
    requires AllWellFormed(es) && forall i :: 0 <= i < |es| ==> Encodable(es[i])
    ensures Reads(Stream(es, sent), AskedAll(es, sent))
    decreases |es|
  {
    hide WellFormed, Packet, Encodable, ReadPacket, Asked;
    if es != [] {
      var dup := Dup(es[0], sent);
      var rest := if es[0].kind.Disconnect? then [] else Stream(es[1..], After(sent, es[0]));
      PacketIsUnderstood(es[0], dup, rest);
      DupOnlyForPublish(es[0], dup);
      if !es[0].kind.Disconnect? { StreamIsUnderstood(es[1..], After(sent, es[0])); }
    }
  }

  lemma DupOnlyForPublish(e: Entry, dup: bool)
    requires WellFormed(e)
    ensures !(e.kind.Publish0? || e.kind.Publish1? || e.kind.Publish2?) ==> Asked(e, dup) == Asked(e, false)
    ensures e.kind.Disconnect? ==> Asked(e, dup) == DisconnectPacket
  {
    hide Filters, TopicsOf;
  }

  // ----- what the standard asks for -----

  /** The rules of sections 2.3.1, 3.1.2, 3.1.3, 3.3.1, 3.8.3 and 3.10.3 for what is in a packet. */
  predicate Conforming(p: ControlPacket)
  {
    match p
    case ConnectPacket(protocol, level, cleanSession, willQos, willRetain, _, clientId, will, userName, password) =>
      && protocol == [77, 81, 84, 84] && level == 4 && willQos <= 2
      && (will.None? ==> willQos == 0 && !willRetain)
      && (clientId == [] ==> cleanSession) && (password.Some? ==> userName.Some?)
    case PublishPacket(dup, qos, _, topic, packetId, _) =>
      && qos <= 2 && topic != [] && (qos == 0 ==> !dup && packetId.None?)
      && (qos > 0 ==> packetId.Some? && packetId.value != 0)
    case SubscribePacket(id, filters) =>
      id != 0 && filters != [] && forall i :: 0 <= i < |filters| ==> filters[i].0 != [] && filters[i].1 <= 2
    case UnsubscribePacket(id, topics) =>
      id != 0 && topics != [] && forall i :: 0 <= i < |topics| ==> topics[i] != []
    case PubackPacket(id) => id != 0
    case PubrecPacket(id) => id != 0
    case PubrelPacket(id) => id != 0
    case PubcompPacket(id) => id != 0
    case PingreqPacket => true
    case DisconnectPacket => true
  }

  /** When the client's packets are what the standard asks for: always, but for a will QoS without a will, DUP
      on a QoS 0 message, and the packet id 0. */
  lemma WhenPacketsConform(e: Entry, dup: bool)
    requires WellFormed(e)
    ensures Conforming(Asked(e, dup)) <==>
              && (e.kind.Connect? && e.value.body.connect.willTopic == [] ==> e.value.body.connect.willQos == 0)
              && (e.kind.Publish0? ==> !dup)
              && (e.value.packetId == 0 ==>
                    e.kind.Connect? || e.kind.Publish0? || e.kind.Pingreq? || e.kind.Disconnect?)
  {
    if e.kind.Subscribe? { FiltersAt(e.value.body.subscriptions); }
    if e.kind.Unsubscribe? { TopicsAt(e.value.body.subscriptions); }
  }

  lemma {:induction false} FiltersAt(subs: seq<Subscription>)
    requires forall i :: 0 <= i < |subs| ==> subs[i].requestedQos >= 0
    ensures |Filters(subs)| == |subs|
    ensures forall i :: 0 <= i < |subs| ==> Filters(subs)[i] == (subs[i].topic, subs[i].requestedQos)
  {
    if subs != [] { FiltersAt(subs[1..]); }
  }

  lemma {:induction false} TopicsAt(subs: seq<Subscription>)
    ensures |TopicsOf(subs)| == |subs| && forall i :: 0 <= i < |subs| ==> TopicsOf(subs)[i] == subs[i].topic
  {
    if subs != [] { TopicsAt(subs[1..]); }
  }
}
