/** Outgoing packets: validation, the fields the encoders emit one after the other, and the packet
    layout of MQTT 3.1.1 they must add up to. */
module Wire {
  import opened Types
  import opened FixedHeader

  predicate FieldLengthOk(s: seq<byte>) { |s| <= 0xffff }

  predicate ValidQos(qos: int) { 0 <= qos <= 2 }

  predicate ValidConnect(c: ConnectRequest)
  {
    && FieldLengthOk(c.clientId) && FieldLengthOk(c.willTopic) && FieldLengthOk(c.willMessage)
    && FieldLengthOk(c.userName) && FieldLengthOk(c.password)
    && (c.willTopic == [] <==> c.willMessage == [])
    && !(c.willTopic == [] && c.willRetain)
    && !(c.clientId == [] && !c.cleanSession)
    && !(c.userName == [] && c.password != [])
    && ValidQos(c.willQos)
  }

  predicate ValidSubscribe(subs: seq<Subscription>)
  {
    subs != [] && forall i :: 0 <= i < |subs| ==>
      FieldLengthOk(subs[i].topic) && subs[i].topic != [] && ValidQos(subs[i].requestedQos)
  }

  predicate ValidPublish(p: PublishRequest)
  {
    FieldLengthOk(p.topic) && p.topic != [] && ValidQos(p.qos) && PublishRemaining(p) <= MAX_REMAINING_LENGTH
  }

  method ValidateSubscribe(subs: seq<Subscription>) returns (ok: bool)
    ensures ok == ValidSubscribe(subs)
  {
    if |subs| == 0 { return false; }
    for i := 0 to |subs|
      invariant forall j :: 0 <= j < i ==>
        FieldLengthOk(subs[j].topic) && subs[j].topic != [] && ValidQos(subs[j].requestedQos)
    {
      if |subs[i].topic| > 0xffff { return false; }
      if |subs[i].topic| == 0 || !ValidQos(subs[i].requestedQos) { return false; }
    }
    return true;
  }

  // ----- declared lengths -----

  function OptionalField(s: seq<byte>): nat { if |s| > 0 then 2 + |s| else 0 }

  function ConnectRemaining(c: ConnectRequest): nat
  {
    10 + 2 + |c.clientId| + OptionalField(c.willTopic) + OptionalField(c.willMessage)
    + OptionalField(c.userName) + OptionalField(c.password)
  }

  function TopicsLength(subs: seq<Subscription>, perTopic: nat): nat
  {
    if subs == [] then 0 else |subs[0].topic| + perTopic + TopicsLength(subs[1..], perTopic)
  }

  function SubscribeRemaining(subs: seq<Subscription>, includeQos: bool): nat
  {
    2 + TopicsLength(subs, if includeQos then 3 else 2)
  }

  function PublishRemaining(p: PublishRequest): nat
  {
    2 + |p.topic| + (if p.qos == 0 then 0 else 2) + |p.payload|
  }

  /** The entry's body is the one its kind needs, and passed its validator. */
  predicate WellFormed(e: Entry)
  {
    match e.kind
    case Connect => e.value.body.ConnectBody? && ValidConnect(e.value.body.connect) && e.value.packetId == 0
    case Publish0 => e.value.body.PublishBody? && ValidPublish(e.value.body.publish) && e.value.body.publish.qos == 0
    case Publish1 => e.value.body.PublishBody? && ValidPublish(e.value.body.publish) && e.value.body.publish.qos == 1
    case Publish2 => e.value.body.PublishBody? && ValidPublish(e.value.body.publish) && e.value.body.publish.qos == 2
    case Pubrel => e.value.body.PublishBody? && ValidPublish(e.value.body.publish) && e.value.body.publish.qos == 2
    case Subscribe => e.value.body.SubscribeBody? && ValidSubscribe(e.value.body.subscriptions)
    case Unsubscribe => e.value.body.SubscribeBody? && ValidSubscribe(e.value.body.subscriptions)
    case _ => e.value.body.NoBody?
  }

  /** The Remaining Length the header builder of this kind writes. */
  function Declared(e: Entry): nat
    requires WellFormed(e)
  {
    match e.kind
    case Connect => ConnectRemaining(e.value.body.connect)
    case Publish0 => PublishRemaining(e.value.body.publish)
    case Publish1 => PublishRemaining(e.value.body.publish)
    case Publish2 => PublishRemaining(e.value.body.publish)
    case Subscribe => SubscribeRemaining(e.value.body.subscriptions, true)
    case Unsubscribe => SubscribeRemaining(e.value.body.subscriptions, false)
    case Pingreq => 0
    case Disconnect => 0
    case _ => 2
  }

  lemma {:induction false} TopicsLengthAppend(subs: seq<Subscription>, s: Subscription, perTopic: nat)
    ensures TopicsLength(subs + [s], perTopic) == TopicsLength(subs, perTopic) + |s.topic| + perTopic
  {
    if subs == [] {
      assert subs + [s] == [s] && [s][1..] == [];
    } else {
      assert (subs + [s])[1..] == subs[1..] + [s];
      TopicsLengthAppend(subs[1..], s, perTopic);
    }
  }

  method CalcSubscribeRemaining(subs: seq<Subscription>, includeQos: bool) returns (length: nat)
    ensures length == SubscribeRemaining(subs, includeQos)
  {
    length := 2;
    for i := 0 to |subs|
      invariant length == SubscribeRemaining(subs[..i], includeQos)
    {
      length := length + |subs[i].topic| + 2 + (if includeQos then 1 else 0);
      TopicsLengthAppend(subs[..i], subs[i], if includeQos then 3 else 2);
      assert subs[..i + 1] == subs[..i] + [subs[i]];
    }
    assert subs[..|subs|] == subs;
  }

  /** What the header builder of the entry's kind computes. */
  method CalcRemaining(e: Entry) returns (length: nat)
    requires WellFormed(e)
    ensures length == |PacketBody(e)|
    ensures length == Declared(e)
  {
    DeclaredIsBodyLength(e);
    if e.kind.Subscribe? || e.kind.Unsubscribe? {
      length := CalcSubscribeRemaining(e.value.body.subscriptions, e.kind.Subscribe?);
    } else {
      length := Declared(e);
    }
  }

  /** The header builder's assertion on the Remaining Length holds. */
  predicate Encodable(e: Entry)
    requires WellFormed(e)
  {
    Declared(e) <= MAX_REMAINING_LENGTH
  }

  // ----- the encoders' fields -----

  /** `Built` is produced in the 16-byte encode buffer, `Str` is copied from the request. */
  datatype Field =
    | Built(bytes: seq<byte>)
    | Str(str: seq<byte>, withLength: bool, ifEmpty: bool)

  function LengthPrefixed(s: seq<byte>): seq<byte> { U16Bytes(|s| % 65536) + s }

  function FieldBytes(f: Field): seq<byte>
  {
    match f
    case Built(bytes) => bytes
    case Str(s, withLength, ifEmpty) =>
      if s == [] && !ifEmpty then [] else if withLength then LengthPrefixed(s) else s
  }

  function FieldsBytes(fs: seq<Field>): seq<byte>
  {
    if fs == [] then [] else FieldBytes(fs[0]) + FieldsBytes(fs[1..])
  }

  function ConnectFlags(c: ConnectRequest): byte
  {
    (c.willQos * 8 + (if c.cleanSession then 0x02 else 0) + (if c.willRetain then 0x20 else 0)
     + (if |c.willTopic| > 0 then 0x04 else 0) + (if |c.userName| > 0 then 0x80 else 0)
     + (if |c.password| > 0 then 0x40 else 0)) % 256
  }

  function ConnectVariableHeader(c: ConnectRequest): seq<byte>
  {
    [0, 4, 77, 81, 84, 84, 4, ConnectFlags(c)] + U16Bytes(c.keepAlive)
  }

  function FirstByte(e: Entry, dup: bool): byte
    requires WellFormed(e)
  {
    match e.kind
    case Connect => 0x10
    case Publish0 => PublishFirstByte(e.value.body.publish, dup)
    case Publish1 => PublishFirstByte(e.value.body.publish, dup)
    case Publish2 => PublishFirstByte(e.value.body.publish, dup)
    case Puback => 0x40
    case Pubrec => 0x50
    case Pubrel => 0x62
    case Pubcomp => 0x70
    case Subscribe => 0x82
    case Unsubscribe => 0xa2
    case Pingreq => 0xc0
    case Disconnect => 0xe0
  }

  function PublishFirstByte(p: PublishRequest, dup: bool): byte
  {
    (0x30 + (if p.retain then 1 else 0) + p.qos * 2 + (if dup then 8 else 0)) % 256
  }

  function SubscriptionField(subs: seq<Subscription>, p: nat): Field
    requires p < 2 * |subs|
  {
    if p % 2 == 0 then Str(subs[p / 2].topic, true, true) else Built([subs[p / 2].requestedQos % 256])
  }

  predicate FieldShape(f: Field)
  {
    match f
    case Built(bytes) => bytes != []
    case Str(_, withLength, ifEmpty) => ifEmpty ==> withLength
  }

  /** The encoder sequence of an entry; the finder returns field `p`, or nothing from `|Fields|` on. */
  function Fields(e: Entry, dup: bool): (fs: seq<Field>)
    requires WellFormed(e)
    ensures fs != [] && fs[0].Built? && fs[0].bytes != []
    ensures forall i :: 0 <= i < |fs| ==> FieldShape(fs[i])
  {
    var header := [FirstByte(e, dup)] + RemainingLength(Declared(e));
    match e.kind
    case Connect =>
      var c := e.value.body.connect;
      [Built(header), Built(ConnectVariableHeader(c)), Str(c.clientId, true, true), Str(c.willTopic, true, false),
       Str(c.willMessage, true, false), Str(c.userName, true, false), Str(c.password, true, false)]
    case Publish0 =>
      var p := e.value.body.publish;
      [Built(header), Str(p.topic, true, true), Str(p.payload, false, false)]
    case Publish1 => AcknowledgedFields(header, e)
    case Publish2 => AcknowledgedFields(header, e)
    case Subscribe =>
      var subs := e.value.body.subscriptions;
      [Built(header + U16Bytes(e.value.packetId))]
      + seq(2 * |subs|, p requires 0 <= p < 2 * |subs| => SubscriptionField(subs, p))
    case Unsubscribe =>
      var subs := e.value.body.subscriptions;
      [Built(header + U16Bytes(e.value.packetId))]
      + seq(|subs|, p requires 0 <= p < |subs| => Str(subs[p].topic, true, true))
    case Pingreq => [Built(header)]
    case Disconnect => [Built(header)]
    case _ => [Built(header + U16Bytes(e.value.packetId))]
  }

  function AcknowledgedFields(header: seq<byte>, e: Entry): seq<Field>
    requires e.value.body.PublishBody?
  {
    var p := e.value.body.publish;
    [Built(header), Str(p.topic, true, true), Built(U16Bytes(e.value.packetId)), Str(p.payload, false, false)]
  }

  // ----- the layout of sections 3.1 to 3.14 of MQTT 3.1.1 -----

  function OptionalString(s: seq<byte>): seq<byte> { if s == [] then [] else LengthPrefixed(s) }

  function Topics(subs: seq<Subscription>, includeQos: bool): seq<byte>
  {
    if subs == [] then []
    else LengthPrefixed(subs[0].topic) + (if includeQos then [subs[0].requestedQos % 256] else [])
         + Topics(subs[1..], includeQos)
  }

  /** Variable header and payload. */
  function PacketBody(e: Entry): seq<byte>
    requires WellFormed(e)
  {
    match e.kind
    case Connect =>
      var c := e.value.body.connect;
      ConnectVariableHeader(c) + LengthPrefixed(c.clientId) + OptionalString(c.willTopic)
      + OptionalString(c.willMessage) + OptionalString(c.userName) + OptionalString(c.password)
    case Publish0 => PublishPacketBody(e.value)
    case Publish1 => PublishPacketBody(e.value)
    case Publish2 => PublishPacketBody(e.value)
    case Subscribe => U16Bytes(e.value.packetId) + Topics(e.value.body.subscriptions, true)
    case Unsubscribe => U16Bytes(e.value.packetId) + Topics(e.value.body.subscriptions, false)
    case Pingreq => []
    case Disconnect => []
    case _ => U16Bytes(e.value.packetId)
  }

  function PublishPacketBody(v: Value): seq<byte>
    requires v.body.PublishBody?
  {
    var p := v.body.publish;
    LengthPrefixed(p.topic) + (if p.qos == 0 then [] else U16Bytes(v.packetId)) + p.payload
  }

  /** A whole packet: the Remaining Length is the length of what really follows it. */
  function Packet(e: Entry, dup: bool): seq<byte>
    requires WellFormed(e)
  {
    [FirstByte(e, dup)] + RemainingLength(|PacketBody(e)|) + PacketBody(e)
  }

  // ----- the fields add up to the packet -----

  lemma {:induction false} FieldsConcat(a: seq<Field>, b: seq<Field>)
    ensures FieldsBytes(a + b) == FieldsBytes(a) + FieldsBytes(b)
  {
    hide FieldBytes;
    if a == [] {
      assert a + b == b;
    } else {
      FieldsConcat(a[1..], b);
      assert (a + b)[0] == a[0] && (a + b)[1..] == a[1..] + b;
      var head, tail, rest := FieldBytes(a[0]), FieldsBytes(a[1..]), FieldsBytes(b);
      assert head + (tail + rest) == head + tail + rest;
    }
  }

  lemma NoFields()
    ensures FieldsBytes([]) == []
  {
  }

  lemma FieldsCons(f: Field, rest: seq<Field>)
    ensures FieldsBytes([f] + rest) == FieldBytes(f) + FieldsBytes(rest)
  {
    hide FieldBytes;
    assert ([f] + rest)[1..] == rest;
  }

  lemma {:induction false} SubscribeFields(subs: seq<Subscription>)
    requires forall i :: 0 <= i < |subs| ==> FieldLengthOk(subs[i].topic) && subs[i].topic != []
    ensures FieldsBytes(seq(2 * |subs|, p requires 0 <= p < 2 * |subs| => SubscriptionField(subs, p)))
            == Topics(subs, true)
    ensures |Topics(subs, true)| == TopicsLength(subs, 3)
  {
    hide FieldsBytes;
    var fs := seq(2 * |subs|, p requires 0 <= p < 2 * |subs| => SubscriptionField(subs, p));
    if subs != [] {
      var rest := subs[1..];
      SubscribeFields(rest);
      var tail := seq(2 * |rest|, p requires 0 <= p < 2 * |rest| => SubscriptionField(rest, p));
      assert fs == [Str(subs[0].topic, true, true)] + ([Built([subs[0].requestedQos % 256])] + tail);
      FieldsCons(Built([subs[0].requestedQos % 256]), tail);
      FieldsCons(Str(subs[0].topic, true, true), [Built([subs[0].requestedQos % 256])] + tail);
    } else {
      NoFields();
      assert fs == [];
    }
  }

  lemma {:induction false} UnsubscribeFields(subs: seq<Subscription>)
    requires forall i :: 0 <= i < |subs| ==> FieldLengthOk(subs[i].topic) && subs[i].topic != []
    ensures FieldsBytes(seq(|subs|, p requires 0 <= p < |subs| => Str(subs[p].topic, true, true)))
            == Topics(subs, false)
    ensures |Topics(subs, false)| == TopicsLength(subs, 2)
  {
    hide FieldsBytes;
    var fs := seq(|subs|, p requires 0 <= p < |subs| => Str(subs[p].topic, true, true));
    if subs != [] {
      var rest := subs[1..];
      UnsubscribeFields(rest);
      var tail := seq(|rest|, p requires 0 <= p < |rest| => Str(rest[p].topic, true, true));
      assert fs == [Str(subs[0].topic, true, true)] + tail;
      FieldsCons(Str(subs[0].topic, true, true), tail);
    } else {
      NoFields();
      assert fs == [];
    }
  }

  lemma DeclaredIsBodyLength(e: Entry)
    requires WellFormed(e)
    ensures Declared(e) == |PacketBody(e)|
  {
    if e.kind.Subscribe? { SubscribeFields(e.value.body.subscriptions); }
    if e.kind.Unsubscribe? { UnsubscribeFields(e.value.body.subscriptions); }
  }

  lemma FieldsFrom(fs: seq<Field>, i: nat)
    requires i < |fs|
    ensures FieldsBytes(fs[i..]) == FieldBytes(fs[i]) + FieldsBytes(fs[i + 1..])
  {
    hide FieldBytes;
    assert fs[i..][1..] == fs[i + 1..];
  }

  /** The four fields after the connect headers, one after the other. */
  lemma FourFields(fs: seq<Field>)
    requires |fs| == 7
    ensures FieldsBytes(fs[3..]) == FieldBytes(fs[3]) + FieldBytes(fs[4]) + FieldBytes(fs[5]) + FieldBytes(fs[6])
  {
    hide FieldBytes;
    hide FieldsBytes;
    FieldsFrom(fs, 3); FieldsFrom(fs, 4); FieldsFrom(fs, 5); FieldsFrom(fs, 6);
    NoFields();
    assert fs[7..] == [];
  }

  lemma ConnectFields(e: Entry, dup: bool)
    requires WellFormed(e) && e.kind.Connect?
    ensures FieldsBytes(Fields(e, dup)[1..]) == PacketBody(e)
  {
    hide FieldsBytes, RemainingLength, ConnectFlags, U16Bytes, LengthPrefixed;
    hide Fields;
    var fs := Fields(e, dup);
    ConnectFieldBytes(e, dup);
    hide FieldBytes;
    FieldsFrom(fs, 1);
    FieldsFrom(fs, 2);
    FourFields(fs);
    SixParts(FieldBytes(fs[1]), FieldBytes(fs[2]), FieldBytes(fs[3]), FieldBytes(fs[4]), FieldBytes(fs[5]),
      FieldBytes(fs[6]));
  }

  lemma SixParts(a: seq<byte>, b: seq<byte>, c: seq<byte>, d: seq<byte>, e: seq<byte>, f: seq<byte>)
    ensures a + (b + (c + d + e + f)) == a + b + c + d + e + f
  {
  }

  /** What the fields of a CONNECT emit. */
  lemma ConnectFieldBytes(e: Entry, dup: bool)
    requires WellFormed(e) && e.kind.Connect?
    ensures var fs := Fields(e, dup);
            var c := e.value.body.connect;
            && |fs| == 7 && FieldBytes(fs[1]) == ConnectVariableHeader(c)
               && FieldBytes(fs[2]) == LengthPrefixed(c.clientId)
            && FieldBytes(fs[3]) == OptionalString(c.willTopic) && FieldBytes(fs[4]) == OptionalString(c.willMessage)
            && FieldBytes(fs[5]) == OptionalString(c.userName) && FieldBytes(fs[6]) == OptionalString(c.password)
  {
    hide RemainingLength, ConnectFlags, U16Bytes;
  }

  lemma PublishFields(e: Entry, dup: bool)
    requires WellFormed(e) && (e.kind.Publish0? || e.kind.Publish1? || e.kind.Publish2?)
    ensures FieldsBytes(Fields(e, dup)[1..]) == PacketBody(e)
  {
    hide FieldsBytes, RemainingLength, U16Bytes, LengthPrefixed;
    var fs := Fields(e, dup);
    FieldsFrom(fs, 1);
    FieldsFrom(fs, 2);
    if |fs| == 4 { FieldsFrom(fs, 3); }
    NoFields();
    assert fs[|fs|..] == [];
  }

  lemma SubscriptionFields(e: Entry, dup: bool)
    requires WellFormed(e) && (e.kind.Subscribe? || e.kind.Unsubscribe?)
    ensures FieldsBytes(Fields(e, dup))
            == FieldBytes(Fields(e, dup)[0]) + Topics(e.value.body.subscriptions, e.kind.Subscribe?)
  {
    var fs := Fields(e, dup);
    var subs := e.value.body.subscriptions;
    if e.kind.Subscribe? {
      SubscribeFields(subs);
      assert fs[1..] == seq(2 * |subs|, p requires 0 <= p < 2 * |subs| => SubscriptionField(subs, p));
    } else {
      UnsubscribeFields(subs);
      assert fs[1..] == seq(|subs|, p requires 0 <= p < |subs| => Str(subs[p].topic, true, true));
    }
  }

  /** Declared length equals emitted length, for every outgoing kind: the encoders' fields make up
      exactly the packet whose Remaining Length is the length of the bytes after the fixed header. */
  lemma FieldsMakePacket(e: Entry, dup: bool)
    requires WellFormed(e)
    ensures FieldsBytes(Fields(e, dup)) == Packet(e, dup)
    ensures Declared(e) == |PacketBody(e)|
  {
    hide FieldBytes, FirstByte, RemainingLength, U16Bytes, Topics, PacketBody, Declared, Fields, WellFormed,
         FieldsBytes;
    DeclaredIsBodyLength(e);
    FirstField(e, dup);
    HeadAndRest(Fields(e, dup));
    NoFields();
    var header := [FirstByte(e, dup)] + RemainingLength(Declared(e));
    if e.kind.Connect? {
      ConnectFields(e, dup);
    } else if e.kind.Publish0? || e.kind.Publish1? || e.kind.Publish2? {
      PublishFields(e, dup);
    } else if e.kind.Subscribe? || e.kind.Unsubscribe? {
      SubscriptionFields(e, dup);
      SubscriptionBody(e);
      assert header + U16Bytes(e.value.packetId) + Topics(e.value.body.subscriptions, e.kind.Subscribe?)
          == header + (U16Bytes(e.value.packetId) + Topics(e.value.body.subscriptions, e.kind.Subscribe?));
    } else {
      OneField(e, dup);
    }
  }

  /** The kinds whose fixed header stands alone in its field. */
  predicate BareHeader(k: Kind)
  {
    k.Connect? || k.Publish0? || k.Publish1? || k.Publish2? || k.Pingreq? || k.Disconnect?
  }

  lemma HeadAndRest(fs: seq<Field>)
    requires fs != []
    ensures FieldsBytes(fs) == FieldBytes(fs[0]) + FieldsBytes(fs[1..])
  {
    hide FieldBytes;
  }

  /** The first field is the fixed header, with the packet id behind it where no other field comes between. */
  lemma FirstField(e: Entry, dup: bool)
    requires WellFormed(e)
    ensures FieldBytes(Fields(e, dup)[0])
            == [FirstByte(e, dup)] + RemainingLength(Declared(e))
               + (if BareHeader(e.kind) then [] else U16Bytes(e.value.packetId))
  {
    hide FirstByte, RemainingLength, U16Bytes, Declared;
  }

  lemma SubscriptionBody(e: Entry)
    requires WellFormed(e) && (e.kind.Subscribe? || e.kind.Unsubscribe?)
    ensures e.value.body.SubscribeBody?
    ensures PacketBody(e) == U16Bytes(e.value.packetId) + Topics(e.value.body.subscriptions, e.kind.Subscribe?)
  {
    hide U16Bytes, Topics;
  }

  lemma OneField(e: Entry, dup: bool)
    requires WellFormed(e) && !e.kind.Connect? && !e.kind.Subscribe? && !e.kind.Unsubscribe?
    requires !e.kind.Publish0? && !e.kind.Publish1? && !e.kind.Publish2?
    ensures Fields(e, dup)[1..] == []
    ensures PacketBody(e) == if BareHeader(e.kind) then [] else U16Bytes(e.value.packetId)
  {
    hide FirstByte, RemainingLength, U16Bytes, Declared;
  }

  /** Only SUBSCRIBE and UNSUBSCRIBE can pass validation and still be too long for the length field. */
  lemma ValidatedPacketsAreEncodable(e: Entry)
    requires WellFormed(e) && !e.kind.Subscribe? && !e.kind.Unsubscribe?
    ensures Encodable(e)
  {
  }

  /** The connect flags tell exactly which payload fields follow (section 3.1.2.3). */
  lemma ConnectFlagsMatchPayload(c: ConnectRequest)
    requires ValidConnect(c)
    ensures var f := ConnectFlags(c);
            && (f / 0x80 % 2 == 1 <==> OptionalString(c.userName) != [])
            && (f / 0x40 % 2 == 1 <==> OptionalString(c.password) != [])
            && (f / 0x04 % 2 == 1 <==> OptionalString(c.willTopic) != [])
            && (f / 0x04 % 2 == 1 <==> OptionalString(c.willMessage) != [])
            && (f / 0x20 % 2 == 1 <==> c.willRetain) && f / 0x08 % 4 == c.willQos
            && (f / 0x02 % 2 == 1 <==> c.cleanSession) && f % 2 == 0
            && (f / 0x40 % 2 == 1 ==> f / 0x80 % 2 == 1) && (f / 0x20 % 2 == 1 ==> f / 0x04 % 2 == 1)
  {
    hide ConnectFlags, OptionalString;
    FlagsOf(c);
    forall s ensures OptionalString(s) != [] <==> |s| > 0 { OptionalPresent(s); }
  }

  lemma OptionalPresent(s: seq<byte>)
    ensures OptionalString(s) != [] <==> |s| > 0
  {
  }

  lemma FlagsOf(c: ConnectRequest)
    requires ValidQos(c.willQos)
    ensures var f := ConnectFlags(c);
            && f % 2 == 0 && f / 0x08 % 4 == c.willQos
            && (f / 0x80 % 2 == 1 <==> |c.userName| > 0) && (f / 0x40 % 2 == 1 <==> |c.password| > 0)
            && (f / 0x20 % 2 == 1 <==> c.willRetain) && (f / 0x04 % 2 == 1 <==> |c.willTopic| > 0)
            && (f / 0x02 % 2 == 1 <==> c.cleanSession)
  {
    FlagBits(c.willQos, c.cleanSession, c.willRetain, |c.willTopic| > 0, |c.userName| > 0, |c.password| > 0);
  }

  lemma FlagBits(q: int, clean: bool, retain: bool, will: bool, user: bool, pass: bool)
    requires ValidQos(q)
    ensures var f := q * 8 + (if clean then 0x02 else 0) + (if retain then 0x20 else 0) + (if will then 0x04 else 0)
                     + (if user then 0x80 else 0) + (if pass then 0x40 else 0);
            && 0 <= f < 256 && f % 2 == 0
            && (f / 0x80 % 2 == 1 <==> user) && (f / 0x40 % 2 == 1 <==> pass) && (f / 0x20 % 2 == 1 <==> retain)
            && f / 0x08 % 4 == q && (f / 0x04 % 2 == 1 <==> will) && (f / 0x02 % 2 == 1 <==> clean)
  {
    var c, r, w := if clean then 1 else 0, if retain then 1 else 0, if will then 1 else 0;
    var u, p := if user then 1 else 0, if pass then 1 else 0;
    var f := q * 8 + 2 * c + 32 * r + 4 * w + 128 * u + 64 * p;
    assert f / 2 == q * 4 + c + 16 * r + 2 * w + 64 * u + 32 * p;
    assert f / 4 == q * 2 + 8 * r + w + 32 * u + 16 * p;
    assert f / 8 == q + 4 * r + 16 * u + 8 * p;
    assert f / 0x20 == r + 4 * u + 2 * p;
    assert f / 0x40 == 2 * u + p;
    assert f / 0x80 == u;
  }
}
