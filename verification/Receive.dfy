/** The rx buffer: a fixed header, then the decoder of the packet's type, one byte at a time. */
module Receive {
  import opened Types
  import opened FixedHeader
  import opened PacketStore
  import opened PacketIds

  datatype Decoder =
    | DConnack | DPublish | DPuback | DPubrec | DPubrel | DPubcomp | DSuback | DUnsuback | DPingresp

  /** The decoder table; types only a server receives have none. */
  function DecoderOf(htype: nat): Option<Decoder>
  {
    if htype == 2 then Some(DConnack)
    else if htype == 3 then Some(DPublish)
    else if htype == 4 then Some(DPuback)
    else if htype == 5 then Some(DPubrec)
    else if htype == 6 then Some(DPubrel)
    else if htype == 7 then Some(DPubcomp)
    else if htype == 9 then Some(DSuback)
    else if htype == 11 then Some(DUnsuback)
    else if htype == 13 then Some(DPingresp)
    else None
  }

  function MinLength(d: Decoder): nat
  {
    match d
    case DPublish => 3
    case DSuback => 3
    case DPingresp => 0
    case _ => 2
  }

  predicate HasId(d: Decoder) { !d.DConnack? && !d.DPublish? && !d.DPingresp? }

  /** The kind of request a response answers. */
  function RequestKind(d: Decoder): Option<Kind>
  {
    match d
    case DConnack => Some(Connect)
    case DPuback => Some(Publish1)
    case DPubrec => Some(Publish2)
    case DPubcomp => Some(Pubrel)
    case DSuback => Some(Subscribe)
    case DUnsuback => Some(Unsubscribe)
    case DPingresp => Some(Pingreq)
    case _ => None
  }

  function CallbackError(d: Decoder): Error
  {
    match d
    case DConnack => CallbackConnack
    case DPuback => CallbackPublish
    case DPubcomp => CallbackPublish
    case DSuback => CallbackSuback
    case DUnsuback => CallbackUnsuback
    case _ => AssertionFailed
  }

  datatype Rx = Rx(
    header: Header, headerFinished: bool, decoder: Decoder, remainPos: nat, topicLen: nat, packetId: nat,
    slot: Value, topic: seq<byte>, payload: seq<byte>, ignorePublish: bool, error: Option<Error>)

  const RESET_RX := Rx(ZERO_HEADER, false, DPublish, 0, 0, 0, ZERO_VALUE, [], [], false, None)

  /** What the decoder can see and change. */
  datatype Link = Link(rx: Rx, store: StoreState, ids: IdSet, log: seq<Event>)

  /** `call` asks for the callback of the request in `rx.slot`. */
  datatype RxOut = RxOut(link: Link, call: bool)

  /** An error stops the decoder until it is reset; nothing looks at its position any more, so the
      model forgets it. */
  function FailRx(rx: Rx, e: Error): Rx { rx.(error := Some(e), remainPos := 0) }

  function Fail(l: Link, e: Error): Link { l.(rx := FailRx(l.rx, e)) }

  function Log(l: Link, e: Event): Link { l.(log := l.log + [e]) }

  // ----- taking the request of a response out of the store -----

  function PopRequest(l: Link, packetId: U16): (r: (Link, bool))
    requires l.store.Valid()
    ensures r.0.store.Valid()
  {
    match RequestKind(l.rx.decoder)
    case None => (l, true)
    case Some(kind) =>
      match l.store.PopMarked(kind, packetId)
      case (s, Some(v)) => (l.(store := s, rx := l.rx.(slot := v)), true)
      case (s, None) => (Fail(l.(store := s, rx := l.rx.(slot := ZERO_VALUE)), NoCorrespondingRequest), false)
  }

  /** PUBREL: release the id and queue PUBCOMP, whether or not the id was held. */
  function ReleaseId(l: Link, packetId: U16): (r: (Link, bool))
    ensures l.store.Valid() ==> r.0.store.Valid()
  {
    var released := Log(l.(ids := l.ids.Remove(packetId)), PubrelSeen(packetId));
    var (s, ok) := l.store.Append(Entry(Pubcomp, Value(packetId, 0, NoBody)));
    if ok then (released.(store := s), true) else (Fail(released, PubrelIdSetFull), false)
  }

  // ----- the bytes after the fixed header -----

  /** Packet ids are assembled most significant byte first. */
  function IdByte(id: nat, first: bool, b: byte): (r: nat)
  {
    if first then (b as int) * 256 else (id + b) % 65536
  }

  function ConnackByte(l: Link, b: byte): (r: (Link, bool))
    ensures r.0.store == l.store
  {
    if l.rx.remainPos == 0 then
      if b >= 2 then (Fail(l, ConnackInvalidFlags), false)
      else (Log(l, SessionPresent(l.rx.slot.ref, b == 1)), true)
    else if l.rx.remainPos == 1 then
      if b > 5 then (Fail(l, ConnackInvalidReturnCode), false)
      else if b != 0 then (Fail(l, ConnackRefused(b)), false)
      else if l.rx.header.remainingLength != 2 then (Fail(l, AssertionFailed), false)
      else (l, true)
    else (Fail(l, ConnackInvalidLength), false)
  }

  function SubscriptionCount(v: Value): nat
  {
    match v.body
    case SubscribeBody(subs) => |subs|
    case _ => 0
  }

  function SubackByte(l: Link, b: byte): (r: (Link, bool))
    requires l.rx.remainPos >= 2
    ensures r.0.store == l.store
  {
    var index := l.rx.remainPos - 2;
    if index == 0 && l.rx.header.remainingLength - 2 != SubscriptionCount(l.rx.slot) then
      (Fail(l, SubackCountMismatch), false)
    else if b > 2 && b != 0x80 then (Fail(l, SubackInvalidReturnCode), false)
    else
      var coded := Log(l, SubackCode(l.rx.slot.ref, index, b));
      if (index + 1 >= SubscriptionCount(l.rx.slot)) != (l.rx.remainPos + 1 >= l.rx.header.remainingLength) then
        (Fail(coded, AssertionFailed), false)
      else (coded, true)
  }

  /** Events that decide which QoS 2 messages may be delivered. */
  predicate TouchesIds(e: Event)
  {
    (e.Delivered? && e.message.qos == 2) || e.PubrelSeen? || e.SessionCleared?
  }

  /** `after` extends `before` by events that do not touch the id set. */
  predicate Quiet(before: seq<Event>, after: seq<Event>)
  {
    before <= after && forall i :: |before| <= i < |after| ==> !TouchesIds(after[i])
  }

  /** The packet layer itself makes no request callbacks and emits nothing. */
  predicate PacketEvents(before: seq<Event>, after: seq<Event>)
  {
    before <= after && forall i :: |before| <= i < |after| ==> !after[i].Completed? && !after[i].Emitted?
  }

  predicate NoPubrec(before: seq<Event>, after: seq<Event>)
  {
    before <= after && forall i :: |before| <= i < |after| ==> !after[i].PubrecSeen?
  }

  /** A part of a PUBLISH: the framing and the store stay, and failing is the same as setting an error. */
  predicate KeepsFrame(l: Link, m: Link, ok: bool)
  {
    && m.store == l.store && m.ids == l.ids && Quiet(l.log, m.log) && PacketEvents(l.log, m.log)
       && NoPubrec(l.log, m.log)
    && m.rx.header == l.rx.header && m.rx.headerFinished == l.rx.headerFinished
    && m.rx.decoder == l.rx.decoder && (ok ==> m.rx.remainPos == l.rx.remainPos) && m.rx.slot == l.rx.slot
    && (l.rx.error.None? ==> (ok <==> m.rx.error.None?) && m.rx.error != Some(AssertionFailed))
  }

  function PublishIdLength(l: Link): nat { if l.rx.header.qos == 0 then 0 else 2 }

  function Deallocate(env: Env, l: Link): Link
  {
    if !l.rx.ignorePublish && env.onDeallocate then Log(l, Deallocated) else l
  }

  /** Asks the application where to put the next part; an error also deallocates. */
  function Allocate(env: Env, l: Link, request: Event, error: Error): (r: (Link, bool))
    ensures error != AssertionFailed && !TouchesIds(request) && !request.Completed? && !request.Emitted?
            && !request.PubrecSeen?
            ==> KeepsFrame(l, r.0, r.1)
    ensures r.0.store == l.store
  {
    if l.rx.ignorePublish then (l, true)
    else
      var asked := Log(l, request);
      match env.allocate(asked.log)
      case AllocateSuccess => (asked, true)
      case AllocateIgnore => (asked.(rx := asked.rx.(ignorePublish := true)), true)
      case AllocateError => (Deallocate(env, Fail(asked, error)), false)
  }

  function PublishLengthByte(l: Link, b: byte): (r: (Link, bool))
    ensures KeepsFrame(l, r.0, r.1)
  {
    if l.rx.remainPos == 0 then (l.(rx := l.rx.(topicLen := (b as int) * 256)), true)
    else
      var len := (l.rx.topicLen + b) % 65536;
      var read := l.(rx := l.rx.(topicLen := len));
      if len == 0 || len + 2 + PublishIdLength(l) > l.rx.header.remainingLength
      then (Fail(read, PublishInvalidLength), false)
      else (read, true)
  }

  function PublishTopicByte(env: Env, l: Link, b: byte): (r: (Link, bool))
    ensures KeepsFrame(l, r.0, r.1)
  {
    var started :=
      if l.rx.remainPos == 2 && (!env.onPublish || !env.onAllocateTopic || !env.onAllocatePayload)
      then l.(rx := l.rx.(ignorePublish := true)) else l;
    var (placed, ok) :=
      if l.rx.remainPos == 2 && env.onAllocateTopic
      then Allocate(env, started, AllocateTopic(l.rx.topicLen), TopicAllocateFailed) else (started, true);
    if !ok then (placed, false)
    else if placed.rx.ignorePublish then (placed, true)
    else (placed.(rx := placed.rx.(topic := placed.rx.topic + [b])), true)
  }

  function PublishPayloadByte(env: Env, l: Link, b: byte): (r: (Link, bool))
    ensures KeepsFrame(l, r.0, r.1)
  {
    var start := 2 + l.rx.topicLen + PublishIdLength(l);
    var (placed, ok) :=
      if l.rx.remainPos == start && env.onAllocatePayload
      then Allocate(env, l, AllocatePayload(l.rx.topic, Length(l.rx.header.remainingLength, start)),
        PayloadAllocateFailed)
      else (l, true);
    if !ok then (placed, false)
    else if placed.rx.ignorePublish then (placed, true)
    else (placed.(rx := placed.rx.(payload := placed.rx.payload + [b])), true)
  }

  function Length(total: nat, start: nat): nat { if total >= start then total - start else 0 }

  /** The last byte of a PUBLISH is read: queue the acknowledgement, then deliver unless it is a QoS 2
      message whose id is still held. The result of the append is not looked at. */
  function AcknowledgePublish(l: Link): (r: Link)
    ensures l.store.Valid() ==> r.store.Valid()
  {
    var id := l.rx.packetId % 65536;
    if l.rx.header.qos == 0 then l
    else l.(store := l.store.Append(Entry(if l.rx.header.qos == 2 then Pubrec else Puback, Value(id, 0, NoBody))).0)
  }

  function DeliverPublish(env: Env, l: Link): (r: (Link, bool))
    ensures NoPubrec(l.log, r.0.log)
    ensures KeepsFrame(l, r.0.(ids := l.ids, log := l.log), r.1)
  {
    var id := l.rx.packetId % 65536;
    var qos := l.rx.header.qos;
    if qos == 2 && id in l.ids.items then (Deallocate(env, l), true)
    else if qos == 2 && !l.ids.Put(id).1 then (Fail(Deallocate(env, l), PublishIdSetFull), false)
    else
      var held := if qos == 2 then l.(ids := l.ids.Put(id).0) else l;
      if l.rx.ignorePublish || !env.onPublish then (Deallocate(env, held), true)
      else
        var delivered := Log(held, Delivered(Message(l.rx.topic, l.rx.payload, qos, l.rx.header.retain), id));
        if env.accept(delivered.log) then (Deallocate(env, delivered), true)
        else (Fail(Deallocate(env, delivered), MessageCallbackFailed), false)
  }

  function PublishByte(env: Env, l: Link, b: byte): (r: (Link, bool))
    ensures l.store.Valid() ==> r.0.store.Valid()
  {
    var start := 2 + l.rx.topicLen;
    var idLength := PublishIdLength(l);
    var (read, ok) :=
      if l.rx.remainPos < 2 then PublishLengthByte(l, b)
      else if l.rx.remainPos < start then PublishTopicByte(env, l, b)
      else if l.rx.remainPos < start + idLength then
        (l.(rx := l.rx.(packetId := IdByte(l.rx.packetId, l.rx.remainPos == start, b))), true)
      else PublishPayloadByte(env, l, b);
    if !ok then (read, false)
    else if l.rx.remainPos + 1 < l.rx.header.remainingLength then (read, true)
    else DeliverPublish(env, AcknowledgePublish(read))
  }

  /** `decode_remaining` of the current decoder on one byte; false is a decoding error. */
  function BodyByte(env: Env, l: Link, b: byte): (r: (Link, bool))
    requires l.store.Valid()
    ensures r.0.store.Valid()
  {
    var d := l.rx.decoder;
    if HasId(d) && l.rx.remainPos < 2 then
      var read := l.(rx := l.rx.(packetId := IdByte(l.rx.packetId, l.rx.remainPos == 0, b)));
      if l.rx.remainPos == 0 then (read, true)
      else if d.DPubrel? then ReleaseId(read, read.rx.packetId % 65536)
      else PopRequest(read, read.rx.packetId % 65536)
    else if d.DConnack? then ConnackByte(l, b)
    else if d.DPublish? then PublishByte(env, l, b)
    else if d.DSuback? && l.rx.remainPos >= 2 then SubackByte(l, b)
    else (Fail(l, NonzeroRemainingLength), false)
  }

  // ----- packets -----

  /** A complete PUBREC turns its request into a PUBREL at the tail; every other packet asks for the
      callback of its request. The caller of a finished packet resets the decoder. */
  function FinishIfComplete(l: Link): (out: RxOut)
    ensures l.store.Valid() ==> out.link.store.Valid()
  {
    if l.rx.remainPos < l.rx.header.remainingLength then RxOut(l, false)
    else if l.rx.decoder.DPubrec? then
      var (s, ok) := l.store.Append(Entry(Pubrel, l.rx.slot));
      if ok then RxOut(Log(l.(store := s, rx := RESET_RX), PubrecSeen(l.rx.slot.packetId)), false)
      else RxOut(Fail(l, AssertionFailed), false)
    else RxOut(l, true)
  }

  function HeaderByte(l: Link, b: byte): (out: RxOut)
    requires l.store.Valid()
    ensures out.link.store.Valid()
  {
    var h := HeaderStep(l.rx.header, b);
    var read := l.(rx := l.rx.(header := h));
    if h.error.Some? then RxOut(Fail(read, h.error.value), false)
    else if !h.finished then RxOut(read, false)
    else
      match DecoderOf(h.htype)
      case None => RxOut(Fail(read.(rx := read.rx.(headerFinished := true)), ServerSpecific), false)
      case Some(d) =>
        var chosen := read.(rx := read.rx.(headerFinished := true, decoder := d));
        if h.remainingLength < MinLength(d) then RxOut(Fail(chosen, ResponseTooShort), false)
        else
          var (popped, ok) := if HasId(d) || d.DPublish? then (chosen, true) else PopRequest(chosen, 0);
          if !ok then RxOut(popped, false) else FinishIfComplete(popped)
  }

  /** One byte of the incoming stream. */
  function RxStep(env: Env, l: Link, b: byte): (out: RxOut)
    requires l.store.Valid()
    ensures out.link.store.Valid()
  {
    if l.rx.error.Some? then RxOut(l, false)
    else if !l.rx.headerFinished then HeaderByte(l, b)
    else
      var (next, ok) := BodyByte(env, l, b);
      if !ok then RxOut(next, false)
      else FinishIfComplete(next.(rx := next.rx.(remainPos := next.rx.remainPos + 1)))
  }
}
