/** The decoder as the C library runs it: fields updated in place, topic and payload written in chunks. */
module RxBuffers {
  import opened Types
  import opened FixedHeader
  import opened PacketStore
  import opened PacketIds
  import opened Receive
  import opened Rounds
  import opened TxBuffers

  class RxBuffer {
    const header: HeaderDecoder
    var headerFinished: bool
    var decoder: Decoder
    var remainPos: nat
    var topicLen: nat
    var packetId: nat
    var slot: Value
    var topic: seq<byte>
    var payload: seq<byte>
    var ignorePublish: bool
    var error: Option<Error>

    function Model(): Rx
      reads this, header
    {
      Rx(header.Model(), headerFinished, decoder, if error.Some? then 0 else remainPos, topicLen, packetId, slot, topic,
         payload, ignorePublish, error)
    }

    function LinkTo(store: Store, ids: IdArray, app: App): Link
      requires store.Valid() && ids.count <= ids.items.Length
      reads this, header, store, store.entries, ids, ids.items, app
    {
      Link(Model(), store.Model(), ids.Model(), app.log)
    }

    constructor ()
      ensures Model() == RESET_RX && fresh(header)
    {
      header := new HeaderDecoder();
      headerFinished, decoder, remainPos, topicLen, packetId := false, DPublish, 0, 0, 0;
      slot, topic, payload, ignorePublish, error := ZERO_VALUE, [], [], false, None;
    }

    method Reset()
      modifies this, header
      ensures Model() == RESET_RX
    {
      header.Reset();
      headerFinished, decoder, remainPos, topicLen, packetId := false, DPublish, 0, 0, 0;
      slot, topic, payload, ignorePublish, error := ZERO_VALUE, [], [], false, None;
    }

    method Fail(e: Error)
      modifies this`error
      ensures Model() == FailRx(old(Model()), e)
    {
      error := Some(e);
    }

    /** Takes the request of the response out of the store. */
    method PopRequest(store: Store, ids: IdArray, app: App, id: U16) returns (ok: bool)
      requires store.Valid() && ids.Valid() && error.None?
      modifies this`error, this`slot, store`count, store`pos, store.entries
      ensures store.Valid() && (LinkTo(store, ids, app), ok) == Receive.PopRequest(old(LinkTo(store, ids, app)), id)
      ensures error.Some? == !ok
    {
      match RequestKind(decoder) {
        case None => return true;
        case Some(kind) =>
          var value := store.PopMarkedBy(kind, id);
          if value.Some? {
            slot := value.value;
            return true;
          }
          slot := ZERO_VALUE;
          Fail(NoCorrespondingRequest);
          return false;
      }
    }

    method ReleaseId(store: Store, ids: IdArray, app: App, id: U16) returns (ok: bool)
      requires store.Valid() && ids.Valid() && error.None?
      modifies this`error, store`count, store.entries, ids, ids.items, app`log
      ensures store.Valid() && ids.Valid()
      ensures (LinkTo(store, ids, app), ok) == Receive.ReleaseId(old(LinkTo(store, ids, app)), id)
      ensures error.Some? == !ok
    {
      var _ := ids.Remove(id);
      app.Note(PubrelSeen(id));
      ok := store.Append(Pubcomp, Value(id, 0, NoBody));
      if !ok { Fail(PubrelIdSetFull); }
    }

    /** One of the two bytes of a packet id; the second one looks the request up or releases the id. */
    method IdBytes(store: Store, ids: IdArray, app: App, b: byte) returns (ok: bool)
      requires store.Valid() && ids.Valid() && error.None? && headerFinished && HasId(decoder) && remainPos < 2
      modifies this`error, this`slot, this`packetId, store`count, store`pos, store.entries, ids, ids.items, app`log
      ensures store.Valid() && ids.Valid()
      ensures (LinkTo(store, ids, app), ok) == BodyByte(app.env, old(LinkTo(store, ids, app)), b)
      ensures error.Some? == !ok
    {
      hide Receive.PopRequest, Receive.ReleaseId;
      packetId := IdByte(packetId, remainPos == 0, b);
      if remainPos == 0 { return true; }
      if decoder.DPubrel? {
        ok := ReleaseId(store, ids, app, packetId % 65536);
      } else {
        ok := PopRequest(store, ids, app, packetId % 65536);
      }
    }

    method ConnackBytes(app: App, store: Store, ids: IdArray, b: byte) returns (ok: bool)
      requires store.Valid() && ids.Valid() && error.None?
      modifies this`error, app`log
      ensures (LinkTo(store, ids, app), ok) == ConnackByte(old(LinkTo(store, ids, app)), b) && error.Some? == !ok
    {
      if remainPos == 0 {
        if b >= 2 {
          Fail(ConnackInvalidFlags);
          return false;
        }
        app.Note(SessionPresent(slot.ref, b == 1));
        return true;
      } else if remainPos == 1 {
        if b > 5 {
          Fail(ConnackInvalidReturnCode);
          return false;
        } else if b != 0 {
          Fail(ConnackRefused(b));
          return false;
        } else if remainPos + 1 != header.remainingLength {
          Fail(AssertionFailed);
          return false;
        }
        return true;
      }
      Fail(ConnackInvalidLength);
      return false;
    }

    method SubackBytes(app: App, store: Store, ids: IdArray, b: byte) returns (ok: bool)
      requires store.Valid() && ids.Valid() && error.None? && remainPos >= 2
      modifies this`error, app`log
      ensures (LinkTo(store, ids, app), ok) == SubackByte(old(LinkTo(store, ids, app)), b) && error.Some? == !ok
    {
      var index := remainPos - 2;
      if index == 0 && header.remainingLength - 2 != SubscriptionCount(slot) {
        Fail(SubackCountMismatch);
        return false;
      }
      if b > 2 && b != 0x80 {
        Fail(SubackInvalidReturnCode);
        return false;
      }
      app.Note(SubackCode(slot.ref, index, b));
      var last := index + 1 >= SubscriptionCount(slot);
      if last != (remainPos + 1 >= header.remainingLength) {
        Fail(AssertionFailed);
        return false;
      }
      return true;
    }

    // ----- PUBLISH -----

    method Deallocate(app: App)
      modifies app`log
      ensures app.log == if !ignorePublish && app.env.onDeallocate then old(app.log) + [Deallocated] else old(app.log)
    {
      if !ignorePublish && app.env.onDeallocate { app.Note(Deallocated); }
    }

    /** Asks for a destination. */
    method Allocate(app: App, store: Store, ids: IdArray, request: Event, e: Error) returns (ok: bool)
      requires store.Valid() && ids.Valid() && error.None?
      modifies this`error, this`ignorePublish, app`log
      ensures (LinkTo(store, ids, app), ok) == Receive.Allocate(app.env, old(LinkTo(store, ids, app)), request, e)
      ensures error.Some? == !ok
    {
      if ignorePublish { return true; }
      var answer := app.AskAllocate(request);
      match answer {
        case AllocateSuccess => return true;
        case AllocateIgnore =>
          ignorePublish := true;
          return true;
        case AllocateError =>
          Fail(e);
          Deallocate(app);
          return false;
      }
    }

    /** The first byte of the topic; without all three callbacks the message is ignored. */
    method StartTopic(app: App, store: Store, ids: IdArray) returns (ok: bool)
      requires store.Valid() && ids.Valid() && error.None? && remainPos == 2
      modifies this`error, this`ignorePublish, app`log
      ensures (LinkTo(store, ids, app), ok) == StartPart(app.env, old(LinkTo(store, ids, app))) && error.Some? == !ok
    {
      hide Receive.Allocate, KeepsFrame, Quiet, PacketEvents, NoPubrec;
      ok := true;
      if !app.env.onPublish || !app.env.onAllocateTopic || !app.env.onAllocatePayload { ignorePublish := true; }
      if app.env.onAllocateTopic {
        ok := Allocate(app, store, ids, AllocateTopic(topicLen), TopicAllocateFailed);
      }
    }

    /** The first byte of the topic or the payload. */
    method StartChunk(app: App, store: Store, ids: IdArray) returns (ok: bool)
      requires store.Valid() && ids.Valid() && error.None?
      modifies this`error, this`ignorePublish, app`log
      ensures (LinkTo(store, ids, app), ok) == StartPart(app.env, old(LinkTo(store, ids, app))) && error.Some? == !ok
    {
      hide Receive.Allocate, KeepsFrame, Quiet, PacketEvents, NoPubrec;
      ok := true;
      var start := 2 + topicLen + (if header.qos == 0 then 0 else 2);
      if remainPos == 2 {
        ok := StartTopic(app, store, ids);
      } else if remainPos == start && app.env.onAllocatePayload {
        ok := Allocate(app, store, ids, AllocatePayload(topic, Length(header.remainingLength, start)),
          PayloadAllocateFailed);
      }
    }

    /** The topic and the payload: asks at the first byte, then writes as much as belongs to the part. */
    method WriteChunk(app: App, store: Store, ids: IdArray, buf: array<byte>, from: nat, to: nat)
      returns (ok: bool, cnt: nat)
      requires store.Valid() && ids.Valid() && error.None? && from < to <= buf.Length
      requires AtPart(LinkTo(store, ids, app)) && Sized(Model())
      modifies this`error, this`ignorePublish, this`topic, this`payload, app`log
      ensures error.Some? == !ok && cnt == PartLength(old(LinkTo(store, ids, app)), to - from) && 0 < cnt <= to - from
      ensures var (m, started) := StartPart(app.env, old(LinkTo(store, ids, app)));
              started == ok && LinkTo(store, ids, app) == if ok then WritePart(m, buf[from..from + cnt]) else m
    {
      StartPartKeeps(app.env, LinkTo(store, ids, app));
      hide StartPart, Quiet, PacketEvents, NoPubrec;
      var inTopic := remainPos < 2 + topicLen;
      var end := if inTopic then 2 + topicLen else header.remainingLength;
      cnt := Min(end - remainPos, to - from);
      ok := StartChunk(app, store, ids);
      if !ok || ignorePublish { return; }
      if inTopic {
        topic := topic + buf[from..from + cnt];
      } else {
        payload := payload + buf[from..from + cnt];
      }
    }

    /** Queues PUBACK or PUBREC; whether it fits is not looked at. */
    method Acknowledge(app: App, store: Store, ids: IdArray)
      requires store.Valid() && ids.Valid() && error.None?
      modifies store`count, store.entries
      ensures store.Valid() && LinkTo(store, ids, app) == AcknowledgePublish(old(LinkTo(store, ids, app)))
    {
      if header.qos != 0 {
        var _ := store.Append(if header.qos == 2 then Pubrec else Puback, Value(packetId % 65536, 0, NoBody));
      }
    }

    /** The last callbacks of a message. */
    method Conclude(app: App, store: Store, ids: IdArray) returns (ok: bool)
      requires store.Valid() && ids.Valid() && error.None?
      modifies this`error, app`log
      ensures (LinkTo(store, ids, app), ok) == Conclusion(app.env, old(LinkTo(store, ids, app))) && error.Some? == !ok
    {
      ok := true;
      if !ignorePublish && app.env.onPublish {
        ok := app.Ask(Delivered(Message(topic, payload, header.qos, header.retain), packetId % 65536));
      }
      Deallocate(app);
      if !ok { Fail(MessageCallbackFailed); }
    }

    /** Delivers the message unless it is a QoS 2 message whose id is held. */
    method Deliver(app: App, store: Store, ids: IdArray) returns (ok: bool)
      requires store.Valid() && ids.Valid() && error.None?
      modifies this`error, app`log, ids, ids.items
      ensures ids.Valid() && error.Some? == !ok
      ensures (LinkTo(store, ids, app), ok) == DeliverPublish(app.env, old(LinkTo(store, ids, app)))
    {
      DeliveryParts(app.env, LinkTo(store, ids, app));
      hide DeliverPublish, Conclusion;
      if header.qos == 2 {
        var held := ids.Contains(packetId % 65536);
        if held {
          Deallocate(app);
          return true;
        }
        var put := ids.Put(packetId % 65536);
        if !put {
          Deallocate(app);
          Fail(PublishIdSetFull);
          return false;
        }
      }
      ok := Conclude(app, store, ids);
    }
  
    predicate InId()
      reads this, header
    {
      2 + topicLen <= remainPos < 2 + topicLen + (if header.qos == 0 then 0 else 2)
    }

    /** A byte of the topic length or of the packet id. */
    method PublishNumberByte(store: Store, ids: IdArray, app: App, b: byte) returns (ok: bool)
      requires store.Valid() && ids.Valid() && error.None? && (remainPos < 2 || InId())
      modifies this`topicLen, this`packetId, this`error
      ensures error.Some? == !ok
      ensures var before := old(LinkTo(store, ids, app));
              (LinkTo(store, ids, app), ok) == NumberByte(before, b)
    {
      hide KeepsFrame, Quiet, PacketEvents, NoPubrec;
      if remainPos >= 2 {
        packetId := IdByte(packetId, remainPos == 2 + topicLen, b);
        return true;
      }
      if remainPos == 0 {
        topicLen := (b as int) * 256;
        return true;
      }
      topicLen := (topicLen + b) % 65536;
      if topicLen == 0 || topicLen + 2 + (if header.qos == 0 then 0 else 2) > header.remainingLength {
        Fail(PublishInvalidLength);
        return false;
      }
      return true;
    }

    /** After the last byte of the packet: acknowledge and deliver. */
    method FinishPublish(store: Store, ids: IdArray, app: App, cnt: nat) returns (ok: bool)
      requires store.Valid() && ids.Valid() && error.None?
      modifies this`error, store`count, store.entries, ids, ids.items, app`log
      ensures store.Valid() && ids.Valid() && error.Some? == !ok
      ensures (LinkTo(store, ids, app), ok) == EndOfPublish(app.env, old(LinkTo(store, ids, app)), cnt)
    {
      hide DeliverPublish, AcknowledgePublish;
      if header.remainingLength >= remainPos + 1 + cnt { return true; }
      Acknowledge(app, store, ids);
      ok := Deliver(app, store, ids);
    }

    method PublishNumber(store: Store, ids: IdArray, app: App, b: byte) returns (ok: bool)
      requires store.Valid() && ids.Valid() && error.None? && headerFinished && decoder.DPublish?
      requires !AtPart(LinkTo(store, ids, app))
      modifies this`topicLen, this`packetId, this`error, store`count, store.entries, ids, ids.items, app`log
      ensures store.Valid() && ids.Valid() && error.Some? == !ok
      ensures (LinkTo(store, ids, app), ok) == PublishByte(app.env, old(LinkTo(store, ids, app)), b)
    {
      NumberUnfolds(app.env, LinkTo(store, ids, app), b);
      hide PublishByte, NumberByte, EndOfPublish;
      ok := PublishNumberByte(store, ids, app, b);
      if ok { ok := FinishPublish(store, ids, app, 1); }
    }

    method PublishChunk(store: Store, ids: IdArray, app: App, buf: array<byte>, from: nat, to: nat)
      returns (ok: bool, cnt: nat)
      requires store.Valid() && ids.Valid() && error.None? && from < to <= buf.Length
      requires AtPart(LinkTo(store, ids, app)) && Sized(Model())
      modifies this`error, this`ignorePublish, this`topic, this`payload, store`count, store.entries, ids, ids.items,
               app`log
      ensures store.Valid() && ids.Valid() && error.Some? == !ok
      ensures cnt == PartLength(old(LinkTo(store, ids, app)), to - from) && 0 < cnt <= to - from
      ensures (LinkTo(store, ids, app), ok) == PartChunk(app.env, old(LinkTo(store, ids, app)), buf[from..from + cnt])
    {
      ghost var before := LinkTo(store, ids, app);
      hide StartPart, WritePart, AtPart, PartLength, EndOfPublish, PartChunk;
      ok, cnt := WriteChunk(app, store, ids, buf, from, to);
      ChunkUnfolds(app.env, before, buf[from..from + cnt]);
      if ok { ok := FinishPublish(store, ids, app, cnt); }
    }

    /** `rx_buffer_decode_publish`: a length or id byte, or a chunk; the last one delivers. */
    method PublishBytes(store: Store, ids: IdArray, app: App, buf: array<byte>, from: nat, to: nat)
      returns (ok: bool, cnt: nat)
      requires store.Valid() && ids.Valid() && error.None? && from < to <= buf.Length
      requires headerFinished && decoder.DPublish? && Sized(Model())
      modifies this, store`count, store.entries, ids, ids.items, app`log
      ensures store.Valid() && ids.Valid() && 0 < cnt <= to - from
      ensures error.Some? == !ok && unchanged(`headerFinished, `remainPos)
      ensures var before := old(LinkTo(store, ids, app));
              if AtPart(before)
              then cnt == PartLength(before, to - from)
                   && (LinkTo(store, ids, app), ok) == PartChunk(app.env, before, buf[from..from + cnt])
              else cnt == 1 && (LinkTo(store, ids, app), ok) == PublishByte(app.env, before, buf[from])
    {
      hide PublishByte, PartChunk, Sized, PartLength;
      if remainPos < 2 || InId() {
        cnt := 1;
        ok := PublishNumber(store, ids, app, buf[from]);
      } else {
        ok, cnt := PublishChunk(store, ids, app, buf, from, to);
      }
    }

    // ----- packets -----

    /** `rx_buffer_is_packet_finished` and `rx_buffer_finish_packet`, up to the callback. */
    method CheckFinished(store: Store, ids: IdArray, app: App) returns (call: bool)
      requires store.Valid() && ids.Valid() && error.None? && headerFinished
      modifies this, header, store`count, store.entries, app`log
      ensures store.Valid()
      ensures RxOut(LinkTo(store, ids, app), call) == FinishIfComplete(old(LinkTo(store, ids, app)))
    {
      if remainPos < header.remainingLength { return false; }
      if !decoder.DPubrec? { return true; }
      var id := slot.packetId;
      var ok := store.Append(Pubrel, slot);
      if !ok {
        Fail(AssertionFailed);
        return false;
      }
      Reset();
      app.Note(PubrecSeen(id));
      return false;
    }

    /** A byte of the fixed header; the last one chooses the decoder. */
    method ReadHeader(store: Store, ids: IdArray, app: App, b: byte) returns (call: bool)
      requires store.Valid() && ids.Valid() && error.None? && !headerFinished
      modifies this, header, store`count, store`pos, store.entries, app`log
      ensures store.Valid()
      ensures RxOut(LinkTo(store, ids, app), call) == HeaderByte(old(LinkTo(store, ids, app)), b)
    {
      hide HeaderStep, DecoderOf, FinishIfComplete, Receive.PopRequest;
      header.Decode(b);
      if header.error.Some? {
        Fail(header.error.value);
        return false;
      }
      if !header.finished { return false; }
      headerFinished := true;
      var chosen := DecoderOf(header.htype);
      if chosen.None? {
        Fail(ServerSpecific);
        return false;
      }
      decoder := chosen.value;
      if header.remainingLength < MinLength(decoder) {
        Fail(ResponseTooShort);
        return false;
      }
      if decoder.DConnack? || decoder.DPingresp? {
        var ok := PopRequest(store, ids, app, 0);
        if !ok { return false; }
      }
      call := CheckFinished(store, ids, app);
    }

    /** The decoders that read one byte at a time. */
    method ReadByte(store: Store, ids: IdArray, app: App, b: byte) returns (ok: bool)
      requires store.Valid() && ids.Valid() && error.None? && !decoder.DPublish? && headerFinished
      modifies this`error, this`slot, this`packetId, store`count, store`pos, store.entries, ids, ids.items, app`log
      ensures store.Valid() && ids.Valid() && error.Some? == !ok
      ensures (LinkTo(store, ids, app), ok) == BodyByte(app.env, old(LinkTo(store, ids, app)), b)
    {
      hide Receive.PopRequest, Receive.ReleaseId, ConnackByte, SubackByte, PublishByte;
      if HasId(decoder) && remainPos < 2 {
        ok := IdBytes(store, ids, app, b);
      } else if decoder.DConnack? {
        ok := ConnackBytes(app, store, ids, b);
      } else if decoder.DSuback? {
        ok := SubackBytes(app, store, ids, b);
      } else {
        Fail(NonzeroRemainingLength);
        ok := false;
      }
    }

    /** `decode_remaining` of the packet's decoder on the bytes at hand. */
    method ReadBody(store: Store, ids: IdArray, app: App, buf: array<byte>, from: nat, to: nat)
      returns (ok: bool, cnt: nat)
      requires store.Valid() && ids.Valid() && error.None? && headerFinished && from < to <= buf.Length
               && Sized(Model())
      modifies this, store`count, store`pos, store.entries, ids, ids.items, app`log
      ensures store.Valid() && ids.Valid() && error.Some? == !ok && unchanged(`headerFinished, `remainPos)
      ensures 0 < cnt <= to - from
      ensures var before := old(LinkTo(store, ids, app));
              if AtPart(before)
              then cnt == PartLength(before, to - from)
                   && (LinkTo(store, ids, app), ok) == PartChunk(app.env, before, buf[from..from + cnt])
              else cnt == 1 && (LinkTo(store, ids, app), ok) == BodyByte(app.env, before, buf[from])
    {
      hide BodyByte, PublishByte, PartChunk, Sized, PartLength;
      if decoder.DPublish? {
        PublishIsBody(app.env, LinkTo(store, ids, app), buf[from]);
        ok, cnt := PublishBytes(store, ids, app, buf, from, to);
      } else {
        cnt := 1;
        ok := ReadByte(store, ids, app, buf[from]);
      }
    }

    /** One round of the decoder's loop. `call` asks for the callback of the request in the slot. */
    method DecodeRound(store: Store, ids: IdArray, app: App, buf: array<byte>, from: nat, to: nat)
      returns (cnt: nat, call: bool)
      requires store.Valid() && ids.Valid() && error.None? && from < to <= buf.Length && Sized(Model())
      modifies this, header, store`count, store`pos, store.entries, ids, ids.items, app`log
      ensures store.Valid() && ids.Valid() && 0 < cnt <= to - from
      ensures (RxOut(LinkTo(store, ids, app), call), cnt)
              == Rounds.Round(app.env, old(LinkTo(store, ids, app)), buf[from..to])
    {
      hide BodyByte, PartChunk, FinishIfComplete, HeaderByte, AtPart, PartLength, Sized;
      ghost var bytes := buf[from..to];
      cnt := 1;
      if !headerFinished {
        call := ReadHeader(store, ids, app, buf[from]);
      } else {
        var ok;
        PartOf(buf[..], from, to);
        ok, cnt := ReadBody(store, ids, app, buf, from, to);
        if !ok { return cnt, false; }
        remainPos := remainPos + cnt;
        call := CheckFinished(store, ids, app);
      }
    }
  }

  lemma PartOf(s: seq<byte>, from: nat, to: nat)
    requires from <= to <= |s|
    ensures forall n :: 0 <= n <= to - from ==> s[from..to][..n] == s[from..from + n]
  {
  }

  function EndOfPublish(env: Env, l: Link, cnt: nat): (Link, bool)
  {
    if l.rx.remainPos + cnt < l.rx.header.remainingLength then (l, true)
    else DeliverPublish(env, AcknowledgePublish(l))
  }

  function NumberByte(l: Link, b: byte): (Link, bool)
  {
    if l.rx.remainPos < 2 then PublishLengthByte(l, b)
    else (l.(rx := l.rx.(packetId := IdByte(l.rx.packetId, l.rx.remainPos == 2 + l.rx.topicLen, b))), true)
  }

  lemma NumberUnfolds(env: Env, l: Link, b: byte)
    requires l.rx.headerFinished && l.rx.decoder.DPublish? && !AtPart(l)
    ensures var (m, ok) := NumberByte(l, b);
            PublishByte(env, l, b) == if ok then EndOfPublish(env, m, 1) else (m, false)
  {
    hide DeliverPublish, AcknowledgePublish;
  }

  lemma ChunkUnfolds(env: Env, l: Link, data: seq<byte>)
    ensures var (m, ok) := StartPart(env, l);
            PartChunk(env, l, data) == if ok then EndOfPublish(env, WritePart(m, data), |data|) else (m, false)
  {
    hide DeliverPublish, AcknowledgePublish, Quiet, PacketEvents, NoPubrec;
    StartPartKeeps(env, l);
  }

  function Conclusion(env: Env, l: Link): (Link, bool)
  {
    if l.rx.ignorePublish || !env.onPublish then (Receive.Deallocate(env, l), true)
    else
      var m := Message(l.rx.topic, l.rx.payload, l.rx.header.qos, l.rx.header.retain);
      var delivered := Log(l, Delivered(m, l.rx.packetId % 65536));
      if env.accept(delivered.log) then (Receive.Deallocate(env, delivered), true)
      else (Fail(Receive.Deallocate(env, delivered), MessageCallbackFailed), false)
  }

  lemma DeliveryParts(env: Env, l: Link)
    ensures var id := l.rx.packetId % 65536;
            DeliverPublish(env, l) ==
            if l.rx.header.qos != 2 then Conclusion(env, l)
            else if id in l.ids.items then (Receive.Deallocate(env, l), true)
            else if !l.ids.Put(id).1 then (Fail(Receive.Deallocate(env, l), PublishIdSetFull), false)
            else Conclusion(env, l.(ids := l.ids.Put(id).0))
  {
    hide KeepsFrame, Quiet, PacketEvents, NoPubrec;
  }
}
