/** What one received byte can do: the decoder's invariant and its possible effects on the store. */
module ReceiveInvariant {
  import opened Types
  import opened FixedHeader
  import opened PacketStore
  import opened PacketIds
  import opened Wire
  import opened Receive

  /** The slot holds a request of the kind this response answers. */
  predicate SlotMatches(rx: Rx)
  {
    match RequestKind(rx.decoder)
    case None => false
    case Some(k) => WellFormed(Entry(k, rx.slot))
  }

  /** The decoder is past the point where it takes the request out of the store. */
  predicate PastPop(rx: Rx)
  {
    rx.headerFinished && RequestKind(rx.decoder).Some? && (HasId(rx.decoder) ==> rx.remainPos >= 2)
  }

  /** The control packet type (section 2.2.1) that each decoder is for. */
  function TypeOf(d: Decoder): nat
  {
    match d
    case DConnack => 2
    case DPublish => 3
    case DPuback => 4
    case DPubrec => 5
    case DPubrel => 6
    case DPubcomp => 7
    case DSuback => 9
    case DUnsuback => 11
    case DPingresp => 13
  }

  /** Between two bytes. */
  predicate RxInv(rx: Rx)
  {
    if rx.error.Some? then
      rx.slot == ZERO_VALUE || (rx.headerFinished && SlotMatches(rx) && rx.header.htype == TypeOf(rx.decoder))
    else if !rx.headerFinished then
      rx == RESET_RX.(header := rx.header) && rx.header.error.None? && !rx.header.finished
    else
      && rx.header.htype == TypeOf(rx.decoder)
      && rx.remainPos < rx.header.remainingLength && MinLength(rx.decoder) <= rx.header.remainingLength
      && (if PastPop(rx) then SlotMatches(rx) else rx.slot == ZERO_VALUE)
      && (rx.decoder.DConnack? ==> rx.remainPos <= 1)
      && (rx.decoder.DSuback? && rx.remainPos > 2 ==> rx.header.remainingLength - 2 == SubscriptionCount(rx.slot))
  }

  /** A complete packet waits for the callback of its request. */
  predicate RxComplete(rx: Rx)
  {
    && rx.error.None? && rx.headerFinished && rx.header.htype == TypeOf(rx.decoder)
       && rx.remainPos == rx.header.remainingLength
    && !rx.decoder.DPubrec?
    && (if RequestKind(rx.decoder).Some? then SlotMatches(rx) else rx.slot == ZERO_VALUE)
  }

  predicate MarkedWellFormed(s: StoreState)
  {
    s.Valid() && forall i :: 0 <= i < s.pos ==> WellFormed(s.entries[i])
  }

  predicate IsAck(e: Entry)
  {
    (e.kind.Puback? || e.kind.Pubrec? || e.kind.Pubcomp?) && e.value.body.NoBody? && e.value.ref == 0
  }

  /** What a byte does to the store and the slot. */
  datatype Effect =
    | Nothing
    | Take(kind: Kind, id: U16, value: Value)
    | Acknowledge(entry: Entry)
    | Release(id: U16, value: Value)

  predicate HasEffect(l: Link, m: Link, eff: Effect)
    requires l.store.Valid()
  {
    match eff
    case Nothing => m.store == l.store && m.rx.slot == l.rx.slot
    case Take(kind, id, v) =>
      && l.store.PopMarked(kind, id) == (m.store, Some(v)) && l.rx.slot == ZERO_VALUE && m.rx.slot == v
      && m.rx.headerFinished && RequestKind(m.rx.decoder) == Some(kind)
    case Acknowledge(e) =>
      && IsAck(e) && m.store == l.store.Append(e).0 && l.rx.slot == ZERO_VALUE && m.rx.slot == ZERO_VALUE
    case Release(id, v) =>
      && l.store.PopMarked(Publish2, id).1 == Some(v) && l.rx.slot == ZERO_VALUE && m.rx == RESET_RX
      && l.store.PopMarked(Publish2, id).0.Append(Entry(Pubrel, v)) == (m.store, true)
  }

  lemma PopRequestEffect(l: Link, id: U16) returns (eff: Effect)
    requires MarkedWellFormed(l.store) && l.rx.slot == ZERO_VALUE && l.rx.headerFinished && l.rx.error.None?
    ensures var (m, ok) := PopRequest(l, id);
            && HasEffect(l, m, eff) && (eff.Nothing? || eff.Take?)
            && m.ids == l.ids && m.log == l.log
            && m.rx == l.rx.(slot := m.rx.slot, error := m.rx.error, remainPos := m.rx.remainPos)
            && (ok ==> m.rx.remainPos == l.rx.remainPos)
            && (ok <==> m.rx.error.None?)
            && (ok && RequestKind(l.rx.decoder).Some? ==> eff.Take? && SlotMatches(m.rx) && m.store.Queueable())
            && (ok && RequestKind(l.rx.decoder).None? ==> eff.Nothing?)
            && (!ok ==> eff.Nothing? && m.rx.slot == ZERO_VALUE && m.rx.error == Some(NoCorrespondingRequest))
            && (RequestKind(l.rx.decoder).Some? && eff.Take? ==> eff.id == id)
  {
    hide WellFormed;
    match RequestKind(l.rx.decoder) {
      case None => eff := Nothing;
      case Some(kind) =>
        PopMarkedKeepsUnsent(l.store, kind, id);
        match l.store.PopMarked(kind, id) {
          case (s, Some(v)) => eff := Take(kind, id, v);
          case (s, None) => eff := Nothing;
        }
    }
  }

  /** The decoder's step invariant. */
  predicate StepGood(l: Link, out: RxOut, eff: Effect)
    requires l.store.Valid()
  {
    && HasEffect(l, out.link, eff)
    && (if out.call then RxComplete(out.link.rx) else RxInv(out.link.rx))
    && (out.link.rx.error == Some(AssertionFailed) ==> AcceptsLongConnack(l.rx))
    && l.log <= out.link.log
    && (forall i :: |l.log| <= i < |out.link.log| && out.link.log[i].PubrecSeen? ==>
          eff.Release? && out.link.log[i].packetId == eff.value.packetId)
  }

  /** A CONNACK that declares more than two bytes, at its return code. */
  predicate AcceptsLongConnack(rx: Rx)
  {
    rx.headerFinished && rx.decoder.DConnack? && rx.remainPos == 1 && rx.header.remainingLength != 2
  }

  lemma HeaderByteGood(l: Link, b: byte) returns (eff: Effect)
    requires RxInv(l.rx) && l.rx.error.None? && !l.rx.headerFinished && MarkedWellFormed(l.store)
    ensures StepGood(l, HeaderByte(l, b), eff)
  {
    hide WellFormed;
    var h := HeaderStep(l.rx.header, b);
    eff := Nothing;
    HeaderErrors(l.rx.header, b);
    if h.error.None? && h.finished && DecoderOf(h.htype).Some? {
      var d := DecoderOf(h.htype).value;
      if h.remainingLength >= MinLength(d) && !HasId(d) && !d.DPublish? {
        var chosen := l.(rx := l.rx.(header := h, headerFinished := true, decoder := d));
        eff := PopRequestEffect(chosen, 0);
      }
    }
  }

  lemma HeaderErrors(h: Header, b: byte)
    requires h.error.None?
    ensures HeaderStep(h, b).error != Some(AssertionFailed)
  {
  }

  lemma PublishByteGood(env: Env, l: Link, b: byte) returns (eff: Effect)
    requires RxInv(l.rx) && l.rx.error.None? && l.rx.headerFinished && l.rx.decoder.DPublish? && l.store.Valid()
    ensures var (m, ok) := PublishByte(env, l, b);
            && HasEffect(l, m, eff) && (eff.Nothing? || eff.Acknowledge?)
            && (ok <==> m.rx.error.None?) && m.rx.error != Some(AssertionFailed)
            && m.rx.header == l.rx.header && m.rx.headerFinished && m.rx.decoder.DPublish?
            && (ok ==> m.rx.remainPos == l.rx.remainPos) && NoPubrec(l.log, m.log)
  {
    hide WellFormed, PublishLengthByte, PublishTopicByte, PublishPayloadByte, DeliverPublish;
    var read :=
      if l.rx.remainPos < 2 then PublishLengthByte(l, b)
      else if l.rx.remainPos < 2 + l.rx.topicLen then PublishTopicByte(env, l, b)
      else if l.rx.remainPos < 2 + l.rx.topicLen + PublishIdLength(l) then
        (l.(rx := l.rx.(packetId := IdByte(l.rx.packetId, l.rx.remainPos == 2 + l.rx.topicLen, b))), true)
      else PublishPayloadByte(env, l, b);
    if read.1 && l.rx.remainPos + 1 >= l.rx.header.remainingLength && l.rx.header.qos != 0 {
      eff := Acknowledge(Entry(if l.rx.header.qos == 2 then Pubrec else Puback, Value(read.0.rx.packetId % 65536, 0,
        NoBody)));
      assert AcknowledgePublish(read.0).store == l.store.Append(eff.entry).0;
    } else {
      eff := Nothing;
    }
  }

  lemma IdByteGood(env: Env, l: Link, b: byte) returns (eff: Effect)
    requires RxInv(l.rx) && l.rx.error.None? && l.rx.headerFinished && HasId(l.rx.decoder) && l.rx.remainPos < 2
    requires MarkedWellFormed(l.store)
    ensures StepGood(l, RxStep(env, l, b), eff)
  {
    hide WellFormed;
    var read := l.(rx := l.rx.(packetId := IdByte(l.rx.packetId, l.rx.remainPos == 0, b)));
    eff := Nothing;
    if l.rx.remainPos == 1 {
      var id := read.rx.packetId % 65536;
      if l.rx.decoder.DPubrel? {
        eff := Acknowledge(Entry(Pubcomp, Value(id, 0, NoBody)));
      } else {
        eff := PopRequestEffect(read, id);
        if l.rx.decoder.DPubrec? && l.rx.header.remainingLength == 2 && eff.Take? {
          eff := Release(id, eff.value);
        }
      }
    }
  }

  lemma BodyByteGood(env: Env, l: Link, b: byte) returns (eff: Effect)
    requires RxInv(l.rx) && l.rx.error.None? && l.rx.headerFinished
    requires HasId(l.rx.decoder) ==> l.rx.remainPos >= 2
    requires l.store.Valid()
    ensures StepGood(l, RxStep(env, l, b), eff)
  {
    hide WellFormed, RxStep, StepGood;
    if l.rx.decoder.DPublish? {
      eff := PublishStepGood(env, l, b);
    } else {
      eff := Nothing;
      if l.rx.decoder.DConnack? { ConnackByteGood(env, l, b); }
      else if l.rx.decoder.DSuback? { SubackByteGood(env, l, b); }
      else { ExtraByteFails(env, l, b); }
    }
  }

  lemma PublishStepGood(env: Env, l: Link, b: byte) returns (eff: Effect)
    requires RxInv(l.rx) && l.rx.error.None? && l.rx.headerFinished && l.rx.decoder.DPublish? && l.store.Valid()
    ensures StepGood(l, RxStep(env, l, b), eff)
  {
    hide WellFormed, PublishByte, PopRequest, ReleaseId, ConnackByte, SubackByte;
    eff := PublishByteGood(env, l, b);
  }

  lemma ConnackByteGood(env: Env, l: Link, b: byte)
    requires RxInv(l.rx) && l.rx.error.None? && l.rx.headerFinished && l.store.Valid() && l.rx.decoder.DConnack?
    ensures StepGood(l, RxStep(env, l, b), Nothing)
  {
    hide WellFormed, PublishByte, PopRequest, ReleaseId, SubackByte;
  }

  lemma SubackByteGood(env: Env, l: Link, b: byte)
    requires RxInv(l.rx) && l.rx.error.None? && l.rx.headerFinished && l.store.Valid() && l.rx.decoder.DSuback?
    requires l.rx.remainPos >= 2
    ensures StepGood(l, RxStep(env, l, b), Nothing)
  {
    hide WellFormed, PublishByte, PopRequest, ReleaseId, ConnackByte;
  }

  lemma ExtraByteFails(env: Env, l: Link, b: byte)
    requires RxInv(l.rx) && l.rx.error.None? && l.rx.headerFinished && l.store.Valid()
    requires !l.rx.decoder.DConnack? && !l.rx.decoder.DSuback? && !l.rx.decoder.DPublish?
    requires HasId(l.rx.decoder) ==> l.rx.remainPos >= 2
    ensures StepGood(l, RxStep(env, l, b), Nothing)
  {
    hide WellFormed, PublishByte, PopRequest, ReleaseId, ConnackByte, SubackByte, FinishIfComplete;
  }

  /** Every byte keeps the decoder's invariant and has one of the four effects; the decoder asserts only
      on an accepting CONNACK that is too long, so in particular the PUBREL append never fails. */
  lemma RxStepGood(env: Env, l: Link, b: byte) returns (eff: Effect)
    requires RxInv(l.rx) && l.rx.error.None? && MarkedWellFormed(l.store)
    ensures StepGood(l, RxStep(env, l, b), eff)
  {
    hide WellFormed, HeaderByte, BodyByte, HasEffect, StepGood;
    if !l.rx.headerFinished {
      eff := HeaderByteGood(l, b);
      assert RxStep(env, l, b) == HeaderByte(l, b);
    } else if HasId(l.rx.decoder) && l.rx.remainPos < 2 {
      eff := IdByteGood(env, l, b);
    } else {
      eff := BodyByteGood(env, l, b);
    }
  }

  /** The decoder aborts exactly on the accepting return code of a CONNACK that declares more than two bytes. */
  lemma WhenDecoderAborts(env: Env, l: Link, b: byte)
    requires RxInv(l.rx) && l.rx.error.None? && MarkedWellFormed(l.store)
    ensures RxStep(env, l, b).link.rx.error == Some(AssertionFailed) <==> AcceptsLongConnack(l.rx) && b == 0
  {
    hide WellFormed, HeaderByte, PublishByte, HasEffect;
    var eff := RxStepGood(env, l, b);
  }

  // ----- the id set -----

  /** `at` is where the delivery is in the log, or its length when the message is ignored. */
  datatype IdChange = SameIds | Hold(id: U16, at: nat) | LetGo(id: U16)

  /** How a byte changes the id set, and the events that go with the change. */
  predicate HasIdChange(l: Link, m: Link, change: IdChange)
  {
    PacketEvents(l.log, m.log) &&
    match change
    case SameIds => m.ids == l.ids && Quiet(l.log, m.log)
    case Hold(id, at) =>
      && l.ids.Put(id) == (m.ids, true) && l.log <= m.log && |l.log| <= at
      && forall i :: |l.log| <= i < |m.log| ==>
           if i == at then m.log[i].Delivered? && m.log[i].packetId == id && m.log[i].message.qos == 2
           else !TouchesIds(m.log[i])
    case LetGo(id) => m.ids == l.ids.Remove(id) && m.log == l.log + [PubrelSeen(id)]
  }

  lemma DeliverIdChange(env: Env, l: Link) returns (change: IdChange)
    ensures HasIdChange(l, DeliverPublish(env, l).0, change) && !change.LetGo?
  {
    var id := l.rx.packetId % 65536;
    var m := DeliverPublish(env, l).0;
    change := if l.rx.header.qos == 2 && l.ids.Put(id).1
      then Hold(id, if l.rx.ignorePublish || !env.onPublish then |m.log| else |l.log|) else SameIds;
  }

  lemma IdChangeAfterQuiet(l: Link, k: Link, m: Link, change: IdChange)
    requires k.ids == l.ids && Quiet(l.log, k.log) && PacketEvents(l.log, k.log) && HasIdChange(k, m, change)
             && !change.LetGo?
    ensures HasIdChange(l, m, change)
  {
    assert l.log <= m.log;
    assert forall i :: |l.log| <= i < |k.log| ==> k.log[i] == m.log[i];
  }

  lemma PublishIdChange(env: Env, l: Link, b: byte) returns (change: IdChange)
    ensures HasIdChange(l, PublishByte(env, l, b).0, change)
  {
    hide PublishLengthByte, PublishTopicByte, PublishPayloadByte, DeliverPublish;
    var start := 2 + l.rx.topicLen;
    var (read, ok) :=
      if l.rx.remainPos < 2 then PublishLengthByte(l, b)
      else if l.rx.remainPos < start then PublishTopicByte(env, l, b)
      else if l.rx.remainPos < start + PublishIdLength(l) then
        (l.(rx := l.rx.(packetId := IdByte(l.rx.packetId, l.rx.remainPos == start, b))), true)
      else PublishPayloadByte(env, l, b);
    assert Quiet(l.log, read.log) && read.ids == l.ids;
    if ok && l.rx.remainPos + 1 >= l.rx.header.remainingLength {
      var acked := AcknowledgePublish(read);
      var m := DeliverPublish(env, acked).0;
      change := DeliverIdChange(env, acked);
      assert acked.ids == l.ids && acked.log == read.log && PublishByte(env, l, b).0 == m;
      IdChangeAfterQuiet(l, acked, m, change);
    } else {
      change := SameIds;
    }
  }

  /** Every byte changes at most one id: a QoS 2 delivery holds an id that was free, PUBREL lets go. */
  lemma RxStepIdChange(env: Env, l: Link, b: byte) returns (change: IdChange)
    requires RxInv(l.rx) && l.rx.error.None? && l.store.Valid()
    ensures HasIdChange(l, RxStep(env, l, b).link, change)
  {
    hide PublishByte, WellFormed, HeaderByte, FinishIfComplete;
    if !l.rx.headerFinished {
      change := SameIds;
      HeaderIsQuiet(l, b);
    } else if l.rx.decoder.DPublish? {
      change := PublishIdChange(env, l, b);
      var m := PublishByte(env, l, b).0;
      PublishKeepsDecoder(env, l, b);
      FinishIsQuiet(m.(rx := m.rx.(remainPos := m.rx.remainPos + 1)));
    } else {
      var m := BodyByte(env, l, b).0;
      FinishIsQuiet(m.(rx := m.rx.(remainPos := m.rx.remainPos + 1)));
      if HasId(l.rx.decoder) && l.rx.remainPos == 1 && l.rx.decoder.DPubrel? {
        change := LetGo(IdByte(l.rx.packetId, false, b) % 65536);
      } else {
        change := SameIds;
      }
    }
  }

  lemma PublishKeepsDecoder(env: Env, l: Link, b: byte)
    ensures PublishByte(env, l, b).0.rx.decoder == l.rx.decoder
  {
    hide PublishLengthByte, PublishTopicByte, PublishPayloadByte, DeliverPublish;
  }

  lemma HeaderIsQuiet(l: Link, b: byte)
    requires l.store.Valid()
    ensures HeaderByte(l, b).link.ids == l.ids && Quiet(l.log, HeaderByte(l, b).link.log)
    ensures PacketEvents(l.log, HeaderByte(l, b).link.log)
  {
    hide HeaderStep, WellFormed;
  }

  lemma FinishIsQuiet(l: Link)
    ensures FinishIfComplete(l).link.ids == l.ids && Quiet(l.log, FinishIfComplete(l).link.log)
    ensures PacketEvents(l.log, FinishIfComplete(l).link.log)
    ensures !l.rx.decoder.DPubrec? ==> FinishIfComplete(l).link == l
  {
  }

  lemma IdChangeKeepsValid(l: Link, m: Link, change: IdChange)
    requires l.ids.Valid() && HasIdChange(l, m, change)
    ensures m.ids.Valid() && m.ids.capacity == l.ids.capacity
  {
    match change {
      case SameIds =>
      case Hold(id, _) => PutKeepsDistinct(l.ids, id);
      case LetGo(id) => RemoveTakesOne(l.ids, id);
    }
  }
}
