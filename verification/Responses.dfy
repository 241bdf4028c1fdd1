/** Every packet a server sends, byte by literal byte, and what it does to the client. The bytes are those of
    MQTT 3.1.1; nothing here looks at the client's tables. */
module Responses {
  import opened Types
  import opened FixedHeader
  import opened PacketStore
  import opened PacketIds
  import opened Wire
  import opened Transmit
  import opened Receive
  import opened ReceiveInvariant
  import opened Rounds
  import opened Session
  import opened SessionInvariant
  import opened Decoding

  // ----- the request that a response answers -----

  /** The first of the sent entries of this kind with this id. */
  predicate FirstSent(s: StoreState, i: nat, kind: Kind, id: nat)
  {
    && i < s.pos <= |s.entries| && s.entries[i].kind == kind && s.entries[i].value.packetId == id
    && forall j :: 0 <= j < i ==> !(s.entries[j].kind == kind && s.entries[j].value.packetId == id)
  }

  predicate NoneSent(s: StoreState, kind: Kind, id: nat)
  {
    s.pos <= |s.entries| && forall j :: 0 <= j < s.pos ==>
        !(s.entries[j].kind == kind && s.entries[j].value.packetId == id)
  }

  /** The store without this sent entry. */
  function Taken(s: StoreState, i: nat): StoreState
    requires i < s.pos <= |s.entries|
  {
    s.(entries := s.entries[..i] + s.entries[i + 1..], pos := s.pos - 1)
  }

  lemma PopsFirst(s: StoreState, i: nat, kind: Kind, id: U16)
    requires s.Valid()
    ensures FirstSent(s, i, kind, id) ==> s.PopMarked(kind, id) == (Taken(s, i), Some(s.entries[i].value))
    ensures NoneSent(s, kind, id) ==> s.PopMarked(kind, id) == (s, None)
  {
    if FirstSent(s, i, kind, id) { assert s.FindFrom(0, kind, id) == i; }
  }

  // ----- packets of one call -----

  /** All bytes but the last only moved the decoder; the last one decides. */
  lemma LastDecides(env: Env, c: Client, bytes: seq<byte>, l: Link)
    requires CanDecode(c) && bytes != [] && LinkOf(c).store.Valid() && l.store.Valid() && l.rx.error.None?
    requires RxMany(env, LinkOf(c), bytes[..|bytes| - 1]) == RxOut(l, false)
    ensures c.main.Valid() && c.conn.Valid()
    ensures DecodeBytes(env, c, bytes) == AfterRound(env, c, RxStep(env, l, bytes[|bytes| - 1]))
  {
    hide Inv, RxStep, RxMany, FinishPacket, DecodeByte;
    var n := |bytes| - 1;
    assert bytes == bytes[..n] + [bytes[n]];
    SilentBytes(env, c, bytes[..n]);
    DecodeTwice(env, c, bytes[..n], [bytes[n]]);
    DecodingFacts(c);
    LastByteOf(env, c, l, bytes[n]);
    OneByte(env, WithLink(c, l), bytes[n]);
  }

  /** Bytes that lead to no callback only change the link, whether the last one fails or not. */
  lemma {:induction false} QuietBytes(env: Env, c: Client, bytes: seq<byte>)
    requires CanDecode(c) && LinkOf(c).store.Valid() && bytes != [] && !RxMany(env, LinkOf(c), bytes).call
    ensures DecodeBytes(env, c, bytes) == WithLink(c, RxMany(env, LinkOf(c), bytes).link)
    decreases |bytes|
  {
    hide Inv, RxStep, FinishPacket, DecodeByte, CanDecode;
    DecodingFacts(c);
    LastByteOf(env, c, LinkOf(c), bytes[0]);
    SameLink(c);
    ByteStaysDecodable(env, c, bytes[0]);
    var out := RxStep(env, LinkOf(c), bytes[0]);
    if out.link.rx.error.None? && !out.call && bytes[1..] != [] {
      QuietBytes(env, WithLink(c, out.link), bytes[1..]);
    }
  }

  lemma SameLink(c: Client)
    ensures WithLink(c, LinkOf(c)) == c
  {
  }

  /** The decoder behind the fixed header of a packet of this type and length. */
  function Behind(d: Decoder, htype: nat, length: nat, pos: nat, id: nat): Rx
  {
    RESET_RX.(header := Header(htype, false, 0, false, length, 2, None, 128, length, true), headerFinished := true,
              decoder := d, remainPos := pos, packetId := id)
  }

  lemma ThreeBytes(env: Env, l: Link, first: byte, d: Decoder, hi: byte)
    requires l.store.Valid() && l.rx == RESET_RX && HasId(d)
    requires first as int == 16 * TypeOf(d) + (if d.DPubrel? then 2 else 0) && !d.DSuback?
    ensures RxMany(env, l, [first, 2, hi]) == RxOut(l.(rx := Behind(d, TypeOf(d), 2, 1, (hi as int) * 256)), false)
  {
    hide StoreState.PopMarked;
    FirstTwo(env, l, first, d, 2);
    RxManyAppend(env, l, [first, 2], hi);
    assert [first, 2] + [hi] == [first, 2, hi];
  }

  lemma FirstTwo(env: Env, l: Link, first: byte, d: Decoder, length: byte)
    requires l.store.Valid() && l.rx == RESET_RX && (HasId(d) || d.DConnack?) && MinLength(d) <= length < 128
    requires first as int == 16 * TypeOf(d) + (if d.DPubrel? then 2 else 0)
    ensures d.DConnack? || RxMany(env, l, [first, length]) == RxOut(l.(rx := Behind(d, TypeOf(d), length, 0, 0)), false)
    ensures !d.DConnack? || RxMany(env, l, [first]) ==
              RxOut(l.(rx := RESET_RX.(header := Header(2, false, 0, false, 0, 1, None, 1, 0, false))), false)
  {
    hide StoreState.PopMarked;
    var h := Header(TypeOf(d), false, 0, false, 0, 1, None, 1, 0, false);
    assert RxStep(env, l, first) == RxOut(l.(rx := RESET_RX.(header := h)), false);
    RxManyAppend(env, l, [first], length);
    assert [first] + [length] == [first, length] && [first][1..] == [];
  }

  // ----- a connected client -----

  /** Connected, and between two packets. */
  predicate AtRest(c: Client) { Inv(c) && IsConnected(c) && c.rx == RESET_RX }

  lemma RestFacts(c: Client)
    requires AtRest(c)
    ensures CanDecode(c) && !c.closed && c.main.Valid() && c.conn.Valid() && c.rxStore.Main? && c.current.Main?
    ensures LinkOf(c) == Link(RESET_RX, c.main, c.ids, c.log) && c.ids.Valid()
    ensures forall i :: 0 <= i < |c.main.entries| ==> WellFormed(c.main.entries[i]) && !c.main.entries[i].kind.Connect?
  {
    hide WellFormed, TxValid;
    forall i | 0 <= i < |c.main.entries| ensures WellFormed(c.main.entries[i]) && !c.main.entries[i].kind.Connect? {
      assert c.main.entries[i] in c.main.entries;
    }
  }

  /** The request was called back once, with success, and is gone; the decoder is at rest again, unless the
      callback refused. Nothing else changed. */
  predicate CalledBack(env: Env, c: Client, d: Client, i: nat, refused: Error)
    requires i < c.main.pos <= |c.main.entries|
  {
    var e := c.main.entries[i];
    var told := c.log + [Completed(e.kind, e.value, true)];
    && d == c.(main := Taken(c.main, i), log := told, rx := d.rx, audit := d.audit)
    && (if env.accept(told) then d.rx == RESET_RX && d.audit == c.audit else d.rx.error == Some(refused))
  }

  /** There is no such request: the decoder fails, and nothing else changes. */
  predicate Unexpected(c: Client, d: Client)
  {
    d == c.(rx := d.rx) && d.rx.error == Some(NoCorrespondingRequest)
  }

  lemma SecondIdByte(env: Env, l: Link, d: Decoder, hi: byte, lo: byte, i: nat)
    requires l.store.Valid() && l.rx == Behind(d, TypeOf(d), 2, 1, (hi as int) * 256)
    requires d.DPuback? || d.DPubcomp? || d.DUnsuback?
    ensures var kind := if d.DPuback? then Publish1 else if d.DPubcomp? then Pubrel else Unsubscribe;
            var id := (hi as int) * 256 + lo;
            var out := RxStep(env, l, lo);
            && (FirstSent(l.store, i, kind, id) ==>
                  out == RxOut(l.(store := Taken(l.store, i),
                                  rx := Behind(d, TypeOf(d), 2, 2, id).(slot := l.store.entries[i].value)), true))
            && (NoneSent(l.store, kind, id) ==>
                  !out.call && out.link == l.(rx := out.link.rx) && out.link.rx.error == Some(NoCorrespondingRequest))
  {
    hide StoreState.PopMarked, FirstSent, NoneSent;
    var kind := if d.DPuback? then Publish1 else if d.DPubcomp? then Pubrel else Unsubscribe;
    var id := (hi as int) * 256 + lo;
    assert id % 65536 == id && IdByte((hi as int) * 256, false, lo) == id;
    PopsFirst(l.store, i, kind, id);
  }

  lemma FinishesRequest(env: Env, c: Client, i: nat, rx: Rx, log: seq<Event>)
    requires AtRest(c) && i < c.main.pos && c.main.entries[i].kind in {Publish1, Pubrel, Unsubscribe, Subscribe}
    requires rx.slot == c.main.entries[i].value && rx.error.None?
    requires SlotKind(rx) == c.main.entries[i].kind
    ensures c.main.Valid()
    ensures var e := c.main.entries[i];
            var next := c.(main := Taken(c.main, i), rx := rx, log := log);
            var told := log + [Completed(e.kind, e.value, true)];
            next.main.Valid() &&
            var d := FinishPacket(env, next);
            && d == c.(main := Taken(c.main, i), log := told, rx := d.rx, audit := d.audit)
            && (if env.accept(told) then d.rx == RESET_RX && d.audit == c.audit
                else d.rx.error == Some(CallbackError(rx.decoder)))
  {
    hide Inv, TxValid, ValidPublish, ValidSubscribe, Common;
    RestFacts(c);
  }

  /** A response with nothing but an id: PUBACK, PUBCOMP or UNSUBACK. */
  lemma IdResponse(env: Env, c: Client, d: Decoder, hi: byte, lo: byte, i: nat)
    requires AtRest(c) && (d.DPuback? || d.DPubcomp? || d.DUnsuback?)
    ensures CanDecode(c)
    ensures var kind := if d.DPuback? then Publish1 else if d.DPubcomp? then Pubrel else Unsubscribe;
            var refused := if d.DUnsuback? then CallbackUnsuback else CallbackPublish;
            var id := (hi as int) * 256 + lo;
            var after := DecodeBytes(env, c, [(16 * TypeOf(d)) as byte, 2, hi, lo]);
            && (FirstSent(c.main, i, kind, id) ==> CalledBack(env, c, after, i, refused))
            && (NoneSent(c.main, kind, id) ==> Unexpected(c, after))
  {
    hide Inv, IsConnected, RxStep, RxMany, FinishPacket, DecodeBytes, CanDecode, WellFormed;
    RestFacts(c);
    var first := (16 * TypeOf(d)) as byte;
    ThreeBytes(env, LinkOf(c), first, d, hi);
    var l := LinkOf(c).(rx := Behind(d, TypeOf(d), 2, 1, (hi as int) * 256));
    var bytes := [first, 2, hi, lo];
    assert bytes[..3] == [first, 2, hi];
    LastDecides(env, c, bytes, l);
    SecondIdByte(env, l, d, hi, lo, i);
    var kind := if d.DPuback? then Publish1 else if d.DPubcomp? then Pubrel else Unsubscribe;
    if FirstSent(c.main, i, kind, (hi as int) * 256 + lo) {
      FinishesRequest(env, c, i, RxStep(env, l, lo).link.rx, c.log);
    }
  }

  /** PUBACK (section 3.4) completes the PUBLISH of QoS 1 with its id. */
  lemma PubackArrives(env: Env, c: Client, hi: byte, lo: byte, i: nat)
    requires AtRest(c)
    ensures CanDecode(c)
    ensures var d := DecodeBytes(env, c, [0x40, 2, hi, lo]);
            && (FirstSent(c.main, i, Publish1, (hi as int) * 256 + lo) ==> CalledBack(env, c, d, i, CallbackPublish))
            && (NoneSent(c.main, Publish1, (hi as int) * 256 + lo) ==> Unexpected(c, d))
  {
    hide AtRest, DecodeBytes, CanDecode, FirstSent, NoneSent, CalledBack, Unexpected;
    IdResponse(env, c, DPuback, hi, lo, i);
    SentIsThere(c.main, i, Publish1, (hi as int) * 256 + lo);
  }

  lemma SentIsThere(s: StoreState, i: nat, kind: Kind, id: nat)
    ensures FirstSent(s, i, kind, id) ==> i < s.pos <= |s.entries|
  {
  }

  /** PUBCOMP (section 3.7) completes the message whose PUBREL has its id. */
  lemma PubcompArrives(env: Env, c: Client, hi: byte, lo: byte, i: nat)
    requires AtRest(c)
    ensures CanDecode(c)
    ensures var d := DecodeBytes(env, c, [0x70, 2, hi, lo]);
            && (FirstSent(c.main, i, Pubrel, (hi as int) * 256 + lo) ==> CalledBack(env, c, d, i, CallbackPublish))
            && (NoneSent(c.main, Pubrel, (hi as int) * 256 + lo) ==> Unexpected(c, d))
  {
    hide AtRest, DecodeBytes, CanDecode, FirstSent, NoneSent, CalledBack, Unexpected;
    IdResponse(env, c, DPubcomp, hi, lo, i);
    SentIsThere(c.main, i, Pubrel, (hi as int) * 256 + lo);
  }

  /** UNSUBACK (section 3.11) completes the UNSUBSCRIBE with its id. */
  lemma UnsubackArrives(env: Env, c: Client, hi: byte, lo: byte, i: nat)
    requires AtRest(c)
    ensures CanDecode(c)
    ensures var d := DecodeBytes(env, c, [0xb0, 2, hi, lo]);
            && (FirstSent(c.main, i, Unsubscribe, (hi as int) * 256 + lo) ==>
                 CalledBack(env, c, d, i, CallbackUnsuback))
            && (NoneSent(c.main, Unsubscribe, (hi as int) * 256 + lo) ==> Unexpected(c, d))
  {
    hide AtRest, DecodeBytes, CanDecode, FirstSent, NoneSent, CalledBack, Unexpected;
    IdResponse(env, c, DUnsuback, hi, lo, i);
    SentIsThere(c.main, i, Unsubscribe, (hi as int) * 256 + lo);
  }

  /** PUBREC (section 3.5) turns the PUBLISH of QoS 2 with its id into a PUBREL at the tail, with the same value,
      and calls nothing back. */
  lemma PubrecArrives(env: Env, c: Client, hi: byte, lo: byte, i: nat)
    requires AtRest(c)
    ensures CanDecode(c)
    ensures var id := (hi as int) * 256 + lo;
            var d := DecodeBytes(env, c, [0x50, 2, hi, lo]);
            && (FirstSent(c.main, i, Publish2, id) ==>
                  var s := Taken(c.main, i);
                  d == c.(main := s.(entries := s.entries + [Entry(Pubrel, c.main.entries[i].value)]),
                          log := c.log + [PubrecSeen(id)]))
            && (NoneSent(c.main, Publish2, id) ==> Unexpected(c, d))
  {
    hide Inv, IsConnected, RxStep, RxMany, FinishPacket, DecodeBytes, CanDecode, WellFormed;
    RestFacts(c);
    ThreeBytes(env, LinkOf(c), 0x50, DPubrec, hi);
    var l := LinkOf(c).(rx := Behind(DPubrec, 5, 2, 1, (hi as int) * 256));
    var bytes := [0x50, 2, hi, lo];
    assert bytes[..3] == [0x50, 2, hi];
    LastDecides(env, c, bytes, l);
    PubrecId(env, l, hi, lo, i);
    SentIsThere(c.main, i, Publish2, (hi as int) * 256 + lo);
  }

  lemma PubrecId(env: Env, l: Link, hi: byte, lo: byte, i: nat)
    requires l.store.Valid() && l.rx == Behind(DPubrec, 5, 2, 1, (hi as int) * 256)
    ensures var id := (hi as int) * 256 + lo;
            var out := RxStep(env, l, lo);
            && (FirstSent(l.store, i, Publish2, id) ==>
                  var s := Taken(l.store, i);
                  out == RxOut(l.(store := s.(entries := s.entries + [Entry(Pubrel, l.store.entries[i].value)]),
                                  rx := RESET_RX, log := l.log + [PubrecSeen(id)]), false))
            && (NoneSent(l.store, Publish2, id) ==>
                  !out.call && out.link == l.(rx := out.link.rx) && out.link.rx.error == Some(NoCorrespondingRequest))
  {
    hide StoreState.PopMarked;
    var id := (hi as int) * 256 + lo;
    assert id % 65536 == id && IdByte((hi as int) * 256, false, lo) == id;
    PopsFirst(l.store, i, Publish2, id);
  }

  /** PUBREL (section 3.6) lets the id go, if it is held, and queues PUBCOMP with the id; a full store fails. */
  lemma PubrelArrives(env: Env, c: Client, hi: byte, lo: byte)
    requires AtRest(c)
    ensures CanDecode(c)
    ensures var id := (hi as int) * 256 + lo;
            var d := DecodeBytes(env, c, [0x62, 2, hi, lo]);
            && d.log == c.log + [PubrelSeen(id)] && d.ids.capacity == c.ids.capacity && Distinct(d.ids.items)
            && (forall x :: x in d.ids.items <==> x in c.ids.items && x != id)
            && (if |c.main.entries| < c.main.capacity then
                  d == c.(main := c.main.(entries := c.main.entries + [Entry(Pubcomp, Value(id, 0, NoBody))]),
                          ids := d.ids, log := d.log)
                else d == c.(ids := d.ids, log := d.log, rx := d.rx) && d.rx.error == Some(PubrelIdSetFull))
  {
    hide Inv, IsConnected, RxStep, RxMany, DecodeBytes, CanDecode, WellFormed, CallSlot;
    RestFacts(c);
    ThreeBytes(env, LinkOf(c), 0x62, DPubrel, hi);
    var l := LinkOf(c).(rx := Behind(DPubrel, 6, 2, 1, (hi as int) * 256));
    var bytes := [0x62, 2, hi, lo];
    assert bytes[..3] == [0x62, 2, hi];
    LastDecides(env, c, bytes, l);
    PubrelId(env, l, hi, lo);
    NoSlotNoCall(env, WithLink(c, RxStep(env, l, lo).link));
  }

  lemma NoSlotNoCall(env: Env, c: Client)
    requires c.main.Valid()
    ensures c.rx.slot.body.NoBody? ==> CallSlot(env, c) == (c, true)
  {
  }

  lemma PubrelId(env: Env, l: Link, hi: byte, lo: byte)
    requires l.store.Valid() && l.ids.Valid() && l.rx == Behind(DPubrel, 6, 2, 1, (hi as int) * 256)
    ensures var id := (hi as int) * 256 + lo;
            var out := RxStep(env, l, lo);
            && out.link.log == l.log + [PubrelSeen(id)] && out.link.ids.capacity == l.ids.capacity
            && Distinct(out.link.ids.items) && (forall x :: x in out.link.ids.items <==> x in l.ids.items && x != id)
            && (if |l.store.entries| < l.store.capacity then
                  out == RxOut(l.(store :=
                    l.store.(entries := l.store.entries + [Entry(Pubcomp, Value(id, 0, NoBody))]),
                                  ids := out.link.ids, log := out.link.log, rx := Behind(DPubrel, 6, 2, 2, id)), true)
                else
                  !out.call && out.link == l.(ids := out.link.ids, log := out.link.log, rx := out.link.rx)
                  && out.link.rx.error == Some(PubrelIdSetFull))
  {
    hide Distinct, PacketIds.Without;
    var id := (hi as int) * 256 + lo;
    assert id % 65536 == id && IdByte((hi as int) * 256, false, lo) == id;
    WithoutDistinct(l.ids.items, id);
  }

  /** PINGRESP (section 3.13) takes out the PINGREQ and calls nothing back. */
  lemma PingrespArrives(env: Env, c: Client, i: nat)
    requires AtRest(c)
    ensures CanDecode(c)
    ensures var d := DecodeBytes(env, c, [0xd0, 0]);
            && (FirstSent(c.main, i, Pingreq, 0) ==> d == c.(main := Taken(c.main, i)))
            && (NoneSent(c.main, Pingreq, 0) ==> Unexpected(c, d))
  {
    hide Inv, IsConnected, RxStep, RxMany, DecodeBytes, CanDecode, CallSlot;
    RestFacts(c);
    var l := LinkOf(c).(rx := RESET_RX.(header := Header(13, false, 0, false, 0, 1, None, 1, 0, false)));
    PingHeader(env, LinkOf(c));
    var bytes := [0xd0, 0];
    assert bytes[..1] == [0xd0];
    LastDecides(env, c, bytes, l);
    PingLength(env, l, i);
    SentIsThere(c.main, i, Pingreq, 0);
    NoSlotNoCall(env, WithLink(c, RxStep(env, l, 0).link));
  }

  lemma PingHeader(env: Env, l: Link)
    requires l.store.Valid() && l.rx == RESET_RX
    ensures RxMany(env, l, [0xd0])
            == RxOut(l.(rx := RESET_RX.(header := Header(13, false, 0, false, 0, 1, None, 1, 0, false))), false)
  {
    assert [0xd0 as byte][1..] == [];
  }

  lemma PingLength(env: Env, l: Link, i: nat)
    requires l.store.Valid() && forall j :: 0 <= j < |l.store.entries| ==> WellFormed(l.store.entries[j])
    requires l.rx == RESET_RX.(header := Header(13, false, 0, false, 0, 1, None, 1, 0, false))
    ensures var out := RxStep(env, l, 0);
            && (FirstSent(l.store, i, Pingreq, 0) ==>
                  out.call && out.link == l.(store := Taken(l.store, i), rx := out.link.rx)
                  && out.link.rx.slot.body.NoBody? && out.link.rx.error.None?)
            && (NoneSent(l.store, Pingreq, 0) ==>
                  !out.call && out.link == l.(rx := out.link.rx) && out.link.rx.error == Some(NoCorrespondingRequest))
  {
    hide StoreState.PopMarked, ValidPublish, ValidSubscribe, ValidConnect;
    PopsFirst(l.store, i, Pingreq, 0);
  }

  // ----- SUBACK -----

  /** The return codes told to the application, each at its index. */
  function Codes(ref: nat, codes: seq<byte>): (r: seq<Event>)
    ensures |r| == |codes| && forall k :: 0 <= k < |codes| ==> r[k] == SubackCode(ref, k, codes[k])
  {
    seq(|codes|, k requires 0 <= k < |codes| => SubackCode(ref, k, codes[k]))
  }

  predicate ValidCode(b: byte) { b == 0 || b == 1 || b == 2 || b == 0x80 }

  predicate ValidCodes(codes: seq<byte>) { forall k :: 0 <= k < |codes| ==> ValidCode(codes[k]) }

  /** The decoder in front of return code `k`. */
  function AtCode(g: Header, id: nat, v: Value, k: nat): Rx
  {
    RESET_RX.(header := g, headerFinished := true, decoder := DSuback, remainPos := 2 + k, packetId := id, slot := v)
  }

  lemma {:induction false} HeaderRun(env: Env, l: Link, h: Header, bytes: seq<byte>)
    requires l.store.Valid() && l.rx == RESET_RX.(header := h) && h.error.None? && !h.finished && h.bytesRead > 0
    requires h.htype == 9
    requires var g := HeaderSteps(h, bytes); g.error.None? && g.finished && g.htype == 9 && g.remainingLength >= 3
    ensures bytes != []
    ensures RxMany(env, l, bytes)
            == RxOut(l.(rx := RESET_RX.(header := HeaderSteps(h, bytes), headerFinished := true, decoder := DSuback)),
              false)
    decreases |bytes|
  {
    hide StoreState.PopMarked;
    assert bytes != [];
    var g := HeaderStep(h, bytes[0]);
    if g.error.Some? {
      ErrorSticks(g, bytes[1..]);
      assert false;
    } else if g.finished {
      if bytes[1..] != [] {
        FinishedRejects(g, bytes[1..]);
        assert false;
      }
    } else {
      var next := l.(rx := RESET_RX.(header := g));
      assert RxStep(env, l, bytes[0]) == RxOut(next, false);
      HeaderRun(env, next, g, bytes[1..]);
    }
  }

  /** The fixed header and the id of a SUBACK take the SUBSCRIBE out. */
  lemma SubackHead(env: Env, l: Link, n: nat, hi: byte, lo: byte, i: nat) returns (g: Header)
    requires l.store.Valid() && l.rx == RESET_RX && 0 < n && n + 2 <= MAX_REMAINING_LENGTH
    ensures g.remainingLength == n + 2
    ensures var id := (hi as int) * 256 + lo;
            var out := RxMany(env, l, [0x90] + RemainingLength(n + 2) + [hi, lo]);
            && (FirstSent(l.store, i, Subscribe, id) ==>
                  out == RxOut(l.(store := Taken(l.store, i), rx := AtCode(g, id, l.store.entries[i].value, 0)), false))
            && (NoneSent(l.store, Subscribe, id) ==>
                  !out.call && out.link == l.(rx := out.link.rx) && out.link.rx.error == Some(NoCorrespondingRequest))
  {
    hide StoreState.PopMarked, RemainingLength, HeaderSteps, FirstSent, NoneSent, RxMany;
    var h := Header(9, false, 0, false, 0, 1, None, 1, 0, false);
    var first := l.(rx := RESET_RX.(header := h));
    var length := RemainingLength(n + 2);
    SubackType(env, l);
    RemainingLengthRoundTrip(h, n + 2);
    g := HeaderSteps(h, length);
    HeaderRun(env, first, h, length);
    RxManyJoin(env, l, [0x90], length);
    var body := first.(rx := RESET_RX.(header := g, headerFinished := true, decoder := DSuback));
    RxManyAppend(env, l, [0x90] + length, hi);
    var id := (hi as int) * 256 + lo;
    var half := body.(rx := body.rx.(remainPos := 1, packetId := (hi as int) * 256));
    assert RxStep(env, body, hi) == RxOut(half, false);
    RxManyAppend(env, l, [0x90] + length + [hi], lo);
    assert [0x90] + length + [hi] + [lo] == [0x90] + length + [hi, lo];
    assert id % 65536 == id && IdByte((hi as int) * 256, false, lo) == id;
    PopsFirst(l.store, i, Subscribe, id);
  }

  lemma SubackType(env: Env, l: Link)
    requires l.store.Valid() && l.rx == RESET_RX
    ensures RxMany(env, l, [0x90])
            == RxOut(l.(rx := RESET_RX.(header := Header(9, false, 0, false, 0, 1, None, 1, 0, false))), false)
  {
    assert [0x90 as byte][1..] == [];
  }

  lemma {:induction false} RxManyJoin(env: Env, l: Link, a: seq<byte>, b: seq<byte>)
    requires l.store.Valid() && a != [] && b != [] && !RxMany(env, l, a).call && RxMany(env, l, a).link.rx.error.None?
    ensures RxMany(env, l, a + b) == RxMany(env, RxMany(env, l, a).link, b)
    decreases |a|
  {
    hide RxStep;
    assert (a + b)[0] == a[0] && (a + b)[1..] == a[1..] + b;
    if a[1..] == [] { assert a[1..] + b == b; } else { RxManyJoin(env, RxStep(env, l, a[0]).link, a[1..], b); }
  }

  lemma OneCode(env: Env, l: Link, g: Header, id: nat, v: Value, codes: seq<byte>, k: nat)
    requires l.store.Valid() && v.body.SubscribeBody? && |codes| == |v.body.subscriptions|
             && g.remainingLength == |codes| + 2
    requires k < |codes| && l.rx == AtCode(g, id, v, k)
    ensures var out := RxStep(env, l, codes[k]);
            if !ValidCode(codes[k]) then
              !out.call && out.link == l.(rx := out.link.rx) && out.link.rx.error == Some(SubackInvalidReturnCode)
            else
              out == RxOut(l.(rx := AtCode(g, id, v, k + 1), log := l.log + [SubackCode(v.ref, k, codes[k])]),
                           k + 1 == |codes|)
  {
    hide StoreState.PopMarked;
  }

  /** The codes up to `k` are told one after the other. */
  lemma {:induction false} SomeCodes(env: Env, l: Link, g: Header, id: nat, v: Value, codes: seq<byte>, k: nat)
    requires l.store.Valid() && v.body.SubscribeBody? && |codes| == |v.body.subscriptions|
             && g.remainingLength == |codes| + 2
    requires k < |codes| && ValidCodes(codes[..k]) && l.rx == AtCode(g, id, v, 0)
    ensures RxMany(env, l, codes[..k])
            == RxOut(l.(rx := AtCode(g, id, v, k), log := l.log + Codes(v.ref, codes[..k])), false)
  {
    hide RxStep;
    if k == 0 {
      assert l.log + Codes(v.ref, codes[..0]) == l.log;
    } else {
      assert codes[..k] == codes[..k - 1] + [codes[k - 1]] && codes[..k][..k - 1] == codes[..k - 1];
      assert forall j :: 0 <= j < k - 1 ==> codes[..k - 1][j] == codes[..k][j];
      SomeCodes(env, l, g, id, v, codes, k - 1);
      RxManyAppend(env, l, codes[..k - 1], codes[k - 1]);
      var m := l.(rx := AtCode(g, id, v, k - 1), log := l.log + Codes(v.ref, codes[..k - 1]));
      assert ValidCode(codes[..k][k - 1]);
      OneCode(env, m, g, id, v, codes, k - 1);
      assert Codes(v.ref, codes[..k]) == Codes(v.ref, codes[..k - 1]) + [SubackCode(v.ref, k - 1, codes[k - 1])];
    }
  }

  function SubackBytes(hi: byte, lo: byte, codes: seq<byte>): seq<byte>
  {
    [0x90] + RemainingLength(2 + |codes|) + [hi, lo] + codes
  }

  /** The codes of a SUBACK whose SUBSCRIBE is in the slot. */
  lemma CodesArrive(env: Env, l: Link, g: Header, id: nat, v: Value, codes: seq<byte>, k: nat)
    requires l.store.Valid() && v.body.SubscribeBody? && l.rx == AtCode(g, id, v, 0) && g.remainingLength == |codes| + 2
    requires k < |codes|
    ensures |codes| != |v.body.subscriptions| ==>
              var out := RxStep(env, l, codes[0]);
              !out.call && out.link == l.(rx := out.link.rx) && out.link.rx.error == Some(SubackCountMismatch)
    ensures |codes| == |v.body.subscriptions| && ValidCodes(codes[..k]) ==>
              RxMany(env, l, codes[..k])
                == RxOut(l.(rx := AtCode(g, id, v, k), log := l.log + Codes(v.ref, codes[..k])), false)
  {
    hide StoreState.PopMarked, RxMany;
    if |codes| == |v.body.subscriptions| && ValidCodes(codes[..k]) { SomeCodes(env, l, g, id, v, codes, k); }
  }

  /** What a SUBACK does, with the SUBSCRIBE at place `i` of the store: with another number of codes than
      subscriptions the decoder fails; with a code that is none it fails there; otherwise every code is told
      at its index and the request is called back once. */
  predicate Subscribed(env: Env, c: Client, d: Client, i: nat, codes: seq<byte>, k: nat)
    requires i < c.main.pos <= |c.main.entries| && c.main.entries[i].value.body.SubscribeBody?
  {
    var v := c.main.entries[i].value;
    var told := c.log + Codes(v.ref, codes);
    var done := told + [Completed(Subscribe, v, true)];
    && (|codes| != |v.body.subscriptions| ==>
          d == c.(main := Taken(c.main, i), rx := d.rx) && d.rx.error == Some(SubackCountMismatch))
    && (|codes| == |v.body.subscriptions| && ValidCodes(codes) ==>
          && d == c.(main := Taken(c.main, i), log := done, rx := d.rx, audit := d.audit)
          && (if env.accept(done) then d.rx == RESET_RX && d.audit == c.audit else d.rx.error == Some(CallbackSuback)))
    && (|codes| == |v.body.subscriptions| && k < |codes| && ValidCodes(codes[..k]) && !ValidCode(codes[k]) ==>
          && d == c.(main := Taken(c.main, i), log := c.log + Codes(v.ref, codes[..k]), rx := d.rx)
          && d.rx.error == Some(SubackInvalidReturnCode))
  }

  lemma SubackMismatch(env: Env, c: Client, head: seq<byte>, l: Link, g: Header, id: nat, v: Value, codes: seq<byte>,
    i: nat)
    requires AtRest(c) && codes != [] && g.remainingLength == |codes| + 2 && head != []
    requires i < c.main.pos && v == c.main.entries[i].value && v.body.SubscribeBody?
    requires LinkOf(c).store.Valid() && l.store.Valid() && RxMany(env, LinkOf(c), head) == RxOut(l, false)
    requires l == LinkOf(c).(store := Taken(c.main, i), rx := AtCode(g, id, v, 0))
    ensures CanDecode(c)
    ensures |codes| != |v.body.subscriptions| ==>
              var d := DecodeBytes(env, c, head + codes);
              d == c.(main := Taken(c.main, i), rx := d.rx) && d.rx.error == Some(SubackCountMismatch)
  {
    hide AtRest, RxStep, RxMany, DecodeBytes, CanDecode, Codes;
    RestFacts(c);
    if |codes| != |v.body.subscriptions| {
      CodesArrive(env, l, g, id, v, codes, 0);
      NoError(g, id, v, 0);
      RxManyAppend(env, LinkOf(c), head, codes[0]);
      QuietBytes(env, c, head + [codes[0]]);
      DecodeTwice(env, c, head + [codes[0]], codes[1..]);
      assert head + [codes[0]] + codes[1..] == head + codes;
    }
  }

  lemma NoError(g: Header, id: nat, v: Value, k: nat)
    ensures AtCode(g, id, v, k).error.None?
  {
  }

  lemma CodesSoFar(env: Env, c: Client, head: seq<byte>, l: Link, g: Header, id: nat, v: Value, codes: seq<byte>,
    k: nat)
    requires LinkOf(c).store.Valid() && l.store.Valid() && RxMany(env, LinkOf(c), head) == RxOut(l, false) && head != []
    requires v.body.SubscribeBody? && k < |codes| == |v.body.subscriptions| && ValidCodes(codes[..k])
    requires l.rx == AtCode(g, id, v, 0) && g.remainingLength == |codes| + 2
    ensures RxMany(env, LinkOf(c), head + codes[..k])
            == RxOut(l.(rx := AtCode(g, id, v, k), log := l.log + Codes(v.ref, codes[..k])), false)
  {
    hide RxStep, RxMany;
    SomeCodes(env, l, g, id, v, codes, k);
    if k == 0 {
      assert head + codes[..0] == head && l.log + Codes(v.ref, codes[..0]) == l.log;
    } else {
      RxManyJoin(env, LinkOf(c), head, codes[..k]);
    }
  }

  lemma SubackInvalid(env: Env, c: Client, head: seq<byte>, l: Link, g: Header, id: nat, v: Value, codes: seq<byte>,
                      i: nat, k: nat)
    requires AtRest(c) && k < |codes| && g.remainingLength == |codes| + 2 && head != []
    requires i < c.main.pos && v == c.main.entries[i].value && v.body.SubscribeBody?
    requires LinkOf(c).store.Valid() && l.store.Valid() && RxMany(env, LinkOf(c), head) == RxOut(l, false)
    requires l == LinkOf(c).(store := Taken(c.main, i), rx := AtCode(g, id, v, 0))
    requires |codes| == |v.body.subscriptions| && ValidCodes(codes[..k]) && !ValidCode(codes[k])
    ensures CanDecode(c)
    ensures var d := DecodeBytes(env, c, head + codes);
            && d == c.(main := Taken(c.main, i), log := c.log + Codes(v.ref, codes[..k]), rx := d.rx)
            && d.rx.error == Some(SubackInvalidReturnCode)
  {
    hide AtRest, RxStep, RxMany, DecodeBytes, CanDecode, Codes, ValidCodes, ValidCode;
    RestFacts(c);
    CodesSoFar(env, c, head, l, g, id, v, codes, k);
    var m := l.(rx := AtCode(g, id, v, k), log := l.log + Codes(v.ref, codes[..k]));
    OneCode(env, m, g, id, v, codes, k);
    NoError(g, id, v, k);
    RxManyAppend(env, LinkOf(c), head + codes[..k], codes[k]);
    QuietBytes(env, c, head + codes[..k] + [codes[k]]);
    DecodeTwice(env, c, head + codes[..k] + [codes[k]], codes[k + 1..]);
    assert head + codes[..k] + [codes[k]] + codes[k + 1..] == head + codes;
  }

  lemma SubackEnds(env: Env, c: Client, head: seq<byte>, l: Link, g: Header, id: nat, v: Value, codes: seq<byte>)
    requires CanDecode(c) && codes != [] && g.remainingLength == |codes| + 2 && head != []
    requires LinkOf(c).store.Valid() && l.store.Valid() && RxMany(env, LinkOf(c), head) == RxOut(l, false)
    requires l.rx == AtCode(g, id, v, 0) && v.body.SubscribeBody?
    requires |codes| == |v.body.subscriptions| && ValidCodes(codes)
    ensures c.main.Valid() && c.conn.Valid()
    ensures DecodeBytes(env, c, head + codes)
            == AfterRound(env, c, RxOut(l.(rx := AtCode(g, id, v, |codes|), log := l.log + Codes(v.ref, codes)), true))
  {
    hide CanDecode, RxStep, RxMany, DecodeBytes, Codes, ValidCode, FinishPacket, AtCode, AfterRound;
    var n := |codes| - 1;
    CodesSoFar(env, c, head, l, g, id, v, codes, n);
    var m := l.(rx := AtCode(g, id, v, n), log := l.log + Codes(v.ref, codes[..n]));
    NoError(g, id, v, n);
    OneCode(env, m, g, id, v, codes, n);
    assert (head + codes)[..|head + codes| - 1] == head + codes[..n] && (head + codes)[|head + codes| - 1] == codes[n];
    LastDecides(env, c, head + codes, m);
    LastCode(v.ref, codes);
    assert m.log + [SubackCode(v.ref, n, codes[n])] == l.log + Codes(v.ref, codes);
  }

  lemma LastCode(ref: nat, codes: seq<byte>)
    requires codes != []
    ensures var n := |codes| - 1; Codes(ref, codes) == Codes(ref, codes[..n]) + [SubackCode(ref, n, codes[n])]
  {
  }

  lemma SubackComplete(env: Env, c: Client, head: seq<byte>, l: Link, g: Header, id: nat, v: Value, codes: seq<byte>,
    i: nat)
    requires AtRest(c) && codes != [] && g.remainingLength == |codes| + 2 && head != []
    requires i < c.main.pos && c.main.entries[i] == Entry(Subscribe, v) && v.body.SubscribeBody?
    requires LinkOf(c).store.Valid() && l.store.Valid() && RxMany(env, LinkOf(c), head) == RxOut(l, false)
    requires l == LinkOf(c).(store := Taken(c.main, i), rx := AtCode(g, id, v, 0))
    requires |codes| == |v.body.subscriptions| && ValidCodes(codes)
    ensures CanDecode(c)
    ensures var d := DecodeBytes(env, c, head + codes);
            var done := c.log + Codes(v.ref, codes) + [Completed(Subscribe, v, true)];
            && d == c.(main := Taken(c.main, i), log := done, rx := d.rx, audit := d.audit)
            && (if env.accept(done) then d.rx == RESET_RX && d.audit == c.audit else d.rx.error == Some(CallbackSuback))
  {
    hide AtRest, RxMany, DecodeBytes, CanDecode, Codes, ValidCodes, FinishPacket;
    RestFacts(c);
    SubackEnds(env, c, head, l, g, id, v, codes);
    FinishesRequest(env, c, i, AtCode(g, id, v, |codes|), c.log + Codes(v.ref, codes));
  }

  /** SUBACK (section 3.9). */
  lemma SubackArrives(env: Env, c: Client, hi: byte, lo: byte, codes: seq<byte>, i: nat, k: nat)
    requires AtRest(c) && 0 < |codes| <= MAX_REMAINING_LENGTH - 2
    ensures CanDecode(c)
    ensures var id := (hi as int) * 256 + lo;
            var d := DecodeBytes(env, c, SubackBytes(hi, lo, codes));
            && (NoneSent(c.main, Subscribe, id) ==> Unexpected(c, d))
            && (FirstSent(c.main, i, Subscribe, id) ==>
                  i < c.main.pos <= |c.main.entries| && c.main.entries[i].value.body.SubscribeBody?
                  && Subscribed(env, c, d, i, codes, k))
  {
    hide Inv, IsConnected, RxStep, RxMany, DecodeBytes, CanDecode, FinishPacket, RemainingLength, Codes, ValidCodes,
         AtCode;
    RestFacts(c);
    var id := (hi as int) * 256 + lo;
    var head := [0x90] + RemainingLength(2 + |codes|) + [hi, lo];
    var g := SubackHead(env, LinkOf(c), |codes|, hi, lo, i);
    if NoneSent(c.main, Subscribe, id) {
      QuietBytes(env, c, head);
      DecodeTwice(env, c, head, codes);
    }
    if FirstSent(c.main, i, Subscribe, id) {
      var v := c.main.entries[i].value;
      assert WellFormed(c.main.entries[i]);
      var l := LinkOf(c).(store := Taken(c.main, i), rx := AtCode(g, id, v, 0));
      SubackMismatch(env, c, head, l, g, id, v, codes, i);
      if |codes| == |v.body.subscriptions| {
        if ValidCodes(codes) { SubackComplete(env, c, head, l, g, id, v, codes, i); }
        if k < |codes| && ValidCodes(codes[..k]) && !ValidCode(codes[k]) {
          SubackInvalid(env, c, head, l, g, id, v, codes, i, k);
        }
      }
    }
  }

  // ----- CONNACK -----

  /** What flushing a queue reports: every request object once, in order. */
  function Flushed(es: seq<Entry>, succeeded: bool): seq<Event>
  {
    if es == [] then []
    else
      (if es[0].value.body.NoBody? then [] else [Completed(es[0].kind, es[0].value, succeeded)])
      + Flushed(es[1..], succeeded)
  }

  /** The queue without PINGREQ and DISCONNECT. */
  function Lasting(es: seq<Entry>): seq<Entry>
  {
    if es == [] then []
    else
      match es[0].kind
      case Pingreq => Lasting(es[1..])
      case Disconnect => Lasting(es[1..])
      case _ => [es[0]] + Lasting(es[1..])
  }

  lemma {:induction false} FlushReports(es: seq<Entry>, succeeded: bool, log: seq<Event>)
    ensures FlushLog(es, succeeded, log) == log + Flushed(es, succeeded)
    decreases |es|
  {
    if es != [] {
      var head := if es[0].value.body.NoBody? then [] else [Completed(es[0].kind, es[0].value, succeeded)];
      FlushReports(es[1..], succeeded, log + head);
      assert log + head + Flushed(es[1..], succeeded) == log + (head + Flushed(es[1..], succeeded));
      assert log + [] == log;
    }
  }

  lemma {:induction false} KeptIsLasting(es: seq<Entry>)
    ensures Kept(es) == Lasting(es)
  {
    if es != [] { KeptIsLasting(es[1..]); }
  }

  /** Connecting, and between two packets. */
  predicate AwaitsConnack(c: Client) { Inv(c) && IsConnecting(c) && c.rx == RESET_RX }

  lemma AwaitFacts(c: Client)
    requires AwaitsConnack(c)
    ensures CanDecode(c) && !c.closed && c.error.None? && c.main.Valid() && c.conn.Valid() && c.rxStore.Conn?
    ensures c.current.Conn? && c.slots == NO_SLOTS && c.conn.capacity == 1
    ensures LinkOf(c) == Link(RESET_RX, c.conn, c.ids, c.log)
    ensures |c.conn.entries| == 1 && c.conn.entries[0].kind.Connect? && c.conn.entries[0].value.body.ConnectBody?
            && c.conn.entries[0].value.packetId == 0
  {
    hide TxValid, ValidConnect, ValidPublish, ValidSubscribe;
    assert c.conn.entries[0] in c.conn.entries;
  }

  /** The store after the CONNACK has taken the CONNECT out. */
  function Answered(c: Client): Client { c.(conn := c.conn.(entries := [], pos := 0)) }

  /** The session is open. With a clean session every request left in the main store is called back with
      success and the held ids are forgotten, otherwise all but PINGREQ and DISCONNECT stay and are unsent
      again; then `on_connect` is told. The keep-alive is that of the request. */
  predicate Opened(env: Env, c: Client, d: Client, present: bool)
    requires |c.conn.entries| == 1 && c.conn.entries[0].value.body.ConnectBody?
  {
    var v := c.conn.entries[0].value;
    var q := v.body.connect;
    var cleared := if q.cleanSession then Flushed(c.main.entries, true) + [SessionCleared] else [];
    var told := c.log + [SessionPresent(v.ref, present)] + cleared + [Completed(Connect, v, true)];
    && d == Answered(c).(
         current := Main, rxStore := Main, txStore := Main, cleanSession := q.cleanSession,
         main := c.main.(entries := if q.cleanSession then [] else Lasting(c.main.entries), pos := 0,
                         keepAlive := q.keepAlive),
         ids := if q.cleanSession then c.ids.(items := []) else c.ids,
         slots := Slots(false, true, true, true, true, true), log := told, rx := d.rx, audit := d.audit)
    && (if env.accept(told) then d.rx == RESET_RX && d.audit == c.audit else d.rx.error == Some(CallbackConnack))
  }

  /** What a CONNACK does: without a sent CONNECT it is unexpected; flags above 1 and codes above 5 are errors, the
      codes 1 to 5 refuse, 0 opens the session. The session-present flag is told before the code is read. */
  predicate Connacked(env: Env, c: Client, d: Client, flags: byte, code: byte)
    requires |c.conn.entries| == 1 && c.conn.entries[0].value.body.ConnectBody?
  {
    var told := c.log + [SessionPresent(c.conn.entries[0].value.ref, flags == 1)];
    if c.conn.pos == 0 then Unexpected(c, d)
    else if flags > 1 then d == Answered(c).(rx := d.rx) && d.rx.error == Some(ConnackInvalidFlags)
    else if code > 5 then d == Answered(c).(rx := d.rx, log := told) && d.rx.error == Some(ConnackInvalidReturnCode)
    else if code > 0 then d == Answered(c).(rx := d.rx, log := told) && d.rx.error == Some(ConnackRefused(code))
    else Opened(env, c, d, flags == 1)
  }

  function AtFlags(v: Value, pos: nat): Rx { Behind(DConnack, 2, 2, pos, 0).(slot := v) }

  lemma ConnackHead(env: Env, l: Link)
    requires l.store.Valid() && l.rx == RESET_RX && |l.store.entries| == 1 && l.store.entries[0].kind.Connect?
    requires l.store.entries[0].value.packetId == 0
    ensures var out := RxMany(env, l, [0x20, 2]);
            if l.store.pos == 0 then
              !out.call && out.link == l.(rx := out.link.rx) && out.link.rx.error == Some(NoCorrespondingRequest)
            else
              out == RxOut(l.(store := l.store.(entries := [], pos := 0), rx := AtFlags(l.store.entries[0].value, 0)),
                false)
  {
    hide StoreState.PopMarked, RxMany;
    FirstTwo(env, l, 0x20, DConnack, 2);
    RxManyAppend(env, l, [0x20], 2);
    assert [0x20 as byte] + [2] == [0x20, 2];
    PopsFirst(l.store, 0, Connect, 0);
    assert FirstSent(l.store, 0, Connect, 0) || NoneSent(l.store, Connect, 0);
    if l.store.pos == 1 { assert Taken(l.store, 0) == l.store.(entries := [], pos := 0); }
  }

  lemma ConnackFlags(env: Env, l: Link, v: Value, flags: byte)
    requires l.store.Valid() && l.rx == AtFlags(v, 0)
    ensures var out := RxStep(env, l, flags);
            if flags > 1 then
              !out.call && out.link == l.(rx := out.link.rx) && out.link.rx.error == Some(ConnackInvalidFlags)
            else out == RxOut(l.(rx := AtFlags(v, 1), log := l.log + [SessionPresent(v.ref, flags == 1)]), false)
  {
    hide StoreState.PopMarked;
  }

  lemma ConnackCode(env: Env, l: Link, v: Value, code: byte)
    requires l.store.Valid() && l.rx == AtFlags(v, 1)
    ensures var out := RxStep(env, l, code);
            if code == 0 then out == RxOut(l.(rx := AtFlags(v, 2)), true)
            else
              !out.call && out.link == l.(rx := out.link.rx)
              && out.link.rx.error == Some(if code > 5 then ConnackInvalidReturnCode else ConnackRefused(code))
  {
    hide StoreState.PopMarked;
  }

  lemma SessionOpens(env: Env, c: Client, rx: Rx, log: seq<Event>)
    requires AwaitsConnack(c) && rx.slot == c.conn.entries[0].value && rx.decoder.DConnack?
    ensures c.main.Valid() && |c.conn.entries| == 1 && c.conn.entries[0].value.body.ConnectBody?
    ensures var v := c.conn.entries[0].value;
            var q := v.body.connect;
            var cleared := if q.cleanSession then Flushed(c.main.entries, true) + [SessionCleared] else [];
            var told := log + cleared + [Completed(Connect, v, true)];
            var d := FinishPacket(env, Answered(c).(rx := rx, log := log));
            && d == Answered(c).(
                 current := Main, rxStore := Main, txStore := Main, cleanSession := q.cleanSession,
                 main := c.main.(entries := if q.cleanSession then [] else Lasting(c.main.entries), pos := 0,
                                 keepAlive := q.keepAlive),
                 ids := if q.cleanSession then c.ids.(items := []) else c.ids,
                 slots := Slots(false, true, true, true, true, true), log := told, rx := d.rx, audit := d.audit)
            && (if env.accept(told) then d.rx == RESET_RX && d.audit == c.audit
                else d.rx.error == Some(CallbackConnack))
  {
    hide AwaitsConnack, FlushLog, Kept, Lasting, Flushed;
    AwaitFacts(c);
    KeptIsLasting(c.main.entries);
    FlushReports(c.main.entries, true, log);
    FlushNothing(true, log + Flushed(c.main.entries, true) + [SessionCleared]);
    FlushNothing(true, log);
    assert log + (Flushed(c.main.entries, true) + [SessionCleared])
        == log + Flushed(c.main.entries, true) + [SessionCleared];
    assert log + [] == log;
  }

  lemma FlushNothing(succeeded: bool, log: seq<Event>)
    ensures FlushLog([], succeeded, log) == log
  {
  }

  /** CONNACK (section 3.2). */
  lemma ConnackArrives(env: Env, c: Client, flags: byte, code: byte)
    requires AwaitsConnack(c)
    ensures CanDecode(c) && |c.conn.entries| == 1 && c.conn.entries[0].value.body.ConnectBody?
    ensures Connacked(env, c, DecodeBytes(env, c, [0x20, 2, flags, code]), flags, code)
  {
    hide AwaitsConnack, RxStep, RxMany, DecodeBytes, CanDecode, FinishPacket, Opened, Flushed, Lasting;
    AwaitFacts(c);
    var bytes := [0x20, 2, flags, code];
    var v := c.conn.entries[0].value;
    ConnackHead(env, LinkOf(c));
    if c.conn.pos == 0 {
      QuietBytes(env, c, [0x20, 2]);
      DecodeTwice(env, c, [0x20, 2], [flags, code]);
      assert [0x20, 2] + [flags, code] == bytes;
    } else {
      var l := LinkOf(c).(store := c.conn.(entries := [], pos := 0), rx := AtFlags(v, 0));
      ConnackFlags(env, l, v, flags);
      RxManyAppend(env, LinkOf(c), [0x20, 2], flags);
      assert [0x20, 2] + [flags] == [0x20, 2, flags];
      if flags > 1 {
        QuietBytes(env, c, [0x20, 2, flags]);
        DecodeTwice(env, c, [0x20, 2, flags], [code]);
        assert [0x20, 2, flags] + [code] == bytes;
      } else {
        ConnackLast(env, c, flags, code);
      }
    }
  }

  lemma ConnackLast(env: Env, c: Client, flags: byte, code: byte)
    requires AwaitsConnack(c) && c.conn.pos > 0 && flags <= 1
    requires LinkOf(c).store.Valid() && |c.conn.entries| == 1 && c.conn.entries[0].value.body.ConnectBody?
    requires var v := c.conn.entries[0].value;
             RxMany(env, LinkOf(c), [0x20, 2, flags])
             == RxOut(LinkOf(c).(store := c.conn.(entries := [], pos := 0), rx := AtFlags(v, 1),
                                 log := c.log + [SessionPresent(v.ref, flags == 1)]), false)
    ensures CanDecode(c)
    ensures Connacked(env, c, DecodeBytes(env, c, [0x20, 2, flags, code]), flags, code)
  {
    hide AwaitsConnack, RxStep, RxMany, DecodeBytes, CanDecode, FinishPacket, Flushed, Lasting;
    AwaitFacts(c);
    var bytes := [0x20, 2, flags, code];
    var v := c.conn.entries[0].value;
    var log := c.log + [SessionPresent(v.ref, flags == 1)];
    var m := LinkOf(c).(store := c.conn.(entries := [], pos := 0), rx := AtFlags(v, 1), log := log);
    assert bytes[..3] == [0x20, 2, flags];
    LastDecides(env, c, bytes, m);
    ConnackCode(env, m, v, code);
    if code == 0 { SessionOpens(env, c, AtFlags(v, 2), log); }
  }

  // ----- what is no response -----

  /** The flags that sections 2.2.2 and 3.3.1 allow with each packet type; DUP goes with QoS 1 and 2 only. */
  predicate AllowedFlags(htype: nat, flags: nat)
  {
    match htype
    case 3 => flags in {0, 1, 2, 3, 4, 5, 10, 11, 12, 13}
    case 6 => flags == 2
    case 8 => flags == 2
    case 10 => flags == 2
    case _ => flags == 0
  }

  /** The first byte of a packet, in any client that decodes: types 0 and 15 and flags that are not allowed are
      errors, and nothing else is. */
  lemma FirstByteArrives(env: Env, c: Client, b: byte)
    requires CanDecode(c) && c.rx == RESET_RX
    ensures var d := DecodeBytes(env, c, [b]);
            && d == c.(rx := d.rx)
            && d.rx.error == (if b / 16 == 0 || b / 16 == 15 then Some(InvalidType)
                              else if !AllowedFlags(b / 16, b % 16) then Some(InvalidFlags)
                              else None)
  {
    hide Inv, DecodeBytes, CanDecode, RxMany;
    DecodingFacts(c);
    FirstStep(env, LinkOf(c), b);
    QuietBytes(env, c, [b]);
  }

  lemma FirstStep(env: Env, l: Link, b: byte)
    requires l.store.Valid() && l.rx == RESET_RX
    ensures var out := RxMany(env, l, [b]);
            && !out.call && out.link == l.(rx := out.link.rx)
            && out.link.rx.error == (if b / 16 == 0 || b / 16 == 15 then Some(InvalidType)
                                     else if !AllowedFlags(b / 16, b % 16) then Some(InvalidFlags)
                                     else None)
            && (out.link.rx.error.None? ==>
                  out.link.rx == RESET_RX.(header := out.link.rx.header) && out.link.rx.header.htype == b / 16
                  && out.link.rx.header.bytesRead == 1 && out.link.rx.header.error.None? && !out.link.rx.header.finished
                  && out.link.rx.header.multiplier == 1 && out.link.rx.header.accumulator == 0
                  && (b / 16 == 3 ==> out.link.rx.header.qos == b / 2 % 4))
  {
    assert [b][1..] == [];
  }

  /** The least Remaining Length of each packet a server may send; the others are only for servers. */
  function LeastLength(htype: nat): Option<nat>
  {
    match htype
    case 2 => Some(2)
    case 3 => Some(3)
    case 4 => Some(2)
    case 5 => Some(2)
    case 6 => Some(2)
    case 7 => Some(2)
    case 9 => Some(3)
    case 11 => Some(2)
    case 13 => Some(0)
    case _ => None
  }

  /** A fixed header of two bytes that is no response: a type only servers receive, or a packet too short. */
  lemma UnwantedPacket(env: Env, c: Client, b: byte, n: byte)
    requires CanDecode(c) && c.rx == RESET_RX && 1 <= b / 16 <= 14 && AllowedFlags(b / 16, b % 16) && n < 128
    requires LeastLength(b / 16).None? || n < LeastLength(b / 16).value
    ensures var d := DecodeBytes(env, c, [b, n]);
            && d == c.(rx := d.rx)
            && d.rx.error == Some(if LeastLength(b / 16).None? then ServerSpecific else ResponseTooShort)
  {
    hide Inv, DecodeBytes, CanDecode, RxMany, HeaderStep;
    DecodingFacts(c);
    FirstStep(env, LinkOf(c), b);
    var l := RxMany(env, LinkOf(c), [b]).link;
    RxManyAppend(env, LinkOf(c), [b], n);
    assert [b] + [n] == [b, n];
    UnwantedStep(env, l, n);
    QuietBytes(env, c, [b, n]);
  }

  lemma UnwantedStep(env: Env, l: Link, n: byte)
    requires l.store.Valid() && l.rx == RESET_RX.(header := l.rx.header) && l.rx.header.bytesRead == 1 && n < 128
    requires l.rx.header.error.None? && !l.rx.header.finished && l.rx.header.multiplier == 1
             && l.rx.header.accumulator == 0
    requires LeastLength(l.rx.header.htype).None? || n < LeastLength(l.rx.header.htype).value
    ensures var out := RxStep(env, l, n);
            && !out.call && out.link == l.(rx := out.link.rx)
            && out.link.rx.error
               == Some(if LeastLength(l.rx.header.htype).None? then ServerSpecific else ResponseTooShort)
  {
    hide StoreState.PopMarked;
  }

  /** The topic length of a PUBLISH: an empty topic, or one that the packet has no room for with its id, is an
      error, and no other is. */
  lemma TopicLengthArrives(env: Env, c: Client, b: byte, n: byte, hi: byte, lo: byte)
    requires CanDecode(c) && c.rx == RESET_RX && b / 16 == 3 && AllowedFlags(3, b % 16) && 3 <= n < 128
    ensures var d := DecodeBytes(env, c, [b, n, hi, lo]);
            var length, id := (hi as int) * 256 + lo, if b / 2 % 4 == 0 then 0 else 2;
            && d == c.(rx := d.rx)
            && d.rx.error == if length == 0 || 2 + length + id > n then Some(PublishInvalidLength) else None
  {
    hide Inv, DecodeBytes, CanDecode, RxMany, HeaderStep;
    DecodingFacts(c);
    var l := LinkOf(c);
    FirstStep(env, l, b);
    RxManyAppend(env, l, [b], n);
    RxManyAppend(env, l, [b, n], hi);
    RxManyAppend(env, l, [b, n, hi], lo);
    assert [b] + [n] == [b, n] && [b, n] + [hi] == [b, n, hi] && [b, n, hi] + [lo] == [b, n, hi, lo];
    PublishHeaderEnds(env, RxMany(env, l, [b]).link, n);
    var m := RxMany(env, l, [b, n]).link;
    TopicLengthBytes(env, m, hi, lo);
    QuietBytes(env, c, [b, n, hi, lo]);
  }

  lemma PublishHeaderEnds(env: Env, l: Link, n: byte)
    requires l.store.Valid() && l.rx == RESET_RX.(header := l.rx.header) && l.rx.header.bytesRead == 1 && 3 <= n < 128
    requires l.rx.header.error.None? && !l.rx.header.finished && l.rx.header.multiplier == 1
             && l.rx.header.accumulator == 0
    requires l.rx.header.htype == 3
    ensures var out := RxStep(env, l, n);
            && !out.call && out.link == l.(rx := l.rx.(header := out.link.rx.header, headerFinished := true))
            && out.link.rx.header.remainingLength == n as nat && out.link.rx.header.qos == l.rx.header.qos
  {
    hide StoreState.PopMarked;
  }

  lemma TopicLengthBytes(env: Env, l: Link, hi: byte, lo: byte)
    requires l.store.Valid() && l.rx == RESET_RX.(header := l.rx.header, headerFinished := true)
    requires l.rx.header.remainingLength >= 3
    ensures var first := RxStep(env, l, hi);
            var out := RxStep(env, first.link, lo);
            var length, id := (hi as int) * 256 + lo, if l.rx.header.qos == 0 then 0 else 2;
            && !first.call && first.link == l.(rx := first.link.rx) && first.link.rx.error.None?
            && !out.call && out.link == l.(rx := out.link.rx)
            && out.link.rx.error
               == if length == 0 || 2 + length + id > l.rx.header.remainingLength then Some(PublishInvalidLength)
                 else None
  {
    hide StoreState.PopMarked;
  }

  /** The first byte of each response (sections 3.2 to 3.13). */
  function FirstByteOf(d: Decoder): byte
  {
    match d
    case DConnack => 0x20
    case DPublish => 0x30
    case DPuback => 0x40
    case DPubrec => 0x50
    case DPubrel => 0x62
    case DPubcomp => 0x70
    case DSuback => 0x90
    case DUnsuback => 0xb0
    case DPingresp => 0xd0
  }

  /** What is wrong behind the id of such a packet. */
  function IdError(s: StoreState, d: Decoder, id: nat): Option<Error>
    requires d.DPuback? || d.DPubrec? || d.DPubrel? || d.DPubcomp? || d.DUnsuback?
  {
    match d
    case DPubrel => if |s.entries| < s.capacity then None else Some(PubrelIdSetFull)
    case DPuback => if NoneSent(s, Publish1, id) then Some(NoCorrespondingRequest) else None
    case DPubrec => if NoneSent(s, Publish2, id) then Some(NoCorrespondingRequest) else None
    case DPubcomp => if NoneSent(s, Pubrel, id) then Some(NoCorrespondingRequest) else None
    case DUnsuback => if NoneSent(s, Unsubscribe, id) then Some(NoCorrespondingRequest) else None
  }

  /** A response with more than an id: the byte behind the id is an error, if the id was not. */
  lemma LongResponse(env: Env, c: Client, d: Decoder, n: byte, hi: byte, lo: byte, more: byte)
    requires CanDecode(c) && c.rx == RESET_RX && 2 < n < 128
    requires d.DPuback? || d.DPubrec? || d.DPubrel? || d.DPubcomp? || d.DUnsuback?
    ensures var after := DecodeBytes(env, c, [FirstByteOf(d), n, hi, lo, more]);
            after.rx.error
            == match IdError(LinkOf(c).store, d, (hi as int) * 256 + lo)
               case Some(e) => Some(e)
               case None => Some(NonzeroRemainingLength)
  {
    hide Inv, DecodeBytes, CanDecode, RxMany, RxStep, IdError;
    DecodingFacts(c);
    var first := FirstByteOf(d);
    var l := LinkOf(c);
    FirstTwo(env, l, first, d, n);
    RxManyAppend(env, l, [first, n], hi);
    RxManyAppend(env, l, [first, n, hi], lo);
    RxManyAppend(env, l, [first, n, hi, lo], more);
    assert [first, n] + [hi] == [first, n, hi] && [first, n, hi] + [lo] == [first, n, hi, lo];
    assert [first, n, hi, lo] + [more] == [first, n, hi, lo, more];
    LongId(env, l.(rx := Behind(d, TypeOf(d), n as nat, 0, 0)), d, n, hi, lo);
    OneMore(env, RxMany(env, l, [first, n, hi, lo]).link, d, more);
    QuietBytes(env, c, [first, n, hi, lo, more]);
  }

  lemma LongId(env: Env, l: Link, d: Decoder, n: byte, hi: byte, lo: byte)
    requires l.store.Valid() && 2 < n && l.rx == Behind(d, TypeOf(d), n as nat, 0, 0)
    requires d.DPuback? || d.DPubrec? || d.DPubrel? || d.DPubcomp? || d.DUnsuback?
    ensures var one := RxStep(env, l, hi);
            var two := RxStep(env, one.link, lo);
            && !one.call && one.link.rx.error.None? && !two.call
            && two.link.rx.error == IdError(l.store, d, (hi as int) * 256 + lo)
            && (two.link.rx.error.None? ==>
                  two.link.rx.headerFinished && two.link.rx.decoder == d && two.link.rx.remainPos == 2)
  {
    hide StoreState.PopMarked, NoneSent;
    var id := (hi as int) * 256 + lo;
    assert id % 65536 == id && IdByte((hi as int) * 256, false, lo) == id;
    PopsUnlessNone(l.store, id);
  }

  lemma PopsUnlessNone(s: StoreState, id: U16)
    requires s.Valid()
    ensures forall kind :: s.PopMarked(kind, id).1.None? <==> NoneSent(s, kind, id)
  {
  }

  lemma OneMore(env: Env, l: Link, d: Decoder, b: byte)
    requires l.store.Valid() && (l.rx.error.None? ==> l.rx.headerFinished && l.rx.decoder == d && l.rx.remainPos == 2)
    requires d.DPuback? || d.DPubrec? || d.DPubrel? || d.DPubcomp? || d.DUnsuback?
    ensures var out := RxStep(env, l, b);
            !out.call && out.link.rx.error == (if l.rx.error.None? then Some(NonzeroRemainingLength) else l.rx.error)
  {
    hide StoreState.PopMarked;
  }
}
