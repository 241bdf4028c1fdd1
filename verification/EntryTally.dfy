/** Counting what the queued entries carry, and how the steps of the client move it around. */
module EntryTally {
  import opened Types
  import opened Clock
  import opened PacketStore
  import opened Wire
  import opened Transmit
  import opened Receive
  import opened ReceiveInvariant
  import opened Session
  import opened SessionInvariant

  /** The kinds whose packet id identifies a request of this client. */
  predicate Tracked(k: Kind)
  {
    k.Publish1? || k.Publish2? || k.Pubrel? || k.Subscribe? || k.Unsubscribe?
  }

  /** What is counted: request objects, the packet ids of tracked requests, those of QoS 2 messages not
      yet received by the server, or PINGREQs. */
  datatype Measure = Requests | Ids | Firsts | Pings

  /** How often an entry counts for the number `r`. */
  function Weight(f: Measure, e: Entry, r: nat): nat
  {
    match f
    case Requests => if !e.value.body.NoBody? && e.value.ref == r then 1 else 0
    case Ids => if Tracked(e.kind) && !e.value.body.NoBody? && e.value.packetId == r then 1 else 0
    case Firsts => if e.kind.Publish2? && !e.value.body.NoBody? && e.value.packetId == r then 1 else 0
    case Pings => if e.kind.Pingreq? then 1 else 0
  }

  function Tally(es: seq<Entry>, f: Measure, r: nat): nat
  {
    if es == [] then 0 else Weight(f, es[0], r) + Tally(es[1..], f, r)
  }

  lemma {:induction false} TallyConcat(a: seq<Entry>, b: seq<Entry>, f: Measure, r: nat)
    ensures Tally(a + b, f, r) == Tally(a, f, r) + Tally(b, f, r)
  {
    if a == [] {
      assert a + b == b;
    } else {
      assert (a + b)[1..] == a[1..] + b;
      TallyConcat(a[1..], b, f, r);
    }
  }

  lemma TallyAppend(es: seq<Entry>, e: Entry, f: Measure, r: nat)
    ensures Tally(es + [e], f, r) == Tally(es, f, r) + Weight(f, e, r)
  {
    TallyConcat(es, [e], f, r);
    assert [e][1..] == [];
    assert Tally([e], f, r) == Weight(f, e, r);
  }

  lemma TallyRemove(es: seq<Entry>, i: nat, f: Measure, r: nat)
    requires i < |es|
    ensures Tally(es, f, r) == Tally(es[..i] + es[i + 1..], f, r) + Weight(f, es[i], r)
  {
    assert es == es[..i] + ([es[i]] + es[i + 1..]);
    assert ([es[i]] + es[i + 1..])[1..] == es[i + 1..];
    TallyConcat(es[..i], [es[i]] + es[i + 1..], f, r);
    TallyConcat(es[..i], es[i + 1..], f, r);
  }

  lemma {:induction false} TallyKept(es: seq<Entry>, f: Measure, r: nat)
    ensures Tally(Kept(es), f, r) <= Tally(es, f, r)
    ensures (forall e :: e in es && !KeptOnReconnect(e) ==> Weight(f, e, r) == 0) ==>
              Tally(Kept(es), f, r) == Tally(es, f, r)
  {
    if es != [] {
      TallyKept(es[1..], f, r);
      TallyConcat(if KeptOnReconnect(es[0]) then [es[0]] else [], Kept(es[1..]), f, r);
      assert [es[0]][1..] == [] && Tally([es[0]], f, r) == Weight(f, es[0], r);
    }
  }

  /** The request in the rx slot, unless its callback was already made. */
  function SlotTally(rx: Rx, called: bool, f: Measure, r: nat): nat
  {
    if called || rx.slot == ZERO_VALUE then 0 else Weight(f, Entry(SlotKind(rx), rx.slot), r)
  }

  /** Everything in flight: both stores and the rx slot. */
  function InFlight(c: Client, f: Measure, r: nat): nat
  {
    Tally(c.main.entries, f, r) + Tally(c.conn.entries, f, r) + SlotTally(c.rx, c.audit.slotCalled, f, r)
  }

  /** The callback of the rx slot is made at most once before the decoder is reset, unless the client is
      finalized. */
  predicate SlotFresh(c: Client)
  {
    c.rx.error.None? && c.error != Some(Closed) ==> !c.audit.slotCalled
  }

  // ----- one received byte -----

  lemma PopMarkedTally(s: StoreState, kind: Kind, id: U16, f: Measure, r: nat)
    requires s.Valid()
    ensures var (t, v) := s.PopMarked(kind, id);
            Tally(s.entries, f, r)
              == Tally(t.entries, f, r) + (if v.Some? then Weight(f, Entry(kind, v.value), r) else 0)
  {
    var i := s.FindFrom(0, kind, id);
    if i < s.pos {
      TallyRemove(s.entries, i, f, r);
      assert s.entries[i] == Entry(kind, s.entries[i].value);
    }
  }

  /** A byte moves requests between the store and the slot, and creates or destroys none. */
  lemma EffectTally(l: Link, m: Link, eff: Effect, f: Measure, r: nat)
    requires l.store.Valid() && HasEffect(l, m, eff) && !f.Pings?
    requires l.rx.slot != ZERO_VALUE && m.rx.slot != ZERO_VALUE ==> SlotKind(l.rx) == SlotKind(m.rx)
    ensures Tally(m.store.entries, f, r) + SlotTally(m.rx, false, f, r)
         <= Tally(l.store.entries, f, r) + SlotTally(l.rx, false, f, r)
    ensures !f.Firsts? ==>
      Tally(m.store.entries, f, r) + SlotTally(m.rx, false, f, r)
      == Tally(l.store.entries, f, r) + SlotTally(l.rx, false, f, r)
  {
    match eff {
      case Nothing =>
      case Take(kind, id, v) =>
        PopMarkedTally(l.store, kind, id, f, r);
      case Acknowledge(e) => TallyAppend(l.store.entries, e, f, r);
      case Release(id, v) =>
        PopMarkedTally(l.store, Publish2, id, f, r);
        TallyAppend(l.store.PopMarked(Publish2, id).0.entries, Entry(Pubrel, v), f, r);
    }
  }

  /** The packet layer's step, seen by the whole client. */
  lemma RxStepTally(env: Env, c: Client, b: byte, f: Measure, r: nat)
    requires CanDecode(c) && !c.audit.slotCalled && !f.Pings?
    ensures InFlight(WithLink(c, RxStep(env, LinkOf(c), b).link), f, r) <= InFlight(c, f, r)
    ensures !f.Firsts? ==> InFlight(WithLink(c, RxStep(env, LinkOf(c), b).link), f, r) == InFlight(c, f, r)
  {
    hide Inv, Common, RxInv, HasEffect, RxStep, Tally, SlotTally;
    InvCommon(c);
    DecodingFacts(c);
    var eff := DecodeEffect(env, c, b);
    var m := RxStep(env, LinkOf(c), b).link;
    SlotKindStays(env, LinkOf(c), b);
    EffectTally(LinkOf(c), m, eff, f, r);
    LinkTally(c, m, f, r);
  }

  lemma LinkTally(c: Client, m: Link, f: Measure, r: nat)
    requires c.main.Valid() && c.conn.Valid() && !c.audit.slotCalled
    ensures InFlight(WithLink(c, m), f, r) - InFlight(c, f, r)
            == Tally(m.store.entries, f, r) + SlotTally(m.rx, false, f, r)
               - Tally(LinkOf(c).store.entries, f, r) - SlotTally(c.rx, false, f, r)
  {
    hide Tally, SlotTally;
  }

  lemma SlotKindStays(env: Env, l: Link, b: byte)
    requires RxInv(l.rx) && l.rx.error.None? && l.store.Valid()
    ensures var m := RxStep(env, l, b).link;
            l.rx.slot != ZERO_VALUE && m.rx.slot != ZERO_VALUE ==> SlotKind(l.rx) == SlotKind(m.rx)
  {
    hide WellFormed, PublishByte, HeaderByte;
    if l.rx.headerFinished && l.rx.decoder.DPublish? { PublishKeepsDecoder(env, l, b); }
  }

  // ----- the encoder -----

  lemma FinishEntryTally(env: Env, w: TxWorld, f: Measure, r: nat)
    requires UnsentWellFormed(w.store) && w.store.HasCurrent() && !f.Requests?
    ensures Tally(FinishEntry(env, w).store.entries, f, r) == Tally(w.store.entries, f, r)
  {
    hide Fields, WellFormed, Tally;
    TallyRemove(w.store.entries, w.store.pos, f, r);
  }

  /** The encoder drops only entries that expect no response. */
  lemma {:induction false} EncodeTally(env: Env, w: TxWorld, room: nat, f: Measure, r: nat)
    requires UnsentWellFormed(w.store)
    requires !f.Requests?
    ensures Tally(EncodeLoop(env, w, room).world.store.entries, f, r) == Tally(w.store.entries, f, r)
    decreases |w.store.entries| - w.store.pos,
              if w.store.HasCurrent() && w.tx.pos < |CurrentFields(w)| then |CurrentFields(w)| - w.tx.pos else 0
  {
    hide Fields, WellFormed, FieldBytes, FieldStep, Encodable, Tally, FinishEntry;
    if w.tx.closed || !w.store.HasCurrent() {
    } else if w.tx.pos >= |CurrentFields(w)| {
      var next := FinishEntry(env, w);
      FinishEntryTally(env, w, f, r);
      if next.tx.error.None? { EncodeTally(env, next, room, f, r); }
    } else if !HeaderAborts(w) {
      var (result, count) := FieldStep(ActiveField(w), w.tx.offset, room);
      if result.Finished? {
        EncodeTally(env, w.(tx := w.tx.(pos := w.tx.pos + 1, offset := 0, built := None)),
                    if count <= room then room - count else 0, f, r);
      }
    }
  }

  lemma {:induction false} TallyMember(es: seq<Entry>, i: nat, f: Measure, r: nat)
    requires i < |es|
    ensures Weight(f, es[i], r) <= Tally(es, f, r)
  {
    TallyRemove(es, i, f, r);
  }

  /** Two entries that count make the tally at least two. */
  lemma TallyPair(es: seq<Entry>, i: nat, j: nat, f: Measure, r: nat)
    requires i < j < |es|
    ensures Weight(f, es[i], r) + Weight(f, es[j], r) <= Tally(es, f, r)
  {
    TallyRemove(es, j, f, r);
    TallyMember(es[..j] + es[j + 1..], i, f, r);
  }

  // ----- no step but an accepted request adds to what is in flight -----

  lemma CleanupTally(c: Client, keep: bool, f: Measure, r: nat)
    requires c.main.Valid()
    ensures InFlight(CleanupStores(c, keep), f, r) <= InFlight(c, f, r)
    ensures var d := CleanupStores(c, keep); d.audit == c.audit && d.rx == c.rx && d.closed == c.closed
  {
    TallyKept(c.main.entries, f, r);
  }

  lemma FinishPacketTally(env: Env, c: Client, f: Measure, r: nat)
    requires c.main.Valid() && !c.audit.slotCalled
    ensures InFlight(FinishPacket(env, c), f, r) <= InFlight(c, f, r)
  {
    hide Tally, CleanupStores;
    if c.rx.slot.body.ConnectBody? && !c.closed {
      var q := c.rx.slot.body.connect;
      var told := c.(cleanSession := q.cleanSession, main := c.main.(keepAlive := q.keepAlive));
      CleanupTally(SetCurrentStore(told.(error := None, closed := false), Main), !told.cleanSession, f, r);
    }
  }

  lemma DecodeByteTally(env: Env, c: Client, b: byte, f: Measure, r: nat)
    requires CanDecode(c) && c.main.Valid() && c.conn.Valid() && !c.audit.slotCalled && !f.Pings?
    ensures InFlight(DecodeByte(env, c, b), f, r) <= InFlight(c, f, r)
  {
    hide Inv, Tally, RxStep, FinishPacket, InFlight;
    RxStepTally(env, c, b, f, r);
    var out := RxStep(env, LinkOf(c), b);
    if out.call { FinishPacketTally(env, WithLink(c, out.link), f, r); }
  }

  lemma DecodeStepTally(env: Env, c: Client, f: Measure, r: nat)
    requires Inv(c) && WellStored(c) && SlotFresh(c) && !f.Pings?
    ensures InFlight(DecodeStep(env, c), f, r) <= InFlight(c, f, r)
  {
    hide Inv, Tally, DecodeByte, WellFormed;
    if CanDecode(c) && c.readBuf != [] { DecodeByteTally(env, c, c.readBuf[0], f, r); }
  }

  lemma WorldTally(c: Client, w: TxWorld, f: Measure, r: nat)
    requires Tally(w.store.entries, f, r) == Tally(StoreOf(c, c.txStore).entries, f, r)
    ensures InFlight(WithTxWorld(c, w), f, r) == InFlight(c, f, r)
  {
    hide Tally;
  }

  lemma EncodeStepTally(env: Env, c: Client, f: Measure, r: nat)
    requires WellStored(c) && !f.Requests?
    ensures InFlight(EncodeStep(env, c), f, r) == InFlight(c, f, r)
  {
    hide WellFormed, EncodeLoop, WellStored, UnsentWellFormed, InFlight, Tally;
    WellStoredUnsent(c, c.txStore);
    if c.error.None? && |c.writeBuf| < c.writeCap {
      var w := Encode(env, TxWorldOf(c), c.writeCap - |c.writeBuf|).world;
      EncodeTally(env, TxWorldOf(c), c.writeCap - |c.writeBuf|, f, r);
      WorldTally(c, w, f, r);
      SameInFlight(WithTxWorld(c, w), EncodeStep(env, c), f, r);
    }
  }

  lemma SameInFlight(c: Client, d: Client, f: Measure, r: nat)
    requires d.main.entries == c.main.entries && d.conn.entries == c.conn.entries && d.rx == c.rx
    requires d.audit.slotCalled == c.audit.slotCalled
    ensures InFlight(d, f, r) == InFlight(c, f, r)
  {
    hide Tally, SlotTally;
  }

  lemma FinalizeTally(env: Env, c: Client, f: Measure, r: nat)
    requires c.main.Valid()
    ensures InFlight(Finalize(env, c), f, r) <= InFlight(c, f, r)
  {
    hide Tally, CleanupStores;
    CleanupTally(FinishSlot(env, FailWith(c, Closed)), false, f, r);
  }

  /** The entry a request would queue, and whether it is queued in the main store. */
  function Queued(c: Client, op: Op): Option<Entry>
    requires IsRequest(op)
  {
    match op
    case DoConnect(q, ref) => None
    case DoSubscribe(subs, ref) =>
      if c.slots.subscribe && ValidSubscribe(subs)
      then Some(Entry(Subscribe, Value(c.main.nextId, ref, SubscribeBody(subs)))) else None
    case DoUnsubscribe(subs, ref) =>
      if c.slots.unsubscribe && ValidSubscribe(subs)
      then Some(Entry(Unsubscribe, Value(c.main.nextId, ref, SubscribeBody(subs)))) else None
    case DoPublish(p, ref) =>
      if !c.slots.publish || !ValidPublish(p) then None
      else if p.qos == 0 then Some(Entry(Publish0, Value(0, ref, PublishBody(p))))
      else Some(Entry(if p.qos == 1 then Publish1 else Publish2, Value(c.main.nextId, ref, PublishBody(p))))
    case DoDisconnect => if c.slots.disconnect then Some(Entry(Disconnect, ZERO_VALUE)) else None
  }

  /** A request adds at most its own entry, and takes an id exactly when that entry is a tracked one. */
  lemma RequestTally(c: Client, op: Op, f: Measure, r: nat)
    requires IsRequest(op) && !f.Requests?
    ensures var d := Request(c, op).0;
            && InFlight(d, f, r) <= InFlight(c, f, r) + (match Queued(c, op)
                                                       case Some(e) => Weight(f, e, r)
                                                       case None => 0)
            && (if Queued(c, op).Some? && Tracked(Queued(c, op).value.kind)
                then d.audit.issued == c.audit.issued + 1 && d.main.nextId == (c.main.nextId + 1) % 65536
                else d.audit.issued == c.audit.issued && d.main.nextId == c.main.nextId)
            && d.log == c.log
  {
    hide InFlight, ValidConnect, ValidSubscribe, ValidPublish, Accept, Weight;
    TakeIdTally(c, f, r);
    if op.DoConnect? {
      ConnectTally(c, op.connect, op.ref, f, r);
    } else if Queued(c, op).Some? {
      var e := Queued(c, op).value;
      AcceptTally(if Tracked(e.kind) then TakeId(c) else c, e, f, r);
    }
  }

  lemma TakeIdTally(c: Client, f: Measure, r: nat)
    ensures InFlight(TakeId(c), f, r) == InFlight(c, f, r)
  {
  }

  lemma AcceptTally(c: Client, e: Entry, f: Measure, r: nat)
    ensures var d := Accept(c, e).0;
            && InFlight(d, f, r) <= InFlight(c, f, r) + Weight(f, e, r)
            && d.audit.issued == c.audit.issued && d.main.nextId == c.main.nextId && d.log == c.log
            && d.audit.slotCalled == c.audit.slotCalled && d.closed == c.closed
  {
    hide Tally, Weight;
    TallyAppend(c.main.entries, e, f, r);
  }

  lemma ConnectTally(c: Client, q: ConnectRequest, ref: nat, f: Measure, r: nat)
    requires !f.Requests?
    ensures var d := ConnectRequested(c, q, ref).0;
            && InFlight(d, f, r) <= InFlight(c, f, r)
            && d.audit.issued == c.audit.issued && d.main.nextId == c.main.nextId && d.log == c.log
  {
    hide Tally, ValidConnect;
    TallyAppend(c.conn.entries, Entry(Connect, Value(0, ref, ConnectBody(q))), f, r);
  }

  lemma InitialStateTally(c: Client, now: Time, f: Measure, r: nat)
    requires c.main.Valid()
    ensures InFlight(SetStateInitial(c, now), f, r) <= InFlight(c, f, r)
    ensures SetStateInitial(c, now).audit == c.audit && SetStateInitial(c, now).closed
  {
    hide Tally, CleanupStores;
    CleanupTally(
      SetCurrentStore(c.(error := None, closed := true, conn := c.conn.(lastTouch := now)), Conn), !c.cleanSession, f,
        r);
  }

  lemma KeepAliveTally(c: Client, now: Time, f: Measure, r: nat)
    requires !f.Pings?
    ensures InFlight(KeepAliveStep(c, now), f, r) <= InFlight(c, f, r)
  {
    hide Tally, Accept, InFlight;
    AcceptTally(c, Entry(Pingreq, ZERO_VALUE), f, r);
    FailTally(c, Timeout, f, r);
  }

  lemma FailTally(c: Client, e: Error, f: Measure, r: nat)
    ensures InFlight(FailWith(c, e), f, r) == InFlight(c, f, r)
  {
  }

  /** Every step that is not a request keeps what is in flight from growing. */
  lemma StepTally(env: Env, c: Client, op: Op, f: Measure, r: nat)
    requires Inv(c) && WellStored(c) && SlotFresh(c) && !f.Requests? && !f.Pings? && !IsRequest(op)
    ensures InFlight(Step(env, c, op), f, r) <= InFlight(c, f, r)
  {
    hide Inv, Tally, DecodeStep, EncodeStep, Finalize, SetStateInitial, KeepAliveStep, WellFormed;
    match op {
      case DoReset(now) => InitialStateTally(c, now, f, r);
      case Eof(now) => InitialStateTally(c, now, f, r);
      case DoFinalize => FinalizeTally(env, c, f, r);
      case DecodeOne => DecodeStepTally(env, c, f, r);
      case EncodeMore => EncodeStepTally(env, c, f, r);
      case KeepAlive(now) => KeepAliveTally(c, now, f, r);
      case _ =>
    }
  }
}
