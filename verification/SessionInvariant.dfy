/** The session invariant: what holds of the client in every reachable state. */
module SessionInvariant {
  import opened Types
  import opened Clock
  import opened PacketStore
  import opened Wire
  import opened Transmit
  import opened TransmitRuns
  import opened Receive
  import opened ReceiveInvariant
  import opened Session

  const CONNECTED_SLOTS := Slots(false, true, true, true, true, true)

  /** Every entry before the cursor is of a kind that expects a response. */
  predicate MarkedExpect(s: StoreState)
  {
    s.Valid() && forall i :: 0 <= i < s.pos ==> ExpectsResponse(s.entries[i].kind)
  }

  predicate Common(c: Client)
  {
    && WellStored(c) && MarkedExpect(c.main) && MarkedExpect(c.conn) && c.conn.capacity == 1
    && (forall e :: e in c.main.entries ==> !e.kind.Connect?)
    && (forall e :: e in c.conn.entries ==> e.kind.Connect? || IsAck(e))
    && c.rxStore == c.current && c.txStore == c.current
    && c.ids.Valid() && RxInv(c.rx)
    && |c.readBuf| <= c.readCap && |c.writeBuf| <= c.writeCap
  }

  /** Initial. The connect store is empty, unless input was decoded while closed: then it may hold the
      acknowledgement of a PUBLISH or PUBREL. */
  predicate IsInitial(c: Client)
  {
    c.closed && c.error.None? && c.current.Conn? && c.tx.closed && c.slots == NO_SLOTS.(connect := true)
    && forall e :: e in c.conn.entries ==> IsAck(e)
  }

  /** Open: both buffers are free of errors and the encoder is inside the current entry. */
  predicate IsOpen(c: Client)
  {
    !c.closed && c.error.None? && c.rx.error.None? && c.tx.error.None? && TxValid(TxWorldOf(c))
  }

  /** The CONNECT is in its store until the CONNACK header moves it to the rx slot. */
  predicate IsConnecting(c: Client)
  {
    IsOpen(c) && c.current.Conn? && c.slots == NO_SLOTS && !c.tx.closed
    && (c.conn.entries == [] <==> c.rx.slot.body.ConnectBody?)
    && forall e :: e in c.conn.entries ==> e.kind.Connect?
  }

  predicate IsConnected(c: Client)
  {
    IsOpen(c) && c.current.Main? && c.slots == CONNECTED_SLOTS && c.conn.entries == []
    && !c.rx.slot.body.ConnectBody?
  }

  predicate IsFailed(c: Client) { c.closed && c.error.Some? && c.slots == NO_SLOTS }

  predicate Inv(c: Client)
  {
    Common(c) && (IsInitial(c) || IsConnecting(c) || IsConnected(c) || IsFailed(c))
  }

  // ----- stores -----

  lemma PopAtKeeps(s: StoreState, i: nat)
    requires s.Valid() && MarkedExpect(s) && i < |s.entries|
    ensures MarkedExpect(s.PopAt(i)) && forall e :: e in s.PopAt(i).entries ==> e in s.entries
  {
  }

  lemma PopMarkedKeeps(s: StoreState, kind: Kind, id: U16)
    requires MarkedExpect(s)
    ensures var t := s.PopMarked(kind, id).0;
            MarkedExpect(t) && t.capacity == s.capacity && forall e :: e in t.entries ==> e in s.entries
    ensures s.PopMarked(kind, id).1.Some? ==>
      Entry(kind, s.PopMarked(kind, id).1.value) in s.entries && |s.PopMarked(kind, id).0.entries| == |s.entries| - 1
  {
    var i := s.FindFrom(0, kind, id);
    if i < s.pos {
      PopAtKeeps(s, i);
      assert s.entries[i] == Entry(kind, s.entries[i].value);
    }
  }

  lemma KeepSessionKeeps(s: StoreState)
    requires MarkedExpect(s)
    ensures MarkedExpect(KeepSession(s)) && forall e :: e in KeepSession(s).entries ==> e in s.entries
  {
    KeptShrinks(s.entries);
    KeptShrinks(s.entries[..s.pos]);
    assert s.entries[..s.pos] + s.entries[s.pos..] == s.entries;
    KeptConcat(s.entries[..s.pos], s.entries[s.pos..]);
    var k := KeepSession(s);
    forall i | 0 <= i < k.pos ensures ExpectsResponse(k.entries[i].kind) {
      assert k.entries[i] == Kept(s.entries[..s.pos])[i];
      assert k.entries[i] in Kept(s.entries[..s.pos]);
    }
  }

  /** A call of the encoder only marks or drops entries, and drops none that expects a response. */
  lemma {:induction false} EncodeKeepsStore(env: Env, w: TxWorld, room: nat)
    requires UnsentWellFormed(w.store) && MarkedExpect(w.store)
    ensures var t := EncodeLoop(env, w, room).world;
            && MarkedExpect(t.store)
            && t.store == w.store.(entries := t.store.entries, pos := t.store.pos)
            && (forall e :: e in t.store.entries ==> e in w.store.entries)
            && ((forall e :: e in w.store.entries ==> e.kind.Connect?) ==>
                  t.store.entries == w.store.entries && t.tx.closed == w.tx.closed)
    decreases |w.store.entries| - w.store.pos,
              if w.store.HasCurrent() && w.tx.pos < |CurrentFields(w)| then |CurrentFields(w)| - w.tx.pos else 0
  {
    hide Fields, WellFormed, FieldBytes, FinishEntry, FieldStep, Encodable;
    if w.tx.closed || !w.store.HasCurrent() {
    } else if w.tx.pos >= |CurrentFields(w)| {
      FinishEntryKeepsStore(env, w);
      var next := FinishEntry(env, w);
      if next.tx.error.None? { EncodeKeepsStore(env, next, room); }
    } else if !HeaderAborts(w) {
      var (result, count) := FieldStep(ActiveField(w), w.tx.offset, room);
      if result.Finished? {
        EncodeKeepsStore(env, w.(tx := w.tx.(pos := w.tx.pos + 1, offset := 0, built := None)),
                         if count <= room then room - count else 0);
      }
    }
  }

  lemma FinishEntryKeepsStore(env: Env, w: TxWorld)
    requires UnsentWellFormed(w.store) && MarkedExpect(w.store) && w.store.HasCurrent() && !w.tx.closed
    ensures var t := FinishEntry(env, w);
            && MarkedExpect(t.store)
            && t.store == w.store.(entries := t.store.entries, pos := t.store.pos)
            && (forall e :: e in t.store.entries ==> e in w.store.entries)
            && ((forall e :: e in w.store.entries ==> e.kind.Connect?) ==>
                  t.store.entries == w.store.entries && !t.tx.closed)
  {
    hide Fields, WellFormed;
    assert w.store.Current() in w.store.entries;
    PopAtKeeps(w.store, w.store.pos);
  }

  // ----- state changes -----

  lemma CleanupCommon(c: Client, keep: bool)
    requires Common(c)
    ensures Common(CleanupStores(c, keep)) && CleanupStores(c, keep).conn.entries == []
    ensures var r := CleanupStores(c, keep);
            r == c.(main := r.main, conn := r.conn, ids := r.ids, log := r.log)
            && r.main.capacity == c.main.capacity && r.main.nextId == c.main.nextId
  {
    hide WellFormed, RxInv;
    KeepSessionKeeps(c.main);
  }

  lemma SetStateInitialInv(c: Client, now: Time)
    requires Common(c)
    ensures Inv(SetStateInitial(c, now)) && IsInitial(SetStateInitial(c, now))
            && SetStateInitial(c, now).conn.entries == []
  {
    hide WellFormed, RxInv;
    var closed := SetCurrentStore(c.(error := None, closed := true, conn := c.conn.(lastTouch := now)), Conn);
    assert Common(closed);
    CleanupCommon(closed, !c.cleanSession);
  }

  lemma FailWithInv(c: Client, e: Error)
    requires Common(c)
    ensures Inv(FailWith(c, e)) && IsFailed(FailWith(c, e))
  {
    hide WellFormed, RxInv;
  }

  /** The encoder at rest stays valid over any store whose entries are well formed. */
  lemma RestIsValid(w: TxWorld)
    requires UnsentWellFormed(w.store) && w.tx.pos == 0 && w.tx.offset == 0 && w.tx.built.None?
    ensures TxValid(w)
  {
    hide WellFormed;
    if w.store.HasCurrent() { assert FieldShape(CurrentFields(w)[0]); }
  }

  lemma WellStoredUnsent(c: Client, w: Which)
    requires WellStored(c)
    ensures UnsentWellFormed(StoreOf(c, w)) && MarkedWellFormed(StoreOf(c, w))
  {
    hide WellFormed;
    var s := StoreOf(c, w);
    forall i | 0 <= i < |s.entries| ensures WellFormed(s.entries[i]) { assert s.entries[i] in s.entries; }
  }

  lemma SetStateConnectedInv(c: Client)
    requires Common(c) && c.rx.error.None? && c.tx.error.None?
    requires c.tx.pos == 0 && c.tx.offset == 0 && c.tx.built.None? && c.slots.connect == false
    ensures var r := SetStateConnected(c);
            && Common(r) && !r.closed && r.error.None? && TxValid(TxWorldOf(r)) && r.current.Main?
            && r.slots == CONNECTED_SLOTS && r.conn.entries == [] && r.rx == c.rx && r.tx == c.tx
            && r.main.pos == 0
  {
    hide WellFormed, RxInv;
    var open := SetCurrentStore(c.(error := None, closed := false), Main);
    assert Common(open);
    CleanupCommon(open, !c.cleanSession);
    var r := SetStateConnected(c);
    assert Common(r);
    WellStoredUnsent(r, Main);
    RestIsValid(TxWorldOf(r));
  }

  // ----- public requests -----

  lemma AppendKeeps(c: Client, e: Entry)
    requires Common(c) && WellFormed(e) && !e.kind.Connect?
    ensures var (s, _) := c.main.Append(e); Common(c.(main := s))
  {
    hide WellFormed, RxInv;
  }

  lemma AppendKeepsTx(w: TxWorld, e: Entry)
    requires TxValid(w) && WellFormed(e)
    ensures TxValid(w.(store := w.store.Append(e).0))
  {
    hide WellFormed, Fields, FieldsBytes;
    TxStepKeepsValid(Env(true, true, true, true, _ => AllocateSuccess, _ => true), w, Enqueue(e));
  }

  lemma AcceptInv(c: Client, e: Entry)
    requires Inv(c) && IsConnected(c) && WellFormed(e) && !e.kind.Connect?
    ensures Inv(Accept(c, e).0) && IsConnected(Accept(c, e).0)
  {
    hide WellFormed, RxInv, TxValid;
    AppendKeeps(c, e);
    AppendKeepsTx(TxWorldOf(c), e);
    assert TxWorldOf(Accept(c, e).0) == TxWorldOf(c).(store := c.main.Append(e).0);
  }

  lemma TakeIdInv(c: Client)
    requires Inv(c) && IsConnected(c)
    ensures Inv(TakeId(c)) && IsConnected(TakeId(c))
  {
    hide WellFormed, RxInv, Fields;
  }

  lemma RequestInv(c: Client, op: Op)
    requires Inv(c) && IsRequest(op)
    ensures Inv(Request(c, op).0)
  {
    hide RxInv, TxValid, Inv;
    SlotsTellPhase(c);
    match op {
      case DoConnect(q, ref) => ConnectInv(c, q, ref);
      case DoSubscribe(subs, ref) => if c.slots.subscribe && ValidSubscribe(subs) {
        TakeIdInv(c);
        AcceptInv(TakeId(c), Entry(Subscribe, Value(c.main.nextId, ref, SubscribeBody(subs))));
      }
      case DoUnsubscribe(subs, ref) => if c.slots.unsubscribe && ValidSubscribe(subs) {
        TakeIdInv(c);
        AcceptInv(TakeId(c), Entry(Unsubscribe, Value(c.main.nextId, ref, SubscribeBody(subs))));
      }
      case DoPublish(p, ref) => if c.slots.publish && ValidPublish(p) {
        if p.qos == 0 {
          AcceptInv(c, Entry(Publish0, Value(0, ref, PublishBody(p))));
        } else {
          TakeIdInv(c);
          AcceptInv(TakeId(c),
            Entry(if p.qos == 1 then Publish1 else Publish2, Value(c.main.nextId, ref, PublishBody(p))));
        }
      }
      case DoDisconnect => if c.slots.disconnect { AcceptInv(c, Entry(Disconnect, ZERO_VALUE)); }
    }
  }

  /** The function table tells the phase. */
  lemma SlotsTellPhase(c: Client)
    requires Inv(c)
    ensures c.slots.connect <==> IsInitial(c)
    ensures c.slots.subscribe || c.slots.unsubscribe || c.slots.publish || c.slots.disconnect || c.slots.pingreq ==>
              IsConnected(c)
  {
    hide WellFormed, RxInv, TxValid;
  }

  lemma ResetRxInv()
    ensures RxInv(RESET_RX)
  {
  }

  lemma ConnectInv(c: Client, q: ConnectRequest, ref: nat)
    requires Inv(c)
    ensures Inv(ConnectRequested(c, q, ref).0)
  {
    hide RxInv;
    if c.slots.connect && ValidConnect(q) {
      var e := Entry(Connect, Value(0, ref, ConnectBody(q)));
      var (s, ok) := c.conn.Append(e);
      if !ok { return; }
      assert s.entries == [e];
      var r := ConnectRequested(c, q, ref).0;
      assert WellFormed(e);
      RestIsValid(TxWorldOf(r));
      ResetRxInv();
    }
  }

  // ----- one received byte -----

  /** In front of a byte, the link sees the current store and the byte has one of the four effects. */
  lemma DecodeEffect(env: Env, c: Client, b: byte) returns (eff: Effect)
    requires Common(c) && c.rx.error.None?
    ensures StepGood(LinkOf(c), RxStep(env, LinkOf(c), b), eff)
    ensures WithLink(c, RxStep(env, LinkOf(c), b).link).main.Valid()
  {
    hide WellFormed, RxInv, RxStep, StepGood;
    WellStoredUnsent(c, c.rxStore);
    eff := RxStepGood(env, LinkOf(c), b);
  }

  lemma EffectKeepsStore(l: Link, m: Link, eff: Effect)
    requires MarkedExpect(l.store) && HasEffect(l, m, eff)
    requires forall e :: e in l.store.entries ==> WellFormed(e)
    ensures MarkedExpect(m.store) && m.store.capacity == l.store.capacity
    ensures forall e :: e in m.store.entries ==> WellFormed(e)
    ensures (forall e :: e in l.store.entries ==> !e.kind.Connect?) ==>
              forall e :: e in m.store.entries ==> !e.kind.Connect?
    ensures m.store.nextId == l.store.nextId
  {
    match eff {
      case Nothing =>
      case Take(kind, id, v) => PopMarkedKeeps(l.store, kind, id);
      case Acknowledge(e) =>
      case Release(id, v) =>
        PopMarkedKeeps(l.store, Publish2, id);
        assert WellFormed(Entry(Publish2, v));
    }
  }

  /** The effects leave the encoder inside the entry it was encoding. */
  lemma EffectKeepsTx(w: TxWorld, l: Link, m: Link, eff: Effect)
    requires TxValid(w) && l.store == w.store && HasEffect(l, m, eff) && MarkedExpect(l.store)
    requires forall e :: e in l.store.entries ==> WellFormed(e)
    ensures TxValid(w.(store := m.store))
  {
    hide Fields, TxValid, Pending, FieldsBytes;
    match eff {
      case Nothing => assert w.(store := m.store) == w;
      case Take(kind, id, v) => RespondKeepsCurrent(w, kind, id);
      case Acknowledge(e) => AppendKeepsTx(w, e);
      case Release(id, v) =>
        RespondKeepsCurrent(w, Publish2, id);
        PopMarkedKeeps(l.store, Publish2, id);
        assert WellFormed(Entry(Publish2, v));
        AppendKeepsTx(w.(store := l.store.PopMarked(Publish2, id).0), Entry(Pubrel, v));
    }
  }

  /** Before CONNACK only the CONNECT can leave its store, and nothing can enter it. */
  lemma EffectWhileConnecting(c: Client, m: Link, eff: Effect)
    requires Inv(c) && IsConnecting(c) && HasEffect(LinkOf(c), m, eff)
    ensures m.store.entries == [] ==> m.rx.slot.body.ConnectBody?
    ensures m.store.entries != [] ==> m.store == c.conn && (m.rx == RESET_RX || m.rx.slot == c.rx.slot)
  {
    hide RxInv, TxValid;
    match eff {
      case Nothing =>
      case Take(kind, id, v) =>
        PopMarkedKeeps(c.conn, kind, id);
        assert WellFormed(Entry(kind, v));
      case Acknowledge(e) => assert c.conn.entries != [];
      case Release(id, v) =>
        PopMarkedKeeps(c.conn, Publish2, id);
        assert false;
    }
  }

  lemma EffectWhileConnected(c: Client, m: Link, eff: Effect)
    requires Inv(c) && IsConnected(c) && HasEffect(LinkOf(c), m, eff)
    ensures !m.rx.slot.body.ConnectBody?
  {
    hide RxInv, TxValid;
    match eff {
      case Take(kind, id, v) =>
        PopMarkedKeeps(c.main, kind, id);
        assert Entry(kind, v) in c.main.entries;
      case _ =>
    }
  }

  /** After the packet layer took a byte, before a complete packet's callback is made. */
  predicate Received(c: Client)
  {
    && WellStored(c) && MarkedExpect(c.main) && MarkedExpect(c.conn) && c.conn.capacity == 1
    && (forall e :: e in c.main.entries ==> !e.kind.Connect?)
    && (forall e :: e in c.conn.entries ==> e.kind.Connect?)
    && c.rxStore == c.current && c.txStore == c.current && c.ids.Valid()
    && |c.readBuf| <= c.readCap && |c.writeBuf| <= c.writeCap
    && !c.closed && c.error.None? && c.tx.error.None? && TxValid(TxWorldOf(c))
    && (if c.current.Conn?
        then c.slots == NO_SLOTS && !c.tx.closed && (c.conn.entries == [] <==> c.rx.slot.body.ConnectBody?)
        else c.slots == CONNECTED_SLOTS && c.conn.entries == [] && !c.rx.slot.body.ConnectBody?)
  }

  lemma IdsStayValid(env: Env, l: Link, b: byte)
    requires RxInv(l.rx) && l.rx.error.None? && l.ids.Valid() && l.store.Valid()
    ensures RxStep(env, l, b).link.ids.Valid() && RxStep(env, l, b).link.ids.capacity == l.ids.capacity
  {
    hide RxStep, RxInv, HasIdChange;
    var change := RxStepIdChange(env, l, b);
    IdChangeKeepsValid(l, RxStep(env, l, b).link, change);
  }

  lemma ReceivedAfterByte(env: Env, c: Client, b: byte) returns (eff: Effect)
    requires Inv(c) && !c.closed && c.error.None?
    ensures var out := RxStep(env, LinkOf(c), b);
            && StepGood(LinkOf(c), out, eff) && Received(WithLink(c, out.link))
  {
    hide WellFormed, RxInv, RxStep, TxValid;
    eff := DecodeEffect(env, c, b);
    var m := RxStep(env, LinkOf(c), b).link;
    var next := WithLink(c, m);
    EffectKeepsStore(LinkOf(c), m, eff);
    EffectKeepsTx(TxWorldOf(c), LinkOf(c), m, eff);
    IdsStayValid(env, LinkOf(c), b);
    assert TxWorldOf(next).(log := c.log) == TxWorldOf(c).(store := m.store);
    LogDoesNotMatter(TxWorldOf(next).(log := c.log), next.log);
    if c.current.Conn? {
      EffectWhileConnecting(c, m, eff);
    } else {
      EffectWhileConnected(c, m, eff);
    }
  }

  lemma LogDoesNotMatter(w: TxWorld, log: seq<Event>)
    requires TxValid(w)
    ensures TxValid(w.(log := log))
  {
    hide WellFormed, Fields;
  }

  /** The callback of an accepting CONNACK opens the session at a packet boundary of the encoder. */
  lemma FinishConnackInv(env: Env, c: Client)
    requires Received(c) && RxComplete(c.rx) && c.rx.slot.body.ConnectBody?
    ensures var r := FinishPacket(env, c); if r.rx.error.Some? then Common(r) else Inv(r) && IsOpen(r)
  {
    hide WellFormed, TxValid, RxInv, CleanupStores, RxComplete;
    ResetRxInv();
    CompleteRxInv(c);
    var q := c.rx.slot.body.connect;
    ConnectingAtRest(c);
    var told := c.(cleanSession := q.cleanSession, main := c.main.(keepAlive := q.keepAlive), rx := RESET_RX);
    assert Common(told);
    SetStateConnectedInv(told);
    var r := SetStateConnected(told);
    var finished := FinishPacket(env, c);
    RxDoesNotMatter(told, c.rx);
    assert finished == r.(rx := finished.rx, log := finished.log, audit := finished.audit);
    assert TxWorldOf(finished) == TxWorldOf(r).(log := finished.log);
    LogDoesNotMatter(TxWorldOf(r), finished.log);
    assert finished.rx.error.Some? ==> finished.rx == FailRx(c.rx, finished.rx.error.value);
  }

  lemma RxDoesNotMatter(c: Client, rx: Rx)
    requires c.main.Valid()
    ensures SetStateConnected(c.(rx := rx)) == SetStateConnected(c).(rx := rx)
  {
  }

  /** The callback of any other complete packet stays in the session. */
  lemma FinishResponseInv(env: Env, c: Client)
    requires Received(c) && RxComplete(c.rx) && !c.rx.slot.body.ConnectBody?
    ensures var r := FinishPacket(env, c); if r.rx.error.Some? then Common(r) else Inv(r) && IsOpen(r)
  {
    hide WellFormed, TxValid, RxInv, RxComplete;
    ResetRxInv();
    CompleteRxInv(c);
    var finished := FinishPacket(env, c);
    assert TxWorldOf(finished) == TxWorldOf(c).(log := finished.log);
    LogDoesNotMatter(TxWorldOf(c), finished.log);
  }

  lemma ConnectingAtRest(c: Client)
    requires Received(c) && c.current.Conn? && c.conn.entries == []
    ensures c.tx.pos == 0 && c.tx.offset == 0 && c.tx.built.None?
  {
    hide WellFormed, Fields;
  }

  lemma CompleteRxInv(c: Client)
    requires RxComplete(c.rx)
    ensures forall e :: RxInv(FailRx(c.rx, e))
  {
    hide WellFormed;
  }

  // ----- every step -----

  lemma ReceivedInv(c: Client)
    requires Received(c) && RxInv(c.rx)
    ensures if c.rx.error.Some? then Common(c) else Inv(c)
  {
    hide WellFormed, TxValid, RxInv;
  }

  /** A packet's callback leaves the staging buffers and their history alone. */
  lemma FinishPacketBuffers(env: Env, c: Client)
    requires c.main.Valid()
    ensures var r := FinishPacket(env, c);
            && r.readBuf == c.readBuf && r.readCap == c.readCap && r.writeBuf == c.writeBuf && r.writeCap == c.writeCap
            && r.audit == c.audit.(slotCalled := r.audit.slotCalled)
  {
    hide CallSlot;
    CallSlotBuffers(env, c);
  }

  lemma CallSlotBuffers(env: Env, c: Client)
    requires c.main.Valid()
    ensures var r := CallSlot(env, c).0;
            && r.readBuf == c.readBuf && r.readCap == c.readCap && r.writeBuf == c.writeBuf && r.writeCap == c.writeCap
            && r.audit == c.audit
  {
    hide SetStateConnected;
    if c.rx.slot.body.ConnectBody? {
      var q := c.rx.slot.body.connect;
      ConnectedBuffers(c.(cleanSession := q.cleanSession, main := c.main.(keepAlive := q.keepAlive)));
    }
  }

  lemma ConnectedBuffers(c: Client)
    requires c.main.Valid()
    ensures var r := SetStateConnected(c);
            && r.readBuf == c.readBuf && r.readCap == c.readCap && r.writeBuf == c.writeBuf && r.writeCap == c.writeCap
            && r.audit == c.audit
  {
    hide KeepSession, FlushLog;
  }

  // ----- decoding while closed -----

  lemma FirstIsNoAck(s: StoreState)
    requires MarkedExpect(s) && s.pos > 0
    ensures exists e :: e in s.entries && !IsAck(e)
  {
    assert s.entries[0] in s.entries && ExpectsResponse(s.entries[0].kind);
  }

  /** A closed client has nothing sent, so no response finds its request: only acknowledgements enter the
      connect store. */
  lemma EffectWhileClosed(c: Client, m: Link, eff: Effect)
    requires Inv(c) && IsInitial(c) && HasEffect(LinkOf(c), m, eff)
    ensures eff.Nothing? || eff.Acknowledge?
    ensures m.store.Valid() && m.store.pos == 0 && m.store.capacity == c.conn.capacity
    ensures forall e :: e in m.store.entries ==> IsAck(e) && WellFormed(e)
  {
    hide RxInv;
    if c.conn.pos > 0 { FirstIsNoAck(c.conn); }
  }

  /** What decoding while closed keeps, before the callback of a complete packet. */
  predicate ReceivedClosed(c: Client)
  {
    && WellStored(c) && MarkedExpect(c.main) && MarkedExpect(c.conn) && c.conn.capacity == 1
    && (forall e :: e in c.main.entries ==> !e.kind.Connect?)
    && c.rxStore == c.current && c.txStore == c.current && c.ids.Valid()
    && |c.readBuf| <= c.readCap && |c.writeBuf| <= c.writeCap
    && IsInitial(c)
  }

  lemma ReceivedWhileClosed(env: Env, c: Client, b: byte) returns (eff: Effect)
    requires Inv(c) && IsInitial(c) && c.rx.error.None?
    ensures var out := RxStep(env, LinkOf(c), b);
            && StepGood(LinkOf(c), out, eff) && ReceivedClosed(WithLink(c, out.link))
               && (eff.Nothing? || eff.Acknowledge?)
  {
    hide WellFormed, RxInv, RxStep, TxValid, HasEffect;
    eff := DecodeEffect(env, c, b);
    var m := RxStep(env, LinkOf(c), b).link;
    EffectWhileClosed(c, m, eff);
    IdsStayValid(env, LinkOf(c), b);
  }

  lemma FinishWhileClosed(env: Env, c: Client)
    requires ReceivedClosed(c) && RxComplete(c.rx)
    ensures var r := FinishPacket(env, c);
            && r == c.(rx := r.rx, log := r.log, audit := r.audit)
            && if r.rx.error.Some? then Common(r) else Inv(r) && IsInitial(r)
  {
    hide WellFormed, RxInv, RxComplete;
    ResetRxInv();
    CompleteRxInv(c);
  }

  lemma DecodeWhileClosed(env: Env, c: Client, b: byte)
    requires Inv(c) && IsInitial(c) && c.rx.error.None?
    ensures var r := DecodeByte(env, c, b); if r.rx.error.Some? then Common(r) else Inv(r) && IsInitial(r)
    ensures DecodeByte(env, c, b).main == c.main && DecodeByte(env, c, b).closed
  {
    hide WellFormed, RxInv, RxStep, RxComplete, FinishPacket, TxValid;
    var eff := ReceivedWhileClosed(env, c, b);
    var out := RxStep(env, LinkOf(c), b);
    if out.call { FinishWhileClosed(env, WithLink(c, out.link)); }
  }

  /** The decoder can take a byte: the client has no error and neither has its decoder. */
  predicate CanDecode(c: Client)
  {
    Inv(c) && c.error.None? && c.rx.error.None?
  }

  lemma DecodingFacts(c: Client)
    requires CanDecode(c)
    ensures c.rxStore == c.current && RxInv(c.rx) && LinkOf(c).store.Valid() && c.main.Valid() && c.conn.Valid()
            && LinkOf(c).rx.error.None?
    ensures if c.closed then IsInitial(c) else IsOpen(c) && (IsConnecting(c) || IsConnected(c))
  {
    hide WellFormed, RxInv, TxValid;
  }

  lemma ByteReceived(env: Env, c: Client, b: byte) returns (eff: Effect)
    requires CanDecode(c)
    ensures LinkOf(c).store.Valid()
    ensures var out := RxStep(env, LinkOf(c), b);
            var next := WithLink(c, out.link);
            && StepGood(LinkOf(c), out, eff) && WellStored(next)
            && if c.closed then ReceivedClosed(next) && (eff.Nothing? || eff.Acknowledge?) else Received(next)
  {
    hide WellFormed, RxInv, RxStep, TxValid, HasEffect;
    DecodingFacts(c);
    if c.closed { eff := ReceivedWhileClosed(env, c, b); } else { eff := ReceivedAfterByte(env, c, b); }
  }

  lemma DecodeByteBuffers(env: Env, c: Client, b: byte)
    requires c.main.Valid() && c.conn.Valid()
    ensures var r := DecodeByte(env, c, b);
            && r.readBuf == c.readBuf && r.readCap == c.readCap && r.writeBuf == c.writeBuf && r.writeCap == c.writeCap
            && r.audit.received == c.audit.received && r.audit.decoded == c.audit.decoded
            && r.audit.encoded == c.audit.encoded && r.audit.written == c.audit.written
  {
    hide RxStep, FinishPacket;
    var out := RxStep(env, LinkOf(c), b);
    if out.call { FinishPacketBuffers(env, WithLink(c, out.link)); }
  }

  lemma DecodeByteInv(env: Env, c: Client, b: byte)
    requires Inv(c) && !c.closed && c.error.None?
    ensures var r := DecodeByte(env, c, b); if r.rx.error.Some? then Common(r) else Inv(r) && IsOpen(r)
    ensures var r := DecodeByte(env, c, b);
            && r.readBuf == c.readBuf && r.readCap == c.readCap && r.writeBuf == c.writeBuf && r.writeCap == c.writeCap
            && r.audit.received == c.audit.received && r.audit.decoded == c.audit.decoded
            && r.audit.encoded == c.audit.encoded && r.audit.written == c.audit.written
  {
    hide WellFormed, TxValid, RxInv, RxStep, Received, RxComplete, CleanupStores;
    var eff := ReceivedAfterByte(env, c, b);
    var out := RxStep(env, LinkOf(c), b);
    var next := WithLink(c, out.link);
    if out.call {
      FinishPacketBuffers(env, next);
      if next.rx.slot.body.ConnectBody? { FinishConnackInv(env, next); } else { FinishResponseInv(env, next); }
    } else {
      ReceivedInv(next);
    }
  }

  lemma BuffersDoNotMatter(c: Client, readBuf: seq<byte>, writeBuf: seq<byte>, audit: Audit)
    requires |readBuf| <= c.readCap && |writeBuf| <= c.writeCap
    ensures Common(c) ==> Common(c.(readBuf := readBuf, writeBuf := writeBuf, audit := audit))
    ensures Inv(c) ==> Inv(c.(readBuf := readBuf, writeBuf := writeBuf, audit := audit))
  {
    hide WellFormed, TxValid, RxInv;
    assert TxWorldOf(c.(readBuf := readBuf, writeBuf := writeBuf, audit := audit)) == TxWorldOf(c);
  }

  lemma DecodeStepInv(env: Env, c: Client)
    requires Inv(c)
    ensures Inv(DecodeStep(env, c))
  {
    hide WellFormed, TxValid, RxInv, DecodeByte, Common, IsConnecting, IsConnected, IsInitial, IsFailed;
    CommonBasics(c);
    if c.closed && c.error.None? { ClosedIsInitial(c); }
    if c.error.None? && c.rx.error.Some? {
      BuffersDoNotMatter(c, [], c.writeBuf, c.audit);
      FailWithInv(c.(readBuf := []), c.rx.error.value);
    } else if c.error.None? && c.readBuf != [] {
      if c.closed { DecodeWhileClosed(env, c, c.readBuf[0]); } else { DecodeByteInv(env, c, c.readBuf[0]); }
      DecodeByteBuffers(env, c, c.readBuf[0]);
      var next := DecodeByte(env, c, c.readBuf[0]);
      match next.rx.error {
        case Some(e) =>
          BuffersDoNotMatter(next, [], next.writeBuf, next.audit);
          FailWithInv(next.(readBuf := []), e);
        case None =>
          BuffersDoNotMatter(next, c.readBuf[1..], next.writeBuf,
                             next.audit.(decoded := next.audit.decoded + [c.readBuf[0]]));
      }
    }
  }

  lemma ClosedIsInitial(c: Client)
    requires Inv(c) && c.closed && c.error.None?
    ensures IsInitial(c)
  {
    hide Common;
  }

  lemma CommonBasics(c: Client)
    requires Common(c)
    ensures WellStored(c) && |c.readBuf| <= c.readCap && |c.writeBuf| <= c.writeCap
  {
    hide WellFormed;
  }

  /** A call of the encoder keeps the encoder inside the current entry, and never touches the CONNECT. */
  lemma EncodedInv(env: Env, c: Client, room: nat)
    requires Inv(c) && c.error.None?
    ensures var out := Encode(env, TxWorldOf(c), room);
            var next := WithTxWorld(c, out.world);
            if out.world.tx.error.Some? then Common(next) else Inv(next)
  {
    hide WellFormed, TxValid, RxInv, EncodeLoop, EmitsPending;
    WellStoredUnsent(c, c.txStore);
    var w := TxWorldOf(c);
    var next := WithTxWorld(c, Encode(env, w, room).world);
    if c.tx.error.None? {
      EncodedCommon(env, c, room);
      if c.closed { ClosedEncodesNothing(env, w, room); } else { EncodedStaysValid(env, w, room); }
      assert TxWorldOf(next) == Encode(env, w, room).world;
    } else {
      assert next == c;
    }
  }

  lemma EncodedStaysValid(env: Env, w: TxWorld, room: nat)
    requires TxValid(w) && w.tx.error.None?
    ensures TxValid(EncodeLoop(env, w, room).world)
  {
    hide WellFormed, TxValid, EncodeLoop, Pending;
    EncodeEmitsPending(env, w, room);
  }

  lemma EncodedCommon(env: Env, c: Client, room: nat)
    requires Inv(c) && c.error.None? && c.tx.error.None?
    ensures UnsentWellFormed(TxWorldOf(c).store)
    ensures var w := EncodeLoop(env, TxWorldOf(c), room).world;
            && Common(WithTxWorld(c, w))
            && (c.current.Conn? ==> w.store.entries == c.conn.entries && w.tx.closed == c.tx.closed)
  {
    hide WellFormed, TxValid, RxInv, EncodeLoop;
    WellStoredUnsent(c, c.txStore);
    EncodeKeepsStore(env, TxWorldOf(c), room);
    if c.closed { ClosedEncodesNothing(env, TxWorldOf(c), room); }
  }

  lemma ClosedEncodesNothing(env: Env, w: TxWorld, room: nat)
    requires UnsentWellFormed(w.store) && w.tx.closed
    ensures EncodeLoop(env, w, room).world == w
  {
  }

  lemma EncodeStepInv(env: Env, c: Client)
    requires Inv(c)
    ensures WellStored(c) && Inv(EncodeStep(env, c))
  {
    hide WellFormed, TxValid, RxInv, Encode, IsConnecting, IsConnected, IsInitial, IsFailed;
    CommonBasics(c);
    if c.error.None? && |c.writeBuf| < c.writeCap {
      var room := c.writeCap - |c.writeBuf|;
      EncodedInv(env, c, room);
      var out := Encode(env, TxWorldOf(c), room);
      EncodeFits(env, c, room);
      var sent := WithTxWorld(c, out.world);
      var next := sent.(writeBuf := c.writeBuf + out.bytes, audit := c.audit.(encoded := c.audit.encoded + out.bytes));
      BuffersDoNotMatter(sent, c.readBuf, c.writeBuf + out.bytes, next.audit);
      match out.world.tx.error {
        case Some(e) => FailWithInv(next, e);
        case None =>
      }
    }
  }

  lemma EncodeFits(env: Env, c: Client, room: nat)
    requires Inv(c) && c.error.None?
    ensures UnsentWellFormed(TxWorldOf(c).store) && |Encode(env, TxWorldOf(c), room).bytes| <= room
  {
    hide WellFormed, TxValid, RxInv;
    WellStoredUnsent(c, c.txStore);
    if c.tx.error.None? && !c.closed { EncodeEmitsPending(env, TxWorldOf(c), room); }
  }

  lemma FinalizeInv(env: Env, c: Client)
    requires Inv(c)
    ensures Inv(Finalize(env, c)) && Finalize(env, c).error == Some(Closed)
  {
    hide WellFormed, TxValid, RxInv;
    var failed := FailWith(c, Closed);
    FailWithInv(c, Closed);
    var called := CallSlot(env, failed).0;
    assert called == failed.(log := called.log);
    var finished := FinishSlot(env, failed);
    assert Common(finished);
    CleanupCommon(finished, false);
  }

  lemma KeepAliveInv(c: Client, now: Time)
    requires Inv(c)
    ensures Inv(KeepAliveStep(c, now))
  {
    hide TxValid, RxInv;
    SlotsTellPhase(c);
    if c.error.None? {
      var (active, count, left) := StoreOf(c, c.current).GetTimeout(now);
      if active && left == ZERO_TIME {
        if count > 0 {
          FailWithInv(c, Timeout);
        } else if c.slots.pingreq {
          AcceptInv(c, Entry(Pingreq, ZERO_VALUE));
        }
      }
    }
  }

  lemma StampDoesNotMatter(c: Client, w: Which, now: Time)
    requires Inv(c)
    ensures Inv(WithStore(c, w, StoreOf(c, w).(lastTouch := now)))
  {
    hide WellFormed, RxInv, Fields;
  }

  lemma TimeoutDoesNotMatter(c: Client, secs: U16)
    requires Inv(c)
    ensures Inv(c.(main := c.main.(timeout := secs), conn := c.conn.(timeout := secs)))
  {
    hide WellFormed, RxInv, Fields;
  }

  lemma StepIsRequest(env: Env, c: Client, op: Op)
    requires WellStored(c) && IsRequest(op)
    ensures Step(env, c, op) == Request(c, op).0
  {
    hide WellStored, Request;
  }

  /** Every step keeps the invariant. */
  lemma StepKeepsInv(env: Env, c: Client, op: Op)
    requires Inv(c)
    ensures WellStored(c) && Inv(Step(env, c, op))
  {
    hide Common, IsInitial, IsConnecting, IsConnected, IsFailed, Inv, Request, DecodeStep, EncodeStep, Finalize,
         KeepAliveStep, SetStateInitial, WellFormed;
    InvCommon(c);
    if IsRequest(op) {
      RequestInv(c, op);
    } else {
      match op {
        case DoReset(now) => SetStateInitialInv(c, now);
        case DoFinalize => FinalizeInv(env, c);
        case SetTimeout(secs) => TimeoutDoesNotMatter(c, secs);
        case KeepAlive(now) => KeepAliveInv(c, now);
        case EncodeMore => EncodeStepInv(env, c);
        case Write(n) =>
          if n <= |c.writeBuf| {
            BuffersDoNotMatter(c, c.readBuf, c.writeBuf[n..], c.audit.(written := c.audit.written + c.writeBuf[..n]));
          }
        case Read(bytes) =>
          if |c.readBuf| + |bytes| <= c.readCap {
            BuffersDoNotMatter(c, if c.rx.error.Some? then [] else c.readBuf + bytes, c.writeBuf,
                               c.audit.(received := c.audit.received + bytes));
          }
        case DecodeOne => DecodeStepInv(env, c);
        case Touch(now) => StampDoesNotMatter(c, c.current, now);
        case Eof(now) => SetStateInitialInv(c, now);
        case IoFail(e) => FailWithInv(c, e);
        case _ =>
      }
    }
  }

  lemma InvCommon(c: Client)
    requires Inv(c)
    ensures Common(c) && WellStored(c) && |c.readBuf| <= c.readCap && |c.writeBuf| <= c.writeCap
  {
    hide WellFormed, RxInv, TxValid;
  }

  lemma InitialInv(storeCap: nat, idCap: nat, readCap: nat, writeCap: nat, now: Time)
    ensures Inv(Initial(storeCap, idCap, readCap, writeCap, now))
  {
  }

  function Run(env: Env, c: Client, ops: seq<Op>): Client
    requires Inv(c)
    decreases |ops|
  {
    if ops == [] then c
    else
      StepKeepsInv(env, c, ops[0]);
      Run(env, Step(env, c, ops[0]), ops[1..])
  }

  lemma {:induction false} RunKeepsInv(env: Env, c: Client, ops: seq<Op>)
    requires Inv(c)
    ensures Inv(Run(env, c, ops))
    decreases |ops|
  {
    hide Inv, Step, WellStored;
    if ops != [] {
      StepKeepsInv(env, c, ops[0]);
      RunKeepsInv(env, Step(env, c, ops[0]), ops[1..]);
    }
  }
}
