/** When requests are accepted, what a refused request and a finalized client change, and the switch from the
    connect store to the main store. */
module Reconnect {
  import opened Types
  import opened Clock
  import opened PacketStore
  import opened Wire
  import opened Transmit
  import opened Receive
  import opened ReceiveInvariant
  import opened Session
  import opened SessionInvariant

  // ----- the session state machine -----

  /** What the validation of a connect request asks for: no string over 65535 bytes; a will has a topic and a
      message, and only a will is retained; an empty client id needs a clean session; a password needs a user
      name; the will QoS is 0, 1 or 2. */
  predicate GoodConnect(q: ConnectRequest)
  {
    && |q.clientId| <= 65535 && |q.willTopic| <= 65535 && |q.willMessage| <= 65535
    && |q.userName| <= 65535 && |q.password| <= 65535
    && (|q.willTopic| == 0 <==> |q.willMessage| == 0) && (q.willRetain ==> |q.willTopic| > 0)
    && (|q.clientId| == 0 ==> q.cleanSession) && (|q.password| > 0 ==> |q.userName| > 0)
    && (q.willQos == 0 || q.willQos == 1 || q.willQos == 2)
  }

  /** At least one topic, none empty or over 65535 bytes, each with QoS 0, 1 or 2. */
  predicate GoodSubscriptions(subs: seq<Subscription>)
  {
    |subs| > 0 && forall i :: 0 <= i < |subs| ==>
      && 1 <= |subs[i].topic| <= 65535
      && (subs[i].requestedQos == 0 || subs[i].requestedQos == 1 || subs[i].requestedQos == 2)
  }

  /** A topic of 1 to 65535 bytes, QoS 0, 1 or 2, and a packet of at most 268435455 bytes behind the header. */
  predicate GoodMessage(p: PublishRequest)
  {
    && 1 <= |p.topic| <= 65535 && (p.qos == 0 || p.qos == 1 || p.qos == 2)
    && 2 + |p.topic| + (if p.qos > 0 then 2 else 0) + |p.payload| <= 268435455
  }

  /** When the public calls succeed, in every reachable state. */
  lemma WhenRequestsSucceed(c: Client, op: Op)
    requires Inv(c) && IsRequest(op)
    ensures Request(c, op).1 <==>
      match op
      case DoConnect(q, _) => IsInitial(c) && c.conn.entries == [] && GoodConnect(q)
      case DoSubscribe(subs, _) => IsConnected(c) && |c.main.entries| < c.main.capacity && GoodSubscriptions(subs)
      case DoUnsubscribe(subs, _) => IsConnected(c) && |c.main.entries| < c.main.capacity && GoodSubscriptions(subs)
      case DoPublish(p, _) => IsConnected(c) && |c.main.entries| < c.main.capacity && GoodMessage(p)
      case DoDisconnect => IsConnected(c) && |c.main.entries| < c.main.capacity
  {
    hide WellFormed, TxValid, RxInv, ValidConnect, ValidSubscribe, ValidPublish;
    SlotsTellPhase(c);
    match op {
      case DoConnect(q, _) => ConnectIsGood(q);
      case DoSubscribe(subs, _) => SubscriptionsAreGood(subs);
      case DoUnsubscribe(subs, _) => SubscriptionsAreGood(subs);
      case DoPublish(p, _) => MessageIsGood(p);
      case _ =>
    }
  }

  lemma ConnectIsGood(q: ConnectRequest)
    ensures ValidConnect(q) <==> GoodConnect(q)
  {
  }

  lemma SubscriptionsAreGood(subs: seq<Subscription>)
    ensures ValidSubscribe(subs) <==> GoodSubscriptions(subs)
  {
  }

  lemma MessageIsGood(p: PublishRequest)
    ensures ValidPublish(p) <==> GoodMessage(p)
  {
  }

  /** A request that is refused changes nothing but the packet id counter. */
  lemma RefusedRequestsChangeNothing(c: Client, op: Op)
    requires IsRequest(op) && !Request(c, op).1
    ensures var d := Request(c, op).0; d == c.(main := c.main.(nextId := d.main.nextId), audit := d.audit)
    ensures var d := Request(c, op).0; d.audit == c.audit.(issued := d.audit.issued)
  {
    hide ValidConnect, ValidSubscribe, ValidPublish, SetStateConnecting;
    match op {
      case DoSubscribe(subs, ref) =>
        RefusedAccept(TakeId(c), Entry(Subscribe, Value(c.main.nextId, ref, SubscribeBody(subs))));
      case DoUnsubscribe(subs, ref) =>
        RefusedAccept(TakeId(c), Entry(Unsubscribe, Value(c.main.nextId, ref, SubscribeBody(subs))));
      case DoPublish(p, ref) =>
        RefusedAccept(TakeId(c),
          Entry(if p.qos == 1 then Publish1 else Publish2, Value(c.main.nextId, ref, PublishBody(p))));
        RefusedAccept(c, Entry(Publish0, Value(0, ref, PublishBody(p))));
      case DoDisconnect => RefusedAccept(c, Entry(Disconnect, ZERO_VALUE));
      case _ =>
    }
    hide Accept;
  }

  lemma RefusedAccept(c: Client, e: Entry)
    ensures !Accept(c, e).1 ==> Accept(c, e).0 == c
  {
  }

  predicate SameTraffic(c: Client, d: Client)
  {
    d.readBuf == c.readBuf && d.writeBuf == c.writeBuf
    && d.audit.received == c.audit.received && d.audit.decoded == c.audit.decoded
    && d.audit.encoded == c.audit.encoded && d.audit.written == c.audit.written
    && (d.rx.error.None? ==> c.rx.error.None?)
  }

  lemma ClosedStep(env: Env, c: Client, op: Op)
    requires Inv(c) && WellStored(c) && c.error == Some(Closed)
    ensures var d := Step(env, c, op); d.error == Some(Closed) && SameTraffic(c, d)
    ensures IsRequest(op) ==> !Request(c, op).1
  {
    hide Inv, WellStored, Finalize, Request, SameTraffic;
    InvCommon(c);
    SameAsItself(c);
    if IsRequest(op) {
      ClosedRequest(c, op);
    } else if op.DoFinalize? {
      ClosedFinalize(env, c);
    }
    if op.SetTimeout? { TimeoutTraffic(c, op.secs); }
  }

  lemma SameAsItself(c: Client)
    ensures SameTraffic(c, c)
  {
  }

  lemma TimeoutTraffic(c: Client, secs: U16)
    ensures SameTraffic(c, c.(main := c.main.(timeout := secs), conn := c.conn.(timeout := secs)))
  {
  }

  lemma ClosedRequest(c: Client, op: Op)
    requires Inv(c) && c.error == Some(Closed) && IsRequest(op)
    ensures !Request(c, op).1 && Request(c, op).0.error == Some(Closed) && SameTraffic(c, Request(c, op).0)
  {
    hide Inv, TxValid, ValidConnect, ValidSubscribe, ValidPublish, Accept, SetStateConnecting;
    SlotsTellPhase(c);
    RefusedRequestsChangeNothing(c, op);
  }

  lemma ClosedFinalize(env: Env, c: Client)
    requires Inv(c) && c.main.Valid()
    ensures Finalize(env, c).error == Some(Closed) && SameTraffic(c, Finalize(env, c))
  {
    hide Inv, CleanupStores;
    FinalizeInv(env, c);
    CleanupFrame(FinishSlot(env, FailWith(c, Closed)), false);
  }

  lemma CleanupFrame(c: Client, keep: bool)
    requires c.main.Valid()
    ensures var d := CleanupStores(c, keep); d == c.(main := d.main, conn := d.conn, ids := d.ids, log := d.log)
    ensures var d := CleanupStores(c, keep); d.conn.entries == [] && (keep ==> d.main == KeepSession(c.main))
  {
  }

  /** After finalize no sequence of calls clears the error, accepts a request or moves a byte. */
  lemma {:induction false} FinalizedForever(env: Env, c: Client, ops: seq<Op>)
    requires Inv(c) && c.error == Some(Closed)
    ensures var d := Run(env, c, ops);
            && d.error == Some(Closed) && SameTraffic(c, d)
            && Inv(d) && forall op :: IsRequest(op) ==> !Request(d, op).1
    decreases |ops|
  {
    hide Inv, WellStored, Step, Request;
    RunKeepsInv(env, c, ops);
    if ops != [] {
      StepKeepsInv(env, c, ops[0]);
      ClosedStep(env, c, ops[0]);
      FinalizedForever(env, Step(env, c, ops[0]), ops[1..]);
    } else {
      InvCommon(c);
      forall op | IsRequest(op) ensures !Request(c, op).1 { ClosedStep(env, c, op); }
    }
  }

  // ----- the store switch -----

  /** CONNACK is the only way into the main store. It happens at a packet boundary of the encoder, with
      the CONNECT gone from its store; afterwards all three store pointers agree and the whole queue is
      unsent again. */
  lemma StoreSwitchAtPacketBoundary(env: Env, c: Client, op: Op)
    requires Inv(c) && WellStored(c) && c.current.Conn? && Step(env, c, op).current.Main?
    ensures op.DecodeOne? && IsConnecting(c) && c.rx.decoder.DConnack? && c.conn.entries == []
    ensures c.tx.pos == 0 && c.tx.offset == 0 && c.tx.built.None?
    ensures var d := Step(env, c, op);
            && d.rxStore.Main? && d.txStore.Main? && d.main.pos == 0 && d.conn.entries == []
            && d.tx == c.tx && d.encodes == c.encodes
            && (!d.closed ==> IsConnected(d))
            && d.cleanSession == c.rx.slot.body.connect.cleanSession
            && d.main.entries == (if d.cleanSession then [] else Kept(c.main.entries))
  {
    hide WellFormed, TxValid, RxInv, CleanupStores, EncodeStep, DecodeStep, Request, Finalize;
    if !op.DecodeOne? { StaysUnlessDecoding(env, c, op); }
    DecodeSwitches(env, c);
    StepKeepsInv(env, c, op);
  }

  lemma StaysUnlessDecoding(env: Env, c: Client, op: Op)
    requires Inv(c) && WellStored(c) && c.current.Conn? && !op.DecodeOne?
    ensures Step(env, c, op).current.Conn?
  {
    hide WellFormed, TxValid, RxInv, CleanupStores, Encode, Inv, FinishSlot, Request, EncodeStep, KeepAliveStep;
    WellStoredUnsent(c, c.txStore);
    if IsRequest(op) { RequestKeepsCurrent(c, op); }
    EncodeKeepsCurrent(env, c);
    match op {
      case KeepAlive(now) => KeepAliveKeepsCurrent(c, now);
      case DoReset(now) => CleanupFrame(
        SetCurrentStore(c.(error := None, closed := true, conn := c.conn.(lastTouch := now)), Conn), !c.cleanSession);
      case Eof(now) => CleanupFrame(
        SetCurrentStore(c.(error := None, closed := true, conn := c.conn.(lastTouch := now)), Conn), !c.cleanSession);
      case DoFinalize =>
        ClosedFinishKeepsStore(env, FailWith(c, Closed));
        CleanupFrame(FinishSlot(env, FailWith(c, Closed)), false);
      case _ =>
    }
  }

  lemma RequestKeepsCurrent(c: Client, op: Op)
    requires IsRequest(op)
    ensures Request(c, op).0.current == c.current
  {
    hide ValidConnect, ValidPublish, ValidSubscribe;
  }

  lemma EncodeKeepsCurrent(env: Env, c: Client)
    requires WellStored(c)
    ensures EncodeStep(env, c).current == c.current
  {
    hide Encode, WellStored;
  }

  lemma KeepAliveKeepsCurrent(c: Client, now: Time)
    ensures KeepAliveStep(c, now).current == c.current
  {
    hide StoreState.GetTimeout;
  }

  lemma ClosedFinishKeepsStore(env: Env, c: Client)
    requires c.main.Valid() && c.closed
    ensures FinishSlot(env, c).current == c.current
  {
    hide SetStateConnected;
  }

  lemma FinishPacketSwitches(env: Env, c: Client)
    requires Received(c) && c.current.Conn? && RxComplete(c.rx) && FinishPacket(env, c).current.Main?
    ensures c.rx.slot.body.ConnectBody? && c.conn.entries == []
    ensures var d := FinishPacket(env, c);
            && d.main.entries == (if c.rx.slot.body.connect.cleanSession then [] else Kept(c.main.entries))
            && d.main.pos == 0 && d.conn.entries == [] && d.tx == c.tx && d.encodes == c.encodes
            && d.rxStore.Main? && d.txStore.Main? && d.cleanSession == c.rx.slot.body.connect.cleanSession
            && d.closed == false
  {
    hide WellFormed, TxValid, RxComplete;
  }

  lemma DecodeSwitches(env: Env, c: Client)
    requires Inv(c) && WellStored(c) && c.current.Conn? && DecodeStep(env, c).current.Main?
    ensures IsConnecting(c) && c.rx.decoder.DConnack? && c.conn.entries == []
    ensures c.tx.pos == 0 && c.tx.offset == 0 && c.tx.built.None?
    ensures c.rx.slot.body.ConnectBody?
    ensures var d := DecodeStep(env, c);
            && d.rxStore.Main? && d.txStore.Main? && d.main.pos == 0 && d.conn.entries == []
            && d.tx == c.tx && d.encodes == c.encodes && d.cleanSession == c.rx.slot.body.connect.cleanSession
            && d.main.entries == (if d.cleanSession then [] else Kept(c.main.entries))
  {
    hide WellFormed, TxValid, RxStep, FinishPacket, RxComplete, HasEffect;
    assert c.error.None? && c.rx.error.None? && c.readBuf != [];
    var b := c.readBuf[0];
    if c.closed {
      ClosedIsInitial(c);
      DecodeWhileClosed(env, c, b);
      ClosedByteStays(env, c, b);
    }
    var eff := ReceivedAfterByte(env, c, b);
    var out := RxStep(env, LinkOf(c), b);
    var next := WithLink(c, out.link);
    assert out.call;
    FinishPacketSwitches(env, next);
    CompleteConnack(next);
    OpenLink(c);
    ConnackCompletesLater(env, LinkOf(c), b);
    ConnectInSlot(c);
  }

  lemma ClosedByteStays(env: Env, c: Client, b: byte)
    requires c.closed && c.current.Conn? && c.main.Valid() && c.conn.Valid()
    ensures DecodeByte(env, c, b).current.Conn?
  {
    hide RxStep;
  }

  lemma CompleteConnack(c: Client)
    requires RxComplete(c.rx) && c.rx.slot.body.ConnectBody?
    ensures c.rx.decoder.DConnack?
  {
  }

  lemma OpenLink(c: Client)
    requires Inv(c) && !c.closed && c.error.None?
    ensures RxInv(c.rx) && c.rx.error.None? && LinkOf(c).store.Valid()
    ensures IsConnecting(c) || IsConnected(c)
  {
    hide WellFormed, RxInv, TxValid;
  }

  /** A complete CONNACK had its CONNECT in the slot before its last byte. */
  lemma ConnackCompletesLater(env: Env, l: Link, b: byte)
    requires RxInv(l.rx) && l.rx.error.None? && l.store.Valid()
    requires RxStep(env, l, b).call && RxStep(env, l, b).link.rx.decoder.DConnack?
    ensures l.rx.headerFinished && l.rx.decoder.DConnack? && l.rx.slot.body.ConnectBody?
    ensures RxStep(env, l, b).link.rx.slot == l.rx.slot
  {
    hide PublishByte;
    if l.rx.headerFinished && l.rx.decoder.DPublish? { PublishKeepsDecoder(env, l, b); }
  }

  lemma ConnectInSlot(c: Client)
    requires Inv(c) && IsConnecting(c) && c.conn.entries == []
    ensures c.rx.slot.body.ConnectBody? && c.rx.decoder.DConnack?
    ensures c.tx.pos == 0 && c.tx.offset == 0 && c.tx.built.None?
  {
    hide Fields;
  }
}
