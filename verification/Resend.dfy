/** Resending after a reconnect that keeps the session (sections 4.4 and 4.6 of MQTT 3.1.1), and the
    single PINGREQ. */
module Resend {
  import opened Types
  import opened Clock
  import opened PacketStore
  import opened Wire
  import opened Transmit
  import opened Receive
  import opened ReceiveInvariant
  import opened Session
  import opened SessionInvariant
  import opened EntryTally
  import opened Reconnect

  /** Without a session on the network, whether closed, failed or connecting, but keeping the session. */
  predicate Offline(c: Client) { (c.closed || c.current.Conn?) && !c.cleanSession }

  /** The client stays so after every one of the steps. */
  predicate StaysOffline(env: Env, c: Client, ops: seq<Op>)
    requires Inv(c)
    decreases |ops|
  {
    && Offline(c)
    && (ops != [] ==>
          && !ops[0].DoFinalize?
          && (StepKeepsInv(env, c, ops[0]); StaysOffline(env, Step(env, c, ops[0]), ops[1..])))
  }

  /** What must survive until the session is resumed. */
  predicate Preserves(c: Client, d: Client)
  {
    Kept(d.main.entries) == Kept(c.main.entries) && d.encodes == c.encodes && d.cleanSession == c.cleanSession
  }

  /** The encoder counts no publication and makes no callback while it only has the CONNECT to send. */
  lemma {:induction false} ConnectIsNoPublish(env: Env, w: TxWorld, room: nat)
    requires UnsentWellFormed(w.store) && forall i :: w.store.pos <= i < |w.store.entries| ==>
               w.store.entries[i].kind.Connect?
    ensures EncodeLoop(env, w, room).world.encodes == w.encodes
    ensures w.tx.error.None? ==> EncodeLoop(env, w, room).world.tx.error in [None, Some(AssertionFailed)]
    decreases |w.store.entries| - w.store.pos,
              if w.store.HasCurrent() && w.tx.pos < |CurrentFields(w)| then |CurrentFields(w)| - w.tx.pos else 0
  {
    hide Fields, WellFormed, FieldBytes, FieldStep, Encodable;
    if w.tx.closed || !w.store.HasCurrent() {
    } else if w.tx.pos >= |CurrentFields(w)| {
      var next := FinishEntry(env, w);
      if next.tx.error.None? { ConnectIsNoPublish(env, next, room); }
    } else if !HeaderAborts(w) {
      var (result, count) := FieldStep(ActiveField(w), w.tx.offset, room);
      if result.Finished? {
        ConnectIsNoPublish(env, w.(tx := w.tx.(pos := w.tx.pos + 1, offset := 0, built := None)),
                           if count <= room then room - count else 0);
      }
    }
  }

  lemma EncodePreserves(env: Env, c: Client)
    requires Inv(c) && WellStored(c) && Offline(c)
    ensures Preserves(c, EncodeStep(env, c))
  {
    hide WellFormed, TxValid, EncodeLoop;
    WellStoredUnsent(c, c.txStore);
    if c.closed && c.error.None? {
      ClosedEncodesNothing(env, TxWorldOf(c), if |c.writeBuf| < c.writeCap then c.writeCap - |c.writeBuf| else 0);
    } else if c.error.None? && |c.writeBuf| < c.writeCap && c.tx.error.None? {
      assert forall i :: 0 <= i < |c.conn.entries| ==> c.conn.entries[i] in c.conn.entries;
      ConnectIsNoPublish(env, TxWorldOf(c), c.writeCap - |c.writeBuf|);
    }
  }

  lemma DecodePreserves(env: Env, c: Client)
    requires Inv(c) && WellStored(c) && Offline(c) && Offline(DecodeStep(env, c))
    ensures Preserves(c, DecodeStep(env, c))
  {
    hide WellFormed, TxValid, RxStep, FinishPacket, Received, ReceivedClosed, RxComplete, HasEffect, CleanupStores,
         Inv, Kept;
    if CanDecode(c) && c.readBuf != [] {
      var b := c.readBuf[0];
      DecodingFacts(c);
      if c.closed {
        DecodeWhileClosed(env, c, b);
        ClosedBytePreserves(env, c, b);
      } else {
        var eff := ByteReceived(env, c, b);
        var out := RxStep(env, LinkOf(c), b);
        var next := WithLink(c, out.link);
        if out.call { FinishPacketPreserves(env, next); }
      }
    }
  }

  lemma ClosedBytePreserves(env: Env, c: Client, b: byte)
    requires c.closed && c.main.Valid() && c.conn.Valid()
    ensures var d := DecodeByte(env, c, b); d.encodes == c.encodes && d.cleanSession == c.cleanSession
  {
    hide RxStep;
  }

  lemma FinishPacketPreserves(env: Env, c: Client)
    requires c.main.Valid() && !FinishPacket(env, c).cleanSession && !c.cleanSession && !c.closed
    ensures Preserves(c, FinishPacket(env, c))
  {
    hide CleanupStores;
    if c.rx.slot.body.ConnectBody? {
      var q := c.rx.slot.body.connect;
      var told := c.(cleanSession := q.cleanSession, main := c.main.(keepAlive := q.keepAlive));
      CleanupFrame(SetCurrentStore(told.(error := None, closed := false), Main), !told.cleanSession);
      KeptShrinks(c.main.entries);
    }
  }

  lemma InitialStatePreserves(c: Client, now: Time)
    requires c.main.Valid() && !c.cleanSession
    ensures SetStateInitial(c, now).main.entries == Kept(c.main.entries) && Preserves(c, SetStateInitial(c, now))
  {
    hide CleanupStores;
    CleanupFrame(SetCurrentStore(c.(error := None, closed := true, conn := c.conn.(lastTouch := now)), Conn), true);
    KeptShrinks(c.main.entries);
  }

  lemma StepPreserves(env: Env, c: Client, op: Op)
    requires Inv(c) && WellStored(c) && Offline(c) && !op.DoFinalize? && Offline(Step(env, c, op))
    ensures Preserves(c, Step(env, c, op))
  {
    hide WellStored, Inv, SetStateInitial, EncodeStep, DecodeStep, KeepAliveStep, Request, Kept;
    InvCommon(c);
    match op {
      case DoReset(now) => InitialStatePreserves(c, now);
      case Eof(now) => InitialStatePreserves(c, now);
      case EncodeMore => EncodePreserves(env, c);
      case DecodeOne => DecodePreserves(env, c);
      case KeepAlive(now) => TimerPreserves(c, now);
      case _ => if IsRequest(op) { RequestPreserves(c, op); }
    }
  }

  lemma RequestPreserves(c: Client, op: Op)
    requires Inv(c) && Offline(c) && IsRequest(op)
    ensures Preserves(c, Request(c, op).0)
  {
    hide Inv, TxValid, ValidConnect, ValidSubscribe, ValidPublish, Kept;
    SlotsTellPhase(c);
  }

  lemma {:induction false} OfflinePreserves(env: Env, c: Client, ops: seq<Op>)
    requires Inv(c) && StaysOffline(env, c, ops)
    ensures Inv(Run(env, c, ops)) && Preserves(c, Run(env, c, ops)) && Offline(Run(env, c, ops))
    decreases |ops|
  {
    hide Inv, WellStored, Step, Kept;
    RunKeepsInv(env, c, ops);
    if ops != [] {
      StepKeepsInv(env, c, ops[0]);
      OfflineStep(env, c, ops);
      StepPreserves(env, c, ops[0]);
      OfflinePreserves(env, Step(env, c, ops[0]), ops[1..]);
    }
  }

  lemma OfflineStep(env: Env, c: Client, ops: seq<Op>)
    requires Inv(c) && StaysOffline(env, c, ops) && ops != []
    ensures WellStored(c) && Offline(Step(env, c, ops[0])) && Inv(Step(env, c, ops[0]))
    ensures StaysOffline(env, Step(env, c, ops[0]), ops[1..]) && !ops[0].DoFinalize?
  {
    hide Inv, WellStored, Step;
    StepKeepsInv(env, c, ops[0]);
    var rest := ops[1..];
    assert StaysOffline(env, Step(env, c, ops[0]), rest);
    assert rest != [] || rest == [];
  }

  /** Losing the connection or failing keeps the queue. */
  lemma LosingConnectionKeepsQueue(env: Env, c: Client, op: Op)
    requires Inv(c) && WellStored(c) && !c.cleanSession && LosesConnection(op)
    ensures Preserves(c, Step(env, c, op))
  {
    hide Inv, WellStored, SetStateInitial, KeepAliveStep, Kept;
    InvCommon(c);
    match op {
      case Eof(now) => InitialStatePreserves(c, now);
      case DoReset(now) => InitialStatePreserves(c, now);
      case KeepAlive(now) => TimerPreserves(c, now);
      case _ =>
    }
  }

  lemma TimerPreserves(c: Client, now: Time)
    ensures Preserves(c, KeepAliveStep(c, now))
  {
    hide StoreState.GetTimeout, Kept;
    KeptAppend(c.main.entries, Entry(Pingreq, ZERO_VALUE));
  }

  /** End of stream, a read or write error, an expired response timer, and reset. */
  predicate LosesConnection(op: Op) { op.Eof? || op.IoFail? || op.KeepAlive? || op.DoReset? }

  lemma KeptAppend(es: seq<Entry>, e: Entry)
    ensures Kept(es + [e]) == if KeptOnReconnect(e) then Kept(es) + [e] else Kept(es)
  {
    KeptConcat(es, [e]);
    assert [e][1..] == [];
  }

  /** Reset and the end of the stream delete PINGREQ and DISCONNECT where they are: what is left is the
      old queue without them, in order. */
  lemma DisconnectKeepsQueue(env: Env, c: Client, op: Op)
    requires Inv(c) && WellStored(c) && !c.cleanSession
    requires (op.Eof? && c.error.None?) || (op.DoReset? && c.closed && c.error != Some(Closed))
    ensures Step(env, c, op).main.entries == Kept(c.main.entries)
    ensures forall e :: e in Kept(c.main.entries) <==> e in c.main.entries && KeptOnReconnect(e)
  {
    hide Inv, WellStored, SetStateInitial, Step, Kept;
    InvCommon(c);
    StepToInitial(env, c, op);
    InitialStatePreserves(c, op.now);
    KeptShrinks(c.main.entries);
  }

  lemma StepToInitial(env: Env, c: Client, op: Op)
    requires WellStored(c) && c.main.Valid()
    requires (op.Eof? && c.error.None?) || (op.DoReset? && c.closed && c.error != Some(Closed))
    ensures Step(env, c, op) == SetStateInitial(c, op.now)
  {
    hide WellStored, SetStateInitial;
  }

  /** The session is resumed with this queue: it is unsent, and its whole stream is what will be emitted. */
  ghost predicate ResumedWith(d: Client, queue: seq<Entry>, encodes: multiset<nat>)
  {
    && d.main.entries == Kept(queue) && d.main.pos == 0
    && (forall i :: 0 <= i < |d.main.entries| ==> WellFormed(d.main.entries[i]))
    && TxValid(TxWorldOf(d)) && Pending(TxWorldOf(d)) == Stream(Kept(queue), encodes)
  }

  /** Resend after reconnect. However long the client stays offline and however often it fails, is reset
      and tries again, when a CONNACK resumes the session the queue holds every entry it held before, in
      the original order and with the original ids, nothing is marked as sent, and what the encoder will
      emit is the whole packets of exactly this queue, with DUP on every PUBLISH that was fully sent. */
  lemma ResumedSessionResendsQueue(env: Env, c: Client, ops: seq<Op>)
    requires Inv(c) && StaysOffline(env, c, ops)
    ensures var offline := Run(env, c, ops);
            && Inv(offline) && WellStored(offline)
            && var d := Step(env, offline, DecodeOne);
               !d.closed && d.current.Main? && !d.cleanSession ==> ResumedWith(d, c.main.entries, c.encodes)
  {
    hide Step, Kept, Stream, WellFormed, Run, Common;
    var offline := Run(env, c, ops);
    OfflinePreserves(env, c, ops);
    StepKeepsInv(env, offline, DecodeOne);
    var d := Step(env, offline, DecodeOne);
    if d.current.Main? && !d.closed && !d.cleanSession {
      if offline.closed { ClosedStaysClosed(env, offline); }
      assert Step(env, offline, DecodeOne) == DecodeStep(env, offline) by { hide *; StepDecodes(env, offline); }
      StoreSwitchAtPacketBoundary(env, offline, DecodeOne);
      InvCommon(d);
      WellStoredUnsent(d, Main);
      PendingAtRest(TxWorldOf(d));
      assert d.main.entries[0..] == d.main.entries;
    }
  }

  lemma StepDecodes(env: Env, c: Client)
    requires WellStored(c)
    ensures Step(env, c, DecodeOne) == DecodeStep(env, c)
  {
    hide DecodeStep, WellStored;
  }

  lemma ClosedStaysClosed(env: Env, c: Client)
    requires Inv(c) && c.closed && c.main.Valid() && c.conn.Valid()
    ensures DecodeStep(env, c).closed
  {
    hide RxStep, Inv;
    if CanDecode(c) && c.readBuf != [] {
      DecodingFacts(c);
      DecodeWhileClosed(env, c, c.readBuf[0]);
    }
  }

  /** From the connected client to the resumed session: the connection is lost by the first step, in any
      way; the rest of the run fails, resets, reconnects and fails again as it may; and the CONNACK that
      resumes the session finds the queue of the moment the connection was lost. */
  lemma SessionSurvivesReconnect(env: Env, c: Client, op: Op, ops: seq<Op>)
    requires Inv(c) && WellStored(c) && IsConnected(c) && Inv(Step(env, c, op))
             && StaysOffline(env, Step(env, c, op), ops)
    ensures var lost := Step(env, c, op);
            var offline := Run(env, lost, ops);
            && WellStored(offline)
            && var d := Step(env, offline, DecodeOne);
               !d.closed && d.current.Main? && !d.cleanSession ==>
                 && ResumedWith(d, lost.main.entries, lost.encodes)
                 && (LosesConnection(op) ==> ResumedWith(d, c.main.entries, c.encodes))
  {
    hide Step, Inv, WellStored, Kept, Stream, Run, Common, IsConnected;
    var lost := Step(env, c, op);
    ResumedSessionResendsQueue(env, lost, ops);
    if LosesConnection(op) {
      LostKeepsCleanSession(env, c, op);
      LosingConnectionKeepsQueue(env, c, op);
      ResumedAlike(Step(env, Run(env, lost, ops), DecodeOne), lost, c);
    }
  }

  lemma LostKeepsCleanSession(env: Env, c: Client, op: Op)
    requires WellStored(c) && LosesConnection(op)
    ensures Step(env, c, op).cleanSession == c.cleanSession
  {
    hide KeepSession, FlushLog, StoreState.GetTimeout, WellStored;
  }

  lemma ResumedAlike(d: Client, lost: Client, c: Client)
    requires Preserves(c, lost)
    ensures ResumedWith(d, lost.main.entries, lost.encodes) ==> ResumedWith(d, c.main.entries, c.encodes)
  {
    hide Kept, Stream;
  }

  // ----- keep-alive -----

  /** At most one PINGREQ is ever queued. */
  predicate OnePing(c: Client) { Tally(c.main.entries, Pings, 0) <= 1 }

  lemma {:induction false} EffectPings(l: Link, m: Link, eff: Effect)
    requires l.store.Valid() && HasEffect(l, m, eff)
    ensures Tally(m.store.entries, Pings, 0) <= Tally(l.store.entries, Pings, 0)
  {
    match eff {
      case Nothing =>
      case Take(kind, id, v) => PopMarkedTally(l.store, kind, id, Pings, 0);
      case Acknowledge(e) => TallyAppend(l.store.entries, e, Pings, 0);
      case Release(id, v) =>
        PopMarkedTally(l.store, Publish2, id, Pings, 0);
        TallyAppend(l.store.PopMarked(Publish2, id).0.entries, Entry(Pubrel, v), Pings, 0);
    }
  }

  lemma CleanupPings(c: Client, keep: bool)
    requires c.main.Valid()
    ensures Tally(CleanupStores(c, keep).main.entries, Pings, 0) <= Tally(c.main.entries, Pings, 0)
  {
    TallyKept(c.main.entries, Pings, 0);
  }

  lemma DecodePings(env: Env, c: Client)
    requires Inv(c) && WellStored(c) && OnePing(c)
    ensures OnePing(DecodeStep(env, c))
  {
    hide WellFormed, Inv, RxStep, FinishPacket, Received, ReceivedClosed, RxComplete, HasEffect, Tally;
    if CanDecode(c) && c.readBuf != [] {
      var b := c.readBuf[0];
      var eff := ByteReceived(env, c, b);
      var out := RxStep(env, LinkOf(c), b);
      EffectPings(LinkOf(c), out.link, eff);
      FinishPacketPings(env, WithLink(c, out.link));
    }
  }

  lemma FinishPacketPings(env: Env, c: Client)
    requires c.main.Valid()
    ensures Tally(FinishPacket(env, c).main.entries, Pings, 0) <= Tally(c.main.entries, Pings, 0)
  {
    hide CleanupStores, Tally;
    if c.rx.slot.body.ConnectBody? && !c.closed {
      var q := c.rx.slot.body.connect;
      var told := c.(cleanSession := q.cleanSession, main := c.main.(keepAlive := q.keepAlive));
      CleanupPings(SetCurrentStore(told.(error := None, closed := false), Main), !told.cleanSession);
    }
  }

  lemma EncodePings(env: Env, c: Client)
    requires WellStored(c) && OnePing(c)
    ensures OnePing(EncodeStep(env, c))
  {
    hide Tally, WellFormed, EncodeLoop, WellStored, UnsentWellFormed;
    WellStoredUnsent(c, c.txStore);
    if c.error.None? && |c.writeBuf| < c.writeCap {
      EncodeTally(env, TxWorldOf(c), c.writeCap - |c.writeBuf|, Pings, 0);
    }
  }

  /** The timer sends a PINGREQ only into an empty queue. */
  lemma KeepAlivePings(c: Client, now: Time)
    requires Inv(c) && OnePing(c)
    ensures OnePing(KeepAliveStep(c, now))
  {
    hide TxValid, RxInv, WellFormed;
    SlotsTellPhase(c);
    TallyAppend(c.main.entries, Entry(Pingreq, ZERO_VALUE), Pings, 0);
  }

  lemma RequestPings(c: Client, op: Op)
    requires IsRequest(op) && OnePing(c)
    ensures OnePing(Request(c, op).0)
  {
    hide Tally, ValidConnect, ValidSubscribe, ValidPublish;
    if !op.DoConnect? && Queued(c, op).Some? { TallyAppend(c.main.entries, Queued(c, op).value, Pings, 0); }
  }

  lemma StepKeepsOnePing(env: Env, c: Client, op: Op)
    requires Inv(c) && WellStored(c) && OnePing(c)
    ensures OnePing(Step(env, c, op))
  {
    hide Inv, Tally, DecodeStep, EncodeStep, Request, KeepAliveStep, CleanupStores, WellFormed;
    if IsRequest(op) {
      RequestPings(c, op);
    } else {
      match op {
        case DoReset(now) => CleanupPings(
          SetCurrentStore(c.(error := None, closed := true, conn := c.conn.(lastTouch := now)), Conn), !c.cleanSession);
        case Eof(now) => CleanupPings(
          SetCurrentStore(c.(error := None, closed := true, conn := c.conn.(lastTouch := now)), Conn), !c.cleanSession);
        case DoFinalize => CleanupPings(FinishSlot(env, FailWith(c, Closed)), false);
        case KeepAlive(now) => KeepAlivePings(c, now);
        case DecodeOne => DecodePings(env, c);
        case EncodeMore => EncodePings(env, c);
        case _ =>
      }
    }
  }

  lemma {:induction false} RunKeepsOnePing(env: Env, c: Client, ops: seq<Op>)
    requires Inv(c) && OnePing(c)
    ensures OnePing(Run(env, c, ops))
    decreases |ops|
  {
    hide Inv, WellStored, Step, OnePing;
    if ops != [] {
      StepKeepsInv(env, c, ops[0]);
      StepKeepsOnePing(env, c, ops[0]);
      RunKeepsOnePing(env, Step(env, c, ops[0]), ops[1..]);
    }
  }

  /** In every run at most one PINGREQ is queued. */
  lemma AtMostOnePing(env: Env, storeCap: nat, idCap: nat, readCap: nat, writeCap: nat, now: Time, ops: seq<Op>)
    ensures Inv(Initial(storeCap, idCap, readCap, writeCap, now))
    ensures var c := Run(env, Initial(storeCap, idCap, readCap, writeCap, now), ops);
            forall i, j :: 0 <= i < j < |c.main.entries| ==>
                !c.main.entries[i].kind.Pingreq? || !c.main.entries[j].kind.Pingreq?
  {
    hide Run, Tally, Inv;
    var start := Initial(storeCap, idCap, readCap, writeCap, now);
    InitialInv(storeCap, idCap, readCap, writeCap, now);
    assert OnePing(start) by { NothingQueued(start); }
    RunKeepsOnePing(env, start, ops);
    var c := Run(env, start, ops);
    forall i, j | 0 <= i < j < |c.main.entries|
      ensures !c.main.entries[i].kind.Pingreq? || !c.main.entries[j].kind.Pingreq?
    {
      TallyPair(c.main.entries, i, j, Pings, 0);
    }
  }

  lemma NothingQueued(c: Client)
    requires c.main.entries == []
    ensures OnePing(c)
  {
  }
}
