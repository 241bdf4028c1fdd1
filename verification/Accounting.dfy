/** Every accepted request is accounted for in every run. */
module Accounting {
  import opened Types
  import opened Clock
  import opened Wire
  import opened Transmit
  import opened Receive
  import opened ReceiveInvariant
  import opened Session
  import opened SessionInvariant
  import opened EntryTally

  /** How often the callback of request object `r` was made. */
  function CallbacksMade(log: seq<Event>, r: nat): nat
  {
    if log == [] then 0
    else CallbacksMade(log[..|log| - 1], r) + OneCallback(log[|log| - 1], r)
  }

  function OneCallback(e: Event, r: nat): nat { if e.Completed? && e.value.ref == r then 1 else 0 }

  /** The books of request object `r`: as often as it was accepted, plus second callbacks, it is in
      flight, called back or lost. */
  predicate BooksBalance(c: Client, r: nat)
  {
    c.audit.accepted[r] + c.audit.repeated[r] == InFlight(c, Requests, r) + CallbacksMade(c.log, r) + c.audit.lost[r]
  }

  predicate Balanced(c: Client, r: nat)
  {
    BooksBalance(c, r) && SlotFresh(c)
  }

  lemma LogOne(log: seq<Event>, e: Event, r: nat)
    ensures CallbacksMade(log + [e], r) == CallbacksMade(log, r) + OneCallback(e, r)
  {
    assert (log + [e])[..|log|] == log;
  }

  lemma {:induction false} SilentLog(before: seq<Event>, after: seq<Event>, r: nat)
    requires PacketEvents(before, after)
    ensures CallbacksMade(after, r) == CallbacksMade(before, r)
    decreases |after|
  {
    if |after| > |before| {
      var n := |after| - 1;
      SilentLog(before, after[..n], r);
    } else {
      assert after == before;
    }
  }

  lemma {:induction false} FlushCallsAll(es: seq<Entry>, succeeded: bool, log: seq<Event>, r: nat)
    ensures CallbacksMade(FlushLog(es, succeeded, log), r) == CallbacksMade(log, r) + Tally(es, Requests, r)
  {
    if es != [] {
      LogOne(log, Completed(es[0].kind, es[0].value, succeeded), r);
      var next := if es[0].value.body.NoBody? then log else log + [Completed(es[0].kind, es[0].value, succeeded)];
      FlushCallsAll(es[1..], succeeded, next, r);
    }
  }

  lemma {:induction false} KeptRequests(es: seq<Entry>, r: nat)
    requires forall e :: e in es ==> WellFormed(e)
    ensures Tally(Kept(es), Requests, r) == Tally(es, Requests, r)
  {
    TallyKept(es, Requests, r);
  }

  /** Cleaning up calls back or keeps every queued request. */
  lemma CleanupBalance(c: Client, keep: bool, r: nat)
    requires WellStored(c)
    ensures var d := CleanupStores(c, keep);
            && InFlight(d, Requests, r) + CallbacksMade(d.log, r) == InFlight(c, Requests, r) + CallbacksMade(c.log, r)
            && d == c.(main := d.main, conn := d.conn, ids := d.ids, log := d.log)
            && d.conn.entries == [] && (!keep ==> d.main.entries == [])
  {
    hide WellFormed, CallbacksMade, FlushLog;
    var cleaned := c;
    if keep {
      KeptRequests(c.main.entries, r);
      cleaned := c.(main := KeepSession(c.main));
    } else {
      var flushed := Flush(c, Main);
      FlushCallsAll(c.main.entries, !c.closed, c.log, r);
      LogOne(flushed.log, SessionCleared, r);
      cleaned := flushed.(ids := flushed.ids.(items := []), log := flushed.log + [SessionCleared]);
    }
    FlushCallsAll(cleaned.conn.entries, !cleaned.closed, cleaned.log, r);
  }

  // ----- the callbacks of responses -----

  lemma ConnackBalance(env: Env, c: Client, r: nat)
    requires WellStored(c) && BooksBalance(c, r) && !c.audit.slotCalled && c.rx.slot.body.ConnectBody? && !c.closed
    ensures BooksBalance(FinishPacket(env, c), r)
    ensures FinishPacket(env, c).rx.error.None? ==> !FinishPacket(env, c).audit.slotCalled
  {
    hide WellFormed, Tally, CallbacksMade, CleanupStores, KeepSession;
    var q := c.rx.slot.body.connect;
    var told := c.(cleanSession := q.cleanSession, main := c.main.(keepAlive := q.keepAlive));
    var open := SetCurrentStore(told.(error := None, closed := false), Main);
    CleanupBalance(open, !open.cleanSession, r);
    LogOne(SetStateConnected(told).log, Completed(Connect, c.rx.slot, true), r);
  }

  /** A packet's callback moves the slot's request from in flight to called back. */
  lemma FinishPacketBalance(env: Env, c: Client, r: nat)
    requires WellStored(c) && BooksBalance(c, r) && !c.audit.slotCalled
    ensures BooksBalance(FinishPacket(env, c), r)
    ensures FinishPacket(env, c).rx.error.None? ==> !FinishPacket(env, c).audit.slotCalled
  {
    hide WellStored, Tally, CallbacksMade, CallSlot, SlotKind;
    StoresValid(c);
    if c.rx.slot.body.ConnectBody? && !c.closed {
      ConnackBalance(env, c, r);
    } else {
      CallTells(env, c);
      LogOne(c.log, Completed(if c.rx.slot.body.ConnectBody? then Connect else SlotKind(c.rx), c.rx.slot, !c.closed),
        r);
    }
  }

  lemma PacketEventsOf(l: Link, m: Link, change: IdChange)
    requires HasIdChange(l, m, change)
    ensures PacketEvents(l.log, m.log)
  {
  }

  lemma DecodeByteBalance(env: Env, c: Client, b: byte, r: nat)
    requires CanDecode(c) && c.main.Valid() && c.conn.Valid() && Balanced(c, r)
    ensures var d := DecodeByte(env, c, b); BooksBalance(d, r) && (d.rx.error.None? ==> !d.audit.slotCalled)
  {
    hide WellFormed, Tally, CallbacksMade, RxStep, RxInv, FinishPacket, HasIdChange, StepGood, Received,
         ReceivedClosed, Inv;
    DecodingFacts(c);
    var change := RxStepIdChange(env, LinkOf(c), b);
    var out := RxStep(env, LinkOf(c), b);
    PacketEventsOf(LinkOf(c), out.link, change);
    SilentLog(c.log, out.link.log, r);
    RxStepTally(env, c, b, Requests, r);
    var eff := ByteReceived(env, c, b);
    var next := WithLink(c, out.link);
    assert BooksBalance(next, r);
    if out.call { FinishPacketBalance(env, next, r); }
  }

  lemma DecodeBalance(env: Env, c: Client, r: nat)
    requires Inv(c) && WellStored(c) && Balanced(c, r)
    ensures Balanced(DecodeStep(env, c), r)
  {
    hide WellFormed, Tally, CallbacksMade, DecodeByte, Inv;
    if CanDecode(c) && c.readBuf != [] { DecodeByteBalance(env, c, c.readBuf[0], r); }
  }

  // ----- the encoder -----

  lemma {:induction false} EncodeBalance(env: Env, w: TxWorld, room: nat, r: nat)
    requires UnsentWellFormed(w.store)
    ensures var t := EncodeLoop(env, w, room).world;
            Tally(t.store.entries, Requests, r) + CallbacksMade(t.log, r)
            == Tally(w.store.entries, Requests, r) + CallbacksMade(w.log, r)
    decreases |w.store.entries| - w.store.pos,
              if w.store.HasCurrent() && w.tx.pos < |CurrentFields(w)| then |CurrentFields(w)| - w.tx.pos else 0
  {
    hide Fields, WellFormed, FieldBytes, FieldStep, Encodable, Tally, CallbacksMade, FinishEntry;
    if w.tx.closed || !w.store.HasCurrent() {
    } else if w.tx.pos >= |CurrentFields(w)| {
      FinishEntryBalance(env, w, r);
      var next := FinishEntry(env, w);
      if next.tx.error.None? { EncodeBalance(env, next, room, r); }
    } else if !HeaderAborts(w) {
      var (result, count) := FieldStep(ActiveField(w), w.tx.offset, room);
      if result.Finished? {
        EncodeBalance(env, w.(tx := w.tx.(pos := w.tx.pos + 1, offset := 0, built := None)),
                      if count <= room then room - count else 0, r);
      }
    }
  }

  lemma FinishEntryBalance(env: Env, w: TxWorld, r: nat)
    requires UnsentWellFormed(w.store) && w.store.HasCurrent()
    ensures var t := FinishEntry(env, w);
            Tally(t.store.entries, Requests, r) + CallbacksMade(t.log, r)
            == Tally(w.store.entries, Requests, r) + CallbacksMade(w.log, r)
  {
    hide Fields, FieldBytes, Tally, CallbacksMade;
    var e := w.store.Current();
    assert WellFormed(e);
    TallyRemove(w.store.entries, w.store.pos, Requests, r);
    var emitted := w.log + [Emitted(e.kind, e.value.packetId)];
    LogOne(w.log, Emitted(e.kind, e.value.packetId), r);
    LogOne(emitted, Completed(e.kind, e.value, true), r);
  }

  lemma EncodeStepBalance(env: Env, c: Client, r: nat)
    requires Inv(c) && WellStored(c) && Balanced(c, r)
    ensures Balanced(EncodeStep(env, c), r)
  {
    hide Tally, CallbacksMade, WellFormed, EncodeLoop, Inv, WellStored, UnsentWellFormed, InFlight;
    WellStoredUnsent(c, c.txStore);
    if c.error.None? && |c.writeBuf| < c.writeCap {
      EncodeBalance(env, TxWorldOf(c), c.writeCap - |c.writeBuf|, r);
      WorldBalance(c, Encode(env, TxWorldOf(c), c.writeCap - |c.writeBuf|).world, r);
      var next := WithTxWorld(c, Encode(env, TxWorldOf(c), c.writeCap - |c.writeBuf|).world);
      SameBooks(next, EncodeStep(env, c), r);
      hide Balanced;
    }
  }

  lemma SameBooks(c: Client, d: Client, r: nat)
    requires Balanced(c, r) && d.main == c.main && d.conn == c.conn && d.rx == c.rx && d.log == c.log
    requires d.audit == c.audit.(encoded := d.audit.encoded) && c.error.None?
    ensures Balanced(d, r)
  {
    hide Tally, CallbacksMade;
  }

  lemma WorldBalance(c: Client, w: TxWorld, r: nat)
    requires Balanced(c, r)
    requires Tally(w.store.entries, Requests, r) + CallbacksMade(w.log, r)
             == Tally(StoreOf(c, c.txStore).entries, Requests, r) + CallbacksMade(c.log, r)
    ensures Balanced(WithTxWorld(c, w), r)
  {
    hide Tally, CallbacksMade;
  }

  // ----- every step -----

  lemma AcceptBalance(c: Client, e: Entry, r: nat)
    requires Balanced(c, r)
    ensures Balanced(Accept(c, e).0, r)
  {
    hide Tally, CallbacksMade;
    TallyAppend(c.main.entries, e, Requests, r);
  }

  lemma ConnectBalance(c: Client, q: ConnectRequest, ref: nat, r: nat)
    requires Balanced(c, r)
    ensures Balanced(ConnectRequested(c, q, ref).0, r)
  {
    hide Tally, CallbacksMade;
    TallyAppend(c.conn.entries, Entry(Connect, Value(0, ref, ConnectBody(q))), Requests, r);
  }

  lemma RequestBalance(c: Client, op: Op, r: nat)
    requires Balanced(c, r) && IsRequest(op)
    ensures Balanced(Request(c, op).0, r)
  {
    hide Tally, CallbacksMade, Accept, InFlight;
    assert Balanced(TakeId(c), r) by { hide *; TakeIdBalance(c, r); }
    match op {
      case DoConnect(q, ref) => ConnectBalance(c, q, ref, r);
      case DoSubscribe(subs, ref) =>
        AcceptBalance(TakeId(c), Entry(Subscribe, Value(c.main.nextId, ref, SubscribeBody(subs))), r);
      case DoUnsubscribe(subs, ref) =>
        AcceptBalance(TakeId(c), Entry(Unsubscribe, Value(c.main.nextId, ref, SubscribeBody(subs))), r);
      case DoPublish(p, ref) =>
        AcceptBalance(c, Entry(Publish0, Value(0, ref, PublishBody(p))), r);
        AcceptBalance(TakeId(c),
                      Entry(if p.qos == 1 then Publish1 else Publish2, Value(c.main.nextId, ref, PublishBody(p))), r);
      case DoDisconnect => AcceptBalance(c, Entry(Disconnect, ZERO_VALUE), r);
    }
  }

  lemma TakeIdBalance(c: Client, r: nat)
    requires Balanced(c, r)
    ensures Balanced(TakeId(c), r)
  {
  }

  lemma InitialStateBalance(c: Client, now: Time, r: nat)
    requires WellStored(c) && Balanced(c, r) && c.error != Some(Closed)
    ensures Balanced(SetStateInitial(c, now), r)
  {
    hide Tally, CallbacksMade, CleanupStores, WellFormed;
    CleanupBalance(
      SetCurrentStore(c.(error := None, closed := true, conn := c.conn.(lastTouch := now)), Conn), !c.cleanSession, r);
  }

  /** The callback of the slot's request only tells, unless it opens the session. */
  lemma CallTells(env: Env, c: Client)
    requires c.main.Valid() && (c.closed || !c.rx.slot.body.ConnectBody?)
    ensures CallSlot(env, c).0 == if c.rx.slot.body.NoBody? then c else
              c.(log := c.log + [Completed(if c.rx.slot.body.ConnectBody? then Connect else SlotKind(c.rx), c.rx.slot,
                !c.closed)])
    ensures c.rx.slot.body.NoBody? ==> CallSlot(env, c).1
  {
  }

  lemma FinishSlotBalance(env: Env, c: Client, r: nat)
    requires WellStored(c) && BooksBalance(c, r) && c.closed && c.error == Some(Closed)
    ensures var d := FinishSlot(env, c);
            && Balanced(d, r) && SlotTally(d.rx, d.audit.slotCalled, Requests, r) == 0
            && d.main == c.main && d.conn == c.conn && d.closed
  {
    hide Tally, CallbacksMade, WellStored, CallSlot, SlotKind;
    StoresValid(c);
    CallTells(env, c);
    LogOne(c.log, Completed(if c.rx.slot.body.ConnectBody? then Connect else SlotKind(c.rx), c.rx.slot, false), r);
  }

  lemma StoresValid(c: Client)
    requires WellStored(c)
    ensures c.main.Valid() && c.conn.Valid()
  {
    hide WellFormed;
  }

  lemma FinalizeBalance(env: Env, c: Client, r: nat)
    requires WellStored(c) && Balanced(c, r)
    ensures Balanced(Finalize(env, c), r) && InFlight(Finalize(env, c), Requests, r) == 0
  {
    hide CallbacksMade, CleanupStores, WellFormed, FinishSlot;
    FinishSlotBalance(env, FailWith(c, Closed), r);
    CleanupBalance(FinishSlot(env, FailWith(c, Closed)), false, r);
  }

  lemma KeepAliveBalance(c: Client, now: Time, r: nat)
    requires Balanced(c, r)
    ensures Balanced(KeepAliveStep(c, now), r)
  {
    hide Tally, CallbacksMade;
    AcceptBalance(c, Entry(Pingreq, ZERO_VALUE), r);
  }

  lemma StepKeepsBalance(env: Env, c: Client, op: Op, r: nat)
    requires Inv(c) && WellStored(c) && Balanced(c, r)
    ensures Balanced(Step(env, c, op), r)
  {
    hide Inv, Tally, CallbacksMade, DecodeStep, EncodeStep, Finalize, SetStateInitial, Request, KeepAliveStep,
         WellStored, SlotTally;
    StoresValid(c);
    if IsRequest(op) {
      RequestBalance(c, op, r);
    } else {
      match op {
        case DoReset(now) => if c.error != Some(Closed) { InitialStateBalance(c, now, r); }
        case Eof(now) => if c.error.None? { InitialStateBalance(c, now, r); }
        case DoFinalize => FinalizeBalance(env, c, r);
        case EncodeMore => EncodeStepBalance(env, c, r);
        case DecodeOne => DecodeBalance(env, c, r);
        case KeepAlive(now) => KeepAliveBalance(c, now, r);
        case _ =>
      }
    }
  }

  lemma {:induction false} RunKeepsBalance(env: Env, c: Client, ops: seq<Op>, r: nat)
    requires Inv(c) && Balanced(c, r)
    ensures Balanced(Run(env, c, ops), r)
    decreases |ops|
  {
    hide Inv, WellStored, Step, Balanced;
    if ops != [] {
      StepKeepsInv(env, c, ops[0]);
      StepKeepsBalance(env, c, ops[0], r);
      RunKeepsBalance(env, Step(env, c, ops[0]), ops[1..], r);
    }
  }

  /** In every run, at every step, each accepted request is in exactly one place: queued in one of the
      stores, in the rx slot, called back or lost. */
  lemma EveryRequestIsAccountedFor(
      env: Env, storeCap: nat, idCap: nat, readCap: nat, writeCap: nat, now: Time, ops: seq<Op>, r: nat)
    ensures Inv(Initial(storeCap, idCap, readCap, writeCap, now))
    ensures BooksBalance(Run(env, Initial(storeCap, idCap, readCap, writeCap, now), ops), r)
  {
    hide Run;
    InitialInv(storeCap, idCap, readCap, writeCap, now);
    RunKeepsBalance(env, Initial(storeCap, idCap, readCap, writeCap, now), ops, r);
  }

  /** Finalizing completes everything: the callback of each request was made exactly once for each time
      it was accepted, if and only if as many were lost as were called back a second time. */
  lemma FinalizeCompletesEverything(env: Env, c: Client, r: nat)
    requires Inv(c) && Balanced(c, r)
    ensures c.main.Valid()
    ensures var d := Finalize(env, c);
            && InFlight(d, Requests, r) == 0 && d.main.entries == [] && d.conn.entries == []
            && CallbacksMade(d.log, r) + d.audit.lost[r] == d.audit.accepted[r] + d.audit.repeated[r]
            && (CallbacksMade(d.log, r) == d.audit.accepted[r] <==> d.audit.lost[r] == d.audit.repeated[r])
  {
    hide Inv, CallbacksMade, WellFormed, Tally;
    InvCommon(c);
    FinalizeBalance(env, c, r);
    FinishSlotBalance(env, FailWith(c, Closed), r);
    CleanupBalance(FinishSlot(env, FailWith(c, Closed)), false, r);
  }

  // ----- when requests are lost -----

  predicate SameLosses(c: Client, d: Client) { d.audit.lost == c.audit.lost && d.audit.repeated == c.audit.repeated }

  lemma CleanupLosesNothing(c: Client, keep: bool)
    requires c.main.Valid()
    ensures CleanupStores(c, keep).audit == c.audit
  {
  }

  lemma DecodeLosesNothing(env: Env, c: Client)
    requires c.main.Valid() && c.conn.Valid()
    ensures SameLosses(c, DecodeStep(env, c))
  {
    hide RxStep, FinishPacket;
    if c.error.None? && c.rx.error.None? && c.readBuf != [] {
      var next := WithLink(c, RxStep(env, LinkOf(c), c.readBuf[0]).link);
      FinishPacketBuffers(env, next);
    }
  }

  lemma RequestLosses(c: Client, op: Op)
    requires IsRequest(op)
    ensures var d := Request(c, op).0;
            && d.audit.repeated == c.audit.repeated
            && d.audit.lost == (if op.DoConnect? && Request(c, op).1 && !c.rx.slot.body.NoBody? && !c.audit.slotCalled
                                then c.audit.lost + multiset{c.rx.slot.ref} else c.audit.lost)
  {
    hide ValidConnect, ValidSubscribe, ValidPublish, Accept, TakeId;
    forall d: Client, e: Entry ensures LosesNothing(d, Accept(d, e).0) { AcceptLoses(d, e); }
    TakeIdLoses(c);
  }

  predicate LosesNothing(c: Client, d: Client)
  {
    d.audit.repeated == c.audit.repeated && d.audit.lost == c.audit.lost
  }

  lemma AcceptLoses(c: Client, e: Entry)
    ensures LosesNothing(c, Accept(c, e).0)
  {
  }

  lemma TakeIdLoses(c: Client)
    ensures LosesNothing(c, TakeId(c))
  {
  }

  lemma FinalizeLosses(env: Env, c: Client)
    requires c.main.Valid()
    ensures var d := Finalize(env, c);
            && d.audit.lost == c.audit.lost
            && d.audit.repeated == (if !c.rx.slot.body.NoBody? && c.audit.slotCalled
                                    then c.audit.repeated + multiset{c.rx.slot.ref} else c.audit.repeated)
  {
    hide CleanupStores;
    CleanupLosesNothing(FinishSlot(env, FailWith(c, Closed)), false);
  }

  lemma OneMore(m: multiset<nat>, x: nat)
    ensures m + multiset{x} != m
  {
    assert (m + multiset{x})[x] == m[x] + 1;
  }

  /** A request is lost exactly when the client connects again while its response is half decoded, and
      a callback is repeated exactly when the client is finalized after it was already made. */
  lemma WhenRequestsAreLostOrRepeated(env: Env, c: Client, op: Op)
    requires WellStored(c)
    ensures var d := Step(env, c, op);
            && (d.audit.lost != c.audit.lost <==>
                  op.DoConnect? && Request(c, op).1 && !c.rx.slot.body.NoBody? && !c.audit.slotCalled)
            && (d.audit.repeated != c.audit.repeated <==>
                  op.DoFinalize? && !c.rx.slot.body.NoBody? && c.audit.slotCalled)
  {
    hide DecodeStep, Encode, Finalize, Request, CleanupStores, WellFormed;
    OneMore(c.audit.lost, c.rx.slot.ref);
    OneMore(c.audit.repeated, c.rx.slot.ref);
    if IsRequest(op) { RequestLosses(c, op); }
    match op {
      case DoReset(now) => CleanupLosesNothing(
        SetCurrentStore(c.(error := None, closed := true, conn := c.conn.(lastTouch := now)), Conn), !c.cleanSession);
      case Eof(now) => CleanupLosesNothing(
        SetCurrentStore(c.(error := None, closed := true, conn := c.conn.(lastTouch := now)), Conn), !c.cleanSession);
      case DoFinalize => FinalizeLosses(env, c);
      case DecodeOne => DecodeLosesNothing(env, c);
      case _ =>
    }
  }

  /** A refused CONNACK is such a case: `on_connect` is not called when it arrives, and connecting again
      drops the request for good. */
  lemma RefusedConnectIsNeverReported(env: Env, c: Client, code: byte, now: Time, q: ConnectRequest, ref: nat)
    requires Inv(c) && WellStored(c) && IsConnecting(c) && c.conn.entries == [] && c.rx.remainPos == 1
    requires 1 <= code <= 5 && c.readBuf != [] && c.readBuf[0] == code && ValidConnect(q)
    requires !c.audit.slotCalled
    ensures var refused := Step(env, c, DecodeOne);
            && WellStored(refused) && refused.error == Some(ConnackRefused(code)) && refused.log == c.log
            && var reset := Step(env, refused, DoReset(now));
            && WellStored(reset) && Request(reset, DoConnect(q, ref)).1
            && Step(env, reset, DoConnect(q, ref)).audit.lost == c.audit.lost + multiset{c.rx.slot.ref}
  {
    hide WellFormed, TxValid, ValidConnect, CleanupStores, Common;
    RefusalFails(env, c, code);
    var refused := Step(env, c, DecodeOne);
    StepKeepsInv(env, c, DecodeOne);
    var closed := SetCurrentStore(refused.(error := None, closed := true, conn := refused.conn.(lastTouch := now)),
      Conn);
    FlushedConn(closed, !refused.cleanSession);
    CleanupLosesNothing(closed, !refused.cleanSession);
    StepKeepsInv(env, refused, DoReset(now));
    var reset := Step(env, refused, DoReset(now));
    assert c.conn.capacity == 1 by { RoomForConnect(c); }
    assert reset.conn.entries == [] && reset.conn.capacity == 1 && reset.slots.connect && reset.rx == refused.rx;
    RequestLosses(reset, DoConnect(q, ref));
    assert reset.audit == c.audit;
    InvCommon(reset);
  }

  lemma RoomForConnect(c: Client)
    requires Inv(c)
    ensures c.conn.capacity == 1
  {
    hide WellFormed, TxValid, RxInv;
  }

  lemma FlushedConn(c: Client, keep: bool)
    requires c.main.Valid()
    ensures var d := CleanupStores(c, keep); d.conn.entries == [] && d.conn.capacity == c.conn.capacity && d.rx == c.rx
  {
  }

  lemma RefusalFails(env: Env, c: Client, code: byte)
    requires Inv(c) && WellStored(c) && IsConnecting(c) && c.conn.entries == [] && c.rx.remainPos == 1
    requires 1 <= code <= 5 && c.readBuf != [] && c.readBuf[0] == code
    ensures Step(env, c, DecodeOne)
            == FailWith(c.(rx := FailRx(c.rx, ConnackRefused(code)), readBuf := []), ConnackRefused(code))
    ensures c.rx.decoder.DConnack?
  {
    hide TxValid, ValidConnect;
    assert c.rx.slot.body.ConnectBody? && PastPop(c.rx) && SlotMatches(c.rx);
    assert c.rx.decoder.DConnack?;
  }
}
