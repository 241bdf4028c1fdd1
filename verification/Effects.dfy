/** What the calls of the application and the end of a connection do to the client, written out, and what they
    report. */
module Effects {
  import opened Types
  import opened Clock
  import opened FixedHeader
  import opened PacketStore
  import opened PacketIds
  import opened Wire
  import opened Transmit
  import opened TransmitRuns
  import opened Departures
  import opened Receive
  import opened ReceiveInvariant
  import opened Session
  import opened SessionInvariant
  import opened Decoding
  import opened RunSteps
  import opened Responses

  /** A client behind initialize: closed, without an error, nothing queued, only connect enabled. */
  lemma InitialIsEmpty(storeCap: nat, idCap: nat, readCap: nat, writeCap: nat, now: Time)
    ensures Initial(storeCap, idCap, readCap, writeCap, now)
            == Client(true, false, None, StoreState([], 0, storeCap, 0, 0, 0, Time(0, 0)),
                      StoreState([], 0, 1, 0, 0, 0, now), Conn, Conn, Conn,
                      Rx(Header(0, false, 0, false, 0, 0, None, 0, 0, false), false, DPublish, 0, 0, 0,
                         Value(0, 0, NoBody), [], [], false, None),
                      Tx(true, 0, 0, None, None), IdSet([], idCap), multiset{}, [], readCap, [], writeCap,
                      Slots(true, false, false, false, false, false), [],
                      Audit(multiset{}, multiset{}, multiset{}, false, 0, [], [], [], []))
  {
  }

  /** What cleaning up reports: with a clean session every request in the main store and that the ids were
      forgotten; then the request in the connect store. */
  function CleanupReports(c: Client, clean: bool, succeeded: bool): seq<Event>
  {
    (if clean then Flushed(c.main.entries, succeeded) + [SessionCleared] else []) + Flushed(c.conn.entries, succeeded)
  }

  lemma CleanupIs(c: Client, keep: bool)
    requires c.main.Valid()
    ensures var d := CleanupStores(c, keep);
            && d == c.(main := d.main, conn := c.conn.(entries := [], pos := 0),
                    ids := if keep then c.ids else c.ids.(items := []),
                    log := c.log + CleanupReports(c, !keep, !c.closed))
            && d.main == (if keep
               then c.main.(entries := Lasting(c.main.entries), pos := |Lasting(c.main.entries[..c.main.pos])|)
                          else c.main.(entries := [], pos := 0))
  {
    hide FlushLog, Kept, Lasting, Flushed;
    KeptIsLasting(c.main.entries);
    KeptIsLasting(c.main.entries[..c.main.pos]);
    FlushReports(c.main.entries, !c.closed, c.log);
    FlushReports(c.conn.entries, !c.closed, c.log);
    var main := Flushed(c.main.entries, !c.closed) + [SessionCleared];
    FlushReports(c.conn.entries, !c.closed, c.log + Flushed(c.main.entries, !c.closed) + [SessionCleared]);
    assert c.log + Flushed(c.main.entries, !c.closed) + [SessionCleared] == c.log + main;
    assert c.log + main + Flushed(c.conn.entries, !c.closed) == c.log + (main + Flushed(c.conn.entries, !c.closed));
    assert [] + Flushed(c.conn.entries, !c.closed) == Flushed(c.conn.entries, !c.closed);
  }

  /** The end of the stream and reset: closed, without an error, only connect is enabled; a kept session loses
      PINGREQ and DISCONNECT and reports nothing of the main store, a clean one reports every request as
      failed; a waiting CONNECT is reported as failed. The timer of the connect store starts. Decoder,
      encoder position and staging buffers stay as they are. */
  lemma ConnectionEnds(env: Env, c: Client, op: Op)
    requires WellStored(c) && c.main.Valid()
    requires (op.Eof? && c.error.None?) || (op.DoReset? && c.closed && c.error != Some(Closed))
    ensures var d := Step(env, c, op);
            && d == c.(
                 closed := true, error := None, current := Conn, rxStore := Conn, txStore := Conn,
                 slots := Slots(true, false, false, false, false, false), tx := c.tx.(closed := true),
                 main := d.main, conn := c.conn.(entries := [], pos := 0, lastTouch := op.now),
                 ids := if c.cleanSession then c.ids.(items := []) else c.ids,
                 log := c.log + CleanupReports(c, c.cleanSession, false))
            && d.main == (if c.cleanSession then c.main.(entries := [], pos := 0)
                          else c.main.(entries := Lasting(c.main.entries), pos :=
                            |Lasting(c.main.entries[..c.main.pos])|))
  {
    hide WellStored, CleanupStores, CleanupReports, Lasting;
    var closed := SetCurrentStore(c.(error := None, closed := true, conn := c.conn.(lastTouch := op.now)), Conn);
    CleanupIs(closed, !c.cleanSession);
    SameReports(c, closed);
  }

  lemma SameReports(c: Client, d: Client)
    requires d.main == c.main && d.conn.entries == c.conn.entries
    ensures forall clean, succeeded :: CleanupReports(d, clean, succeeded) == CleanupReports(c, clean, succeeded)
  {
  }

  /** The kind of request that a half-decoded response of this type answers. */
  function AnswersKind(htype: nat): Kind
  {
    if htype == 4 then Publish1
    else if htype == 5 then Publish2
    else if htype == 7 then Pubrel
    else if htype == 9 then Subscribe
    else if htype == 11 then Unsubscribe
    else Connect
  }

  /** Finalize: the error is CLOSED for good, everything is disabled, both stores and the id set are empty, and
      every request is reported as failed: first the one whose response is half decoded, then the queue, then
      a waiting CONNECT. */
  lemma FinalizeReports(env: Env, c: Client)
    requires Inv(c)
    ensures WellStored(c)
    ensures var d := Step(env, c, DoFinalize);
            var slot := if c.rx.slot.body.NoBody? then [] else [Completed(SlotName(c.rx), c.rx.slot, false)];
            && d.error == Some(Closed) && d.closed && d.slots == Slots(false, false, false, false, false, false)
            && d.main == c.main.(entries := [], pos := 0) && d.conn == c.conn.(entries := [], pos := 0)
            && d.ids == c.ids.(items := [])
            && d.log == c.log + slot + CleanupReports(c, true, false)
  {
    hide Inv, WellStored, CleanupStores, CleanupReports, SlotName;
    InvCommon(c);
    SlotNamed(c);
    var failed := FailWith(c, Closed);
    ClosedSlot(env, failed);
    CleanupIs(FinishSlot(env, failed), false);
    SameReports(c, FinishSlot(env, failed));
    assert c.log + [] == c.log;
  }

  /** A CONNECT is told as such; the other requests by the type of the response. */
  function SlotName(rx: Rx): Kind
  {
    if rx.slot.body.ConnectBody? then Connect else AnswersKind(rx.header.htype)
  }

  lemma SlotNamed(c: Client)
    requires Inv(c)
    ensures !c.rx.slot.body.NoBody? ==>
              SlotName(c.rx) == if c.rx.slot.body.ConnectBody? then Connect else SlotKind(c.rx)
  {
    hide TxValid, ValidConnect, ValidPublish, ValidSubscribe;
  }

  lemma ClosedSlot(env: Env, c: Client)
    requires c.main.Valid() && c.closed
    ensures var d := FinishSlot(env, c);
            d == c.(log := d.log, audit := d.audit)
            && d.log == (if c.rx.slot.body.NoBody? then c.log
                         else c.log + [Completed(if c.rx.slot.body.ConnectBody? then Connect else SlotKind(c.rx),
                           c.rx.slot, false)])
  {
  }

  // ----- requests -----

  /** The entry that an accepted request queues. SUBSCRIBE, UNSUBSCRIBE and PUBLISH of QoS 1 and 2 carry the next
      packet id. */
  function EntryOf(op: Op, id: U16): Entry
    requires op.DoSubscribe? || op.DoUnsubscribe? || op.DoPublish? || op.DoDisconnect?
  {
    match op
    case DoSubscribe(subs, ref) => Entry(Subscribe, Value(id, ref, SubscribeBody(subs)))
    case DoUnsubscribe(subs, ref) => Entry(Unsubscribe, Value(id, ref, SubscribeBody(subs)))
    case DoPublish(p, ref) =>
      if p.qos == 0 then Entry(Publish0, Value(0, ref, PublishBody(p)))
      else if p.qos == 1 then Entry(Publish1, Value(id, ref, PublishBody(p)))
      else Entry(Publish2, Value(id, ref, PublishBody(p)))
    case DoDisconnect => Entry(Disconnect, Value(0, 0, NoBody))
  }

  /** An accepted request appends its entry at the tail of the main store, and takes an id if the entry carries
      one; nothing else changes. */
  lemma RequestQueues(c: Client, op: Op)
    requires op.DoSubscribe? || op.DoUnsubscribe? || op.DoPublish? || op.DoDisconnect?
    requires Request(c, op).1
    ensures var d := Request(c, op).0;
            var takes := op.DoSubscribe? || op.DoUnsubscribe? || (op.DoPublish? && op.publish.qos > 0);
            && d == c.(main := c.main.(entries := c.main.entries + [EntryOf(op, c.main.nextId)],
                                       nextId := if takes then (c.main.nextId + 1) % 65536 else c.main.nextId),
                       audit := d.audit)
            && d.audit == c.audit.(accepted := d.audit.accepted, issued := d.audit.issued)
  {
    hide ValidPublish, ValidSubscribe, Accept, TakeId;
    QosIsGood(op);
    AcceptQueues(c, EntryOf(op, c.main.nextId));
    AcceptQueues(TakeId(c), EntryOf(op, c.main.nextId));
    TakesId(c);
  }

  lemma QosIsGood(op: Op)
    ensures op.DoPublish? && ValidPublish(op.publish) ==>
              op.publish.qos == 0 || op.publish.qos == 1 || op.publish.qos == 2
  {
  }

  lemma AcceptQueues(c: Client, e: Entry)
    ensures var (d, ok) := Accept(c, e);
            ok ==> d == c.(main := c.main.(entries := c.main.entries + [e]), audit := d.audit)
                   && d.audit == c.audit.(accepted := d.audit.accepted)
  {
  }

  lemma TakesId(c: Client)
    ensures var d := TakeId(c);
            && d == c.(main := c.main.(nextId := (c.main.nextId + 1) % 65536), audit := d.audit)
            && d.audit == c.audit.(issued := d.audit.issued)
  {
  }

  /** An accepted connect request: the CONNECT is alone in its store, both coders and both staging buffers start
      anew, and nothing but the CONNACK can enable the other calls. */
  lemma ConnectBegins(c: Client, q: ConnectRequest, ref: nat)
    requires Inv(c) && Request(c, DoConnect(q, ref)).1
    ensures var d := Request(c, DoConnect(q, ref)).0;
            d == c.(closed := false, error := None, rx := RESET_RX, tx := RESET_TX, readBuf := [], writeBuf := [],
                    conn := c.conn.(entries := [Entry(Connect, Value(0, ref, ConnectBody(q)))]),
                    slots := Slots(false, false, false, false, false, false), audit := d.audit)
  {
    hide RxInv, TxValid, WellFormed, ValidConnect;
    SlotsTellPhase(c);
  }

  // ----- failures -----

  /** A read or write error fails the client: closed, every call disabled, the error kept; nothing else changes. */
  lemma IoErrorFails(env: Env, c: Client, e: Error)
    requires WellStored(c) && c.error.None? && (e == ConnectionRead || e == ConnectionWrite)
    ensures Step(env, c, IoFail(e))
            == c.(error := Some(e), closed := true, slots := Slots(false, false, false, false, false, false))
  {
    hide WellStored;
  }

  /** A decoder error fails the client with the same error. */
  lemma DecodeErrorFails(env: Env, c: Client, n: nat)
    requires CanDecode(c) && n <= |c.readBuf|
    ensures var d, r := DecodeBytes(env, c, c.readBuf[..n]), Run(env, c, Repeat(DecodeOne, n));
            && (d.rx.error.Some? ==>
                 r.error == d.rx.error && r.closed && r.slots == Slots(false, false, false, false, false, false))
            && (d.rx.error.None? ==> r.rx == d.rx && r.main == d.main && r.conn == d.conn && r.log == d.log
                                     && r.closed == d.closed && r.error == d.error && r.readBuf == c.readBuf[n..])
  {
    hide Inv, Run, DecodeBytes;
    StepsAreBytes(env, c, n);
  }

  /** The response timeout is that of both stores. */
  lemma TimeoutIsSet(env: Env, c: Client, secs: U16)
    requires WellStored(c)
    ensures var d := Step(env, c, Op.SetTimeout(secs)); d.main.timeout == secs && d.conn.timeout == secs
  {
    hide WellStored;
  }

  /** A call of the encoder sends some entries from the front of the unsent ones; an encoder error fails the
      client with the same error. */
  lemma EncodingSends(env: Env, c: Client) returns (es: seq<Entry>)
    requires Inv(c) && !c.closed && c.error.None? && |c.writeBuf| < c.writeCap
    ensures WellStored(c) && TxWorldOf(c).store.Valid()
    ensures var d := Step(env, c, EncodeMore);
            && Sends(TxWorldOf(c), TxWorldOf(d), es) && d.error == d.tx.error
            && (d.error.Some? ==> d.closed && d.slots == Slots(false, false, false, false, false, false))
  {
    hide WellFormed, TxValid, RxInv, EncodeLoop, Waiting, Reported, Published, Unsent;
    InvCommon(c);
    WellStoredUnsent(c, c.txStore);
    es := CallSends(env, TxWorldOf(c), c.writeCap - |c.writeBuf|);
  }
}
