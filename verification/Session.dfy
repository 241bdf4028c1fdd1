/** The client: two stores, the rx and tx buffers, the staging buffers and the function table, and every
    step the public calls and `run_once` are made of. */
module Session {
  import opened Types
  import opened Clock
  import opened PacketStore
  import opened PacketIds
  import opened Wire
  import opened Transmit
  import opened Receive

  /** Which of the two stores a store pointer points to. */
  datatype Which = Main | Conn

  /** The function table: true for the working function, false for the failing one. */
  datatype Slots = Slots(connect: bool, subscribe: bool, unsubscribe: bool, publish: bool, pingreq: bool,
                         disconnect: bool)

  const NO_SLOTS := Slots(false, false, false, false, false, false)

  /** History, never read by the client: requests accepted, lost without a callback and called back
      twice; whether the rx slot's callback was already made; ids issued; and the bytes that went
      through the two staging buffers of the current connection. */
  datatype Audit = Audit(
    accepted: multiset<nat>, lost: multiset<nat>, repeated: multiset<nat>, slotCalled: bool, issued: nat,
    received: seq<byte>, decoded: seq<byte>, encoded: seq<byte>, written: seq<byte>)

  datatype Client = Client(
    closed: bool, cleanSession: bool, error: Option<Error>,
    main: StoreState, conn: StoreState, current: Which, rxStore: Which, txStore: Which,
    rx: Rx, tx: Tx, ids: IdSet, encodes: multiset<nat>,
    readBuf: seq<byte>, readCap: nat, writeBuf: seq<byte>, writeCap: nat,
    slots: Slots, log: seq<Event>, audit: Audit)

  function StoreOf(c: Client, w: Which): StoreState { if w.Main? then c.main else c.conn }

  function WithStore(c: Client, w: Which, s: StoreState): Client
  {
    if w.Main? then c.(main := s) else c.(conn := s)
  }

  /** Every entry of either store is well formed. */
  predicate WellStored(c: Client)
  {
    && c.main.Valid() && c.conn.Valid()
    && (forall e :: e in c.main.entries ==> WellFormed(e))
    && (forall e :: e in c.conn.entries ==> WellFormed(e))
  }

  // ----- cleaning up the stores -----

  predicate KeptOnReconnect(e: Entry) { !e.kind.Pingreq? && !e.kind.Disconnect? }

  function Kept(es: seq<Entry>): seq<Entry>
  {
    if es == [] then []
    else (if KeptOnReconnect(es[0]) then [es[0]] else []) + Kept(es[1..])
  }

  lemma {:induction false} KeptConcat(a: seq<Entry>, b: seq<Entry>)
    ensures Kept(a + b) == Kept(a) + Kept(b)
  {
    hide KeptOnReconnect;
    if a == [] {
      assert a + b == b;
    } else {
      var head := if KeptOnReconnect(a[0]) then [a[0]] else [];
      assert (a + b)[0] == a[0] && (a + b)[1..] == a[1..] + b;
      KeptConcat(a[1..], b);
      assert Kept(a + b) == head + (Kept(a[1..]) + Kept(b)) == head + Kept(a[1..]) + Kept(b);
    }
  }

  /** Nothing new appears, nothing kept again changes. */
  lemma {:induction false} KeptShrinks(es: seq<Entry>)
    ensures |Kept(es)| <= |es| && Kept(Kept(es)) == Kept(es)
    ensures forall e :: e in Kept(es) <==> e in es && KeptOnReconnect(e)
  {
    if es != [] {
      KeptShrinks(es[1..]);
      if KeptOnReconnect(es[0]) {
        KeptConcat([es[0]], Kept(es[1..]));
        assert [es[0]][1..] == [] && Kept([es[0]]) == [es[0]];
      } else {
        assert Kept(es) == Kept(es[1..]);
      }
      assert es == [es[0]] + es[1..];
    }
  }

  /** PINGREQ and DISCONNECT are deleted in place; the cursor keeps its place among the others. */
  function KeepSession(s: StoreState): (r: StoreState)
    requires s.Valid()
    ensures r.Valid()
  {
    assert s.entries[..s.pos] + s.entries[s.pos..] == s.entries;
    KeptConcat(s.entries[..s.pos], s.entries[s.pos..]);
    KeptShrinks(s.entries);
    s.(entries := Kept(s.entries), pos := |Kept(s.entries[..s.pos])|)
  }

  function FlushLog(es: seq<Entry>, succeeded: bool, log: seq<Event>): seq<Event>
  {
    if es == [] then log
    else
      FlushLog(es[1..], succeeded,
               if es[0].value.body.NoBody? then log else log + [Completed(es[0].kind, es[0].value, succeeded)])
  }

  /** Shifts every entry out and makes its callback. */
  function Flush(c: Client, w: Which): Client
  {
    var s := StoreOf(c, w);
    WithStore(c, w, s.(entries := [], pos := 0)).(log := FlushLog(s.entries, !c.closed, c.log))
  }

  function CleanupStores(c: Client, keepSession: bool): (r: Client)
    requires c.main.Valid()
    ensures r.main.Valid()
  {
    var cleaned :=
      if keepSession then c.(main := KeepSession(c.main))
      else
        var flushed := Flush(c, Main);
        flushed.(ids := flushed.ids.(items := []), log := flushed.log + [SessionCleared]);
    Flush(cleaned, Conn)
  }

  // ----- the session states -----

  function SetCurrentStore(c: Client, w: Which): Client { c.(current := w, rxStore := w, txStore := w) }

  function SetStateInitial(c: Client, now: Time): Client
    requires c.main.Valid()
  {
    var closed := SetCurrentStore(c.(error := None, closed := true, conn := c.conn.(lastTouch := now)), Conn);
    var cleaned := CleanupStores(closed, !c.cleanSession);
    cleaned.(tx := cleaned.tx.(closed := true), slots := NO_SLOTS.(connect := true))
  }

  function SetStateConnecting(c: Client): Client
  {
    var dropped := !c.rx.slot.body.NoBody? && !c.audit.slotCalled;
    c.(error := None, closed := false, rx := RESET_RX, tx := RESET_TX, readBuf := [], writeBuf := [],
       slots := c.slots.(connect := false),
       audit := c.audit.(lost := if dropped then c.audit.lost + multiset{c.rx.slot.ref} else c.audit.lost,
                         slotCalled := false, received := [], decoded := [], encoded := [], written := []))
  }

  function SetStateConnected(c: Client): (r: Client)
    requires c.main.Valid()
    ensures r.main.Valid()
  {
    var open := SetCurrentStore(c.(error := None, closed := false), Main);
    var cleaned := CleanupStores(open, !c.cleanSession);
    cleaned.(main := cleaned.main.Unmark(), slots := Slots(c.slots.connect, true, true, true, true, true))
  }

  function SetStateFailed(c: Client): Client { c.(closed := true, slots := NO_SLOTS) }

  function FailWith(c: Client, e: Error): Client { SetStateFailed(c.(error := Some(e))) }

  // ----- callbacks of responses -----

  /** `client_on_connack`: the session is accepted, unless the client was closed meanwhile. */
  function OnConnack(env: Env, c: Client, q: ConnectRequest): (r: (Client, bool))
    requires c.main.Valid()
    ensures r.0.main.Valid()
  {
    var next :=
      if c.closed then c
      else SetStateConnected(c.(cleanSession := q.cleanSession, main := c.main.(keepAlive := q.keepAlive)));
    var told := next.(log := next.log + [Completed(Connect, c.rx.slot, !c.closed)]);
    (told, env.accept(told.log))
  }

  function SlotKind(rx: Rx): Kind
  {
    match RequestKind(rx.decoder)
    case Some(k) => k
    case None => Connect
  }

  /** The callback of the request in the rx slot. */
  function CallSlot(env: Env, c: Client): (r: (Client, bool))
    requires c.main.Valid()
    ensures r.0.main.Valid()
  {
    match c.rx.slot.body
    case NoBody => (c, true)
    case ConnectBody(q) => OnConnack(env, c, q)
    case _ =>
      var told := c.(log := c.log + [Completed(SlotKind(c.rx), c.rx.slot, !c.closed)]);
      (told, env.accept(told.log))
  }

  function FinishPacket(env: Env, c: Client): Client
    requires c.main.Valid()
  {
    var (called, ok) := CallSlot(env, c);
    if ok then called.(rx := RESET_RX)
    else called.(rx := FailRx(called.rx, CallbackError(c.rx.decoder)),
                 audit := called.audit.(slotCalled := true))
  }

  // ----- decoding and encoding -----

  function LinkOf(c: Client): Link { Link(c.rx, StoreOf(c, c.rxStore), c.ids, c.log) }

  function WithLink(c: Client, l: Link): Client
  {
    WithStore(c, c.rxStore, l.store).(rx := l.rx, ids := l.ids, log := l.log)
  }

  /** One incoming byte, with the callbacks it leads to. */
  function DecodeByte(env: Env, c: Client, b: byte): Client
    requires c.main.Valid() && c.conn.Valid()
  {
    var out := RxStep(env, LinkOf(c), b);
    var next := WithLink(c, out.link);
    if out.call then FinishPacket(env, next) else next
  }

  function TxWorldOf(c: Client): TxWorld { TxWorld(c.tx, StoreOf(c, c.txStore), c.encodes, c.log) }

  function WithTxWorld(c: Client, w: TxWorld): Client
  {
    WithStore(c, c.txStore, w.store).(tx := w.tx, encodes := w.encodes, log := w.log)
  }

  // ----- steps -----

  /** What can happen to a client. The first group are the public calls; the second group are the moves
      of `run_once`, guarded by the error field only, as the code guards them: a closed client that has no
      error reads, decodes, encodes and writes as well. */
  datatype Op =
    | DoConnect(connect: ConnectRequest, ref: nat)
    | DoSubscribe(subscriptions: seq<Subscription>, ref: nat)
    | DoUnsubscribe(subscriptions: seq<Subscription>, ref: nat)
    | DoPublish(publish: PublishRequest, ref: nat)
    | DoDisconnect
    | DoReset(now: Time)
    | DoFinalize
    | SetTimeout(secs: U16)
    | KeepAlive(now: Time)
    | EncodeMore
    | Write(count: nat)
    | Read(bytes: seq<byte>)
    | DecodeOne
    | Touch(now: Time)
    | Eof(now: Time)
    | IoFail(error: Error)

  function Accept(c: Client, e: Entry): (Client, bool)
  {
    var (s, ok) := c.main.Append(e);
    if ok && !e.value.body.NoBody?
    then (c.(main := s, audit := c.audit.(accepted := c.audit.accepted + multiset{e.value.ref})), true)
    else (c.(main := s), ok)
  }

  /** Takes the next packet id, whether or not the append that follows succeeds. */
  function TakeId(c: Client): Client
  {
    c.(main := c.main.(nextId := (c.main.nextId + 1) % 65536), audit := c.audit.(issued := c.audit.issued + 1))
  }

  function ConnectRequested(c: Client, q: ConnectRequest, ref: nat): (Client, bool)
  {
    if !c.slots.connect || !ValidConnect(q) then (c, false)
    else
      var (s, ok) := c.conn.Append(Entry(Connect, Value(0, ref, ConnectBody(q))));
      if !ok then (c, false)
      else (SetStateConnecting(c.(conn := s, audit := c.audit.(accepted := c.audit.accepted + multiset{ref}))), true)
  }

  function SubscribeWithKind(c: Client, kind: Kind, subs: seq<Subscription>, ref: nat): (Client, bool)
  {
    if !ValidSubscribe(subs) then (c, false)
    else Accept(TakeId(c), Entry(kind, Value(c.main.nextId, ref, SubscribeBody(subs))))
  }

  function PublishRequested(c: Client, p: PublishRequest, ref: nat): (Client, bool)
  {
    if !c.slots.publish || !ValidPublish(p) then (c, false)
    else if p.qos == 0 then Accept(c, Entry(Publish0, Value(0, ref, PublishBody(p))))
    else
      Accept(TakeId(c), Entry(if p.qos == 1 then Publish1 else Publish2, Value(c.main.nextId, ref, PublishBody(p))))
  }

  /** A public request and its return value. */
  function Request(c: Client, op: Op): (Client, bool)
    requires op.DoConnect? || op.DoSubscribe? || op.DoUnsubscribe? || op.DoPublish? || op.DoDisconnect?
  {
    match op
    case DoConnect(q, ref) => ConnectRequested(c, q, ref)
    case DoSubscribe(subs, ref) => if c.slots.subscribe then SubscribeWithKind(c, Subscribe, subs, ref) else (c, false)
    case DoUnsubscribe(subs, ref) =>
      if c.slots.unsubscribe then SubscribeWithKind(c, Unsubscribe, subs, ref) else (c, false)
    case DoPublish(p, ref) => PublishRequested(c, p, ref)
    case DoDisconnect => if c.slots.disconnect then Accept(c, Entry(Disconnect, ZERO_VALUE)) else (c, false)
  }

  predicate IsRequest(op: Op)
  {
    op.DoConnect? || op.DoSubscribe? || op.DoUnsubscribe? || op.DoPublish? || op.DoDisconnect?
  }

  /** `lmqtt_rx_buffer_finish`: the callback of a half-decoded response; the slot is not cleared. */
  function FinishSlot(env: Env, c: Client): (r: Client)
    requires c.main.Valid()
    ensures r.main.Valid()
  {
    var called := CallSlot(env, c).0;
    if c.rx.slot.body.NoBody? then called
    else called.(audit := called.audit.(slotCalled := true,
      repeated := if c.audit.slotCalled then c.audit.repeated + multiset{c.rx.slot.ref} else c.audit.repeated))
  }

  function Finalize(env: Env, c: Client): Client
    requires c.main.Valid()
  {
    CleanupStores(FinishSlot(env, FailWith(c, Closed)), false)
  }

  function KeepAliveStep(c: Client, now: Time): Client
  {
    if c.error.Some? then c
    else
      var (active, count, left) := StoreOf(c, c.current).GetTimeout(now);
      if !active || left != ZERO_TIME then c
      else if count > 0 then FailWith(c, Timeout)
      else if c.slots.pingreq then Accept(c, Entry(Pingreq, ZERO_VALUE)).0
      else c
  }

  function EncodeStep(env: Env, c: Client): Client
    requires WellStored(c)
  {
    if c.error.Some? || |c.writeBuf| >= c.writeCap then c
    else
      var out := Encode(env, TxWorldOf(c), c.writeCap - |c.writeBuf|);
      var next := WithTxWorld(c, out.world).(writeBuf := c.writeBuf + out.bytes,
                                             audit := c.audit.(encoded := c.audit.encoded + out.bytes));
      match out.world.tx.error
      case Some(e) => FailWith(next, e)
      case None => next
  }

  /** Decodes the first byte of the read buffer. A decoder that has failed fails at once, whatever the
      buffer holds, until the next connect resets it, so the model forgets the content. */
  function DecodeStep(env: Env, c: Client): Client
    requires c.main.Valid() && c.conn.Valid()
  {
    if c.error.Some? then c
    else if c.rx.error.Some? then FailWith(c.(readBuf := []), c.rx.error.value)
    else if c.readBuf == [] then c
    else
      var next := DecodeByte(env, c, c.readBuf[0]);
      match next.rx.error
      case Some(e) => FailWith(next.(readBuf := []), e)
      case None =>
        next.(readBuf := c.readBuf[1..], audit := next.audit.(decoded := next.audit.decoded + [c.readBuf[0]]))
  }

  function Step(env: Env, c: Client, op: Op): Client
    requires WellStored(c)
  {
    if IsRequest(op) then Request(c, op).0
    else
      match op
      case DoReset(now) => if c.closed && c.error != Some(Closed) then SetStateInitial(c, now) else c
      case DoFinalize => Finalize(env, c)
      case SetTimeout(secs) => c.(main := c.main.(timeout := secs), conn := c.conn.(timeout := secs))
      case KeepAlive(now) => KeepAliveStep(c, now)
      case EncodeMore => EncodeStep(env, c)
      case Write(n) =>
        if c.error.Some? || n > |c.writeBuf| then c
        else c.(writeBuf := c.writeBuf[n..], audit := c.audit.(written := c.audit.written + c.writeBuf[..n]))
      case Read(bytes) =>
        if c.error.Some? || |c.readBuf| + |bytes| > c.readCap then c
        else c.(readBuf := if c.rx.error.Some? then [] else c.readBuf + bytes,
               audit := c.audit.(received := c.audit.received + bytes))
      case DecodeOne => DecodeStep(env, c)
      case Touch(now) =>
        if c.error.Some? then c
        else WithStore(c, c.current, StoreOf(c, c.current).(lastTouch := now))
      case Eof(now) => if c.error.Some? then c else SetStateInitial(c, now)
      case IoFail(e) =>
        if c.error.Some? || !(e.ConnectionRead? || e.ConnectionWrite?) then c else FailWith(c, e)
      case _ => c
  }

  /** A client as `lmqtt_client_initialize` leaves it. */
  function Initial(storeCap: nat, idCap: nat, readCap: nat, writeCap: nat, now: Time): Client
  {
    var main := StoreState([], 0, storeCap, 0, 0, 0, ZERO_TIME);
    var conn := StoreState([], 0, 1, 0, 0, 0, ZERO_TIME);
    var zero := Client(false, false, None, main, conn, Main, Main, Main, RESET_RX, RESET_TX, IdSet([], idCap),
                       multiset{}, [], readCap, [], writeCap, NO_SLOTS, [],
                       Audit(multiset{}, multiset{}, multiset{}, false, 0, [], [], [], []));
    SetStateInitial(zero, now)
  }
}
