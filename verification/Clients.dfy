/** The client as the C library runs it: one object that updates its stores, buffers and function table in
    place. Every public method extends `trace`, and the state is always what the session machine makes of
    that trace, so everything proved about runs holds of the object. */
module Clients {
  import opened Types
  import opened Clock
  import opened PacketStore
  import opened PacketIds
  import opened Wire
  import opened Transmit
  import opened Receive
  import opened Session
  import opened SessionInvariant
  import opened RunSteps
  import opened TxBuffers
  import opened RxBuffers
  import opened Platforms
  import opened Rounds
  import opened Decoding
  import opened Transfers

  function LogOf(c: Session.Client, e: Event): Session.Client { c.(log := c.log + [e]) }

  ghost predicate Synced(env: Env, start: Session.Client, trace: seq<Op>, c: Session.Client)
  {
    Inv(start) && Run(env, start, trace) == c
  }

  class MqttClient {
    const app: App
    const platform: Platform
    const mainStore: Store
    const connectStore: Store
    const rx: RxBuffer
    const tx: TxBuffer
    const ids: IdArray
    const readBuf: array<byte>
    const writeBuf: array<byte>
    var currentStore: Store
    var rxStore: Store
    var txStore: Store
    var closed: bool
    var cleanSession: bool
    var error: Option<Error>
    var readPos: nat
    var writePos: nat
    var slots: Slots
    ghost var audit: Audit
    ghost var start: Session.Client
    ghost var trace: seq<Op>

    function Parts(): set<object>
    {
      {this, app, platform, mainStore, mainStore.entries, connectStore, connectStore.entries, rx, rx.header,
       tx, tx.buffer, ids, ids.items, readBuf, writeBuf}
    }

    predicate IsStore(s: Store) { s == mainStore || s == connectStore }

    /** The objects are separate and the fields within their bounds. */
    predicate Framed()
      reads Parts()
    {
      && mainStore != connectStore && mainStore.entries != connectStore.entries
      && mainStore.Valid() && connectStore.Valid()
      && IsStore(currentStore) && IsStore(rxStore) && IsStore(txStore)
      && tx.Valid() && ids.Valid()
      && readBuf != writeBuf && tx.buffer != readBuf && tx.buffer != writeBuf
      && readPos <= readBuf.Length && writePos <= writeBuf.Length
    }

    function WhichOf(s: Store): Which { if s == mainStore then Main else Conn }

    ghost function Model(): Session.Client
      requires Framed()
      reads Parts()
    {
      Session.Client(
        closed, cleanSession, error, mainStore.Model(), connectStore.Model(),
        WhichOf(currentStore), WhichOf(rxStore), WhichOf(txStore),
        rx.Model(), tx.Model(), ids.Model(), tx.encodes,
        if rx.error.Some? then [] else readBuf[..readPos], readBuf.Length, writeBuf[..writePos], writeBuf.Length,
        slots, app.log, audit)
    }

    /** A zeroed client on the caller's buffers. */
    constructor (app: App, platform: Platform, store: Store, ids: IdArray, readBuf: array<byte>, writeBuf: array<byte>)
      requires app.log == [] && store.Valid() && ids.Valid() && readBuf != writeBuf
      requires store.Model() == StoreState([], 0, store.entries.Length, 0, 0, 0, ZERO_TIME) && ids.count == 0
      ensures Framed() && fresh(connectStore) && fresh(connectStore.entries) && fresh(rx) && fresh(rx.header)
      ensures fresh(tx) && fresh(tx.buffer)
      ensures this.app == app && this.platform == platform && this.mainStore == store && this.ids == ids
      ensures this.readBuf == readBuf && this.writeBuf == writeBuf && trace == []
      ensures Model() == Zero(store.entries.Length, ids.items.Length, readBuf.Length, writeBuf.Length)
    {
      this.app, this.platform, mainStore, this.ids, this.readBuf, this.writeBuf := app, platform, store, ids, readBuf,
        writeBuf;
      connectStore := new Store(1);
      rx := new RxBuffer();
      tx := new TxBuffer();
      currentStore, rxStore, txStore := mainStore, mainStore, mainStore;
      closed, cleanSession, error, readPos, writePos, slots := false, false, None, 0, 0, NO_SLOTS;
      trace := [];
      audit := Audit(multiset{}, multiset{}, multiset{}, false, 0, [], [], [], []);
    }

    // ----- cleaning up -----

    method ShiftOne(store: Store) returns (entry: Entry)
      requires Framed() && IsStore(store) && store.count > 0
      modifies store`count, store`pos, store.entries
      ensures Framed() && store.count == old(store.count) - 1
      ensures var s := StoreOf(old(Model()), WhichOf(store));
              s.entries != [] && entry == s.entries[0] && Model() == WithStore(old(Model()), WhichOf(store), s.PopAt(0))
    {
      var shifted := store.Shift();
      entry := shifted.value;
    }

    method Note(e: Event)
      requires Framed()
      modifies app`log
      ensures Framed() && Model() == LogOf(old(Model()), e)
    {
      app.Note(e);
    }

    /** `client_flush_store`: every entry is shifted out and called back. */
    method FlushStore(store: Store)
      requires Framed() && IsStore(store)
      modifies store`count, store`pos, store.entries, app`log
      ensures Framed() && Model() == Flush(old(Model()), WhichOf(store))
    {
      hide Model, Framed, FlushLog, Flush;
      ghost var w := WhichOf(store);
      while store.count > 0
        invariant Framed() && Flush(Model(), w) == Flush(old(Model()), w)
        decreases store.count
      {
        Views();
        StoreView(store);
        FlushOne(Model(), w);
        var entry := ShiftOne(store);
        if entry.value.body != NoBody {
          Note(Completed(entry.kind, entry.value, !closed));
        }
      }
      StoreView(store);
      FlushNothing(Model(), w);
    }

    lemma StoreView(store: Store)
      requires Framed() && IsStore(store)
      ensures var s := StoreOf(Model(), WhichOf(store)); s == store.Model() && s.Valid()
    {
    }

    method DeleteAt(i: nat)
      requires Framed() && i < mainStore.count
      modifies mainStore`count, mainStore`pos, mainStore.entries
      ensures Framed() && Model() == old(Model()).(main := old(Model()).main.PopAt(i))
              && mainStore.count == old(mainStore.count) - 1
    {
      var _, _ := mainStore.PopAt(i);
    }

    /** The loop that keeps a session: PINGREQ and DISCONNECT are deleted where they are. */
    method DropTransient()
      requires Framed()
      modifies mainStore`count, mainStore`pos, mainStore.entries
      ensures Framed() && Model() == old(Model()).(main := KeepSession(old(Model()).main))
    {
      hide Model, Framed, Cleaned, Kept, KeptOnReconnect;
      ghost var before := Model();
      ghost var seen: nat := 0;
      MainView();
      CleanNothing(before.main);
      var i := 0;
      while i < mainStore.count
        invariant Framed() && seen <= |before.main.entries| && i == |Kept(before.main.entries[..seen])|
                  && before.main.Valid()
        invariant Model() == before.(main := Cleaned(before.main, seen)) && mainStore.count == |Model().main.entries|
        decreases |before.main.entries| - seen
      {
        MainView();
        CleanLength(before.main, seen);
        CleanOne(before.main, seen);
        var kind := mainStore.entries[i].kind;
        if kind.Pingreq? || kind.Disconnect? {
          DeleteAt(i);
        } else {
          i := i + 1;
        }
        seen := seen + 1;
      }
      CleanLength(before.main, seen);
      CleanAll(before.main);
    }

    lemma MainView()
      requires Framed()
      ensures Model().main.Valid() && mainStore.count == |Model().main.entries| <= mainStore.entries.Length
      ensures forall i :: 0 <= i < mainStore.count ==> mainStore.entries[i] == Model().main.entries[i]
    {
    }

    method CleanupStores(keepSession: bool)
      requires Framed()
      modifies mainStore`count, mainStore`pos, mainStore.entries, connectStore`count, connectStore`pos,
               connectStore.entries, app`log, ids`count
      ensures Framed() && Model() == Session.CleanupStores(old(Model()), keepSession)
    {
      hide KeepSession, FlushLog;
      if keepSession {
        DropTransient();
      } else {
        FlushStore(mainStore);
        ids.Clear();
        app.Note(SessionCleared);
      }
      FlushStore(connectStore);
    }

    method SetCurrentStore(store: Store)
      requires Framed() && IsStore(store)
      modifies this`currentStore, this`rxStore, this`txStore
      ensures Framed() && Model() == Session.SetCurrentStore(old(Model()), WhichOf(store))
    {
      currentStore, rxStore, txStore := store, store, store;
    }

    // ----- the session states -----

    method SetOpen(open: bool)
      requires Framed()
      modifies this`error, this`closed
      ensures Framed() && Model() == old(Model()).(error := None, closed := !open)
    {
      error, closed := None, !open;
    }

    method SetSlots(table: Slots)
      requires Framed()
      modifies this`slots
      ensures Framed() && Model() == old(Model()).(slots := table)
    {
      slots := table;
    }

    method TouchConnectStore()
      requires Framed()
      modifies platform`ticks, connectStore`lastTouch
      ensures Framed() && platform.View() == Tick(old(platform.View())).0
      ensures Model() == old(Model()).(conn := old(Model()).conn.(lastTouch := platform.clock(old(platform.ticks))))
    {
      var now := platform.Now();
      connectStore.Touch(now);
    }

    method FinishTx()
      requires Framed()
      modifies tx`closed
      ensures Framed() && Model() == old(Model()).(tx := old(Model()).tx.(closed := true))
    {
      tx.Finish();
    }

    method SetStateInitial()
      requires Framed()
      modifies this`error, this`closed, this`currentStore, this`rxStore, this`txStore, this`slots, tx`closed, app`log,
               ids`count, mainStore`count, mainStore`pos, mainStore.entries, connectStore`count, connectStore`pos,
               connectStore`lastTouch, connectStore.entries, platform`ticks
      ensures Framed() && Model() == Session.SetStateInitial(old(Model()), platform.clock(old(platform.ticks)))
      ensures platform.View() == Tick(old(platform.View())).0
    {
      hide Session.CleanupStores, Model, Framed;
      SetOpen(false);
      TouchConnectStore();
      Views();
      SetCurrentStore(connectStore);
      CleanupStores(!cleanSession);
      FinishTx();
      SetSlots(NO_SLOTS.(connect := true));
    }

    method ResetRx()
      requires Framed()
      modifies this`readPos, rx, rx.header
      ensures Framed() && Sized(Model().rx)
      ensures Model() == old(Model()).(rx := RESET_RX, readBuf := [])
    {
      rx.Reset();
      readPos := 0;
    }

    method ResetTx()
      requires Framed()
      modifies this`writePos, tx`closed, tx`pos, tx`offset, tx`error, tx`encoded, tx`bufLen
      ensures Framed() && Model() == old(Model()).(tx := RESET_TX, writeBuf := [])
    {
      tx.Reset();
      writePos := 0;
    }

    ghost method SetAudit(a: Audit)
      requires Framed()
      modifies this`audit
      ensures Framed() && Model() == old(Model()).(audit := a)
    {
      audit := a;
    }

    method SetStateConnecting()
      requires Framed()
      modifies this`error, this`closed, this`readPos, this`writePos, this`slots, this`audit, rx,
               rx.header, tx`closed, tx`pos, tx`offset, tx`error, tx`encoded, tx`bufLen
      ensures Framed() && Model() == Session.SetStateConnecting(old(Model())) && Sized(Model().rx)
    {
      ConnectingParts(Model());
      hide *;
      Views();
      SetAudit(ReconnectAudit(Model()));
      SetOpen(true);
      ResetRx();
      ResetTx();
      Views();
      SetSlots(slots.(connect := false));
    }

    method UnmarkMain()
      requires Framed()
      modifies mainStore`pos
      ensures Framed() && Model() == old(Model()).(main := old(Model()).main.Unmark())
    {
      mainStore.UnmarkAll();
    }

    method SetStateConnected()
      requires Framed()
      modifies this`error, this`closed, this`currentStore, this`rxStore, this`txStore, this`slots, app`log, ids`count,
               mainStore`count, mainStore`pos, mainStore.entries, connectStore`count, connectStore`pos,
               connectStore.entries
      ensures Framed() && Model() == Session.SetStateConnected(old(Model()))
    {
      hide Session.CleanupStores, Model, Framed, Session.SetStateConnected, Session.SetCurrentStore,
           StoreState.Unmark;
      MainView();
      ConnectedParts(Model());
      SetOpen(true);
      Views();
      SetCurrentStore(mainStore);
      Views();
      CleanupStores(!cleanSession);
      UnmarkMain();
      Views();
      SetSlots(Slots(slots.connect, true, true, true, true, true));
    }

    method SetStateFailed()
      requires Framed()
      modifies this`closed, this`slots
      ensures Framed() && Model() == Session.SetStateFailed(old(Model()))
    {
      closed, slots := true, NO_SLOTS;
    }

    method Fail(e: Error)
      requires Framed()
      modifies this`closed, this`slots, this`error
      ensures Framed() && Model() == FailWith(old(Model()), e)
    {
      error := Some(e);
      SetStateFailed();
    }

    // ----- callbacks of responses -----

    method Tell(e: Event) returns (ok: bool)
      requires Framed()
      modifies app`log
      ensures Framed() && Model() == LogOf(old(Model()), e) && ok == app.env.accept(Model().log)
    {
      ok := app.Ask(e);
    }

    method AcceptSession(q: ConnectRequest)
      requires Framed()
      modifies this`cleanSession, mainStore`keepAlive
      ensures Framed()
      ensures Model() == old(Model()).(cleanSession := q.cleanSession,
                                         main := old(Model()).main.(keepAlive := q.keepAlive))
    {
      cleanSession := q.cleanSession;
      mainStore.keepAlive := q.keepAlive;
    }

    method OnConnack(q: ConnectRequest) returns (ok: bool)
      requires Framed()
      modifies this`error, this`closed, this`currentStore, this`rxStore, this`txStore, this`slots, this`cleanSession,
               app`log, ids`count, mainStore`count, mainStore`pos, mainStore`keepAlive, mainStore.entries,
               connectStore`count, connectStore`pos, connectStore.entries
      ensures Framed() && (Model(), ok) == Session.OnConnack(app.env, old(Model()), q)
    {
      hide Session.SetStateConnected, Model, Framed;
      Views();
      var accepted := !closed;
      if accepted {
        AcceptSession(q);
        SetStateConnected();
      }
      ok := Tell(Completed(Kind.Connect, rx.slot, accepted));
    }

    /** `rx_buffer_call_callback`. */
    method CallSlot() returns (ok: bool)
      requires Framed()
      modifies this`error, this`closed, this`currentStore, this`rxStore, this`txStore, this`slots, this`cleanSession,
               app`log, ids`count, mainStore`count, mainStore`pos, mainStore`keepAlive, mainStore.entries,
               connectStore`count, connectStore`pos, connectStore.entries
      ensures Framed() && (Model(), ok) == Session.CallSlot(app.env, old(Model()))
    {
      hide Session.OnConnack, Model, Framed, SlotKind;
      Views();
      match rx.slot.body {
        case NoBody => ok := true;
        case ConnectBody(q) => ok := OnConnack(q);
        case _ => ok := Tell(Completed(SlotKind(rx.Model()), rx.slot, !closed));
      }
    }

    method CloseSlot(ok: bool)
      requires Framed() && rx.error.None?
      modifies rx, rx.header, this`audit
      ensures Framed() && Sized(Model().rx) && audit == old(audit).(slotCalled := audit.slotCalled)
      ensures Model() == SlotClosed(old(Model()), ok)
    {
      if ok {
        rx.Reset();
      } else {
        rx.Fail(CallbackError(rx.decoder));
        audit := audit.(slotCalled := true);
      }
    }

    /** `rx_buffer_finish_packet`, from the callback on. */
    method FinishPacket()
      requires Framed() && rx.error.None?
      modifies this`error, this`closed, this`currentStore, this`rxStore, this`txStore, this`slots, this`cleanSession,
               app`log, ids`count, mainStore`count, mainStore`pos, mainStore`keepAlive, mainStore.entries,
               connectStore`count, connectStore`pos, connectStore.entries, rx, rx.header, this`audit
      ensures Framed() && Sized(Model().rx)
      ensures Model() == Discarded(Session.FinishPacket(app.env, old(Model())))
    {
      hide Session.CallSlot, Model, Framed;
      MainView();
      CallKeepsRx(app.env, Model());
      var ok := CallSlot();
      CloseSlot(ok);
    }

    // ----- the trace -----

    /** The client and its connection, as the specification sees them. */
    ghost function Seen(): World
      requires Framed()
      reads Parts()
    {
      World(Model(), platform.View(), if error.Some? then 0 else readPos)
    }

    /** The state is what the session machine makes of the trace. */
    ghost predicate Valid()
      reads Parts()
    {
      Framed() && WorldValid(Seen()) && Synced(app.env, start, trace, Model())
    }

    ghost method Record(c: Session.Client, op: Op)
      requires Framed() && Synced(app.env, start, trace, c)
      modifies this`trace
      ensures Framed() && Model() == old(Model()) && Seen() == old(Seen()) && trace == old(trace) + [op]
      ensures WellStored(c) && Synced(app.env, start, trace, Step(app.env, c, op))
    {
      hide Model, Framed, Inv, Step, WellStored;
      RunKeepsInv(app.env, start, trace);
      RunAppend(app.env, start, trace, [op]);
      RunOne(app.env, c, op);
      Extend([op]);
    }

    ghost method RecordAll(c: Session.Client, ops: seq<Op>)
      requires Framed() && Synced(app.env, start, trace, c) && Inv(c)
      modifies this`trace
      ensures Framed() && Model() == old(Model()) && Seen() == old(Seen()) && trace == old(trace) + ops
      ensures Synced(app.env, start, trace, Run(app.env, c, ops))
    {
      hide Model, Framed, Inv, Run;
      RunAppend(app.env, start, trace, ops);
      Extend(ops);
    }

    ghost method Extend(ops: seq<Op>)
      requires Framed()
      modifies this`trace
      ensures Framed() && Model() == old(Model()) && Seen() == old(Seen()) && trace == old(trace) + ops
    {
      trace := trace + ops;
    }

    ghost method SetStart()
      requires Framed()
      modifies this`start
      ensures Framed() && Model() == old(Model()) && Seen() == old(Seen()) && start == Model()
    {
      start := Model();
    }

    method Initialize()
      requires Framed() && trace == [] && app.log == []
      requires Model() == Zero(mainStore.entries.Length, ids.items.Length, readBuf.Length, writeBuf.Length)
      modifies this, tx, app`log, ids, mainStore, mainStore.entries, connectStore, connectStore.entries, platform`ticks
      ensures Valid() && trace == []
      ensures start == Initial(mainStore.entries.Length, ids.items.Length, readBuf.Length, writeBuf.Length,
                               platform.clock(old(platform.ticks)))
    {
      hide Valid, Model, Framed, Session.SetStateInitial, Zero, Initial, Synced, Sized, OnWire;
      ghost var now := platform.clock(platform.ticks);
      StartsInitial(mainStore.entries.Length, ids.items.Length, readBuf.Length, writeBuf.Length, now);
      SetStateInitial();
      SetStart();
      StartIsValid(now);
    }

    lemma StartIsValid(now: Time)
      requires Framed() && trace == [] && start == Model()
      requires start == Initial(mainStore.entries.Length, ids.items.Length, readBuf.Length, writeBuf.Length, now)
      ensures Valid()
    {
      hide Valid, Model, Framed, Initial, Synced, Sized, OnWire;
      StartsValid(app.env, mainStore.entries.Length, ids.items.Length, readBuf.Length, writeBuf.Length, now,
        platform.View());
      MakesValid();
    }

    // ----- requests -----

    method QueueConnect(q: ConnectRequest, ref: nat) returns (ok: bool)
      requires Framed()
      modifies connectStore`count, connectStore.entries, this`audit
      ensures Framed()
      ensures var (s, queued) := old(Model()).conn.Append(Entry(Kind.Connect, Value(0, ref, ConnectBody(q))));
              ok == queued && Model() == if ok then ConnectQueued(old(Model()), s, ref) else old(Model())
    {
      ok := connectStore.Append(Kind.Connect, Value(0, ref, ConnectBody(q)));
      if ok { audit := audit.(accepted := audit.accepted + multiset{ref}); }
    }

    method StartConnecting(q: ConnectRequest, ref: nat) returns (ok: bool)
      requires Framed() && Model().slots.connect
      modifies this`error, this`closed, this`readPos, this`writePos, this`slots, this`audit, rx,
               rx.header, tx`closed, tx`pos, tx`offset, tx`error, tx`encoded, tx`bufLen, connectStore`count,
               connectStore.entries
      ensures Framed() && (Model(), ok) == ConnectRequested(old(Model()), q, ref)
    {
      hide Model, Framed, ValidConnect, Session.SetStateConnecting, Sized;
      if !ValidConnect(q) { return false; }
      ok := QueueConnect(q, ref);
      if ok { SetStateConnecting(); }
    }

    /** Takes an id from the main store, used or not. */
    method TakeId() returns (packetId: U16)
      requires Framed()
      modifies mainStore`nextPacketId, this`audit
      ensures Framed() && Model() == Session.TakeId(old(Model())) && packetId == old(Model()).main.nextId
    {
      packetId := mainStore.GetId();
      audit := audit.(issued := audit.issued + 1);
    }

    method AcceptEntry(kind: Kind, value: Value) returns (ok: bool)
      requires Framed()
      modifies mainStore`count, mainStore.entries, this`audit
      ensures Framed() && (Model(), ok) == Accept(old(Model()), Entry(kind, value))
    {
      ok := mainStore.Append(kind, value);
      if ok && !value.body.NoBody? { audit := audit.(accepted := audit.accepted + multiset{value.ref}); }
    }

    method Validate(subs: seq<Subscription>) returns (ok: bool)
      requires Framed()
      ensures ok == ValidSubscribe(subs) && Framed() && Model() == old(Model())
    {
      ok := ValidateSubscribe(subs);
    }

    method SubscribeWithKind(kind: Kind, subs: seq<Subscription>, ref: nat) returns (ok: bool)
      requires Framed()
      modifies mainStore`count, mainStore.entries, mainStore`nextPacketId, this`audit
      ensures Framed() && (Model(), ok) == Session.SubscribeWithKind(old(Model()), kind, subs, ref)
    {
      hide Model, Framed, ValidSubscribe, Accept, Session.TakeId;
      ok := Validate(subs);
      if !ok { return; }
      var packetId := TakeId();
      ok := AcceptEntry(kind, Value(packetId, ref, SubscribeBody(subs)));
    }

    method StartPublish(p: PublishRequest, ref: nat) returns (ok: bool)
      requires Framed() && Model().slots.publish
      modifies mainStore`count, mainStore.entries, mainStore`nextPacketId, this`audit
      ensures Framed() && (Model(), ok) == PublishRequested(old(Model()), p, ref)
    {
      hide Model, Framed, ValidPublish, Accept, Session.TakeId;
      if !ValidPublish(p) { return false; }
      var kind, packetId := Publish0, 0;
      if p.qos != 0 {
        kind := if p.qos == 1 then Publish1 else Publish2;
        packetId := TakeId();
      }
      ok := AcceptEntry(kind, Value(packetId, ref, PublishBody(p)));
    }

    // ----- public calls -----

    method Connect(q: ConnectRequest, ref: nat) returns (ok: bool)
      requires Valid()
      modifies Parts() - {platform, app}
      ensures Valid() && start == old(start) && trace == old(trace) + [DoConnect(q, ref)]
      ensures (Model(), ok) == Request(old(Model()), DoConnect(q, ref))
    {
      hide Valid, Model, Framed, Sized, OnWire, Synced, Session.SetStateConnecting, ValidConnect, StoreState.Append,
           Inv, WellStored, Run, ConnectRequested, Step;
      ValidMeans();
      ghost var c := Model();
      Views();
      RequestIsConnect(c, q, ref);
      StepIsRequest(app.env, c, DoConnect(q, ref));
      RequestWire(c, DoConnect(q, ref), platform.View());
      if slots.connect { ok := StartConnecting(q, ref); } else { ok := false; }
      Record(c, DoConnect(q, ref));
      MakesValid();
    }

    method Subscribe(subs: seq<Subscription>, ref: nat) returns (ok: bool)
      requires Valid()
      modifies this, mainStore, mainStore.entries
      ensures Valid() && start == old(start) && trace == old(trace) + [DoSubscribe(subs, ref)]
      ensures (Model(), ok) == Request(old(Model()), DoSubscribe(subs, ref))
    {
      hide Valid, Model, Framed, Sized, OnWire, Synced, Session.SubscribeWithKind, Inv, WellStored, Run;
      ValidMeans();
      ghost var c := Model();
      Views();
      RequestWire(c, DoSubscribe(subs, ref), platform.View());
      if slots.subscribe { ok := SubscribeWithKind(Kind.Subscribe, subs, ref); } else { ok := false; }
      Record(c, DoSubscribe(subs, ref));
      MakesValid();
    }

    method Unsubscribe(subs: seq<Subscription>, ref: nat) returns (ok: bool)
      requires Valid()
      modifies this, mainStore, mainStore.entries
      ensures Valid() && start == old(start) && trace == old(trace) + [DoUnsubscribe(subs, ref)]
      ensures (Model(), ok) == Request(old(Model()), DoUnsubscribe(subs, ref))
    {
      hide Valid, Model, Framed, Sized, OnWire, Synced, Session.SubscribeWithKind, Inv, WellStored, Run;
      ValidMeans();
      ghost var c := Model();
      Views();
      RequestWire(c, DoUnsubscribe(subs, ref), platform.View());
      if slots.unsubscribe { ok := SubscribeWithKind(Kind.Unsubscribe, subs, ref); } else { ok := false; }
      Record(c, DoUnsubscribe(subs, ref));
      MakesValid();
    }

    method Publish(p: PublishRequest, ref: nat) returns (ok: bool)
      requires Valid()
      modifies this, mainStore, mainStore.entries
      ensures Valid() && start == old(start) && trace == old(trace) + [DoPublish(p, ref)]
      ensures (Model(), ok) == Request(old(Model()), DoPublish(p, ref))
    {
      hide Valid, Model, Framed, Sized, OnWire, Synced, ValidPublish, Accept, Session.TakeId, Inv, WellStored, Run;
      ValidMeans();
      ghost var c := Model();
      Views();
      RequestWire(c, DoPublish(p, ref), platform.View());
      if slots.publish { ok := StartPublish(p, ref); } else { ok := false; }
      Record(c, DoPublish(p, ref));
      MakesValid();
    }

    method Disconnect() returns (ok: bool)
      requires Valid()
      modifies this, mainStore, mainStore.entries
      ensures Valid() && start == old(start) && trace == old(trace) + [DoDisconnect]
      ensures (Model(), ok) == Request(old(Model()), DoDisconnect)
    {
      hide Valid, Model, Framed, Sized, OnWire, Synced, Accept, Inv, WellStored, Run, Step;
      ValidMeans();
      ghost var c := Model();
      Views();
      StepIsRequest(app.env, c, DoDisconnect);
      RequestWire(c, DoDisconnect, platform.View());
      if slots.disconnect { ok := AcceptEntry(Kind.Disconnect, ZERO_VALUE); } else { ok := false; }
      Record(c, DoDisconnect);
      MakesValid();
    }

    /** `lmqtt_client_reset`. */
    method Reset() returns (ghost now: Time)
      requires Valid()
      modifies this`error, this`closed, this`currentStore, this`rxStore, this`txStore, this`slots, this`trace,
               tx`closed, app`log, ids`count, mainStore`count, mainStore`pos, mainStore.entries, connectStore`count,
               connectStore`pos, connectStore`lastTouch, connectStore.entries, platform`ticks
      ensures Valid() && start == old(start) && now == platform.clock(old(platform.ticks))
      ensures trace == old(trace) + [DoReset(now)]
      ensures platform.View() == if old(closed && error != Some(Error.Closed)) then Tick(old(platform.View())).0
                                 else old(platform.View())
    {
      hide Valid, Inv, WellStored, Model, Framed, Sized, OnWire, Synced, Session.SetStateInitial, Run, Step, Tick;
      ValidMeans();
      ghost var c := Model();
      now := platform.clock(platform.ticks);
      StepResets(app.env, c, now);
      Views();
      InitialStateWire(c, now);
      SameOnWire(c, Session.SetStateInitial(c, now), platform.View());
      if closed && error != Some(Error.Closed) { SetStateInitial(); }
      Record(c, DoReset(now));
      MakesValid();
    }

    method FinishSlot()
      requires Framed()
      modifies this`error, this`closed, this`currentStore, this`rxStore, this`txStore, this`slots, this`cleanSession,
               this`audit, app`log, ids`count, mainStore`count, mainStore`pos, mainStore`keepAlive, mainStore.entries,
               connectStore`count, connectStore`pos, connectStore.entries
      ensures Framed() && Model() == Session.FinishSlot(app.env, old(Model()))
    {
      hide Model, Framed, Session.CallSlot;
      ghost var c := Model();
      MainView();
      Views();
      CallKeepsAudit(app.env, c);
      var _ := CallSlot();
      Views();
      if !rx.slot.body.NoBody? {
        SetAudit(audit.(slotCalled := true,
                        repeated := if c.audit.slotCalled then c.audit.repeated + multiset{c.rx.slot.ref}
                          else c.audit.repeated));
      }
    }

    method Close()
      requires Framed()
      modifies this`error, this`closed, this`currentStore, this`rxStore, this`txStore, this`slots, this`cleanSession,
               this`audit, app`log, ids`count, mainStore`count, mainStore`pos, mainStore`keepAlive, mainStore.entries,
               connectStore`count, connectStore`pos, connectStore.entries
      ensures Framed() && Model() == Session.Finalize(app.env, old(Model()))
    {
      hide FailWith, Model, Framed, Session.FinishSlot, Session.CleanupStores;
      Fail(Error.Closed);
      FinishSlot();
      CleanupStores(false);
    }

    /** `lmqtt_client_finalize`. */
    method Finalize()
      requires Valid()
      modifies this`error, this`closed, this`currentStore, this`rxStore, this`txStore, this`slots, this`cleanSession,
               this`audit, this`trace, app`log, ids`count, mainStore`count, mainStore`pos, mainStore`keepAlive,
               mainStore.entries, connectStore`count, connectStore`pos, connectStore.entries
      ensures Valid() && start == old(start) && trace == old(trace) + [DoFinalize] && error == Some(Error.Closed)
    {
      hide Valid, Model, Framed, Sized, OnWire, Synced, Session.Finalize, Inv, WellStored, Run, Step;
      ValidMeans();
      ghost var c := Model();
      MainView();
      FinalizeWire(app.env, c);
      StepFinalizes(app.env, c);
      SameOnWire(c, Session.Finalize(app.env, c), platform.View());
      Close();
      Views();
      Record(c, DoFinalize);
      MakesValid();
    }

    method SetTimeouts(secs: U16)
      requires Framed()
      modifies mainStore`timeout, connectStore`timeout
      ensures Framed()
      ensures Model() == old(Model()).(main := old(Model()).main.(timeout := secs),
              conn := old(Model()).conn.(timeout := secs))
    {
      mainStore.timeout := secs;
      connectStore.timeout := secs;
    }

    /** `lmqtt_client_set_default_timeout`. */
    method SetDefaultTimeout(secs: U16)
      requires Valid()
      modifies this, mainStore, connectStore
      ensures Valid() && start == old(start) && trace == old(trace) + [Op.SetTimeout(secs)]
    {
      hide Valid, Model, Framed, Sized, OnWire, Synced, Inv, WellStored, Run;
      ValidMeans();
      ghost var c := Model();
      SetTimeouts(secs);
      SameOnWire(c, Model(), platform.View());
      Record(c, Op.SetTimeout(secs));
      MakesValid();
    }

    // ----- the ends of the staging buffers -----

    /** One round of the decode loop, without the callback. */
    method RxRound(i: nat) returns (cnt: nat, call: bool, ghost out: RxOut)
      requires Framed() && i < readPos && rx.error.None? && Sized(Model().rx)
      modifies rx, rx.header, rxStore`count, rxStore`pos, rxStore.entries, ids, ids.items, app`log
      ensures Framed() && call == out.call && LinkOf(old(Model())).store.Valid() && LinkOf(old(Model())).rx.error.None?
      ensures Sized(LinkOf(old(Model())).rx)
      ensures (out, cnt) == Rounds.Round(app.env, LinkOf(old(Model())), old(readBuf[i..readPos]))
      ensures out.link.store.Valid() && Model() == Discarded(WithLink(old(Model()), out.link))
    {
      hide Sized, Rounds.Round;
      cnt, call := rx.DecodeRound(rxStore, ids, app, readBuf, i, readPos);
      out := RxOut(rx.LinkTo(rxStore, ids, app), call);
    }

    method FinishWhen(call: bool)
      requires Framed() && (call ==> rx.error.None?)
      modifies this`error, this`closed, this`currentStore, this`rxStore, this`txStore, this`slots, this`cleanSession,
               app`log, ids`count, mainStore`count, mainStore`pos, mainStore`keepAlive, mainStore.entries,
               connectStore`count, connectStore`pos, connectStore.entries, rx, rx.header, this`audit
      ensures Framed()
      ensures Model() == if call then Discarded(Session.FinishPacket(app.env, old(Model()))) else old(Model())
    {
      hide Model, Framed, Session.FinishPacket, Discarded;
      if call { FinishPacket(); }
    }

    /** A round with the callback it leads to. */
    method DecodeRound(i: nat) returns (cnt: nat)
      requires Framed() && i < readPos && CanDecode(Model()) && Sized(Model().rx)
      modifies this`error, this`closed, this`currentStore, this`rxStore, this`txStore, this`slots, this`cleanSession,
               app`log, ids, ids.items, mainStore`count, mainStore`pos, mainStore`keepAlive, mainStore.entries,
               connectStore`count, connectStore`pos, connectStore.entries, rx, rx.header, this`audit
      ensures Framed() && 0 < cnt <= readPos - i && cnt == RoundSize(app.env, old(Model()), old(readBuf[i..readPos]))
      ensures Model() == Discarded(RoundDone(app.env, old(Model()), old(readBuf[i..readPos])))
    {
      hide CanDecode, RoundDone, RoundSize, Model, Framed, Sized, Inv, Rounds.Round, Session.FinishPacket, WithLink,
           Discarded;
      ReadView();
      ghost var c, bytes := Model(), readBuf[i..readPos];
      DecodingFacts(c);
      RoundIsBytes(app.env, c, bytes);
      ghost var round := Rounds.Round(app.env, LinkOf(c), bytes);
      RoundKeepsModel(app.env, c, round.0, bytes);
      var call;
      ghost var out;
      cnt, call, out := RxRound(i);
      assert out == round.0 && cnt == round.1;
      ReadView();
      FinishWhen(call);
    }

    /** A round, and what is left of the call. */
    method DecodeMore(i: nat) returns (cnt: nat)
      requires Framed() && i < readPos && CanDecode(Model()) && Sized(Model().rx)
      modifies this`error, this`closed, this`currentStore, this`rxStore, this`txStore, this`slots, this`cleanSession,
               app`log, ids, ids.items, mainStore`count, mainStore`pos, mainStore`keepAlive, mainStore.entries,
               connectStore`count, connectStore`pos, connectStore.entries, rx, rx.header, this`audit
      ensures Framed() && 0 < cnt <= readPos - i
      ensures var whole := DecodeCall(app.env, old(Model()), readBuf[i..readPos]);
              if rx.error.Some? then Model() == Discarded(whole)
              else
                CanDecode(Model()) && Sized(Model().rx)
                && DecodeCall(app.env, Model(), readBuf[i + cnt..readPos]) == whole
    {
      hide Model, Framed, Sized, Inv, CanDecode, DecodeCall, RoundDone, RoundSize, Discarded;
      Views();
      ghost var c := Model();
      ghost var bytes := readBuf[i..readPos];
      cnt := DecodeRound(i);
      assert readBuf[i + cnt..readPos] == bytes[cnt..];
      RoundThenRest(app.env, c, bytes, cnt);
      Views();
    }

    /** `lmqtt_rx_buffer_decode` on the whole read buffer. */
    method DecodeLoop() returns (i: nat)
      requires Framed() && CanDecode(Model()) && Sized(Model().rx)
      modifies this`error, this`closed, this`currentStore, this`rxStore, this`txStore, this`slots, this`cleanSession,
               app`log, ids, ids.items, mainStore`count, mainStore`pos, mainStore`keepAlive, mainStore.entries,
               connectStore`count, connectStore`pos, connectStore.entries, rx, rx.header, this`audit
      ensures Framed() && i <= readPos && (rx.error.None? ==> i == readPos)
      ensures Model() == Discarded(DecodeCall(app.env, old(Model()), readBuf[..readPos]))
    {
      hide Model, Framed, Sized, Inv, CanDecode, DecodeCall, Discarded;
      DecodableRx(Model());
      Views();
      ghost var whole := DecodeCall(app.env, Model(), readBuf[..readPos]);
      i := 0;
      assert readBuf[0..readPos] == readBuf[..readPos];
      while i < readPos && rx.error.None?
        invariant Framed() && i <= readPos <= readBuf.Length
        invariant rx.error.None? ==>
          CanDecode(Model()) && Sized(Model().rx) && DecodeCall(app.env, Model(), readBuf[i..readPos]) == whole
        invariant rx.error.Some? ==> Model() == Discarded(whole)
        decreases rx.error.None?, readPos - i
      {
        var cnt := DecodeMore(i);
        if rx.error.None? { i := i + cnt; }
      }
      if rx.error.None? {
        assert readBuf[i..readPos] == [];
        CallOnNothing(app.env, Model());
      }
    }

    lemma ReadView()
      requires Framed()
      ensures IsStore(rxStore) && Model().rx.error == rx.error && readPos <= readBuf.Length
      ensures rx.error.None? ==> Model().readBuf == readBuf[..readPos]
      ensures rx.error.Some? ==> Model().readBuf == []
    {
    }

    /** `transfer_shift` on the read buffer. */
    method ShiftRead(n: nat)
      requires Framed() && n <= readPos
      modifies this`readPos, readBuf
      ensures Framed() && readPos == old(readPos) - n
      ensures Model() == if rx.error.Some? then old(Model()) else old(Model()).(readBuf := old(Model()).readBuf[n..])
    {
      assert readBuf[..readPos][n..] == readBuf[n..readPos];
      MoveDown(readBuf, n, readPos);
      readPos := readPos - n;
    }

    /** What a wrapper does, before its failure is acted on. */
    ghost predicate Did(m: Moved, io: IoResult, cnt: nat, e: Error)
      reads Parts()
    {
      && Framed() && io == m.io && AfterMove(Model(), io, e) == m.world.c && platform.View() == m.world.net
      && (!io.IoError? ==> cnt == m.cnt && readPos == m.world.held)
    }

    /** Decodes and empties the buffer. */
    method DecodeAndShift() returns (cnt: nat)
      requires Framed() && CanDecode(Model()) && Sized(Model().rx)
      modifies this`error, this`closed, this`currentStore, this`rxStore, this`txStore, this`slots, this`cleanSession,
               app`log, ids, ids.items, mainStore`count, mainStore`pos, mainStore`keepAlive, mainStore.entries,
               connectStore`count, connectStore`pos, connectStore.entries, rx, rx.header, this`audit,
               this`readPos, readBuf
      ensures Framed() && (rx.error.None? ==> cnt == old(readPos) && readPos == 0)
      ensures Model() == Emptied(DecodeCall(app.env, old(Model()), old(Model()).readBuf))
    {
      hide Model, Framed, Sized, Inv, CanDecode, DecodeCall;
      DecodableRx(Model());
      ReadView();
      CallKeepsBuffer(app.env, Model(), Model().readBuf);
      cnt := DecodeLoop();
      ReadView();
      ShiftRead(cnt);
      ReadView();
    }

    /** A decoder that failed before fails again without looking at the bytes. */
    lemma FailsAgain()
      requires Framed() && WorldValid(Seen()) && error.None? && readPos > 0 && rx.error.Some?
      ensures Did(DecodeMove(app.env, Seen()), IoError, 0, rx.error.value)
    {
      hide Model, Framed, Sized, Inv, DecodeCall, Run, OnWire, FailWith;
      Views();
      FailedDecoder(app.env, Seen().c, readPos);
      Forgotten(Seen().c);
      FailedErrorIsSet(Seen().c, rx.error.value);
    }

    ghost method MarkDecoded(decoded: seq<byte>)
      requires Framed()
      modifies this`audit
      ensures Framed() && Model() == WithDecoded(old(Model()), decoded)
    {
      audit := audit.(decoded := decoded);
    }

    method DecodeBuffered(ghost decoded: seq<byte>) returns (cnt: nat)
      requires Framed() && CanDecode(Model()) && Sized(Model().rx)
      modifies this`error, this`closed, this`currentStore, this`rxStore, this`txStore, this`slots, this`cleanSession,
               app`log, ids, ids.items, mainStore`count, mainStore`pos, mainStore`keepAlive, mainStore.entries,
               connectStore`count, connectStore`pos, connectStore.entries, rx, rx.header, this`audit,
               this`readPos, readBuf
      ensures Framed() && (rx.error.None? ==> cnt == old(readPos) && readPos == 0)
      ensures var d := DecodeCall(app.env, old(Model()), old(Model()).readBuf);
              Model() == Rebuffer(d, [], decoded) && rx.error == d.rx.error
    {
      hide Model, Framed, Sized, Inv, DecodeCall, CanDecode, Emptied, Rebuffer, WithDecoded;
      EmptiedIsRebuffered(DecodeCall(app.env, Model(), Model().readBuf), decoded);
      cnt := DecodeAndShift();
      MarkDecoded(decoded);
      ReadView();
    }

    method DecodeAll() returns (io: IoResult, cnt: nat, e: Error)
      requires Framed() && WorldValid(Seen()) && error.None? && readPos > 0 && rx.error.None?
      modifies this`error, this`closed, this`currentStore, this`rxStore, this`txStore, this`slots, this`cleanSession,
               app`log, ids, ids.items, mainStore`count, mainStore`pos, mainStore`keepAlive, mainStore.entries,
               connectStore`count, connectStore`pos, connectStore.entries, rx, rx.header, this`audit,
               this`readPos, readBuf
      ensures Did(DecodeMove(app.env, old(Seen())), io, cnt, e)
    {
      hide Model, Framed, Sized, Inv, DecodeCall, Run, OnWire, FailWith, WorldValid, DecodeMove, CanDecode, Rebuffer,
           AfterMove, Did;
      ghost var w := Seen();
      Views();
      ReadView();
      DecodeSpec(app.env, w);
      ghost var m := DecodeMove(app.env, w);
      cnt := DecodeBuffered(m.world.c.audit.decoded);
      io := if rx.error.Some? then IoError else IoSuccess;
      e := if rx.error.Some? then rx.error.value else Error.Closed;
      MakesDid(m, io, cnt, e);
    }

    lemma MakesDid(m: Moved, io: IoResult, cnt: nat, e: Error)
      requires Framed() && io == m.io && AfterMove(Model(), io, e) == m.world.c && platform.View() == m.world.net
      requires !io.IoError? ==> cnt == m.cnt && readPos == m.world.held
      ensures Did(m, io, cnt, e)
    {
      hide Model, Framed, AfterMove;
    }

    /** `client_wrapper_decode`: the whole read buffer, or the error of a decoder that has failed. */
    method DecodeFrom() returns (io: IoResult, cnt: nat, e: Error)
      requires Framed() && WorldValid(Seen()) && error.None? && readPos > 0
      modifies this`error, this`closed, this`currentStore, this`rxStore, this`txStore, this`slots, this`cleanSession,
               app`log, ids, ids.items, mainStore`count, mainStore`pos, mainStore`keepAlive, mainStore.entries,
               connectStore`count, connectStore`pos, connectStore.entries, rx, rx.header, this`audit,
               this`readPos, readBuf
      ensures Did(DecodeMove(app.env, old(Seen())), io, cnt, e)
    {
      hide Model, Framed, DecodeMove, WorldValid, Did;
      ReadView();
      if rx.error.Some? {
        FailsAgain();
        return IoError, 0, rx.error.value;
      }
      io, cnt, e := DecodeAll();
    }

    /** Lets the connection write behind the bytes that are waiting. */
    method FillBuffer() returns (io: IoResult, cnt: nat)
      requires Framed()
      modifies platform`incoming, platform`given, readBuf
      ensures Framed() && Model() == old(Model()) && readPos + cnt <= readBuf.Length
      ensures (platform.View(), io, readBuf[readPos..readPos + cnt])
              == ServeRead(old(platform.View()), readBuf.Length - readPos)
    {
      ghost var before := readBuf[..readPos];
      io, cnt := platform.Read(readBuf, readPos, readBuf.Length - readPos);
      assert readBuf[..readPos] == before;
    }

    method TakeBytes(cnt: nat)
      requires Framed() && readPos + cnt <= readBuf.Length
      modifies this`readPos, this`audit
      ensures Framed() && readPos == old(readPos) + cnt
      ensures Model() == Fetched(old(Model()), readBuf[old(readPos)..old(readPos) + cnt])
    {
      ghost var bytes := readBuf[readPos..readPos + cnt];
      assert readBuf[..readPos + cnt] == readBuf[..readPos] + bytes;
      readPos := readPos + cnt;
      audit := audit.(received := audit.received + bytes);
    }

    method ReadBytes() returns (io: IoResult, cnt: nat, ghost bytes: seq<byte>)
      requires Framed()
      modifies platform`incoming, platform`given, readBuf, this`readPos, this`audit
      ensures Framed() && cnt == |bytes| && readPos == old(readPos) + cnt
      ensures (platform.View(), io, bytes) == ServeRead(old(platform.View()), readBuf.Length - old(readPos))
      ensures Model() == Fetched(old(Model()), bytes)
    {
      hide Model, Framed, ServeRead, Fetched;
      ReadView();
      io, cnt := FillBuffer();
      bytes := readBuf[readPos..readPos + cnt];
      TakeBytes(cnt);
    }

    /** `client_wrapper_read` into the free part of the read buffer. */
    method ReadInto() returns (io: IoResult, cnt: nat, e: Error)
      requires Framed() && WorldValid(Seen()) && error.None?
      modifies platform`incoming, platform`given, readBuf, this`readPos, this`audit
      ensures Did(ReadMove(app.env, old(Seen())), io, cnt, e)
    {
      hide Model, Framed, Inv, Run, ServeRead, OnWire, Sized;
      ghost var w := Seen();
      Views();
      ghost var bytes;
      io, cnt, bytes := ReadBytes();
      WriteView();
      ReadSpec(app.env, w);
      e := ConnectionRead;
    }

    /** `transfer_shift` on the write buffer. */
    method ShiftWrite(n: nat)
      requires Framed() && n <= writePos
      modifies writeBuf, this`writePos
      ensures Framed() && writePos == old(writePos) - n && |old(Model()).writeBuf| == old(writePos)
      ensures Model() == old(Model()).(writeBuf := old(Model()).writeBuf[n..])
    {
      assert writeBuf[..writePos][n..] == writeBuf[n..writePos];
      MoveDown(writeBuf, n, writePos);
      writePos := writePos - n;
    }

    method WriteBytes() returns (io: IoResult, cnt: nat)
      requires Framed()
      modifies platform`outgoing, platform`sent, writeBuf, this`writePos, this`audit
      ensures Framed() && cnt <= |old(Model()).writeBuf|
      ensures (platform.View(), io, cnt) == ServeWrite(old(platform.View()), old(Model()).writeBuf)
      ensures Model() == Written(old(Model()), cnt)
    {
      ghost var c := Model();
      io, cnt := CallWrite();
      hide Model, Framed;
      SetAudit(c.audit.(written := c.audit.written + c.writeBuf[..cnt]));
      ShiftWrite(cnt);
    }

    method CallWrite() returns (io: IoResult, cnt: nat)
      requires Framed()
      modifies platform`outgoing, platform`sent
      ensures Framed() && Model() == old(Model()) && cnt <= writePos == |Model().writeBuf|
      ensures (platform.View(), io, cnt) == ServeWrite(old(platform.View()), Model().writeBuf)
    {
      io, cnt := platform.Write(writeBuf, writePos);
    }

    /** `client_wrapper_write` from the write buffer. */
    method WriteFrom() returns (io: IoResult, cnt: nat, e: Error)
      requires Framed() && WorldValid(Seen()) && error.None?
      modifies platform`outgoing, platform`sent, writeBuf, this`writePos, this`audit
      ensures Did(WriteMove(app.env, old(Seen())), io, cnt, e)
    {
      hide Model, Framed, Inv, Run, ServeWrite, OnWire, Sized;
      ghost var w := Seen();
      Views();
      io, cnt := WriteBytes();
      WriteSpec(app.env, w);
      e := ConnectionWrite;
    }

    method CallEncode() returns (io: IoResult, cnt: nat)
      requires Framed() && TxValid(TxWorldOf(Model())) && UnsentWellFormed(TxWorldOf(Model()).store)
      modifies tx, tx.buffer, txStore`count, txStore`pos, txStore.entries, app`log, writeBuf
      ensures Framed()
      ensures var out := Encode(app.env, TxWorldOf(old(Model())), writeBuf.Length - writePos);
              && Model() == WithTxWorld(old(Model()), out.world) && io == EncodeIo(out) && cnt == |out.bytes|
              && writePos + cnt <= writeBuf.Length && writeBuf[..writePos + cnt] == old(Model()).writeBuf + out.bytes
    {
      hide TxValid, UnsentWellFormed, Encode, EncodeIo;
      assert TxWorldOf(Model()) == tx.World(txStore, app);
      ghost var before := writeBuf[..writePos];
      io, cnt := tx.Encode(txStore, app, writeBuf, writePos, writeBuf.Length - writePos);
      assert writeBuf[..writePos] == writeBuf[..writePos + cnt][..writePos] == before;
    }

    method EncodeBytes() returns (io: IoResult, cnt: nat)
      requires Framed() && TxValid(TxWorldOf(Model())) && UnsentWellFormed(TxWorldOf(Model()).store) && IsStore(txStore)
      modifies tx, tx.buffer, txStore`count, txStore`pos, txStore.entries, app`log, writeBuf, this`writePos, this`audit
      ensures Framed() && |old(Model()).writeBuf| <= old(Model()).writeCap && writePos == old(writePos) + cnt
      ensures (Model(), io, cnt) == Encoded(app.env, old(Model()))
    {
      hide TxValid, UnsentWellFormed, Encode, EncodeIo, Model, Framed, WithTxWorld, TxWorldOf;
      ghost var c := Model();
      Views();
      WriteView();
      ghost var out := Encode(app.env, TxWorldOf(c), writeBuf.Length - writePos);
      io, cnt := CallEncode();
      WithWorldKeeps(c, out.world);
      Appended(cnt, out.bytes);
      SetAudit(c.audit.(encoded := c.audit.encoded + out.bytes));
    }

    /** `transfer_append` on the write buffer. */
    method Appended(cnt: nat, ghost bytes: seq<byte>)
      requires Framed() && cnt == |bytes| && writePos + cnt <= writeBuf.Length
               && writeBuf[..writePos + cnt] == Model().writeBuf + bytes
      modifies this`writePos
      ensures Framed() && Model() == old(Model()).(writeBuf := old(Model()).writeBuf + bytes)
              && writePos == old(writePos) + cnt
    {
      writePos := writePos + cnt;
    }

    /** `client_wrapper_encode` into the free part of the write buffer. */
    method EncodeInto() returns (io: IoResult, cnt: nat, e: Error)
      requires Framed() && WorldValid(Seen()) && error.None? && writePos < writeBuf.Length
      modifies tx, tx.buffer, mainStore`count, mainStore`pos, mainStore.entries, connectStore`count, connectStore`pos,
               connectStore.entries, app`log, writeBuf, this`writePos, this`audit
      ensures Did(EncodeMove(app.env, old(Seen())), io, cnt, e)
    {
      hide Model, Framed, Inv, Run, Encoded, TxValid, TxWorldOf, UnsentWellFormed, OnWire, Sized;
      ghost var w := Seen();
      Views();
      WriteView();
      ReadyToEncode(w.c);
      EncodeSpec(app.env, w);
      io, cnt := EncodeBytes();
      Views();
      e := if tx.error.Some? then tx.error.value else Error.Closed;
    }

    lemma WriteView()
      requires Framed()
      ensures Model().writeBuf == writeBuf[..writePos] && Model().writeCap == writeBuf.Length && IsStore(txStore)
      ensures Model().readCap == readBuf.Length
    {
    }

    // ----- transfers -----

    method CallWrapper(w: Wrapper) returns (io: IoResult, cnt: nat, e: Error)
      requires Framed() && WorldValid(Seen()) && error.None? && Room(w) > 0
      modifies Parts() - {app, platform}, app`log, platform
      ensures Did(Transfers.Move(app.env, old(Seen()), w), io, cnt, e) && start == old(start) && trace == old(trace)
    {
      hide Model, Framed, WorldValid, Did, ReadMove, WriteMove, EncodeMove, DecodeMove;
      Views();
      match w {
        case Reading => io, cnt, e := ReadInto();
        case Decoding => io, cnt, e := DecodeFrom();
        case Encoding => io, cnt, e := EncodeInto();
        case Writing => io, cnt, e := WriteFrom();
      }
    }

    /** Calls the wrapper; a failed call fails the client at once. */
    method Call(w: Wrapper) returns (io: IoResult, cnt: nat)
      requires Valid() && error.None? && Room(w) > 0
      modifies Parts()
      ensures Framed() && Valid() && start == old(start)
      ensures var m := Transfers.Move(app.env, old(Seen()), w);
              && Seen() == m.world && trace == old(trace) + m.ops && io == m.io
              && (error.None? <==> !io.IoError?) && (error.None? ==> cnt == m.cnt)
    {
      hide Model, Framed, Inv, Run, WorldValid, Synced, Transfers.Move;
      ghost var v := Seen();
      ValidSeen();
      SeenInv(v);
      RoomView(w);
      MoveIsWell(app.env, v, w);
      var e;
      io, cnt, e := CallWrapper(w);
      hide MovesWell;
      Conclude(v, Transfers.Move(app.env, v, w), io, cnt, e);
      Views();
    }

    /** Sets the error of a failed call and the failed state. */
    method Conclude(ghost v: World, ghost m: Moved, io: IoResult, ghost cnt: nat, e: Error)
      requires Did(m, io, cnt, e) && Synced(app.env, start, trace, v.c) && Inv(v.c)
      requires WorldValid(m.world) && m.world.c == Run(app.env, v.c, m.ops)
               && (m.io.IoError? <==> m.world.c.error.Some?)
      requires m.world.c.error.Some? ==> m.world.held == 0
      modifies this`closed, this`slots, this`error, this`trace
      ensures Framed() && Valid() && Seen() == m.world && trace == old(trace) + m.ops
    {
      hide Model, Framed, Inv, Run, OnWire, Sized;
      Views();
      if io.IoError? { Fail(e); }
      Views();
      RecordAll(v.c, m.ops);
    }

    /** `transfer_exec`. */
    method Exec(t: TransferEnd) returns (ok: bool)
      requires Valid() && error.None?
      modifies Parts(), t
      ensures Framed() && Valid() && start == old(start) && ok == error.None?
      ensures var x := Transfers.Exec(app.env, old(Seen()), old(t.View()), t.wrapper);
              Seen() == x.world && trace == old(trace) + x.ops && (ok ==> t.View() == x.flow)
    {
      hide Valid, Model, Framed, WorldValid, Synced, Transfers.Move, Seen, Transfers.Exec, Transfers.Room, BlockOf;
      ValidSeen();
      ExecUnfolds(app.env, Seen(), t.View(), t.wrapper);
      RoomView(t.wrapper);
      t.available := t.available && 0 < Room(t.wrapper);
      if !t.available { return true; }
      var io, cnt := Call(t.wrapper);
      t.Took(io, cnt);
      ok := !io.IoError?;
    }

    function Room(w: Wrapper): int
      reads this
    {
      match w
      case Reading => readBuf.Length - readPos
      case Decoding => readPos
      case Encoding => writeBuf.Length - writePos
      case Writing => writePos
    }

    lemma RoomView(w: Wrapper)
      requires Framed() && error.None?
      ensures Room(w) == Transfers.Room(Seen(), w) && Seen().c.error.None?
    {
    }

    /** One pass of the loop. */
    method TransferPass(input: TransferEnd, output: TransferEnd, ghost d: Direction, ghost ops: seq<Op>)
      returns (ok: bool)
      requires Valid() && error.None? && input != output && input.wrapper == Producer(d)
               && output.wrapper == Consumer(d)
      modifies Parts(), input, output
      ensures Framed() && Valid() && start == old(start) && ok == error.None?
      ensures var t := Pass(app.env, Loop(old(Seen()), ops, old(input.View()), old(output.View())), d);
              && Seen() == t.world && trace == old(trace) + t.ops[|ops|..] && ops <= t.ops
              && (ok ==> input.View() == t.input && output.View() == t.output)
    {
      hide Model, Framed, Valid, WorldValid, Synced, Transfers.Exec, Pass;
      ValidSeen();
      ghost var before := trace;
      ghost var s := Loop(Seen(), ops, input.View(), output.View());
      ExecKeepsValid(app.env, s.world, s.input, Producer(d));
      PassParts(app.env, s, d);
      ok := Exec(input);
      ghost var x := Transfers.Exec(app.env, s.world, s.input, Producer(d));
      ValidSeen();
      OpsBehind(before, ops, x.ops, []);
      if !ok { return; }
      ok := Exec(output);
      OpsBehind(before, ops, x.ops, Transfers.Exec(app.env, x.world, s.output, Consumer(d)).ops);
    }

    /** The loop of `client_buffer_transfer`. */
    method TransferLoop(input: TransferEnd, output: TransferEnd, ghost d: Direction) returns (ok: bool)
      requires Valid() && error.None? && input != output && input.wrapper == Producer(d)
               && output.wrapper == Consumer(d)
      modifies Parts(), input, output
      ensures Framed() && Valid() && start == old(start) && ok == error.None?
      ensures var s := RunLoop(app.env, Loop(old(Seen()), [], old(input.View()), old(output.View())), d);
              && Seen() == s.world && trace == old(trace) + s.ops
              && (ok ==> input.View() == s.input && output.View() == s.output)
    {
      hide Model, Framed, Valid, WorldValid, Synced, Pass, RunLoop, Budget;
      ValidSeen();
      ghost var whole := RunLoop(app.env, Loop(Seen(), [], input.View(), output.View()), d);
      ghost var ops: seq<Op> := [];
      ok := true;
      while input.available || output.available
        invariant Framed() && Valid() && error.None? && ok && start == old(start) && trace == old(trace) + ops
        invariant WorldValid(Seen()) && Seen().c.error.None?
        invariant RunLoop(app.env, Loop(Seen(), ops, input.View(), output.View()), d) == whole
        decreases Budget(Seen(), d), if input.available || output.available then 1 else 0
      {
        ghost var s := Loop(Seen(), ops, input.View(), output.View());
        PassUnfolds(app.env, s, d);
        ok := TransferPass(input, output, d, ops);
        ValidSeen();
        ghost var t := Pass(app.env, s, d);
        OpsAgain(old(trace), ops, t.ops);
        ops := t.ops;
        if !ok { return; }
      }
      PassUnfolds(app.env, Loop(Seen(), ops, input.View(), output.View()), d);
    }

    lemma ValidSeen()
      requires Valid()
      ensures Framed() && WorldValid(Seen()) && Seen().c.error == error && Synced(app.env, start, trace, Seen().c)
    {
      hide WorldValid, Synced;
    }

    method TouchCurrent() returns (now: Time)
      requires Framed()
      modifies platform`ticks, mainStore`lastTouch, connectStore`lastTouch
      ensures Framed() && (platform.View(), now) == Tick(old(platform.View()))
      ensures Model() == Touched(old(Model()), now)
    {
      now := platform.Now();
      currentStore.Touch(now);
    }

    /** Something moved: the timer of the current store starts anew. */
    method Touch()
      requires Valid() && error.None?
      modifies platform`ticks, mainStore`lastTouch, connectStore`lastTouch, this`trace
      ensures Framed() && Valid() && error.None?
      ensures (Seen(), trace) == Stamped(app.env, old(Seen()), old(trace))
    {
      hide Model, Framed, Inv, Synced, Run, WorldValid;
      ghost var w := Seen();
      ValidSeen();
      SeenInv(w);
      StampSpec(app.env, w, trace);
      var now := TouchCurrent();
      Record(w.c, Op.Touch(now));
      Views();
    }

    /** The end of the stream: back to the initial state. */
    method EndOfStream()
      requires Valid() && error.None?
      modifies this`error, this`closed, this`currentStore, this`rxStore, this`txStore, this`slots, this`trace,
               tx`closed, app`log, ids`count, mainStore`count, mainStore`pos, mainStore.entries, connectStore`count,
               connectStore`pos, connectStore`lastTouch, connectStore.entries, platform`ticks
      ensures Framed() && Valid() && error.None?
      ensures (Seen(), trace) == Ended(app.env, old(Seen()), old(trace))
    {
      hide Model, Framed, Inv, Synced, Run, WorldValid, Session.SetStateInitial;
      ghost var w := Seen();
      ValidSeen();
      SeenInv(w);
      EndSpec(app.env, w, trace);
      Views();
      SetStateInitial();
      Record(w.c, Eof(Tick(w.net).1));
      Views();
    }

    method TouchWhen(moved: bool)
      requires Valid() && error.None?
      modifies platform`ticks, mainStore`lastTouch, connectStore`lastTouch, this`trace
      ensures Framed() && Valid() && error.None?
      ensures (Seen(), trace) == if moved then Stamped(app.env, old(Seen()), old(trace)) else (old(Seen()), old(trace))
    {
      hide Model, Framed, Valid, WorldValid, Stamped;
      ValidSeen();
      if moved { Touch(); }
    }

    /** The loop has ended without an error: stamp the time, go back to the initial state at the end of a
        stream, and say which end blocks. */
    method AfterLoop(input: TransferEnd, output: TransferEnd, ghost d: Direction) returns (s: Status)
      requires Valid() && error.None? && input.wrapper == Producer(d) && output.wrapper == Consumer(d)
      requires input.blockStatus == BlockOf(input.wrapper) && output.blockStatus == BlockOf(output.wrapper)
      modifies Parts()
      ensures Framed() && Valid() && start == old(start) && WorldValid(old(Seen()))
      ensures var o := Report(app.env, Loop(old(Seen()), old(trace), old(input.View()), old(output.View())), d);
              (Seen(), trace, s) == (o.world, o.ops, o.status)
    {
      hide Model, Framed, Valid, WorldValid, Synced, Stamped, Ended, Report, BlockOf;
      ValidSeen();
      ghost var l := Loop(Seen(), trace, input.View(), output.View());
      ReportUnfolds(app.env, l, d);
      TouchWhen(!input.stale || !output.stale);
      ValidSeen();
      EmptyView(d);
      if input.IsEof() || output.IsEof() {
        EndOfStream();
        s := Ready;
      } else if input.result.IoWouldBlock? && (if input.wrapper.Reading? then readPos else writePos) == 0 {
        s := input.blockStatus;
      } else {
        s := output.blockStatus;
      }
    }

    /** `client_buffer_transfer`. */
    method BufferTransfer(input: TransferEnd, output: TransferEnd, ghost d: Direction) returns (s: Status)
      requires Valid() && input != output && input.wrapper == Producer(d) && output.wrapper == Consumer(d)
      requires input.View() == FRESH && output.View() == FRESH
      requires input.blockStatus == BlockOf(input.wrapper) && output.blockStatus == BlockOf(output.wrapper)
      modifies Parts(), input, output
      ensures Framed() && Valid() && start == old(start)
      ensures var o := Transfers.Transfer(app.env, old(Seen()), d);
              Seen() == o.world && trace == old(trace) + o.ops && s == o.status
    {
      hide Model, Framed, Valid, WorldValid, Synced, RunLoop, Report;
      ValidSeen();
      if error.Some? { return Broken; }
      ghost var l := RunLoop(app.env, Loop(Seen(), [], FRESH, FRESH), d);
      var ok := TransferLoop(input, output, d);
      ValidSeen();
      ReportBehind(app.env, l, d, old(trace));
      if !ok { return Broken; }
      s := AfterLoop(input, output, d);
    }

    lemma EmptyView(d: Direction)
      requires Framed() && error.None?
      ensures (if d.Input? then readPos else writePos) == 0 <==> Empty(Seen(), d)
    {
    }

    // ----- the public loop -----

    method ProcessOutput() returns (s: Status)
      requires Valid()
      modifies Parts()
      ensures Framed() && Valid() && start == old(start)
      ensures var o := Transfers.Transfer(app.env, old(Seen()), Output);
              Seen() == o.world && trace == old(trace) + o.ops && s == o.status
    {
      hide Model, Framed, Valid, Transfers.Transfer;
      ValidSeen();
      var input, output := OutputEnds();
      s := BufferTransfer(input, output, Output);
    }

    method ProcessInput() returns (s: Status)
      requires Valid()
      modifies Parts()
      ensures Framed() && Valid() && start == old(start)
      ensures var o := Transfers.Transfer(app.env, old(Seen()), Input);
              Seen() == o.world && trace == old(trace) + o.ops && s == o.status
    {
      hide Model, Framed, Valid, Transfers.Transfer;
      ValidSeen();
      var input, output := InputEnds();
      s := BufferTransfer(input, output, Input);
    }

    /** The timer of the current store; the clock is asked only while it runs. */
    method CurrentTimeout() returns (active: bool, count: nat, left: Time)
      requires Framed()
      modifies platform`ticks
      ensures Framed() && Model() == old(Model())
      ensures active == StoreOf(Model(), Model().current).TimerRuns()
      ensures if active then
                (platform.View(), (active, count, left))
                == (Tick(old(platform.View())).0,
                  StoreOf(Model(), Model().current).GetTimeout(Tick(old(platform.View())).1))
              else platform.View() == old(platform.View())
    {
      active := currentStore.TimerIsRunning();
      if !active { return false, 0, ZERO_TIME; }
      var now := platform.Now();
      active, count, left := currentStore.GetTimeout(now);
    }

    method ActOnTimeout(active: bool, count: nat, left: Time, ghost now: Time)
      requires Framed() && error.None? && (active, count, left) == StoreOf(Model(), Model().current).GetTimeout(now)
      modifies this`closed, this`slots, this`error, this`audit, mainStore`count, mainStore.entries
      ensures Framed() && Model() == KeepAliveStep(old(Model()), now)
    {
      hide Model, Framed, FailWith, Accept, StoreState.GetTimeout;
      Views();
      if active && left == ZERO_TIME {
        if count > 0 {
          Fail(Timeout);
        } else if slots.pingreq {
          var _ := AcceptEntry(Pingreq, ZERO_VALUE);
        }
      }
    }

    method CheckTimer() returns (active: bool)
      requires Framed() && error.None?
      modifies this`closed, this`slots, this`error, this`audit, platform`ticks, mainStore`count, mainStore.entries
      ensures Framed() && active == StoreOf(old(Model()), old(Model()).current).TimerRuns()
      ensures (platform.View(), Model()) ==
              if active then (Tick(old(platform.View())).0, KeepAliveStep(old(Model()), Tick(old(platform.View())).1))
              else (old(platform.View()), old(Model()))
    {
      hide Model, Framed, KeepAliveStep, StoreState.GetTimeout, StoreState.TimerRuns, StoreOf, Tick;
      ghost var now := Tick(platform.View()).1;
      Views();
      var count, left;
      active, count, left := CurrentTimeout();
      if active { ActOnTimeout(active, count, left, now); }
    }

    /** `client_keep_alive`: fails the client when a response is overdue, queues a PINGREQ when the line was idle. */
    method KeepAliveCheck() returns (ok: bool)
      requires Valid()
      modifies this`closed, this`slots, this`error, this`audit, this`trace, platform`ticks, mainStore`count,
               mainStore.entries
      ensures Framed() && Valid() && ok == error.None?
      ensures var (w, ops) := KeepAliveMove(app.env, old(Seen())); Seen() == w && trace == old(trace) + ops
    {
      hide Model, Framed, Inv, Synced, Run, WorldValid, KeepAliveStep, StoreState.TimerRuns, KeepAliveMove, Step,
           StoreOf, Tick, WellStored;
      ghost var w := Seen();
      ValidSeen();
      SeenInv(w);
      Views();
      KeepAliveSpec(app.env, w);
      if error.Some? { return false; }
      var active := CheckTimer();
      if active { Record(w.c, KeepAlive(Tick(w.net).1)); }
      Views();
      ok := error.None?;
    }

    predicate HasCurrent()
      reads this, currentStore
    {
      currentStore.pos < currentStore.count
    }

    lemma CurrentView()
      requires Framed()
      ensures HasCurrent() == HasUnsent(Model()) && Model().closed == closed && |Model().writeBuf| == writePos
      ensures mainStore.Model() == Model().main
    {
    }

    /** One round: output, then input unless the output failed or ended. `again` says that the input left
        something to send on a drained connection. */
    method Cycle() returns (again: bool, r: RunResult)
      requires Valid() && error.None?
      modifies Parts()
      ensures Framed() && Valid() && start == old(start) && (again ==> error.None?)
      ensures var c := CycleOf(app.env, old(Seen()));
              Seen() == c.world && trace == old(trace) + c.ops && again == c.again && (!again ==> r == c.result)
    {
      hide Model, Framed, Valid, WorldValid, Synced, Transfers.Transfer, HasUnsent;
      ValidSeen();
      ghost var before, w := trace, Seen();
      OutputMeans(app.env, w);
      r := RunResult(None, false, false, false, false);
      var s := ProcessOutput();
      ValidSeen();
      if s.Ready? { return false, RunResult(None, true, false, true, false); }
      if s.Broken? { return false, RunResult(error, false, false, false, false); }
      var connWr := s.BlockConn?;
      CurrentView();
      var hadCurrent := HasCurrent();
      InputMeans(app.env, Seen());
      ghost var out, mid := Transfers.Transfer(app.env, w, Output), Seen();
      s := ProcessInput();
      ValidSeen();
      OpsTogether(before, out.ops, Transfers.Transfer(app.env, mid, Input).ops);
      if s.Ready? { return false, RunResult(None, true, true, false, false); }
      if s.Broken? { return false, RunResult(error, false, false, false, false); }
      CurrentView();
      again := !connWr && !hadCurrent && HasCurrent();
      r := RunResult(None, false, s.BlockConn?, connWr, mainStore.count < mainStore.entries.Length);
    }

    /** The loop of `lmqtt_client_run_once`. */
    method RunLoops() returns (r: RunResult)
      requires Valid() && error.None?
      modifies Parts()
      ensures Framed() && Valid() && start == old(start)
      ensures var ran := RunFrom(app.env, old(Seen()));
              Seen() == ran.world && trace == old(trace) + ran.ops && r == ran.result
    {
      hide Model, Framed, Valid, WorldValid, Synced, CycleOf, RunFrom, Budget;
      ValidSeen();
      ghost var whole := RunFrom(app.env, Seen());
      ghost var ops: seq<Op> := [];
      var again := true;
      r := RunResult(None, false, false, false, false);
      while again
        invariant Framed() && Valid() && start == old(start)
        invariant again ==> trace == old(trace) + ops && error.None? && WorldValid(Seen()) && Seen().c.error.None?
        invariant again ==> whole == Prefixed(ops, RunFrom(app.env, Seen()))
        invariant old(trace) <= trace && (!again ==> whole == Ran(Seen(), trace[|old(trace)|..], r))
        decreases again, if again then Budget(Seen(), Input) else 0
      {
        ghost var w := Seen();
        CycleShrinks(app.env, w);
        RunUnfolds(app.env, w);
        ghost var c := CycleOf(app.env, w);
        again, r := Cycle();
        ValidSeen();
        if again { CyclesAddUp(app.env, ops, c); }
        EndOfTrace(old(trace), ops, c.ops);
        ops := ops + c.ops;
      }
    }

    /** `lmqtt_client_run_once`: exactly the specified steps, world and report. */
    method RunSpecified() returns (r: RunResult)
      requires Valid()
      modifies Parts()
      ensures Framed() && Valid() && start == old(start)
      ensures var ran := Transfers.RunOnce(app.env, old(Seen()));
              Seen() == ran.world && trace == old(trace) + ran.ops && r == ran.result
    {
      hide Model, Framed, Valid, WorldValid, Synced, KeepAliveMove, RunFrom;
      ValidSeen();
      ghost var before, w := trace, Seen();
      KeepAliveMeans(app.env, w);
      ghost var (v, ops) := KeepAliveMove(app.env, w);
      var ok := KeepAliveCheck();
      ValidSeen();
      if !ok { return RunResult(error, false, false, false, false); }
      OpsTogether(before, ops, RunFrom(app.env, v).ops);
      r := RunLoops();
    }

    /** `lmqtt_client_run_once`. Whatever the client and the connection do, it ends, and does exactly what is
        specified. It reports a blocked write exactly when bytes are left or the write buffer was full to
        begin with; and unless it reports an error, the end of the stream or a blocked write, the client is
        open, the current store has nothing unsent and the write buffer is empty. */
    method RunOnce() returns (r: RunResult)
      requires Valid()
      modifies Parts()
      ensures Framed() && Valid() && start == old(start)
      ensures var ran := Transfers.RunOnce(app.env, old(Seen()));
              Seen() == ran.world && trace == old(trace) + ran.ops && r == ran.result
      ensures r.error == error && (r.eof ==> closed && error.None?)
      ensures r.error.None? && !r.eof ==>
                && (r.connWr <==> writePos > 0 || old(writePos == writeBuf.Length))
                && (!r.connWr ==> !closed && !HasCurrent() && writePos == 0)
                && (r.queueable <==> mainStore.count < mainStore.entries.Length)
    {
      hide Model, Framed, Valid, WorldValid, Synced, Transfers.RunOnce, HasUnsent;
      ValidSeen();
      ghost var w := Seen();
      Views();
      WriteView();
      RunOnceMeans(app.env, w);
      r := RunSpecified();
      ValidSeen();
      Views();
      CurrentView();
    }

    lemma ValidMeans()
      requires Valid()
      ensures Framed() && Synced(app.env, start, trace, Model()) && Inv(Model()) && WellStored(Model())
      ensures (Model().rx.error.None? ==> Sized(Model().rx)) && OnWire(Model(), platform.View())
    {
      hide Model, Framed, Sized, Inv, Synced, OnWire;
      SeenInv(Seen());
    }

    lemma MakesValid()
      requires Framed() && Synced(app.env, start, trace, Model())
      requires (Model().rx.error.None? ==> Sized(Model().rx)) && OnWire(Model(), platform.View())
      ensures Valid()
    {
      hide Model, Framed, Sized, OnWire, Inv;
      SyncedInv(app.env, start, trace, Model());
      Views();
      ReadView();
      WriteView();
    }

    lemma Views()
      requires Framed()
      ensures StoreOf(Model(), Main) == mainStore.Model() && StoreOf(Model(), Conn) == connectStore.Model()
      ensures mainStore.Valid() && connectStore.Valid()
      ensures Model().closed == closed && Model().cleanSession == cleanSession && Model().error == error
              && Model().slots == slots
      ensures Model().rx == rx.Model() && rx.Model().error == rx.error && Model().tx.error == tx.error
              && Model().audit == audit && Model().log == app.log
      ensures readPos <= readBuf.Length && writePos <= writeBuf.Length
      ensures WhichOf(mainStore).Main? && WhichOf(connectStore).Conn?
    {
    }
  }

  /** The zeroed client with its buffers attached. */
  function Zero(storeCap: nat, idCap: nat, readCap: nat, writeCap: nat): Session.Client
  {
    Session.Client(
      false, false, None, StoreState([], 0, storeCap, 0, 0, 0, ZERO_TIME), StoreState([], 0, 1, 0, 0, 0, ZERO_TIME),
      Main, Main, Main, RESET_RX, RESET_TX, IdSet([], idCap), multiset{}, [], readCap, [], writeCap, NO_SLOTS, [],
      Audit(multiset{}, multiset{}, multiset{}, false, 0, [], [], [], []))
  }

  lemma StartsInitial(storeCap: nat, idCap: nat, readCap: nat, writeCap: nat, now: Time)
    ensures Session.SetStateInitial(Zero(storeCap, idCap, readCap, writeCap), now)
            == Initial(storeCap, idCap, readCap, writeCap, now)
    ensures var c := Initial(storeCap, idCap, readCap, writeCap, now);
            c.rx == RESET_RX && c.audit.written == [] && c.audit.received == []
  {
  }

  lemma StartsValid(env: Env, storeCap: nat, idCap: nat, readCap: nat, writeCap: nat, now: Time, net: Net)
    ensures var c := Initial(storeCap, idCap, readCap, writeCap, now);
            Synced(env, c, [], c) && Sized(c.rx) && OnWire(c, net)
  {
    StartsInitial(storeCap, idCap, readCap, writeCap, now);
    InitialInv(storeCap, idCap, readCap, writeCap, now);
  }

  lemma FlushOne(c: Session.Client, w: Which)
    requires var s := StoreOf(c, w); s.Valid() && s.entries != []
    ensures var s := StoreOf(c, w);
            var e := s.entries[0];
            var shifted := WithStore(c, w, s.PopAt(0));
            Flush(c, w) == Flush(if e.value.body.NoBody? then shifted else LogOf(shifted, Completed(e.kind, e.value,
              !c.closed)), w)
  {
    var s := StoreOf(c, w);
    assert s.PopAt(0).entries == s.entries[1..];
    assert FlushLog(s.entries, !c.closed, c.log)
        == FlushLog(s.entries[1..], !c.closed,
                    if s.entries[0].value.body.NoBody? then c.log
                    else c.log + [Completed(s.entries[0].kind, s.entries[0].value, !c.closed)]);
    hide FlushLog;
  }

  lemma FlushNothing(c: Session.Client, w: Which)
    requires var s := StoreOf(c, w); s.Valid() && s.entries == []
    ensures Flush(c, w) == c
  {
  }

  function ConnectQueued(c: Session.Client, s: StoreState, ref: nat): Session.Client
  {
    c.(conn := s, audit := c.audit.(accepted := c.audit.accepted + multiset{ref}))
  }

  /** A request leaves the decoder and the traffic alone, or starts them anew. */
  lemma RequestWire(c: Session.Client, op: Op, net: Net)
    requires IsRequest(op) && (c.rx.error.None? ==> Sized(c.rx)) && OnWire(c, net)
    ensures var d := Request(c, op).0; (d.rx.error.None? ==> Sized(d.rx)) && OnWire(d, net)
  {
    hide ValidConnect, ValidPublish, ValidSubscribe, Sized;
    if op.DoConnect? {
      ConnectWire(c, op.connect, op.ref, net);
    } else {
      forall c, e ensures Accept(c, e).0.rx == c.rx && Accept(c, e).0.audit.written == c.audit.written
                          && Accept(c, e).0.audit.received == c.audit.received {
        hide Sized, EndsWith;
      }
      hide Accept, EndsWith;
    }
  }

  lemma ConnectWire(c: Session.Client, q: ConnectRequest, ref: nat, net: Net)
    requires (c.rx.error.None? ==> Sized(c.rx)) && OnWire(c, net)
    ensures var d := ConnectRequested(c, q, ref).0; (d.rx.error.None? ==> Sized(d.rx)) && OnWire(d, net)
  {
    hide ValidConnect;
  }

  lemma CallKeepsAudit(env: Env, c: Session.Client)
    requires c.main.Valid()
    ensures var d := Session.CallSlot(env, c).0; d.audit == c.audit && d.rx == c.rx
  {
    CallIgnoresBuffer(env, c, c.readBuf, c.audit.decoded);
    CallKeepsRx(env, c);
  }

  lemma InitialStateWire(c: Session.Client, now: Time)
    requires c.main.Valid()
    ensures var d := Session.SetStateInitial(c, now); d.rx == c.rx && d.audit == c.audit
  {
    hide KeepSession, FlushLog;
  }

  lemma FinalizeWire(env: Env, c: Session.Client)
    requires c.main.Valid()
    ensures var d := Session.Finalize(env, c);
            d.rx == c.rx && d.audit.written == c.audit.written && d.audit.received == c.audit.received
              && d.error == Some(Error.Closed)
  {
    hide KeepSession, FlushLog, Session.CallSlot;
    CallKeepsAudit(env, FailWith(c, Error.Closed));
    ClosedCallKeepsError(env, FailWith(c, Error.Closed));
  }

  lemma ClosedCallKeepsError(env: Env, c: Session.Client)
    requires c.main.Valid() && c.closed
    ensures Session.CallSlot(env, c).0.error == c.error
  {
  }

  lemma WithWorldKeeps(c: Session.Client, w: TxWorld)
    ensures var d := WithTxWorld(c, w); d.writeBuf == c.writeBuf && d.audit == c.audit
  {
  }

  /** Drops the first `n` of `len` bytes. */
  method MoveDown(buf: array<byte>, n: nat, len: nat)
    requires n <= len <= buf.Length
    modifies buf
    ensures buf[..len - n] == old(buf[n..len])
  {
    ghost var rest := buf[n..len];
    forall k | 0 <= k < len - n { buf[k] := buf[n + k]; }
    assert buf[..len - n] == rest;
  }

  /** One end of a transfer, as the code keeps it. */
  class TransferEnd {
    const wrapper: Wrapper
    const blockStatus: Status
    var available: bool
    var stale: bool
    var result: IoResult
    var count: int

    function View(): Flow
      reads this
    {
      Flow(available, stale, result, count)
    }

    constructor (wrapper: Wrapper)
      ensures this.wrapper == wrapper && blockStatus == BlockOf(wrapper) && View() == FRESH
    {
      this.wrapper, blockStatus := wrapper, BlockOf(wrapper);
      available, stale, result, count := true, true, IoSuccess, -1;
    }

    method Took(io: IoResult, cnt: nat)
      modifies this
      ensures var more := io.IoSuccess? && cnt > 0; View() == Flow(more, old(stale) && !more, io, cnt)
    {
      result, count, available := io, cnt, io.IoSuccess? && cnt > 0;
      if available { stale := false; }
    }

    predicate IsEof()
      reads this
    {
      result.IoSuccess? && count == 0
    }
  }

  method OutputEnds() returns (input: TransferEnd, output: TransferEnd)
    ensures fresh(input) && fresh(output) && input != output && input.View() == FRESH && output.View() == FRESH
    ensures input.wrapper == Encoding && input.blockStatus == BlockData
    ensures output.wrapper == Writing && output.blockStatus == BlockConn
  {
    input := new TransferEnd(Encoding);
    output := new TransferEnd(Writing);
  }

  method InputEnds() returns (input: TransferEnd, output: TransferEnd)
    ensures fresh(input) && fresh(output) && input != output && input.View() == FRESH && output.View() == FRESH
    ensures input.wrapper == Reading && input.blockStatus == BlockConn
    ensures output.wrapper == Decoding && output.blockStatus == BlockData
  {
    input := new TransferEnd(Reading);
    output := new TransferEnd(Decoding);
  }

  // ----- what the methods above need of the specification -----

  /** A failed move fails the client. */
  function AfterMove(c: Session.Client, io: IoResult, e: Error): Session.Client
  {
    if io.IoError? then FailWith(c, e) else c
  }

  lemma SameOnWire(c: Session.Client, d: Session.Client, net: Net)
    requires d.audit.written == c.audit.written && d.audit.received == c.audit.received
    ensures OnWire(c, net) ==> OnWire(d, net) && OnWire(d, Tick(net).0)
  {
  }

  lemma SyncedInv(env: Env, start: Session.Client, trace: seq<Op>, c: Session.Client)
    requires Synced(env, start, trace, c)
    ensures Inv(c)
  {
    hide Inv, Run;
    RunKeepsInv(env, start, trace);
  }

  lemma SeenInv(w: World)
    requires WorldValid(w)
    ensures Inv(w.c) && WellStored(w.c) && w.c.main.Valid() && w.c.conn.Valid()
  {
    hide Inv, WellStored;
    InvCommon(w.c);
  }

  /** The client after a round on these bytes, and how many of them it took. */
  function RoundDone(env: Env, c: Session.Client, bytes: seq<byte>): Session.Client
    requires CanDecode(c) && Sized(c.rx) && bytes != []
  {
    RoundIsBytes(env, c, bytes);
    AfterRound(env, c, Rounds.Round(env, LinkOf(c), bytes).0)
  }

  function RoundSize(env: Env, c: Session.Client, bytes: seq<byte>): nat
    requires CanDecode(c) && Sized(c.rx) && bytes != []
  {
    RoundIsBytes(env, c, bytes);
    Rounds.Round(env, LinkOf(c), bytes).1
  }

  lemma RoundKeepsModel(env: Env, c: Session.Client, out: RxOut, bytes: seq<byte>)
    requires CanDecode(c) && Sized(c.rx) && bytes != [] && LinkOf(c).store.Valid() && LinkOf(c).rx.error.None?
    requires Sized(LinkOf(c).rx) && Rounds.Round(env, LinkOf(c), bytes).0 == out && out.link.store.Valid()
    ensures c.main.Valid() && c.conn.Valid()
    ensures RoundSize(env, c, bytes) == Rounds.Round(env, LinkOf(c), bytes).1
    ensures var next := WithLink(c, out.link);
            && next.main.Valid()
            && RoundDone(env, c, bytes) == (if out.call then Session.FinishPacket(env, next) else next)
            && (out.call ==> next.rx.error.None? && Discarded(next) == next)
  {
    hide Inv, Session.FinishPacket, Sized, Rounds.Round;
    DecodingFacts(c);
    var used := RoundPasses(env, LinkOf(c), bytes);
  }

  lemma RoundThenRest(env: Env, c: Session.Client, bytes: seq<byte>, n: nat)
    requires CanDecode(c) && Sized(c.rx) && bytes != [] && 0 < n <= |bytes| && n == RoundSize(env, c, bytes)
    ensures var d := RoundDone(env, c, bytes);
            && Discarded(d).rx.error == d.rx.error
            && (d.rx.error.Some? ==> DecodeCall(env, c, bytes) == d)
            && (d.rx.error.None? ==>
                  && Discarded(d) == d && CanDecode(d) && Sized(d.rx)
                  && DecodeCall(env, c, bytes) == DecodeCall(env, d, bytes[n..]))
  {
    hide Inv, Sized, Rounds.Round, AfterRound;
    RoundIsBytes(env, c, bytes);
  }

  lemma CallOnNothing(env: Env, c: Session.Client)
    requires CanDecode(c) && Sized(c.rx)
    ensures DecodeCall(env, c, []) == c && Discarded(c) == c
  {
    hide Inv, Sized;
  }

  /** The whole buffer is taken, or forgotten. */
  function Emptied(c: Session.Client): Session.Client { c.(readBuf := []) }

  function WithDecoded(c: Session.Client, decoded: seq<byte>): Session.Client
  {
    c.(audit := c.audit.(decoded := decoded))
  }

  lemma EmptiedIsRebuffered(c: Session.Client, decoded: seq<byte>)
    ensures WithDecoded(Emptied(c), decoded) == Rebuffer(c, [], decoded) && Rebuffer(c, [], decoded).rx == c.rx
  {
  }

  lemma DecodableRx(c: Session.Client)
    requires CanDecode(c)
    ensures c.rx.error.None? && c.error.None?
  {
    hide Inv;
  }

  lemma CallKeepsBuffer(env: Env, c: Session.Client, bytes: seq<byte>)
    requires CanDecode(c) && Sized(c.rx)
    ensures DecodeCall(env, c, bytes).readBuf == c.readBuf
  {
    hide Inv, Sized, DecodeCall, DecodeBytes;
    CallIsBytewise(env, c, bytes);
    BufferKept(env, c, bytes);
  }

  lemma FailedErrorIsSet(c: Session.Client, e: Error)
    ensures FailWith(c, e).error == Some(e)
  {
  }

  lemma Forgotten(c: Session.Client)
    requires c.readBuf == []
    ensures c.(readBuf := []) == c
  {
  }

  /** What the single steps make of a buffer, in terms of one call. */
  lemma DecodeSpec(env: Env, w: World)
    requires WorldValid(w) && w.c.error.None? && w.c.rx.error.None?
    ensures CanDecode(w.c) && Sized(w.c.rx)
    ensures var d := DecodeCall(env, w.c, w.c.readBuf);
            var m := DecodeMove(env, w);
            && m.cnt == w.held == |w.c.readBuf| && m.world.net == w.net
            && d.readBuf == w.c.readBuf && d.audit.decoded == w.c.audit.decoded
            && (m.io.IoError? <==> d.rx.error.Some?) && !m.io.IoWouldBlock? && m.world.held == 0
            && m.world.c == AfterMove(Rebuffer(d, [], m.world.c.audit.decoded), m.io,
                                      if d.rx.error.Some? then d.rx.error.value else Error.Closed)
  {
    hide Inv, Run, FailWith, DecodeBytes, OnWire;
    StepsAreBytes(env, w.c, w.held);
    CallIsBytewise(env, w.c, w.c.readBuf);
    assert w.c.readBuf[..w.held] == w.c.readBuf && w.c.readBuf[w.held..] == [];
    BytesFrame(env, w.c, w.c.readBuf);
    var c := Run(env, w.c, Repeat(DecodeOne, w.held));
    var d := DecodeBytes(env, w.c, w.c.readBuf);
    BufferKept(env, w.c, w.c.readBuf);
    if d.rx.error.Some? { Failing(Rebuffer(d, [], c.audit.decoded), d.rx.error.value); }
  }

  lemma {:induction false} BufferKept(env: Env, c: Session.Client, bytes: seq<byte>)
    requires CanDecode(c)
    ensures var d := DecodeBytes(env, c, bytes); d.readBuf == c.readBuf && d.audit.decoded == c.audit.decoded
    decreases |bytes|
  {
    hide Inv, DecodeByte;
    if bytes != [] {
      ByteStaysDecodable(env, c, bytes[0]);
      DecodeByteBuffers(env, c, bytes[0]);
      var next := DecodeByte(env, c, bytes[0]);
      if next.rx.error.None? { BufferKept(env, next, bytes[1..]); }
    }
  }

  lemma ReadSpec(env: Env, w: World)
    requires WorldValid(w) && w.c.error.None?
    ensures var (net, io, bytes) := ServeRead(w.net, w.c.readCap - w.held);
            var m := ReadMove(env, w);
            && m.world.c == AfterMove(Fetched(w.c, bytes), io, ConnectionRead) && m.io == io && m.cnt == |bytes|
            && m.world.net == net && (!io.IoError? ==> m.world.held == w.held + |bytes|)
  {
    hide Inv, WellStored, Step, Run, ServeRead, FailWith, OnWire;
    InvCommon(w.c);
    var (net, io, bytes) := ServeRead(w.net, w.c.readCap - w.held);
    TwoSteps(env, w.c, Read(bytes), Stopped(io, ConnectionRead));
    ReadStep(env, w.c, bytes);
    FailStep(env, Fetched(w.c, bytes), ConnectionRead);
  }

  lemma WriteSpec(env: Env, w: World)
    requires WorldValid(w) && w.c.error.None?
    ensures var (net, io, n) := ServeWrite(w.net, w.c.writeBuf);
            var m := WriteMove(env, w);
            && m.world.c == AfterMove(Written(w.c, n), io, ConnectionWrite) && m.io == io && m.cnt == n
            && m.world.net == net && (!io.IoError? ==> m.world.held == w.held)
  {
    hide Inv, WellStored, Step, Run, ServeWrite, FailWith, OnWire;
    InvCommon(w.c);
    var (net, io, n) := ServeWrite(w.net, w.c.writeBuf);
    TwoSteps(env, w.c, Write(n), Stopped(io, ConnectionWrite));
    WriteStep(env, w.c, n);
    FailStep(env, Written(w.c, n), ConnectionWrite);
  }

  lemma EncodeSpec(env: Env, w: World)
    requires WorldValid(w) && w.c.error.None? && |w.c.writeBuf| < w.c.writeCap
    ensures UnsentWellFormed(TxWorldOf(w.c).store)
    ensures var (d, io, n) := Encoded(env, w.c);
            var m := EncodeMove(env, w);
            && (io.IoError? <==> d.tx.error.Some?) && m.io == io && m.cnt == n && m.world.net == w.net
            && m.world.c == AfterMove(d, io, if d.tx.error.Some? then d.tx.error.value else Error.Closed)
            && (!io.IoError? ==> m.world.held == w.held)
  {
    hide Inv, WellStored, Step, Run, FailWith, Encoded, TxWorldOf, UnsentWellFormed, OnWire;
    EncodeSteps(env, w.c);
    EncodeFrame(env, w.c);
    RunOne(env, w.c, EncodeMore);
  }

  lemma PassUnfolds(env: Env, s: Loop, d: Direction)
    requires WorldValid(s.world) && s.world.c.error.None?
    ensures var t := Pass(env, s, d);
            && WorldValid(t.world)
            && RunLoop(env, s, d) == (if !s.input.available && !s.output.available then s
                                      else if t.world.c.error.Some? then t else RunLoop(env, t, d))
            && (t.world.c.error.None? ==>
                  && Budget(t.world, d) <= Budget(s.world, d)
                  && (t.input.available || t.output.available ==> Budget(t.world, d) < Budget(s.world, d)))
  {
    hide Pass, Inv, Budget;
    PassKeepsValid(env, s, d);
  }

  lemma OpsBehind(before: seq<Op>, ops: seq<Op>, a: seq<Op>, b: seq<Op>)
    ensures ops <= ops + a + b && before + a + b == before + (ops + a + b)[|ops|..]
    ensures ops <= ops + a && before + a == before + (ops + a)[|ops|..]
  {
    assert (ops + a + b)[|ops|..] == a + b && (ops + a)[|ops|..] == a;
  }

  lemma OpsAgain(before: seq<Op>, ops: seq<Op>, all: seq<Op>)
    requires ops <= all
    ensures before + ops + all[|ops|..] == before + all
  {
    assert ops + all[|ops|..] == all;
  }

  function Touched(c: Session.Client, now: Time): Session.Client
  {
    WithStore(c, c.current, StoreOf(c, c.current).(lastTouch := now))
  }

  lemma StampSpec(env: Env, w: World, ops: seq<Op>)
    requires WorldValid(w) && w.c.error.None?
    ensures WellStored(w.c)
    ensures var (net, now) := Tick(w.net);
            var (v, all) := Stamped(env, w, ops);
            && v == World(Touched(w.c, now), net, w.held) && all == ops + [Op.Touch(now)] && WorldValid(v)
            && Step(env, w.c, Op.Touch(now)) == Touched(w.c, now)
  {
    hide Inv, WellStored, WorldValid;
    SeenInv(w);
    RunOne(env, w.c, Op.Touch(Tick(w.net).1));
    StampedKeepsValid(env, w, ops);
  }

  lemma EndSpec(env: Env, w: World, ops: seq<Op>)
    requires WorldValid(w) && w.c.error.None?
    ensures WellStored(w.c) && w.c.main.Valid()
    ensures var (net, now) := Tick(w.net);
            var (v, all) := Ended(env, w, ops);
            && v == World(Session.SetStateInitial(w.c, now), net, w.held) && all == ops + [Eof(now)] && WorldValid(v)
            && v.c.error.None? && v.c.rx == w.c.rx && Step(env, w.c, Eof(now)) == v.c
  {
    hide Inv, WellStored, WorldValid, Session.SetStateInitial;
    SeenInv(w);
    RunOne(env, w.c, Eof(Tick(w.net).1));
    EndedKeepsValid(env, w, ops);
    EndedKeepsRx(env, w);
  }

  lemma EndedKeepsRx(env: Env, w: World)
    requires w.c.main.Valid()
    ensures Session.SetStateInitial(w.c, Tick(w.net).1).rx == w.c.rx
  {
    hide KeepSession, FlushLog;
  }

  lemma ReportUnfolds(env: Env, s: Loop, d: Direction)
    requires WorldValid(s.world) && s.world.c.error.None?
    ensures var moved := !s.input.stale || !s.output.stale;
            var (w, ops) := if moved then Stamped(env, s.world, s.ops) else (s.world, s.ops);
            var o := Report(env, s, d);
            && WorldValid(w)
            && if s.input.IsEof() || s.output.IsEof() then (o.world, o.ops) == Ended(env, w, ops) && o.status.Ready?
               else (o.world, o.ops) == (w, ops)
                    && o.status
                       == BlockOf(if s.input.result.IoWouldBlock? && Empty(w, d) then Producer(d) else Consumer(d))
  {
    hide WorldValid, Stamped, Ended;
    StampedKeepsValid(env, s.world, s.ops);
  }

  lemma RequestIsConnect(c: Session.Client, q: ConnectRequest, ref: nat)
    ensures Request(c, DoConnect(q, ref)) == ConnectRequested(c, q, ref)
    ensures !c.slots.connect ==> ConnectRequested(c, q, ref) == (c, false)
  {
  }

  lemma ConnectedParts(c: Session.Client)
    requires c.main.Valid()
    ensures var open := Session.SetCurrentStore(c.(error := None, closed := false), Main);
            var cleaned := Session.CleanupStores(open, !open.cleanSession);
            var unmarked := cleaned.(main := cleaned.main.Unmark());
            && open.main.Valid() && open.cleanSession == c.cleanSession
            && Session.SetStateConnected(c)
               == unmarked.(slots := Slots(unmarked.slots.connect, true, true, true, true, true))
  {
    hide KeepSession, FlushLog;
  }

  lemma StepResets(env: Env, c: Session.Client, now: Time)
    requires WellStored(c)
    ensures c.main.Valid()
    ensures Step(env, c, DoReset(now))
            == if c.closed && c.error != Some(Error.Closed) then Session.SetStateInitial(c, now) else c
  {
    hide WellFormed, Session.SetStateInitial;
  }

  lemma StepFinalizes(env: Env, c: Session.Client)
    requires WellStored(c)
    ensures Step(env, c, DoFinalize) == Session.Finalize(env, c)
  {
    hide WellStored, Session.Finalize;
  }

  lemma PassParts(env: Env, s: Loop, d: Direction)
    requires WorldValid(s.world) && s.world.c.error.None?
    ensures var x := Transfers.Exec(env, s.world, s.input, Producer(d));
            && WorldValid(x.world)
            && if x.world.c.error.Some? then Pass(env, s, d) == Loop(x.world, s.ops + x.ops, x.flow, s.output)
               else
                 var y := Transfers.Exec(env, x.world, s.output, Consumer(d));
                 Pass(env, s, d) == Loop(y.world, s.ops + x.ops + y.ops, x.flow, y.flow)
  {
    hide Transfers.Exec, WorldValid;
    ExecKeepsValid(env, s.world, s.input, Producer(d));
  }

  lemma ExecUnfolds(env: Env, w: World, f: Flow, e: Wrapper)
    requires WorldValid(w) && w.c.error.None?
    ensures var x := Transfers.Exec(env, w, f, e);
            if !f.available || Transfers.Room(w, e) <= 0 then x == Executed(w, [], f.(available := false))
            else
              var m := Transfers.Move(env, w, e);
              var more := m.io.IoSuccess? && m.cnt > 0;
              x == Executed(m.world, m.ops, Flow(more, f.stale && !more, m.io, m.cnt))
  {
    hide Transfers.Move, WorldValid;
  }

  lemma ReportBehind(env: Env, s: Loop, d: Direction, before: seq<Op>)
    requires WorldValid(s.world)
    ensures var o, all := Report(env, s, d), Report(env, s.(ops := before + s.ops), d);
            && all.world == o.world && all.status == o.status && all.ops == before + o.ops
            && (s.world.c.error.Some? ==> o.world == s.world && o.ops == s.ops && o.status.Broken?)
  {
    hide WorldValid, Stamped, Ended;
    if s.world.c.error.None? {
      StampedKeepsValid(env, s.world, s.ops);
      StampedFrom(env, s.world, before, s.ops);
      var (w, ops) := if !s.input.stale || !s.output.stale then Stamped(env, s.world, s.ops) else (s.world, s.ops);
      EndedFrom(env, w, before, ops);
    }
  }

  lemma StampedFrom(env: Env, w: World, before: seq<Op>, ops: seq<Op>)
    requires WorldValid(w)
    ensures var (v, all) := Stamped(env, w, before + ops);
            (v, all) == (Stamped(env, w, ops).0, before + Stamped(env, w, ops).1)
  {
    hide WorldValid, Run;
    assert before + ops + [Op.Touch(Tick(w.net).1)] == before + (ops + [Op.Touch(Tick(w.net).1)]);
  }

  lemma EndedFrom(env: Env, w: World, before: seq<Op>, ops: seq<Op>)
    requires WorldValid(w)
    ensures var (v, all) := Ended(env, w, before + ops);
            (v, all) == (Ended(env, w, ops).0, before + Ended(env, w, ops).1)
  {
    hide WorldValid, Run;
    assert before + ops + [Eof(Tick(w.net).1)] == before + (ops + [Eof(Tick(w.net).1)]);
  }

  lemma KeepAliveSpec(env: Env, w: World)
    requires WorldValid(w)
    ensures WellStored(w.c)
    ensures var (v, ops) := KeepAliveMove(env, w);
            var (net, now) := Tick(w.net);
            && WorldValid(v)
            && if w.c.error.Some? || !StoreOf(w.c, w.c.current).TimerRuns() then v == w && ops == []
               else
                 && ops == [KeepAlive(now)] && v == Settled(World(KeepAliveStep(w.c, now), net, w.held))
                 && Step(env, w.c, KeepAlive(now)) == KeepAliveStep(w.c, now)
  {
    hide Inv, WellStored, WorldValid, KeepAliveStep, StoreState.TimerRuns;
    SeenInv(w);
    KeepAliveMeans(env, w);
    RunOne(env, w.c, KeepAlive(Tick(w.net).1));
  }

  lemma RunUnfolds(env: Env, w: World)
    requires WorldValid(w) && w.c.error.None?
    ensures var c := CycleOf(env, w);
            WorldValid(c.world) && (c.again ==> c.world.c.error.None?) &&
            RunFrom(env, w) == if c.again then Prefixed(c.ops, RunFrom(env, c.world)) else Ran(c.world, c.ops, c.result)
  {
    hide CycleOf, WorldValid, Budget;
    CycleShrinks(env, w);
  }

  lemma CyclesAddUp(env: Env, ops: seq<Op>, c: CycleDone)
    requires WorldValid(c.world) && c.world.c.error.None?
    ensures Prefixed(ops, Prefixed(c.ops, RunFrom(env, c.world))) == Prefixed(ops + c.ops, RunFrom(env, c.world))
  {
    hide RunFrom, WorldValid;
    var rest := RunFrom(env, c.world).ops;
    assert ops + (c.ops + rest) == ops + c.ops + rest;
  }

  lemma OpsTogether(before: seq<Op>, a: seq<Op>, b: seq<Op>)
    ensures before + a + b == before + (a + b)
  {
  }

  lemma EndOfTrace(before: seq<Op>, ops: seq<Op>, more: seq<Op>)
    ensures before + ops + more == before + (ops + more) && (before + ops + more)[|before|..] == ops + more
    ensures before <= before + ops + more
  {
  }

  function ReconnectAudit(c: Session.Client): Audit
  {
    var dropped := !c.rx.slot.body.NoBody? && !c.audit.slotCalled;
    c.audit.(lost := if dropped then c.audit.lost + multiset{c.rx.slot.ref} else c.audit.lost,
             slotCalled := false, received := [], decoded := [], encoded := [], written := [])
  }

  lemma ConnectingParts(c: Session.Client)
    ensures Session.SetStateConnecting(c)
            == c.(audit := ReconnectAudit(c)).(error := None, closed := false).(rx := RESET_RX, readBuf := [])
                .(tx := RESET_TX, writeBuf := []).(slots := c.slots.(connect := false))
  {
  }

  lemma CallKeepsRx(env: Env, c: Session.Client)
    requires c.main.Valid()
    ensures Session.CallSlot(env, c).0.rx == c.rx
  {
    hide KeepSession, FlushLog;
  }

  /** The read buffer is forgotten once the decoder has an error. */
  function Discarded(c: Session.Client): Session.Client { if c.rx.error.Some? then c.(readBuf := []) else c }

  function SlotClosed(c: Session.Client, ok: bool): Session.Client
  {
    if ok then c.(rx := RESET_RX)
    else c.(rx := FailRx(c.rx, CallbackError(c.rx.decoder)), readBuf := [], audit := c.audit.(slotCalled := true))
  }

  /** The queue after the cleanup loop has passed the first `n` of its old entries. */
  ghost function Cleaned(s: StoreState, n: nat): StoreState
    requires s.Valid() && n <= |s.entries|
  {
    s.(entries := Kept(s.entries[..n]) + s.entries[n..],
       pos := if n <= s.pos then |Kept(s.entries[..n])| + (s.pos - n) else |Kept(s.entries[..s.pos])|)
  }

  lemma CleanNothing(s: StoreState)
    requires s.Valid()
    ensures Cleaned(s, 0) == s && |Kept(s.entries[..0])| == 0
  {
    assert s.entries[..0] == [];
  }

  lemma CleanAll(s: StoreState)
    requires s.Valid()
    ensures Cleaned(s, |s.entries|) == KeepSession(s)
  {
    assert s.entries[..|s.entries|] == s.entries;
    hide Kept;
    if s.pos == |s.entries| { assert s.entries[..s.pos] == s.entries; }
  }

  lemma CleanLength(s: StoreState, n: nat)
    requires s.Valid() && n <= |s.entries|
    ensures |Cleaned(s, n).entries| == |Kept(s.entries[..n])| + |s.entries| - n
  {
  }

  lemma CleanOne(s: StoreState, n: nat)
    requires s.Valid() && n < |s.entries|
    ensures var i := |Kept(s.entries[..n])|;
            var t := Cleaned(s, n);
            && i < |t.entries| && t.entries[i] == s.entries[n]
            && |Kept(s.entries[..n + 1])| == (if KeptOnReconnect(s.entries[n]) then i + 1 else i)
            && Cleaned(s, n + 1) == if KeptOnReconnect(s.entries[n]) then t else t.PopAt(i)
    ensures KeptOnReconnect(s.entries[n]) <==> !s.entries[n].kind.Pingreq? && !s.entries[n].kind.Disconnect?
  {
    hide Kept;
    KeptNext(s, n);
    CleanedEntries(Kept(s.entries[..n]), Kept(s.entries[..n + 1]), s.entries, n);
    CleanedCursor(s, n);
    var i, t := |Kept(s.entries[..n])|, Cleaned(s, n);
    assert t.PopAt(i).entries == t.entries[..i] + t.entries[i + 1..];
  }

  /** The entries: the next one moves to the part that was looked at, or goes. */
  lemma CleanedEntries(head: seq<Entry>, next: seq<Entry>, es: seq<Entry>, n: nat)
    requires n < |es| && next == head + (if KeptOnReconnect(es[n]) then [es[n]] else [])
    ensures var i, t := |head|, head + es[n..];
            && t[i] == es[n]
            && next + es[n + 1..] == if KeptOnReconnect(es[n]) then t else t[..i] + t[i + 1..]
  {
    hide KeptOnReconnect;
    var i, t := |head|, head + es[n..];
    if KeptOnReconnect(es[n]) {
      assert head + [es[n]] + es[n + 1..] == t;
    } else {
      assert t[..i] == head && t[i + 1..] == es[n + 1..];
    }
  }

  /** The cursor: it moves with the entries behind it. */
  lemma CleanedCursor(s: StoreState, n: nat)
    requires s.Valid() && n < |s.entries|
    requires |Kept(s.entries[..n + 1])| == |Kept(s.entries[..n])| + (if KeptOnReconnect(s.entries[n]) then 1 else 0)
    ensures var i, p := |Kept(s.entries[..n])|, Cleaned(s, n).pos;
            Cleaned(s, n + 1).pos == if !KeptOnReconnect(s.entries[n]) && p > i then p - 1 else p
  {
    hide Kept, KeptOnReconnect;
    if s.pos <= n { KeptMonotone(s.entries, s.pos, n); }
  }

  lemma KeptNext(s: StoreState, n: nat)
    requires s.Valid() && n < |s.entries|
    ensures Kept(s.entries[..n + 1])
            == Kept(s.entries[..n]) + (if KeptOnReconnect(s.entries[n]) then [s.entries[n]] else [])
  {
    assert s.entries[..n + 1] == s.entries[..n] + [s.entries[n]];
    KeptConcat(s.entries[..n], [s.entries[n]]);
    assert [s.entries[n]][1..] == [];
  }

  lemma KeptMonotone(es: seq<Entry>, m: nat, n: nat)
    requires m <= n <= |es|
    ensures |Kept(es[..m])| <= |Kept(es[..n])|
  {
    assert es[..n] == es[..m] + es[m..n];
    KeptConcat(es[..m], es[m..n]);
  }
}
