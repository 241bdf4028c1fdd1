/** What the run theorems say about the client object, and what decoding on a closed client leads to. */
module Guarantees {
  import opened Types
  import opened Clock
  import opened FixedHeader
  import opened PacketStore
  import opened PacketIds
  import opened Wire
  import opened Receive
  import opened Rounds
  import opened Session
  import opened SessionInvariant
  import opened AtMostOnce
  import opened Accounting
  import opened Staging
  import opened Reconnect
  import opened Connections
  import opened Decoding
  import opened RunSteps
  import opened TxBuffers
  import opened Platforms
  import opened Transfers
  import opened Clients

  /** After any sequence of method calls on an initialized client: QoS 2 messages were delivered at most
      once, every request is accounted for, and the connection carried exactly the bytes that were encoded
      and not still buffered, and what was decoded is exactly what came in and is not still buffered. */
  lemma ObjectKeepsPromises(m: MqttClient, now: Time, r: nat)
    requires m.Valid()
    requires m.start == Initial(m.mainStore.entries.Length, m.ids.items.Length, m.readBuf.Length, m.writeBuf.Length,
             now)
    ensures DeliveredOnce(m.app.log) && Distinct(m.ids.items[..m.ids.count])
    ensures BooksBalance(m.Model(), r)
    ensures EndsWith(m.platform.sent, m.audit.written) && m.audit.encoded == m.audit.written + m.writeBuf[..m.writePos]
    ensures EndsWith(m.platform.given, m.audit.received)
    ensures m.audit.decoded <= m.audit.received
    ensures m.rx.error.None? ==> m.audit.received == m.audit.decoded + m.readBuf[..m.readPos]
  {
    hide BooksBalance, DeliveredOnce, Inv, Run, Sized;
    var a, b, c, d := m.mainStore.entries.Length, m.ids.items.Length, m.readBuf.Length, m.writeBuf.Length;
    Qos2ReceivedAtMostOnce(m.app.env, a, b, c, d, now, m.trace);
    EveryRequestIsAccountedFor(m.app.env, a, b, c, d, now, m.trace, r);
    StagingIsLossless(m.app.env, a, b, c, d, now, m.trace);
  }

  /** A client of its own, from buffers to finalize: what the contracts promise a caller is enough for the
      promises of the runs. */
  method OneSession(env: Env, clock: nat -> Time, incoming: seq<ReadAnswer>, outgoing: seq<WriteAnswer>,
                    sizes: (nat, nat, nat, nat), q: ConnectRequest, rounds: nat)
    returns (client: MqttClient, connected: bool)
    ensures client.Valid() && client.error == Some(Closed)
    ensures DeliveredOnce(client.app.log) && BooksBalance(client.Model(), 1)
    ensures EndsWith(client.platform.sent, client.audit.written)
  {
    hide DeliveredOnce, BooksBalance;
    client := NewClient(env, clock, incoming, outgoing, sizes);
    connected := client.Connect(q, 1);
    for i := 0 to rounds
      invariant client.Valid() && client.start == Initial(
        client.mainStore.entries.Length, client.ids.items.Length, client.readBuf.Length, client.writeBuf.Length,
          clock(0))
    {
      hide *;
      var report := client.RunOnce();
    }
    client.Finalize();
    ObjectKeepsPromises(client, clock(0), 1);
  }

  method NewClient(env: Env, clock: nat -> Time, incoming: seq<ReadAnswer>, outgoing: seq<WriteAnswer>,
                   sizes: (nat, nat, nat, nat)) returns (client: MqttClient)
    ensures fresh(client) && fresh(client.Parts()) && client.Valid() && client.trace == []
    ensures client.start == Initial(client.mainStore.entries.Length, client.ids.items.Length, client.readBuf.Length,
                                    client.writeBuf.Length, clock(0))
  {
    hide MqttClient.Model, MqttClient.Framed, MqttClient.Valid, Zero, Initial;
    client := Attach(env, clock, incoming, outgoing, sizes);
    client.Initialize();
  }

  /** A zeroed client on buffers of these sizes. */
  method Attach(env: Env, clock: nat -> Time, incoming: seq<ReadAnswer>, outgoing: seq<WriteAnswer>,
                sizes: (nat, nat, nat, nat)) returns (client: MqttClient)
    ensures fresh(client) && fresh(client.Parts()) && client.Framed() && client.trace == [] && client.app.log == []
    ensures client.Model() == Zero(client.mainStore.entries.Length, client.ids.items.Length, client.readBuf.Length,
                                   client.writeBuf.Length)
    ensures client.platform.clock == clock && client.platform.ticks == 0
  {
    hide MqttClient.Model, MqttClient.Framed, MqttClient.Valid, Zero;
    var app := new App(env);
    var platform := new Platform(clock, incoming, outgoing);
    var store := new Store(sizes.0);
    var ids := new IdArray(sizes.1);
    var readBuf, writeBuf := new byte[sizes.2], new byte[sizes.3];
    client := new MqttClient(app, platform, store, ids, readBuf, writeBuf);
  }

  // ----- decoding while closed -----

  /** A PUBLISH of QoS 1 with packet id 7, topic "a" and no payload. */
  const STRAY: seq<byte> := [0x32, 5, 0, 1, 97, 0, 7]

  function StrayHeader(finished: bool): Header
  {
    if finished then Header(3, false, 1, false, 5, 2, None, 128, 5, true)
      else Header(3, false, 1, false, 0, 1, None, 1, 0, false)
  }

  function StrayRx(n: nat): Rx
  {
    if n == 0 then RESET_RX
    else if n == 1 then RESET_RX.(header := StrayHeader(false))
    else
      RESET_RX.(header := StrayHeader(true), headerFinished := true, decoder := DPublish, remainPos := n - 2,
                topicLen := if n >= 4 then 1 else 0, ignorePublish := n >= 5, packetId := if n >= 7 then 7 else 0)
  }

  lemma StrayByte(env: Env, l: Link, n: nat)
    requires l.store.Valid() && !env.onPublish && !env.onAllocateTopic && n < 6 && l.rx == StrayRx(n)
    ensures RxStep(env, l, STRAY[n]) == RxOut(l.(rx := StrayRx(n + 1)), false)
  {
  }

  lemma StrayEnd(env: Env, l: Link)
    requires l.store.Valid() && !env.onPublish && l.rx == StrayRx(6)
    ensures var out := RxStep(env, l, STRAY[6]);
            out.call && out.link == l.(rx := StrayRx(7), store := l.store.Append(Entry(Puback, Value(7, 0, NoBody))).0)
  {
  }

  /** All but the last byte are silent. */
  lemma {:induction false} StrayBytes(env: Env, l: Link, n: nat)
    requires l.store.Valid() && !env.onPublish && !env.onAllocateTopic && n <= 6 && l.rx == RESET_RX
    ensures RxMany(env, l, STRAY[..n]) == RxOut(l.(rx := StrayRx(n)), false)
  {
    hide RxStep;
    if n > 0 {
      StrayBytes(env, l, n - 1);
      assert STRAY[..n] == STRAY[..n - 1] + [STRAY[n - 1]];
      RxManyAppend(env, l, STRAY[..n - 1], STRAY[n - 1]);
      StrayByte(env, l.(rx := StrayRx(n - 1)), n - 1);
    }
  }

  lemma StrayPacket(env: Env, c: Client)
    requires Inv(c) && IsInitial(c) && c.rx == RESET_RX && !env.onPublish && !env.onAllocateTopic
    ensures CanDecode(c)
    ensures DecodeBytes(env, c, STRAY)
            == c.(conn := c.conn.Append(Entry(Puback, Value(7, 0, NoBody))).0)
  {
    hide RxStep, Inv;
    DecodingFacts(c);
    var l := LinkOf(c);
    assert STRAY == STRAY[..6] + [STRAY[6]];
    StrayBytes(env, l, 6);
    SilentBytes(env, c, STRAY[..6]);
    StrayEnd(env, l.(rx := StrayRx(6)));
    DecodeTwice(env, c, STRAY[..6], [STRAY[6]]);
    LastByteOf(env, c, l.(rx := StrayRx(6)), STRAY[6]);
    OneByte(env, WithLink(c, l.(rx := StrayRx(6))), STRAY[6]);
    SilentFinish(env, c, RxStep(env, l.(rx := StrayRx(6)), STRAY[6]));
  }

  lemma SilentFinish(env: Env, c: Client, out: RxOut)
    requires c.main.Valid() && c.conn.Valid() && out.link.store.Valid() && out.call && out.link.rx.slot == ZERO_VALUE
    ensures AfterRound(env, c, out) == WithLink(c, out.link.(rx := RESET_RX))
  {
  }

  /** What decoding on a closed client can lead to: the acknowledgement of a PUBLISH takes the connect store's
      only place, and from then on every connect is refused, whatever the request, although the client is
      initial, until the store is cleaned up. */
  lemma DecodingWhileClosedBlocksConnect(env: Env, c: Client)
    requires Inv(c) && IsInitial(c) && c.conn.entries == [] && c.rx == RESET_RX && c.readBuf == STRAY
    requires !env.onPublish && !env.onAllocateTopic
    ensures var d := Run(env, c, Repeat(DecodeOne, |STRAY|));
            && IsInitial(d) && d.conn.entries == [Entry(Puback, Value(7, 0, NoBody))]
            && forall q, ref :: !Request(d, DoConnect(q, ref)).1
  {
    hide Run, Inv, DecodeBytes;
    StrayPacket(env, c);
    RunKeepsInv(env, c, Repeat(DecodeOne, |STRAY|));
    StepsAreBytes(env, c, |STRAY|);
    assert STRAY[..|STRAY|] == STRAY;
    RoomForOne(c);
    var d := Run(env, c, Repeat(DecodeOne, |STRAY|));
    forall q, ref ensures !Request(d, DoConnect(q, ref)).1 { WhenRequestsSucceed(d, DoConnect(q, ref)); }
  }

  lemma RoomForOne(c: Client)
    requires Inv(c)
    ensures c.conn.capacity == 1
  {
    hide WellStored;
  }

  lemma StartsUnconnected(storeCap: nat, idCap: nat, readCap: nat, writeCap: nat, now: Time)
    ensures var c := Initial(storeCap, idCap, readCap, writeCap, now);
            IsInitial(c) && c.conn.entries == [] && c.writeCap == writeCap && c.readCap == readCap
  {
  }

  /** Both from initialize on: a client connects, one encode call fills the write buffer, the connection ends
      before anything is written; now it is closed with a full write buffer, so `run_once` goes on to read,
      and what it reads and decodes makes every connect fail. */
  lemma ClosedDecodingFromInitialize(
      env: Env, storeCap: nat, idCap: nat, readCap: nat, writeCap: nat, now: Time, q: ConnectRequest, ref: nat,
        later: Time)
    requires ValidConnect(q) && writeCap <= |Packet(Entry(Connect, Value(0, ref, ConnectBody(q))), false)|
    requires |STRAY| <= readCap && !env.onPublish && !env.onAllocateTopic
    ensures Inv(Initial(storeCap, idCap, readCap, writeCap, now))
    ensures var start := Initial(storeCap, idCap, readCap, writeCap, now);
            var full := [DoConnect(q, ref), EncodeMore, Eof(later)];
            var d := Run(env, start, full + [Read(STRAY)] + Repeat(DecodeOne, |STRAY|));
            && Stranded(Run(env, start, full), readCap)
            && IsInitial(d) && d.conn.entries == [Entry(Puback, Value(7, 0, NoBody))]
            && forall r, n :: !Request(d, DoConnect(r, n)).1
  {
    hide Inv, Run, Packet, Initial, IsInitial, Step, ConnectRequested, WellStored;
    var start := Initial(storeCap, idCap, readCap, writeCap, now);
    InitialInv(storeCap, idCap, readCap, writeCap, now);
    StartsUnconnected(storeCap, idCap, readCap, writeCap, now);
    WhenRequestsSucceed(start, DoConnect(q, ref));
    ClosedWithFullBuffer(env, start, q, ref, later);
    var full := [DoConnect(q, ref), EncodeMore, Eof(later)];
    var closed := Run(env, start, full);
    RunKeepsInv(env, start, full);
    RunOne(env, closed, Read(STRAY));
    ReadsStray(env, closed);
    RunAppend(env, start, full, [Read(STRAY)]);
    RunAppend(env, start, full + [Read(STRAY)], Repeat(DecodeOne, |STRAY|));
    DecodingWhileClosedBlocksConnect(env, Step(env, closed, Read(STRAY)));
  }

  lemma ReadsStray(env: Env, c: Client)
    requires WellStored(c) && Inv(c) && Stranded(c, c.readCap) && |STRAY| <= c.readCap
    ensures var d := Step(env, c, Read(STRAY));
            IsInitial(d) && d.conn.entries == [] && d.rx == RESET_RX && d.readBuf == STRAY
  {
    hide Inv, WellStored;
  }
}
