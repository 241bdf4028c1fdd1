/** What the transfer loops and `run_once` do, as functions of the client and its connection. */
module Transfers {
  import opened Types
  import opened Clock
  import opened PacketStore
  import opened Wire
  import opened Transmit
  import opened Rounds
  import opened Session
  import opened SessionInvariant
  import opened Decoding
  import opened RunSteps
  import opened Platforms

  datatype Status = Ready | Broken | BlockConn | BlockData

  datatype Wrapper = Reading | Decoding | Encoding | Writing

  datatype Direction = Input | Output

  function Producer(d: Direction): Wrapper { if d.Input? then Reading else Encoding }

  function Consumer(d: Direction): Wrapper { if d.Input? then Decoding else Writing }

  function BlockOf(w: Wrapper): Status { if w.Reading? || w.Writing? then BlockConn else BlockData }

  /** One end of a transfer. `count` is how much the last call moved; -1 before the first. */
  datatype Flow = Flow(available: bool, stale: bool, result: IoResult, count: int)
  {
    predicate IsEof() { result.IoSuccess? && count == 0 }
  }

  const FRESH := Flow(true, true, IoSuccess, -1)

  /** What `run_once` reports: an error, or flags. */
  datatype RunResult = RunResult(error: Option<Error>, eof: bool, connRd: bool, connWr: bool, queueable: bool)

  /** The client and its connection. `held` is the number of bytes in the read buffer, which the session
      machine forgets once the decoder has failed; after an error nothing depends on it. */
  datatype World = World(c: Client, net: Net, held: nat)

  predicate WorldValid(w: World)
  {
    && Inv(w.c) && w.held <= w.c.readCap && (w.c.rx.error.Some? ==> w.c.readBuf == [])
    && (w.c.error.None? && w.c.rx.error.None? ==> w.held == |w.c.readBuf|)
    && (w.c.rx.error.None? ==> Sized(w.c.rx)) && OnWire(w.c, w.net)
  }

  predicate EndsWith(all: seq<byte>, end: seq<byte>)
  {
    |end| <= |all| && all[|all| - |end|..] == end
  }

  /** What the current connection wrote and read are the last bytes the network saw. */
  predicate OnWire(c: Client, net: Net)
  {
    EndsWith(net.sent, c.audit.written) && EndsWith(net.given, c.audit.received)
  }

  lemma EndsWithMore(all: seq<byte>, end: seq<byte>, more: seq<byte>)
    requires EndsWith(all, end)
    ensures EndsWith(all + more, end + more)
  {
  }

  lemma WireGrows(net: Net, room: nat, bytes: seq<byte>)
    ensures var (v, _, got) := ServeRead(net, room); v.sent == net.sent && v.given == net.given + got
    ensures var (v, _, n) := ServeWrite(net, bytes); v.given == net.given && v.sent == net.sent + bytes[..n]
  {
  }

  function Settled(w: World): World { if w.c.error.Some? then w.(held := 0) else w }

  // ----- one call of one end -----

  /** The world after a call, the steps of the session machine it stands for, its result and its count. */
  datatype Moved = Moved(world: World, ops: seq<Op>, io: IoResult, cnt: nat)

  function Room(w: World, e: Wrapper): int
  {
    match e
    case Reading => w.c.readCap - w.held
    case Decoding => w.held
    case Encoding => w.c.writeCap - |w.c.writeBuf|
    case Writing => |w.c.writeBuf|
  }

  function Stopped(io: IoResult, e: Error): seq<Op> { if io.IoError? then [IoFail(e)] else [] }

  function ReadMove(env: Env, w: World): Moved
    requires WorldValid(w)
  {
    var (net, io, bytes) := ServeRead(w.net, w.c.readCap - w.held);
    var ops := [Read(bytes)] + Stopped(io, ConnectionRead);
    Moved(Settled(World(Run(env, w.c, ops), net, w.held + |bytes|)), ops, io, |bytes|)
  }

  function WriteMove(env: Env, w: World): Moved
    requires WorldValid(w)
  {
    var (net, io, n) := ServeWrite(w.net, w.c.writeBuf);
    var ops := [Write(n)] + Stopped(io, ConnectionWrite);
    Moved(Settled(World(Run(env, w.c, ops), net, w.held)), ops, io, n)
  }

  /** One call of the encoder on the free part of the write buffer. */
  function Encoded(env: Env, c: Client): (Client, IoResult, nat)
    requires UnsentWellFormed(TxWorldOf(c).store) && |c.writeBuf| <= c.writeCap
  {
    var out := Encode(env, TxWorldOf(c), c.writeCap - |c.writeBuf|);
    (WithTxWorld(c, out.world).(writeBuf := c.writeBuf + out.bytes,
                                    audit := c.audit.(encoded := c.audit.encoded + out.bytes)),
     EncodeIo(out), |out.bytes|)
  }

  lemma ReadyToEncode(c: Client)
    requires Inv(c) && c.error.None?
    ensures TxValid(TxWorldOf(c)) && UnsentWellFormed(TxWorldOf(c).store) && |c.writeBuf| <= c.writeCap
  {
    WellStoredUnsent(c, c.txStore);
  }

  function EncodeMove(env: Env, w: World): Moved
    requires WorldValid(w) && w.c.error.None?
  {
    ReadyToEncode(w.c);
    var (_, io, n) := Encoded(env, w.c);
    Moved(Settled(w.(c := Run(env, w.c, [EncodeMore]))), [EncodeMore], io, n)
  }

  /** One call of the decoder on the whole read buffer. */
  function DecodeMove(env: Env, w: World): Moved
    requires WorldValid(w)
  {
    var ops := Repeat(DecodeOne, w.held);
    var c := Run(env, w.c, ops);
    Moved(Settled(World(c, w.net, 0)), ops, if c.error.Some? then IoError else IoSuccess, w.held)
  }

  function Move(env: Env, w: World, e: Wrapper): Moved
    requires WorldValid(w) && w.c.error.None?
  {
    match e
    case Reading => ReadMove(env, w)
    case Decoding => DecodeMove(env, w)
    case Encoding => EncodeMove(env, w)
    case Writing => WriteMove(env, w)
  }

  /** Twice what is still to come, plus what is buffered: every byte moved makes it smaller. */
  ghost function Budget(w: World, d: Direction): nat
  {
    if d.Input? then 2 * Total(w.net.incoming) + w.held else 2 * PendingLength(TxWorldOf(w.c)) + |w.c.writeBuf|
  }

  ghost function PendingLength(w: TxWorld): nat
  {
    if TxValid(w) then |Pending(w)| else 0
  }

  /** Nothing is left to send, and the encoder is not closed. */
  predicate Drained(c: Client)
  {
    !c.tx.closed && !StoreOf(c, c.txStore).HasCurrent()
  }

  /** What every move means. */
  ghost predicate MovesWell(env: Env, w: World, e: Wrapper, m: Moved)
    requires WorldValid(w)
  {
    && WorldValid(m.world) && m.world.c == Run(env, w.c, m.ops)
    && (m.io.IoError? <==> m.world.c.error.Some?) && (m.io.IoError? ==> m.world.held == 0)
    && (m.io.IoError? && e.Reading? ==> m.world.c.error == Some(ConnectionRead))
    && (m.io.IoError? && e.Writing? ==> m.world.c.error == Some(ConnectionWrite))
    && (!m.io.IoError? ==>
          match e
          case Reading => ReadsWell(w, m)
          case Decoding => DecodesWell(w, m)
          case Encoding => EncodesWell(w, m)
          case Writing => WritesWell(w, m))
  }

  ghost predicate ReadsWell(w: World, m: Moved)
  {
    && Budget(m.world, Input) + m.cnt <= Budget(w, Input) && m.world.held == w.held + m.cnt
    && (m.cnt == 0 ==> m.world.c == w.c) && m.world.c.writeBuf == w.c.writeBuf && m.world.c.closed == w.c.closed
    && m.world.c.readCap == w.c.readCap && m.world.c.writeCap == w.c.writeCap
  }

  ghost predicate DecodesWell(w: World, m: Moved)
  {
    && Budget(m.world, Input) + m.cnt <= Budget(w, Input) && m.world.held == 0 && m.cnt == w.held
    && m.world.c.writeBuf == w.c.writeBuf && m.io.IoSuccess? && m.world.c.closed == w.c.closed
    && m.world.c.readCap == w.c.readCap && m.world.c.writeCap == w.c.writeCap
  }

  ghost predicate EncodesWell(w: World, m: Moved)
  {
    && Budget(m.world, Output) + m.cnt <= Budget(w, Output)
    && |m.world.c.writeBuf| == |w.c.writeBuf| + m.cnt && m.world.c.writeCap == w.c.writeCap
    && (m.io.IoWouldBlock? ==> Drained(m.world.c) && m.cnt == 0)
    && (w.c.closed ==> m.io.IoSuccess? && m.cnt == 0)
    && m.world.c.closed == w.c.closed && SameInput(m.world, w)
  }

  /** The input side is as it was. */
  predicate SameInput(v: World, w: World)
  {
    v.held == w.held && v.net.incoming == w.net.incoming && v.c.readCap == w.c.readCap
  }

  ghost predicate WritesWell(w: World, m: Moved)
  {
    && Budget(m.world, Output) + m.cnt <= Budget(w, Output)
    && |m.world.c.writeBuf| == |w.c.writeBuf| - m.cnt && m.world.c.writeCap == w.c.writeCap
    && Drained(m.world.c) == Drained(w.c)
    && m.world.c.closed == w.c.closed && SameInput(m.world, w)
  }

  /** A step, and perhaps the failure behind it. */
  lemma TwoSteps(env: Env, c: Client, op: Op, more: seq<Op>)
    requires Inv(c) && |more| <= 1
    ensures WellStored(c) && Inv(Step(env, c, op)) && WellStored(Step(env, c, op)) && Inv(Run(env, c, [op] + more))
    ensures Run(env, c, [op] + more)
            == if more == [] then Step(env, c, op) else Step(env, Step(env, c, op), more[0])
  {
    hide Inv, WellStored, Step;
    StepKeepsInv(env, c, op);
    StepKeepsInv(env, Step(env, c, op), DecodeOne);
    RunOne(env, c, op);
    RunKeepsInv(env, c, [op] + more);
    RunAppend(env, c, [op], more);
    if more != [] {
      assert more == [more[0]];
      RunOne(env, Step(env, c, op), more[0]);
    } else {
      assert [op] + more == [op];
    }
  }

  /** What a step that only fails does. */
  lemma FailStep(env: Env, c: Client, e: Error)
    requires WellStored(c) && c.error.None? && (e.ConnectionRead? || e.ConnectionWrite?)
    ensures Step(env, c, IoFail(e)) == FailWith(c, e)
  {
    hide WellStored;
  }

  function Fetched(c: Client, bytes: seq<byte>): Client
  {
    c.(readBuf := if c.rx.error.Some? then [] else c.readBuf + bytes,
       audit := c.audit.(received := c.audit.received + bytes))
  }

  lemma ReadStep(env: Env, c: Client, bytes: seq<byte>)
    requires WellStored(c) && c.error.None? && |c.readBuf| + |bytes| <= c.readCap
    ensures Step(env, c, Read(bytes)) == Fetched(c, bytes)
    ensures bytes == [] && (c.rx.error.Some? ==> c.readBuf == []) ==> Fetched(c, bytes) == c
  {
    hide WellStored;
    if bytes == [] { assert c.readBuf + [] == c.readBuf && c.audit.received + [] == c.audit.received; }
  }

  lemma ReadMoves(env: Env, w: World)
    requires WorldValid(w) && w.c.error.None?
    ensures MovesWell(env, w, Reading, ReadMove(env, w))
  {
    hide Inv, WellStored, Step, Run, ServeRead, FailWith;
    InvCommon(w.c);
    var (net, io, bytes) := ServeRead(w.net, w.c.readCap - w.held);
    ReadUsesUp(w.net, w.c.readCap - w.held);
    WireGrows(w.net, w.c.readCap - w.held, []);
    EndsWithMore(w.net.given, w.c.audit.received, bytes);
    TwoSteps(env, w.c, Read(bytes), Stopped(io, ConnectionRead));
    ReadStep(env, w.c, bytes);
    FailStep(env, Fetched(w.c, bytes), ConnectionRead);
    Failing(Fetched(w.c, bytes), ConnectionRead);
  }

  lemma Failing(c: Client, e: Error)
    ensures FailWith(c, e).error == Some(e) && FailWith(c, e).readCap == c.readCap
    ensures FailWith(c, e).rx == c.rx && FailWith(c, e).readBuf == c.readBuf && FailWith(c, e).audit == c.audit
  {
  }

  function Written(c: Client, n: nat): Client
    requires n <= |c.writeBuf|
  {
    c.(writeBuf := c.writeBuf[n..], audit := c.audit.(written := c.audit.written + c.writeBuf[..n]))
  }

  lemma WriteStep(env: Env, c: Client, n: nat)
    requires WellStored(c) && c.error.None? && n <= |c.writeBuf|
    ensures Step(env, c, Write(n)) == Written(c, n)
    ensures TxWorldOf(Written(c, n)) == TxWorldOf(c) && Drained(Written(c, n)) == Drained(c)
  {
    hide WellStored;
  }

  lemma WriteMoves(env: Env, w: World)
    requires WorldValid(w) && w.c.error.None?
    ensures MovesWell(env, w, Writing, WriteMove(env, w))
  {
    hide Inv, WellStored, Step, Run, FailWith, Drained, TxWorldOf, TxValid;
    InvCommon(w.c);
    var (net, io, n) := ServeWrite(w.net, w.c.writeBuf);
    WireGrows(w.net, 0, w.c.writeBuf);
    EndsWithMore(w.net.sent, w.c.audit.written, w.c.writeBuf[..n]);
    TwoSteps(env, w.c, Write(n), Stopped(io, ConnectionWrite));
    WriteStep(env, w.c, n);
    FailStep(env, Written(w.c, n), ConnectionWrite);
    Failing(Written(w.c, n), ConnectionWrite);
    hide ServeWrite;
    WriteKeepsIncoming(w.net, w.c.writeBuf);
  }

  lemma WriteKeepsIncoming(net: Net, bytes: seq<byte>)
    ensures ServeWrite(net, bytes).0.incoming == net.incoming
  {
  }

  lemma StepEncodes(env: Env, c: Client)
    requires WellStored(c) && UnsentWellFormed(TxWorldOf(c).store) && c.error.None? && |c.writeBuf| < c.writeCap
    ensures var d := Encoded(env, c).0;
            Step(env, c, EncodeMore) == (match d.tx.error case Some(e) => FailWith(d, e) case None => d)
  {
    hide WellStored, UnsentWellFormed, Encode, FailWith;
  }

  /** One call of the encoder takes its bytes from what is pending; a call that blocks had nothing left. */
  lemma EncodeSteps(env: Env, c: Client)
    requires Inv(c) && c.error.None? && |c.writeBuf| < c.writeCap
    ensures WellStored(c) && UnsentWellFormed(TxWorldOf(c).store)
    ensures var (d, io, n) := Encoded(env, c);
            && (io.IoError? <==> d.tx.error.Some?)
            && Step(env, c, EncodeMore) == (match d.tx.error case Some(e) => FailWith(d, e) case None => d)
            && (!io.IoError? ==>
                  && PendingLength(TxWorldOf(d)) + n <= PendingLength(TxWorldOf(c))
                  && (io.IoWouldBlock? ==> Drained(d) && n == 0) && (c.closed ==> io.IoSuccess? && n == 0))
  {
    hide WellFormed, TxValid, EncodeLoop, Pending, FailWith, Step, Inv, Common;
    ReadyToEncode(c);
    InvCommon(c);
    StepEncodes(env, c);
    var w := TxWorldOf(c);
    var room := c.writeCap - |c.writeBuf|;
    if w.tx.error.None? { EncodeEmitsPending(env, w, room); }
    if c.closed {
      ClosedIsInitial(c);
      ClosedEncode(env, w, room);
    }
    assert TxWorldOf(Encoded(env, c).0) == Encode(env, w, room).world;
  }

  lemma ClosedEncode(env: Env, w: TxWorld, room: nat)
    requires UnsentWellFormed(w.store) && w.tx.closed
    ensures EncodeLoop(env, w, room) == EncodeOut(w, [], Idle)
  {
  }

  lemma EncodeFrame(env: Env, c: Client)
    requires UnsentWellFormed(TxWorldOf(c).store) && |c.writeBuf| <= c.writeCap
    ensures var (d, _, n) := Encoded(env, c);
            && d.rx == c.rx && d.readBuf == c.readBuf && d.readCap == c.readCap && d.writeCap == c.writeCap
            && |d.writeBuf| == |c.writeBuf| + n && d.closed == c.closed && d.error == c.error
            && d.audit == c.audit.(encoded := d.audit.encoded)
  {
    hide Encode;
  }

  lemma EncodeMoves(env: Env, w: World)
    requires WorldValid(w) && w.c.error.None? && Room(w, Encoding) > 0
    ensures MovesWell(env, w, Encoding, EncodeMove(env, w))
  {
    hide Inv, WellStored, Step, Run, FailWith, Encoded, Drained, PendingLength, TxWorldOf, UnsentWellFormed;
    EncodeSteps(env, w.c);
    EncodeFrame(env, w.c);
    RunOne(env, w.c, EncodeMore);
    RunKeepsInv(env, w.c, [EncodeMore]);
    var d := Encoded(env, w.c).0;
    if d.tx.error.Some? { Failing(d, d.tx.error.value); }
  }

  /** Steps of a decoder that has failed: the first one fails the client. */
  lemma FailedDecoder(env: Env, c: Client, n: nat)
    requires Inv(c) && c.error.None? && c.rx.error.Some? && n > 0
    ensures Run(env, c, Repeat(DecodeOne, n)) == FailWith(c.(readBuf := []), c.rx.error.value)
  {
    hide Inv, WellStored, FailWith;
    StepKeepsInv(env, c, DecodeOne);
    assert Repeat(DecodeOne, n)[1..] == Repeat(DecodeOne, n - 1);
    Failing(c.(readBuf := []), c.rx.error.value);
    InvCommon(c);
    ErrorStops(env, Step(env, c, DecodeOne), n - 1);
  }

  lemma DecodeMoves(env: Env, w: World)
    requires WorldValid(w) && w.c.error.None? && w.held > 0
    ensures MovesWell(env, w, Decoding, DecodeMove(env, w))
  {
    hide Inv, Step, Run, FailWith, DecodeBytes;
    var c := Run(env, w.c, Repeat(DecodeOne, w.held));
    RunKeepsInv(env, w.c, Repeat(DecodeOne, w.held));
    if w.c.rx.error.Some? {
      FailedDecoder(env, w.c, w.held);
      Failing(w.c.(readBuf := []), w.c.rx.error.value);
    } else {
      StepsAreBytes(env, w.c, w.held);
      assert w.c.readBuf[..w.held] == w.c.readBuf && w.c.readBuf[w.held..] == [];
      BytesFrame(env, w.c, w.c.readBuf);
      CallIsBytewise(env, w.c, w.c.readBuf);
      var d := DecodeBytes(env, w.c, w.c.readBuf);
      if d.rx.error.Some? { Failing(Rebuffer(d, [], c.audit.decoded), d.rx.error.value); }
    }
  }

  /** Decoding leaves the buffers alone and an open client open, a closed one closed. */
  lemma {:induction false} BytesFrame(env: Env, c: Client, bytes: seq<byte>)
    requires CanDecode(c)
    ensures var d := DecodeBytes(env, c, bytes);
            && d.readCap == c.readCap && d.writeCap == c.writeCap && d.writeBuf == c.writeBuf
            && d.audit.written == c.audit.written && d.audit.received == c.audit.received
            && (d.rx.error.None? ==> d.closed == c.closed && d.error.None?)
    decreases |bytes|
  {
    hide Inv, DecodeByte;
    if bytes != [] {
      ByteStaysDecodable(env, c, bytes[0]);
      DecodeByteBuffers(env, c, bytes[0]);
      ByteStaysOpen(env, c, bytes[0]);
      var next := DecodeByte(env, c, bytes[0]);
      if next.rx.error.None? { BytesFrame(env, next, bytes[1..]); }
    }
  }

  lemma ByteStaysOpen(env: Env, c: Client, b: byte)
    requires CanDecode(c)
    ensures c.main.Valid() && c.conn.Valid()
    ensures var d := DecodeByte(env, c, b); d.rx.error.None? ==> d.closed == c.closed
  {
    hide Inv, DecodeByte, Common, TxValid, TxWorldOf;
    DecodingFacts(c);
    if c.closed { DecodeWhileClosed(env, c, b); } else { DecodeByteInv(env, c, b); }
  }

  lemma MoveIsWell(env: Env, w: World, e: Wrapper)
    requires WorldValid(w) && w.c.error.None? && Room(w, e) > 0
    ensures MovesWell(env, w, e, Move(env, w, e))
  {
    hide MovesWell, ReadMove, WriteMove, EncodeMove, DecodeMove, Inv;
    match e
    case Reading => ReadMoves(env, w);
    case Decoding => DecodeMoves(env, w);
    case Encoding => EncodeMoves(env, w);
    case Writing => WriteMoves(env, w);
  }

  // ----- the transfer loop -----

  datatype Executed = Executed(world: World, ops: seq<Op>, flow: Flow)

  /** `transfer_exec`: a call if this end is still available and has room. */
  function Exec(env: Env, w: World, f: Flow, e: Wrapper): Executed
    requires WorldValid(w) && w.c.error.None?
  {
    if !f.available || Room(w, e) <= 0 then Executed(w, [], f.(available := false))
    else
      var m := Move(env, w, e);
      var more := m.io.IoSuccess? && m.cnt > 0;
      Executed(m.world, m.ops, Flow(more, f.stale && !more, m.io, m.cnt))
  }

  lemma ExecKeepsValid(env: Env, w: World, f: Flow, e: Wrapper)
    requires WorldValid(w) && w.c.error.None?
    ensures WorldValid(Exec(env, w, f, e).world) && Exec(env, w, f, e).world.c == Run(env, w.c, Exec(env, w, f, e).ops)
  {
    hide Move, Inv, Step;
    if f.available && Room(w, e) > 0 { MoveIsWell(env, w, e); }
  }

  /** Every byte uses up budget, at either end. */
  lemma ExecUsesBudget(env: Env, w: World, f: Flow, e: Wrapper, d: Direction)
    requires WorldValid(w) && w.c.error.None? && (e == Producer(d) || e == Consumer(d))
    ensures var x := Exec(env, w, f, e);
            x.world.c.error.None? ==>
              Budget(x.world, d) <= Budget(w, d) && (x.flow.available ==> Budget(x.world, d) < Budget(w, d))
  {
    hide Move, Inv, Run;
    if f.available && Room(w, e) > 0 { MoveIsWell(env, w, e); }
  }

  datatype Loop = Loop(world: World, ops: seq<Op>, input: Flow, output: Flow)

  /** One pass of the loop: the producing end, then the consuming end unless the first has failed. */
  function Pass(env: Env, s: Loop, d: Direction): Loop
    requires WorldValid(s.world) && s.world.c.error.None?
  {
    var x := Exec(env, s.world, s.input, Producer(d));
    ExecKeepsValid(env, s.world, s.input, Producer(d));
    if x.world.c.error.Some? then Loop(x.world, s.ops + x.ops, x.flow, s.output)
    else
      var y := Exec(env, x.world, s.output, Consumer(d));
      Loop(y.world, s.ops + x.ops + y.ops, x.flow, y.flow)
  }

  lemma PassKeepsValid(env: Env, s: Loop, d: Direction)
    requires WorldValid(s.world) && s.world.c.error.None?
    ensures WorldValid(Pass(env, s, d).world)
    ensures var t := Pass(env, s, d);
            t.world.c.error.None? ==>
              && Budget(t.world, d) <= Budget(s.world, d)
              && (t.input.available || t.output.available ==> Budget(t.world, d) < Budget(s.world, d))
  {
    hide Exec, Inv, Budget;
    var x := Exec(env, s.world, s.input, Producer(d));
    ExecKeepsValid(env, s.world, s.input, Producer(d));
    ExecUsesBudget(env, s.world, s.input, Producer(d), d);
    if x.world.c.error.None? {
      ExecKeepsValid(env, x.world, s.output, Consumer(d));
      ExecUsesBudget(env, x.world, s.output, Consumer(d), d);
    }
  }

  /** The loop of `client_buffer_transfer`. It ends because every byte moved uses up budget. */
  function RunLoop(env: Env, s: Loop, d: Direction): (r: Loop)
    requires WorldValid(s.world) && s.world.c.error.None?
    ensures WorldValid(r.world)
    decreases Budget(s.world, d), if s.input.available || s.output.available then 1 else 0
  {
    if !s.input.available && !s.output.available then s
    else
      PassKeepsValid(env, s, d);
      var t := Pass(env, s, d);
      if t.world.c.error.Some? then t else RunLoop(env, t, d)
  }

  /** The world and the steps, how it ended, and the last calls of both ends. */
  datatype Outcome = Outcome(world: World, ops: seq<Op>, status: Status, input: Flow, output: Flow)

  /** Something moved: the timer of the current store starts anew. */
  function Stamped(env: Env, w: World, ops: seq<Op>): (World, seq<Op>)
    requires WorldValid(w)
  {
    var (net, now) := Tick(w.net);
    (w.(c := Run(env, w.c, [Op.Touch(now)]), net := net), ops + [Op.Touch(now)])
  }

  function Ended(env: Env, w: World, ops: seq<Op>): (World, seq<Op>)
    requires WorldValid(w)
  {
    var (net, now) := Tick(w.net);
    (w.(c := Run(env, w.c, [Eof(now)]), net := net), ops + [Eof(now)])
  }

  function Empty(w: World, d: Direction): bool { if d.Input? then w.held == 0 else w.c.writeBuf == [] }

  /** What comes after the loop. */
  function Report(env: Env, s: Loop, d: Direction): Outcome
    requires WorldValid(s.world)
  {
    if s.world.c.error.Some? then Outcome(s.world, s.ops, Broken, s.input, s.output)
    else
      var (w, ops) := if !s.input.stale || !s.output.stale then Stamped(env, s.world, s.ops) else (s.world, s.ops);
      StampedKeepsValid(env, s.world, s.ops);
      if s.input.IsEof() || s.output.IsEof() then
        var (v, all) := Ended(env, w, ops);
        Outcome(v, all, Ready, s.input, s.output)
      else
        Outcome(w, ops, BlockOf(if s.input.result.IoWouldBlock? && Empty(w, d) then Producer(d) else Consumer(d)),
                s.input, s.output)
  }

  /** The same but for the time of the last traffic. */
  predicate SameButTime(v: World, w: World)
  {
    && v.c.closed == w.c.closed && v.c.error == w.c.error && v.c.writeBuf == w.c.writeBuf && v.held == w.held
    && Drained(v.c) == Drained(w.c) && v.net.incoming == w.net.incoming && SameCaps(v.c, w.c)
    && HasUnsent(v.c) == HasUnsent(w.c)
  }

  lemma StampedKeepsValid(env: Env, w: World, ops: seq<Op>)
    requires WorldValid(w)
    ensures WorldValid(Stamped(env, w, ops).0) && SameButTime(Stamped(env, w, ops).0, w)
  {
    hide Inv, WellStored, Step, Drained, HasUnsent, Run;
    InvCommon(w.c);
    var now := Tick(w.net).1;
    RunOne(env, w.c, Op.Touch(now));
    RunKeepsInv(env, w.c, [Op.Touch(now)]);
    TouchChanges(env, w.c, now);
  }

  lemma TouchChanges(env: Env, c: Client, now: Time)
    requires WellStored(c)
    ensures var d := Step(env, c, Op.Touch(now));
            && d.closed == c.closed && d.error == c.error && d.writeBuf == c.writeBuf && d.readBuf == c.readBuf
            && Drained(d) == Drained(c)
            && d.readCap == c.readCap && d.writeCap == c.writeCap && HasUnsent(d) == HasUnsent(c) && d.rx == c.rx
            && d.audit == c.audit
  {
    hide WellFormed, WellStored, TxValid;
    var d := if c.error.Some? then c else WithStore(c, c.current, StoreOf(c, c.current).(lastTouch := now));
    assert Step(env, c, Op.Touch(now)) == d;
    hide Step;
  }

  /** The current store has something to send. */
  predicate HasUnsent(c: Client) { StoreOf(c, c.current).HasCurrent() }

  /** `client_buffer_transfer`. */
  function Transfer(env: Env, w: World, d: Direction): Outcome
    requires WorldValid(w)
  {
    if w.c.error.Some? then Outcome(w, [], Broken, FRESH, FRESH)
    else Report(env, RunLoop(env, Loop(w, [], FRESH, FRESH), d), d)
  }

  lemma EndedKeepsValid(env: Env, w: World, ops: seq<Op>)
    requires WorldValid(w) && w.c.error.None?
    ensures var v := Ended(env, w, ops).0;
            WorldValid(v) && IsInitial(v.c) && v.c.error.None? && v.c.closed && v.c.conn.entries == []
  {
    hide Inv, WellStored, SetStateInitial;
    InvCommon(w.c);
    var now := Tick(w.net).1;
    RunOne(env, w.c, Eof(now));
    RunKeepsInv(env, w.c, [Eof(now)]);
    InitialBuffers(w.c, now);
  }

  lemma InitialBuffers(c: Client, now: Time)
    requires Common(c)
    ensures var d := SetStateInitial(c, now);
            && IsInitial(d) && d.conn.entries == [] && d.rx == c.rx && d.readBuf == c.readBuf && d.readCap == c.readCap
            && d.audit == c.audit
  {
    hide KeepSession, FlushLog, Common;
    SetStateInitialInv(c, now);
  }

  // ----- what an output transfer means -----

  predicate WriteFull(w: World) { |w.c.writeBuf| >= w.c.writeCap }

  /** Holds in front of every pass of an output transfer that started in `w`. */
  ghost predicate SendingFrom(w: World, s: Loop)
  {
    && s.world.c.closed == w.c.closed && SameInput(s.world, w)
    && s.world.c.writeCap == w.c.writeCap && !s.input.result.IoError? && !s.output.result.IoError?
    && (s.input.result.IoWouldBlock? ==> !s.input.available && Drained(s.world.c))
    && (WriteFull(w) ==> s.input.count == -1 && s.input.result.IoSuccess? && (s.input.available ==> WriteFull(s.world)))
    && (!WriteFull(w) && s.output.available ==> !WriteFull(s.world))
    && (!s.input.available ==>
          s.input.result.IoWouldBlock? || s.input.IsEof() || WriteFull(w)
            || (s.world.c.writeBuf != [] && !s.output.available))
    && (!s.output.available ==>
          s.output.IsEof() || s.output.result.IoWouldBlock? || (s.world.c.writeBuf == [] && !s.input.available))
    && (w.c.closed && !WriteFull(w) ==> s.input.IsEof() || (s.input.available && !WriteFull(s.world)))
  }

  lemma ProducerSends(env: Env, w: World, s: Loop)
    requires WorldValid(s.world) && s.world.c.error.None? && SendingFrom(w, s)
    ensures var x := Exec(env, s.world, s.input, Encoding);
            x.world.c.error.None? ==>
              && WorldValid(x.world) && x.world.c.closed == w.c.closed && SameInput(x.world, w)
              && x.world.c.writeCap == w.c.writeCap && !x.flow.result.IoError?
              && (x.flow.result.IoWouldBlock? ==> !x.flow.available && Drained(x.world.c))
              && (WriteFull(w) ==> x.flow.count == -1 && x.flow.result.IoSuccess? && !x.flow.available)
              && (!x.flow.available ==>
                    x.flow.result.IoWouldBlock? || x.flow.IsEof() || WriteFull(w)
                      || (x.world.c.writeBuf != [] && !s.output.available))
              && (w.c.closed && !WriteFull(w) ==> x.flow.IsEof())
              && |x.world.c.writeBuf| >= |s.world.c.writeBuf| && (x.flow.available ==> x.world.c.writeBuf != [])
              && (!s.input.available ==> x.world == s.world && !x.flow.available)
  {
    hide Move, Inv, Drained, TxWorldOf, PendingLength;
    if s.input.available && Room(s.world, Encoding) > 0 { MoveIsWell(env, s.world, Encoding); }
  }

  lemma ConsumerSends(env: Env, w: World, f: Flow)
    requires WorldValid(w) && w.c.error.None? && !f.result.IoError?
    ensures var y := Exec(env, w, f, Writing);
            y.world.c.error.None? ==>
              && WorldValid(y.world) && y.world.c.closed == w.c.closed && SameInput(y.world, w)
              && y.world.c.writeCap == w.c.writeCap && !y.flow.result.IoError? && Drained(y.world.c) == Drained(w.c)
              && (y.flow.available ==> |y.world.c.writeBuf| < |w.c.writeBuf|)
              && |y.world.c.writeBuf| <= |w.c.writeBuf|
              && (f.available && !y.flow.available ==>
                    y.flow.IsEof() || y.flow.result.IoWouldBlock? || (y.world == w && w.c.writeBuf == []))
              && (!f.available ==> y.world == w && y.flow == f)
  {
    hide Move, Inv, Drained, TxWorldOf, PendingLength;
    if f.available && Room(w, Writing) > 0 { MoveIsWell(env, w, Writing); }
  }

  lemma PassSends(env: Env, w: World, s: Loop)
    requires WorldValid(s.world) && s.world.c.error.None? && SendingFrom(w, s)
    ensures var t := Pass(env, s, Output); t.world.c.error.None? ==> WorldValid(t.world) && SendingFrom(w, t)
  {
    hide Exec, Inv, Drained, Budget;
    ProducerSends(env, w, s);
    ExecKeepsValid(env, s.world, s.input, Encoding);
    var x := Exec(env, s.world, s.input, Encoding);
    if x.world.c.error.None? {
      ConsumerSends(env, x.world, s.output);
      WriteBounded(x.world);
    }
  }

  lemma WriteBounded(w: World)
    requires WorldValid(w)
    ensures |w.c.writeBuf| <= w.c.writeCap
  {
    hide Inv;
    InvCommon(w.c);
  }

  lemma {:induction false} LoopSends(env: Env, w: World, s: Loop)
    requires WorldValid(s.world) && s.world.c.error.None? && SendingFrom(w, s)
    ensures var r := RunLoop(env, s, Output);
            r.world.c.error.None? ==> SendingFrom(w, r) && !r.input.available && !r.output.available
    decreases Budget(s.world, Output), if s.input.available || s.output.available then 1 else 0
  {
    hide Pass, Inv, SendingFrom, Budget;
    if s.input.available || s.output.available {
      PassSends(env, w, s);
      PassKeepsValid(env, s, Output);
      var t := Pass(env, s, Output);
      if t.world.c.error.None? { LoopSends(env, w, t); }
    }
  }

  predicate Blocked(o: Outcome) { o.status.BlockConn? || o.status.BlockData? }

  /** An output transfer. It fails exactly when the client has an error; it ends exactly when the encoder or
      the connection reported the end of the stream; otherwise it blocks on the connection exactly when
      bytes are left, which the connection has just refused to take, or when the buffer was full to begin
      with, and if not, nothing is left to send. A closed client gets there only with a full buffer. */
  ghost predicate SendsWell(w: World, o: Outcome)
  {
    && WorldValid(o.world)
    && (o.status.Broken? <==> o.world.c.error.Some?)
    && (o.status.Ready? ==>
         (o.input.IsEof() || o.output.IsEof()) && IsInitial(o.world.c) && o.world.c.conn.entries == [])
    && (Blocked(o) ==>
          && !o.input.IsEof() && !o.output.IsEof()
          && o.world.c.closed == w.c.closed && SameInput(o.world, w) && o.world.c.writeCap == w.c.writeCap
          && (o.status.BlockConn? <==> o.world.c.writeBuf != [] || WriteFull(w))
          && (o.world.c.writeBuf != [] ==> o.output.result.IoWouldBlock?)
          && (o.status.BlockData? ==> o.input.result.IoWouldBlock? && Drained(o.world.c) && o.world.c.writeBuf == [])
          && (w.c.closed ==> WriteFull(w)))
  }

  /** The report of a loop: broken with the client, ready at the end of a stream, otherwise blocked in the
      world the loop ended in. */
  ghost predicate Reports(s: Loop, d: Direction, o: Outcome)
  {
    && WorldValid(o.world) && o.input == s.input && o.output == s.output
    && (o.status.Broken? <==> o.world.c.error.Some?)
    && (o.status.Broken? <==> s.world.c.error.Some?)
    && (o.status.Ready? <==> s.world.c.error.None? && (s.input.IsEof() || s.output.IsEof()))
    && (o.status.Ready? ==> IsInitial(o.world.c) && o.world.c.conn.entries == [])
    && (Blocked(o) ==>
          && SameButTime(o.world, s.world) && (s.input.stale && s.output.stale ==> o.world == s.world)
          && o.status
             == BlockOf(if s.input.result.IoWouldBlock? && Empty(s.world, d) then Producer(d) else Consumer(d)))
  }

  lemma ReportMeans(env: Env, s: Loop, d: Direction)
    requires WorldValid(s.world)
    ensures Reports(s, d, Report(env, s, d))
  {
    hide Inv, Drained, HasUnsent, IsInitial, Stamped, Ended, Total, OnWire, Sized;
    if s.world.c.error.None? {
      StampedKeepsValid(env, s.world, s.ops);
      EndedKeepsValid(env, s.world, s.ops);
      var (v, all) := Stamped(env, s.world, s.ops);
      EndedKeepsValid(env, v, all);
    }
  }

  lemma OutputMeans(env: Env, w: World)
    requires WorldValid(w)
    ensures SendsWell(w, Transfer(env, w, Output))
  {
    hide Inv, RunLoop, Drained, HasUnsent, IsInitial, Report, WorldValid, Total, PendingLength;
    if w.c.error.None? {
      var start := Loop(w, [], FRESH, FRESH);
      LoopSends(env, w, start);
      ReportMeans(env, RunLoop(env, start, Output), Output);
    }
  }

  // ----- what an input transfer means -----

  predicate SameCaps(c: Client, d: Client) { c.readCap == d.readCap && c.writeCap == d.writeCap }

  predicate ReadFull(w: World) { w.held >= w.c.readCap }

  /** Holds in front of every pass of an input transfer that started in `w`. */
  ghost predicate ReceivingFrom(w: World, s: Loop)
  {
    && s.world.c.closed == w.c.closed && s.world.c.writeBuf == w.c.writeBuf && SameCaps(s.world.c, w.c)
    && Budget(s.world, Input) <= Budget(w, Input) && (Budget(s.world, Input) == Budget(w, Input) ==> s.world.c == w.c)
    && !s.input.result.IoError? && !s.output.result.IoError? && !s.output.IsEof() && !s.output.result.IoWouldBlock?
    && (s.input.available ==> s.output.available && !s.input.result.IoWouldBlock?)
    && (if s.input == FRESH then s.world == w && s.output == FRESH else s.world.held == 0)
    && (!s.input.available ==> s.input.result.IoWouldBlock? || s.input.IsEof() || ReadFull(w))
    && ((s.input.stale && s.output.stale) || Budget(s.world, Input) < Budget(w, Input))
    && (ReadFull(w) && s.input != FRESH ==> s.input.result.IoSuccess? && s.input.count == -1 && !s.input.available)
  }

  lemma ProducerReceives(env: Env, s: World, f: Flow)
    requires WorldValid(s) && s.c.error.None?
    ensures var x := Exec(env, s, f, Reading);
            x.world.c.error.None? ==>
              && WorldValid(x.world) && x.world.c.closed == s.c.closed && x.world.c.writeBuf == s.c.writeBuf
              && SameCaps(x.world.c, s.c)
              && Budget(x.world, Input) <= Budget(s, Input) && x.world.held >= s.held
              && (x.world.held == s.held ==> x.world.c == s.c) && x.flow.stale == (f.stale && !x.flow.available)
              && (x.world.held > s.held ==> Budget(x.world, Input) < Budget(s, Input))
              && (if f.available && !ReadFull(s)
                  then !x.flow.result.IoError? && x.flow.count >= 0 && x.world.held == s.held + x.flow.count
                       && (x.flow.available <==> x.flow.result.IoSuccess? && x.flow.count > 0)
                  else x.world == s && x.flow == f.(available := false))
  {
    hide Move, Inv, Total;
    if f.available && Room(s, Reading) > 0 { MoveIsWell(env, s, Reading); }
  }

  lemma ConsumerReceives(env: Env, s: World, f: Flow)
    requires WorldValid(s) && s.c.error.None?
    ensures var y := Exec(env, s, f, Decoding);
            y.world.c.error.None? ==>
              && WorldValid(y.world) && y.world.c.closed == s.c.closed && y.world.c.writeBuf == s.c.writeBuf
              && SameCaps(y.world.c, s.c) && y.flow.stale == (f.stale && !y.flow.available)
              && (if f.available && s.held > 0
                  then Budget(y.world, Input) < Budget(s, Input) && y.world.held == 0
                       && y.flow.available && y.flow.result.IoSuccess? && y.flow.count > 0
                  else y.world == s && y.flow == f.(available := false))
  {
    hide Move, Inv, Total;
    if f.available && Room(s, Decoding) > 0 { MoveIsWell(env, s, Decoding); }
  }

  lemma PassReceives(env: Env, w: World, s: Loop)
    requires WorldValid(s.world) && s.world.c.error.None? && ReceivingFrom(w, s)
             && (s.input.available || s.output.available)
    ensures var t := Pass(env, s, Input);
            t.world.c.error.None? ==>
                WorldValid(t.world) && ReceivingFrom(w, t) && t.world.held == 0 && t.input != FRESH
  {
    hide Exec, Inv, Budget;
    ProducerReceives(env, s.world, s.input);
    ExecKeepsValid(env, s.world, s.input, Reading);
    var x := Exec(env, s.world, s.input, Reading);
    if x.world.c.error.None? { ConsumerReceives(env, x.world, s.output); }
  }

  lemma {:induction false} LoopReceives(env: Env, w: World, s: Loop)
    requires WorldValid(s.world) && s.world.c.error.None? && ReceivingFrom(w, s)
    ensures var r := RunLoop(env, s, Input);
            r.world.c.error.None? ==>
              && ReceivingFrom(w, r) && !r.input.available && !r.output.available
              && (s.input.available || s.output.available || (s.world.held == 0 && s.input != FRESH) ==>
                    r.world.held == 0 && r.input != FRESH)
    decreases Budget(s.world, Input), if s.input.available || s.output.available then 1 else 0
  {
    hide Pass, Inv, ReceivingFrom, Budget;
    if s.input.available || s.output.available {
      PassReceives(env, w, s);
      PassKeepsValid(env, s, Input);
      var t := Pass(env, s, Input);
      if t.world.c.error.None? { LoopReceives(env, w, t); }
    }
  }

  /** An input transfer. It fails exactly when the client has an error; it ends exactly when the connection
      reported the end of the stream; otherwise everything read is decoded, and it blocks on the
      connection, which has just had nothing more to give, exactly when the read buffer had room to begin
      with. When no byte moved the client is unchanged. */
  ghost predicate ReceivesWell(w: World, o: Outcome)
  {
    && WorldValid(o.world)
    && (o.status.Broken? <==> o.world.c.error.Some?)
    && (o.status.Ready? ==> o.input.IsEof() && IsInitial(o.world.c) && o.world.c.conn.entries == [])
    && (Blocked(o) ==>
          && !o.input.IsEof() && o.world.held == 0
          && o.world.c.closed == w.c.closed && o.world.c.writeBuf == w.c.writeBuf && SameCaps(o.world.c, w.c)
          && (o.status.BlockConn? <==> !ReadFull(w)) && (o.status.BlockConn? ==> o.input.result.IoWouldBlock?)
          && Budget(o.world, Input) <= Budget(w, Input)
          && (Budget(o.world, Input) == Budget(w, Input) ==> o.world.c == w.c))
  }

  lemma InputMeans(env: Env, w: World)
    requires WorldValid(w)
    ensures ReceivesWell(w, Transfer(env, w, Input))
  {
    hide Inv, RunLoop, Drained, HasUnsent, IsInitial, Report, WorldValid, Total, PendingLength;
    if w.c.error.None? {
      var start := Loop(w, [], FRESH, FRESH);
      LoopReceives(env, w, start);
      ReportMeans(env, RunLoop(env, start, Input), Input);
    }
  }

  // ----- which error -----

  /** A transfer that is still going on has seen no failure; afterwards a failed read or write names itself. */
  predicate NamesFailure(d: Direction, error: Option<Error>, input: Flow, output: Flow)
  {
    if error.None? then !input.result.IoError? && !output.result.IoError?
    else if d.Input? then input.result.IoError? ==> error == Some(ConnectionRead)
    else output.result.IoError? ==> error == Some(ConnectionWrite)
  }

  lemma ExecNamesFailure(env: Env, w: World, f: Flow, e: Wrapper)
    requires WorldValid(w) && w.c.error.None? && !f.result.IoError?
    ensures var x := Exec(env, w, f, e);
            && (x.world.c.error.None? ==> !x.flow.result.IoError?)
            && (x.flow.result.IoError? && e.Reading? ==> x.world.c.error == Some(ConnectionRead))
            && (x.flow.result.IoError? && e.Writing? ==> x.world.c.error == Some(ConnectionWrite))
  {
    hide Move, Inv, Run;
    if f.available && Room(w, e) > 0 { MoveIsWell(env, w, e); }
  }

  lemma PassNamesFailure(env: Env, s: Loop, d: Direction)
    requires WorldValid(s.world) && s.world.c.error.None? && NamesFailure(d, None, s.input, s.output)
    ensures var t := Pass(env, s, d); NamesFailure(d, t.world.c.error, t.input, t.output)
  {
    hide Exec, Inv, WorldValid;
    ExecNamesFailure(env, s.world, s.input, Producer(d));
    ExecKeepsValid(env, s.world, s.input, Producer(d));
    var x := Exec(env, s.world, s.input, Producer(d));
    if x.world.c.error.None? { ExecNamesFailure(env, x.world, s.output, Consumer(d)); }
  }

  lemma {:induction false} LoopNamesFailure(env: Env, s: Loop, d: Direction)
    requires WorldValid(s.world) && s.world.c.error.None? && NamesFailure(d, None, s.input, s.output)
    ensures var r := RunLoop(env, s, d); NamesFailure(d, r.world.c.error, r.input, r.output)
    decreases Budget(s.world, d), if s.input.available || s.output.available then 1 else 0
  {
    hide Pass, WorldValid, Budget, NamesFailure;
    if s.input.available || s.output.available {
      PassKeepsValid(env, s, d);
      PassNamesFailure(env, s, d);
      var t := Pass(env, s, d);
      if t.world.c.error.None? { LoopNamesFailure(env, t, d); }
    }
  }

  /** A read that fails is a read error of the client, a write that fails is a write error. */
  lemma FailuresAreNamed(env: Env, w: World, d: Direction)
    requires WorldValid(w) && w.c.error.None?
    ensures var o := Transfer(env, w, d);
            && (d.Input? && o.input.result.IoError? ==> o.world.c.error == Some(ConnectionRead))
            && (d.Output? && o.output.result.IoError? ==> o.world.c.error == Some(ConnectionWrite))
  {
    hide RunLoop, WorldValid, Stamped, Ended;
    LoopNamesFailure(env, Loop(w, [], FRESH, FRESH), d);
  }

  // ----- the steps are the run -----

  lemma ExecIsRun(env: Env, c: Client, ops: seq<Op>, w: World, f: Flow, e: Wrapper)
    requires Inv(c) && w.c == Run(env, c, ops) && WorldValid(w) && w.c.error.None?
    ensures var x := Exec(env, w, f, e); WorldValid(x.world) && x.world.c == Run(env, c, ops + x.ops)
  {
    hide Exec, Inv, Run;
    ExecKeepsValid(env, w, f, e);
    RunAppend(env, c, ops, Exec(env, w, f, e).ops);
  }

  lemma PassIsRun(env: Env, c: Client, s: Loop, d: Direction)
    requires Inv(c) && s.world.c == Run(env, c, s.ops) && WorldValid(s.world) && s.world.c.error.None?
    ensures var t := Pass(env, s, d); t.world.c == Run(env, c, t.ops)
  {
    hide Exec, Inv, Run;
    ExecIsRun(env, c, s.ops, s.world, s.input, Producer(d));
    var x := Exec(env, s.world, s.input, Producer(d));
    if x.world.c.error.None? { ExecIsRun(env, c, s.ops + x.ops, x.world, s.output, Consumer(d)); }
  }

  lemma {:induction false} LoopIsRun(env: Env, c: Client, s: Loop, d: Direction)
    requires Inv(c) && s.world.c == Run(env, c, s.ops) && WorldValid(s.world) && s.world.c.error.None?
    ensures var r := RunLoop(env, s, d); r.world.c == Run(env, c, r.ops)
    decreases Budget(s.world, d), if s.input.available || s.output.available then 1 else 0
  {
    hide Pass, Inv, Run, Budget;
    if s.input.available || s.output.available {
      PassIsRun(env, c, s, d);
      PassKeepsValid(env, s, d);
      var t := Pass(env, s, d);
      if t.world.c.error.None? { LoopIsRun(env, c, t, d); }
    }
  }

  /** A transfer is a run of the session machine. */
  lemma TransferIsRun(env: Env, w: World, d: Direction)
    requires WorldValid(w)
    ensures var o := Transfer(env, w, d); o.world.c == Run(env, w.c, o.ops)
  {
    hide Inv, RunLoop, Run, Stamped, Ended;
    NoSteps(env, w.c);
    if w.c.error.None? {
      LoopIsRun(env, w.c, Loop(w, [], FRESH, FRESH), d);
      var s := RunLoop(env, Loop(w, [], FRESH, FRESH), d);
      if s.world.c.error.None? {
        TimeSteps(env, w.c, s.world, s.ops);
        StampedKeepsValid(env, s.world, s.ops);
        var (v, all) := Stamped(env, s.world, s.ops);
        TimeSteps(env, w.c, v, all);
      }
    }
  }

  lemma NoSteps(env: Env, c: Client)
    requires Inv(c)
    ensures Run(env, c, []) == c
  {
  }

  lemma TimeSteps(env: Env, c: Client, w: World, ops: seq<Op>)
    requires Inv(c) && WorldValid(w) && w.c == Run(env, c, ops)
    ensures var (v, all) := Stamped(env, w, ops); v.c == Run(env, c, all)
    ensures var (v, all) := Ended(env, w, ops); v.c == Run(env, c, all)
  {
    hide Inv, Run;
    var now := Tick(w.net).1;
    RunAppend(env, c, ops, [Op.Touch(now)]);
    RunAppend(env, c, ops, [Eof(now)]);
  }

  // ----- run_once -----

  /** `client_keep_alive`. The clock is asked only while the timer of the current store runs. */
  function KeepAliveMove(env: Env, w: World): (r: (World, seq<Op>))
    requires WorldValid(w)
  {
    if w.c.error.Some? || !StoreOf(w.c, w.c.current).TimerRuns() then (w, [])
    else
      var (net, now) := Tick(w.net);
      (Settled(w.(c := Run(env, w.c, [KeepAlive(now)]), net := net)), [KeepAlive(now)])
  }

  /** With the timer stopped the time does not matter; otherwise the client fails when a response is overdue,
      and queues a PINGREQ when nothing is queued and the line was idle. */
  lemma KeepAliveMeans(env: Env, w: World)
    requires WorldValid(w)
    ensures var (v, ops) := KeepAliveMove(env, w);
            && WorldValid(v) && v.c == Run(env, w.c, ops)
            && (v.c.error.None? ==>
                  w.c.error.None? && v.c.closed == w.c.closed && v.c.writeBuf == w.c.writeBuf && v.held == w.held
                  && v.c.writeCap == w.c.writeCap && v.c.readCap == w.c.readCap && v.net.incoming == w.net.incoming)
    ensures WellStored(w.c)
            && (w.c.error.None? ==> KeepAliveMove(env, w).0.c == KeepAliveStep(w.c, w.net.clock(w.net.ticks)))
  {
    hide Inv, Run, KeepAliveStep;
    InvCommon(w.c);
    NoSteps(env, w.c);
    var now := w.net.clock(w.net.ticks);
    RunOne(env, w.c, KeepAlive(now));
    RunKeepsInv(env, w.c, [KeepAlive(now)]);
    if !StoreOf(w.c, w.c.current).TimerRuns() { StoppedTimer(w.c, now); }
    KeepAliveFrame(w.c, now);
  }

  lemma StoppedTimer(c: Client, now: Time)
    requires !StoreOf(c, c.current).TimerRuns()
    ensures KeepAliveStep(c, now) == c
  {
  }

  lemma KeepAliveFrame(c: Client, now: Time)
    ensures var d := KeepAliveStep(c, now);
            && d.rx == c.rx && d.readBuf == c.readBuf && d.writeBuf == c.writeBuf && d.readCap == c.readCap
            && d.audit.written == c.audit.written && d.audit.received == c.audit.received && d.writeCap == c.writeCap
               && (d.error.None? ==> c.error.None? && d.closed == c.closed)
  {
    hide StoreState.GetTimeout;
  }

  datatype Ran = Ran(world: World, ops: seq<Op>, result: RunResult)

  datatype CycleDone = CycleDone(world: World, ops: seq<Op>, again: bool, result: RunResult)

  /** One round of `run_once`: output, then input. Again if the input left something to send on a
      connection that was drained and is not blocked. */
  function CycleOf(env: Env, w: World): CycleDone
    requires WorldValid(w) && w.c.error.None?
  {
    OutputMeans(env, w);
    var out := Transfer(env, w, Output);
    if out.status.Ready? then CycleDone(out.world, out.ops, false, RunResult(None, true, false, true, false))
    else if out.status.Broken? then
      CycleDone(out.world, out.ops, false, RunResult(out.world.c.error, false, false, false, false))
    else
      var took := Transfer(env, out.world, Input);
      var ops := out.ops + took.ops;
      if took.status.Ready? then CycleDone(took.world, ops, false, RunResult(None, true, true, false, false))
      else if took.status.Broken? then
        CycleDone(took.world, ops, false, RunResult(took.world.c.error, false, false, false, false))
      else
        CycleDone(took.world, ops, !(out.status.BlockConn? || HasUnsent(out.world.c) || !HasUnsent(took.world.c)),
                  RunResult(None, false, took.status.BlockConn?, out.status.BlockConn?, took.world.c.main.Queueable()))
  }

  /** Another round has less to read than this one had. */
  lemma CycleShrinks(env: Env, w: World)
    requires WorldValid(w) && w.c.error.None?
    ensures var c := CycleOf(env, w);
            && WorldValid(c.world)
            && (c.again ==> c.world.c.error.None? && Budget(c.world, Input) < Budget(w, Input))
  {
    hide Inv, Transfer, IsInitial, Drained, HasUnsent, Total, PendingLength;
    OutputMeans(env, w);
    var out := Transfer(env, w, Output);
    if Blocked(out) { InputMeans(env, out.world); }
  }

  function Prefixed(ops: seq<Op>, r: Ran): Ran { r.(ops := ops + r.ops) }

  /** The loop of `run_once`. */
  function RunFrom(env: Env, w: World): (r: Ran)
    requires WorldValid(w) && w.c.error.None?
    decreases Budget(w, Input)
  {
    CycleShrinks(env, w);
    var c := CycleOf(env, w);
    if c.again then Prefixed(c.ops, RunFrom(env, c.world)) else Ran(c.world, c.ops, c.result)
  }

  /** `lmqtt_client_run_once`. */
  function RunOnce(env: Env, w: World): Ran
    requires WorldValid(w)
  {
    var (v, ops) := KeepAliveMove(env, w);
    KeepAliveMeans(env, w);
    if v.c.error.Some? then Ran(v, ops, RunResult(v.c.error, false, false, false, false))
    else
      var rest := RunFrom(env, v);
      rest.(ops := ops + rest.ops)
  }

  /** Which side ended tells the flag that comes with the end of the stream; a failed side hides the other. */
  lemma FirstTransfersReport(env: Env, w: World)
    requires WorldValid(w) && w.c.error.None?
    ensures var out := Transfer(env, w, Output);
            var r := RunFrom(env, w);
            WorldValid(out.world)
            && (out.status.Ready? ==> r == Ran(out.world, out.ops, RunResult(None, true, false, true, false)))
            && (out.status.Broken? ==> r.world == out.world && r.ops == out.ops && r.result.error == out.world.c.error)
            && (Blocked(out) ==>
                  var took := Transfer(env, out.world, Input);
                  && (took.status.Ready? ==>
                        r == Ran(took.world, out.ops + took.ops, RunResult(None, true, true, false, false)))
                  && (took.status.Broken? ==> r.world == took.world && r.ops == out.ops + took.ops
                                              && r.result.error == took.world.c.error))
  {
    hide Inv, Transfer, IsInitial, Drained, HasUnsent, Budget;
    OutputMeans(env, w);
  }

  /** What a call of `run_once` that starts its loop in `w` reports. */
  ghost predicate RunsWell(w: World, r: Ran)
  {
    && WorldValid(r.world) && r.result.error == r.world.c.error
    && (r.result.error.Some? ==> !r.result.eof && !r.result.connRd && !r.result.connWr && !r.result.queueable)
    && (r.result.eof ==>
          && r.result.error.None? && IsInitial(r.world.c) && r.world.c.conn.entries == []
          && r.result.connRd == !r.result.connWr && !r.result.queueable)
    && (r.result.error.None? && !r.result.eof ==>
          && (r.result.connWr <==> r.world.c.writeBuf != [] || WriteFull(w))
          && (!ReadFull(w) ==> r.result.connRd)
          && (r.result.queueable <==> r.world.c.main.Queueable())
          && (!r.result.connWr ==> !r.world.c.closed && !HasUnsent(r.world.c) && r.world.c.writeBuf == [])
          && r.world.held == 0)
  }

  lemma DrainedHasNothing(c: Client)
    requires Inv(c) && Drained(c)
    ensures !HasUnsent(c)
  {
    hide WellFormed, TxValid;
  }

  lemma {:induction false} RunFromMeans(env: Env, w: World)
    requires WorldValid(w) && w.c.error.None?
    ensures RunsWell(w, RunFrom(env, w)) && RunFrom(env, w).world.c == Run(env, w.c, RunFrom(env, w).ops)
    decreases Budget(w, Input)
  {
    hide Inv, Transfer, IsInitial, Run, Drained, HasUnsent, Total, PendingLength;
    OutputMeans(env, w);
    TransferIsRun(env, w, Output);
    var out := Transfer(env, w, Output);
    if Blocked(out) {
      InputMeans(env, out.world);
      TransferIsRun(env, out.world, Input);
      var took := Transfer(env, out.world, Input);
      RunAppend(env, w.c, out.ops, took.ops);
      if Drained(out.world.c) { DrainedHasNothing(out.world.c); }
      if Blocked(took) && !(out.status.BlockConn? || HasUnsent(out.world.c) || !HasUnsent(took.world.c)) {
        RunFromMeans(env, took.world);
        RunAppend(env, w.c, out.ops + took.ops, RunFrom(env, took.world).ops);
      }
    }
  }

  /** `run_once`, for every client, every connection and every application: it ends; it is a run of the
      session machine; its flags mean what they say; and unless it reports an error, the end of the stream
      or a blocked write, the client is open, the current store has nothing unsent and the write buffer is
      empty. */
  lemma RunOnceMeans(env: Env, w: World)
    requires WorldValid(w)
    ensures RunsWell(w, RunOnce(env, w)) && RunOnce(env, w).world.c == Run(env, w.c, RunOnce(env, w).ops)
  {
    hide Inv, RunFrom, IsInitial, Run, HasUnsent, KeepAliveMove;
    KeepAliveMeans(env, w);
    var (v, ops) := KeepAliveMove(env, w);
    if v.c.error.None? {
      RunFromMeans(env, v);
      RunAppend(env, w.c, ops, RunFrom(env, v).ops);
    }
  }

  // ----- decoding while closed -----

  lemma FullBufferSends(env: Env, w: World)
    requires WorldValid(w) && w.c.error.None? && WriteFull(w)
    ensures var o := Transfer(env, w, Output); o.world.c.error.None? ==> !o.input.IsEof()
  {
    hide Inv, RunLoop, Drained, Stamped, Ended;
    LoopSends(env, w, Loop(w, [], FRESH, FRESH));
    var s := RunLoop(env, Loop(w, [], FRESH, FRESH), Output);
    if s.world.c.error.None? {
      StampedKeepsValid(env, s.world, s.ops);
      var (v, all) := Stamped(env, s.world, s.ops);
      EndedKeepsValid(env, v, all);
      EndedKeepsValid(env, s.world, s.ops);
    }
  }

  /** When `run_once` reads and decodes on a closed client: exactly when the write buffer is full to begin
      with and the connection neither fails nor ends while it is written. Otherwise the output transfer is
      all that happens. */
  lemma WhenClosedClientDecodes(env: Env, w: World)
    requires WorldValid(w) && w.c.error.None? && w.c.closed
    ensures var o := Transfer(env, w, Output);
            && WorldValid(o.world)
            && (Blocked(o) <==> WriteFull(w) && o.world.c.error.None? && !o.output.IsEof())
            && (!Blocked(o) ==> RunFrom(env, w).ops == o.ops)
            && (Blocked(o) ==> o.ops + Transfer(env, o.world, Input).ops <= RunFrom(env, w).ops)
  {
    hide Inv, Transfer, IsInitial, Run, Drained, HasUnsent, Budget, RunFrom;
    OutputMeans(env, w);
    if WriteFull(w) { FullBufferSends(env, w); }
    OutputThenInput(env, w);
  }

  lemma OutputThenInput(env: Env, w: World)
    requires WorldValid(w) && w.c.error.None?
    ensures var o := Transfer(env, w, Output);
            && WorldValid(o.world) && (!Blocked(o) ==> RunFrom(env, w).ops == o.ops)
            && (Blocked(o) ==> o.ops + Transfer(env, o.world, Input).ops <= RunFrom(env, w).ops)
  {
    hide Inv, Transfer, IsInitial, Run, Drained, HasUnsent, Budget, SendsWell, ReceivesWell;
    OutputMeans(env, w);
    OutputValid(env, w);
  }

  lemma OutputValid(env: Env, w: World)
    requires WorldValid(w)
    ensures WorldValid(Transfer(env, w, Output).world)
  {
    hide Inv, Transfer, Drained, IsInitial;
    OutputMeans(env, w);
  }
}
