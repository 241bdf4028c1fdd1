/** What `run_once` does about time: it notices an overdue response before anything else, it sends a PINGREQ on an
    idle line, and it remembers when bytes were moved. */
module Timers {
  import opened Types
  import opened Clock
  import opened PacketStore
  import opened Wire
  import opened Transmit
  import opened TransmitRuns
  import opened Departures
  import opened Receive
  import opened ReceiveInvariant
  import opened Session
  import opened SessionInvariant
  import opened Reconnect
  import opened Resend
  import opened Connections
  import opened RunSteps
  import opened Platforms
  import opened Transfers
  import opened Qos2Send
  import opened KeepAlive

  // ----- an overdue response -----

  /** The time the clock gives next. */
  function NextTime(w: World): Time { w.net.clock(w.net.ticks) }

  /** `run_once` fails with `Timeout` before it touches the connection, when a response is overdue. */
  lemma OverdueFailsRunOnce(env: Env, w: World)
    requires WorldValid(w) && w.c.error.None? && Normal(NextTime(w)) && Normal(CurrentStore(w.c).lastTouch)
    requires ResponseOverdue(CurrentStore(w.c), NextTime(w))
    ensures var r := Transfers.RunOnce(env, w);
            && r.result == RunResult(Some(Timeout), false, false, false, false)
            && r.ops == [Op.KeepAlive(NextTime(w))] && r.world.net == w.net.(ticks := w.net.ticks + 1)
            && r.world.c == w.c.(error := Some(Timeout), closed := true, slots :=
               Slots(false, false, false, false, false, false))
  {
    hide Inv, RunFrom, KeepAliveStep, Run, StoreState.TimerRuns, ResponseOverdue, OnWire;
    KeepAliveMeans(env, w);
    WhenTimerActs(w.c, NextTime(w));
    OverdueRuns(w, NextTime(w));
  }

  lemma OverdueRuns(w: World, now: Time)
    requires ResponseOverdue(CurrentStore(w.c), now) || LineIdle(CurrentStore(w.c), now)
    ensures StoreOf(w.c, w.c.current).TimerRuns()
  {
  }

  // ----- the moves of run_once -----

  /** The steps that are no public call. */
  predicate IsMove(op: Op)
  {
    op.KeepAlive? || op.EncodeMore? || op.Write? || op.Read? || op.DecodeOne? || op.Touch? || op.Eof? || op.IoFail?
  }

  predicate OnlyMoves(ops: seq<Op>) { forall i :: 0 <= i < |ops| ==> IsMove(ops[i]) }

  lemma MovesTogether(a: seq<Op>, b: seq<Op>)
    requires OnlyMoves(a) && OnlyMoves(b)
    ensures OnlyMoves(a + b)
  {
  }

  lemma ExecMoves(env: Env, w: World, f: Flow, e: Wrapper)
    requires WorldValid(w) && w.c.error.None?
    ensures OnlyMoves(Exec(env, w, f, e).ops)
  {
    hide Run, Inv, Encoded;
  }

  lemma PassMoves(env: Env, s: Loop, d: Direction)
    requires WorldValid(s.world) && s.world.c.error.None? && OnlyMoves(s.ops)
    ensures OnlyMoves(Pass(env, s, d).ops)
  {
    hide Exec, WorldValid, OnlyMoves;
    ExecKeepsValid(env, s.world, s.input, Producer(d));
    ExecMoves(env, s.world, s.input, Producer(d));
    var x := Exec(env, s.world, s.input, Producer(d));
    MovesTogether(s.ops, x.ops);
    if x.world.c.error.None? {
      ExecMoves(env, x.world, s.output, Consumer(d));
      MovesTogether(s.ops + x.ops, Exec(env, x.world, s.output, Consumer(d)).ops);
    }
  }

  lemma {:induction false} LoopMoves(env: Env, s: Loop, d: Direction)
    requires WorldValid(s.world) && s.world.c.error.None? && OnlyMoves(s.ops)
    ensures OnlyMoves(RunLoop(env, s, d).ops)
    decreases Budget(s.world, d), if s.input.available || s.output.available then 1 else 0
  {
    hide Pass, WorldValid, OnlyMoves, Budget;
    if s.input.available || s.output.available {
      PassKeepsValid(env, s, d);
      PassMoves(env, s, d);
      var t := Pass(env, s, d);
      if t.world.c.error.None? { LoopMoves(env, t, d); }
    }
  }

  lemma TransferMoves(env: Env, w: World, d: Direction)
    requires WorldValid(w)
    ensures OnlyMoves(Transfer(env, w, d).ops)
  {
    hide RunLoop, WorldValid, Run;
    if w.c.error.None? {
      var s := Loop(w, [], FRESH, FRESH);
      LoopMoves(env, s, d);
      var r := RunLoop(env, s, d);
      if r.world.c.error.None? { StampedKeepsValid(env, r.world, r.ops); }
    }
  }

  lemma {:induction false} RunFromMoves(env: Env, w: World)
    requires WorldValid(w) && w.c.error.None?
    ensures OnlyMoves(RunFrom(env, w).ops)
    decreases Budget(w, Input)
  {
    hide Transfer, WorldValid, OnlyMoves, Budget, SendsWell;
    CycleShrinks(env, w);
    CycleMoves(env, w);
    var c := CycleOf(env, w);
    if c.again {
      RunFromMoves(env, c.world);
      MovesTogether(c.ops, RunFrom(env, c.world).ops);
    }
  }

  lemma CycleMoves(env: Env, w: World)
    requires WorldValid(w) && w.c.error.None?
    ensures OnlyMoves(CycleOf(env, w).ops)
  {
    hide Transfer, OnlyMoves, Inv, HasUnsent, IsInitial, Drained;
    OutputMeans(env, w);
    TransferMoves(env, w, Output);
    var out := Transfer(env, w, Output);
    if Blocked(out) {
      TransferMoves(env, out.world, Input);
      MovesTogether(out.ops, Transfer(env, out.world, Input).ops);
    }
  }

  // ----- the PINGREQ of an idle line -----

  predicate Connected(c: Client) { Inv(c) && IsConnected(c) }

  /** A PINGREQ is next to be sent, or was sent since the log had `base` events. */
  predicate Pinging(c: Client, base: nat)
    requires c.main.Valid()
  {
    || PingSent(c.log, base)
    || (c.main.pos < |c.main.entries| && c.main.entries[c.main.pos] == Entry(Pingreq, Value(0, 0, NoBody)))
  }

  predicate PingSent(log: seq<Event>, base: nat) { exists k :: base <= k < |log| && log[k] == Emitted(Pingreq, 0) }

  lemma ConnectedFactsToo(c: Client)
    requires Connected(c)
    ensures Online(c) && c.main.Valid() && c.conn.Valid() && c.current.Main? && c.txStore.Main? && c.error.None?
    ensures WellStored(c) && UnsentWellFormed(TxWorldOf(c).store)
            && TxWorldOf(c) == TxWorld(c.tx, c.main, c.encodes, c.log)
    ensures c.tx.error.None? && !c.closed
  {
    hide WellFormed, RxInv, TxValid;
    WellStoredUnsent(c, Main);
  }

  /** A closed client stays closed by itself. */
  lemma ClosedMoves(env: Env, c: Client, op: Op)
    requires Inv(c) && WellStored(c) && c.closed && IsMove(op)
    ensures Step(env, c, op).closed
  {
    hide Inv, WellStored, DecodeStep, Encode, SetStateInitial, StoreState.GetTimeout;
    InvCommon(c);
    match op {
      case DecodeOne => ClosedStaysClosed(env, c);
      case Eof(now) => InitialIsClosed(c, now);
      case _ =>
    }
  }

  /** A connected client that is not closed by a move is still connected. */
  lemma StaysConnected(env: Env, c: Client, op: Op)
    requires Connected(c) && WellStored(c) && IsMove(op) && !Step(env, c, op).closed
    ensures Connected(Step(env, c, op))
  {
    hide Inv, WellStored, DecodeStep, EncodeStep, SetStateInitial, KeepAliveStep, IsConnected, IsConnecting, IsOpen;
    ConnectedFactsToo(c);
    StepKeepsInv(env, c, op);
    match op {
      case DecodeOne => DecodeKeepsMain(env, c);
      case EncodeMore => EncodeKeepsCurrent(env, c);
      case KeepAlive(now) => KeepAliveKeepsCurrent(c, now);
      case Eof(now) => InitialIsClosed(c, now);
      case _ =>
    }
    OnlinePhase(Step(env, c, op));
  }

  lemma DecodeKeepsMain(env: Env, c: Client)
    requires Connected(c) && c.main.Valid() && c.conn.Valid()
    ensures DecodeStep(env, c).current.Main?
  {
    hide Inv, RxStep, FinishPacket, Received, HasEffect, WellFormed, RxComplete, RxInv, Common, SlotMatches;
    ConnectedFactsToo(c);
    if c.readBuf != [] {
      ConnectedFacts(c);
      DecodingFacts(c);
      var b := c.readBuf[0];
      var eff := ByteReceived(env, c, b);
      var next := WithLink(c, RxStep(env, LinkOf(c), b).link);
      if RxStep(env, LinkOf(c), b).call {
        SlotStaysResponse(next);
        CallbackIsQuiet(env, next);
      }
    }
  }

  lemma SendingPings(env: Env, c: Client, base: nat)
    requires Connected(c) && base <= |c.log| && c.main.Valid() && Pinging(c, base) && WellStored(c)
    requires Connected(EncodeStep(env, c))
    ensures EncodeStep(env, c).main.Valid() && Pinging(EncodeStep(env, c), base)
  {
    hide Inv, WellFormed, EncodeLoop, IsConnected, Waiting, Published, WellStored;
    ConnectedFactsToo(c);
    ConnectedFactsToo(EncodeStep(env, c));
    if |c.writeBuf| < c.writeCap {
      var room := c.writeCap - |c.writeBuf|;
      var es := CallSends(env, TxWorldOf(c), room);
      var v := EncodeLoop(env, TxWorldOf(c), room).world;
      if PingSent(c.log, base) {
        var k :| base <= k < |c.log| && c.log[k] == Emitted(Pingreq, 0);
        assert v.log[k] == Emitted(Pingreq, 0);
      } else if es != [] {
        assert es[0] == Unsent(TxWorldOf(c))[0];
        assert Reported(es)[0] == Emitted(Pingreq, 0);
        assert v.log[|c.log|] == Emitted(Pingreq, 0);
      } else {
        assert [] + Unsent(v) == Unsent(v) && Unsent(v)[0] == Unsent(TxWorldOf(c))[0];
      }
    }
  }

  lemma StepKeepsPing(env: Env, c: Client, op: Op, base: nat)
    requires Connected(c) && WellStored(c) && IsMove(op) && base <= |c.log| && c.main.Valid() && Pinging(c, base)
    requires Connected(Step(env, c, op))
    ensures var d := Step(env, c, op); d.main.Valid() && base <= |d.log| && Pinging(d, base)
  {
    hide Inv, WellStored, DecodeStep, EncodeStep, SetStateInitial, KeepAliveStep, IsConnected, Queues, CompletesPubcomp,
         CallsBack;
    var d := Step(env, c, op);
    ConnectedFactsToo(c);
    ConnectedFactsToo(d);
    if op.EncodeMore? {
      SendingPings(env, c, base);
      LogGrows(env, c);
    } else {
      if op.Eof? { InitialIsClosed(c, op.now); }
      OthersAreQuiet(env, c, op);
      StepCompletesOnPubcomp(env, c, op);
      LogOfCallback(c, d, op);
      if PingSent(c.log, base) {
        var k :| base <= k < |c.log| && c.log[k] == Emitted(Pingreq, 0);
        assert d.log[k] == Emitted(Pingreq, 0);
      } else {
        assert Unsent(TxWorldOf(d))[0] == Unsent(TxWorldOf(c))[0];
      }
    }
  }

  lemma LogOfCallback(c: Client, d: Client, op: Op)
    requires c.main.Valid()
    requires if op.DecodeOne? && c.readBuf != [] && CompletesPubcomp(c, c.readBuf[0])
             then CallsBack(c, c.readBuf[0], d.log) else NoQos2Callback(c.log, d.log)
    ensures c.log <= d.log
  {
    hide CompletesPubcomp;
  }

  lemma LogGrows(env: Env, c: Client)
    requires Connected(c) && WellStored(c)
    ensures c.log <= EncodeStep(env, c).log
  {
    hide Inv, WellFormed, EncodeLoop, IsConnected, Waiting, Published, Reported, WellStored;
    ConnectedFactsToo(c);
    if |c.writeBuf| < c.writeCap { var es := CallSends(env, TxWorldOf(c), c.writeCap - |c.writeBuf|); }
  }

  lemma {:induction false} RunKeepsPing(env: Env, c: Client, ops: seq<Op>, base: nat)
    requires Connected(c) && OnlyMoves(ops) && base <= |c.log| && c.main.Valid() && Pinging(c, base)
    requires !Run(env, c, ops).closed
    ensures var d := Run(env, c, ops); Connected(d) && d.main.Valid() && Pinging(d, base)
    decreases |ops|
  {
    hide Inv, WellStored, Step, Pinging, IsConnected;
    if ops != [] {
      StepKeepsInv(env, c, ops[0]);
      var d := Step(env, c, ops[0]);
      if d.closed { ClosedRun(env, d, ops[1..]); }
      StaysConnected(env, c, ops[0]);
      StepKeepsPing(env, c, ops[0], base);
      RunKeepsPing(env, d, ops[1..], base);
    }
  }

  lemma {:induction false} ClosedRun(env: Env, c: Client, ops: seq<Op>)
    requires Inv(c) && c.closed && OnlyMoves(ops)
    ensures Run(env, c, ops).closed
    decreases |ops|
  {
    hide Inv, WellStored, Step;
    if ops != [] {
      StepKeepsInv(env, c, ops[0]);
      ClosedMoves(env, c, ops[0]);
      ClosedRun(env, Step(env, c, ops[0]), ops[1..]);
    }
  }

  /** A connected client on an idle line sends a PINGREQ: whenever `run_once` reports no error, no end of the
      stream and no blocked write, the PINGREQ was sent by this call, and nothing is left to send. */
  lemma IdleRunOncePings(env: Env, w: World)
    requires WorldValid(w) && IsConnected(w.c) && Normal(NextTime(w)) && Normal(w.c.main.lastTouch)
    requires LineIdle(w.c.main, NextTime(w)) && 0 < w.c.main.capacity
    ensures var r := Transfers.RunOnce(env, w);
            r.result.error.None? && !r.result.eof && !r.result.connWr ==>
              PingSent(r.world.c.log, |w.c.log|) && r.world.c.writeBuf == []
  {
    hide Inv, RunFrom, Run, KeepAliveStep, KeepAliveMove, LineIdle, IsConnected, PingSent, IsInitial;
    ConnectedFactsToo(w.c);
    KeepAliveMeans(env, w);
    IdleIsEmpty(w.c, NextTime(w));
    WhenTimerActs(w.c, NextTime(w));
    var (v, ops) := KeepAliveMove(env, w);
    assert v.c == w.c.(main := w.c.main.(entries := [Entry(Pingreq, Value(0, 0, NoBody))]));
    PingIsNext(w.c, v.c);
    RunFromMoves(env, v);
    RunFromMeans(env, v);
    var r := RunFrom(env, v);
    if r.result.error.None? && !r.result.eof && !r.result.connWr {
      RunKeepsPing(env, v.c, r.ops, |w.c.log|);
      ConnectedFactsToo(r.world.c);
    }
  }

  lemma IdleIsEmpty(c: Client, now: Time)
    requires c.main.Valid()
    ensures LineIdle(c.main, now) ==> c.main.entries == [] && c.main.pos == 0 && !ResponseOverdue(c.main, now)
  {
  }

  lemma PingIsNext(c: Client, d: Client)
    requires IsConnected(c) && Inv(d) && d.error.None? && c.main.pos == 0
    requires d == c.(main := c.main.(entries := [Entry(Pingreq, Value(0, 0, NoBody))]))
    ensures Connected(d) && d.main.Valid() && Pinging(d, |c.log|)
  {
    hide WellFormed, RxInv;
  }

  // ----- the time of the last traffic -----

  /** Nothing but the script and what was sent or given changes. */
  ghost predicate SameClock(v: World, w: World) { v.net.ticks == w.net.ticks && v.net.clock == w.net.clock }

  /** The bytes that were ever encoded: those that were sent, and those that wait. */
  function Outgoing(w: World): nat { |w.net.sent| + |w.c.writeBuf| }

  lemma EncodeTraffic(env: Env, w: World)
    requires WorldValid(w) && w.c.error.None? && |w.c.writeBuf| < w.c.writeCap
    ensures var m := EncodeMove(env, w);
            && SameClock(m.world, w) && CurrentStore(m.world.c).lastTouch == CurrentStore(w.c).lastTouch
            && m.world.net == w.net && Outgoing(m.world) == Outgoing(w) + m.cnt
  {
    hide Inv, Run, Encode, WellStored, UnsentWellFormed;
    InvCommon(w.c);
    ReadyToEncode(w.c);
    RunOne(env, w.c, EncodeMore);
    StepEncodes(env, w.c);
    EncodeKeepsTime(env, w.c);
    hide Step;
  }

  lemma EncodeKeepsTime(env: Env, c: Client)
    requires Inv(c) && c.error.None? && UnsentWellFormed(TxWorldOf(c).store) && |c.writeBuf| < c.writeCap
    ensures CurrentStore(Encoded(env, c).0).lastTouch == CurrentStore(c).lastTouch
    ensures Encoded(env, c).0.current == c.current
  {
    hide EncodeLoop, TxValid, WellFormed, RxInv;
    InvCommon(c);
    WellStoredUnsent(c, c.txStore);
    if c.tx.error.None? { EncodeKeepsStore(env, TxWorldOf(c), c.writeCap - |c.writeBuf|); }
  }

  lemma WriteTraffic(env: Env, w: World)
    requires WorldValid(w) && w.c.error.None?
    ensures var m := WriteMove(env, w);
            && SameClock(m.world, w) && CurrentStore(m.world.c).lastTouch == CurrentStore(w.c).lastTouch
            && Outgoing(m.world) == Outgoing(w) && |m.world.net.sent| == |w.net.sent| + m.cnt
  {
    hide Inv, WellStored, Step, Run, FailWith;
    InvCommon(w.c);
    var (net, io, n) := ServeWrite(w.net, w.c.writeBuf);
    TwoSteps(env, w.c, Write(n), Stopped(io, ConnectionWrite));
    WriteStep(env, w.c, n);
    FailStep(env, Written(w.c, n), ConnectionWrite);
    FailKeepsTime(Written(w.c, n), ConnectionWrite);
  }

  lemma FailKeepsTime(c: Client, e: Error)
    ensures CurrentStore(FailWith(c, e)) == CurrentStore(c) && FailWith(c, e).writeBuf == c.writeBuf
  {
  }

  lemma ReadTraffic(env: Env, w: World)
    requires WorldValid(w) && w.c.error.None?
    ensures var m := ReadMove(env, w);
            && SameClock(m.world, w) && CurrentStore(m.world.c).lastTouch == CurrentStore(w.c).lastTouch
            && |m.world.net.given| == |w.net.given| + m.cnt && (!m.io.IoError? ==> m.world.held == w.held + m.cnt)
  {
    hide Inv, WellStored, Step, Run, FailWith;
    InvCommon(w.c);
    var (net, io, bytes) := ServeRead(w.net, w.c.readCap - w.held);
    TwoSteps(env, w.c, Read(bytes), Stopped(io, ConnectionRead));
    ReadStep(env, w.c, bytes);
    FailStep(env, Fetched(w.c, bytes), ConnectionRead);
    FailKeepsTime(Fetched(w.c, bytes), ConnectionRead);
    Failing(Fetched(w.c, bytes), ConnectionRead);
  }

  /** In front of every pass of an output transfer that started in `w`: encoding with success counts as traffic
      exactly when it produced bytes, and writing only when bytes were sent. */
  ghost predicate SentFrom(w: World, s: Loop)
  {
    && SameClock(s.world, w) && CurrentStore(s.world.c).lastTouch == CurrentStore(w.c).lastTouch
    && Outgoing(w) <= Outgoing(s.world) && |w.net.sent| <= |s.world.net.sent|
    && (s.input.stale <==> Outgoing(s.world) == Outgoing(w))
    && (|s.world.net.sent| == |w.net.sent| ==> s.output.stale)
  }

  lemma EncodeCounts(env: Env, w: World)
    requires WorldValid(w) && w.c.error.None? && |w.c.writeBuf| < w.c.writeCap
    ensures var m := EncodeMove(env, w); m.io.IoWouldBlock? ==> m.cnt == 0
  {
    hide Inv, Run;
    EncodeSteps(env, w.c);
  }

  lemma EncodeEnd(env: Env, w: World, s: Loop)
    requires WorldValid(s.world) && s.world.c.error.None? && SentFrom(w, s)
    ensures var x := Exec(env, s.world, s.input, Encoding);
            x.world.c.error.None? ==> SentFrom(w, Loop(x.world, s.ops, x.flow, s.output))
  {
    hide Inv, Run, EncodeMove, Outgoing, CurrentStore, WorldValid;
    if s.input.available && Transfers.Room(s.world, Encoding) > 0 {
      EncodeTraffic(env, s.world);
      EncodeCounts(env, s.world);
      MoveIsWell(env, s.world, Encoding);
    }
  }

  lemma WriteEnd(env: Env, w: World, s: Loop)
    requires WorldValid(s.world) && s.world.c.error.None? && SentFrom(w, s)
    ensures var x := Exec(env, s.world, s.output, Writing);
            x.world.c.error.None? ==> SentFrom(w, Loop(x.world, s.ops, s.input, x.flow))
  {
    hide Inv, Run, WriteMove, Outgoing, CurrentStore, WorldValid;
    WriteTraffic(env, s.world);
    if Transfers.Room(s.world, Writing) > 0 { MoveIsWell(env, s.world, Writing); }
  }

  lemma OutputPass(env: Env, w: World, s: Loop)
    requires WorldValid(s.world) && s.world.c.error.None? && SentFrom(w, s)
    ensures var t := Pass(env, s, Output); t.world.c.error.None? ==> SentFrom(w, t)
  {
    hide Exec, SentFrom, WorldValid;
    ExecKeepsValid(env, s.world, s.input, Encoding);
    EncodeEnd(env, w, s);
    var x := Exec(env, s.world, s.input, Encoding);
    if x.world.c.error.None? {
      var mid := Loop(x.world, s.ops, x.flow, s.output);
      WriteEnd(env, w, mid);
      OpsDoNotMatter(w, Loop(Exec(env, x.world, s.output, Writing).world, s.ops, x.flow,
        Exec(env, x.world, s.output, Writing).flow),
                     Pass(env, s, Output));
    }
  }

  lemma OpsDoNotMatter(w: World, s: Loop, t: Loop)
    requires t == s.(ops := t.ops)
    ensures SentFrom(w, t) == SentFrom(w, s) && GivenFrom(w, t) == GivenFrom(w, s)
  {
  }

  lemma {:induction false} OutputLoop(env: Env, w: World, s: Loop)
    requires WorldValid(s.world) && s.world.c.error.None? && SentFrom(w, s)
    ensures var r := RunLoop(env, s, Output); r.world.c.error.None? ==> SentFrom(w, r)
    decreases Budget(s.world, Output), if s.input.available || s.output.available then 1 else 0
  {
    hide Pass, WorldValid, SentFrom, Budget;
    if s.input.available || s.output.available {
      PassKeepsValid(env, s, Output);
      OutputPass(env, w, s);
      var t := Pass(env, s, Output);
      if t.world.c.error.None? { OutputLoop(env, w, t); }
    }
  }

  /** Touching sets the time of the current store, and nothing else of it. */
  lemma StampTime(env: Env, w: World, ops: seq<Op>)
    requires WorldValid(w) && w.c.error.None?
    ensures var v := Stamped(env, w, ops).0;
            && CurrentStore(v.c) == CurrentStore(w.c).(lastTouch := NextTime(w)) && v.c.current == w.c.current
            && v.net == w.net.(ticks := w.net.ticks + 1) && v.c.writeBuf == w.c.writeBuf && v.held == w.held
  {
    hide Inv, WellStored, Run;
    InvCommon(w.c);
    RunOne(env, w.c, Op.Touch(NextTime(w)));
    TouchIs(env, w.c, NextTime(w));
    hide Step;
  }

  lemma TouchIs(env: Env, c: Client, now: Time)
    requires WellStored(c) && c.error.None?
    ensures var d := Step(env, c, Op.Touch(now));
            && CurrentStore(d) == CurrentStore(c).(lastTouch := now) && d.current == c.current
               && d.writeBuf == c.writeBuf
  {
    hide WellStored;
  }

  /** At the end of a stream the connect store is touched, at the last time the clock gave. */
  lemma EndTime(env: Env, w: World, ops: seq<Op>)
    requires WorldValid(w) && w.c.error.None?
    ensures Ended(env, w, ops).0.c.conn.lastTouch == NextTime(w) && Ended(env, w, ops).0.net.ticks == w.net.ticks + 1
  {
    hide Inv, WellStored, Run, SetStateInitial;
    InvCommon(w.c);
    RunOne(env, w.c, Eof(NextTime(w)));
    InitialTime(w.c, NextTime(w));
  }

  lemma InitialTime(c: Client, now: Time)
    requires c.main.Valid()
    ensures SetStateInitial(c, now).conn.lastTouch == now
  {
    hide KeepSession, FlushLog;
  }

  /** An output transfer that ends blocked: if bytes were encoded, the current store was touched at the time the
      clock gave; if none were encoded and none sent, the time of the last traffic is what it was. One that
      ends a stream touches the connect store. */
  lemma OutputTouches(env: Env, w: World)
    requires WorldValid(w) && w.c.error.None?
    ensures var o := Transfer(env, w, Output);
            && (Blocked(o) && Outgoing(o.world) > Outgoing(w) ==> CurrentStore(o.world.c).lastTouch == NextTime(w))
            && (Blocked(o) && Outgoing(o.world) == Outgoing(w) && |o.world.net.sent| == |w.net.sent| ==>
                  CurrentStore(o.world.c).lastTouch == CurrentStore(w.c).lastTouch)
            && (o.status.Ready? ==>
                  o.world.net.ticks > 0 && o.world.c.conn.lastTouch == w.net.clock(o.world.net.ticks - 1))
  {
    hide Inv, RunLoop, Stamped, Ended, WorldValid, CurrentStore, Run;
    var s := Loop(w, [], FRESH, FRESH);
    OutputLoop(env, w, s);
    var r := RunLoop(env, s, Output);
    if r.world.c.error.None? {
      StampTime(env, r.world, r.ops);
      StampedKeepsValid(env, r.world, r.ops);
      EndTime(env, r.world, r.ops);
      var (v, all) := Stamped(env, r.world, r.ops);
      EndTime(env, v, all);
    }
  }

  /** In front of every pass of an input transfer that started in `w`: decoding counts as traffic as soon as there
      was a byte to decode. */
  ghost predicate GivenFrom(w: World, s: Loop)
  {
    && SameClock(s.world, w) && |w.net.given| <= |s.world.net.given|
    && (s.output.stale ==>
          s.world.held == w.held + |s.world.net.given| - |w.net.given|
          && CurrentStore(s.world.c).lastTouch == CurrentStore(w.c).lastTouch)
    && (!s.output.stale ==> w.held + |s.world.net.given| - |w.net.given| > 0)
    && (!s.input.stale ==> |s.world.net.given| > |w.net.given|)
  }

  lemma ReadEnd(env: Env, w: World, s: Loop)
    requires WorldValid(s.world) && s.world.c.error.None? && GivenFrom(w, s)
    ensures var x := Exec(env, s.world, s.input, Reading);
            x.world.c.error.None? ==> GivenFrom(w, Loop(x.world, s.ops, x.flow, s.output))
  {
    hide Inv, Run, ReadMove, CurrentStore, WorldValid;
    ReadTraffic(env, s.world);
    if Transfers.Room(s.world, Reading) > 0 { MoveIsWell(env, s.world, Reading); }
  }

  lemma DecodeEnd(env: Env, w: World, s: Loop)
    requires WorldValid(s.world) && s.world.c.error.None? && GivenFrom(w, s)
    ensures var x := Exec(env, s.world, s.output, Decoding);
            x.world.c.error.None? ==> GivenFrom(w, Loop(x.world, s.ops, s.input, x.flow))
  {
    hide Inv, Run, DecodeMove, CurrentStore, WorldValid;
    DecodeCounts(env, s.world);
    if Transfers.Room(s.world, Decoding) > 0 { MoveIsWell(env, s.world, Decoding); }
  }

  lemma InputPass(env: Env, w: World, s: Loop)
    requires WorldValid(s.world) && s.world.c.error.None? && GivenFrom(w, s)
    ensures var t := Pass(env, s, Input); t.world.c.error.None? ==> GivenFrom(w, t)
  {
    hide Exec, GivenFrom, WorldValid;
    ExecKeepsValid(env, s.world, s.input, Reading);
    ReadEnd(env, w, s);
    var x := Exec(env, s.world, s.input, Reading);
    if x.world.c.error.None? {
      var mid := Loop(x.world, s.ops, x.flow, s.output);
      DecodeEnd(env, w, mid);
      var y := Exec(env, x.world, s.output, Decoding);
      OpsDoNotMatter(w, Loop(y.world, s.ops, x.flow, y.flow), Pass(env, s, Input));
    }
  }

  lemma DecodeCounts(env: Env, w: World)
    requires WorldValid(w)
    ensures var m := DecodeMove(env, w); m.cnt == w.held && !m.io.IoWouldBlock? && m.world.net == w.net
  {
    hide Inv, Run;
  }

  lemma {:induction false} InputLoop(env: Env, w: World, s: Loop)
    requires WorldValid(s.world) && s.world.c.error.None? && GivenFrom(w, s)
    ensures var r := RunLoop(env, s, Input); r.world.c.error.None? ==> GivenFrom(w, r)
    decreases Budget(s.world, Input), if s.input.available || s.output.available then 1 else 0
  {
    hide Pass, WorldValid, GivenFrom, Budget;
    if s.input.available || s.output.available {
      PassKeepsValid(env, s, Input);
      InputPass(env, w, s);
      var t := Pass(env, s, Input);
      if t.world.c.error.None? { InputLoop(env, w, t); }
    }
  }

  /** An input transfer that ends blocked: the current store, which is the main store once a CONNACK was decoded,
      was touched at the time the clock gave if and only if there was a byte to decode. */
  lemma InputTouches(env: Env, w: World)
    requires WorldValid(w) && w.c.error.None?
    ensures var o := Transfer(env, w, Input);
            && (Blocked(o) ==>
                  CurrentStore(o.world.c).lastTouch
                  == if w.held > 0 || |o.world.net.given| > |w.net.given| then NextTime(w)
                     else CurrentStore(w.c).lastTouch)
            && (o.status.Ready? ==>
                  o.world.net.ticks > 0 && o.world.c.conn.lastTouch == w.net.clock(o.world.net.ticks - 1))
  {
    hide Inv, RunLoop, Stamped, Ended, WorldValid, CurrentStore, Run, IsInitial, Drained;
    var s := Loop(w, [], FRESH, FRESH);
    InputLoop(env, w, s);
    InputMeans(env, w);
    var r := RunLoop(env, s, Input);
    if r.world.c.error.None? {
      StampTime(env, r.world, r.ops);
      StampedKeepsValid(env, r.world, r.ops);
      EndTime(env, r.world, r.ops);
      var (v, all) := Stamped(env, r.world, r.ops);
      EndTime(env, v, all);
    }
  }
}
