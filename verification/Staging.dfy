/** The staging buffers are lossless FIFOs, and the cursor invariant, over whole runs. */
module Staging {
  import opened Types
  import opened Clock
  import opened Wire
  import opened Transmit
  import opened ReceiveInvariant
  import opened Session
  import opened SessionInvariant
  import opened Reconnect

  /** On the current connection, what was decoded is a prefix of what came from the network, and the rest is
      the read buffer as long as the decoder has no error; and what was encoded is what was written and then
      the write buffer. */
  predicate Fifo(c: Client)
  {
    && c.audit.decoded <= c.audit.received
    && (c.rx.error.None? ==> c.audit.received == c.audit.decoded + c.readBuf)
    && c.audit.encoded == c.audit.written + c.writeBuf
  }

  lemma DecodeKeepsFifo(env: Env, c: Client)
    requires c.main.Valid() && c.conn.Valid() && Fifo(c)
    ensures Fifo(DecodeStep(env, c))
  {
    hide DecodeByte;
    if c.error.None? && c.rx.error.None? && c.readBuf != [] {
      DecodeByteBuffers(env, c, c.readBuf[0]);
      DecodedPrefix(c.audit.decoded, c.readBuf, c.audit.received);
    }
  }

  lemma DecodedPrefix(decoded: seq<byte>, buffer: seq<byte>, received: seq<byte>)
    requires buffer != [] && received == decoded + buffer
    ensures received == decoded + [buffer[0]] + buffer[1..] && decoded + [buffer[0]] <= received
  {
    assert buffer == [buffer[0]] + buffer[1..];
  }

  lemma InitialStateTraffic(c: Client, now: Time)
    requires c.main.Valid()
    ensures SameTraffic(c, SetStateInitial(c, now))
  {
    hide CleanupStores;
    CleanupFrame(
      SetCurrentStore(c.(error := None, closed := true, conn := c.conn.(lastTouch := now)), Conn), !c.cleanSession);
  }

  lemma AcceptTraffic(c: Client, e: Entry)
    ensures SameTraffic(c, Accept(c, e).0) && SameTraffic(c, TakeId(c))
  {
  }

  lemma ConnectTraffic(c: Client, q: ConnectRequest, ref: nat)
    ensures var d := ConnectRequested(c, q, ref).0;
            SameTraffic(c, d) || (Fifo(d) && d.readBuf == [] && d.writeBuf == [])
  {
    hide ValidConnect;
  }

  lemma RequestTraffic(c: Client, op: Op)
    requires IsRequest(op)
    ensures var d := Request(c, op).0; SameTraffic(c, d) || (Fifo(d) && d.readBuf == [] && d.writeBuf == [])
  {
    hide ValidConnect, ValidSubscribe, ValidPublish, Accept, TakeId, ConnectRequested;
    if op.DoConnect? { ConnectTraffic(c, op.connect, op.ref); }
    forall d: Client, e: Entry ensures SameTraffic(d, Accept(d, e).0) { AcceptTraffic(d, e); }
    AcceptTraffic(c, Entry(Disconnect, ZERO_VALUE));
  }

  lemma FinalizeTraffic(env: Env, c: Client)
    requires c.main.Valid()
    ensures SameTraffic(c, Finalize(env, c))
  {
    hide CleanupStores, FinishSlot;
    FinalCallbackTraffic(env, FailWith(c, Closed));
    CleanupFrame(FinishSlot(env, FailWith(c, Closed)), false);
  }

  lemma EncodeKeepsFifo(env: Env, c: Client)
    requires WellStored(c) && Fifo(c)
    ensures Fifo(EncodeStep(env, c))
  {
    hide EncodeStep, WellStored;
    var bytes := EncodeAppends(env, c);
    assert c.audit.written + (c.writeBuf + bytes) == c.audit.written + c.writeBuf + bytes;
  }

  /** A call of the encoder appends the same bytes to the write buffer and to the history. */
  lemma EncodeAppends(env: Env, c: Client) returns (bytes: seq<byte>)
    requires WellStored(c)
    ensures var d := EncodeStep(env, c);
            && d.writeBuf == c.writeBuf + bytes && d.audit == c.audit.(encoded := c.audit.encoded + bytes)
            && d.readBuf == c.readBuf && d.rx == c.rx
  {
    hide Encode, WellStored;
    WellStoredUnsent(c, c.txStore);
    bytes := if c.error.Some? || |c.writeBuf| >= c.writeCap then []
             else Encode(env, TxWorldOf(c), c.writeCap - |c.writeBuf|).bytes;
  }

  lemma KeepAliveTraffic(c: Client, now: Time)
    ensures SameTraffic(c, KeepAliveStep(c, now))
  {
    hide Accept;
    AcceptTraffic(c, Entry(Pingreq, ZERO_VALUE));
  }

  lemma SameKeepsFifo(c: Client, d: Client)
    requires Fifo(c) && SameTraffic(c, d)
    ensures Fifo(d)
  {
  }

  /** The moves of the network: bytes leave the write buffer at its front, or enter the read buffer at its end. */
  lemma NetworkKeepsFifo(env: Env, c: Client, op: Op)
    requires WellStored(c) && Fifo(c) && (op.Write? || op.Read?)
    ensures Fifo(Step(env, c, op))
  {
    hide WellStored;
    match op {
      case Write(n) => if n <= |c.writeBuf| { assert c.writeBuf == c.writeBuf[..n] + c.writeBuf[n..]; }
      case Read(bytes) => assert c.audit.decoded + (c.readBuf + bytes) == c.audit.decoded + c.readBuf + bytes;
    }
  }

  lemma StepKeepsFifo(env: Env, c: Client, op: Op)
    requires Inv(c) && WellStored(c) && Fifo(c)
    ensures Fifo(Step(env, c, op))
  {
    hide Inv, WellStored, DecodeStep, EncodeStep, Request, SetStateInitial, Finalize, KeepAliveStep, Fifo;
    InvCommon(c);
    var d := Step(env, c, op);
    if IsRequest(op) {
      RequestTraffic(c, op);
      if SameTraffic(c, d) { SameKeepsFifo(c, d); }
    } else {
      match op {
        case DoReset(now) => InitialStateTraffic(c, now);
        case Eof(now) => InitialStateTraffic(c, now);
        case DoFinalize => FinalizeTraffic(env, c);
        case DecodeOne => DecodeKeepsFifo(env, c);
        case EncodeMore => EncodeKeepsFifo(env, c);
        case KeepAlive(now) => KeepAliveTraffic(c, now);
        case Write(n) => NetworkKeepsFifo(env, c, op);
        case Read(bytes) => NetworkKeepsFifo(env, c, op);
        case _ =>
      }
      if !op.DecodeOne? && !op.EncodeMore? && !op.Write? && !op.Read? { SameKeepsFifo(c, d); }
    }
  }

  lemma FinalCallbackTraffic(env: Env, c: Client)
    requires c.main.Valid() && c.closed
    ensures SameTraffic(c, FinishSlot(env, c))
  {
  }

  lemma {:induction false} RunKeepsFifo(env: Env, c: Client, ops: seq<Op>)
    requires Inv(c) && Fifo(c)
    ensures Fifo(Run(env, c, ops))
    decreases |ops|
  {
    hide Inv, WellStored, Step, Fifo;
    if ops != [] {
      StepKeepsInv(env, c, ops[0]);
      StepKeepsFifo(env, c, ops[0]);
      RunKeepsFifo(env, Step(env, c, ops[0]), ops[1..]);
    }
  }

  /** No byte is lost, repeated or reordered between network and codec, and the buffers never overflow. After a
      decoder error the rest of the input is not decoded any more. */
  lemma StagingIsLossless(env: Env, storeCap: nat, idCap: nat, readCap: nat, writeCap: nat, now: Time, ops: seq<Op>)
    ensures Inv(Initial(storeCap, idCap, readCap, writeCap, now))
    ensures var c := Run(env, Initial(storeCap, idCap, readCap, writeCap, now), ops);
            Fifo(c) && |c.readBuf| <= c.readCap && |c.writeBuf| <= c.writeCap
  {
    hide Run, Inv;
    InitialInv(storeCap, idCap, readCap, writeCap, now);
    RunKeepsFifo(env, Initial(storeCap, idCap, readCap, writeCap, now), ops);
    RunKeepsInv(env, Initial(storeCap, idCap, readCap, writeCap, now), ops);
    InvCommon(Run(env, Initial(storeCap, idCap, readCap, writeCap, now), ops));
  }

  /** Cursor and store invariants of every reachable state: the cursor is within the queue and the queue
      within the array; everything before the cursor waits for a response; the CONNECT is never in the
      main store; the connect store holds at most one entry, a CONNECT unless input was decoded while
      closed; the three store pointers agree; and an open encoder is inside the entry at the cursor. */
  lemma StoresAreConsistent(env: Env, storeCap: nat, idCap: nat, readCap: nat, writeCap: nat, now: Time, ops: seq<Op>)
    ensures Inv(Initial(storeCap, idCap, readCap, writeCap, now))
    ensures var c := Run(env, Initial(storeCap, idCap, readCap, writeCap, now), ops);
            && c.main.pos <= |c.main.entries| <= c.main.capacity && |c.conn.entries| <= 1
            && (forall i :: 0 <= i < c.main.pos ==> ExpectsResponse(c.main.entries[i].kind))
            && (forall e :: e in c.main.entries ==> !e.kind.Connect?)
            && (forall e :: e in c.conn.entries ==> e.kind.Connect? || (c.closed && IsAck(e)))
            && c.rxStore == c.current && c.txStore == c.current
            && (!c.closed ==> TxValid(TxWorldOf(c)))
  {
    hide Run, WellFormed, Fields;
    InitialInv(storeCap, idCap, readCap, writeCap, now);
    RunKeepsInv(env, Initial(storeCap, idCap, readCap, writeCap, now), ops);
  }
}
