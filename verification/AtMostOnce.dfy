/** QoS 2 messages are received at most once (section 4.3.3 of MQTT 3.1.1). */
module AtMostOnce {
  import opened Types
  import opened Clock
  import opened PacketStore
  import opened PacketIds
  import opened Wire
  import opened Transmit
  import opened Receive
  import opened ReceiveInvariant
  import opened Session
  import opened SessionInvariant

  predicate Delivers(e: Event, id: U16) { e.Delivered? && e.message.qos == 2 && e.packetId == id }

  predicate Frees(e: Event, id: U16) { e == PubrelSeen(id) || e.SessionCleared? }

  /** Since the last delivery of this id nothing has freed it. */
  predicate Holds(log: seq<Event>, id: U16)
  {
    if log == [] then false
    else
      var last := log[|log| - 1];
      if Delivers(last, id) then true
      else if Frees(last, id) then false
      else Holds(log[..|log| - 1], id)
  }

  /** Between two deliveries of the same QoS 2 packet id there is a PUBREL for it or a session clear. */
  predicate DeliveredOnce(log: seq<Event>)
  {
    forall i, j, id: U16 :: 0 <= i < j < |log| && Delivers(log[i], id) && Delivers(log[j], id) ==>
      exists k :: i < k < j && Frees(log[k], id)
  }

  /** The id set covers every id whose delivery is still protected. */
  predicate Guarded(log: seq<Event>, ids: IdSet)
  {
    DeliveredOnce(log) && forall id: U16 :: Holds(log, id) ==> id in ids.items
  }

  lemma {:induction false} NotHeldIsFreed(log: seq<Event>, id: U16, i: nat) returns (k: nat)
    requires i < |log| && Delivers(log[i], id) && !Holds(log, id)
    ensures i < k < |log| && Frees(log[k], id)
  {
    var n := |log| - 1;
    if Frees(log[n], id) {
      k := n;
    } else {
      k := NotHeldIsFreed(log[..n], id, i);
    }
  }

  lemma AppendEvent(log: seq<Event>, e: Event, ids: IdSet, after: IdSet)
    requires Guarded(log, ids)
    requires forall id: U16 :: Delivers(e, id) ==> id !in ids.items && id in after.items
    requires forall id: U16 :: id in ids.items && !Frees(e, id) ==> id in after.items
    ensures Guarded(log + [e], after)
  {
    var log' := log + [e];
    assert log'[..|log|] == log;
    forall i, j, id: U16 | 0 <= i < j < |log'| && Delivers(log'[i], id) && Delivers(log'[j], id)
      ensures exists k :: i < k < j && Frees(log'[k], id)
    {
      if j == |log| {
        var k := NotHeldIsFreed(log, id, i);
        assert Frees(log'[k], id);
      } else {
        var k :| i < k < j && Frees(log[k], id);
        assert Frees(log'[k], id);
      }
    }
  }

  lemma {:induction false} QuietKeepsGuarded(before: seq<Event>, after: seq<Event>, ids: IdSet)
    requires Guarded(before, ids) && Quiet(before, after)
    ensures Guarded(after, ids)
    decreases |after|
  {
    if |after| > |before| {
      var n := |after| - 1;
      QuietKeepsGuarded(before, after[..n], ids);
      AppendEvent(after[..n], after[n], ids, ids);
      assert after == after[..n] + [after[n]];
    } else {
      assert after == before;
    }
  }

  // ----- the decoder -----

  lemma IdChangeKeepsGuarded(l: Link, m: Link, change: IdChange)
    requires Guarded(l.log, l.ids) && l.ids.Valid() && HasIdChange(l, m, change)
    ensures Guarded(m.log, m.ids)
  {
    match change {
      case SameIds => QuietKeepsGuarded(l.log, m.log, l.ids);
      case Hold(id, at) =>
        PutKeepsDistinct(l.ids, id);
        if at >= |m.log| {
          QuietKeepsGuarded(l.log, m.log, l.ids);
        } else {
          var before, upTo := m.log[..at], m.log[..at + 1];
          assert Quiet(l.log, before);
          QuietKeepsGuarded(l.log, before, l.ids);
          AppendEvent(before, m.log[at], l.ids, m.ids);
          assert upTo == before + [m.log[at]];
          QuietKeepsGuarded(upTo, m.log, m.ids);
        }
      case LetGo(id) =>
        RemoveTakesOne(l.ids, id);
        AppendEvent(l.log, PubrelSeen(id), l.ids, m.ids);
    }
  }

  // ----- the rest of the client -----

  lemma {:induction false} FlushIsQuiet(es: seq<Entry>, succeeded: bool, log: seq<Event>)
    ensures Quiet(log, FlushLog(es, succeeded, log))
  {
    if es != [] {
      var next := if es[0].value.body.NoBody? then log else log + [Completed(es[0].kind, es[0].value, succeeded)];
      FlushIsQuiet(es[1..], succeeded, next);
    }
  }

  lemma CleanupKeepsGuarded(c: Client, keep: bool)
    requires c.main.Valid() && Guarded(c.log, c.ids)
    ensures var r := CleanupStores(c, keep); Guarded(r.log, r.ids)
  {
    var cleaned := c;
    if keep {
      cleaned := c.(main := KeepSession(c.main));
    } else {
      FlushIsQuiet(c.main.entries, !c.closed, c.log);
      QuietKeepsGuarded(c.log, FlushLog(c.main.entries, !c.closed, c.log), c.ids);
      AppendEvent(FlushLog(c.main.entries, !c.closed, c.log), SessionCleared, c.ids, c.ids.(items := []));
      cleaned := Flush(c, Main);
      cleaned := cleaned.(ids := cleaned.ids.(items := []), log := cleaned.log + [SessionCleared]);
    }
    FlushIsQuiet(cleaned.conn.entries, !cleaned.closed, cleaned.log);
    QuietKeepsGuarded(cleaned.log, FlushLog(cleaned.conn.entries, !cleaned.closed, cleaned.log), cleaned.ids);
  }

  lemma {:induction false} EncodeIsQuiet(env: Env, w: TxWorld, room: nat)
    requires UnsentWellFormed(w.store)
    ensures Quiet(w.log, EncodeLoop(env, w, room).world.log)
    decreases |w.store.entries| - w.store.pos,
              if w.store.HasCurrent() && w.tx.pos < |CurrentFields(w)| then |CurrentFields(w)| - w.tx.pos else 0
  {
    hide Fields, WellFormed, FieldBytes, FieldStep, Encodable;
    if w.tx.closed || !w.store.HasCurrent() {
    } else if w.tx.pos >= |CurrentFields(w)| {
      var next := FinishEntry(env, w);
      assert Quiet(w.log, next.log);
      if next.tx.error.None? { EncodeIsQuiet(env, next, room); }
    } else if !HeaderAborts(w) {
      var (result, count) := FieldStep(ActiveField(w), w.tx.offset, room);
      if result.Finished? {
        EncodeIsQuiet(env, w.(tx := w.tx.(pos := w.tx.pos + 1, offset := 0, built := None)),
                      if count <= room then room - count else 0);
      }
    }
  }

  lemma CallSlotKeepsGuarded(env: Env, c: Client)
    requires c.main.Valid() && Guarded(c.log, c.ids)
    ensures var r := CallSlot(env, c).0; Guarded(r.log, r.ids)
  {
    hide CleanupStores;
    match c.rx.slot.body {
      case NoBody =>
      case ConnectBody(q) =>
        var next := c;
        if !c.closed {
          var told := c.(cleanSession := q.cleanSession, main := c.main.(keepAlive := q.keepAlive));
          CleanupKeepsGuarded(SetCurrentStore(told.(error := None, closed := false), Main), !told.cleanSession);
          next := SetStateConnected(told);
        }
        QuietKeepsGuarded(next.log, next.log + [Completed(Connect, c.rx.slot, !c.closed)], next.ids);
      case _ =>
        QuietKeepsGuarded(c.log, c.log + [Completed(SlotKind(c.rx), c.rx.slot, !c.closed)], c.ids);
    }
  }

  lemma IdsAreValid(c: Client)
    requires Inv(c)
    ensures c.ids.Valid()
  {
    hide WellFormed, RxInv, TxValid;
  }

  lemma DecodeByteKeepsGuarded(env: Env, c: Client, b: byte)
    requires CanDecode(c) && c.main.Valid() && c.conn.Valid() && Guarded(c.log, c.ids)
    ensures var r := DecodeByte(env, c, b); Guarded(r.log, r.ids)
  {
    hide WellFormed, RxStep, RxInv, Inv, Guarded, HasIdChange, CallSlot;
    DecodingFacts(c);
    IdsAreValid(c);
    var change := RxStepIdChange(env, LinkOf(c), b);
    var out := RxStep(env, LinkOf(c), b);
    IdChangeKeepsGuarded(LinkOf(c), out.link, change);
    if out.call { CallSlotKeepsGuarded(env, WithLink(c, out.link)); }
  }

  lemma EncodeStepKeepsGuarded(env: Env, c: Client)
    requires Inv(c) && WellStored(c) && Guarded(c.log, c.ids)
    ensures var r := EncodeStep(env, c); Guarded(r.log, r.ids)
  {
    hide Inv, WellFormed, Guarded, EncodeLoop, WellStored;
    WellStoredUnsent(c, c.txStore);
    if c.error.None? && |c.writeBuf| < c.writeCap {
      var room := c.writeCap - |c.writeBuf|;
      EncodeIsQuiet(env, TxWorldOf(c), room);
      QuietKeepsGuarded(c.log, Encode(env, TxWorldOf(c), room).world.log, c.ids);
    }
  }

  lemma DecodeStepKeepsGuarded(env: Env, c: Client)
    requires Inv(c) && c.main.Valid() && c.conn.Valid() && Guarded(c.log, c.ids)
    ensures var r := DecodeStep(env, c); Guarded(r.log, r.ids)
  {
    hide Inv, Guarded, DecodeByte;
    if CanDecode(c) && c.readBuf != [] { DecodeByteKeepsGuarded(env, c, c.readBuf[0]); }
  }

  lemma FinalizeKeepsGuarded(env: Env, c: Client)
    requires c.main.Valid() && Guarded(c.log, c.ids)
    ensures var r := Finalize(env, c); Guarded(r.log, r.ids)
  {
    hide Guarded, CallSlot, CleanupStores;
    CallSlotKeepsGuarded(env, FailWith(c, Closed));
    CleanupKeepsGuarded(FinishSlot(env, FailWith(c, Closed)), false);
  }

  /** Requests, keep-alive and timer steps add nothing to the log and leave the id set alone. */
  lemma OtherStepsAreSilent(env: Env, c: Client, op: Op)
    requires WellStored(c)
    requires !op.DoReset? && !op.Eof? && !op.DoFinalize? && !op.EncodeMore? && !op.DecodeOne?
    ensures Step(env, c, op).log == c.log && Step(env, c, op).ids == c.ids
  {
    hide WellStored, WellFormed, Request, KeepAliveStep;
    if IsRequest(op) { RequestIsSilent(c, op); }
    if op.KeepAlive? { KeepAliveIsSilent(c, op.now); }
  }

  lemma RequestIsSilent(c: Client, op: Op)
    requires IsRequest(op)
    ensures var d := Request(c, op).0; d.log == c.log && d.ids == c.ids
  {
    hide ValidConnect, ValidPublish, ValidSubscribe;
  }

  lemma KeepAliveIsSilent(c: Client, now: Time)
    ensures var d := KeepAliveStep(c, now); d.log == c.log && d.ids == c.ids
  {
    hide StoreState.GetTimeout;
  }

  lemma StepKeepsGuarded(env: Env, c: Client, op: Op)
    requires Inv(c) && WellStored(c) && Guarded(c.log, c.ids)
    ensures var r := Step(env, c, op); Guarded(r.log, r.ids)
  {
    hide Inv, Guarded, DecodeStep, EncodeStep, Finalize, SetStateInitial, Request, KeepAliveStep, WellFormed;
    match op {
      case DoReset(now) => InitialStateKeepsGuarded(c, now);
      case Eof(now) => InitialStateKeepsGuarded(c, now);
      case DoFinalize => FinalizeKeepsGuarded(env, c);
      case EncodeMore => EncodeStepKeepsGuarded(env, c);
      case DecodeOne => DecodeStepKeepsGuarded(env, c);
      case _ => OtherStepsAreSilent(env, c, op);
    }
  }

  lemma InitialStateKeepsGuarded(c: Client, now: Time)
    requires c.main.Valid() && Guarded(c.log, c.ids)
    ensures var r := SetStateInitial(c, now); Guarded(r.log, r.ids)
  {
    hide CleanupStores;
    CleanupKeepsGuarded(
      SetCurrentStore(c.(error := None, closed := true, conn := c.conn.(lastTouch := now)), Conn), !c.cleanSession);
  }

  lemma {:induction false} RunKeepsGuarded(env: Env, c: Client, ops: seq<Op>)
    requires Inv(c) && Guarded(c.log, c.ids)
    ensures var r := Run(env, c, ops); Guarded(r.log, r.ids)
    decreases |ops|
  {
    hide Inv, WellStored, Step, Guarded;
    if ops != [] {
      StepKeepsInv(env, c, ops[0]);
      StepKeepsGuarded(env, c, ops[0]);
      RunKeepsGuarded(env, Step(env, c, ops[0]), ops[1..]);
    }
  }

  /** QoS 2 receive is at most once: in every run of a client, through any number of reconnects, between
      two deliveries of the same packet id there is a PUBREL for that id or a session clear; and the
      id set never holds a duplicate. */
  lemma Qos2ReceivedAtMostOnce(env: Env, storeCap: nat, idCap: nat, readCap: nat, writeCap: nat, now: Time,
    ops: seq<Op>)
    ensures Inv(Initial(storeCap, idCap, readCap, writeCap, now))
    ensures var r := Run(env, Initial(storeCap, idCap, readCap, writeCap, now), ops);
            DeliveredOnce(r.log) && Distinct(r.ids.items) && |r.ids.items| <= r.ids.capacity
  {
    hide Run;
    var c := Initial(storeCap, idCap, readCap, writeCap, now);
    InitialInv(storeCap, idCap, readCap, writeCap, now);
    assert c.log == [] && Guarded(c.log, c.ids);
    RunKeepsGuarded(env, c, ops);
    RunKeepsInv(env, c, ops);
  }
}
