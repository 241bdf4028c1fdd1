/** Packet ids of requests in flight are distinct, and a QoS 2 message that was acknowledged by PUBREC
    is never sent as PUBLISH again (section 4.3.3 of MQTT 3.1.1). */
module Qos2Send {
  import opened Types
  import opened Clock
  import opened PacketStore
  import opened Wire
  import opened Transmit
  import opened Receive
  import opened ReceiveInvariant
  import opened Session
  import opened SessionInvariant
  import opened EntryTally
  import opened AtMostOnce
  import opened Accounting

  const ID_COUNT := 65536

  predicate AllIdsFresh(c: Client) { c.audit.issued <= ID_COUNT }

  /** Each id is in flight at most once, and only if it was issued. */
  ghost predicate IdsDistinct(c: Client)
  {
    forall r: nat :: InFlight(c, Ids, r) <= 1 && (InFlight(c, Ids, r) == 1 ==> r < c.audit.issued)
  }

  /** After PUBREC for an id nothing with this id is emitted as PUBLISH. */
  predicate OnlyForward(log: seq<Event>)
  {
    forall i, j :: 0 <= i < j < |log| && log[i].PubrecSeen? ==> log[j] != Emitted(Publish2, log[i].packetId)
  }

  /** Ids acknowledged by PUBREC are issued and no longer belong to an unacknowledged PUBLISH. */
  ghost predicate Acknowledged(c: Client)
  {
    forall id: U16 :: PubrecSeen(id) in c.log ==> id < c.audit.issued && InFlight(c, Firsts, id) == 0
  }

  ghost predicate IdInv(c: Client)
  {
    && c.main.nextId == c.audit.issued % ID_COUNT
    && (AllIdsFresh(c) ==> IdsDistinct(c) && OnlyForward(c.log) && Acknowledged(c))
  }

  // ----- events -----

  lemma {:induction false} EmittedEntriesWereQueued(env: Env, w: TxWorld, room: nat, id: U16)
    requires UnsentWellFormed(w.store) && Tally(w.store.entries, Firsts, id) == 0
    ensures var log := EncodeLoop(env, w, room).world.log;
            w.log <= log && forall i :: |w.log| <= i < |log| ==> log[i] != Emitted(Publish2, id) && !log[i].PubrecSeen?
    decreases |w.store.entries| - w.store.pos,
              if w.store.HasCurrent() && w.tx.pos < |CurrentFields(w)| then |CurrentFields(w)| - w.tx.pos else 0
  {
    hide Fields, WellFormed, FieldBytes, FieldStep, Encodable, Tally, FinishEntry;
    if w.tx.closed || !w.store.HasCurrent() {
    } else if w.tx.pos >= |CurrentFields(w)| {
      FinishEntryEmits(env, w, id);
      FinishEntryTally(env, w, Firsts, id);
      var next := FinishEntry(env, w);
      if next.tx.error.None? { EmittedEntriesWereQueued(env, next, room, id); }
    } else if !HeaderAborts(w) {
      var (result, count) := FieldStep(ActiveField(w), w.tx.offset, room);
      if result.Finished? {
        EmittedEntriesWereQueued(env, w.(tx := w.tx.(pos := w.tx.pos + 1, offset := 0, built := None)),
                                 if count <= room then room - count else 0, id);
      }
    }
  }

  lemma FinishEntryEmits(env: Env, w: TxWorld, id: U16)
    requires UnsentWellFormed(w.store) && w.store.HasCurrent() && Tally(w.store.entries, Firsts, id) == 0
    ensures var log := FinishEntry(env, w).log;
            w.log <= log && forall i :: |w.log| <= i < |log| ==> log[i] != Emitted(Publish2, id) && !log[i].PubrecSeen?
  {
    hide Fields, Tally;
    TallyMember(w.store.entries, w.store.pos, Firsts, id);
    assert WellFormed(w.store.Current());
  }

  predicate NeitherSeenNorSent(before: seq<Event>, after: seq<Event>)
  {
    before <= after && forall i :: |before| <= i < |after| ==> !after[i].PubrecSeen? && !after[i].Emitted?
  }

  lemma {:induction false} FlushNeitherSeesNorSends(es: seq<Entry>, succeeded: bool, log: seq<Event>)
    ensures NeitherSeenNorSent(log, FlushLog(es, succeeded, log))
  {
    if es != [] {
      var next := if es[0].value.body.NoBody? then log else log + [Completed(es[0].kind, es[0].value, succeeded)];
      FlushNeitherSeesNorSends(es[1..], succeeded, next);
    }
  }

  lemma CleanupNeitherSeesNorSends(c: Client, keep: bool)
    requires c.main.Valid()
    ensures NeitherSeenNorSent(c.log, CleanupStores(c, keep).log)
    ensures CleanupStores(c, keep).main.nextId == c.main.nextId
  {
    hide FlushLog;
    FlushNeitherSeesNorSends(c.main.entries, !c.closed, c.log);
    var cleaned := if keep then c else Flush(c, Main);
    FlushNeitherSeesNorSends(c.conn.entries, !c.closed, if keep then c.log else cleaned.log + [SessionCleared]);
  }

  lemma CallSlotNeitherSeesNorSends(env: Env, c: Client)
    requires c.main.Valid()
    ensures NeitherSeenNorSent(c.log, CallSlot(env, c).0.log) && CallSlot(env, c).0.main.nextId == c.main.nextId
    ensures CallSlot(env, c).0.audit == c.audit
  {
    hide CleanupStores;
    if c.rx.slot.body.ConnectBody? && !c.closed {
      var q := c.rx.slot.body.connect;
      var told := c.(cleanSession := q.cleanSession, main := c.main.(keepAlive := q.keepAlive));
      var open := SetCurrentStore(told.(error := None, closed := false), Main);
      CleanupNeitherSeesNorSends(open, !told.cleanSession);
      CleanupTally(open, !told.cleanSession, Ids, 0);
    }
  }

  // ----- keeping the invariant -----

  /** Steps that neither see PUBREC nor emit, and do not add to what is in flight. */
  lemma QuietStepKeepsIds(c: Client, d: Client)
    requires IdInv(c) && NeitherSeenNorSent(c.log, d.log)
    requires d.audit.issued == c.audit.issued && d.main.nextId == c.main.nextId
    requires forall r: nat ::
               InFlight(d, Ids, r) <= InFlight(c, Ids, r) && InFlight(d, Firsts, r) <= InFlight(c, Firsts, r)
    ensures IdInv(d)
  {
    hide InFlight;
    if AllIdsFresh(d) {
      forall r: nat ensures InFlight(d, Ids, r) <= 1 && (InFlight(d, Ids, r) == 1 ==> r < d.audit.issued) {
        assert InFlight(d, Ids, r) <= InFlight(c, Ids, r);
        assert InFlight(c, Ids, r) <= 1;
      }
      forall id: U16 | PubrecSeen(id) in d.log ensures id < d.audit.issued && InFlight(d, Firsts, id) == 0 {
        var i :| 0 <= i < |d.log| && d.log[i] == PubrecSeen(id);
        assert c.log[i] == PubrecSeen(id);
        assert InFlight(d, Firsts, id) <= InFlight(c, Firsts, id);
      }
    }
  }

  lemma RequestKeepsIds(c: Client, op: Op)
    requires IdInv(c) && IsRequest(op)
    ensures IdInv(Request(c, op).0)
  {
    hide InFlight, Request;
    var d := Request(c, op).0;
    RequestTally(c, op, Ids, 0);
    if AllIdsFresh(d) {
      forall r: nat ensures InFlight(d, Ids, r) <= 1 && (InFlight(d, Ids, r) == 1 ==> r < d.audit.issued) {
        RequestTally(c, op, Ids, r);
        assert InFlight(c, Ids, r) <= 1 && (InFlight(c, Ids, r) == 1 ==> r < c.audit.issued);
      }
      forall id: U16 | PubrecSeen(id) in d.log ensures id < d.audit.issued && InFlight(d, Firsts, id) == 0 {
        RequestTally(c, op, Firsts, id);
        assert PubrecSeen(id) in c.log;
      }
    }
  }

  lemma EncodeKeepsIds(env: Env, c: Client)
    requires Inv(c) && WellStored(c) && IdInv(c)
    ensures IdInv(EncodeStep(env, c))
  {
    hide Inv, WellFormed, EncodeLoop, Tally, UnsentWellFormed;
    WellStoredUnsent(c, c.txStore);
    if c.error.None? && |c.writeBuf| < c.writeCap {
      var room := c.writeCap - |c.writeBuf|;
      var d := EncodeStep(env, c);
      EncodeNextId(env, c);
      forall r: nat ensures InFlight(d, Ids, r) == InFlight(c, Ids, r)
        && InFlight(d, Firsts, r) == InFlight(c, Firsts, r) {
        EncodeStepTally(env, c, Ids, r);
        EncodeStepTally(env, c, Firsts, r);
      }
      if AllIdsFresh(d) {
        EncodeKeepsForward(env, c);
        forall id: U16 | PubrecSeen(id) in d.log ensures id < d.audit.issued && InFlight(d, Firsts, id) == 0 {
          EncodeSeesNothing(env, c, id);
        }
        IdsStayDistinct(c, d);
      }
    }
  }

  lemma IdsStayDistinct(c: Client, d: Client)
    requires IdsDistinct(c) && d.audit.issued == c.audit.issued
    requires forall r: nat :: InFlight(d, Ids, r) <= InFlight(c, Ids, r)
    ensures IdsDistinct(d)
  {
    hide InFlight;
    forall r: nat ensures InFlight(d, Ids, r) <= 1 && (InFlight(d, Ids, r) == 1 ==> r < d.audit.issued) {
      assert InFlight(d, Ids, r) <= InFlight(c, Ids, r);
    }
  }

  lemma EncodeNextId(env: Env, c: Client)
    requires Inv(c) && WellStored(c)
    ensures EncodeStep(env, c).main.nextId == c.main.nextId && EncodeStep(env, c).audit.issued == c.audit.issued
  {
    hide WellFormed, EncodeLoop, TxValid, RxInv;
    WellStoredUnsent(c, c.txStore);
    if c.error.None? && |c.writeBuf| < c.writeCap && c.tx.error.None? {
      EncodeKeepsStore(env, TxWorldOf(c), c.writeCap - |c.writeBuf|);
    }
  }

  lemma EncodeLog(env: Env, c: Client, id: U16)
    requires WellStored(c) && InFlight(c, Firsts, id) == 0
    ensures var log := EncodeStep(env, c).log;
            c.log <= log && forall i :: |c.log| <= i < |log| ==> log[i] != Emitted(Publish2, id) && !log[i].PubrecSeen?
  {
    hide WellFormed, EncodeLoop, Tally, UnsentWellFormed;
    WellStoredUnsent(c, c.txStore);
    if c.error.None? && |c.writeBuf| < c.writeCap && c.tx.error.None? {
      EmittedEntriesWereQueued(env, TxWorldOf(c), c.writeCap - |c.writeBuf|, id);
    }
  }

  lemma {:induction false} EncodeSeesNoPubrec(env: Env, w: TxWorld, room: nat)
    requires UnsentWellFormed(w.store)
    ensures var log := EncodeLoop(env, w, room).world.log;
            w.log <= log && forall i :: |w.log| <= i < |log| ==> !log[i].PubrecSeen?
    decreases |w.store.entries| - w.store.pos,
              if w.store.HasCurrent() && w.tx.pos < |CurrentFields(w)| then |CurrentFields(w)| - w.tx.pos else 0
  {
    hide Fields, WellFormed, FieldBytes, FieldStep, Encodable;
    if w.tx.closed || !w.store.HasCurrent() {
    } else if w.tx.pos >= |CurrentFields(w)| {
      var next := FinishEntry(env, w);
      assert NoPubrec(w.log, next.log);
      if next.tx.error.None? { EncodeSeesNoPubrec(env, next, room); }
    } else if !HeaderAborts(w) {
      var (result, count) := FieldStep(ActiveField(w), w.tx.offset, room);
      if result.Finished? {
        EncodeSeesNoPubrec(env, w.(tx := w.tx.(pos := w.tx.pos + 1, offset := 0, built := None)),
                           if count <= room then room - count else 0);
      }
    }
  }

  lemma EncodeStepSeesNoPubrec(env: Env, c: Client)
    requires WellStored(c)
    ensures NoPubrec(c.log, EncodeStep(env, c).log)
  {
    hide WellFormed, EncodeLoop, UnsentWellFormed;
    WellStoredUnsent(c, c.txStore);
    if c.error.None? && |c.writeBuf| < c.writeCap && c.tx.error.None? {
      EncodeSeesNoPubrec(env, TxWorldOf(c), c.writeCap - |c.writeBuf|);
    }
  }

  lemma EncodeSeesNothing(env: Env, c: Client, id: U16)
    requires WellStored(c) && Acknowledged(c) && PubrecSeen(id) in EncodeStep(env, c).log
    ensures PubrecSeen(id) in c.log
  {
    hide EncodeStep, InFlight, WellFormed;
    EncodeStepSeesNoPubrec(env, c);
    var log := EncodeStep(env, c).log;
    var i :| 0 <= i < |log| && log[i] == PubrecSeen(id);
    assert c.log[i] == PubrecSeen(id);
  }

  lemma EncodeKeepsForward(env: Env, c: Client)
    requires WellStored(c) && Acknowledged(c) && OnlyForward(c.log)
    ensures OnlyForward(EncodeStep(env, c).log)
  {
    hide EncodeStep, InFlight, WellFormed;
    EncodeStepSeesNoPubrec(env, c);
    var log := EncodeStep(env, c).log;
    forall i, j | 0 <= i < j < |log| && log[i].PubrecSeen? ensures log[j] != Emitted(Publish2, log[i].packetId) {
      assert i < |c.log| && c.log[i] == log[i];
      assert PubrecSeen(log[i].packetId) in c.log;
      EncodeLog(env, c, log[i].packetId);
    }
  }

  // ----- receiving PUBREC -----

  lemma {:induction false} FirstsAreIds(es: seq<Entry>, r: nat)
    ensures Tally(es, Firsts, r) <= Tally(es, Ids, r)
  {
    if es != [] { FirstsAreIds(es[1..], r); }
  }

  /** A PUBREL that is the only entry with its id leaves no PUBLISH with that id. */
  lemma PubrelExcludesPublish(es: seq<Entry>, i: nat, r: nat)
    requires i < |es| && es[i].kind.Pubrel? && !es[i].value.body.NoBody? && es[i].value.packetId == r
    ensures Tally(es, Firsts, r) + 1 <= Tally(es, Ids, r)
  {
    TallyRemove(es, i, Ids, r);
    TallyRemove(es, i, Firsts, r);
    FirstsAreIds(es[..i] + es[i + 1..], r);
  }

  lemma SlotFirsts(rx: Rx, called: bool, r: nat)
    ensures SlotTally(rx, called, Firsts, r) <= SlotTally(rx, called, Ids, r)
  {
  }

  /** The PUBLISH becomes one PUBREL with the same id and value at the tail; it is the only entry with this
      id, so no PUBLISH with it is left anywhere. */
  lemma ReleaseLeavesOnlyPubrel(c: Client, m: Link, eff: Effect)
    requires Inv(c) && IsConnected(c) && HasEffect(LinkOf(c), m, eff) && eff.Release? && IdsDistinct(c)
             && !c.audit.slotCalled
    ensures var d := WithLink(c, m); var id := eff.value.packetId;
            InFlight(d, Ids, id) == 1 && InFlight(d, Firsts, id) == 0
    ensures InFlight(c, Ids, eff.value.packetId) == 1
    ensures m.store.entries != [] && m.store.entries[|m.store.entries| - 1] == Entry(Pubrel, eff.value)
    ensures Entry(Publish2, eff.value) in c.main.entries
  {
    hide Tally, TxValid, RxInv;
    var id := eff.value.packetId;
    PopMarkedKeeps(c.main, Publish2, eff.id);
    var e := Entry(Publish2, eff.value);
    assert WellFormed(e);
    var i :| 0 <= i < |c.main.entries| && c.main.entries[i] == e;
    TallyMember(c.main.entries, i, Ids, id);
    var es := m.store.entries;
    assert es[|es| - 1] == Entry(Pubrel, eff.value);
    PubrelExcludesPublish(es, |es| - 1, id);
    FirstsAreIds(c.conn.entries, id);
    SlotFirsts(m.rx, false, id);
    EffectTally(LinkOf(c), m, eff, Ids, id);
    assert InFlight(c, Ids, id) <= 1;
  }

  lemma DecodeByteKeepsIds(env: Env, c: Client, b: byte)
    requires CanDecode(c) && c.main.Valid() && c.conn.Valid() && !c.audit.slotCalled && IdInv(c)
    ensures IdInv(DecodeByte(env, c, b))
  {
    hide Inv, InFlight, RxStep, FinishPacket, HasIdChange, Received, ReceivedClosed, HasEffect, IsConnected,
         IsConnecting, IsInitial, WellFormed;
    DecodingFacts(c);
    var eff := ByteReceived(env, c, b);
    var out := RxStep(env, LinkOf(c), b);
    var next := WithLink(c, out.link);
    var change := RxStepIdChange(env, LinkOf(c), b);
    PacketEventsOf(LinkOf(c), out.link, change);
    NextIdStays(c, out.link, eff);
    forall r: nat ensures InFlight(next, Ids, r) <= InFlight(c, Ids, r)
      && InFlight(next, Firsts, r) <= InFlight(c, Firsts, r) {
      RxStepTally(env, c, b, Ids, r);
      RxStepTally(env, c, b, Firsts, r);
    }
    if AllIdsFresh(c) {
      IdsStayDistinct(c, next);
      forall id: U16 | PubrecSeen(id) in next.log ensures id < next.audit.issued && InFlight(next, Firsts, id) == 0 {
        var i :| 0 <= i < |next.log| && next.log[i] == PubrecSeen(id);
        if i < |c.log| {
          assert c.log[i] == PubrecSeen(id);
          assert InFlight(next, Firsts, id) <= InFlight(c, Firsts, id);
        } else {
          ReleaseIsConnected(c, out.link, eff);
          ReleaseLeavesOnlyPubrel(c, out.link, eff);
        }
      }
      assert OnlyForward(next.log) by {
        assert forall i :: |c.log| <= i < |next.log| ==> !next.log[i].Emitted?;
      }
    }
    if out.call { FinishPacketKeepsIds(env, next); }
  }

  lemma NextIdStays(c: Client, m: Link, eff: Effect)
    requires Inv(c) && LinkOf(c).store.Valid() && HasEffect(LinkOf(c), m, eff)
    ensures WithLink(c, m).main.nextId == c.main.nextId
  {
    hide RxInv, TxValid, WellFormed;
  }

  /** PUBREC can only be answered from the main store. */
  lemma ReleaseIsConnected(c: Client, m: Link, eff: Effect)
    requires CanDecode(c) && !c.closed && LinkOf(c).store.Valid() && HasEffect(LinkOf(c), m, eff) && eff.Release?
    ensures IsConnected(c)
  {
    hide RxInv, TxValid, WellFormed;
    PopMarkedKeeps(LinkOf(c).store, Publish2, eff.id);
  }

  lemma FinishPacketKeepsIds(env: Env, c: Client)
    requires c.main.Valid() && !c.audit.slotCalled && IdInv(c)
    ensures IdInv(FinishPacket(env, c))
  {
    hide InFlight, CallSlot;
    var d := FinishPacket(env, c);
    CallSlotNeitherSeesNorSends(env, c);
    forall r: nat ensures InFlight(d, Ids, r) <= InFlight(c, Ids, r)
      && InFlight(d, Firsts, r) <= InFlight(c, Firsts, r) {
      FinishPacketTally(env, c, Ids, r);
      FinishPacketTally(env, c, Firsts, r);
    }
    QuietStepKeepsIds(c, d);
  }

  lemma DecodeKeepsIds(env: Env, c: Client)
    requires Inv(c) && WellStored(c) && SlotFresh(c) && IdInv(c)
    ensures IdInv(DecodeStep(env, c))
  {
    hide Inv, InFlight, DecodeByte, WellFormed;
    if c.error.None? && c.rx.error.Some? {
      var d := DecodeStep(env, c);
      forall r: nat ensures InFlight(d, Ids, r) == InFlight(c, Ids, r)
        && InFlight(d, Firsts, r) == InFlight(c, Firsts, r) {
        SameInFlight(c, d, Ids, r);
        SameInFlight(c, d, Firsts, r);
      }
      QuietStepKeepsIds(c, d);
    } else if c.error.None? && c.readBuf != [] {
      var next := DecodeByte(env, c, c.readBuf[0]);
      DecodeByteKeepsIds(env, c, c.readBuf[0]);
      var d := DecodeStep(env, c);
      forall r: nat ensures InFlight(d, Ids, r) == InFlight(next, Ids, r)
        && InFlight(d, Firsts, r) == InFlight(next, Firsts, r) {
        SameInFlight(next, d, Ids, r);
        SameInFlight(next, d, Firsts, r);
      }
      QuietStepKeepsIds(next, d);
    }
  }

  // ----- every step -----

  lemma OtherStepsAreQuiet(env: Env, c: Client, op: Op)
    requires Inv(c) && WellStored(c) && !IsRequest(op) && !op.EncodeMore? && !op.DecodeOne?
    ensures var d := Step(env, c, op);
            NeitherSeenNorSent(c.log, d.log) && d.audit.issued == c.audit.issued && d.main.nextId == c.main.nextId
  {
    hide Inv, WellStored, Finalize, SetStateInitial, KeepAliveStep;
    InvCommon(c);
    match op {
      case DoReset(now) => InitialStateIsQuiet(c, now);
      case Eof(now) => InitialStateIsQuiet(c, now);
      case DoFinalize => FinalizeIsQuiet(env, c);
      case KeepAlive(now) => TimerIsQuiet(c, now);
      case _ =>
    }
  }

  lemma FinalizeIsQuiet(env: Env, c: Client)
    requires c.main.Valid()
    ensures var d := Finalize(env, c);
            NeitherSeenNorSent(c.log, d.log) && d.audit.issued == c.audit.issued && d.main.nextId == c.main.nextId
  {
    hide CleanupStores, CallSlot;
    var failed := FailWith(c, Closed);
    CallSlotNeitherSeesNorSends(env, failed);
    CleanupNeitherSeesNorSends(FinishSlot(env, failed), false);
    CleanupTally(FinishSlot(env, failed), false, Ids, 0);
  }

  lemma TimerIsQuiet(c: Client, now: Time)
    ensures var d := KeepAliveStep(c, now);
            NeitherSeenNorSent(c.log, d.log) && d.audit.issued == c.audit.issued && d.main.nextId == c.main.nextId
  {
  }

  lemma InitialStateIsQuiet(c: Client, now: Time)
    requires c.main.Valid()
    ensures var d := SetStateInitial(c, now);
            NeitherSeenNorSent(c.log, d.log) && d.audit == c.audit && d.main.nextId == c.main.nextId
  {
    hide CleanupStores;
    var closed := SetCurrentStore(c.(error := None, closed := true, conn := c.conn.(lastTouch := now)), Conn);
    CleanupNeitherSeesNorSends(closed, !c.cleanSession);
    CleanupTally(closed, !c.cleanSession, Ids, 0);
  }

  lemma StepKeepsIds(env: Env, c: Client, op: Op)
    requires Inv(c) && WellStored(c) && SlotFresh(c) && IdInv(c)
    ensures IdInv(Step(env, c, op))
  {
    hide Inv, IdInv, InFlight, WellFormed, EncodeStep, DecodeStep, Request, Finalize, SetStateInitial, KeepAliveStep;
    if IsRequest(op) {
      RequestKeepsIds(c, op);
    } else if op.EncodeMore? {
      EncodeKeepsIds(env, c);
    } else if op.DecodeOne? {
      DecodeKeepsIds(env, c);
    } else {
      var d := Step(env, c, op);
      OtherStepsAreQuiet(env, c, op);
      forall r: nat ensures InFlight(d, Ids, r) <= InFlight(c, Ids, r)
        && InFlight(d, Firsts, r) <= InFlight(c, Firsts, r) {
        StepTally(env, c, op, Ids, r);
        StepTally(env, c, op, Firsts, r);
      }
      QuietStepKeepsIds(c, d);
    }
  }

  lemma {:induction false} RunKeepsIds(env: Env, c: Client, ops: seq<Op>)
    requires Inv(c) && Balanced(c, 0) && IdInv(c)
    ensures IdInv(Run(env, c, ops))
    decreases |ops|
  {
    hide Inv, WellStored, Step, IdInv, BooksBalance;
    if ops != [] {
      StepKeepsInv(env, c, ops[0]);
      StepKeepsIds(env, c, ops[0]);
      StepKeepsBalance(env, c, ops[0], 0);
      RunKeepsIds(env, Step(env, c, ops[0]), ops[1..]);
    }
  }

  lemma InitialIds(storeCap: nat, idCap: nat, readCap: nat, writeCap: nat, now: Time)
    ensures var c := Initial(storeCap, idCap, readCap, writeCap, now); IdInv(c) && Balanced(c, 0)
  {
    var c := Initial(storeCap, idCap, readCap, writeCap, now);
    assert c.log == [] && c.main.entries == [] && c.conn.entries == [] && c.rx == RESET_RX;
  }

  // ----- the theorems -----

  /** Packet ids identify requests: in any run that issues at most 65536 ids, no two requests in flight
      share an id, so the first match found for a response is the only one. */
  lemma PacketIdsIdentifyRequests(
      env: Env, storeCap: nat, idCap: nat, readCap: nat, writeCap: nat, now: Time, ops: seq<Op>)
    ensures Inv(Initial(storeCap, idCap, readCap, writeCap, now))
    ensures var c := Run(env, Initial(storeCap, idCap, readCap, writeCap, now), ops);
            AllIdsFresh(c) ==>
              forall i, j :: 0 <= i < j < |c.main.entries| && Tracked(c.main.entries[i].kind)
                && Tracked(c.main.entries[j].kind)
                ==> c.main.entries[i].value.packetId != c.main.entries[j].value.packetId
  {
    hide Run, Tally, Inv;
    var start := Initial(storeCap, idCap, readCap, writeCap, now);
    InitialInv(storeCap, idCap, readCap, writeCap, now);
    InitialIds(storeCap, idCap, readCap, writeCap, now);
    RunKeepsIds(env, start, ops);
    RunKeepsInv(env, start, ops);
    var c := Run(env, start, ops);
    InvCommon(c);
    if AllIdsFresh(c) {
      forall i, j | 0 <= i < j < |c.main.entries| && Tracked(c.main.entries[i].kind) && Tracked(c.main.entries[j].kind)
        ensures c.main.entries[i].value.packetId != c.main.entries[j].value.packetId
      {
        var r := c.main.entries[i].value.packetId;
        assert WellFormed(c.main.entries[i]) && WellFormed(c.main.entries[j]);
        TallyPair(c.main.entries, i, j, Ids, r);
        assert InFlight(c, Ids, r) <= 1;
      }
    }
  }

  /** QoS 2 send only moves forward: in any such run, once PUBREC was seen for an id, nothing with that id
      is emitted as PUBLISH any more and no unacknowledged PUBLISH with it is left, reconnects included. */
  lemma Qos2SendOnlyMovesForward(
      env: Env, storeCap: nat, idCap: nat, readCap: nat, writeCap: nat, now: Time, ops: seq<Op>)
    ensures Inv(Initial(storeCap, idCap, readCap, writeCap, now))
    ensures var c := Run(env, Initial(storeCap, idCap, readCap, writeCap, now), ops);
            AllIdsFresh(c) ==>
              && OnlyForward(c.log)
              && forall id: U16, e: Entry :: PubrecSeen(id) in c.log && e in c.main.entries && e.kind.Publish2?
                   ==> e.value.packetId != id
  {
    hide Run, Tally, Inv;
    var start := Initial(storeCap, idCap, readCap, writeCap, now);
    InitialInv(storeCap, idCap, readCap, writeCap, now);
    InitialIds(storeCap, idCap, readCap, writeCap, now);
    RunKeepsIds(env, start, ops);
    RunKeepsInv(env, start, ops);
    var c := Run(env, start, ops);
    InvCommon(c);
    if AllIdsFresh(c) {
      forall id: U16, e: Entry | PubrecSeen(id) in c.log && e in c.main.entries && e.kind.Publish2?
        ensures e.value.packetId != id
      {
        var i :| 0 <= i < |c.main.entries| && c.main.entries[i] == e;
        assert WellFormed(e);
        TallyMember(c.main.entries, i, Firsts, id);
        assert InFlight(c, Firsts, id) == 0;
      }
    }
  }

  // ----- the callback of a QoS 2 message -----

  /** The callback of a request whose object is a QoS 2 message. */
  predicate CompletesQos2(e: Event)
  {
    e.Completed? && e.value.body.PublishBody? && e.value.body.publish.qos == 2
  }

  predicate NoQos2Callback(before: seq<Event>, after: seq<Event>)
  {
    before <= after && forall i :: |before| <= i < |after| ==> !CompletesQos2(after[i])
  }

  /** A complete packet of a connected client calls back its own request, a QoS 2 message only for PUBCOMP. */
  lemma PacketCallback(env: Env, c: Client)
    requires Received(c) && RxComplete(c.rx) && !c.rx.slot.body.ConnectBody?
    ensures var d := FinishPacket(env, c);
            && d.log == (if c.rx.slot.body.NoBody? then c.log else c.log + [Completed(SlotKind(c.rx), c.rx.slot, true)])
            && (c.rx.slot.body.PublishBody? && c.rx.slot.body.publish.qos == 2 <==> c.rx.decoder.DPubcomp?)
  {
    hide TxValid, WellStored;
  }

  /** The encoder calls back only what expects no response. */
  lemma {:induction false} EncodeCallsNoQos2(env: Env, w: TxWorld, room: nat)
    requires UnsentWellFormed(w.store)
    ensures NoQos2Callback(w.log, EncodeLoop(env, w, room).world.log)
    decreases |w.store.entries| - w.store.pos,
              if w.store.HasCurrent() && w.tx.pos < |CurrentFields(w)| then |CurrentFields(w)| - w.tx.pos else 0
  {
    hide Fields, FieldBytes, FieldStep, Encodable, ValidPublish, ValidConnect, ValidSubscribe;
    if w.tx.closed || !w.store.HasCurrent() {
    } else if w.tx.pos >= |CurrentFields(w)| {
      var next := FinishEntry(env, w);
      FinishCallsNoQos2(env, w);
      if next.tx.error.None? { EncodeCallsNoQos2(env, next, room); }
    } else if !HeaderAborts(w) {
      var (result, count) := FieldStep(ActiveField(w), w.tx.offset, room);
      if result.Finished? {
        EncodeCallsNoQos2(env, w.(tx := w.tx.(pos := w.tx.pos + 1, offset := 0, built := None)),
                          if count <= room then room - count else 0);
      }
    }
  }

  lemma FinishCallsNoQos2(env: Env, w: TxWorld)
    requires UnsentWellFormed(w.store) && w.store.HasCurrent()
    ensures NoQos2Callback(w.log, FinishEntry(env, w).log)
  {
    hide Fields, ValidPublish, ValidConnect, ValidSubscribe;
    assert WellFormed(w.store.Current());
  }

  /** The byte is the last one of a PUBCOMP, control packet type 7, and a PUBREL with the id it carries was sent. */
  predicate CompletesPubcomp(c: Client, b: byte)
    requires c.main.Valid()
  {
    && c.rx.headerFinished && c.rx.header.htype == 7 && c.rx.remainPos == 1 && c.rx.header.remainingLength == 2
    && c.main.PopMarked(Pubrel, IdByte(c.rx.packetId, false, b)).1.Some?
  }

  /** The value of the PUBREL that this PUBCOMP answers. */
  function CompletedBy(c: Client, b: byte): Value
    requires c.main.Valid() && CompletesPubcomp(c, b)
  {
    c.main.PopMarked(Pubrel, IdByte(c.rx.packetId, false, b)).1.value
  }

  /** The one event is the successful callback of that request. */
  predicate CallsBack(c: Client, b: byte, log: seq<Event>)
    requires c.main.Valid()
  {
    && CompletesPubcomp(c, b) && log == c.log + [Completed(Pubrel, CompletedBy(c, b), true)]
    && CompletedBy(c, b).packetId == IdByte(c.rx.packetId, false, b) && CompletesQos2(log[|c.log|])
  }

  lemma DecodeCallback(env: Env, c: Client, b: byte)
    requires Inv(c) && IsConnected(c)
    ensures c.main.Valid() && c.conn.Valid() && c.rx.error.None?
    ensures var d := DecodeByte(env, c, b);
            if CompletesPubcomp(c, b) then CallsBack(c, b, d.log) else NoQos2Callback(c.log, d.log)
  {
    hide Inv, RxStep, FinishPacket, HasIdChange, Received, HasEffect, WellFormed, RxInv, StoreState.PopMarked,
         IsConnected,
         IsConnecting, Common, SlotMatches;
    ConnectedFacts(c);
    DecodingFacts(c);
    var eff := ByteReceived(env, c, b);
    var out := RxStep(env, LinkOf(c), b);
    var next := WithLink(c, out.link);
    var change := RxStepIdChange(env, LinkOf(c), b);
    PacketEventsOf(LinkOf(c), out.link, change);
    PubcompCompletes(env, LinkOf(c), b);
    PopMarkedKeepsUnsent(c.main, Pubrel, IdByte(c.rx.packetId, false, b));
    if out.call {
      SlotStaysResponse(next);
      PacketCallback(env, next);
    }
  }

  lemma ConnectedFacts(c: Client)
    requires Inv(c) && IsConnected(c)
    ensures CanDecode(c) && !c.closed && WellStored(c) && c.current.Main? && c.rxStore.Main?
  {
    hide WellFormed, TxValid;
  }

  lemma SlotStaysResponse(c: Client)
    requires Received(c) && c.current.Main?
    ensures !c.rx.slot.body.ConnectBody?
  {
    hide TxValid, WellStored;
  }

  /** A PUBCOMP is complete with the second byte of its id, if a PUBREL with this id was sent. */
  lemma PubcompCompletes(env: Env, l: Link, b: byte)
    requires RxInv(l.rx) && l.rx.error.None? && l.store.Valid()
    ensures var out := RxStep(env, l, b);
            var popped := l.store.PopMarked(Pubrel, IdByte(l.rx.packetId, false, b)).1;
            && (out.call && out.link.rx.decoder.DPubcomp? <==>
                  l.rx.headerFinished && l.rx.header.htype == 7 && l.rx.remainPos == 1
                  && l.rx.header.remainingLength == 2 && popped.Some?)
            && (out.call && out.link.rx.decoder.DPubcomp? ==> out.link.rx.slot == popped.value && out.link.log == l.log)
  {
    hide PublishByte, StoreState.PopMarked;
    if l.rx.headerFinished {
      if l.rx.decoder.DPublish? { PublishKeepsDecoder(env, l, b); }
      if l.rx.decoder.DPubcomp? && l.rx.remainPos == 1 { SecondIdByte(env, l, b); }
    } else {
      HeaderCompletesNoPubcomp(l, b);
    }
  }

  lemma SecondIdByte(env: Env, l: Link, b: byte)
    requires RxInv(l.rx) && l.rx.error.None? && l.store.Valid() && l.rx.headerFinished
    requires l.rx.decoder.DPubcomp? && l.rx.remainPos == 1
    ensures var out := RxStep(env, l, b);
            var popped := l.store.PopMarked(Pubrel, IdByte(l.rx.packetId, false, b)).1;
            && (out.call <==> l.rx.header.remainingLength == 2 && popped.Some?)
            && (out.call ==> out.link.rx.slot == popped.value && out.link.log == l.log)
  {
    hide StoreState.PopMarked;
    var id := IdByte(l.rx.packetId, false, b);
    assert id % 65536 == id;
  }

  lemma HeaderCompletesNoPubcomp(l: Link, b: byte)
    requires l.store.Valid() && l.rx.remainPos == 0
    ensures HeaderByte(l, b).call ==> !HeaderByte(l, b).link.rx.decoder.DPubcomp?
  {
    hide StoreState.PopMarked;
  }

  /** While connected, the callback of a QoS 2 message runs only on PUBCOMP. Every step of a connected client
      but end of stream and finalize, failing ones included, makes no such callback, except for one: decoding
      the last byte of a PUBCOMP whose PUBREL was sent makes exactly one, for the request with the id that was
      received, and reports success. */
  lemma StepCompletesOnPubcomp(env: Env, c: Client, op: Op)
    requires Inv(c) && WellStored(c) && IsConnected(c) && !op.Eof? && !op.DoFinalize?
    ensures c.main.Valid()
    ensures var d := Step(env, c, op);
            if op.DecodeOne? && c.readBuf != [] && CompletesPubcomp(c, c.readBuf[0])
            then CallsBack(c, c.readBuf[0], d.log) else NoQos2Callback(c.log, d.log)
  {
    hide Inv, WellFormed, Request, DecodeByte, EncodeLoop, KeepAliveStep, Finalize, SetStateInitial, CompletesPubcomp,
         CallsBack;
    if IsRequest(op) {
      RequestIsSilent(c, op);
    } else {
      match op {
        case EncodeMore =>
          WellStoredUnsent(c, c.txStore);
          if |c.writeBuf| < c.writeCap {
            EncodeCallsNoQos2(env, TxWorldOf(c), c.writeCap - |c.writeBuf|);
          }
        case DecodeOne => if c.readBuf != [] { DecodeCallback(env, c, c.readBuf[0]); }
        case KeepAlive(now) => KeepAliveIsSilent(c, now);
        case _ =>
      }
    }
  }

  /** The same at every step of every run. */
  lemma Qos2CompletesOnPubcomp(env: Env, c: Client, ops: seq<Op>, i: nat)
    requires Inv(c) && i < |ops|
    ensures var before := Run(env, c, ops[..i]);
            && WellStored(before) && before.main.Valid()
            && (IsConnected(before) && !ops[i].Eof? && !ops[i].DoFinalize? ==>
                  var after := Step(env, before, ops[i]);
                  if ops[i].DecodeOne? && before.readBuf != [] && CompletesPubcomp(before, before.readBuf[0])
                  then CallsBack(before, before.readBuf[0], after.log) else NoQos2Callback(before.log, after.log))
  {
    hide Run, Inv, WellStored, Step, IsConnected, CompletesPubcomp, CallsBack;
    RunKeepsInv(env, c, ops[..i]);
    var before := Run(env, c, ops[..i]);
    InvCommon(before);
    if IsConnected(before) && !ops[i].Eof? && !ops[i].DoFinalize? { StepCompletesOnPubcomp(env, before, ops[i]); }
  }
}
