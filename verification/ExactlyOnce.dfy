/** Every request is called back exactly once, over whole runs that end with finalize. */
module ExactlyOnce {
  import opened Types
  import opened Clock
  import opened Wire
  import opened Receive
  import opened Transmit
  import opened PacketStore
  import opened Session
  import opened SessionInvariant
  import opened EntryTally
  import opened Accounting

  /** No callback returns 0. */
  ghost predicate AlwaysAccepts(env: Env) { forall log :: env.accept(log) }

  predicate NeverFinalizes(ops: seq<Op>) { forall i :: 0 <= i < |ops| ==> !ops[i].DoFinalize? }

  /** The client connects again although the decoder holds a request whose response is half decoded. */
  predicate DropsResponse(c: Client, op: Op)
  {
    op.DoConnect? && Request(c, op).1 && !c.rx.slot.body.NoBody?
  }

  predicate DropsNothing(env: Env, c: Client, ops: seq<Op>)
    requires Inv(c)
    decreases |ops|
  {
    ops == [] ||
    (!DropsResponse(c, ops[0]) && (StepKeepsInv(env, c, ops[0]); DropsNothing(env, Step(env, c, ops[0]), ops[1..])))
  }

  /** 1 if this call is accepted with this request object. */
  function Accepts(c: Client, op: Op, r: nat): nat
  {
    if IsRequest(op) && !op.DoDisconnect? && Request(c, op).1 && op.ref == r then 1 else 0
  }

  /** How often a run accepts this request object. */
  function AcceptedTimes(env: Env, c: Client, ops: seq<Op>, r: nat): nat
    requires Inv(c)
    decreases |ops|
  {
    if ops == [] then 0
    else
      StepKeepsInv(env, c, ops[0]);
      Accepts(c, ops[0], r) + AcceptedTimes(env, Step(env, c, ops[0]), ops[1..], r)
  }

  /** The rx slot's callback was not made yet, and no callback was made twice. */
  predicate Untold(c: Client) { !c.audit.slotCalled && c.audit.repeated == multiset{} }

  lemma FinishStaysUntold(env: Env, c: Client)
    requires AlwaysAccepts(env) && c.main.Valid()
    ensures FinishPacket(env, c).audit == c.audit
  {
    FinishPacketBuffers(env, c);
    hide KeepSession, FlushLog;
  }

  lemma DecodeStaysUntold(env: Env, c: Client)
    requires AlwaysAccepts(env) && c.main.Valid() && c.conn.Valid()
    ensures DecodeStep(env, c).audit == c.audit.(decoded := DecodeStep(env, c).audit.decoded)
  {
    hide RxStep, FinishPacket;
    if c.error.None? && c.rx.error.None? && c.readBuf != [] {
      var next := WithLink(c, RxStep(env, LinkOf(c), c.readBuf[0]).link);
      FinishStaysUntold(env, next);
    }
  }

  /** From `c` to `d`, `n` requests with this object were accepted. */
  predicate Booked(c: Client, d: Client, r: nat, n: nat)
  {
    d.audit.accepted[r] == c.audit.accepted[r] + n && (!c.audit.slotCalled ==> !d.audit.slotCalled)
  }

  function Counts(e: Entry, ok: bool, r: nat): nat { if ok && !e.value.body.NoBody? && e.value.ref == r then 1 else 0 }

  lemma RequestAudit(c: Client, op: Op, r: nat)
    requires IsRequest(op)
    ensures Booked(c, Request(c, op).0, r, Accepts(c, op, r))
  {
    hide ValidConnect, ValidSubscribe, ValidPublish, SetStateConnecting, Accept, TakeId, Booked, ConnectRequested;
    NothingBooked(c, r);
    match op {
      case DoConnect(q, ref) => ConnectingAudit(c, q, ref, r);
      case DoPublish(p, ref) =>
        AcceptAudit(c, Entry(Publish0, Value(0, ref, PublishBody(p))), r);
        AcceptAudit(c, Entry(if p.qos == 1 then Publish1 else Publish2, Value(c.main.nextId, ref, PublishBody(p))), r);
      case DoDisconnect => AcceptAudit(c, Entry(Disconnect, ZERO_VALUE), r);
      case DoSubscribe(subs, ref) =>
        AcceptAudit(c, Entry(Subscribe, Value(c.main.nextId, ref, SubscribeBody(subs))), r);
      case DoUnsubscribe(subs, ref) =>
        AcceptAudit(c, Entry(Unsubscribe, Value(c.main.nextId, ref, SubscribeBody(subs))), r);
    }
  }

  lemma NothingBooked(c: Client, r: nat)
    ensures Booked(c, c, r, 0)
  {
  }

  lemma AcceptAudit(c: Client, e: Entry, r: nat)
    ensures Booked(c, Accept(c, e).0, r, Counts(e, Accept(c, e).1, r))
    ensures Booked(c, Accept(TakeId(c), e).0, r, Counts(e, Accept(TakeId(c), e).1, r))
  {
  }

  lemma ConnectingAudit(c: Client, q: ConnectRequest, ref: nat, r: nat)
    ensures var (d, ok) := ConnectRequested(c, q, ref); Booked(c, d, r, if ok && ref == r then 1 else 0)
  {
    hide ValidConnect;
  }

  lemma OtherAudit(env: Env, c: Client, op: Op)
    requires AlwaysAccepts(env) && WellStored(c) && !IsRequest(op) && !op.DoFinalize?
    ensures var d := Step(env, c, op);
            d.audit.accepted == c.audit.accepted && d.audit.slotCalled == c.audit.slotCalled
  {
    hide DecodeStep, Encode, CleanupStores, WellFormed, StoreState.GetTimeout;
    match op {
      case DoReset(now) => CleanupLosesNothing(
        SetCurrentStore(c.(error := None, closed := true, conn := c.conn.(lastTouch := now)), Conn), !c.cleanSession);
      case Eof(now) => CleanupLosesNothing(
        SetCurrentStore(c.(error := None, closed := true, conn := c.conn.(lastTouch := now)), Conn), !c.cleanSession);
      case DecodeOne => DecodeStaysUntold(env, c);
      case _ =>
    }
  }

  /** One step: what it does to the books. */
  lemma StepAudit(env: Env, c: Client, op: Op, r: nat)
    requires AlwaysAccepts(env) && Inv(c) && WellStored(c) && Untold(c) && !op.DoFinalize?
    ensures var d := Step(env, c, op);
            && Untold(d) && d.audit.accepted[r] == c.audit.accepted[r] + Accepts(c, op, r)
            && c.audit.lost <= d.audit.lost && (d.audit.lost == c.audit.lost <==> !DropsResponse(c, op))
  {
    hide Inv, WellStored, Step, Request;
    WhenRequestsAreLostOrRepeated(env, c, op);
    StepLosses(env, c, op);
    if IsRequest(op) {
      RequestAudit(c, op, r);
      StepIsRequest(env, c, op);
    } else {
      OtherAudit(env, c, op);
    }
  }

  lemma StepLosses(env: Env, c: Client, op: Op)
    requires WellStored(c)
    ensures c.audit.lost <= Step(env, c, op).audit.lost
  {
    hide Request, WellStored, Step;
    WhenRequestsAreLostOrRepeated(env, c, op);
    if IsRequest(op) {
      StepIsRequest(env, c, op);
      RequestLosses(c, op);
    }
  }

  /** Without finalize, a run loses nothing exactly when it drops no half-decoded response. */
  lemma {:induction false} RunAudit(env: Env, c: Client, ops: seq<Op>, r: nat)
    requires AlwaysAccepts(env) && Inv(c) && Untold(c) && NeverFinalizes(ops)
    ensures var d := Run(env, c, ops);
            && Untold(d) && d.audit.accepted[r] == c.audit.accepted[r] + AcceptedTimes(env, c, ops, r)
            && c.audit.lost <= d.audit.lost && (d.audit.lost == c.audit.lost <==> DropsNothing(env, c, ops))
    decreases |ops|
  {
    hide Inv, WellStored, Step, DropsResponse, Accepts, AlwaysAccepts;
    if ops != [] {
      StepKeepsInv(env, c, ops[0]);
      StepAudit(env, c, ops[0], r);
      RunAudit(env, Step(env, c, ops[0]), ops[1..], r);
    }
  }

  /** What finalize does to the books of a run without second callbacks. */
  lemma FinalBooks(env: Env, c: Client, r: nat)
    requires Inv(c) && WellStored(c) && Balanced(c, r) && Untold(c)
    ensures var d := Step(env, c, DoFinalize);
            && d.main.entries == [] && d.conn.entries == [] && InFlight(d, Requests, r) == 0
            && CallbacksMade(d.log, r) + c.audit.lost[r] == c.audit.accepted[r]
  {
    hide Inv, WellStored, Balanced, InFlight;
    FinalizeCompletesEverything(env, c, r);
    FinalizeLosses(env, c);
    FinalizeAccepts(env, c);
  }

  lemma FinalizeAccepts(env: Env, c: Client)
    requires c.main.Valid()
    ensures Finalize(env, c).audit.accepted == c.audit.accepted
  {
    hide CleanupStores, CallSlot;
    ClosedCallKeepsAudit(env, FailWith(c, Closed));
    CleanupLosesNothing(FinishSlot(env, FailWith(c, Closed)), false);
  }

  lemma ClosedCallKeepsAudit(env: Env, c: Client)
    requires c.main.Valid() && c.closed
    ensures CallSlot(env, c).0.audit == c.audit
  {
  }

  lemma EmptyMeansNone(m: multiset<nat>)
    ensures m == multiset{} <==> forall r :: m[r] == 0
  {
    if m != multiset{} { var r :| r in m; assert m[r] > 0; }
  }

  /** Every request object was called back exactly as often as the run accepted it. */
  ghost predicate CalledAsAccepted(env: Env, c: Client, ops: seq<Op>, log: seq<Event>)
    requires Inv(c)
  {
    forall r: nat :: CallbacksMade(log, r) == AcceptedTimes(env, c, ops, r)
  }

  /** Exactly once. For applications whose callbacks never return 0: after any run from initialize,
      finalize leaves nothing behind, no request object was called back more often than it was accepted,
      and every one was called back exactly as often as it was accepted if and only if the client never
      connected again while it held a request whose response was half decoded. */
  lemma CallbacksExactlyOnce(env: Env, storeCap: nat, idCap: nat, readCap: nat, writeCap: nat, now: Time, ops: seq<Op>)
    requires AlwaysAccepts(env) && NeverFinalizes(ops)
    ensures Inv(Initial(storeCap, idCap, readCap, writeCap, now))
    ensures var start := Initial(storeCap, idCap, readCap, writeCap, now);
            WellStored(Run(env, start, ops)) &&
            var d := Step(env, Run(env, start, ops), DoFinalize);
            && d.main.entries == [] && d.conn.entries == [] && (forall r :: InFlight(d, Requests, r) == 0)
            && (forall r :: CallbacksMade(d.log, r) <= AcceptedTimes(env, start, ops, r))
            && (CalledAsAccepted(env, start, ops, d.log) <==> DropsNothing(env, start, ops))
  {
    hide Run, Inv, WellStored, Step, DropsNothing, AcceptedTimes, Balanced, InFlight;
    var start := Initial(storeCap, idCap, readCap, writeCap, now);
    InitialInv(storeCap, idCap, readCap, writeCap, now);
    StartsEmpty(storeCap, idCap, readCap, writeCap, now);
    RunKeepsInv(env, start, ops);
    var c := Run(env, start, ops);
    InvCommon(c);
    forall r ensures c.audit.accepted[r] == AcceptedTimes(env, start, ops, r) && Untold(c)
                     && (c.audit.lost == multiset{} <==> DropsNothing(env, start, ops)) {
      RunAudit(env, start, ops, r);
    }
    var d := Step(env, c, DoFinalize);
    forall r ensures d.main.entries == [] && d.conn.entries == [] && InFlight(d, Requests, r) == 0
                     && CallbacksMade(d.log, r) + c.audit.lost[r] == AcceptedTimes(env, start, ops, r) {
      RunKeepsBalance(env, start, ops, r);
      RunAudit(env, start, ops, r);
      FinalBooks(env, c, r);
    }
    RunAudit(env, start, ops, 0);
    RunKeepsBalance(env, start, ops, 0);
    FinalBooks(env, c, 0);
    EmptyMeansNone(c.audit.lost);
    if CalledAsAccepted(env, start, ops, d.log) {
      forall r ensures c.audit.lost[r] == 0 {
        assert CallbacksMade(d.log, r) == AcceptedTimes(env, start, ops, r);
      }
      assert DropsNothing(env, start, ops);
    } else {
      var r: nat :| CallbacksMade(d.log, r) != AcceptedTimes(env, start, ops, r);
      assert c.audit.lost[r] > 0;
      assert !DropsNothing(env, start, ops);
    }
  }

  lemma StartsEmpty(storeCap: nat, idCap: nat, readCap: nat, writeCap: nat, now: Time)
    ensures var c := Initial(storeCap, idCap, readCap, writeCap, now);
            && Untold(c) && c.audit.accepted == multiset{} && c.audit.lost == multiset{} && forall r :: Balanced(c, r)
  {
    var c := Initial(storeCap, idCap, readCap, writeCap, now);
    assert c.log == [] && c.main.entries == [] && c.conn.entries == [] && c.rx == RESET_RX;
  }
}
