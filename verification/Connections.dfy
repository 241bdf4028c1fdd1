/** What a whole client sends on one connection: the CONNECT, and after the CONNACK the packets of the
    queue it resumes followed by everything queued since, whoever queued it. */
module Connections {
  import opened Types
  import opened Clock
  import opened PacketStore
  import opened Wire
  import opened Transmit
  import opened TransmitRuns
  import opened Receive
  import opened ReceiveInvariant
  import opened Session
  import opened SessionInvariant
  import opened EntryTally
  import opened Reconnect
  import opened Resend
  import opened RunSteps
  import opened ServerReading
  import opened Staging

  /** Connecting or connected. */
  predicate Online(c: Client) { Inv(c) && !c.closed }

  // ----- what a step queues -----

  /** The answer that a received byte completes: PUBACK or PUBREC behind the last byte of a PUBLISH, PUBCOMP
      behind the id of a PUBREL, and PUBREL behind a PUBREC that answers a sent PUBLISH. */
  function Answer(l: Link, b: byte): Option<Entry>
    requires l.store.Valid()
  {
    var id := IdByte(l.rx.packetId, false, b);
    if !l.rx.headerFinished then None
    else if l.rx.decoder.DPublish? then
      if l.rx.remainPos + 1 < l.rx.header.remainingLength || l.rx.header.qos == 0 then None
      else Some(Entry(if l.rx.header.qos == 2 then Pubrec else Puback, Value(PublishId(l, b), 0, NoBody)))
    else if l.rx.decoder.DPubrel? && l.rx.remainPos == 1 then Some(Entry(Pubcomp, Value(id, 0, NoBody)))
    else if l.rx.decoder.DPubrec? && l.rx.remainPos == 1 && l.rx.header.remainingLength == 2 then
      match l.store.PopMarked(Publish2, id).1
      case Some(v) => Some(Entry(Pubrel, v))
      case None => None
    else None
  }

  /** The packet id of a PUBLISH, this byte included. */
  function PublishId(l: Link, b: byte): U16
  {
    var start := 2 + l.rx.topicLen;
    if start <= l.rx.remainPos < start + PublishIdLength(l)
      then IdByte(l.rx.packetId, l.rx.remainPos == start, b) % 65536
    else l.rx.packetId % 65536
  }

  /** An answer is queued if there is a place for it; a PUBREL takes the place of its PUBLISH. */
  function Answered(l: Link, b: byte): seq<Entry>
    requires l.store.Valid()
  {
    match Answer(l, b)
    case Some(e) => if e.kind.Pubrel? || l.store.Queueable() then [e] else []
    case None => []
  }

  /** What a step of an online client queues: the entry of an accepted request, the answer that a byte
      completes, or the PINGREQ of an idle line. */
  function Queues(c: Client, op: Op): seq<Entry>
    requires c.main.Valid() && c.conn.Valid()
  {
    if IsRequest(op) then
      match Queued(c, op)
      case Some(e) => if Request(c, op).1 then [e] else []
      case None => []
    else
      match op
      case DecodeOne => if c.readBuf == [] then [] else Answered(LinkOf(c), c.readBuf[0])
      case KeepAlive(now) =>
        var (active, count, left) := StoreOf(c, c.current).GetTimeout(now);
        if c.slots.pingreq && active && left == ZERO_TIME && count == 0 && c.main.Queueable()
        then [Entry(Pingreq, ZERO_VALUE)] else []
      case _ => []
  }

  /** The unsent entries of `t` are those of `s` and then `es`. */
  predicate Adds(s: StoreState, t: StoreState, es: seq<Entry>)
    requires s.Valid() && t.Valid()
  {
    t.entries[t.pos..] == s.entries[s.pos..] + es
  }

  /** The client stays online, on the same store, from before the first to after the last step. */
  predicate StaysOnline(env: Env, c: Client, ops: seq<Op>)
    decreases |ops|
  {
    && Online(c)
    && (ops != [] ==>
          (StepKeepsInv(env, c, ops[0]);
           Step(env, c, ops[0]).current == c.current && StaysOnline(env, Step(env, c, ops[0]), ops[1..])))
  }

  /** Everything a run queues, in order. */
  function QueuedBy(env: Env, c: Client, ops: seq<Op>): seq<Entry>
    requires StaysOnline(env, c, ops)
    decreases |ops|
  {
    if ops == [] then []
    else
      StepKeepsInv(env, c, ops[0]);
      InvCommon(c);
      Queues(c, ops[0]) + QueuedBy(env, Step(env, c, ops[0]), ops[1..])
  }

  // ----- steps that send nothing -----

  /** The encoder sees the same packet at the same place, and `es` behind everything unsent. */
  ghost predicate Quiet(w: TxWorld, v: TxWorld, es: seq<Entry>)
    requires w.store.Valid() && v.store.Valid()
  {
    v.tx == w.tx && v.encodes == w.encodes && Unsent(v) == Unsent(w) + es
  }

  /** Entries queued behind the current packet add exactly their own packets. */
  lemma QuietAddsUp(w: TxWorld, v: TxWorld, es: seq<Entry>, later: seq<Entry>)
    requires TxValid(w) && TxValid(v) && Quiet(w, v, es) && AllWellFormed(later)
    ensures AllWellFormed(es + later) && Pending(v) + Beyond(v, later) == Pending(w) + Beyond(w, es + later)
  {
    hide TxValid, Pending, Stream, WellFormed, Ends, AfterAll;
    TxIsStored(w);
    TxIsStored(v);
    UnsentAreWellFormed(v);
    assert es == Unsent(v)[|Unsent(w)|..] && AllWellFormed(es);
    if w.tx.closed || w.tx.error.Some? {
      ClosedPendsNothing(w);
      ClosedPendsNothing(v);
    } else {
      StreamConcat(Unsent(w), es, w.encodes);
      StreamConcat(es, later, AfterAll(w.encodes, Unsent(w)));
      if w.store.HasCurrent() { QuietTail(w, v, es); } else { QuietRest(w, v, es); }
    }
  }

  lemma ClosedPendsNothing(w: TxWorld)
    requires TxValid(w) && (w.tx.closed || w.tx.error.Some?)
    ensures Pending(w) == []
  {
    hide UnsentWellFormed;
  }

  lemma UnsentAreWellFormed(w: TxWorld)
    requires UnsentWellFormed(w.store)
    ensures AllWellFormed(Unsent(w))
  {
    hide WellFormed;
  }

  lemma QuietTail(w: TxWorld, v: TxWorld, es: seq<Entry>)
    requires TxValid(w) && TxValid(v) && Quiet(w, v, es) && AllWellFormed(es)
    requires !w.tx.closed && w.tx.error.None? && w.store.HasCurrent()
    ensures Pending(v) == Pending(w) + (if Ends(Unsent(w)) then [] else Stream(es, AfterAll(w.encodes, Unsent(w))))
  {
    hide Fields, FieldsBytes, FieldBytes, Stream, WellFormed, OffsetValid, Ends, AfterAll;
    assert Unsent(v)[0] == Unsent(w)[0] && v.store.Current() == w.store.Current();
    var tail := w.store.entries[w.store.pos + 1..];
    assert Unsent(w)[1..] == tail && v.store.entries[v.store.pos + 1..] == Unsent(v)[1..] == tail + es;
    UnsentHead(w);
    UnsentAreWellFormed(w);
    assert AllWellFormed(tail);
    StreamConcat(tail, es, After(w.encodes, w.store.Current()));
  }

  lemma QuietRest(w: TxWorld, v: TxWorld, es: seq<Entry>)
    requires TxValid(w) && TxValid(v) && Quiet(w, v, es) && AllWellFormed(es)
    requires !w.tx.closed && w.tx.error.None? && !w.store.HasCurrent()
    ensures Pending(v) == Pending(w) + Stream(es, AfterAll(w.encodes, Unsent(w))) && !Ends(Unsent(w))
  {
    hide Fields, FieldsBytes, FieldBytes, Stream, WellFormed, OffsetValid;
    assert Unsent(w) == [] && Unsent(v) == es;
    PendingAtRest(v);
  }

  /** A step that sends nothing, queues `es` and leaves the client on the same store. */
  ghost predicate QuietStep(c: Client, d: Client, es: seq<Entry>)
    requires c.main.Valid() && c.conn.Valid()
  {
    && d.main.Valid() && d.conn.Valid() && d.txStore == c.txStore && d.current == c.current
    && Quiet(TxWorldOf(c), TxWorldOf(d), es) && d.audit.encoded == c.audit.encoded
  }

  lemma AcceptIsQuiet(c: Client, e: Entry)
    requires c.main.Valid() && c.conn.Valid() && c.txStore.Main?
    ensures QuietStep(c, Accept(c, e).0, if Accept(c, e).1 then [e] else []) && (Accept(c, e).1 <==> c.main.Queueable())
  {
    if c.main.Queueable() { assert Unsent(TxWorldOf(Accept(c, e).0)) == Unsent(TxWorldOf(c)) + [e]; }
  }

  lemma AcceptWithIdIsQuiet(c: Client, e: Entry)
    requires c.main.Valid() && c.conn.Valid() && c.txStore.Main?
    ensures var (d, ok) := Accept(TakeId(c), e); QuietStep(c, d, if ok then [e] else [])
  {
    hide Accept;
    AcceptIsQuiet(TakeId(c), e);
    QuietTwice(c, TakeId(c), Accept(TakeId(c), e).0, [], if Accept(TakeId(c), e).1 then [e] else []);
  }

  lemma RequestIsQuiet(c: Client, op: Op)
    requires Online(c) && IsRequest(op) && c.main.Valid() && c.conn.Valid()
    ensures QuietStep(c, Request(c, op).0, Queues(c, op))
    ensures c.current.Conn? ==> Request(c, op).0 == c && Queues(c, op) == []
  {
    hide Inv, ValidConnect, ValidSubscribe, ValidPublish, IsOpen, Accept, TakeId, QuietStep, SetStateConnecting,
         Answered,
         StoreState.GetTimeout;
    OnlinePhase(c);
    SelfQuiet(c);
    if c.current.Main? {
      match op {
        case DoConnect(q, ref) =>
        case DoDisconnect => AcceptIsQuiet(c, Entry(Disconnect, ZERO_VALUE));
        case DoPublish(p, ref) =>
          AcceptIsQuiet(c, Entry(Publish0, Value(0, ref, PublishBody(p))));
          AcceptWithIdIsQuiet(c,
            Entry(if p.qos == 1 then Publish1 else Publish2, Value(c.main.nextId, ref, PublishBody(p))));
        case DoSubscribe(subs, ref) =>
          AcceptWithIdIsQuiet(c, Entry(Subscribe, Value(c.main.nextId, ref, SubscribeBody(subs))));
        case DoUnsubscribe(subs, ref) =>
          AcceptWithIdIsQuiet(c, Entry(Unsubscribe, Value(c.main.nextId, ref, SubscribeBody(subs))));
      }
    }
  }

  lemma SelfQuiet(c: Client)
    requires c.main.Valid() && c.conn.Valid()
    ensures QuietStep(c, c, [])
  {
  }

  lemma OnlinePhase(c: Client)
    requires Online(c)
    ensures c.error.None? && c.rx.error.None? && c.tx.error.None? && TxValid(TxWorldOf(c))
    ensures WellStored(c) && c.main.Valid() && c.conn.Valid()
    ensures c.txStore == c.current && c.rxStore == c.current
    ensures if c.current.Conn? then IsConnecting(c) else IsConnected(c)
  {
    hide WellFormed, RxInv, TxValid;
  }

  lemma KeepAliveIsQuiet(c: Client, now: Time)
    requires Online(c) && c.main.Valid() && c.conn.Valid() && !KeepAliveStep(c, now).closed
    ensures QuietStep(c, KeepAliveStep(c, now), Queues(c, KeepAlive(now)))
    ensures c.current.Conn? ==> KeepAliveStep(c, now) == c && Queues(c, KeepAlive(now)) == []
  {
    hide Inv, IsOpen, Accept, QuietStep, StoreState.GetTimeout, Answered;
    OnlinePhase(c);
    SelfQuiet(c);
    if c.current.Main? {
      var (active, count, left) := c.main.GetTimeout(now);
      AcceptIsQuiet(c, Entry(Pingreq, ZERO_VALUE));
      if active && left == ZERO_TIME && count == 0 {
        assert KeepAliveStep(c, now) == Accept(c, Entry(Pingreq, ZERO_VALUE)).0;
      } else {
        assert KeepAliveStep(c, now) == c;
      }
    }
  }

  lemma TxIsStored(w: TxWorld)
    requires TxValid(w)
    ensures w.store.Valid() && UnsentWellFormed(w.store)
  {
    hide WellFormed, Fields;
  }

  /** The callback of a packet that is no CONNACK touches neither store. */
  lemma CallbackIsQuiet(env: Env, c: Client)
    requires c.main.Valid() && c.conn.Valid() && !c.rx.slot.body.ConnectBody?
    ensures var d := FinishPacket(env, c);
            && QuietStep(c, d, []) && d.main == c.main && d.conn == c.conn
            && d.encodes == c.encodes && d.txStore == c.txStore && (d.rx.error.None? ==> d.rx == RESET_RX)
  {
  }

  lemma ConnackOpens(env: Env, c: Client)
    requires c.main.Valid() && !c.closed && c.rx.slot.body.ConnectBody?
    ensures FinishPacket(env, c).current.Main?
  {
    hide CleanupStores;
    var q := c.rx.slot.body.connect;
    var told := c.(cleanSession := q.cleanSession, main := c.main.(keepAlive := q.keepAlive));
    CleanupFrame(SetCurrentStore(told.(error := None, closed := false), Main), !told.cleanSession);
  }

  lemma ByteIsQuiet(env: Env, c: Client, b: byte)
    requires Online(c) && c.main.Valid() && c.conn.Valid() && DecodeByte(env, c, b).current == c.current
    requires DecodeByte(env, c, b).rx.error.None?
    ensures QuietStep(c, DecodeByte(env, c, b), Answered(LinkOf(c), b))
  {
    hide Inv, TxValid, RxStep, FinishPacket, RxInv, HasEffect, QuietStep, WellFormed, Common, SlotMatches, Answered,
         Adds;
    OnlinePhase(c);
    DecodingFacts(c);
    var eff := ReceivedAfterByte(env, c, b);
    var out := RxStep(env, LinkOf(c), b);
    var next := WithLink(c, out.link);
    ByteAnswers(env, LinkOf(c), b);
    LinkIsQuiet(c, out.link, Answered(LinkOf(c), b));
    if out.call {
      if next.rx.slot.body.ConnectBody? { ConnackOpens(env, next); }
      CallbackIsQuiet(env, next);
      QuietTwice(c, next, FinishPacket(env, next), Answered(LinkOf(c), b), []);
    }
  }

  lemma LinkIsQuiet(c: Client, m: Link, es: seq<Entry>)
    requires c.main.Valid() && c.conn.Valid() && c.rxStore == c.txStore && m.store.Valid()
    ensures Adds(LinkOf(c).store, m.store, es) ==> QuietStep(c, WithLink(c, m), es)
  {
  }

  lemma QuietTwice(c: Client, d: Client, e: Client, a: seq<Entry>, b: seq<Entry>)
    requires c.main.Valid() && c.conn.Valid() && QuietStep(c, d, a) && QuietStep(d, e, b)
    ensures QuietStep(c, e, a + b) && a + [] == a && [] + b == b
  {
  }

  lemma DecodeIsQuiet(env: Env, c: Client)
    requires Online(c) && c.main.Valid() && c.conn.Valid()
    requires !DecodeStep(env, c).closed && DecodeStep(env, c).current == c.current
    ensures QuietStep(c, DecodeStep(env, c), Queues(c, DecodeOne))
  {
    hide Inv, DecodeByte, QuietStep, Answered, StoreState.GetTimeout;
    OnlinePhase(c);
    SelfQuiet(c);
    if c.readBuf != [] {
      var next := DecodeByte(env, c, c.readBuf[0]);
      if next.rx.error.None? {
        ByteIsQuiet(env, c, c.readBuf[0]);
        BuffersAreQuiet(c, next, DecodeStep(env, c), Answered(LinkOf(c), c.readBuf[0]));
      }
    }
  }

  lemma BuffersAreQuiet(c: Client, d: Client, e: Client, es: seq<Entry>)
    requires c.main.Valid() && c.conn.Valid() && QuietStep(c, d, es)
    requires e == d.(readBuf := e.readBuf, writeBuf := e.writeBuf, audit := e.audit)
             && e.audit.encoded == d.audit.encoded
    ensures QuietStep(c, e, es)
  {
  }

  lemma ClockIsQuiet(c: Client, d: Client)
    requires c.main.Valid() && c.conn.Valid()
    requires d == c.(main := c.main.(timeout := d.main.timeout, lastTouch := d.main.lastTouch),
                     conn := c.conn.(timeout := d.conn.timeout, lastTouch := d.conn.lastTouch))
    ensures QuietStep(c, d, [])
  {
  }

  /** Only the encoder sends: any other step of a client that stays online is quiet. */
  lemma OthersAreQuiet(env: Env, c: Client, op: Op)
    requires Online(c) && WellStored(c) && !op.EncodeMore?
    requires Online(Step(env, c, op)) && Step(env, c, op).current == c.current
    ensures QuietStep(c, Step(env, c, op), Queues(c, op))
  {
    hide Inv, WellStored, DecodeStep, Request, QuietStep, KeepAliveStep, SetStateInitial, Finalize, Answered,
         StoreState.GetTimeout, Queued;
    OnlinePhase(c);
    SelfQuiet(c);
    if IsRequest(op) {
      RequestIsQuiet(c, op);
    } else {
      match op {
        case DecodeOne => DecodeIsQuiet(env, c);
        case KeepAlive(now) => KeepAliveIsQuiet(c, now);
        case SetTimeout(_) => ClockIsQuiet(c, Step(env, c, op));
        case Touch(_) => ClockIsQuiet(c, Step(env, c, op));
        case Write(_) => BuffersAreQuiet(c, c, Step(env, c, op), []);
        case Read(_) => BuffersAreQuiet(c, c, Step(env, c, op), []);
        case Eof(now) => InitialIsClosed(c, now);
        case DoFinalize => FinalIsClosed(env, c);
        case _ =>
      }
    }
  }

  lemma InitialIsClosed(c: Client, now: Time)
    requires c.main.Valid()
    ensures SetStateInitial(c, now).closed
  {
  }

  lemma FinalIsClosed(env: Env, c: Client)
    requires Inv(c) && c.main.Valid()
    ensures Finalize(env, c).closed
  {
    hide CleanupStores, FinishSlot, Inv;
    CleanupFrame(FinishSlot(env, FailWith(c, Closed)), false);
    FinishSlotIsClosed(env, FailWith(c, Closed));
  }

  lemma FinishSlotIsClosed(env: Env, c: Client)
    requires c.main.Valid() && c.closed
    ensures FinishSlot(env, c).closed
  {
  }

  lemma AppendAdds(s: StoreState, e: Entry)
    requires s.Valid()
    ensures Adds(s, s.Append(e).0, if s.Queueable() then [e] else []) && Adds(s, s, [])
  {
  }

  /** Only the id bytes change the id. */
  lemma PartsKeepId(env: Env, l: Link, b: byte)
    ensures PublishLengthByte(l, b).0.rx.packetId == l.rx.packetId
    ensures PublishTopicByte(env, l, b).0.rx.packetId == l.rx.packetId
    ensures PublishPayloadByte(env, l, b).0.rx.packetId == l.rx.packetId
  {
    hide PublishLengthByte, PublishTopicByte, PublishPayloadByte;
    LengthKeepsId(l, b);
    TopicKeepsId(env, l, b);
    PayloadKeepsId(env, l, b);
  }

  lemma LengthKeepsId(l: Link, b: byte)
    ensures PublishLengthByte(l, b).0.rx.packetId == l.rx.packetId
  {
  }

  lemma TopicKeepsId(env: Env, l: Link, b: byte)
    ensures PublishTopicByte(env, l, b).0.rx.packetId == l.rx.packetId
  {
    hide Allocate;
    forall k: Link, request: Event, error: Error
      ensures Allocate(env, k, request, error).0.rx.packetId == k.rx.packetId
    {
      AllocateKeepsId(env, k, request, error);
    }
  }

  lemma PayloadKeepsId(env: Env, l: Link, b: byte)
    ensures PublishPayloadByte(env, l, b).0.rx.packetId == l.rx.packetId
  {
    hide Allocate;
    forall k: Link, request: Event, error: Error
      ensures Allocate(env, k, request, error).0.rx.packetId == k.rx.packetId
    {
      AllocateKeepsId(env, k, request, error);
    }
  }

  lemma AllocateKeepsId(env: Env, l: Link, request: Event, error: Error)
    ensures Allocate(env, l, request, error).0.rx.packetId == l.rx.packetId
  {
  }

  lemma PublishAnswers(env: Env, l: Link, b: byte)
    requires RxInv(l.rx) && l.rx.error.None? && l.store.Valid() && l.rx.headerFinished && l.rx.decoder.DPublish?
    ensures var (m, ok) := PublishByte(env, l, b); ok ==> Adds(l.store, m.store, Answered(l, b))
  {
    hide PublishLengthByte, PublishTopicByte, PublishPayloadByte, DeliverPublish, StoreState.Append, Adds;
    PartsKeepId(env, l, b);
    AppendAdds(l.store, Entry(if l.rx.header.qos == 2 then Pubrec else Puback, Value(PublishId(l, b), 0, NoBody)));
  }

  lemma PopAdds(s: StoreState, kind: Kind, id: U16)
    requires s.Valid()
    ensures s.PopMarked(kind, id).0.Valid() && Adds(s, s.PopMarked(kind, id).0, [])
  {
    PopMarkedKeepsUnsent(s, kind, id);
  }

  lemma HeaderAnswersNothing(l: Link, b: byte)
    requires RxInv(l.rx) && l.rx.error.None? && l.store.Valid() && !l.rx.headerFinished
    ensures var out := HeaderByte(l, b); out.link.rx.error.None? ==> Adds(l.store, out.link.store, [])
  {
    hide StoreState.PopMarked, Adds;
    AppendAdds(l.store, Entry(Pingreq, ZERO_VALUE));
    forall k: Kind ensures l.store.PopMarked(k, 0).0.Valid() && Adds(l.store, l.store.PopMarked(k, 0).0, []) {
      PopAdds(l.store, k, 0);
    }
  }

  /** The second byte of a packet id: a response takes its request, PUBREC then queues PUBREL. */
  lemma IdAnswers(env: Env, l: Link, b: byte)
    requires RxInv(l.rx) && l.rx.error.None? && l.store.Valid() && l.rx.headerFinished
    requires HasId(l.rx.decoder) && l.rx.remainPos == 1
    ensures var out := RxStep(env, l, b); out.link.rx.error.None? ==> Adds(l.store, out.link.store, Answered(l, b))
  {
    hide StoreState.PopMarked, PublishByte;
    var id := IdByte(l.rx.packetId, false, b);
    assert id % 65536 == id;
    forall k: Kind ensures l.store.PopMarked(k, id).0.Valid() && Adds(l.store, l.store.PopMarked(k, id).0, []) {
      PopAdds(l.store, k, id);
      PopMarkedKeepsUnsent(l.store, k, id);
    }
  }

  lemma ByteAnswers(env: Env, l: Link, b: byte)
    requires RxInv(l.rx) && l.rx.error.None? && l.store.Valid()
    ensures var out := RxStep(env, l, b); out.link.rx.error.None? ==> Adds(l.store, out.link.store, Answered(l, b))
  {
    hide RxStep, RxInv, Adds, HeaderByte, StoreState.PopMarked;
    AppendAdds(l.store, Entry(Pingreq, ZERO_VALUE));
    if !l.rx.headerFinished {
      HeaderAnswersNothing(l, b);
      HeaderStepIs(env, l, b);
    } else if l.rx.decoder.DPublish? {
      PublishStepAnswers(env, l, b);
    } else if HasId(l.rx.decoder) && l.rx.remainPos == 1 {
      IdAnswers(env, l, b);
    } else {
      OtherBytesAnswerNothing(env, l, b);
    }
  }

  lemma HeaderStepIs(env: Env, l: Link, b: byte)
    requires l.rx.error.None? && l.store.Valid() && !l.rx.headerFinished
    ensures RxStep(env, l, b) == HeaderByte(l, b)
  {
    hide HeaderByte;
  }

  lemma PublishStepAnswers(env: Env, l: Link, b: byte)
    requires RxInv(l.rx) && l.rx.error.None? && l.store.Valid() && l.rx.headerFinished && l.rx.decoder.DPublish?
    ensures var out := RxStep(env, l, b); out.link.rx.error.None? ==> Adds(l.store, out.link.store, Answered(l, b))
  {
    hide RxInv, PublishByte, Adds, Answered, HasEffect, StoreState.PopMarked, ConnackByte, SubackByte;
    PublishAnswers(env, l, b);
    var eff := PublishByteGood(env, l, b);
  }

  lemma OtherBytesAnswerNothing(env: Env, l: Link, b: byte)
    requires RxInv(l.rx) && l.rx.error.None? && l.store.Valid() && l.rx.headerFinished
    requires !l.rx.decoder.DPublish? && !(HasId(l.rx.decoder) && l.rx.remainPos == 1)
    ensures var out := RxStep(env, l, b); out.link.rx.error.None? ==> Adds(l.store, out.link.store, [])
  {
    hide PublishByte, Adds, StoreState.PopMarked;
    AppendAdds(l.store, Entry(Pingreq, ZERO_VALUE));
  }

  // ----- what a step adds -----

  lemma {:induction false} EncodingQueuesNothing(env: Env, w: TxWorld, room: nat)
    requires UnsentWellFormed(w.store)
    ensures |Unsent(EncodeLoop(env, w, room).world)| <= |Unsent(w)|
    decreases |w.store.entries| - w.store.pos,
              if w.store.HasCurrent() && w.tx.pos < |CurrentFields(w)| then |CurrentFields(w)| - w.tx.pos else 0
  {
    hide Fields, WellFormed, FieldBytes, FinishEntry, FieldStep, Encodable;
    if w.tx.closed || !w.store.HasCurrent() {
    } else if w.tx.pos >= |CurrentFields(w)| {
      var next := FinishEntry(env, w);
      if next.tx.error.None? { EncodingQueuesNothing(env, next, room); }
    } else if !HeaderAborts(w) {
      var (result, count) := FieldStep(ActiveField(w), w.tx.offset, room);
      if result.Finished? {
        EncodingQueuesNothing(env, w.(tx := w.tx.(pos := w.tx.pos + 1, offset := 0, built := None)),
                              if count <= room then room - count else 0);
      }
    }
  }

  /** What the step owes and pays: the bytes encoded and what is still pending, with `later` behind it. */
  ghost function Owed(c: Client, later: seq<Entry>): seq<byte>
    requires TxValid(TxWorldOf(c)) && AllWellFormed(later)
  {
    c.audit.encoded + (Pending(TxWorldOf(c)) + Beyond(TxWorldOf(c), later))
  }

  lemma EncodeAddsUp(env: Env, c: Client, later: seq<Entry>)
    requires Online(c) && WellStored(c) && AllWellFormed(later)
    ensures var d := EncodeStep(env, c);
            && c.audit.encoded <= d.audit.encoded <= c.audit.encoded + Pending(TxWorldOf(c))
            && (!d.closed ==>
                  WellStored(d) && TxValid(TxWorldOf(d)) && Owed(d, later) == Owed(c, later))
  {
    hide Inv, WellFormed, TxValid, EncodeLoop, Pending, Beyond, Unsent;
    OnlinePhase(c);
    var w := TxWorldOf(c);
    var room := if |c.writeBuf| < c.writeCap then c.writeCap - |c.writeBuf| else 0;
    TxIsStored(w);
    WellStoredUnsent(c, c.txStore);
    if room > 0 {
      EncodeEmitsPending(env, w, room);
      EncodeKeepsBeyond(env, w, room, later);
      EncodingQueuesNothing(env, w, room);
      var out := EncodeLoop(env, w, room);
      if out.world.tx.error.None? {
        var d := EncodeStep(env, c);
        EncodeStepInv(env, c);
        InvCommon(d);
        assert TxWorldOf(d) == out.world;
        assert c.audit.encoded + out.bytes + (Pending(out.world) + Beyond(out.world, later))
            == c.audit.encoded + (out.bytes + Pending(out.world) + Beyond(out.world, later));
      }
    }
  }

  /** Every step of a client that stays online: encoded, pending and beyond add up, with the packets of
      the entries it queues behind the packets that were queued before. */
  lemma StepAddsUp(env: Env, c: Client, op: Op, later: seq<Entry>)
    requires Online(c) && WellStored(c) && AllWellFormed(later)
    requires Online(Step(env, c, op)) && Step(env, c, op).current == c.current
    ensures c.main.Valid() && c.conn.Valid()
    ensures var d := Step(env, c, op);
            && WellStored(d) && TxValid(TxWorldOf(c)) && TxValid(TxWorldOf(d)) && AllWellFormed(Queues(c, op) + later)
            && Owed(d, later) == Owed(c, Queues(c, op) + later)
  {
    hide Inv, WellStored, WellFormed, TxValid, Pending, Beyond, Unsent, EncodeStep, DecodeStep, Request,
         KeepAliveStep, SetStateInitial, Finalize, Answered, StoreState.GetTimeout, Queued;
    var d := Step(env, c, op);
    OnlinePhase(c);
    OnlinePhase(d);
    if op.EncodeMore? {
      EncodeAddsUp(env, c, later);
      assert Queues(c, op) + later == later;
    } else {
      OthersAreQuiet(env, c, op);
      QuietAddsUp(TxWorldOf(c), TxWorldOf(d), Queues(c, op), later);
    }
  }

  /** No step of a client that was online sends anything but a prefix of what is pending, even one that
      fails, ends the connection or opens the session. */
  lemma AnyStepSendsPending(env: Env, c: Client, op: Op)
    requires Online(c) && WellStored(c)
    ensures TxValid(TxWorldOf(c))
    ensures c.audit.encoded <= Step(env, c, op).audit.encoded <= c.audit.encoded + Pending(TxWorldOf(c))
  {
    hide Inv, WellStored, TxValid, Pending, EncodeStep, DecodeStep, Request, KeepAliveStep, SetStateInitial, Finalize;
    OnlinePhase(c);
    if IsRequest(op) {
      RequestIsQuiet(c, op);
    } else {
      match op {
        case EncodeMore => EncodeAddsUp(env, c, []);
        case DoReset(now) => InitialStateTraffic(c, now);
        case Eof(now) => InitialStateTraffic(c, now);
        case DoFinalize => FinalizeTraffic(env, c);
        case DecodeOne => DecodeSendsNothing(env, c);
        case KeepAlive(now) => KeepAliveTraffic(c, now);
        case _ =>
      }
    }
  }

  lemma DecodeSendsNothing(env: Env, c: Client)
    requires c.main.Valid() && c.conn.Valid()
    ensures DecodeStep(env, c).audit.encoded == c.audit.encoded
  {
    hide DecodeByte;
    if c.readBuf != [] { DecodeByteBuffers(env, c, c.readBuf[0]); }
  }

  /** On one store, over any run: encoded and pending are what was encoded and pending before, followed
      by the packets of everything queued meanwhile. */
  lemma {:induction false} RunAddsUp(env: Env, c: Client, ops: seq<Op>)
    requires StaysOnline(env, c, ops)
    ensures var d := Run(env, c, ops);
            && Online(d) && d.current == c.current && TxValid(TxWorldOf(c)) && TxValid(TxWorldOf(d))
            && AllWellFormed(QueuedBy(env, c, ops)) && Owed(d, []) == Owed(c, QueuedBy(env, c, ops))
    decreases |ops|
  {
    hide Inv, WellStored, WellFormed, TxValid, Step, Owed, Queues;
    OnlinePhase(c);
    if ops != [] {
      StepKeepsInv(env, c, ops[0]);
      var d := Step(env, c, ops[0]);
      RunAddsUp(env, d, ops[1..]);
      StepAddsUp(env, c, ops[0], QueuedBy(env, d, ops[1..]));
    }
  }

  // ----- the connection -----

  /** The connect request `v` waits in the connect store, or for the rest of its CONNACK in the rx slot;
      the main store and the counts of publications are those of `start`. */
  predicate Greets(c: Client, v: Value, start: Client)
  {
    && c.current.Conn?
    && (c.conn.entries == [Entry(Connect, v)] || (c.conn.entries == [] && c.rx.slot == v))
    && c.main.entries == start.main.entries && c.encodes == start.encodes
  }

  lemma GreetingByte(env: Env, c: Client, b: byte, v: Value, start: Client)
    requires Online(c) && Greets(c, v, start) && v.body.ConnectBody? && c.main.Valid() && c.conn.Valid()
    requires DecodeByte(env, c, b).current == c.current && DecodeByte(env, c, b).rx.error.None?
    ensures Greets(DecodeByte(env, c, b), v, start)
    ensures DecodeByte(env, c, b).conn.entries == [] || DecodeByte(env, c, b).conn == c.conn
  {
    hide Inv, TxValid, RxStep, FinishPacket, RxComplete, RxInv, WellFormed, Common;
    OnlinePhase(c);
    var eff := ReceivedAfterByte(env, c, b);
    var out := RxStep(env, LinkOf(c), b);
    var next := WithLink(c, out.link);
    EffectWhileConnecting(c, out.link, eff);
    if out.call {
      if next.rx.slot.body.ConnectBody? { ConnackOpens(env, next); }
      CallbackIsQuiet(env, next);
    }
  }

  lemma GreetingDecode(env: Env, c: Client, v: Value, start: Client)
    requires Online(c) && Greets(c, v, start) && v.body.ConnectBody? && WellStored(c) && WellStored(DecodeStep(env, c))
    requires !DecodeStep(env, c).closed && DecodeStep(env, c).current == c.current && DecodeStep(env, c).txStore.Conn?
    ensures Greets(DecodeStep(env, c), v, start)
  {
    hide Inv, DecodeByte, WellStored, TxValid, RxInv, Common, IsConnected;
    OnlinePhase(c);
    if c.readBuf != [] && DecodeByte(env, c, c.readBuf[0]).rx.error.None? {
      GreetingByte(env, c, c.readBuf[0], v, start);
    }
  }

  /** Before the CONNACK nothing is queued: the CONNECT fills its store, and the requests are disabled. */
  lemma ConnectingQueuesNothing(c: Client, op: Op)
    requires Online(c) && c.current.Conn?
    ensures c.main.Valid() && c.conn.Valid() && Queues(c, op) == []
  {
    hide Inv, Answered, StoreState.GetTimeout, ValidConnect, ValidSubscribe, ValidPublish, IsOpen;
    OnlinePhase(c);
    if IsRequest(op) {
      RequestIsQuiet(c, op);
    } else if op.DecodeOne? && c.readBuf != [] {
      ConnectingAnswersNothing(c, c.readBuf[0]);
    }
  }

  lemma ConnectingAnswersNothing(c: Client, b: byte)
    requires Online(c) && c.current.Conn?
    ensures LinkOf(c).store.Valid() && Answered(LinkOf(c), b) == []
  {
    hide TxValid, WellFormed;
    OnlinePhase(c);
    PopMarkedKeeps(c.conn, Publish2, IdByte(c.rx.packetId, false, b));
  }

  lemma GreetingEncode(env: Env, c: Client, v: Value, start: Client)
    requires Online(c) && Greets(c, v, start) && WellStored(c) && !EncodeStep(env, c).closed
    ensures Greets(EncodeStep(env, c), v, start)
  {
    hide Inv, WellFormed, TxValid, EncodeLoop, Common;
    OnlinePhase(c);
    EncodeAddsUp(env, c, []);
    if |c.writeBuf| < c.writeCap {
      var room := c.writeCap - |c.writeBuf|;
      EncodedCommon(env, c, room);
      OnlyConnects(c);
      ConnectIsNoPublish(env, TxWorldOf(c), room);
    }
  }

  lemma OnlyConnects(c: Client)
    requires IsConnecting(c) && c.txStore.Conn?
    ensures forall i :: 0 <= i < |c.conn.entries| ==> c.conn.entries[i].kind.Connect?
  {
    assert forall i :: 0 <= i < |c.conn.entries| ==> c.conn.entries[i] in c.conn.entries;
  }

  lemma GreetingStep(env: Env, c: Client, op: Op, v: Value, start: Client)
    requires Online(c) && WellStored(c) && Greets(c, v, start) && v.body.ConnectBody?
    requires Online(Step(env, c, op)) && Step(env, c, op).current == c.current
    ensures Greets(Step(env, c, op), v, start)
  {
    hide Inv, WellStored, Greets, DecodeStep, EncodeStep, Request, KeepAliveStep, SetStateInitial, Finalize;
    var d := Step(env, c, op);
    GreetingCurrent(c, v, start);
    OnlinePhase(c);
    OnlinePhase(d);
    if IsRequest(op) {
      RequestIsQuiet(c, op);
    } else {
      match op {
        case EncodeMore => GreetingEncode(env, c, v, start);
        case DecodeOne => GreetingDecode(env, c, v, start);
        case KeepAlive(now) => KeepAliveIsQuiet(c, now);
        case Eof(now) => InitialIsClosed(c, now);
        case DoFinalize => FinalIsClosed(env, c);
        case _ => SameGreets(c, d, v, start);
      }
    }
  }

  lemma SameGreets(c: Client, d: Client, v: Value, start: Client)
    requires Greets(c, v, start) && d.current == c.current && d.conn.entries == c.conn.entries && d.rx == c.rx
    requires d.main.entries == c.main.entries && d.encodes == c.encodes
    ensures Greets(d, v, start)
  {
  }

  lemma {:induction false} GreetingRun(env: Env, c: Client, ops: seq<Op>, v: Value, start: Client)
    requires StaysOnline(env, c, ops) && Greets(c, v, start) && v.body.ConnectBody?
    ensures Online(Run(env, c, ops)) && Greets(Run(env, c, ops), v, start) && QueuedBy(env, c, ops) == []
    decreases |ops|
  {
    hide Inv, WellStored, Step, Greets, Queues;
    if ops != [] {
      StepKeepsInv(env, c, ops[0]);
      var d := Step(env, c, ops[0]);
      GreetingCurrent(c, v, start);
      GreetingStep(env, c, ops[0], v, start);
      ConnectingQueuesNothing(c, ops[0]);
      GreetingRun(env, d, ops[1..], v, start);
    }
  }

  lemma GreetingCurrent(c: Client, v: Value, start: Client)
    requires Greets(c, v, start)
    ensures c.current.Conn?
  {
  }

  /** An accepted connect request: the CONNECT is all that is pending, and nothing was sent yet. */
  lemma ConnectStarts(c: Client, q: ConnectRequest, ref: nat)
    requires Inv(c) && ConnectRequested(c, q, ref).1
    ensures var d := ConnectRequested(c, q, ref).0;
            var v := Value(0, ref, ConnectBody(q));
            && Online(d) && Greets(d, v, c) && Fifo(d) && TxValid(TxWorldOf(d)) && WellFormed(Entry(Connect, v))
            && Owed(d, []) == Packet(Entry(Connect, v), false)
  {
    hide RxInv, TxValid, Inv, Packet;
    ConnectInv(c, q, ref);
    var d := ConnectRequested(c, q, ref).0;
    var v := Value(0, ref, ConnectBody(q));
    SlotsTellPhase(c);
    InvCommon(c);
    assert d.conn.entries == [Entry(Connect, v)];
    OnlinePhase(d);
    PendingAtRest(TxWorldOf(d));
    assert d.conn.entries[0..] == d.conn.entries && d.conn.entries[1..] == [];
    assert WellFormed(Entry(Connect, v));
    assert Stream(d.conn.entries, d.encodes) == Packet(Entry(Connect, v), false);
    BeyondNothing(TxWorldOf(d));
  }

  /** The step that opens the session sends nothing; the new queue is the old one without what a
      reconnect drops, and all of it is pending. */
  lemma SessionStarts(env: Env, c: Client, v: Value, start: Client)
    requires Online(c) && Greets(c, v, start) && v.body.ConnectBody? && WellStored(c)
    requires Step(env, c, DecodeOne).current.Main? && Online(Step(env, c, DecodeOne))
    ensures var d := Step(env, c, DecodeOne);
            var queue := if v.body.connect.cleanSession then [] else Kept(start.main.entries);
            && TxValid(TxWorldOf(c)) && TxValid(TxWorldOf(d))
            && d.audit.encoded == c.audit.encoded && Pending(TxWorldOf(c)) == []
            && Unsent(TxWorldOf(d)) == queue && AllWellFormed(queue) && d.encodes == start.encodes
            && d.tx == RESET_TX
  {
    hide Inv, WellFormed, Step, Kept, Fields;
    OnlinePhase(c);
    StoreSwitchAtPacketBoundary(env, c, DecodeOne);
    var d := Step(env, c, DecodeOne);
    OnlinePhase(d);
    AnyStepSendsPending(env, c, DecodeOne);
    UnsentAreWellFormed(TxWorldOf(d));
    assert d.main.entries[0..] == d.main.entries;
  }

  /** Connecting: encoded and pending are exactly the CONNECT, and no step sends more than that. */
  lemma ConnectingSendsConnect(env: Env, c: Client, q: ConnectRequest, ref: nat, ops: seq<Op>, last: Op)
    requires Inv(c) && ConnectRequested(c, q, ref).1 && StaysOnline(env, ConnectRequested(c, q, ref).0, ops)
    ensures var e := Entry(Connect, Value(0, ref, ConnectBody(q)));
            var d := Run(env, ConnectRequested(c, q, ref).0, ops);
            && Online(d) && TxValid(TxWorldOf(d)) && WellFormed(e)
            && Greets(d, e.value, c) && d.audit.encoded + Pending(TxWorldOf(d)) == Packet(e, false)
            && Run(env, d, [last]).audit.encoded <= Packet(e, false)
  {
    hide Inv, TxValid, Packet, Run, Pending, Greets, WellFormed, ConnectRequested, Fifo;
    var asked := ConnectRequested(c, q, ref).0;
    var v := Value(0, ref, ConnectBody(q));
    ConnectStarts(c, q, ref);
    GreetingRun(env, asked, ops, v, c);
    RunAddsUp(env, asked, ops);
    var d := Run(env, asked, ops);
    OwedNothing(d);
    LastStep(env, d, last);
  }

  lemma OwedNothing(c: Client)
    requires TxValid(TxWorldOf(c))
    ensures Owed(c, []) == c.audit.encoded + Pending(TxWorldOf(c))
  {
    hide Pending, UnsentWellFormed;
    TxIsStored(TxWorldOf(c));
    BeyondNothing(TxWorldOf(c));
  }

  lemma LastStep(env: Env, c: Client, op: Op)
    requires Online(c)
    ensures TxValid(TxWorldOf(c))
    ensures Run(env, c, [op]).audit.encoded <= c.audit.encoded + Pending(TxWorldOf(c))
  {
    hide Inv, TxValid, Pending, Step, WellStored;
    StepKeepsInv(env, c, op);
    AnyStepSendsPending(env, c, op);
    assert [op][1..] == [] && Run(env, c, [op]) == Step(env, c, op);
  }

  /** One connection, from the accepted connect request through the CONNACK that opens the session to any
      later step, even a failing one. Encoded and still pending together are the CONNECT packet followed
      by the packets of the queue the session resumes and of everything queued since, in this order; what
      reached the network is that without what waits in the write buffer. */
  lemma ConnectionSendsQueue(
      env: Env, c: Client, q: ConnectRequest, ref: nat, greeting: seq<Op>, session: seq<Op>, last: Op)
    requires Inv(c) && ConnectRequested(c, q, ref).1 && StaysOnline(env, ConnectRequested(c, q, ref).0, greeting)
    requires var accepted := Run(env, ConnectRequested(c, q, ref).0, greeting + [DecodeOne]);
             accepted.current.Main? && StaysOnline(env, accepted, session)
    ensures var e := Entry(Connect, Value(0, ref, ConnectBody(q)));
            var accepted := Run(env, ConnectRequested(c, q, ref).0, greeting + [DecodeOne]);
            var queue := (if q.cleanSession then [] else Kept(c.main.entries)) + QueuedBy(env, accepted, session);
            var d := Run(env, accepted, session);
            && WellFormed(e) && AllWellFormed(queue) && Online(d) && TxValid(TxWorldOf(d))
            && d.audit.encoded + Pending(TxWorldOf(d)) == Packet(e, false) + Stream(queue, c.encodes)
            && d.audit.encoded == d.audit.written + d.writeBuf
            && Run(env, d, [last]).audit.encoded <= Packet(e, false) + Stream(queue, c.encodes)
  {
    hide Inv, TxValid, Packet, Run, Pending, WellFormed, ConnectRequested, Greets, Stream, Kept, Step, StaysOnline,
         QueuedBy, WellStored, Fifo;
    var v := Value(0, ref, ConnectBody(q));
    var asked := ConnectRequested(c, q, ref).0;
    ConnectStarts(c, q, ref);
    ConnectingSendsConnect(env, c, q, ref, greeting, last);
    var greeted := Run(env, asked, greeting);
    var accepted := Run(env, asked, greeting + [DecodeOne]);
    RunAppend(env, asked, greeting, [DecodeOne]);
    RunOne(env, greeted, DecodeOne);
    OnlineSoFar(env, accepted, session);
    SessionStarts(env, greeted, v, c);
    RunAddsUp(env, accepted, session);
    RestOwes(accepted, QueuedBy(env, accepted, session));
    var d := Run(env, accepted, session);
    OwedNothing(d);
    LastStep(env, d, last);
    ConnectionIsLossless(env, asked, greeting + [DecodeOne], session);
  }

  lemma OnlineSoFar(env: Env, c: Client, ops: seq<Op>)
    requires StaysOnline(env, c, ops)
    ensures Online(c)
  {
    hide Inv;
  }

  /** At rest, everything owed is the queue and what comes behind it. */
  lemma RestOwes(c: Client, later: seq<Entry>)
    requires TxValid(TxWorldOf(c)) && c.tx == RESET_TX && AllWellFormed(later)
    ensures AllWellFormed(Unsent(TxWorldOf(c)) + later)
    ensures Owed(c, later) == c.audit.encoded + Stream(Unsent(TxWorldOf(c)) + later, c.encodes)
  {
    hide Fields, FieldsBytes, FieldBytes, Stream, WellFormed, Pending;
    PendingAtRest(TxWorldOf(c));
    UnsentAreWellFormed(TxWorldOf(c));
    StreamConcat(Unsent(TxWorldOf(c)), later, c.encodes);
  }

  lemma ConnectionIsLossless(env: Env, c: Client, ops: seq<Op>, more: seq<Op>)
    requires Inv(c) && Fifo(c)
    ensures Inv(Run(env, c, ops))
    ensures var d := Run(env, Run(env, c, ops), more); d.audit.encoded == d.audit.written + d.writeBuf
  {
    hide Inv, Run;
    RunKeepsInv(env, c, ops);
    RunKeepsFifo(env, c, ops);
    RunKeepsFifo(env, Run(env, c, ops), more);
  }

  /** A write buffer that the first encode call fills. */
  lemma FirstEncodeFills(env: Env, c: Client, v: Value, start: Client)
    requires Online(c) && Greets(c, v, start) && v.body.ConnectBody? && WellStored(c) && c.tx == RESET_TX
    requires c.writeBuf == [] && TxValid(TxWorldOf(c)) && c.writeCap <= |Pending(TxWorldOf(c))|
    ensures var d := EncodeStep(env, c); !d.closed && |d.writeBuf| == d.writeCap
  {
    hide Inv, WellFormed, TxValid, EncodeLoop, Pending, Common, RxInv;
    OnlinePhase(c);
    var w := TxWorldOf(c);
    if c.writeCap > 0 {
      WellStoredUnsent(c, c.txStore);
      EncodeEmitsPending(env, w, c.writeCap);
      OnlyConnects(c);
      ConnectIsNoPublish(env, w, c.writeCap);
      ConnectsEncodable(w);
      FieldStartIsSafe(env, w, c.writeCap);
      var out := EncodeLoop(env, w, c.writeCap);
      if out.stop.Idle? { NothingPending(out.world); }
    }
  }

  lemma ConnectsEncodable(w: TxWorld)
    requires UnsentWellFormed(w.store)
    requires forall i :: 0 <= i < |w.store.entries| ==> w.store.entries[i].kind.Connect?
    ensures UnsentEncodable(w.store)
  {
    forall i | w.store.pos <= i < |w.store.entries| ensures Encodable(w.store.entries[i]) {
      ValidatedPacketsAreEncodable(w.store.entries[i]);
    }
  }

  lemma NothingPending(w: TxWorld)
    requires TxValid(w) && (w.tx.closed || !w.store.HasCurrent())
    ensures Pending(w) == []
  {
    hide UnsentWellFormed;
  }

  /** Closed without an error, the write buffer full, nothing received and the connect store empty. */
  predicate Stranded(c: Client, readCap: nat)
  {
    && IsInitial(c) && |c.writeBuf| == c.writeCap && c.conn.entries == []
    && c.rx == RESET_RX && c.readBuf == [] && c.readCap == readCap
  }

  /** A client gets closed, without an error and with a full write buffer: it connects, one encode call fills
      the buffer, because the CONNECT is not shorter, and the connection ends before anything is written. */
  lemma ClosedWithFullBuffer(env: Env, c: Client, q: ConnectRequest, ref: nat, now: Time)
    requires Inv(c) && ConnectRequested(c, q, ref).1
    ensures var e := Entry(Connect, Value(0, ref, ConnectBody(q)));
            var d := Run(env, c, [DoConnect(q, ref), EncodeMore, Eof(now)]);
            && WellFormed(e)
            && (c.writeCap <= |Packet(e, false)| ==> Stranded(d, c.readCap))
  {
    hide Inv, WellFormed, TxValid, Packet, Pending, ConnectRequested, EncodeStep, SetStateInitial, Greets, Run, Step,
         WellStored, Fifo, IsInitial;
    ConnectStarts(c, q, ref);
    RunOne(env, c, DoConnect(q, ref));
    StepIsRequest(env, c, DoConnect(q, ref));
    var asked := ConnectRequested(c, q, ref).0;
    assert Request(c, DoConnect(q, ref)).0 == asked;
    RunOne(env, asked, EncodeMore);
    StepIsEncode(env, asked);
    var sent := Step(env, asked, EncodeMore);
    StepKeepsInv(env, asked, EncodeMore);
    RunOne(env, sent, Eof(now));
    RunAppend(env, c, [DoConnect(q, ref)], [EncodeMore]);
    RunAppend(env, c, [DoConnect(q, ref)] + [EncodeMore], [Eof(now)]);
    assert [DoConnect(q, ref)] + [EncodeMore] + [Eof(now)] == [DoConnect(q, ref), EncodeMore, Eof(now)];
    OwedNothing(asked);
    StartsAtRest(c, q, ref);
    if c.writeCap <= |Pending(TxWorldOf(asked))| {
      FirstEncodeFills(env, asked, Value(0, ref, ConnectBody(q)), c);
      EncodeThenEof(env, asked, sent, now);
    }
  }

  lemma StartsAtRest(c: Client, q: ConnectRequest, ref: nat)
    requires ConnectRequested(c, q, ref).1
    ensures var d := ConnectRequested(c, q, ref).0;
            d.tx == RESET_TX && d.writeBuf == [] && d.writeCap == c.writeCap
            && d.rx == RESET_RX && d.readBuf == [] && d.readCap == c.readCap && d.audit.encoded == []
  {
    hide ValidConnect;
  }

  lemma StepIsEncode(env: Env, c: Client)
    requires WellStored(c)
    ensures Step(env, c, EncodeMore) == EncodeStep(env, c)
  {
    hide WellStored, EncodeStep;
  }

  lemma EncodeThenEof(env: Env, c: Client, d: Client, now: Time)
    requires WellStored(c) && Inv(d) && WellStored(d) && d == EncodeStep(env, c) && !d.closed
    requires c.rx == RESET_RX && c.readBuf == [] && |d.writeBuf| == d.writeCap
    ensures Stranded(Step(env, d, Eof(now)), c.readCap)
  {
    EncodeReadsNothing(env, c);
    hide Inv, WellStored, EncodeStep, SetStateInitial, Step, IsInitial;
    InvCommon(d);
    OnlinePhase(d);
    StepToInitial(env, d, Eof(now));
    SetStateInitialInv(d, now);
    InitialKeepsBuffer(d, now);
  }

  lemma InitialKeepsBuffer(c: Client, now: Time)
    requires c.main.Valid()
    ensures var d := SetStateInitial(c, now);
            && d.writeBuf == c.writeBuf && d.writeCap == c.writeCap
            && d.readBuf == c.readBuf && d.readCap == c.readCap && d.rx == c.rx
  {
    hide KeepSession, FlushLog;
  }

  lemma EncodeReadsNothing(env: Env, c: Client)
    requires WellStored(c)
    ensures var d := EncodeStep(env, c); d.rx == c.rx && d.readBuf == c.readBuf && d.readCap == c.readCap
  {
    hide WellStored, Encode;
  }

  /** What the server reads on this connection, once everything queued was sent: the CONNECT with the fields of
      the request, and then one packet for each entry of the resumed queue and each one queued since, in
      order, PUBLISH with DUP exactly when the same request was sent before. */
  lemma ServerReadsConnection(env: Env, c: Client, q: ConnectRequest, ref: nat, greeting: seq<Op>, session: seq<Op>)
    requires Inv(c) && ConnectRequested(c, q, ref).1 && StaysOnline(env, ConnectRequested(c, q, ref).0, greeting)
    requires var accepted := Run(env, ConnectRequested(c, q, ref).0, greeting + [DecodeOne]);
             accepted.current.Main? && StaysOnline(env, accepted, session)
    ensures var e := Entry(Connect, Value(0, ref, ConnectBody(q)));
            var accepted := Run(env, ConnectRequested(c, q, ref).0, greeting + [DecodeOne]);
            var queue := (if q.cleanSession then [] else Kept(c.main.entries)) + QueuedBy(env, accepted, session);
            var d := Run(env, accepted, session);
            && WellFormed(e) && AllWellFormed(queue) && TxValid(TxWorldOf(d))
            && ((forall i :: 0 <= i < |queue| ==> Encodable(queue[i])) && Pending(TxWorldOf(d)) == []
                && d.writeBuf == [] ==>
                  Reads(d.audit.written, [Asked(e, false)] + AskedAll(queue, c.encodes)))
  {
    hide Inv, TxValid, Packet, Run, Pending, WellFormed, ConnectRequested, Stream, Kept, Step, StaysOnline, QueuedBy,
         Asked, AskedAll, ReadPacket, Encodable;
    ConnectionSendsQueue(env, c, q, ref, greeting, session, EncodeMore);
    ConnectInv(c, q, ref);
    var e := Entry(Connect, Value(0, ref, ConnectBody(q)));
    var accepted := Run(env, ConnectRequested(c, q, ref).0, greeting + [DecodeOne]);
    OnlineSoFar(env, accepted, session);
    var queue := (if q.cleanSession then [] else Kept(c.main.entries)) + QueuedBy(env, accepted, session);
    var d := Run(env, accepted, session);
    if Pending(TxWorldOf(d)) == [] && d.writeBuf == [] && forall i :: 0 <= i < |queue| ==> Encodable(queue[i]) {
      assert d.audit.encoded + [] == d.audit.encoded && d.audit.written + [] == d.audit.written;
      ValidatedPacketsAreEncodable(e);
      PacketIsUnderstood(e, false, Stream(queue, c.encodes));
      StreamIsUnderstood(queue, c.encodes);
      assert ([Asked(e, false)] + AskedAll(queue, c.encodes))[1..] == AskedAll(queue, c.encodes);
    }
  }
}
