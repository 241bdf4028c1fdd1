/** Whole runs of the encoder: calls of any size, interleaved with appends and with responses that take
    already sent entries out, emit the whole packets of the queue in queue order. */
module TransmitRuns {
  import opened Types
  import opened PacketStore
  import opened Wire
  import opened Transmit

  datatype TxOp = Call(room: nat) | Enqueue(entry: Entry) | Respond(kind: Kind, packetId: U16)

  predicate OpValid(op: TxOp) { op.Enqueue? ==> WellFormed(op.entry) }

  /** The state after the run, the entries the store accepted, and all bytes written. */
  datatype TxRun = TxRun(world: TxWorld, accepted: seq<Entry>, bytes: seq<byte>)

  function TxStep(env: Env, w: TxWorld, op: TxOp): TxRun
    requires UnsentWellFormed(w.store)
  {
    match op
    case Call(room) => var out := Encode(env, w, room); TxRun(out.world, [], out.bytes)
    case Enqueue(e) =>
      var (s, ok) := w.store.Append(e);
      TxRun(w.(store := s), if ok then [e] else [], [])
    case Respond(kind, id) => TxRun(w.(store := w.store.PopMarked(kind, id).0), [], [])
  }

  lemma TxStepKeepsValid(env: Env, w: TxWorld, op: TxOp)
    requires TxValid(w) && OpValid(op)
    ensures TxValid(TxStep(env, w, op).world)
  {
    hide Fields, WellFormed, FieldsBytes;
    match op {
      case Call(room) => if w.tx.error.None? { EncodeEmitsPending(env, w, room); }
      case Enqueue(e) =>
      case Respond(kind, id) => RespondKeepsCurrent(w, kind, id);
    }
  }

  function RunTx(env: Env, w: TxWorld, ops: seq<TxOp>): TxRun
    requires TxValid(w) && forall i :: 0 <= i < |ops| ==> OpValid(ops[i])
    decreases |ops|
  {
    if ops == [] then TxRun(w, [], [])
    else
      TxStepKeepsValid(env, w, ops[0]);
      var first := TxStep(env, w, ops[0]);
      var rest := RunTx(env, first.world, ops[1..]);
      TxRun(rest.world, first.accepted + rest.accepted, first.bytes + rest.bytes)
  }

  // ----- the stream beyond the unsent entries -----

  function AfterAll(encodes: multiset<nat>, es: seq<Entry>): multiset<nat>
    decreases |es|
  {
    if es == [] then encodes else AfterAll(After(encodes, es[0]), es[1..])
  }

  predicate Ends(es: seq<Entry>) { es != [] && (es[0].kind.Disconnect? || Ends(es[1..])) }

  predicate AllWellFormed(es: seq<Entry>) { forall i :: 0 <= i < |es| ==> WellFormed(es[i]) }

  function Unsent(w: TxWorld): seq<Entry>
    requires w.store.Valid()
  {
    w.store.entries[w.store.pos..]
  }

  /** What entries appended behind the queue of `w` will add to the output. */
  function Beyond(w: TxWorld, es: seq<Entry>): seq<byte>
    requires w.store.Valid() && AllWellFormed(es)
  {
    if w.tx.closed || w.tx.error.Some? || Ends(Unsent(w)) then []
    else Stream(es, AfterAll(w.encodes, Unsent(w)))
  }

  lemma {:induction false} StreamConcat(a: seq<Entry>, b: seq<Entry>, encodes: multiset<nat>)
    requires AllWellFormed(a) && AllWellFormed(b)
    ensures Stream(a + b, encodes) == Stream(a, encodes) + (if Ends(a) then [] else Stream(b, AfterAll(encodes, a)))
    ensures AfterAll(encodes, a + b) == AfterAll(AfterAll(encodes, a), b)
    ensures Ends(a + b) == (Ends(a) || Ends(b))
  {
    hide WellFormed, Packet;
    if a == [] {
      assert a + b == b;
    } else {
      assert (a + b)[1..] == a[1..] + b;
      StreamConcat(a[1..], b, After(encodes, a[0]));
    }
  }

  /** A response takes a marked entry: the entry being encoded and all unsent ones stay. */
  lemma RespondKeepsCurrent(w: TxWorld, kind: Kind, id: U16)
    requires TxValid(w)
    ensures var next := w.(store := w.store.PopMarked(kind, id).0);
            TxValid(next) && Pending(next) == Pending(w) && Unsent(next) == Unsent(w)
            && next.store.HasCurrent() == w.store.HasCurrent()
            && (w.store.HasCurrent() ==> next.store.Current() == w.store.Current())
  {
    hide Fields, WellFormed, FieldsBytes, Stream, FieldBytes, OffsetValid, StoreState.PopMarked;
    var next := w.(store := w.store.PopMarked(kind, id).0);
    PopMarkedKeepsUnsent(w.store, kind, id);
    assert |Unsent(next)| == |Unsent(w)|;
    assert forall i :: next.store.pos <= i < |next.store.entries| ==>
      next.store.entries[i] == Unsent(next)[i - next.store.pos];
    if w.store.HasCurrent() {
      assert Unsent(next)[0] == Unsent(w)[0];
      assert next.store.entries[next.store.pos + 1..] == Unsent(next)[1..];
      assert w.store.entries[w.store.pos + 1..] == Unsent(w)[1..];
    }
  }

  /** An accepted entry adds its packet behind everything pending. */
  lemma EnqueuePending(w: TxWorld, e: Entry)
    requires TxValid(w) && WellFormed(e) && w.store.Queueable()
    ensures var next := w.(store := w.store.Append(e).0);
            TxValid(next) && Pending(next) == Pending(w) + Beyond(w, [e])
  {
    hide Fields, WellFormed, FieldsBytes, FieldBytes, Packet, Stream, Ends, AfterAll;
    var next := w.(store := w.store.Append(e).0);
    assert Unsent(next) == Unsent(w) + [e];
    if w.store.HasCurrent() {
      assert next.store.Current() == w.store.Current();
      if !w.tx.closed && w.tx.error.None? { EnqueueBehind(w, e); }
    } else {
      assert Unsent(w) == [] && Unsent(next) == [e];
      if !w.tx.closed && w.tx.error.None? {
        PendingAtRest(next);
        NothingFollowsNothing(w.encodes);
      }
    }
  }

  lemma NothingFollowsNothing(encodes: multiset<nat>)
    ensures !Ends([]) && AfterAll(encodes, []) == encodes
  {
  }

  lemma UnsentHead(w: TxWorld)
    requires w.store.Valid() && w.store.HasCurrent()
    ensures var tail := w.store.entries[w.store.pos + 1..];
            && AfterAll(w.encodes, Unsent(w)) == AfterAll(After(w.encodes, w.store.Current()), tail)
            && Ends(Unsent(w)) == (w.store.Current().kind.Disconnect? || Ends(tail))
  {
    assert Unsent(w)[1..] == w.store.entries[w.store.pos + 1..];
  }

  lemma EnqueueBehind(w: TxWorld, e: Entry)
    requires TxValid(w) && WellFormed(e) && w.store.HasCurrent() && !w.tx.closed && w.tx.error.None?
    requires w.store.Queueable() && TxValid(w.(store := w.store.Append(e).0))
    ensures Pending(w.(store := w.store.Append(e).0)) == Pending(w) + Beyond(w, [e])
  {
    hide Fields, WellFormed, FieldsBytes, FieldBytes, Packet, Stream, Ends, AfterAll, OffsetValid;
    var next := w.(store := w.store.Append(e).0);
    var tail := w.store.entries[w.store.pos + 1..];
    assert next.store.Current() == w.store.Current() && CurrentFields(next) == CurrentFields(w);
    assert next.store.entries[next.store.pos + 1..] == tail + [e];
    UnsentHead(w);
    StreamConcat(tail, [e], After(w.encodes, w.store.Current()));
  }

  lemma EnqueueBeyond(w: TxWorld, e: Entry, rest: seq<Entry>)
    requires UnsentWellFormed(w.store) && WellFormed(e) && w.store.Queueable() && AllWellFormed(rest)
    ensures var next := w.(store := w.store.Append(e).0);
            next.store.Valid() && Beyond(w, [e] + rest) == Beyond(w, [e]) + Beyond(next, rest)
  {
    hide WellFormed, Packet, Stream, Ends, AfterAll;
    var next := w.(store := w.store.Append(e).0);
    assert Unsent(next) == Unsent(w) + [e];
    StreamConcat(Unsent(w), [e], w.encodes);
    StreamConcat([e], rest, AfterAll(w.encodes, Unsent(w)));
  }

  lemma FinishEntryBeyond(env: Env, w: TxWorld, es: seq<Entry>)
    requires TxValid(w) && !w.tx.closed && w.tx.error.None? && w.store.HasCurrent() && AllWellFormed(es)
    ensures FinishEntry(env, w).tx.error.None? ==> Beyond(FinishEntry(env, w), es) == Beyond(w, es)
  {
    hide Fields, WellFormed, Stream;
    var next := FinishEntry(env, w);
    assert Unsent(next) == Unsent(w)[1..];
  }

  /** A call that does not fail leaves what lies beyond the queue as it was. */
  lemma {:induction false} EncodeKeepsBeyond(env: Env, w: TxWorld, room: nat, es: seq<Entry>)
    requires TxValid(w) && w.tx.error.None? && AllWellFormed(es)
    ensures var out := EncodeLoop(env, w, room); out.world.tx.error.None? ==> Beyond(out.world, es) == Beyond(w, es)
    decreases |w.store.entries| - w.store.pos,
              if w.store.HasCurrent() && w.tx.pos < |CurrentFields(w)| then |CurrentFields(w)| - w.tx.pos else 0
  {
    hide Fields, FieldsBytes, FieldBytes, Stream, WellFormed, Pending, FinishEntry, FieldStep, AfterAll, Ends;
    if w.tx.closed || !w.store.HasCurrent() {
    } else if w.tx.pos >= |CurrentFields(w)| {
      FinishEntryKeepsPending(env, w);
      FinishEntryBeyond(env, w, es);
      var next := FinishEntry(env, w);
      if next.tx.error.None? { EncodeKeepsBeyond(env, next, room, es); }
    } else if !HeaderAborts(w) {
      ActiveFieldSlices(w, room);
      var (result, count) := FieldStep(ActiveField(w), w.tx.offset, room);
      if result.Finished? {
        NextFieldPending(w);
        var next := w.(tx := w.tx.(pos := w.tx.pos + 1, offset := 0, built := None));
        EncodeKeepsBeyond(env, next, room - count, es);
      }
    }
  }

  // ----- the theorems -----

  /** One step: bytes written, pending and beyond add up; a failing step writes a prefix. */
  lemma StepAddsUp(env: Env, w: TxWorld, op: TxOp, later: seq<Entry>)
    requires TxValid(w) && OpValid(op) && AllWellFormed(later)
    ensures var first := TxStep(env, w, op);
            && TxValid(first.world) && AllWellFormed(first.accepted + later)
            && first.bytes <= Pending(w) + Beyond(w, first.accepted + later)
            && (w.tx.error.Some? ==> first.world.tx.error.Some?)
            && (first.world.tx.error.None? ==>
                  first.bytes + (Pending(first.world) + Beyond(first.world, later))
                  == Pending(w) + Beyond(w, first.accepted + later))
  {
    hide Fields, FieldsBytes, FieldBytes, Stream, WellFormed, Pending, EncodeLoop, Beyond;
    TxStepKeepsValid(env, w, op);
    var first := TxStep(env, w, op);
    match op {
      case Call(room) =>
        assert first.accepted + later == later;
        if w.tx.error.None? {
          EncodeEmitsPending(env, w, room);
          EncodeKeepsBeyond(env, w, room, later);
        }
      case Enqueue(e) =>
        if w.store.Queueable() {
          EnqueuePending(w, e);
          EnqueueBeyond(w, e, later);
          assert Pending(w) + Beyond(w, [e]) + Beyond(first.world, later)
              == Pending(w) + (Beyond(w, [e]) + Beyond(first.world, later));
        } else {
          assert first.accepted + later == later;
        }
      case Respond(kind, id) =>
        RespondKeepsCurrent(w, kind, id);
        RespondKeepsBeyond(w, kind, id, later);
        assert first.accepted + later == later;
    }
  }

  /** Chunked encoding refines whole-packet encoding. Over any run, the bytes written are a prefix of
      what was pending followed by the packets of the entries accepted meanwhile; as long as no call
      fails, nothing is lost: written and still pending together are exactly those bytes. */
  lemma {:induction false} ChunkedEncodingRefinesStream(env: Env, w: TxWorld, ops: seq<TxOp>)
    requires TxValid(w) && forall i :: 0 <= i < |ops| ==> OpValid(ops[i])
    ensures var run := RunTx(env, w, ops);
            && TxValid(run.world) && AllWellFormed(run.accepted)
            && run.bytes <= Pending(w) + Beyond(w, run.accepted)
            && (run.world.tx.error.None? ==> run.bytes + Pending(run.world) == Pending(w) + Beyond(w, run.accepted))
    decreases |ops|
  {
    hide Fields, FieldsBytes, FieldBytes, Stream, WellFormed, Pending, TxStep, Beyond, OffsetValid;
    if ops == [] {
      BeyondNothing(w);
    } else {
      TxStepKeepsValid(env, w, ops[0]);
      var first := TxStep(env, w, ops[0]);
      var rest := RunTx(env, first.world, ops[1..]);
      ChunkedEncodingRefinesStream(env, first.world, ops[1..]);
      StepAddsUp(env, w, ops[0], rest.accepted);
      if first.world.tx.error.Some? {
        NothingAfterError(first.world, rest.accepted);
        ErrorStays(env, first.world, ops[1..]);
        assert first.bytes + rest.bytes == first.bytes;
      } else {
        assert first.bytes + rest.bytes + Pending(rest.world) == first.bytes + (rest.bytes + Pending(rest.world));
      }
    }
  }

  lemma BeyondNothing(w: TxWorld)
    requires w.store.Valid()
    ensures Beyond(w, []) == []
  {
  }

  lemma NothingAfterError(w: TxWorld, es: seq<Entry>)
    requires TxValid(w) && w.tx.error.Some? && AllWellFormed(es)
    ensures Pending(w) == [] && Beyond(w, es) == []
  {
  }

  lemma RespondKeepsBeyond(w: TxWorld, kind: Kind, id: U16, es: seq<Entry>)
    requires TxValid(w) && AllWellFormed(es)
    ensures w.(store := w.store.PopMarked(kind, id).0).store.Valid()
    ensures Beyond(w.(store := w.store.PopMarked(kind, id).0), es) == Beyond(w, es)
  {
    hide Fields, WellFormed, Stream;
    RespondKeepsCurrent(w, kind, id);
  }

  lemma {:induction false} ErrorStays(env: Env, w: TxWorld, ops: seq<TxOp>)
    requires TxValid(w) && w.tx.error.Some? && forall i :: 0 <= i < |ops| ==> OpValid(ops[i])
    ensures RunTx(env, w, ops).world.tx.error.Some?
    decreases |ops|
  {
    hide Fields, WellFormed;
    if ops != [] {
      TxStepKeepsValid(env, w, ops[0]);
      ErrorStays(env, TxStep(env, w, ops[0]).world, ops[1..]);
    }
  }

  /** The same from rest: the output is a prefix of the whole packets of the unsent queue followed by
      the accepted entries, in queue order, ending after the first DISCONNECT. */
  lemma QueueIsEmittedInOrder(env: Env, w: TxWorld, ops: seq<TxOp>)
    requires TxValid(w) && w.tx == RESET_TX && forall i :: 0 <= i < |ops| ==> OpValid(ops[i])
    ensures var run := RunTx(env, w, ops);
            && AllWellFormed(Unsent(w) + run.accepted)
            && run.bytes <= Stream(Unsent(w) + run.accepted, w.encodes)
            && (run.world.tx.error.None? && (run.world.tx.closed || !run.world.store.HasCurrent()) ==>
                  run.bytes == Stream(Unsent(w) + run.accepted, w.encodes))
  {
    hide Fields, FieldsBytes, FieldBytes, Stream, WellFormed;
    var run := RunTx(env, w, ops);
    ChunkedEncodingRefinesStream(env, w, ops);
    PendingAtRest(w);
    StreamConcat(Unsent(w), run.accepted, w.encodes);
  }

  predicate UnsentEncodable(s: StoreState)
    requires UnsentWellFormed(s)
  {
    forall i :: s.pos <= i < |s.entries| ==> Encodable(s.entries[i])
  }

  lemma FinishEntryRests(env: Env, w: TxWorld)
    requires TxValid(w) && !w.tx.closed && w.tx.error.None? && w.store.HasCurrent() && UnsentEncodable(w.store)
    ensures var next := FinishEntry(env, w);
            && UnsentEncodable(next.store)
            && (next.tx.error.None? && !next.tx.closed ==> next.tx.offset == 0)
            && next.tx.error != Some(AssertionFailed)
  {
    hide Fields, WellFormed, Encodable;
    var next := FinishEntry(env, w);
    assert Unsent(next) == Unsent(w)[1..];
    assert forall i :: next.store.pos <= i < |next.store.entries| ==>
      next.store.entries[i] == Unsent(w)[i - next.store.pos + 1];
  }

  /** The field begun at its start: its call does not abort and does not stop where the next one would. */
  lemma FieldStart(w: TxWorld, room: nat)
    requires TxValid(w) && !w.tx.closed && w.tx.error.None? && w.store.HasCurrent() && w.tx.offset == 0
    requires w.tx.pos < |CurrentFields(w)| && UnsentEncodable(w.store)
    ensures !HeaderAborts(w)
    ensures var f := ActiveField(w);
            var (result, count) := FieldStep(f, 0, room);
            && !result.Aborted? && count <= room
            && (result.Continue? ==>
                  var next := w.(tx := AfterContinue(w.tx, f, count)); TxValid(next) && !Stuck(next))
  {
    hide Fields, FieldsBytes, FieldBytes, WellFormed, Encodable;
    ActiveFieldSlices(w, room);
  }

  /** Started at the beginning of a field, a call neither asserts nor stops where the next call would. */
  lemma {:induction false} FieldStartIsSafe(env: Env, w: TxWorld, room: nat)
    requires TxValid(w) && w.tx.error.None? && w.tx.offset == 0 && UnsentEncodable(w.store)
    ensures var out := EncodeLoop(env, w, room);
            && out.world.tx.error != Some(AssertionFailed)
            && TxValid(out.world) && (out.world.tx.error.None? ==> !Stuck(out.world))
    decreases |w.store.entries| - w.store.pos,
              if w.store.HasCurrent() && w.tx.pos < |CurrentFields(w)| then |CurrentFields(w)| - w.tx.pos else 0
  {
    hide Fields, FieldsBytes, FieldBytes, WellFormed, FinishEntry, Encodable, FieldStep, UnsentEncodable, ActiveField,
         HeaderAborts, Stream;
    if w.tx.closed || !w.store.HasCurrent() {
    } else if w.tx.pos >= |CurrentFields(w)| {
      FinishEntryKeepsPending(env, w);
      FinishEntryRests(env, w);
      var next := FinishEntry(env, w);
      if next.tx.error.None? {
        if next.tx.closed {
          assert EncodeLoop(env, next, room).world == next;
        } else {
          FieldStartIsSafe(env, next, room);
        }
      }
    } else {
      FieldStart(w, room);
      var (result, count) := FieldStep(ActiveField(w), 0, room);
      if result.Finished? {
        NextFieldPending(w);
        FieldStartIsSafe(env, w.(tx := w.tx.(pos := w.tx.pos + 1, offset := 0, built := None)), room - count);
      }
    }
  }

  /** One byte of an empty client id's length is out. */
  predicate HalfLength(w: TxWorld)
    requires UnsentWellFormed(w.store)
  {
    w.tx.offset == 1 && Stuck(w.(tx := w.tx.(offset := 2)))
  }

  /** A call inside a field: it aborts, finishes the field, or stops inside it. */
  lemma FieldResumes(w: TxWorld, room: nat)
    requires TxValid(w) && !w.tx.closed && w.tx.error.None? && w.store.HasCurrent() && w.tx.offset > 0
    requires room > 0 && UnsentEncodable(w.store)
    ensures w.tx.pos < |CurrentFields(w)| && !HeaderAborts(w)
    ensures var f := ActiveField(w);
            var (result, count) := FieldStep(f, w.tx.offset, room);
            && (result.Aborted? <==> Stuck(w))
            && (result.Aborted? ==> !HalfLength(w))
            && (result.Finished? ==> count <= room && !(HalfLength(w) && room == 1))
            && (result.Continue? ==>
                  var next := w.(tx := AfterContinue(w.tx, f, count));
                  TxValid(next) && (Stuck(next) <==> HalfLength(w) && room == 1))
  {
    hide Fields, FieldsBytes, FieldBytes, WellFormed, Encodable;
    ActiveFieldSlices(w, room);
  }

  /** A call asserts exactly when it resumes behind the two length bytes of an empty client id; it
      leaves the encoder there exactly when it resumes between them with one byte of room. */
  lemma EmptyClientIdNeedsTwoBytes(env: Env, w: TxWorld, room: nat)
    requires TxValid(w) && w.tx.error.None? && room > 0 && UnsentEncodable(w.store)
    ensures var out := EncodeLoop(env, w, room);
            && (out.world.tx.error == Some(AssertionFailed) <==> Stuck(w))
            && TxValid(out.world)
            && (out.world.tx.error.None? && Stuck(out.world) <==> HalfLength(w) && room == 1)
  {
    hide Fields, FieldsBytes, FieldBytes, WellFormed, FinishEntry, Encodable, FieldStep, ActiveField, HeaderAborts,
         Stream,
         UnsentEncodable;
    if w.tx.offset == 0 {
      FieldStartIsSafe(env, w, room);
    } else if !w.tx.closed && w.store.HasCurrent() {
      FieldResumes(w, room);
      var (result, count) := FieldStep(ActiveField(w), w.tx.offset, room);
      if result.Finished? {
        NextFieldPending(w);
        FieldStartIsSafe(env, w.(tx := w.tx.(pos := w.tx.pos + 1, offset := 0, built := None)), room - count);
      }
    }
  }
}
