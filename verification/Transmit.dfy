/** The tx buffer: a resumable encoder that walks (field index, byte offset) over the store's unsent
    entries, and the proof that cutting its output anywhere does not change the bytes. */
module Transmit {
  import opened Types
  import opened PacketStore
  import opened Wire

  /** `built` is the content of the encode buffer once a header or id has been built into it. */
  datatype Tx = Tx(closed: bool, pos: nat, offset: nat, built: Option<seq<byte>>, error: Option<Error>)

  const RESET_TX := Tx(false, 0, 0, None, None)

  /** What the encoder can see and change. `encodes` counts, for each request object, how often it
      was fully encoded as PUBLISH (`encode_count` in the C code). */
  datatype TxWorld = TxWorld(tx: Tx, store: StoreState, encodes: multiset<nat>, log: seq<Event>)

  predicate ExpectsResponse(kind: Kind)
  {
    !kind.Publish0? && !kind.Puback? && !kind.Pubrec? && !kind.Pubcomp? && !kind.Disconnect?
  }

  predicate IsPublish(kind: Kind) { kind.Publish0? || kind.Publish1? || kind.Publish2? }

  predicate Dup(e: Entry, encodes: multiset<nat>) { IsPublish(e.kind) && e.value.ref in encodes }

  function After(encodes: multiset<nat>, e: Entry): multiset<nat>
  {
    if IsPublish(e.kind) then encodes + multiset{e.value.ref} else encodes
  }

  datatype EncodeResult = Finished | Continue | Aborted

  /** One encoder call on `room` bytes of buffer: the result and the number of bytes written. */
  function FieldStep(f: Field, offset: nat, room: nat): (EncodeResult, nat)
  {
    match f
    case Built(bytes) =>
      if offset >= |bytes| then (Aborted, 0)
      else if |bytes| - offset > room then (Continue, room)
      else (Finished, |bytes| - offset)
    case Str(s, withLength, ifEmpty) =>
      var total := |s| + (if withLength then 2 else 0);
      if s == [] && !ifEmpty then (Finished, 0)
      else if room == 0 then (Continue, 0)
      else if offset >= total then (Aborted, 0)
      else if withLength && s == [] && offset == 1 && room == 1 then (Continue, 1)
      else if total - offset > room then (Continue, room)
      else (Finished, total - offset)
  }

  datatype Stop = Idle | Full | Failed

  datatype EncodeOut = EncodeOut(world: TxWorld, bytes: seq<byte>, stop: Stop)

  predicate UnsentWellFormed(s: StoreState)
  {
    s.Valid() && forall i :: s.pos <= i < |s.entries| ==> WellFormed(s.entries[i])
  }

  function CurrentFields(w: TxWorld): seq<Field>
    requires UnsentWellFormed(w.store) && w.store.HasCurrent()
  {
    Fields(w.store.Current(), Dup(w.store.Current(), w.encodes))
  }

  /** The entry is fully encoded: wait for its response, or drop it. */
  function FinishEntry(env: Env, w: TxWorld): (r: TxWorld)
    requires UnsentWellFormed(w.store) && w.store.HasCurrent()
    ensures UnsentWellFormed(r.store)
    ensures |r.store.entries| - r.store.pos == |w.store.entries| - w.store.pos - 1
  {
    var e := w.store.Current();
    var done := w.(encodes := After(w.encodes, e), log := w.log + [Emitted(e.kind, e.value.packetId)]);
    if ExpectsResponse(e.kind) then
      done.(store := w.store.Mark(), tx := RESET_TX)
    else
      var s := w.store.DropCurrent();
      assert forall i :: s.pos <= i < |s.entries| ==> s.entries[i] == w.store.entries[i + 1];
      var dropped := done.(store := s);
      if e.kind.Disconnect? then dropped.(tx := w.tx.(closed := true))
      else if e.value.body.NoBody? then dropped.(tx := RESET_TX)
      else
        var called := dropped.(log := dropped.log + [Completed(e.kind, e.value, true)]);
        if env.accept(called.log) then called.(tx := RESET_TX)
        else called.(tx := w.tx.(error := Some(CallbackPublish)))
  }

  /** The field the current encoder works on; a built field is taken from the encode buffer. */
  function ActiveField(w: TxWorld): Field
    requires UnsentWellFormed(w.store) && w.store.HasCurrent() && w.tx.pos < |CurrentFields(w)|
  {
    var f := CurrentFields(w)[w.tx.pos];
    if f.Built? && w.tx.built.Some? then Built(w.tx.built.value) else f
  }

  /** Building the first header asserts that the Remaining Length fits. */
  predicate HeaderAborts(w: TxWorld)
    requires UnsentWellFormed(w.store) && w.store.HasCurrent()
  {
    w.tx.pos == 0 && w.tx.built.None? && !Encodable(w.store.Current())
  }

  /** `lmqtt_tx_buffer_encode` from the first loop test on. */
  function EncodeLoop(env: Env, w: TxWorld, room: nat): (out: EncodeOut)
    requires UnsentWellFormed(w.store)
    ensures UnsentWellFormed(out.world.store)
    decreases |w.store.entries| - w.store.pos,
              if w.store.HasCurrent() && w.tx.pos < |CurrentFields(w)| then |CurrentFields(w)| - w.tx.pos else 0
  {
    if w.tx.closed || !w.store.HasCurrent() then EncodeOut(w, [], Idle)
    else if w.tx.pos >= |CurrentFields(w)| then
      var next := FinishEntry(env, w);
      if next.tx.error.Some? then EncodeOut(next, [], Failed) else EncodeLoop(env, next, room)
    else if HeaderAborts(w) then EncodeOut(w.(tx := w.tx.(error := Some(AssertionFailed))), [], Failed)
    else
      var f := ActiveField(w);
      var (result, count) := FieldStep(f, w.tx.offset, room);
      match result
      case Aborted => EncodeOut(w.(tx := w.tx.(error := Some(AssertionFailed))), [], Failed)
      case Continue =>
        EncodeOut(w.(tx := AfterContinue(w.tx, f, count)), Slice(f, w.tx.offset, count), Full)
      case Finished =>
        var tx := w.tx.(pos := w.tx.pos + 1, offset := 0, built := None);
        var rest := EncodeLoop(env, w.(tx := tx), if count <= room then room - count else 0);
        rest.(bytes := Slice(f, w.tx.offset, count) + rest.bytes)
  }

  function Slice(f: Field, offset: nat, count: nat): seq<byte>
  {
    if offset + count <= |FieldBytes(f)| then FieldBytes(f)[offset..offset + count] else []
  }

  function Encode(env: Env, w: TxWorld, room: nat): (out: EncodeOut)
    requires UnsentWellFormed(w.store)
    ensures UnsentWellFormed(out.world.store)
  {
    if w.tx.error.Some? then EncodeOut(w, [], Failed) else EncodeLoop(env, w, room)
  }

  function EncodeIo(out: EncodeOut): IoResult
  {
    match out.stop
    case Failed => IoError
    case Full => IoSuccess
    case Idle => if out.bytes != [] || out.world.tx.closed then IoSuccess else IoWouldBlock
  }

  // ----- what is still to come -----

  /** The whole packets of `entries` in order, up to and including the first DISCONNECT. */
  function Stream(entries: seq<Entry>, encodes: multiset<nat>): seq<byte>
    requires forall i :: 0 <= i < |entries| ==> WellFormed(entries[i])
  {
    if entries == [] then []
    else Packet(entries[0], Dup(entries[0], encodes))
         + (if entries[0].kind.Disconnect? then [] else Stream(entries[1..], After(encodes, entries[0])))
  }

  predicate OffsetValid(tx: Tx, fs: seq<Field>)
  {
    && tx.pos <= |fs|
    && (tx.pos == |fs| ==> tx.offset == 0 && tx.built.None?)
    && (tx.pos < |fs| ==>
          match fs[tx.pos]
          case Built(bytes) => tx.offset < |bytes| && (tx.built.Some? ==> tx.built.value == bytes)
          case Str(s, withLength, ifEmpty) =>
            && tx.built.None?
            && (tx.offset == 0 || tx.offset < |FieldBytes(fs[tx.pos])|
                || (s == [] && withLength && ifEmpty && tx.offset == 2)))
  }

  /** The position is inside the packet of the current entry; with nothing to send it is at rest. */
  predicate TxValid(w: TxWorld)
  {
    && UnsentWellFormed(w.store)
    && (!w.tx.closed && w.tx.error.None? ==>
          if w.store.HasCurrent() then OffsetValid(w.tx, CurrentFields(w))
          else w.tx.pos == 0 && w.tx.offset == 0 && w.tx.built.None?)
  }

  /** The bytes still to be emitted from this state on. */
  function Pending(w: TxWorld): seq<byte>
    requires TxValid(w)
  {
    if w.tx.closed || w.tx.error.Some? || !w.store.HasCurrent() then []
    else
      var e := w.store.Current();
      FieldsBytes(CurrentFields(w)[w.tx.pos..])[w.tx.offset..]
      + (if e.kind.Disconnect? then [] else Stream(w.store.entries[w.store.pos + 1..], After(w.encodes, e)))
  }

  /** At rest in front of an entry, what is pending is the whole stream of unsent entries. */
  lemma PendingAtRest(w: TxWorld)
    requires TxValid(w) && !w.tx.closed && w.tx.error.None? && w.tx.pos == 0 && w.tx.offset == 0
    ensures Pending(w) == Stream(w.store.entries[w.store.pos..], w.encodes)
  {
    hide Fields, FieldsBytes, Packet, WellFormed, FieldBytes;
    if w.store.HasCurrent() {
      var e := w.store.Current();
      FieldsMakePacket(e, Dup(e, w.encodes));
      assert w.store.entries[w.store.pos..][1..] == w.store.entries[w.store.pos + 1..];
      assert CurrentFields(w)[0..] == CurrentFields(w);
    }
  }

  lemma FinishEntryKeepsPending(env: Env, w: TxWorld)
    requires TxValid(w) && !w.tx.closed && w.tx.error.None? && w.store.HasCurrent()
    requires w.tx.pos == |CurrentFields(w)|
    ensures var next := FinishEntry(env, w); TxValid(next) && (next.tx.error.None? ==> Pending(next) == Pending(w))
    ensures FinishEntry(env, w).tx.error.Some? ==> Pending(FinishEntry(env, w)) == []
  {
    hide Fields, WellFormed, FieldBytes, Stream;
    var next := FinishEntry(env, w);
    var e := w.store.Current();
    assert FieldsBytes(CurrentFields(w)[w.tx.pos..]) == [];
    if next.tx.error.None? && !next.tx.closed {
      assert next.store.entries[next.store.pos..] == w.store.entries[w.store.pos + 1..];
      PendingAtRest(next);
    }
  }

  lemma FieldStepSlices(f: Field, room: nat, tx: Tx)
    requires FieldShape(f) && tx.pos == 0 && OffsetValid(tx, [f])
    ensures var (result, count) := FieldStep(f, tx.offset, room);
            && (result.Aborted? <==> room > 0 && f.Str? && f.str == [] && f.ifEmpty && tx.offset == 2)
            && (!result.Aborted? ==> tx.offset + count <= |FieldBytes(f)| && count <= room)
            && (result.Finished? ==> tx.offset + count == |FieldBytes(f)|)
            && (result.Continue? ==> count == room)
            && (result.Continue? ==> OffsetValid(AfterContinue(tx, f, count), [f]))
  {
  }

  function AfterContinue(tx: Tx, f: Field, count: nat): Tx
  {
    tx.(offset := tx.offset + count, built := if f.Built? then Some(f.bytes) else None)
  }

  /** The active field's slice, and the state before the next field. */
  lemma ActiveFieldSlices(w: TxWorld, room: nat)
    requires TxValid(w) && !w.tx.closed && w.tx.error.None? && w.store.HasCurrent()
    requires w.tx.pos < |CurrentFields(w)|
    ensures var f := ActiveField(w);
            var (result, count) := FieldStep(f, w.tx.offset, room);
            && f == CurrentFields(w)[w.tx.pos]
            && (result.Aborted? <==> room > 0 && Stuck(w))
            && (!result.Aborted? ==> w.tx.offset + count <= |FieldBytes(f)| && count <= room)
            && (result.Finished? ==> w.tx.offset + count == |FieldBytes(f)|)
            && (result.Continue? ==> count == room && TxValid(w.(tx := AfterContinue(w.tx, f, count))))
  {
    var f := ActiveField(w);
    assert f == CurrentFields(w)[w.tx.pos] && FieldShape(f);
    FieldStepSlices(f, room, w.tx.(pos := 0));
  }

  /** In the middle of an empty client id whose two length bytes are out: the next call asserts. */
  predicate Stuck(w: TxWorld)
    requires UnsentWellFormed(w.store)
  {
    && !w.tx.closed && w.store.HasCurrent() && w.tx.pos < |CurrentFields(w)| && w.tx.offset == 2
    && CurrentFields(w)[w.tx.pos].Str? && CurrentFields(w)[w.tx.pos].str == [] && CurrentFields(w)[w.tx.pos].ifEmpty
  }

  lemma NextFieldPending(w: TxWorld)
    requires TxValid(w) && !w.tx.closed && w.tx.error.None? && w.store.HasCurrent()
    requires w.tx.pos < |CurrentFields(w)|
    ensures var next := w.(tx := w.tx.(pos := w.tx.pos + 1, offset := 0, built := None));
            TxValid(next) && Pending(w) == FieldBytes(CurrentFields(w)[w.tx.pos])[w.tx.offset..] + Pending(next)
  {
    hide Fields, FieldsBytes, Stream, WellFormed;
    var fs := CurrentFields(w);
    FieldsFrom(fs, w.tx.pos);
    var next := w.(tx := w.tx.(pos := w.tx.pos + 1, offset := 0, built := None));
    assert FieldShape(fs[w.tx.pos]);
    assert next.tx.pos < |fs| ==> FieldShape(fs[next.tx.pos]);
    assert CurrentFields(next) == fs;
    assert FieldsBytes(fs[next.tx.pos..])[0..] == FieldsBytes(fs[next.tx.pos..]);
  }

  lemma ContinuePending(w: TxWorld, count: nat)
    requires TxValid(w) && !w.tx.closed && w.tx.error.None? && w.store.HasCurrent()
    requires w.tx.pos < |CurrentFields(w)|
    requires w.tx.offset + count <= |FieldBytes(CurrentFields(w)[w.tx.pos])|
    requires TxValid(w.(tx := AfterContinue(w.tx, CurrentFields(w)[w.tx.pos], count)))
    ensures Pending(w) == Slice(CurrentFields(w)[w.tx.pos], w.tx.offset, count)
                          + Pending(w.(tx := AfterContinue(w.tx, CurrentFields(w)[w.tx.pos], count)))
  {
    hide Fields, FieldsBytes, FieldBytes, Stream, WellFormed;
    FieldsFrom(CurrentFields(w), w.tx.pos);
  }

  /** What one call promises about the bytes pending before and after it. */
  predicate EmitsPending(w: TxWorld, room: nat, out: EncodeOut)
    requires TxValid(w)
  {
    && TxValid(out.world)
    && |out.bytes| <= room
    && out.bytes <= Pending(w)
    && (out.stop.Failed? <==> out.world.tx.error.Some?)
    && (!out.stop.Failed? ==> out.bytes + Pending(out.world) == Pending(w))
    && (out.stop.Full? ==> |out.bytes| == room)
    && (out.stop.Idle? <==> out.world.tx.error.None? && (out.world.tx.closed || !out.world.store.HasCurrent()))
  }

  lemma PrependSlice(w: TxWorld, next: TxWorld, slice: seq<byte>, room: nat, rest: EncodeOut)
    requires TxValid(w) && TxValid(next) && |slice| <= room
    requires EmitsPending(next, room - |slice|, rest)
    requires Pending(w) == slice + Pending(next)
    ensures EmitsPending(w, room, rest.(bytes := slice + rest.bytes))
  {
    assert slice + rest.bytes + Pending(rest.world) == slice + (rest.bytes + Pending(rest.world));
  }

  /** One call: whatever room it gets, it emits a prefix of what is pending; unless it fails, the rest
      stays pending, and it stops short of the room only when nothing is left. */
  lemma {:induction false} EncodeEmitsPending(env: Env, w: TxWorld, room: nat)
    requires TxValid(w) && w.tx.error.None?
    ensures EmitsPending(w, room, EncodeLoop(env, w, room))
    decreases |w.store.entries| - w.store.pos,
              if w.store.HasCurrent() && w.tx.pos < |CurrentFields(w)| then |CurrentFields(w)| - w.tx.pos else 0
  {
    hide Fields, FieldsBytes, FieldBytes, Stream, WellFormed, Pending, FinishEntry, FieldStep;
    if w.tx.closed || !w.store.HasCurrent() {
    } else if w.tx.pos >= |CurrentFields(w)| {
      FinishEntryKeepsPending(env, w);
      var next := FinishEntry(env, w);
      if next.tx.error.None? { EncodeEmitsPending(env, next, room); }
    } else if !HeaderAborts(w) {
      var f := ActiveField(w);
      ActiveFieldSlices(w, room);
      var (result, count) := FieldStep(f, w.tx.offset, room);
      if result.Finished? {
        var next := w.(tx := w.tx.(pos := w.tx.pos + 1, offset := 0, built := None));
        NextFieldPending(w);
        EncodeEmitsPending(env, next, room - count);
        PrependSlice(w, next, Slice(f, w.tx.offset, count), room, EncodeLoop(env, next, room - count));
      } else if result.Continue? {
        ContinuePending(w, count);
      }
    }
  }
}
