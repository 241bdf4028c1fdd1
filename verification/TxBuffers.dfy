/** The encoder as the C library runs it: encoders found by position, an encode buffer filled once per
    built field, strings copied straight into the caller's buffer. */
module TxBuffers {
  import opened Types
  import opened FixedHeader
  import opened PacketStore
  import opened Wire
  import opened Transmit

  /** The application's side of the callbacks. */
  class App {
    const env: Env
    var log: seq<Event>

    constructor (env: Env)
      ensures this.env == env && log == []
    {
      this.env := env;
      log := [];
    }

    method Note(e: Event)
      modifies this`log
      ensures log == old(log) + [e]
    {
      log := log + [e];
    }

    method Ask(e: Event) returns (ok: bool)
      modifies this`log
      ensures log == old(log) + [e] && ok == env.accept(log)
    {
      log := log + [e];
      ok := env.accept(log);
    }

    method AskAllocate(e: Event) returns (answer: Allocation)
      modifies this`log
      ensures log == old(log) + [e] && answer == env.allocate(log)
    {
      log := log + [e];
      answer := env.allocate(log);
    }
  }

  datatype Encoder =
    | HeaderEncoder | HeaderIdEncoder | ConnectHeaderEncoder | PacketIdEncoder | QosEncoder(qos: int)
    | StringEncoder(str: seq<byte>, withLength: bool, ifEmpty: bool)

  /** The finder of an entry's kind. */
  function Finder(e: Entry, p: nat): Option<Encoder>
    requires WellFormed(e)
  {
    match e.kind
    case Connect =>
      var c := e.value.body.connect;
      if p == 0 then Some(HeaderEncoder)
      else if p == 1 then Some(ConnectHeaderEncoder)
      else if p == 2 then Some(StringEncoder(c.clientId, true, true))
      else if p == 3 then Some(StringEncoder(c.willTopic, true, false))
      else if p == 4 then Some(StringEncoder(c.willMessage, true, false))
      else if p == 5 then Some(StringEncoder(c.userName, true, false))
      else if p == 6 then Some(StringEncoder(c.password, true, false))
      else None
    case Publish0 => PublishFinder(e.value.body.publish, p)
    case Publish1 => PublishFinder(e.value.body.publish, p)
    case Publish2 => PublishFinder(e.value.body.publish, p)
    case Subscribe =>
      var subs := e.value.body.subscriptions;
      if p == 0 then Some(HeaderIdEncoder)
      else if p - 1 < 2 * |subs| then
        if (p - 1) % 2 == 0 then Some(StringEncoder(subs[(p - 1) / 2].topic, true, true))
        else Some(QosEncoder(subs[(p - 1) / 2].requestedQos))
      else None
    case Unsubscribe =>
      var subs := e.value.body.subscriptions;
      if p == 0 then Some(HeaderIdEncoder)
      else if p - 1 < |subs| then Some(StringEncoder(subs[p - 1].topic, true, true))
      else None
    case Pingreq => if p == 0 then Some(HeaderEncoder) else None
    case Disconnect => if p == 0 then Some(HeaderEncoder) else None
    case _ => if p == 0 then Some(HeaderIdEncoder) else None
  }

  function PublishFinder(q: PublishRequest, p: nat): Option<Encoder>
  {
    if p == 0 then Some(HeaderEncoder)
    else if p == 1 then Some(StringEncoder(q.topic, true, true))
    else if q.qos == 0 then if p == 2 then Some(StringEncoder(q.payload, false, false)) else None
    else if p == 2 then Some(PacketIdEncoder)
    else if p == 3 then Some(StringEncoder(q.payload, false, false))
    else None
  }

  /** The field an encoder emits. */
  function FieldOf(enc: Encoder, e: Entry, dup: bool): Field
    requires WellFormed(e) && (enc.ConnectHeaderEncoder? ==> e.kind.Connect?)
  {
    match enc
    case HeaderEncoder => Built([FirstByte(e, dup)] + RemainingLength(Declared(e)))
    case HeaderIdEncoder => Built([FirstByte(e, dup)] + RemainingLength(Declared(e)) + U16Bytes(e.value.packetId))
    case ConnectHeaderEncoder => Built(ConnectVariableHeader(e.value.body.connect))
    case PacketIdEncoder => Built(U16Bytes(e.value.packetId))
    case QosEncoder(q) => Built([q % 256])
    case StringEncoder(s, withLength, ifEmpty) => Str(s, withLength, ifEmpty)
  }

  /** The finders enumerate exactly the fields of the packet, and run out exactly at its end. */
  lemma FinderEnumeratesFields(e: Entry, p: nat, dup: bool)
    requires WellFormed(e)
    ensures Finder(e, p).Some? <==> p < |Fields(e, dup)|
    ensures Finder(e, p).Some? && (Finder(e, p).value.HeaderEncoder? || Finder(e, p).value.HeaderIdEncoder?) ==> p == 0
    ensures Finder(e, p).Some? ==>
      (Finder(e, p).value.ConnectHeaderEncoder? ==> e.kind.Connect?)
        && FieldOf(Finder(e, p).value, e, dup) == Fields(e, dup)[p]
  {
    hide RemainingLength, ConnectVariableHeader, FirstByte, Declared;
    if e.kind.Subscribe? || e.kind.Unsubscribe? { SubscriptionFinder(e, p, dup); } else { hide SubscriptionField; }
  }

  lemma SubscriptionFinder(e: Entry, p: nat, dup: bool)
    requires WellFormed(e) && (e.kind.Subscribe? || e.kind.Unsubscribe?)
    ensures Finder(e, p).Some? <==> p < |Fields(e, dup)|
    ensures Finder(e, p).Some? ==> !Finder(e, p).value.ConnectHeaderEncoder?
    ensures Finder(e, p).Some? ==> FieldOf(Finder(e, p).value, e, dup) == Fields(e, dup)[p]
  {
    hide RemainingLength, ConnectVariableHeader, FirstByte, Declared;
  }

  // The methods below append to `buf[..at]`: what is there stays, the bytes go behind it.

  /** The length bytes that are still due at `offset`, as far as they fit. */
  method EncodeLength(len: nat, offset: nat, buf: array<byte>, at: nat, room: nat) returns (written: nat)
    requires len <= 0xffff && 0 < room && at + room <= buf.Length
    modifies buf
    ensures written == if offset >= 2 then 0 else Min(2 - offset, room)
    ensures buf[..at + written] == old(buf[..at]) + (if offset < 2 then U16Bytes(len)[offset..offset + written] else [])
  {
    written := 0;
    for i := 0 to 2
      invariant written == (if offset < i then i - offset else 0) && written < room
      invariant buf[..at + written]
                == old(buf[..at]) + (if offset < 2 then U16Bytes(len)[offset..offset + written] else [])
    {
      if offset <= i {
        ghost var before := buf[..at + written];
        buf[at + written] := if i == 0 then len / 256 else len % 256;
        written := written + 1;
        assert buf[..at + written] == before + [buf[at + written - 1]];
        assert U16Bytes(len)[offset..offset + written]
          == U16Bytes(len)[offset..offset + written - 1] + [buf[at + written - 1]];
        if written >= room { return; }
      }
    }
  }

  method CopyString(str: seq<byte>, from: nat, len: nat, buf: array<byte>, at: nat)
    requires from + len <= |str| && at + len <= buf.Length
    modifies buf
    ensures buf[..at + len] == old(buf[..at]) + str[from..from + len]
  {
    ghost var before := buf[..at];
    forall i | 0 <= i < len {
      buf[at + i] := str[from + i];
    }
    ghost var whole := before + str[from..from + len];
    assert forall i :: 0 <= i < |whole| ==> whole[i] == buf[i];
    assert buf[..at + len] == whole;
  }

  /** Copies the string bytes of a field behind its length bytes. */
  method AppendSlice(ghost f: Field, ghost offset: nat, ghost front: seq<byte>, str: seq<byte>, from: nat, len: nat,
                     buf: array<byte>, at: nat, head: nat)
    requires from + len <= |str| && at + head + len <= buf.Length && buf[..at + head] == front + Slice(f, offset, head)
    requires Slice(f, offset, head + len) == Slice(f, offset, head) + str[from..from + len]
    modifies buf
    ensures buf[..at + (head + len)] == front + Slice(f, offset, head + len)
  {
    hide Slice;
    CopyString(str, from, len, buf, at + head);
    SlicesAddUp(front, Slice(f, offset, head), str[from..from + len]);
    assert at + head + len == at + (head + len);
  }

  /** Copies a request string with its optional length. */
  method StringEncode(str: seq<byte>, encodeLength: bool, encodeIfEmpty: bool, offset: nat,
                      buf: array<byte>, at: nat, room: nat)
    returns (result: EncodeResult, written: nat)
    requires at + room <= buf.Length && (encodeIfEmpty ==> encodeLength)
    requires encodeLength ==> |str| <= 0xffff
    modifies buf
    ensures (result, written) == FieldStep(Str(str, encodeLength, encodeIfEmpty), offset, room)
    ensures written <= room && (result.Aborted? ==> written == 0)
    ensures buf[..at + written] == old(buf[..at]) + Slice(Str(str, encodeLength, encodeIfEmpty), offset, written)
  {
    hide U16Bytes, FieldBytes, Slice;
    ghost var f := Str(str, encodeLength, encodeIfEmpty);
    NoSlice(f, offset);
    written := 0;
    if |str| == 0 && !encodeIfEmpty { return Finished, 0; }
    if room == 0 { return Continue, 0; }
    if offset >= |str| + (if encodeLength then 2 else 0) { return Aborted, 0; }

    var offsetStr := offset;
    if encodeLength {
      written := EncodeLength(|str|, offset, buf, at, room);
      LengthSlice(str, encodeIfEmpty, offset, written);
      if written >= room {
        return if written >= 2 && |str| == 0 then Finished else Continue, written;
      }
      offsetStr := if offset <= 2 then 0 else offset - 2;
    }
    var remaining := |str| - offsetStr;
    var len := Min(remaining, room - written);
    SliceParts(f, offset, written, len, offsetStr);
    AppendSlice(f, offset, old(buf[..at]), str, offsetStr, len, buf, at, written);
    written := written + len;
    result := if len >= remaining then Finished else Continue;
  }

  lemma SlicesAddUp(a: seq<byte>, b: seq<byte>, c: seq<byte>)
    ensures a + b + c == a + (b + c)
  {
  }

  lemma NoSlice(f: Field, offset: nat)
    ensures Slice(f, offset, 0) == []
  {
  }

  lemma LengthSlice(str: seq<byte>, ifEmpty: bool, offset: nat, written: nat)
    requires |str| <= 0xffff && (str != [] || ifEmpty) && offset < |str| + 2
    requires offset < 2 ==> offset + written <= 2
    requires offset >= 2 ==> written == 0
    ensures Slice(Str(str, true, ifEmpty), offset, written)
            == if offset < 2 then U16Bytes(|str|)[offset..offset + written] else []
  {
    hide U16Bytes;
    if offset < 2 {
      assert (U16Bytes(|str|) + str)[offset..offset + written] == U16Bytes(|str|)[offset..offset + written];
    }
  }

  /** A slice of a string field is what is left of the length bytes and then part of the string. */
  lemma SliceParts(f: Field, offset: nat, head: nat, len: nat, offsetStr: nat)
    requires f.Str? && FieldShape(f) && (f.str != [] || f.ifEmpty)
    requires offset < |f.str| + (if f.withLength then 2 else 0)
    requires offsetStr == (if !f.withLength then offset else if offset <= 2 then 0 else offset - 2)
    requires head == (if f.withLength && offset < 2 then 2 - offset else 0)
    requires offsetStr + len <= |f.str| && (f.withLength ==> |f.str| <= 0xffff)
    ensures Slice(f, offset, head + len) == Slice(f, offset, head) + f.str[offsetStr..offsetStr + len]
  {
    hide U16Bytes;
    if f.withLength {
      Behind(U16Bytes(|f.str|), f.str, offset + head, len);
    }
    TwoSlices(FieldBytes(f), offset, head, len);
  }

  lemma Behind(front: seq<byte>, back: seq<byte>, from: nat, len: nat)
    requires |front| <= from && from + len <= |front| + |back|
    ensures (front + back)[from..from + len] == back[from - |front|..from - |front| + len]
  {
  }

  lemma TwoSlices(s: seq<byte>, from: nat, a: nat, b: nat)
    requires from + a + b <= |s|
    ensures s[from..from + (a + b)] == s[from..from + a] + s[from + a..from + a + b]
  {
  }

  class TxBuffer {
    var closed: bool
    var pos: nat
    var offset: nat
    var error: Option<Error>
    /** The encode buffer: `encoded` says whether `buffer[..bufLen]` holds the field being sent. */
    var encoded: bool
    var bufLen: nat
    const buffer: array<byte>
    /** How often each request object was fully encoded as PUBLISH. */
    var encodes: multiset<nat>

    predicate Valid()
      reads this, buffer
    {
      buffer.Length == 16 && bufLen <= 16
    }

    function Model(): Tx
      requires Valid()
      reads this, buffer
    {
      Tx(closed, pos, offset, if encoded then Some(buffer[..bufLen]) else None, error)
    }

    function World(store: Store, app: App): TxWorld
      requires Valid() && store.Valid()
      reads this, buffer, store, store.entries, app
    {
      TxWorld(Model(), store.Model(), encodes, app.log)
    }

    constructor ()
      ensures Valid() && fresh(buffer) && Model() == RESET_TX && encodes == multiset{}
    {
      buffer := new byte[16];
      closed, pos, offset, error, encoded, bufLen, encodes := false, 0, 0, None, false, 0, multiset{};
    }

    method Reset()
      requires Valid()
      modifies this`closed, this`pos, this`offset, this`error, this`encoded, this`bufLen
      ensures Valid() && Model() == RESET_TX
    {
      closed, pos, offset, error, encoded, bufLen := false, 0, 0, None, false, 0;
    }

    /** `lmqtt_tx_buffer_finish`. */
    method Finish()
      requires Valid()
      modifies this`closed
      ensures Valid() && Model() == old(Model()).(closed := true)
    {
      closed := true;
    }

    method BuildHeader(e: Entry, dup: bool)
      requires Valid() && WellFormed(e) && Encodable(e)
      modifies this`bufLen, buffer
      ensures Valid() && bufLen <= 5 && buffer[..bufLen] == [FirstByte(e, dup)] + RemainingLength(Declared(e))
    {
      hide RemainingLength, FirstByte, Declared, PacketBody;
      var length := CalcRemaining(e);
      buffer[0] := FirstByte(e, dup);
      assert buffer[..1] == [FirstByte(e, dup)];
      var size := EncodeRemainingLength(length, buffer, 1);
      bufLen := 1 + size;
    }

    /** Builds a field into the encode buffer. */
    method Build(enc: Encoder, e: Entry, dup: bool)
      requires Valid() && WellFormed(e) && (enc.HeaderEncoder? || enc.HeaderIdEncoder? ==> Encodable(e))
      requires !enc.StringEncoder? && (enc.ConnectHeaderEncoder? ==> e.kind.Connect?)
      modifies this`bufLen, buffer
      ensures Valid() && buffer[..bufLen] == FieldOf(enc, e, dup).bytes
    {
      match enc {
        case HeaderEncoder =>
          BuildHeader(e, dup);
        case HeaderIdEncoder =>
          BuildHeader(e, dup);
          ghost var header := buffer[..bufLen];
          buffer[bufLen] := e.value.packetId / 256;
          buffer[bufLen + 1] := e.value.packetId % 256;
          bufLen := bufLen + 2;
          assert buffer[..bufLen] == header + U16Bytes(e.value.packetId);
        case ConnectHeaderEncoder =>
          var c := e.value.body.connect;
          buffer[0], buffer[1], buffer[2], buffer[3], buffer[4] := 0, 4, 77, 81, 84;
          buffer[5], buffer[6], buffer[7] := 84, 4, ConnectFlags(c);
          buffer[8] := c.keepAlive / 256;
          buffer[9] := c.keepAlive % 256;
          bufLen := 10;
        case PacketIdEncoder =>
          buffer[0] := e.value.packetId / 256;
          buffer[1] := e.value.packetId % 256;
          bufLen := 2;
        case QosEncoder(q) =>
          buffer[0] := q % 256;
          bufLen := 1;
      }
    }

    /** The buffer holds this built field, as far as it was built already. */
    predicate Holds(f: Field)
      requires Valid()
      reads this, buffer
    {
      if f.Built? then offset < |f.bytes| && (encoded ==> buffer[..bufLen] == f.bytes) else !encoded
    }

    /** `encode_buffer_encode`: builds the field unless it is there, and sends what fits. */
    method EncodeBuffered(enc: Encoder, e: Entry, dup: bool, out: array<byte>, at: nat, room: nat)
      returns (result: EncodeResult, written: nat)
      requires Valid() && out != buffer && at + room <= out.Length && WellFormed(e)
      requires !encoded && (enc.HeaderEncoder? || enc.HeaderIdEncoder?) ==> Encodable(e)
      requires !enc.StringEncoder? && (enc.ConnectHeaderEncoder? ==> e.kind.Connect?) && Holds(FieldOf(enc, e, dup))
      modifies this`encoded, this`bufLen, buffer, out
      ensures Valid() && (result, written) == FieldStep(FieldOf(enc, e, dup), offset, room) && written <= room
      ensures out[..at + written] == old(out[..at]) + FieldOf(enc, e, dup).bytes[offset..offset + written]
              && !result.Aborted?
      ensures result.Continue? ==> encoded && buffer[..bufLen] == FieldOf(enc, e, dup).bytes
      ensures result.Finished? ==> !encoded
    {
      hide RemainingLength, FirstByte, Declared, ConnectVariableHeader, WellFormed;
      if !encoded {
        Build(enc, e, dup);
        encoded := true;
      }
      ghost var bytes := FieldOf(enc, e, dup).bytes;
      hide FieldOf;
      assert buffer[..bufLen] == bytes;
      written := Min(bufLen - offset, room);
      result := if bufLen - offset > room then Continue else Finished;
      CopyString(buffer[..bufLen], offset, written, out, at);
      assert buffer[..bufLen] == bytes;
      if result.Finished? {
        encoded, bufLen := false, 0;
      }
    }

    /** One encoder call. */
    method EncodeField(enc: Encoder, e: Entry, dup: bool, out: array<byte>, at: nat, room: nat)
      returns (result: EncodeResult, written: nat)
      requires Valid() && out != buffer && at + room <= out.Length && WellFormed(e)
      requires !encoded && (enc.HeaderEncoder? || enc.HeaderIdEncoder?) ==> Encodable(e)
      requires (enc.ConnectHeaderEncoder? ==> e.kind.Connect?) && Holds(FieldOf(enc, e, dup)) && Fits(enc)
      modifies this`encoded, this`bufLen, buffer, out
      ensures Valid() && (result, written) == FieldStep(FieldOf(enc, e, dup), offset, room) && written <= room
      ensures out[..at + written] == old(out[..at]) + Slice(FieldOf(enc, e, dup), offset, written)
      ensures result.Continue? ==> Model() == AfterContinue(old(Model()), FieldOf(enc, e, dup), 0)
      ensures result.Finished? ==> !encoded
      ensures result.Aborted? ==> Model() == old(Model()) && written == 0
    {
      hide FieldStep, FieldOf, WellFormed, Slice;
      FieldShapes(enc, e, dup);
      match enc {
        case StringEncoder(s, withLength, ifEmpty) =>
          result, written := StringEncode(s, withLength, ifEmpty, offset, out, at, room);
        case _ =>
          result, written := EncodeBuffered(enc, e, dup, out, at, room);
          BuiltSteps(FieldOf(enc, e, dup), offset, room);
      }
    }

    /** The entry is done: mark it or drop it, and make its callback. */
    method FinishCurrent(store: Store, app: App)
      requires Valid() && store.Valid() && UnsentWellFormed(store.Model()) && store.Model().HasCurrent()
      modifies this, store`count, store`pos, store.entries, app`log
      ensures Valid() && store.Valid() && World(store, app) == FinishEntry(app.env, old(World(store, app)))
    {
      var e := store.entries[store.pos];
      assert e == store.Model().Current();
      if IsPublish(e.kind) { encodes := encodes + multiset{e.value.ref}; }
      app.Note(Emitted(e.kind, e.value.packetId));
      if ExpectsResponse(e.kind) {
        var _ := store.MarkCurrent();
      } else {
        store.DropCurrent();
        if e.kind.Disconnect? {
          closed := true;
          return;
        } else if !e.value.body.NoBody? {
          var ok := app.Ask(Completed(e.kind, e.value, true));
          if !ok {
            error := Some(CallbackPublish);
            return;
          }
        }
      }
      Reset();
    }

    /** The next field of the current entry. */
    method FieldRound(store: Store, app: App, enc: Encoder, out: array<byte>, at: nat, room: nat)
      returns (round: Round, cnt: nat, ghost bytes: seq<byte>)
      requires Valid() && store.Valid() && TxValid(World(store, app)) && !closed && error.None?
               && store.pos < store.count
      requires Finder(store.Model().Current(), pos) == Some(enc) && !HeaderAborts(World(store, app))
      requires out != buffer && at + room <= out.Length
      modifies this, buffer, out
      ensures Valid() && cnt <= room && !round.EntryDone?
      ensures out[..at + cnt] == old(out[..at]) + bytes && |bytes| == cnt
      ensures round.Stop? ==>
        var r := EncodeLoop(app.env, old(World(store, app)), room);
        World(store, app) == r.world && bytes == r.bytes && round.io == EncodeIo(r) && !r.stop.Idle?
      ensures round.NextField? ==>
        && error.None? && TxValid(World(store, app))
        && Progress(app.env, World(store, app), EncodeLoop(app.env, old(World(store, app)), room), bytes, room)
        && !closed && pos == old(pos) + 1 && encodes == old(encodes)
    {
      hide Fields, FieldBytes, FieldStep, FinishEntry, WellFormed, Pending, Encodable, Slice, OffsetValid, EncodeLoop,
           Finder, FieldOf;
      ghost var w := World(store, app);
      var e := store.entries[store.pos];
      assert e == store.Model().Current();
      var dup := Dup(e, encodes);
      EncoderReady(w, e, enc, dup, room);
      LoopUnfolds(app.env, w, room);
      var result;
      result, cnt := EncodeField(enc, e, dup, out, at, room);
      ActiveFieldSlices(w, room);
      SliceLength(FieldOf(enc, e, dup), offset, cnt);
      bytes := Slice(FieldOf(enc, e, dup), offset, cnt);
      match result {
        case Continue =>
          offset := offset + cnt;
          round := Stop(IoSuccess);
        case Aborted =>
          error := Some(AssertionFailed);
          return Stop(IoError), 0, [];
        case Finished =>
          NextFieldPending(w);
          pos := pos + 1;
          offset := 0;
          round := NextField;
      }
    }

    /** One round of the inner loop: the next field, the end of the entry, or the end of the call. */
    method EncodeRound(store: Store, app: App, out: array<byte>, at: nat, room: nat)
      returns (round: Round, cnt: nat, ghost bytes: seq<byte>)
      requires Valid() && store.Valid() && TxValid(World(store, app)) && !closed && error.None?
               && store.pos < store.count
      requires out != buffer && at + room <= out.Length
      modifies this, buffer, store`count, store`pos, store.entries, app`log, out
      ensures Valid() && store.Valid() && cnt <= room
      ensures out[..at + cnt] == old(out[..at]) + bytes && |bytes| == cnt
      ensures round.Stop? ==>
        var r := EncodeLoop(app.env, old(World(store, app)), room);
        World(store, app) == r.world && bytes == r.bytes && round.io == EncodeIo(r) && !r.stop.Idle?
      ensures !round.Stop? ==>
        && error.None? && TxValid(World(store, app))
        && Progress(app.env, World(store, app), EncodeLoop(app.env, old(World(store, app)), room), bytes, room)
      ensures round.NextField? ==>
        && !closed && store.pos < store.count && store.count - store.pos == old(store.count - store.pos)
        && FieldsLeft(World(store, app)) < old(FieldsLeft(World(store, app)))
      ensures round.EntryDone? ==> store.count - store.pos < old(store.count - store.pos)
    {
      hide Fields, FieldBytes, FieldStep, FinishEntry, WellFormed, Pending, Encodable, Slice, OffsetValid, EncodeLoop,
           Finder, FieldOf, Progress;
      ghost var w := World(store, app);
      bytes := [];
      cnt := 0;
      var e := store.entries[store.pos];
      assert e == store.Model().Current();
      PositionBounded(w);
      FinderEnumeratesFields(e, pos, Dup(e, encodes));
      LoopUnfolds(app.env, w, room);
      if Finder(e, pos).None? {
        FinishEntryKeepsPending(app.env, w);
        FinishCurrent(store, app);
        if error.Some? { return Stop(IoError), 0, []; }
        ProgressStarts(app.env, World(store, app), room);
        return EntryDone, 0, [];
      }
      if pos == 0 && !encoded && !Encodable(e) {
        error := Some(AssertionFailed);
        return Stop(IoError), 0, [];
      }
      round, cnt, bytes := FieldRound(store, app, Finder(e, pos).value, out, at, room);
      if round.NextField? { PositionBounded(World(store, app)); }
    }

    /** The inner loop: fields of the current entry until it is done or the call ends. */
    method EncodeEntry(store: Store, app: App, out: array<byte>, at: nat, room: nat)
      returns (round: Round, cnt: nat, ghost bytes: seq<byte>)
      requires Valid() && store.Valid() && TxValid(World(store, app)) && !closed && error.None?
               && store.pos < store.count
      requires out != buffer && at + room <= out.Length
      modifies this, buffer, store`count, store`pos, store.entries, app`log, out
      ensures Valid() && store.Valid() && cnt <= room && !round.NextField?
      ensures out[..at + cnt] == old(out[..at]) + bytes && |bytes| == cnt
      ensures round.Stop? ==>
        var r := EncodeLoop(app.env, old(World(store, app)), room);
        World(store, app) == r.world && bytes == r.bytes && round.io == EncodeIo(r) && !r.stop.Idle?
      ensures round.EntryDone? ==>
        && error.None? && TxValid(World(store, app)) && store.count - store.pos < old(store.count - store.pos)
        && Progress(app.env, World(store, app), EncodeLoop(app.env, old(World(store, app)), room), bytes, room)
    {
      hide Fields, FieldBytes, FinishEntry, WellFormed, Pending, OffsetValid, EncodeLoop, CurrentFields, FieldsLeft,
           Progress, Stream, Encodable, FieldsBytes, UnsentWellFormed;
      ghost var front := out[..at];
      cnt := 0;
      bytes := [];
      ghost var whole := EncodeLoop(app.env, World(store, app), room);
      ProgressStarts(app.env, World(store, app), room);
      ghost var unsent := store.count - store.pos;
      round := NextField;
      while round.NextField?
        invariant cnt <= room && Valid() && store.Valid() && !round.Stop? && TxValid(World(store, app)) && error.None?
        invariant out[..at + cnt] == front + bytes && |bytes| == cnt
        invariant Progress(app.env, World(store, app), whole, bytes, room)
        invariant round.NextField? ==> !closed && store.pos < store.count && store.count - store.pos == unsent
        invariant round.EntryDone? ==> store.count - store.pos < unsent
        decreases round.NextField?, if round.NextField? then FieldsLeft(World(store, app)) else 0
      {
        ghost var w := World(store, app);
        var n;
        ghost var more;
        round, n, more := EncodeRound(store, app, out, at + cnt, room - cnt);
        if round.Stop? {
          ProgressEnds(app.env, w, whole, bytes, room);
        } else {
          ProgressAddsUp(app.env, w, World(store, app), whole, bytes, more, room);
        }
        assert front + bytes + more == front + (bytes + more);
        bytes := bytes + more;
        cnt := cnt + n;
        if round.Stop? { return; }
      }
    }

    /** `lmqtt_tx_buffer_encode`: fills `out[at..at + room]` with what is pending. */
    method Encode(store: Store, app: App, out: array<byte>, at: nat, room: nat) returns (io: IoResult, written: nat)
      requires Valid() && store.Valid() && TxValid(World(store, app))
      requires out != buffer && at + room <= out.Length
      modifies this, buffer, store`count, store`pos, store.entries, app`log, out
      ensures Valid() && store.Valid() && written <= room
      ensures var r := Transmit.Encode(app.env, old(World(store, app)), room);
              World(store, app) == r.world && io == EncodeIo(r)
              && out[..at + written] == old(out[..at]) + r.bytes && written == |r.bytes|
    {
      hide Fields, FieldBytes, FinishEntry, WellFormed, Pending, OffsetValid, EncodeLoop, CurrentFields,
           Transmit.Encode, Progress;
      written := 0;
      CallStarts(app.env, World(store, app), room);
      if error.Some? { return IoError, 0; }
      ghost var whole := EncodeLoop(app.env, World(store, app), room);
      ghost var sent: seq<byte> := [];
      ghost var front := out[..at];
      ProgressStarts(app.env, World(store, app), room);
      while !closed && store.pos < store.count
        invariant written <= room && Valid() && store.Valid() && TxValid(World(store, app)) && error.None?
        invariant out[..at + written] == front + sent && |sent| == written
        invariant Progress(app.env, World(store, app), whole, sent, room)
        decreases store.count - store.pos
      {
        ghost var w := World(store, app);
        var round, cnt;
        ghost var more;
        round, cnt, more := EncodeEntry(store, app, out, at + written, room - written);
        assert front + sent + more == front + (sent + more);
        if round.Stop? {
          ProgressEnds(app.env, w, whole, sent, room);
          return round.io, written + cnt;
        }
        ProgressAddsUp(app.env, w, World(store, app), whole, sent, more, room);
        written := written + cnt;
        sent := sent + more;
      }
      ClosedLoop(app.env, World(store, app), room - written);
      ProgressEnds(app.env, World(store, app), whole, sent, room);
      io := if written > 0 || closed then IoSuccess else IoWouldBlock;
    }
  }

  function FieldsLeft(w: TxWorld): nat
    requires UnsentWellFormed(w.store) && w.store.HasCurrent()
  {
    if w.tx.pos < |CurrentFields(w)| then |CurrentFields(w)| - w.tx.pos else 0
  }

  datatype Round = NextField | EntryDone | Stop(io: IoResult)

  predicate Fits(enc: Encoder)
  {
    enc.StringEncoder? ==> (enc.withLength ==> |enc.str| <= 0xffff) && (enc.ifEmpty ==> enc.withLength)
  }

  /** The loop has written `bytes`, and what it still does makes up the whole call. */
  ghost predicate Progress(env: Env, w: TxWorld, whole: EncodeOut, bytes: seq<byte>, room: nat)
  {
    && TxValid(w) && w.tx.error.None? && |bytes| <= room
    && whole == Prepend(bytes, EncodeLoop(env, w, room - |bytes|))
  }

  lemma CallStarts(env: Env, w: TxWorld, room: nat)
    requires UnsentWellFormed(w.store)
    ensures Transmit.Encode(env, w, room) == if w.tx.error.Some? then EncodeOut(w, [], Failed)
            else EncodeLoop(env, w, room)
  {
  }

  lemma ProgressStarts(env: Env, w: TxWorld, room: nat)
    requires TxValid(w) && w.tx.error.None?
    ensures Progress(env, w, EncodeLoop(env, w, room), [], room)
  {
    hide OffsetValid, EncodeLoop, Fields;
  }

  lemma ProgressEnds(env: Env, w: TxWorld, whole: EncodeOut, bytes: seq<byte>, room: nat)
    requires Progress(env, w, whole, bytes, room)
    ensures |bytes| <= room && UnsentWellFormed(w.store) && whole == Prepend(bytes, EncodeLoop(env, w, room - |bytes|))
  {
    hide OffsetValid, EncodeLoop, Fields;
  }

  lemma ProgressAddsUp(env: Env, w: TxWorld, next: TxWorld, whole: EncodeOut, a: seq<byte>, b: seq<byte>, room: nat)
    requires Progress(env, w, whole, a, room)
    requires Progress(env, next, EncodeLoop(env, w, room - |a|), b, room - |a|)
    ensures Progress(env, next, whole, a + b, room)
  {
    hide OffsetValid, EncodeLoop, Fields;
    var rest := EncodeLoop(env, next, room - |a| - |b|);
    assert a + (b + rest.bytes) == a + b + rest.bytes;
  }

  lemma SliceLength(f: Field, offset: nat, cnt: nat)
    requires cnt == 0 || offset + cnt <= |FieldBytes(f)|
    ensures |Slice(f, offset, cnt)| == cnt
  {
  }

  lemma FieldShapes(enc: Encoder, e: Entry, dup: bool)
    requires WellFormed(e) && (enc.ConnectHeaderEncoder? ==> e.kind.Connect?)
    ensures if enc.StringEncoder? then FieldOf(enc, e, dup) == Str(enc.str, enc.withLength, enc.ifEmpty)
            else FieldOf(enc, e, dup).Built?
  {
  }

  lemma BuiltSteps(f: Field, offset: nat, room: nat)
    requires f.Built? && offset < |f.bytes|
    ensures var (result, written) := FieldStep(f, offset, room);
            Slice(f, offset, written) == f.bytes[offset..offset + written] && offset + written <= |f.bytes|
  {
  }

  /** In front of an encoder call the buffer is ready for its field. */
  lemma EncoderReady(w: TxWorld, e: Entry, enc: Encoder, dup: bool, room: nat)
    requires TxValid(w) && !w.tx.closed && w.tx.error.None? && w.store.HasCurrent() && e == w.store.Current()
    requires dup == Dup(e, w.encodes) && Finder(e, w.tx.pos) == Some(enc)
    ensures w.tx.pos < |CurrentFields(w)| && Fits(enc) && (enc.ConnectHeaderEncoder? ==> e.kind.Connect?)
    ensures var f := FieldOf(enc, e, dup);
            && ActiveField(w) == f
            && (f.Built? ==> w.tx.offset < |f.bytes| && (w.tx.built.Some? ==> w.tx.built.value == f.bytes))
            && (f.Str? ==> w.tx.built.None?)
    ensures enc.HeaderEncoder? || enc.HeaderIdEncoder? ==> w.tx.pos == 0
  {
    hide Fields, FieldOf, WellFormed;
    FinderEnumeratesFields(e, w.tx.pos, dup);
    StringFits(e, w.tx.pos, dup);
  }

  function Prepend(bytes: seq<byte>, out: EncodeOut): EncodeOut { out.(bytes := bytes + out.bytes) }

  lemma Nothing(out: EncodeOut)
    ensures out == Prepend([], out)
  {
  }

  lemma PositionBounded(w: TxWorld)
    requires TxValid(w) && !w.tx.closed && w.tx.error.None? && w.store.HasCurrent()
    ensures w.tx.pos <= |CurrentFields(w)|
  {
    hide Fields, WellFormed;
  }

  lemma ClosedLoop(env: Env, w: TxWorld, room: nat)
    requires UnsentWellFormed(w.store) && (w.tx.closed || !w.store.HasCurrent())
    ensures EncodeLoop(env, w, room) == EncodeOut(w, [], Idle)
  {
  }

  /** One round of the encoder's loop. */
  lemma LoopUnfolds(env: Env, w: TxWorld, room: nat)
    requires TxValid(w) && !w.tx.closed && w.tx.error.None? && w.store.HasCurrent()
    ensures var r := EncodeLoop(env, w, room);
            if w.tx.pos >= |CurrentFields(w)| then
              var next := FinishEntry(env, w);
              r == if next.tx.error.Some? then EncodeOut(next, [], Failed) else EncodeLoop(env, next, room)
            else if HeaderAborts(w) then r == EncodeOut(w.(tx := w.tx.(error := Some(AssertionFailed))), [], Failed)
            else
              var f := ActiveField(w);
              var (result, count) := FieldStep(f, w.tx.offset, room);
              match result
              case Aborted => r == EncodeOut(w.(tx := w.tx.(error := Some(AssertionFailed))), [], Failed)
              case Continue =>
                r == EncodeOut(w.(tx := AfterContinue(w.tx, f, count)), Slice(f, w.tx.offset, count), Full)
              case Finished =>
                count <= room &&
                r == Prepend(Slice(f, w.tx.offset, count),
                             EncodeLoop(env, w.(tx := w.tx.(pos := w.tx.pos + 1, offset := 0, built := None)),
                               room - count))
  {
    hide Fields, FieldBytes, FieldStep, FinishEntry, WellFormed, Pending, Encodable, Slice, OffsetValid;
    if w.tx.pos < |CurrentFields(w)| { ActiveFieldSlices(w, room); }
  }

  lemma StringFits(e: Entry, p: nat, dup: bool)
    requires WellFormed(e) && Finder(e, p).Some?
    ensures Fits(Finder(e, p).value)
  {
  }
}
