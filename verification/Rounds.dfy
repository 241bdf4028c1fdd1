/** The decode loop as the code runs it, several bytes a round, and what it has to do with single bytes. */
module Rounds {
  import opened Types
  import opened FixedHeader
  import opened Receive

  // ----- many bytes at once -----

  /** The decoder on a run of bytes, up to the first error or callback. */
  function RxMany(env: Env, l: Link, bytes: seq<byte>): (out: RxOut)
    requires l.store.Valid()
    ensures out.link.store.Valid()
    decreases |bytes|
  {
    if bytes == [] then RxOut(l, false)
    else
      var out := RxStep(env, l, bytes[0]);
      if out.call || out.link.rx.error.Some? || bytes[1..] == [] then out else RxMany(env, out.link, bytes[1..])
  }

  lemma {:induction false} RxManyAppend(env: Env, l: Link, bytes: seq<byte>, b: byte)
    requires l.store.Valid() && l.rx.error.None?
    ensures var first := RxMany(env, l, bytes);
            RxMany(env, l, bytes + [b])
            == if first.call || first.link.rx.error.Some? then first else RxStep(env, first.link, b)
    decreases |bytes|
  {
    hide RxStep;
    if bytes == [] {
      assert bytes + [b] == [b] && [b][1..] == [];
    } else {
      assert (bytes + [b])[1..] == bytes[1..] + [b];
      var out := RxStep(env, l, bytes[0]);
      if !out.call && out.link.rx.error.None? { RxManyAppend(env, out.link, bytes[1..], b); }
    }
  }

  /** The rest of the topic or the payload that `data` is part of. */
  predicate InPart(l: Link, data: seq<byte>)
  {
    && l.rx.error.None? && l.rx.headerFinished && l.rx.decoder.DPublish? && l.rx.remainPos >= 2 && l.rx.topicLen > 0
       && data != []
    && var start := 2 + l.rx.topicLen;
       if l.rx.remainPos < start then l.rx.remainPos + |data| <= start
         && start + PublishIdLength(l) <= l.rx.header.remainingLength
       else start + PublishIdLength(l) <= l.rx.remainPos && l.rx.remainPos + |data| <= l.rx.header.remainingLength
  }

  /** The first byte of a part asks for its destination. */
  function StartPart(env: Env, l: Link): (Link, bool)
  {
    var start := 2 + l.rx.topicLen + PublishIdLength(l);
    if l.rx.remainPos == 2 then
      var started :=
        if !env.onPublish || !env.onAllocateTopic || !env.onAllocatePayload
        then l.(rx := l.rx.(ignorePublish := true)) else l;
      if env.onAllocateTopic then Allocate(env, started, AllocateTopic(l.rx.topicLen), TopicAllocateFailed)
        else (started, true)
    else if l.rx.remainPos == start && env.onAllocatePayload then
      Allocate(env, l, AllocatePayload(l.rx.topic, Length(l.rx.header.remainingLength, start)), PayloadAllocateFailed)
    else (l, true)
  }

  /** Writes a chunk of the current part. */
  function WritePart(l: Link, data: seq<byte>): Link
  {
    if l.rx.ignorePublish then l
    else if l.rx.remainPos < 2 + l.rx.topicLen then l.(rx := l.rx.(topic := l.rx.topic + data))
    else l.(rx := l.rx.(payload := l.rx.payload + data))
  }

  /** A chunk that reaches the end of the packet also acknowledges and delivers. */
  function PartChunk(env: Env, l: Link, data: seq<byte>): (Link, bool)
  {
    var (started, ok) := StartPart(env, l);
    if !ok then (started, false)
    else
      var written := WritePart(started, data);
      if l.rx.remainPos + |data| < l.rx.header.remainingLength then (written, true)
      else DeliverPublish(env, AcknowledgePublish(written))
  }

  function Advance(l: Link, ok: bool, count: nat): RxOut
  {
    if !ok then RxOut(l, false) else FinishIfComplete(l.(rx := l.rx.(remainPos := l.rx.remainPos + count)))
  }

  lemma StartPartKeeps(env: Env, l: Link)
    ensures KeepsFrame(l, StartPart(env, l).0, StartPart(env, l).1)
    ensures var m := StartPart(env, l).0; m.rx.topicLen == l.rx.topicLen && m.rx.packetId == l.rx.packetId
    ensures var m := StartPart(env, l).0; m.rx.topic == l.rx.topic && m.rx.payload == l.rx.payload
  {
    hide Allocate, KeepsFrame;
    var started :=
      if !env.onPublish || !env.onAllocateTopic || !env.onAllocatePayload
      then l.(rx := l.rx.(ignorePublish := true)) else l;
    var start := 2 + l.rx.topicLen + PublishIdLength(l);
    KeepsSelf(l, started);
    if l.rx.remainPos == 2 {
      AllocateKeepsParts(env, started, AllocateTopic(l.rx.topicLen), TopicAllocateFailed);
      KeepsOver(l, started, Allocate(env, started, AllocateTopic(l.rx.topicLen), TopicAllocateFailed));
    } else if l.rx.remainPos == start {
      AllocateKeepsParts(env, l, AllocatePayload(l.rx.topic, Length(l.rx.header.remainingLength, start)),
        PayloadAllocateFailed);
    }
  }

  lemma AllocateKeepsParts(env: Env, l: Link, request: Event, error: Error)
    ensures var m := Allocate(env, l, request, error).0;
            && m.rx.topicLen == l.rx.topicLen && m.rx.packetId == l.rx.packetId
            && m.rx.topic == l.rx.topic && m.rx.payload == l.rx.payload
  {
  }

  /** Ignoring a message does not count. */
  lemma KeepsSelf(l: Link, started: Link)
    requires started == l || started == l.(rx := l.rx.(ignorePublish := true))
    ensures KeepsFrame(l, l, true) && KeepsFrame(l, started, true)
  {
  }

  lemma KeepsOver(l: Link, started: Link, out: (Link, bool))
    requires started == l || started == l.(rx := l.rx.(ignorePublish := true))
    ensures KeepsFrame(started, out.0, out.1) ==> KeepsFrame(l, out.0, out.1)
  {
  }

  /** One byte of a part is the chunk of that byte. */
  lemma PartByte(env: Env, l: Link, b: byte)
    requires InPart(l, [b]) && l.store.Valid()
    ensures var (m, ok) := PartChunk(env, l, [b]); RxStep(env, l, b) == Advance(m, ok, 1)
  {
    hide DeliverPublish, AcknowledgePublish, FinishIfComplete, PublishTopicByte, PublishPayloadByte, Allocate;
    StartPartKeeps(env, l);
    if l.rx.remainPos < 2 + l.rx.topicLen { TopicPart(env, l, b); } else { PayloadPart(env, l, b); }
    hide StartPart, WritePart;
  }

  lemma TopicPart(env: Env, l: Link, b: byte)
    requires l.rx.remainPos >= 2 && l.rx.remainPos < 2 + l.rx.topicLen
    ensures var (m, ok) := StartPart(env, l); PublishTopicByte(env, l, b) == (if ok then WritePart(m, [b]) else m, ok)
  {
    hide KeepsFrame;
  }

  lemma PayloadPart(env: Env, l: Link, b: byte)
    requires l.rx.remainPos >= 2 + l.rx.topicLen + PublishIdLength(l) && l.rx.remainPos > 2
    ensures var (m, ok) := StartPart(env, l); PublishPayloadByte(env, l, b) == (if ok then WritePart(m, [b]) else m, ok)
  {
    hide KeepsFrame;
  }

  /** Writing a part in one chunk is the same as byte by byte. */
  lemma {:induction false} ChunkIsBytewise(env: Env, l: Link, data: seq<byte>)
    requires InPart(l, data) && l.store.Valid()
    ensures var (m, ok) := PartChunk(env, l, data);
            && RxMany(env, l, data) == Advance(m, ok, |data|)
            && (ok <==> m.rx.error.None?) && (ok ==> m.rx.remainPos == l.rx.remainPos && m.rx.decoder.DPublish?)
    decreases |data|
  {
    hide DeliverPublish, RxStep, StartPart, FinishIfComplete;
    StartPartKeeps(env, l);
    var n := |data| - 1;
    var b := data[n];
    assert data == data[..n] + [b];
    if n == 0 {
      PartByte(env, l, b);
      assert data == [b] && data[1..] == [];
    } else {
      ChunkIsBytewise(env, l, data[..n]);
      RxManyAppend(env, l, data[..n], b);
      var (m, ok) := PartChunk(env, l, data[..n]);
      if ok {
        var next := m.(rx := m.rx.(remainPos := m.rx.remainPos + n));
        NotComplete(next);
        PartByte(env, next, b);
        LaterPart(env, l, next, data, n);
      }
    }
  }

  lemma NotComplete(l: Link)
    requires l.rx.remainPos < l.rx.header.remainingLength
    ensures FinishIfComplete(l) == RxOut(l, false)
  {
  }

  /** Continuing a part only appends. */
  lemma LaterPart(env: Env, l: Link, next: Link, data: seq<byte>, n: nat)
    requires InPart(l, data) && n + 1 == |data| && n > 0
    requires var (m, ok) := PartChunk(env, l, data[..n]); ok && next == m.(rx := m.rx.(remainPos := m.rx.remainPos + n))
    ensures var (a, okA) := PartChunk(env, l, data); var (b, okB) := PartChunk(env, next, [data[n]]);
            okA == okB && (okA ==> Advance(a, true, |data|) == Advance(b, true, 1)) && (!okA ==> a == b)
  {
    StartPartKeeps(env, l);
    var started := StartPart(env, l).0;
    assert data == data[..n] + [data[n]];
    assert StartPart(env, next) == (next, true);
    var w, v := WritePart(started, data), WritePart(next, [data[n]]);
    assert started.rx.topic + data == started.rx.topic + data[..n] + [data[n]];
    assert started.rx.payload + data == started.rx.payload + data[..n] + [data[n]];
    assert v == w.(rx := w.rx.(remainPos := w.rx.remainPos + n));
    DeliveryIgnoresPosition(env, w, n);
  }

  function Ahead(l: Link, n: nat): Link { l.(rx := l.rx.(remainPos := l.rx.remainPos + n)) }

  lemma DeliveryIgnoresPosition(env: Env, l: Link, n: nat)
    requires l.rx.error.None?
    ensures var (a, okA) := DeliverPublish(env, AcknowledgePublish(l));
            var (b, okB) := DeliverPublish(env, AcknowledgePublish(Ahead(l, n)));
            okA == okB && b == if okA then Ahead(a, n) else a
  {
    hide AcknowledgePublish, DeliverPublish, Ahead;
    AcknowledgeIgnoresPosition(l, n);
    MessageIgnoresPosition(env, AcknowledgePublish(l), n);
  }

  lemma AcknowledgeIgnoresPosition(l: Link, n: nat)
    ensures AcknowledgePublish(Ahead(l, n)) == Ahead(AcknowledgePublish(l), n)
    ensures AcknowledgePublish(l).rx == l.rx
  {
  }

  lemma MessageIgnoresPosition(env: Env, l: Link, n: nat)
    requires l.rx.error.None?
    ensures var (a, okA) := DeliverPublish(env, l);
            var (b, okB) := DeliverPublish(env, Ahead(l, n));
            okA == okB && b == if okA then Ahead(a, n) else a
  {
  }

  /** Inside a PUBLISH, the topic and the packet id fit into the packet. */
  predicate Sized(rx: Rx)
  {
    && (!rx.headerFinished ==> rx.remainPos == 0)
    && (rx.error.None? && rx.headerFinished && rx.decoder.DPublish? ==>
          && rx.remainPos < rx.header.remainingLength
          && (rx.remainPos >= 2 ==>
                rx.topicLen > 0 && 2 + rx.topicLen + (if rx.header.qos == 0 then 0 else 2)
                <= rx.header.remainingLength))
  }

  /** `bytes` pass without an error or a callback, except perhaps at the last one. */
  ghost predicate Passes(env: Env, l: Link, bytes: seq<byte>, out: RxOut)
    requires l.store.Valid()
  {
    && bytes != [] && RxMany(env, l, bytes) == out
    && var before := RxMany(env, l, bytes[..|bytes| - 1]); !before.call && before.link.rx.error.None?
  }

  lemma ByteSteps(env: Env, l: Link, b: byte)
    requires l.store.Valid() && l.rx.error.None? && l.rx.headerFinished
    ensures var (m, ok) := BodyByte(env, l, b); Passes(env, l, [b], Advance(m, ok, 1))
  {
    hide BodyByte, FinishIfComplete;
    assert [b][..0] == [] && [b][1..] == [];
  }

  lemma ByteKeepsSize(env: Env, l: Link, b: byte)
    requires l.rx.error.None? && l.rx.headerFinished && Sized(l.rx) && l.store.Valid()
    ensures var (m, ok) := BodyByte(env, l, b);
            var out := Advance(m, ok, 1);
            (ok <==> m.rx.error.None?) && (Sized(out.link.rx) || out.call) && (out.call ==> out.link.rx.error.None?)
  {
    hide KeepsFrame, PublishByte, Quiet, PacketEvents, NoPubrec;
    if l.rx.decoder.DPublish? { PublishKeepsSize(env, l, b); }
  }

  lemma PublishKeepsSize(env: Env, l: Link, b: byte)
    requires l.rx.error.None? && l.rx.headerFinished && Sized(l.rx) && l.store.Valid() && l.rx.decoder.DPublish?
    ensures var (m, ok) := PublishByte(env, l, b);
            && (ok <==> m.rx.error.None?)
            && m.rx.headerFinished && m.rx.decoder.DPublish? && m.rx.header == l.rx.header
            && (ok ==> m.rx.remainPos == l.rx.remainPos)
            && (ok && l.rx.remainPos >= 1 && l.rx.remainPos + 1 < l.rx.header.remainingLength ==>
                  m.rx.topicLen > 0 && 2 + m.rx.topicLen + PublishIdLength(m) <= m.rx.header.remainingLength)
  {
    hide DeliverPublish, PublishTopicByte, PublishPayloadByte, PublishLengthByte, KeepsFrame;
    PartsKeepTopicLength(env, l, b);
    if l.rx.remainPos == 1 { LengthKeepsSize(l, b); }
    FramesKept(l, PublishLengthByte(l, b).0, PublishLengthByte(l, b).1);
    FramesKept(l, PublishTopicByte(env, l, b).0, PublishTopicByte(env, l, b).1);
    FramesKept(l, PublishPayloadByte(env, l, b).0, PublishPayloadByte(env, l, b).1);
    forall k: Link {:trigger DeliverPublish(env, k)} | k.rx.error.None?
      ensures DeliverPublish(env, k).1 <==> DeliverPublish(env, k).0.rx.error.None?
      ensures DeliverPublish(env, k).0.rx.headerFinished == k.rx.headerFinished
              && DeliverPublish(env, k).0.rx.decoder == k.rx.decoder
      ensures DeliverPublish(env, k).0.rx.header == k.rx.header
      ensures DeliverPublish(env, k).1 ==> DeliverPublish(env, k).0.rx.remainPos == k.rx.remainPos
    {
      var (m, ok) := DeliverPublish(env, k);
      FramesKept(k, m.(ids := k.ids, log := k.log), ok);
    }
  }

  lemma FramesKept(l: Link, m: Link, ok: bool)
    requires KeepsFrame(l, m, ok) && l.rx.error.None?
    ensures (ok <==> m.rx.error.None?) && m.rx.headerFinished == l.rx.headerFinished && m.rx.decoder == l.rx.decoder
    ensures m.rx.header == l.rx.header && (ok ==> m.rx.remainPos == l.rx.remainPos)
  {
    hide Quiet, PacketEvents, NoPubrec;
  }

  lemma LengthKeepsSize(l: Link, b: byte)
    requires l.rx.remainPos == 1
    ensures var (m, ok) := PublishLengthByte(l, b);
            ok ==> m.rx.topicLen > 0 && 2 + m.rx.topicLen + PublishIdLength(m) <= m.rx.header.remainingLength
  {
    hide KeepsFrame;
  }

  lemma PartsKeepTopicLength(env: Env, l: Link, b: byte)
    ensures PublishTopicByte(env, l, b).0.rx.topicLen == l.rx.topicLen
    ensures PublishPayloadByte(env, l, b).0.rx.topicLen == l.rx.topicLen
  {
    hide KeepsFrame, Quiet, PacketEvents, NoPubrec;
  }

  lemma HeaderKeepsSize(env: Env, l: Link, b: byte)
    requires l.rx.error.None? && !l.rx.headerFinished && Sized(l.rx) && l.store.Valid()
    ensures var out := HeaderByte(l, b);
            PassesAs(env, l, [b], out)
  {
    hide HeaderStep, HasId, BodyByte;
    assert [b][..0] == [] && [b][1..] == [];
  }

  /** What one round of the decoder's loop does with the bytes it takes. */
  ghost predicate PassesAs(env: Env, l: Link, bytes: seq<byte>, out: RxOut)
    requires l.store.Valid()
  {
    Passes(env, l, bytes, out) && (Sized(out.link.rx) || out.call) && (out.call ==> out.link.rx.error.None?)
  }

  lemma BodyPasses(env: Env, l: Link, b: byte)
    requires l.rx.error.None? && l.rx.headerFinished && Sized(l.rx) && l.store.Valid()
    ensures var (m, ok) := BodyByte(env, l, b); PassesAs(env, l, [b], Advance(m, ok, 1))
  {
    hide Passes, BodyByte, Sized;
    ByteSteps(env, l, b);
    ByteKeepsSize(env, l, b);
  }

  /** A chunk passes as its bytes do: a refused destination is the first byte's error. */
  lemma ChunkPasses(env: Env, l: Link, data: seq<byte>) returns (used: nat)
    requires InPart(l, data) && Sized(l.rx) && l.store.Valid()
    ensures 0 < used <= |data| && (PartChunk(env, l, data).1 ==> used == |data|)
    ensures var (m, ok) := PartChunk(env, l, data);
            var out := Advance(m, ok, |data|);
            PassesAs(env, l, data[..used], out) && (ok <==> m.rx.error.None?)
            && (!ok ==> Advance(m, ok, used) == out)
  {
    hide RxStep, DeliverPublish, AcknowledgePublish, StartPart, Quiet, PacketEvents, NoPubrec;
    StartPartKeeps(env, l);
    used := if StartPart(env, l).1 then |data| else 1;
    ChunkIsBytewise(env, l, data[..used]);
    assert data[..|data|] == data;
    assert data[..used][..used - 1] == data[..used - 1];
    if used > 1 {
      ChunkIsBytewise(env, l, data[..used - 1]);
    }
    ChunkKeepsSize(env, l, data);
  }

  lemma ChunkKeepsSize(env: Env, l: Link, data: seq<byte>)
    requires InPart(l, data) && Sized(l.rx)
    ensures var (m, ok) := PartChunk(env, l, data); var out := Advance(m, ok, |data|); Sized(out.link.rx) || out.call
  {
    hide DeliverPublish, StartPart, Quiet, PacketEvents, NoPubrec;
    StartPartKeeps(env, l);
  }

  lemma PublishIsBody(env: Env, l: Link, b: byte)
    requires l.store.Valid() && l.rx.decoder.DPublish?
    ensures BodyByte(env, l, b) == PublishByte(env, l, b)
  {
    hide PublishByte;
  }

  // ----- rounds -----

  /** The next byte belongs to the topic or the payload of a PUBLISH. */
  predicate AtPart(l: Link)
  {
    && l.rx.headerFinished && l.rx.decoder.DPublish? && l.rx.remainPos >= 2
    && !(2 + l.rx.topicLen <= l.rx.remainPos < 2 + l.rx.topicLen + PublishIdLength(l))
  }

  /** The bytes at hand that belong to this part. */
  function PartLength(l: Link, available: nat): nat
  {
    var end := if l.rx.remainPos < 2 + l.rx.topicLen then 2 + l.rx.topicLen else l.rx.header.remainingLength;
    Min(Length(end, l.rx.remainPos), available)
  }

  lemma PartAtHand(l: Link, bytes: seq<byte>)
    requires AtPart(l) && Sized(l.rx) && l.rx.error.None? && bytes != []
    ensures 0 < PartLength(l, |bytes|) <= |bytes| && InPart(l, bytes[..PartLength(l, |bytes|)])
  {
  }

  /** One round: a byte of the fixed header, a byte of a body, or as much of a topic or payload as is at
      hand. The number is how many bytes it takes. */
  function Round(env: Env, l: Link, bytes: seq<byte>): (r: (RxOut, nat))
    requires bytes != [] && l.store.Valid() && l.rx.error.None? && Sized(l.rx)
    ensures r.0.link.store.Valid() && 0 < r.1 <= |bytes|
  {
    if !l.rx.headerFinished then (HeaderByte(l, bytes[0]), 1)
    else if AtPart(l) then
      PartAtHand(l, bytes);
      var n := PartLength(l, |bytes|);
      var (m, ok) := PartChunk(env, l, bytes[..n]);
      PartKeepsStore(env, l, bytes[..n]);
      (Advance(m, ok, n), n)
    else
      var (m, ok) := BodyByte(env, l, bytes[0]);
      (Advance(m, ok, 1), 1)
  }

  lemma PartKeepsStore(env: Env, l: Link, data: seq<byte>)
    requires l.store.Valid()
    ensures PartChunk(env, l, data).0.store.Valid()
  {
    hide StartPart, DeliverPublish, Quiet, PacketEvents, NoPubrec;
    StartPartKeeps(env, l);
  }

  /** A round passes as its bytes do, one by one; `used` are the bytes up to its error, if it has one. */
  lemma RoundPasses(env: Env, l: Link, bytes: seq<byte>) returns (used: nat)
    requires bytes != [] && l.store.Valid() && l.rx.error.None? && Sized(l.rx)
    ensures var (out, n) := Round(env, l, bytes);
            && 0 < used <= n && PassesAs(env, l, bytes[..used], out) && (out.link.rx.error.None? ==> used == n)
  {
    hide HeaderByte, BodyByte, PartChunk, PassesAs, Sized, AtPart, InPart, FinishIfComplete;
    assert bytes[..1] == [bytes[0]];
    used := 1;
    if !l.rx.headerFinished {
      HeaderKeepsSize(env, l, bytes[0]);
    } else if AtPart(l) {
      PartAtHand(l, bytes);
      var n := PartLength(l, |bytes|);
      used := ChunkPasses(env, l, bytes[..n]);
      assert bytes[..n][..used] == bytes[..used];
    } else {
      BodyPasses(env, l, bytes[0]);
    }
  }
}
