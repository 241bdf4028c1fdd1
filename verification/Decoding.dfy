/** Feeding whole streams to the decoder: calls run in rounds of several bytes, splits do not matter and
    frames do not drift. */
module Decoding {
  import opened Types
  import opened FixedHeader
  import opened Wire
  import opened Receive
  import opened ReceiveInvariant
  import opened Rounds
  import opened Session
  import opened SessionInvariant

  lemma ByteStaysDecodable(env: Env, c: Client, b: byte)
    requires CanDecode(c)
    ensures c.main.Valid() && c.conn.Valid()
    ensures DecodeByte(env, c, b).rx.error.None? ==> CanDecode(DecodeByte(env, c, b))
  {
    hide WellFormed, RxInv, DecodeByte, Inv;
    DecodingFacts(c);
    if c.closed { DecodeWhileClosed(env, c, b); } else { DecodeByteInv(env, c, b); }
    OpenIsDecodable(DecodeByte(env, c, b));
  }

  lemma OpenIsDecodable(c: Client)
    ensures Inv(c) && c.rx.error.None? && (IsOpen(c) || IsInitial(c)) ==> CanDecode(c)
  {
    hide Inv;
  }

  /** The reference: one byte at a time, up to the first error. */
  function DecodeBytes(env: Env, c: Client, bytes: seq<byte>): (r: Client)
    requires CanDecode(c)
    ensures r.rx.error.None? ==> CanDecode(r)
    decreases |bytes|
  {
    if bytes == [] then c
    else
      ByteStaysDecodable(env, c, bytes[0]);
      var next := DecodeByte(env, c, bytes[0]);
      if next.rx.error.Some? then next else DecodeBytes(env, next, bytes[1..])
  }

  lemma {:induction false} DecodeTwice(env: Env, c: Client, a: seq<byte>, b: seq<byte>)
    requires CanDecode(c)
    ensures var first := DecodeBytes(env, c, a);
            DecodeBytes(env, c, a + b) == if first.rx.error.Some? then first else DecodeBytes(env, first, b)
    decreases |a|
  {
    hide Inv, DecodeByte;
    if a == [] {
      assert a + b == b;
    } else {
      ByteStaysDecodable(env, c, a[0]);
      assert (a + b)[1..] == a[1..] + b;
      var next := DecodeByte(env, c, a[0]);
      if next.rx.error.None? { DecodeTwice(env, next, a[1..], b); }
    }
  }

  // ----- calls of the decoder -----

  /** The client after a round, with the callback it leads to. */
  function AfterRound(env: Env, c: Client, out: RxOut): Client
    requires c.main.Valid() && c.conn.Valid() && out.link.store.Valid()
  {
    var next := WithLink(c, out.link);
    if out.call then FinishPacket(env, next) else next
  }

  /** One call of `lmqtt_rx_buffer_decode` on a buffer: rounds, up to the first error. Where a topic or a
      payload is cut depends on the buffer. */
  function DecodeCall(env: Env, c: Client, bytes: seq<byte>): (r: Client)
    requires CanDecode(c) && Sized(c.rx)
    ensures r.rx.error.None? ==> CanDecode(r) && Sized(r.rx)
    decreases |bytes|
  {
    if bytes == [] then c
    else
      DecodingFacts(c);
      RoundIsBytes(env, c, bytes);
      var (out, n) := Round(env, LinkOf(c), bytes);
      var next := AfterRound(env, c, out);
      if next.rx.error.Some? then next else DecodeCall(env, next, bytes[n..])
  }

  /** Bytes that lead to no callback and no error only change the link. */
  lemma {:induction false} SilentBytes(env: Env, c: Client, bytes: seq<byte>)
    requires CanDecode(c) && LinkOf(c).store.Valid()
    requires var out := RxMany(env, LinkOf(c), bytes); !out.call && out.link.rx.error.None?
    ensures DecodeBytes(env, c, bytes) == WithLink(c, RxMany(env, LinkOf(c), bytes).link)
    decreases |bytes|
  {
    hide Inv, RxStep;
    if bytes == [] {
    } else {
      var n := |bytes| - 1;
      assert bytes == bytes[..n] + [bytes[n]];
      DecodingFacts(c);
      RxManyAppend(env, LinkOf(c), bytes[..n], bytes[n]);
      SilentBytes(env, c, bytes[..n]);
      DecodeTwice(env, c, bytes[..n], [bytes[n]]);
      var l := RxMany(env, LinkOf(c), bytes[..n]).link;
      LastByteOf(env, c, l, bytes[n]);
      OneByte(env, WithLink(c, l), bytes[n]);
    }
  }

  lemma OneByte(env: Env, c: Client, b: byte)
    requires CanDecode(c)
    ensures c.main.Valid() && c.conn.Valid() && DecodeBytes(env, c, [b]) == DecodeByte(env, c, b)
  {
    hide Inv, DecodeByte;
    ByteStaysDecodable(env, c, b);
    assert [b][1..] == [];
  }

  /** A byte after others that only changed the link. */
  lemma LastByteOf(env: Env, c: Client, l: Link, b: byte)
    requires c.main.Valid() && c.conn.Valid() && l.store.Valid()
    ensures var m := WithLink(c, l);
            m.main.Valid() && m.conn.Valid() && LinkOf(m) == l
            && DecodeByte(env, m, b) == AfterRound(env, c, RxStep(env, l, b))
  {
    hide RxStep, FinishPacket;
  }

  /** A round is the run of its bytes, however it cuts a topic or a payload. */
  lemma RoundIsBytes(env: Env, c: Client, bytes: seq<byte>)
    requires CanDecode(c) && Sized(c.rx) && bytes != []
    ensures LinkOf(c).store.Valid() && LinkOf(c).rx.error.None? && c.main.Valid() && c.conn.Valid()
    ensures var (out, n) := Round(env, LinkOf(c), bytes);
            var next := AfterRound(env, c, out);
            && (next.rx.error.None? ==> CanDecode(next) && Sized(next.rx))
            && DecodeBytes(env, c, bytes) == if next.rx.error.Some? then next else DecodeBytes(env, next, bytes[n..])
  {
    hide Inv, RxStep, Round, RxMany, FinishPacket, DecodeByte, Sized;
    DecodingFacts(c);
    var used := RoundPasses(env, LinkOf(c), bytes);
    var (out, n) := Round(env, LinkOf(c), bytes);
    var k := used - 1;
    assert bytes[..used] == bytes[..k] + [bytes[k]] && bytes[..used][..k] == bytes[..k];
    assert bytes == bytes[..used] + bytes[used..];
    RxManyAppend(env, LinkOf(c), bytes[..k], bytes[k]);
    SilentBytes(env, c, bytes[..k]);
    var l := RxMany(env, LinkOf(c), bytes[..k]).link;
    LastByteOf(env, c, l, bytes[k]);
    OneByte(env, WithLink(c, l), bytes[k]);
    DecodeTwice(env, c, bytes[..k], [bytes[k]]);
    DecodeTwice(env, c, bytes[..used], bytes[used..]);
    FinishedIsSized(env, c, out);
  }

  lemma FinishedIsSized(env: Env, c: Client, out: RxOut)
    requires c.main.Valid() && c.conn.Valid() && out.link.store.Valid() && (Sized(out.link.rx) || out.call)
    ensures AfterRound(env, c, out).rx.error.None? ==> Sized(AfterRound(env, c, out).rx)
    ensures !out.call ==> AfterRound(env, c, out).rx == out.link.rx
  {
    hide CallSlot;
  }

  /** A call does what its bytes do one by one. */
  lemma {:induction false} CallIsBytewise(env: Env, c: Client, bytes: seq<byte>)
    requires CanDecode(c) && Sized(c.rx)
    ensures DecodeCall(env, c, bytes) == DecodeBytes(env, c, bytes)
    decreases |bytes|
  {
    hide Inv, Round, AfterRound, Sized, DecodeByte;
    if bytes != [] {
      DecodingFacts(c);
      RoundIsBytes(env, c, bytes);
      var (out, n) := Round(env, LinkOf(c), bytes);
      var next := AfterRound(env, c, out);
      if next.rx.error.None? { CallIsBytewise(env, next, bytes[n..]); }
    }
  }

  function Join(chunks: seq<seq<byte>>): seq<byte>
  {
    if chunks == [] then [] else chunks[0] + Join(chunks[1..])
  }

  /** The same bytes in any number of calls. */
  function DecodeCalls(env: Env, c: Client, chunks: seq<seq<byte>>): Client
    requires CanDecode(c) && Sized(c.rx)
    decreases |chunks|
  {
    if chunks == [] then c
    else
      var next := DecodeCall(env, c, chunks[0]);
      if next.rx.error.Some? then next else DecodeCalls(env, next, chunks[1..])
  }

  /** Decoding does not depend on how the stream is split: any partition of a stream into calls, with the
      chunks of topic and payload it leads to, gives the same messages, requests, acknowledgements,
      callbacks and final state as one call with the whole stream. */
  lemma {:induction false} SplitDoesNotMatter(env: Env, c: Client, chunks: seq<seq<byte>>)
    requires CanDecode(c) && Sized(c.rx)
    ensures DecodeCalls(env, c, chunks) == DecodeCall(env, c, Join(chunks))
    decreases |chunks|
  {
    hide Inv, DecodeCall, DecodeBytes, Sized;
    CallIsBytewise(env, c, Join(chunks));
    if chunks == [] {
      NoBytes(env, c);
    } else {
      CallIsBytewise(env, c, chunks[0]);
      DecodeTwice(env, c, chunks[0], Join(chunks[1..]));
      var next := DecodeCall(env, c, chunks[0]);
      if next.rx.error.None? {
        CallIsBytewise(env, next, Join(chunks[1..]));
        SplitDoesNotMatter(env, next, chunks[1..]);
      }
    }
  }

  lemma NoBytes(env: Env, c: Client)
    requires CanDecode(c)
    ensures DecodeBytes(env, c, []) == c
  {
  }

  // ----- framing -----

  /** The value and size of the Remaining Length at the start of `bytes`, if it is complete. */
  function LengthField(bytes: seq<byte>): Option<(nat, nat)>
  {
    if bytes == [] then None
    else if bytes[0] < 128 then Some((bytes[0] as nat, 1))
    else
      match LengthField(bytes[1..])
      case Some((n, k)) => Some((bytes[0] % 128 + 128 * n, k + 1))
      case None => None
  }

  /** The length of the packet at the start of `bytes`, if its fixed header is complete. */
  function FrameLength(bytes: seq<byte>): Option<nat>
  {
    if bytes == [] then None
    else
      match LengthField(bytes[1..])
      case Some((n, k)) => Some(1 + k + n)
      case None => None
  }

  /** The stream ends exactly at the end of a packet. */
  predicate WholeFrames(bytes: seq<byte>)
    decreases |bytes|
  {
    bytes == [] ||
    match FrameLength(bytes)
    case Some(n) => 0 < n <= |bytes| && WholeFrames(bytes[n..])
    case None => false
  }

  lemma {:induction false} LengthFieldOf(n: nat, rest: seq<byte>)
    ensures LengthField(RemainingLength(n) + rest) == Some((n, |RemainingLength(n)|))
  {
    var bytes := RemainingLength(n) + rest;
    if n >= 128 {
      assert bytes[1..] == RemainingLength(n / 128) + rest;
      LengthFieldOf(n / 128, rest);
    }
  }

  /** `seen` are the bytes since the last packet ended; the decoder is inside that packet. */
  predicate InFrame(rx: Rx, seen: seq<byte>)
  {
    && rx.error.None?
    && (if seen == [] then rx == RESET_RX
        else if !rx.headerFinished then
          && rx.header == HeaderSteps(ZERO_HEADER, seen) && rx.header.error.None? && !rx.header.finished
          && rx.header.bytesRead == |seen|
        else
          && rx.remainPos < rx.header.remainingLength && |seen| >= rx.remainPos
          && var head := seen[..|seen| - rx.remainPos];
             HeaderSteps(ZERO_HEADER, head) == rx.header && rx.header.error.None? && rx.header.finished
             && rx.header.bytesRead == |head|)
  }

  lemma {:induction false} HeaderStepsAppend(h: Header, bytes: seq<byte>, b: byte)
    ensures HeaderSteps(h, bytes + [b]) == HeaderStep(HeaderSteps(h, bytes), b)
    decreases |bytes|
  {
    if bytes == [] {
      assert bytes + [b] == [b] && [b][1..] == [];
    } else {
      assert (bytes + [b])[1..] == bytes[1..] + [b];
      HeaderStepsAppend(HeaderStep(h, bytes[0]), bytes[1..], b);
    }
  }

  /** A complete fixed header of `h` bytes declares exactly the frame that `FrameLength` computes. */
  lemma CompleteHeader(head: seq<byte>, rest: seq<byte>)
    requires head != []
    requires var h := HeaderSteps(ZERO_HEADER, head); h.error.None? && h.finished && h.bytesRead == |head|
    ensures FrameLength(head + rest) == Some(|head| + HeaderSteps(ZERO_HEADER, head).remainingLength)
  {
    hide HeaderSteps, RemainingLength, LengthField;
    var n := HeaderSteps(ZERO_HEADER, head).remainingLength;
    HeaderIsCanonical(head);
    LengthFieldOf(n, rest);
    assert (head + rest)[1..] == head[1..] + rest;
  }

  lemma HeaderIsCanonical(head: seq<byte>)
    requires head != []
    requires var h := HeaderSteps(ZERO_HEADER, head); h.error.None? && h.finished
    ensures head[1..] == RemainingLength(HeaderSteps(ZERO_HEADER, head).remainingLength)
  {
    hide RemainingLength;
    var first := HeaderStep(ZERO_HEADER, head[0]);
    if first.error.Some? { ErrorSticks(first, head[1..]); }
    AcceptedLengthIsCanonical(first, head[1..]);
  }

  lemma {:induction false} PendingHeader(h: Header, bytes: seq<byte>)
    requires h.error.None? && h.bytesRead > 0 && !h.finished
    requires HeaderSteps(h, bytes).error.None? && !HeaderSteps(h, bytes).finished
    ensures LengthField(bytes).None?
    decreases |bytes|
  {
    if bytes != [] {
      var next := HeaderStep(h, bytes[0]);
      if next.error.Some? {
        ErrorSticks(next, bytes[1..]);
      } else if next.finished {
        if bytes[1..] != [] { FinishedRejects(next, bytes[1..]); }
      } else {
        PendingHeader(next, bytes[1..]);
      }
    }
  }

  lemma HeaderIsSomething(head: seq<byte>)
    requires HeaderSteps(ZERO_HEADER, head).finished
    ensures head != []
  {
  }

  /** Inside a packet the stream is not at a frame end. */
  lemma InFrameIsPartial(rx: Rx, seen: seq<byte>)
    requires InFrame(rx, seen) && seen != []
    ensures !WholeFrames(seen)
    ensures FrameLength(seen).Some? ==> FrameLength(seen).value > |seen|
  {
    if !rx.headerFinished {
      var first := HeaderStep(ZERO_HEADER, seen[0]);
      if first.error.Some? { ErrorSticks(first, seen[1..]); }
      PendingHeader(first, seen[1..]);
    } else {
      var head := seen[..|seen| - rx.remainPos];
      HeaderIsSomething(head);
      CompleteHeader(head, seen[|seen| - rx.remainPos..]);
      assert seen == head + seen[|seen| - rx.remainPos..];
    }
  }

  /** One more byte stays inside the packet or ends it. */
  predicate FrameStep(rx: Rx, seen: seq<byte>, b: byte, next: Rx, complete: bool)
  {
    if complete then FrameLength(seen + [b]) == Some(|seen| + 1) else InFrame(next, seen + [b])
  }

  lemma BodyKeepsHeader(env: Env, l: Link, b: byte)
    requires RxInv(l.rx) && l.rx.error.None? && l.rx.headerFinished && l.store.Valid()
    ensures var (m, ok) := BodyByte(env, l, b);
            && (ok <==> m.rx.error.None?)
            && (ok ==> m.rx.header == l.rx.header && m.rx.remainPos == l.rx.remainPos && m.rx.headerFinished)
  {
    hide WellFormed;
    if l.rx.decoder.DPublish? {
      var eff := PublishByteGood(env, l, b);
    }
  }

  lemma RxFrameStep(env: Env, l: Link, seen: seq<byte>, b: byte)
    requires RxInv(l.rx) && l.store.Valid() && InFrame(l.rx, seen)
    ensures var out := RxStep(env, l, b);
            && (out.call ==> out.link.rx.error.None?)
            && (out.link.rx.error.None? ==> FrameStep(l.rx, seen, b, out.link.rx, out.call || out.link.rx == RESET_RX))
  {
    hide WellFormed, BodyByte, LengthField, HeaderStep, FinishIfComplete, FrameLength;
    var out := RxStep(env, l, b);
    if !l.rx.headerFinished {
      HeaderFrameStep(l, seen, b);
    } else {
      BodyKeepsHeader(env, l, b);
      var head := seen[..|seen| - l.rx.remainPos];
      assert seen != [];
      HeaderIsSomething(head);
      assert seen + [b] == head + (seen + [b])[|head|..];
      CompleteHeader(head, (seen + [b])[|head|..]);
      assert (seen + [b])[..|head|] == head;
      var next := BodyByte(env, l, b).0;
      if next.rx.error.None? {
        BodyFrameStep(next.(rx := next.rx.(remainPos := next.rx.remainPos + 1)), seen + [b]);
      }
    }
  }

  lemma BodyFrameStep(l: Link, seen: seq<byte>)
    requires l.rx.error.None? && l.rx.headerFinished && 0 < l.rx.remainPos <= l.rx.header.remainingLength
    requires |seen| >= l.rx.remainPos && l.rx.header.error.None? && l.rx.header.finished && l.store.Valid()
    requires var head := seen[..|seen| - l.rx.remainPos];
             && HeaderSteps(ZERO_HEADER, head) == l.rx.header && l.rx.header.bytesRead == |head|
             && FrameLength(seen) == Some(|head| + l.rx.header.remainingLength)
    ensures var out := FinishIfComplete(l);
            && (out.call ==> out.link.rx.error.None?)
            && (out.link.rx.error.None? ==>
                  if out.call || out.link.rx == RESET_RX then FrameLength(seen) == Some(|seen|)
                    else InFrame(out.link.rx, seen))
  {
    hide WellFormed, FrameLength, HeaderSteps;
  }

  lemma HeaderFrameStep(l: Link, seen: seq<byte>, b: byte)
    requires RxInv(l.rx) && l.store.Valid() && InFrame(l.rx, seen) && !l.rx.headerFinished
    ensures var out := HeaderByte(l, b);
            && (out.call ==> out.link.rx.error.None?)
            && (out.link.rx.error.None? ==> FrameStep(l.rx, seen, b, out.link.rx, out.call || out.link.rx == RESET_RX))
  {
    hide WellFormed, LengthField, RemainingLength;
    HeaderStepsAppend(ZERO_HEADER, seen, b);
    assert seen == [] ==> HeaderSteps(ZERO_HEADER, seen) == ZERO_HEADER;
    var h := HeaderStep(l.rx.header, b);
    HeaderCounts(l.rx.header, b);
    assert (seen + [b])[..|seen + [b]|] == seen + [b];
    if h.error.None? && h.finished {
      CompleteHeader(seen + [b], []);
      assert seen + [b] + [] == seen + [b];
    }
  }

  lemma HeaderCounts(h: Header, b: byte)
    requires h.error.None?
    ensures HeaderStep(h, b).error.None? ==> HeaderStep(h, b).bytesRead == h.bytesRead + 1
  {
  }

  lemma DecodeFrameStep(env: Env, c: Client, seen: seq<byte>, b: byte)
    requires CanDecode(c) && InFrame(c.rx, seen)
    ensures c.main.Valid() && c.conn.Valid()
    ensures var d := DecodeByte(env, c, b);
            d.rx.error.None? ==> FrameStep(c.rx, seen, b, d.rx, d.rx == RESET_RX)
  {
    hide WellFormed, RxInv, RxStep, InFrame, FrameLength, CallSlot;
    assert RxInv(c.rx) && LinkOf(c).store.Valid();
    RxFrameStep(env, LinkOf(c), seen, b);
    CalledIsReset(env, c, b);
  }

  lemma CalledIsReset(env: Env, c: Client, b: byte)
    requires c.main.Valid() && c.conn.Valid()
    ensures var out := RxStep(env, LinkOf(c), b); var d := DecodeByte(env, c, b);
            if out.call then d.rx.error.None? ==> d.rx == RESET_RX else d.rx == out.link.rx
  {
    hide RxStep, CallSlot;
  }

  /** Framing never drifts: in an error-free stream the decoder is between packets exactly when the bytes
      so far are whole packets, each of its fixed header plus the Remaining Length it declares. */
  lemma {:induction false} FramesNeverDrift(env: Env, c: Client, seen: seq<byte>, bytes: seq<byte>)
    requires CanDecode(c) && InFrame(c.rx, seen)
    ensures var d := DecodeBytes(env, c, bytes);
            d.rx.error.None? ==> (d.rx == RESET_RX <==> WholeFrames(seen + bytes))
    decreases |bytes|
  {
    hide Inv, DecodeByte;
    if bytes == [] {
      assert seen + bytes == seen;
      if seen != [] { InFrameIsPartial(c.rx, seen); NotReset(c.rx, seen); }
    } else {
      var b := bytes[0];
      ByteStaysDecodable(env, c, b);
      DecodeFrameStep(env, c, seen, b);
      var next := DecodeByte(env, c, b);
      assert seen + bytes == (seen + [b]) + bytes[1..];
      if next.rx.error.None? {
        if next.rx == RESET_RX {
          FramesNeverDrift(env, next, [], bytes[1..]);
          FrameLengthPrefix(seen + [b], bytes[1..]);
          assert (seen + bytes)[|seen| + 1..] == bytes[1..] && [] + bytes[1..] == bytes[1..];
        } else {
          FramesNeverDrift(env, next, seen + [b], bytes[1..]);
        }
      }
    }
  }

  lemma NotReset(rx: Rx, seen: seq<byte>)
    requires InFrame(rx, seen) && seen != []
    ensures rx != RESET_RX
  {
  }

  lemma {:induction false} LengthFieldPrefix(a: seq<byte>, b: seq<byte>)
    requires LengthField(a).Some?
    ensures LengthField(a + b) == LengthField(a)
  {
    if a[0] >= 128 {
      assert (a + b)[1..] == a[1..] + b;
      LengthFieldPrefix(a[1..], b);
    }
  }

  lemma FrameLengthPrefix(a: seq<byte>, b: seq<byte>)
    requires FrameLength(a).Some?
    ensures FrameLength(a + b) == FrameLength(a)
  {
    assert (a + b)[1..] == a[1..] + b;
    LengthFieldPrefix(a[1..], b);
  }
}
