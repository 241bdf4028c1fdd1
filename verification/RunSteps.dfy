/** How the moves of the running client add up to a run of the session machine. */
module RunSteps {
  import opened Types
  import opened Receive
  import opened Session
  import opened SessionInvariant
  import opened Decoding

  function Repeat(op: Op, n: nat): (ops: seq<Op>)
    ensures |ops| == n && forall i :: 0 <= i < n ==> ops[i] == op
  {
    seq(n, _ => op)
  }

  lemma {:induction false} RunAppend(env: Env, c: Client, ops: seq<Op>, more: seq<Op>)
    requires Inv(c)
    ensures Inv(Run(env, c, ops)) && Run(env, c, ops + more) == Run(env, Run(env, c, ops), more)
    decreases |ops|
  {
    hide Inv, Step, WellStored;
    if ops == [] {
      assert ops + more == more;
    } else {
      assert (ops + more)[1..] == ops[1..] + more;
      StepKeepsInv(env, c, ops[0]);
      RunAppend(env, Step(env, c, ops[0]), ops[1..], more);
    }
  }

  lemma RunOne(env: Env, c: Client, op: Op)
    requires Inv(c)
    ensures WellStored(c) && Run(env, c, [op]) == Step(env, c, op)
  {
    hide Inv, Step, WellStored;
    StepKeepsInv(env, c, op);
    assert [op][1..] == [];
  }

  // ----- decoding does not look at the staging buffers -----

  function Rebuffer(c: Client, readBuf: seq<byte>, decoded: seq<byte>): Client
  {
    c.(readBuf := readBuf, audit := c.audit.(decoded := decoded))
  }

  lemma CleanupIgnoresBuffer(c: Client, keep: bool, readBuf: seq<byte>, decoded: seq<byte>)
    requires c.main.Valid()
    ensures CleanupStores(Rebuffer(c, readBuf, decoded), keep) == Rebuffer(CleanupStores(c, keep), readBuf, decoded)
    ensures CleanupStores(c, keep).audit == c.audit
  {
    hide KeepSession, FlushLog;
  }

  lemma ConnackIgnoresBuffer(env: Env, c: Client, q: ConnectRequest, readBuf: seq<byte>, decoded: seq<byte>)
    requires c.main.Valid()
    ensures var (d, ok) := OnConnack(env, c, q);
            OnConnack(env, Rebuffer(c, readBuf, decoded), q) == (Rebuffer(d, readBuf, decoded), ok)
              && d.audit == c.audit
  {
    hide CleanupStores;
    var accepted := c.(cleanSession := q.cleanSession, main := c.main.(keepAlive := q.keepAlive));
    CleanupIgnoresBuffer(SetCurrentStore(accepted.(error := None, closed := false), Main), !q.cleanSession, readBuf,
      decoded);
  }

  lemma CallIgnoresBuffer(env: Env, c: Client, readBuf: seq<byte>, decoded: seq<byte>)
    requires c.main.Valid()
    ensures var (d, ok) := CallSlot(env, c);
            CallSlot(env, Rebuffer(c, readBuf, decoded)) == (Rebuffer(d, readBuf, decoded), ok) && d.audit == c.audit
  {
    hide OnConnack;
    if c.rx.slot.body.ConnectBody? { ConnackIgnoresBuffer(env, c, c.rx.slot.body.connect, readBuf, decoded); }
  }

  /** Finishing a packet does not look at the staging buffers. */
  lemma FinishIgnoresBuffer(env: Env, c: Client, readBuf: seq<byte>, decoded: seq<byte>)
    requires c.main.Valid()
    ensures FinishPacket(env, Rebuffer(c, readBuf, decoded)) == Rebuffer(FinishPacket(env, c), readBuf, decoded)
    ensures FinishPacket(env, c).audit.decoded == c.audit.decoded
  {
    hide CallSlot;
    CallIgnoresBuffer(env, c, readBuf, decoded);
  }

  lemma ByteIgnoresBuffer(env: Env, c: Client, b: byte, readBuf: seq<byte>, decoded: seq<byte>)
    requires c.main.Valid() && c.conn.Valid()
    ensures DecodeByte(env, Rebuffer(c, readBuf, decoded), b) == Rebuffer(DecodeByte(env, c, b), readBuf, decoded)
    ensures DecodeByte(env, c, b).audit.decoded == c.audit.decoded && DecodeByte(env, c, b).readBuf == c.readBuf
  {
    hide RxStep, FinishPacket;
    var out := RxStep(env, LinkOf(c), b);
    var next := WithLink(c, out.link);
    assert WithLink(Rebuffer(c, readBuf, decoded), out.link) == Rebuffer(next, readBuf, decoded);
    if out.call {
      FinishIgnoresBuffer(env, next, readBuf, decoded);
      FinishPacketBuffers(env, next);
    }
  }

  lemma RebufferKeepsInv(c: Client, readBuf: seq<byte>, decoded: seq<byte>)
    requires CanDecode(c) && |readBuf| <= c.readCap
    ensures CanDecode(Rebuffer(c, readBuf, decoded))
  {
    hide Inv;
    InvCommon(c);
    BuffersDoNotMatter(c, readBuf, c.writeBuf, c.audit.(decoded := decoded));
  }

  lemma {:induction false} BytesIgnoreBuffer(env: Env, c: Client, bytes: seq<byte>, readBuf: seq<byte>,
    decoded: seq<byte>)
    requires CanDecode(c) && |readBuf| <= c.readCap
    ensures CanDecode(Rebuffer(c, readBuf, decoded))
    ensures DecodeBytes(env, Rebuffer(c, readBuf, decoded), bytes)
            == Rebuffer(DecodeBytes(env, c, bytes), readBuf, decoded)
    decreases |bytes|
  {
    hide Inv, DecodeByte;
    RebufferKeepsInv(c, readBuf, decoded);
    if bytes != [] {
      ByteStaysDecodable(env, c, bytes[0]);
      ByteIgnoresBuffer(env, c, bytes[0], readBuf, decoded);
      DecodeByteBuffers(env, c, bytes[0]);
      var next := DecodeByte(env, c, bytes[0]);
      if next.rx.error.None? { BytesIgnoreBuffer(env, next, bytes[1..], readBuf, decoded); }
    }
  }

  // ----- decoding a buffer in single steps -----

  lemma {:induction false} ErrorStops(env: Env, c: Client, n: nat)
    requires Inv(c) && c.error.Some?
    ensures Run(env, c, Repeat(DecodeOne, n)) == c
  {
    hide Inv, WellStored;
    if n > 0 {
      StepKeepsInv(env, c, DecodeOne);
      assert Repeat(DecodeOne, n)[1..] == Repeat(DecodeOne, n - 1);
      ErrorStops(env, c, n - 1);
    }
  }

  /** The client after its first `n` buffered bytes, and what it keeps of its buffer. */
  ghost function Decoded(env: Env, c: Client, n: nat, decoded: seq<byte>): Client
    requires CanDecode(c) && n <= |c.readBuf|
  {
    var d := DecodeBytes(env, c, c.readBuf[..n]);
    match d.rx.error
    case Some(e) => FailWith(Rebuffer(d, [], decoded), e)
    case None => Rebuffer(d, c.readBuf[n..], c.audit.decoded + c.readBuf[..n])
  }

  /** Steps that decode one byte each do what one call does with the bytes; after an error nothing more
      happens. */
  lemma {:induction false} StepsAreBytes(env: Env, c: Client, n: nat)
    requires CanDecode(c) && n <= |c.readBuf|
    ensures var r := Run(env, c, Repeat(DecodeOne, n)); r == Decoded(env, c, n, r.audit.decoded)
    decreases n
  {
    hide Inv, DecodeByte, FailWith, WellStored;
    if n == 0 {
      assert c.readBuf[..0] == [] && c.readBuf[0..] == c.readBuf && c.audit.decoded + [] == c.audit.decoded;
    } else {
      var b := c.readBuf[0];
      DecodingFacts(c);
      ByteStaysDecodable(env, c, b);
      ByteIgnoresBuffer(env, c, b, c.readBuf[1..], c.audit.decoded + [b]);
      StepKeepsInv(env, c, DecodeOne);
      assert Repeat(DecodeOne, n)[1..] == Repeat(DecodeOne, n - 1);
      var next := DecodeByte(env, c, b);
      var after := Step(env, c, DecodeOne);
      assert c.readBuf[..n][0] == b && c.readBuf[..n][1..] == c.readBuf[1..][..n - 1];
      if next.rx.error.Some? {
        FailedErrors(next, c);
        ErrorStops(env, after, n - 1);
      } else {
        DecodeByteBuffers(env, c, b);
        InvCommon(c);
        assert after == Rebuffer(next, c.readBuf[1..], c.audit.decoded + [b]);
        BytesIgnoreBuffer(env, next, c.readBuf[1..][..n - 1], c.readBuf[1..], c.audit.decoded + [b]);
        StepsAreBytes(env, after, n - 1);
        RebufferTwice(env, c, n, after, next);
      }
    }
  }

  lemma FailedErrors(d: Client, c: Client)
    requires d.rx.error.Some?
    ensures FailWith(d.(readBuf := []), d.rx.error.value).error.Some?
    ensures FailWith(d.(readBuf := []), d.rx.error.value)
            == FailWith(Rebuffer(d, [], d.audit.decoded), d.rx.error.value)
    ensures FailWith(d.(readBuf := []), d.rx.error.value).audit.decoded == d.audit.decoded
  {
  }

  lemma RebufferTwice(env: Env, c: Client, n: nat, after: Client, next: Client)
    requires CanDecode(next) && 0 < n <= |c.readBuf|
             && after == Rebuffer(next, c.readBuf[1..], c.audit.decoded + [c.readBuf[0]])
    requires CanDecode(after) && CanDecode(c) && |c.readBuf[1..]| <= next.readCap
    requires var d := DecodeBytes(env, next, c.readBuf[1..][..n - 1]);
             && DecodeBytes(env, c, c.readBuf[..n]) == d
             && DecodeBytes(env, after, c.readBuf[1..][..n - 1])
                == Rebuffer(d, c.readBuf[1..], c.audit.decoded + [c.readBuf[0]])
    ensures forall decoded :: Decoded(env, after, n - 1, decoded) == Decoded(env, c, n, decoded)
  {
    hide Inv, FailWith, DecodeBytes;
    assert c.readBuf[1..][n - 1..] == c.readBuf[n..];
    assert c.audit.decoded + [c.readBuf[0]] + c.readBuf[1..][..n - 1] == c.audit.decoded + c.readBuf[..n];
  }
}
