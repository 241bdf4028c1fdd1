/** The fixed header: Remaining Length encoding and the byte-at-a-time header decoder. */
module FixedHeader {
  import opened Types

  const MAX_REMAINING_LENGTH := 0x0fffffff

  /** Remaining Length as section 2.2.3 of MQTT 3.1.1 defines it: base 128, least significant first. */
  function RemainingLength(n: nat): (r: seq<byte>)
    ensures 1 <= |r|
    ensures n < 128 ==> |r| == 1
    ensures n < 0x4000 ==> |r| <= 2
    ensures n < 0x200000 ==> |r| <= 3
    ensures n <= MAX_REMAINING_LENGTH ==> |r| <= 4
  {
    if n < 128 then [n] else [n % 128 + 128] + RemainingLength(n / 128)
  }

  lemma NextDigit(n: nat)
    ensures RemainingLength(n)
            == if n / 128 > 0 then [n % 128 + 128] + RemainingLength(n / 128) else [n % 128]
  {
  }

  /** Writes the encoding behind `buf[..start]`; the caller leaves room for four bytes. */
  method EncodeRemainingLength(len: nat, buf: array<byte>, start: nat) returns (size: nat)
    requires len <= MAX_REMAINING_LENGTH && start + 4 <= buf.Length
    modifies buf
    ensures size == |RemainingLength(len)| && 1 <= size <= 4
    ensures buf[..start + size] == old(buf[..start]) + RemainingLength(len)
  {
    hide RemainingLength;
    size := 0;
    var rest := len;
    var more := true;
    ghost var whole := buf[..start] + RemainingLength(len);
    ghost var tail := RemainingLength(len);
    while more
      invariant more ==> tail == RemainingLength(rest)
      invariant !more ==> tail == []
      invariant size + |tail| == |RemainingLength(len)|
      invariant buf[..start + size] + tail == whole
      decreases more, rest
    {
      ghost var done := buf[..start + size];
      NextDigit(rest);
      var b: byte := rest % 128;
      rest := rest / 128;
      if rest > 0 { b := b + 128; }
      buf[start + size] := b;
      assert buf[..start + size + 1] == done + [b];
      assert tail == [b] + tail[1..];
      size := size + 1;
      more := rest > 0;
      tail := tail[1..];
    }
  }

  /** `htype` is 0 until the first byte is accepted. */
  datatype Header = Header(
    htype: nat, dup: bool, qos: nat, retain: bool, remainingLength: nat,
    bytesRead: nat, error: Option<Error>, multiplier: nat, accumulator: nat, finished: bool)

  const ZERO_HEADER := Header(0, false, 0, false, 0, 0, None, 0, 0, false)

  predicate BadFlags(htype: nat, flags: nat)
  {
    if htype == 6 || htype == 8 || htype == 10 then flags != 2
    else if htype == 3 then flags / 2 % 4 == 3 || flags / 2 == 4
    else flags != 0
  }

  function HeaderFirst(h: Header, b: byte): Header
  {
    var htype, flags := b / 16, b % 16;
    if !(1 <= htype <= 14) then h.(error := Some(InvalidType))
    else if BadFlags(htype, flags) then h.(error := Some(InvalidFlags))
    else if htype == 3 then
      h.(htype := 3, multiplier := 1, accumulator := 0, finished := false,
         dup := flags / 8 == 1, qos := flags / 2 % 4, retain := flags % 2 == 1, bytesRead := h.bytesRead + 1)
    else
      h.(htype := htype, multiplier := 1, accumulator := 0, finished := false,
         dup := false, qos := 0, retain := false, bytesRead := h.bytesRead + 1)
  }

  function HeaderLength(h: Header, b: byte): Header
  {
    if (h.multiplier > 128 * 128 && b >= 128) || (h.multiplier > 1 && b == 0) || h.finished then
      h.(error := Some(InvalidRemainingLength))
    else
      var acc := h.accumulator + b % 128 * h.multiplier;
      if b >= 128 then
        h.(accumulator := acc, multiplier := h.multiplier * 128, bytesRead := h.bytesRead + 1)
      else
        h.(accumulator := acc, multiplier := h.multiplier * 128, remainingLength := acc, finished := true,
           bytesRead := h.bytesRead + 1)
  }

  /** One byte of the fixed header; an error is sticky. */
  function HeaderStep(h: Header, b: byte): Header
  {
    if h.error.Some? then h
    else if h.bytesRead == 0 then HeaderFirst(h, b)
    else HeaderLength(h, b)
  }

  function HeaderSteps(h: Header, bytes: seq<byte>): Header
    decreases |bytes|
  {
    if bytes == [] then h else HeaderSteps(HeaderStep(h, bytes[0]), bytes[1..])
  }

  /** The header decoder waiting for the Remaining Length bytes of a packet. */
  predicate AwaitsLength(h: Header)
  {
    h.error.None? && h.bytesRead == 1 && h.multiplier == 1 && h.accumulator == 0 && !h.finished
  }

  /** `length` bytes of the length field are read: the multiplier is 128 to that power. */
  predicate LengthSoFar(h: Header, length: nat)
  {
    && h.error.None? && h.bytesRead == 1 + length && !h.finished
    && h.multiplier == (if length == 0 then 1 else if length == 1 then 128 else if length == 2 then 16384 else 2097152)
    && length <= 3
  }

  lemma DigitShift(digit: nat, rest: nat, multiplier: nat)
    ensures digit * multiplier + rest * (multiplier * 128) == (digit + 128 * rest) * multiplier
  {
  }

  lemma {:induction false} FeedLength(h: Header, length: nat, m: nat)
    requires LengthSoFar(h, length)
    requires length + |RemainingLength(m)| <= 4
    requires length > 0 ==> m > 0
    ensures var r := HeaderSteps(h, RemainingLength(m));
            r == h.(finished := true, remainingLength := h.accumulator + m * h.multiplier,
                    accumulator := h.accumulator + m * h.multiplier, multiplier := r.multiplier,
                    bytesRead := h.bytesRead + |RemainingLength(m)|)
    decreases m
  {
    var bytes := RemainingLength(m);
    var next := HeaderStep(h, bytes[0]);
    if m < 128 {
      assert bytes[1..] == [];
      assert next == HeaderSteps(next, bytes[1..]);
    } else {
      assert bytes[1..] == RemainingLength(m / 128);
      assert bytes[0] % 128 == m % 128;
      FeedLength(next, length + 1, m / 128);
      DigitShift(m % 128, m / 128, h.multiplier);
    }
  }

  /** Remaining Length round trip: the decoder reads back what the encoder writes. */
  lemma RemainingLengthRoundTrip(h: Header, n: nat)
    requires AwaitsLength(h) && n <= MAX_REMAINING_LENGTH
    ensures var r := HeaderSteps(h, RemainingLength(n));
            r.error.None? && r.finished && r.remainingLength == n && r.htype == h.htype && r.dup == h.dup
            && r.qos == h.qos && r.retain == h.retain
  {
    FeedLength(h, 0, n);
  }

  lemma {:induction false} ErrorSticks(h: Header, bytes: seq<byte>)
    requires h.error.Some?
    ensures HeaderSteps(h, bytes) == h
    decreases |bytes|
  {
    if bytes != [] { ErrorSticks(h, bytes[1..]); }
  }

  lemma FinishedRejects(h: Header, bytes: seq<byte>)
    requires h.error.None? && h.finished && h.bytesRead > 0 && bytes != []
    ensures HeaderSteps(h, bytes).error.Some?
  {
    ErrorSticks(HeaderStep(h, bytes[0]), bytes[1..]);
  }

  lemma {:induction false} AcceptedTail(h: Header, length: nat, bytes: seq<byte>) returns (m: nat)
    requires LengthSoFar(h, length)
    requires HeaderSteps(h, bytes).error.None? && HeaderSteps(h, bytes).finished
    ensures bytes == RemainingLength(m) && (length > 0 ==> m > 0)
    ensures HeaderSteps(h, bytes).remainingLength == h.accumulator + m * h.multiplier
    ensures length + |bytes| <= 4
    decreases |bytes|
  {
    assert bytes != [];
    var b := bytes[0];
    var next := HeaderStep(h, b);
    if next.error.Some? {
      ErrorSticks(next, bytes[1..]);
      assert false;
    } else if b < 128 {
      if bytes[1..] != [] {
        FinishedRejects(next, bytes[1..]);
        assert false;
      }
      m := b;
      assert bytes == [b];
    } else {
      var rest := AcceptedTail(next, length + 1, bytes[1..]);
      m := b % 128 + 128 * rest;
      assert m / 128 == rest && m % 128 == b % 128;
      assert bytes == [b] + bytes[1..];
      DigitShift(b % 128, rest, h.multiplier);
    }
  }

  /** Only canonical encodings are accepted: whatever byte string the decoder takes as a complete
      Remaining Length is the encoder's output for the value it reports. */
  lemma AcceptedLengthIsCanonical(h: Header, bytes: seq<byte>)
    requires AwaitsLength(h)
    requires HeaderSteps(h, bytes).error.None? && HeaderSteps(h, bytes).finished
    ensures HeaderSteps(h, bytes).remainingLength <= MAX_REMAINING_LENGTH
    ensures bytes == RemainingLength(HeaderSteps(h, bytes).remainingLength)
  {
    var m := AcceptedTail(h, 0, bytes);
    if m > MAX_REMAINING_LENGTH {
      LongLength(m);
    }
  }

  /** Which bytes of a Remaining Length are refused: a fourth byte that announces a fifth, and a last byte that is
      0 behind another one. */
  lemma {:induction false} WhenLengthIsRefused(h: Header, length: nat, bytes: seq<byte>)
    requires LengthSoFar(h, length) && 1 <= |bytes| <= 4 - length
    requires forall i :: 0 <= i < |bytes| - 1 ==> bytes[i] >= 128
    ensures var r, n, b := HeaderSteps(h, bytes), length + |bytes|, bytes[|bytes| - 1];
            if (n == 4 && b >= 128) || (n > 1 && b == 0) then r.error == Some(InvalidRemainingLength)
            else r.error.None? && (r.finished <==> b < 128)
    decreases |bytes|
  {
    if |bytes| == 1 {
      assert bytes[1..] == [];
    } else {
      WhenLengthIsRefused(HeaderStep(h, bytes[0]), length + 1, bytes[1..]);
    }
  }

  lemma LongLength(n: nat)
    requires n > MAX_REMAINING_LENGTH
    ensures |RemainingLength(n)| >= 5
  {
    assert n / 128 >= 0x200000 && n / 128 / 128 >= 0x4000 && n / 128 / 128 / 128 >= 128;
    assert |RemainingLength(n / 128 / 128 / 128)| >= 2;
    assert |RemainingLength(n / 128 / 128)| >= 3;
    assert |RemainingLength(n / 128)| >= 4;
  }

  /** The header struct, updated in place one byte at a time. */
  class HeaderDecoder {
    var htype: nat
    var dup: bool
    var qos: nat
    var retain: bool
    var remainingLength: nat
    var bytesRead: nat
    var error: Option<Error>
    var multiplier: nat
    var accumulator: nat
    var finished: bool

    function Model(): Header
      reads this
    {
      Header(htype, dup, qos, retain, remainingLength, bytesRead, error, multiplier, accumulator, finished)
    }

    constructor ()
      ensures Model() == ZERO_HEADER
    {
      htype, dup, qos, retain, remainingLength := 0, false, 0, false, 0;
      bytesRead, error, multiplier, accumulator, finished := 0, None, 0, 0, false;
    }

    method Reset()
      modifies this
      ensures Model() == ZERO_HEADER
    {
      htype, dup, qos, retain, remainingLength := 0, false, 0, false, 0;
      bytesRead, error, multiplier, accumulator, finished := 0, None, 0, 0, false;
    }

    method Decode(b: byte)
      modifies this
      ensures Model() == HeaderStep(old(Model()), b)
    {
      if error.Some? { return; }
      if bytesRead == 0 {
        DecodeFirst(b);
      } else {
        DecodeLength(b);
      }
      if error.None? { bytesRead := bytesRead + 1; }
    }

    /** Type and flags. */
    method DecodeFirst(b: byte)
      requires error.None?
      modifies this
      ensures Model() == HeaderFirst(old(Model()), b).(bytesRead := old(bytesRead))
      ensures HeaderFirst(old(Model()), b).bytesRead == bytesRead + if error.None? then 1 else 0
    {
      var t, flags := b / 16, b % 16;
      var badFlags;
      if t == 6 || t == 8 || t == 10 {
        badFlags := flags != 2;
      } else if t == 3 {
        badFlags := flags / 2 % 4 == 3 || flags / 2 == 4;
      } else {
        badFlags := flags != 0;
      }
      if t < 1 || t > 14 {
        error := Some(InvalidType);
      } else if badFlags {
        error := Some(InvalidFlags);
      } else {
        htype, multiplier, accumulator, finished := t, 1, 0, false;
        if t == 3 {
          dup, qos, retain := flags / 8 == 1, flags / 2 % 4, flags % 2 == 1;
        } else {
          dup, qos, retain := false, 0, false;
        }
      }
    }

    /** A byte of the Remaining Length. */
    method DecodeLength(b: byte)
      requires error.None?
      modifies this
      ensures Model() == HeaderLength(old(Model()), b).(bytesRead := old(bytesRead))
      ensures HeaderLength(old(Model()), b).bytesRead == bytesRead + if error.None? then 1 else 0
    {
      if (multiplier > 128 * 128 && b >= 128) || (multiplier > 1 && b == 0) || finished {
        error := Some(InvalidRemainingLength);
      } else {
        accumulator := accumulator + b % 128 * multiplier;
        multiplier := multiplier * 128;
        if b < 128 {
          remainingLength := accumulator;
          finished := true;
        }
      }
    }
  }
}
