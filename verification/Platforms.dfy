/** The other side of the client: a clock, and a connection that answers from a finite script. */
module Platforms {
  import opened Types
  import opened Clock

  /** What a read gives. A success without bytes is the end of the stream. */
  datatype ReadAnswer = ReadAnswer(io: IoResult, bytes: seq<byte>)

  /** How much of a write is taken. */
  datatype WriteAnswer = WriteAnswer(io: IoResult, count: nat)

  /** The clock and the connection: the answers to come, and the bytes read and written so far. */
  datatype Net = Net(
    clock: nat -> Time, ticks: nat, incoming: seq<ReadAnswer>, outgoing: seq<WriteAnswer>,
    given: seq<byte>, sent: seq<byte>)

  function Tick(net: Net): (Net, Time)
  {
    (net.(ticks := net.ticks + 1), net.clock(net.ticks))
  }

  /** A read into `room` bytes. What does not fit stays for the next read; without an answer the
      connection blocks. */
  function ServeRead(net: Net, room: nat): (r: (Net, IoResult, seq<byte>))
    ensures |r.2| <= room
  {
    if net.incoming == [] then (net, IoWouldBlock, [])
    else
      var answer := net.incoming[0];
      var n := Min(|answer.bytes|, room);
      var rest := if n < |answer.bytes| then [answer.(bytes := answer.bytes[n..])] + net.incoming[1..]
        else net.incoming[1..];
      (net.(incoming := rest, given := net.given + answer.bytes[..n]), answer.io, answer.bytes[..n])
  }

  /** A write of `bytes` takes a prefix. */
  function ServeWrite(net: Net, bytes: seq<byte>): (r: (Net, IoResult, nat))
    ensures r.2 <= |bytes|
  {
    if net.outgoing == [] then (net, IoWouldBlock, 0)
    else
      var n := Min(net.outgoing[0].count, |bytes|);
      (net.(outgoing := net.outgoing[1..], sent := net.sent + bytes[..n]), net.outgoing[0].io, n)
  }

  /** How much there is still to read. */
  function Total(answers: seq<ReadAnswer>): nat
  {
    if answers == [] then 0 else |answers[0].bytes| + Total(answers[1..])
  }

  lemma ReadUsesUp(net: Net, room: nat)
    ensures var (after, _, bytes) := ServeRead(net, room); Total(after.incoming) + |bytes| == Total(net.incoming)
  {
    if net.incoming != [] {
      var answer := net.incoming[0];
      var n := Min(|answer.bytes|, room);
      var rest := answer.(bytes := answer.bytes[n..]);
      assert ([rest] + net.incoming[1..])[1..] == net.incoming[1..];
    }
  }

  class Platform {
    const clock: nat -> Time
    var ticks: nat
    var incoming: seq<ReadAnswer>
    var outgoing: seq<WriteAnswer>
    var given: seq<byte>
    var sent: seq<byte>

    function View(): Net
      reads this
    {
      Net(clock, ticks, incoming, outgoing, given, sent)
    }

    constructor (clock: nat -> Time, incoming: seq<ReadAnswer>, outgoing: seq<WriteAnswer>)
      ensures View() == Net(clock, 0, incoming, outgoing, [], [])
    {
      this.clock, ticks, this.incoming, this.outgoing, given, sent := clock, 0, incoming, outgoing, [], [];
    }

    method Now() returns (now: Time)
      modifies this`ticks
      ensures (View(), now) == Tick(old(View()))
    {
      now := clock(ticks);
      ticks := ticks + 1;
    }

    method Read(buf: array<byte>, at: nat, room: nat) returns (io: IoResult, cnt: nat)
      requires at + room <= buf.Length
      modifies this`incoming, this`given, buf
      ensures cnt <= room && buf[..at] == old(buf[..at])
      ensures (View(), io, buf[at..at + cnt]) == ServeRead(old(View()), room)
    {
      if incoming == [] {
        assert buf[at..at] == [];
        return IoWouldBlock, 0;
      }
      var answer := incoming[0];
      cnt := Min(|answer.bytes|, room);
      ghost var before := buf[..at];
      forall i | 0 <= i < cnt { buf[at + i] := answer.bytes[i]; }
      assert buf[..at] == before;
      assert buf[at..at + cnt] == answer.bytes[..cnt];
      given := given + answer.bytes[..cnt];
      incoming := if cnt < |answer.bytes| then [answer.(bytes := answer.bytes[cnt..])] + incoming[1..]
        else incoming[1..];
      io := answer.io;
    }

    method Write(buf: array<byte>, len: nat) returns (io: IoResult, cnt: nat)
      requires len <= buf.Length
      modifies this`outgoing, this`sent
      ensures cnt <= len && (View(), io, cnt) == ServeWrite(old(View()), buf[..len])
    {
      if outgoing == [] { return IoWouldBlock, 0; }
      cnt := Min(outgoing[0].count, len);
      io := outgoing[0].io;
      outgoing := outgoing[1..];
      assert buf[..len][..cnt] == buf[..cnt];
      sent := sent + buf[..cnt];
    }
  }
}
