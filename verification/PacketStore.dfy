/** The packet store: a bounded array queue with a cursor. Entries before the cursor are fully encoded
    and wait for a response; entries from the cursor on are still to be sent. */
module PacketStore {
  import opened Types
  import opened Clock

  /** The abstract store; the entries live in `entries`, whose length the C code keeps in `count`. */
  datatype StoreState = StoreState(
    entries: seq<Entry>, pos: nat, capacity: nat, nextId: U16,
    keepAlive: U16, timeout: U16, lastTouch: Time)
  {
    predicate Valid() { pos <= |entries| <= capacity }

    predicate HasCurrent() { pos < |entries| }

    predicate Queueable() { |entries| < capacity }

    function Current(): Entry
      requires HasCurrent()
    {
      entries[pos]
    }

    function Append(e: Entry): (r: (StoreState, bool))
      ensures Valid() ==> r.0.Valid()
    {
      if Queueable() then (this.(entries := entries + [e]), true) else (this, false)
    }

    function PopAt(i: nat): (r: StoreState)
      requires i < |entries|
      ensures Valid() ==> r.Valid()
    {
      this.(entries := entries[..i] + entries[i + 1..], pos := if pos > i then pos - 1 else pos)
    }

    function Mark(): StoreState { if HasCurrent() then this.(pos := pos + 1) else this }

    function DropCurrent(): StoreState { if HasCurrent() then PopAt(pos) else this }

    function Unmark(): StoreState { this.(pos := 0) }

    /** The first marked entry of this kind and packet id at or after `i`, or `pos` when there is none. */
    function FindFrom(i: nat, kind: Kind, packetId: U16): (r: nat)
      requires Valid() && i <= pos
      ensures i <= r <= pos
      ensures r < pos ==> entries[r].kind == kind && entries[r].value.packetId == packetId
      ensures forall j :: i <= j < r ==> !(entries[j].kind == kind && entries[j].value.packetId == packetId)
      decreases pos - i
    {
      if i == pos || (entries[i].kind == kind && entries[i].value.packetId == packetId) then i
      else FindFrom(i + 1, kind, packetId)
    }

    /** Removes the first marked entry of this kind and id. */
    function PopMarked(kind: Kind, packetId: U16): (r: (StoreState, Option<Value>))
      requires Valid()
      ensures r.0.Valid()
    {
      var i := FindFrom(0, kind, packetId);
      if i < pos then (PopAt(i), Some(entries[i].value)) else (this, None)
    }

    /** Responses are awaited for `timeout` seconds; with nothing queued `keepAlive` counts. */
    function When(): U16 { if |entries| > 0 then timeout else keepAlive }

    predicate TimerRuns() { When() != 0 && lastTouch != ZERO_TIME }

    /** (active, count, time left) of the store's timer. */
    function GetTimeout(now: Time): (bool, nat, Time)
    {
      var when := When();
      if !TimerRuns() then (false, 0, ZERO_TIME)
      else (true, |entries|, Remaining(lastTouch, when, now))
    }
  }

  /** A response can only take an entry that was fully encoded since the last unmark, it takes the
      first such entry, and it leaves the entry being encoded and everything unsent as they were. */
  lemma PopMarkedKeepsUnsent(s: StoreState, kind: Kind, packetId: U16)
    requires s.Valid()
    ensures var (t, v) := s.PopMarked(kind, packetId);
            && t.Valid() && t.entries[t.pos..] == s.entries[s.pos..] && t.capacity == s.capacity
            && (v.None? <==> forall i :: 0 <= i < s.pos ==>
                  !(s.entries[i].kind == kind && s.entries[i].value.packetId == packetId))
            && (v.Some? ==>
                  && v.value.packetId == packetId && t.Queueable() && t.pos == s.pos - 1
                  && |t.entries| == |s.entries| - 1
                  && exists i :: 0 <= i < s.pos && s.entries[i] == Entry(kind, v.value)
                                 && t.entries == s.entries[..i] + s.entries[i + 1..])
  {
    var i := s.FindFrom(0, kind, packetId);
    if i < s.pos {
      assert s.entries[i] == Entry(kind, s.entries[i].value);
      assert (s.entries[..i] + s.entries[i + 1..])[s.pos - 1..] == s.entries[s.pos..];
    }
  }

  /** The array implementation. */
  class Store {
    const entries: array<Entry>
    var count: nat
    var pos: nat
    var nextPacketId: U16
    var keepAlive: U16
    var timeout: U16
    var lastTouch: Time

    predicate Valid()
      reads this
    {
      pos <= count <= entries.Length
    }

    function Model(): (s: StoreState)
      requires Valid()
      reads this, entries
      ensures s.Valid() && |s.entries| == count
    {
      StoreState(entries[..count], pos, entries.Length, nextPacketId, keepAlive, timeout, lastTouch)
    }

    constructor (capacity: nat)
      ensures Valid() && fresh(entries)
      ensures Model() == StoreState([], 0, capacity, 0, 0, 0, ZERO_TIME)
    {
      entries := new Entry[capacity](_ => Entry(Disconnect, ZERO_VALUE));
      count, pos, nextPacketId, keepAlive, timeout, lastTouch := 0, 0, 0, 0, 0, ZERO_TIME;
    }

    method Find(kind: Kind, packetId: U16) returns (found: bool, at: nat)
      requires Valid()
      ensures var i := Model().FindFrom(0, kind, packetId);
              found == (i < pos) && at == if found then i else 0
    {
      var i := 0;
      while i < pos
        invariant i <= pos
        invariant Model().FindFrom(0, kind, packetId) == Model().FindFrom(i, kind, packetId)
      {
        if entries[i].kind == kind && entries[i].value.packetId == packetId {
          return true, i;
        }
        i := i + 1;
      }
      return false, 0;
    }

    /** Closes the gap by shifting the tail down one slot, and moves the cursor when it was after it. */
    method PopAt(at: nat) returns (ok: bool, entry: Entry)
      requires Valid()
      modifies this`count, this`pos, entries
      ensures Valid() && ok == (at < old(count))
      ensures Model() == if ok then old(Model()).PopAt(at) else old(Model())
      ensures ok ==> entry == old(entries[at])
    {
      if at >= count { return false, Entry(Disconnect, ZERO_VALUE); }
      entry := entries[at];
      count := count - 1;
      if pos > at { pos := pos - 1; }
      forall i | at <= i < count {
        entries[i] := entries[i + 1];
      }
      assert entries[..count] == old(entries[..count][..at] + entries[..count][at + 1..]);
      ok := true;
    }

    method GetId() returns (packetId: U16)
      requires Valid()
      modifies this`nextPacketId
      ensures Valid() && packetId == old(nextPacketId)
      ensures Model() == old(Model()).(nextId := (packetId + 1) % 65536)
    {
      packetId := nextPacketId;
      nextPacketId := (nextPacketId + 1) % 65536;
    }

    method Append(kind: Kind, value: Value) returns (ok: bool)
      requires Valid()
      modifies this`count, entries
      ensures Valid() && (Model(), ok) == old(Model()).Append(Entry(kind, value))
    {
      if count >= entries.Length { return false; }
      entries[count] := Entry(kind, value);
      count := count + 1;
      assert entries[..count] == old(entries[..count]) + [Entry(kind, value)];
      ok := true;
    }

    method MarkCurrent() returns (ok: bool)
      requires Valid()
      modifies this`pos
      ensures Valid() && Model() == old(Model()).Mark() && ok == old(Model()).HasCurrent()
    {
      if pos < count {
        pos := pos + 1;
        return true;
      }
      return false;
    }

    method DropCurrent()
      requires Valid()
      modifies this`count, this`pos, entries
      ensures Valid() && Model() == old(Model()).DropCurrent()
    {
      var _, _ := PopAt(pos);
    }

    method PopMarkedBy(kind: Kind, packetId: U16) returns (value: Option<Value>)
      requires Valid()
      modifies this`count, this`pos, entries
      ensures Valid() && (Model(), value) == old(Model()).PopMarked(kind, packetId)
    {
      var found, at := Find(kind, packetId);
      if found {
        var _, entry := PopAt(at);
        return Some(entry.value);
      }
      return None;
    }

    method Shift() returns (entry: Option<Entry>)
      requires Valid()
      modifies this`count, this`pos, entries
      ensures Valid()
      ensures old(count) == 0 ==> entry.None? && Model() == old(Model())
      ensures old(count) > 0 ==> entry == Some(old(entries[0])) && Model() == old(Model()).PopAt(0)
    {
      var ok, e := PopAt(0);
      return if ok then Some(e) else None;
    }

    method UnmarkAll()
      requires Valid()
      modifies this`pos
      ensures Valid() && Model() == old(Model()).Unmark()
    {
      pos := 0;
    }

    method Touch(now: Time)
      requires Valid()
      modifies this`lastTouch
      ensures Valid() && Model() == old(Model()).(lastTouch := now)
    {
      lastTouch := now;
    }

    /** Whether asking the clock would make a difference. */
    method TimerIsRunning() returns (runs: bool)
      requires Valid()
      ensures runs == Model().TimerRuns()
    {
      var when := if count > 0 then timeout else keepAlive;
      runs := when != 0 && !(lastTouch.secs == 0 && lastTouch.nsecs == 0);
    }

    method GetTimeout(now: Time) returns (active: bool, cnt: nat, left: Time)
      requires Valid()
      ensures (active, cnt, left) == Model().GetTimeout(now)
    {
      var runs := TimerIsRunning();
      if !runs { return false, 0, ZERO_TIME; }
      var when := if count > 0 then timeout else keepAlive;
      var on, secs, nsecs := GetTimeoutTo(lastTouch, when, now);
      return on, count, Time(secs, nsecs);
    }
  }
}
