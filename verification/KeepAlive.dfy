/** When the timer acts, in seconds and nanoseconds. */
module KeepAlive {
  import opened Types
  import opened Clock
  import opened PacketStore
  import opened Session
  import opened SessionInvariant

  /** Something was queued, and `timeout` seconds went by without traffic. */
  predicate ResponseOverdue(s: StoreState, now: Time)
  {
    && s.entries != [] && s.timeout != 0 && s.lastTouch != Time(0, 0)
    && Nanos(s.lastTouch) + s.timeout * NANOS <= Nanos(now)
  }

  /** Nothing was queued, and `keepAlive` seconds went by without traffic. */
  predicate LineIdle(s: StoreState, now: Time)
  {
    && s.entries == [] && s.keepAlive != 0 && s.lastTouch != Time(0, 0)
    && Nanos(s.lastTouch) + s.keepAlive * NANOS <= Nanos(now)
  }

  function CurrentStore(c: Client): StoreState { if c.current.Main? then c.main else c.conn }

  lemma ZeroIsNothingLeft(t: Time)
    requires Normal(t)
    ensures t == Time(0, 0) <==> Nanos(t) == 0
  {
  }

  /** The timer of a store has run out exactly when its time has passed. */
  lemma TimerRunsOut(s: StoreState, now: Time)
    requires Normal(s.lastTouch) && Normal(now)
    ensures var (active, count, left) := s.GetTimeout(now);
            && (active && left == ZERO_TIME && count > 0 <==> ResponseOverdue(s, now))
            && (active && left == ZERO_TIME && count == 0 <==> LineIdle(s, now))
  {
    var when := s.When();
    RemainingIsExact(s.lastTouch, when, now);
    ZeroIsNothingLeft(Remaining(s.lastTouch, when, now));
  }

  /** What the keep-alive check does: a response that is overdue fails the client with `Timeout`; a connected
      client on an idle line queues one PINGREQ, if there is a place; otherwise nothing changes. */
  lemma WhenTimerActs(c: Client, now: Time)
    requires Inv(c) && Normal(CurrentStore(c).lastTouch) && Normal(now)
    ensures var d, s := KeepAliveStep(c, now), CurrentStore(c);
            && (c.error.None? ==> (d.error == Some(Timeout) <==> ResponseOverdue(s, now)))
            && (if c.error.Some? then d == c
                else if ResponseOverdue(s, now) then
                  d == c.(error := Some(Timeout), closed := true, slots :=
                    Slots(false, false, false, false, false, false))
                else if IsConnected(c) && LineIdle(c.main, now) && |c.main.entries| < c.main.capacity then
                  d == c.(main := c.main.(entries := [Entry(Pingreq, Value(0, 0, NoBody))]))
                else d == c)
  {
    hide Inv, StoreState.GetTimeout, ResponseOverdue, LineIdle, IsConnected;
    SlotsTellPhase(c);
    ConnectedSlots(c);
    var s := StoreOf(c, c.current);
    assert s == CurrentStore(c);
    TimerRunsOut(s, now);
    OverdueIsNotIdle(s, now);
    var (active, count, left) := s.GetTimeout(now);
    if c.error.None? && !ResponseOverdue(s, now) {
      if !IsConnected(c) {
        assert !c.slots.pingreq && KeepAliveStep(c, now) == c;
      } else if !LineIdle(c.main, now) {
        assert KeepAliveStep(c, now) == c;
      } else {
        PingQueued(c);
      }
    }
  }

  lemma ConnectedSlots(c: Client)
    ensures IsConnected(c) ==> c.slots.pingreq && c.current.Main?
  {
  }

  lemma PingQueued(c: Client)
    ensures c.main.entries == [] ==>
              Accept(c, Entry(Pingreq, ZERO_VALUE)).0
              == if |c.main.entries| < c.main.capacity
                then c.(main := c.main.(entries := [Entry(Pingreq, Value(0, 0, NoBody))]))
                 else c
  {
  }

  lemma OverdueIsNotIdle(s: StoreState, now: Time)
    ensures !(ResponseOverdue(s, now) && LineIdle(s, now)) && (LineIdle(s, now) ==> s.entries == [])
  {
  }
}
