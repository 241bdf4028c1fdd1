/** Timeouts: how long until `when` seconds after a recorded moment. */
module Clock {
  import opened Types

  const NANOS := 1_000_000_000

  datatype Time = Time(secs: int, nsecs: int)

  const ZERO_TIME := Time(0, 0)

  function Nanos(t: Time): int { t.secs * NANOS + t.nsecs }

  predicate Normal(t: Time) { 0 <= t.nsecs < NANOS }

  function Remaining(tm: Time, when: U16, now: Time): Time
  {
    var secs := tm.secs + when - (if tm.nsecs < now.nsecs then 1 else 0);
    var nsecs := tm.nsecs + (if tm.nsecs < now.nsecs then NANOS else 0);
    if now.secs <= secs then Time(secs - now.secs, nsecs - now.nsecs) else ZERO_TIME
  }

  /** The remainder is exactly the time left, and zero once it has passed. */
  lemma RemainingIsExact(tm: Time, when: U16, now: Time)
    requires Normal(tm) && Normal(now)
    ensures Normal(Remaining(tm, when, now))
    ensures var left := Nanos(tm) + when * NANOS - Nanos(now);
            Nanos(Remaining(tm, when, now)) == if left >= 0 then left else 0
  {
  }

  method GetTimeoutTo(tm: Time, when: U16, now: Time) returns (active: bool, secs: int, nsecs: int)
    ensures active == (when != 0)
    ensures Time(secs, nsecs) == if when == 0 then ZERO_TIME else Remaining(tm, when, now)
  {
    if when == 0 { return false, 0, 0; }
    var tmoSecs := tm.secs + when;
    var tmoNsecs := tm.nsecs;
    if tmoNsecs < now.nsecs {
      tmoNsecs := tmoNsecs + NANOS;
      tmoSecs := tmoSecs - 1;
    }
    if now.secs <= tmoSecs {
      nsecs := tmoNsecs - now.nsecs;
      secs := tmoSecs - now.secs;
    } else {
      nsecs := 0;
      secs := 0;
    }
    active := true;
  }
}
