/** `clock.ManualClock`: a controllable clock for tests. Its one field is the current time,
    overwritten by `Set`, advanced by `Add` and read by `Now`. */
module Clock {

  class ManualClock {
    /** The current time, in nanoseconds. */
    var now: int

    /** `NewManualClock(start)`. */
    constructor (start: int)
      ensures now == start
    {
      now := start;
    }

    /** Reads the time; a method without a `modifies` clause, so it leaves the time as it was. */
    method Now() returns (t: int)
      ensures t == now
    {
      t := now;
    }

    method Set(t: int)
      modifies this
      ensures now == t
    {
      now := t;
    }

    /** Advances (or, for a negative duration, rewinds) the clock by `d` nanoseconds. */
    method Add(d: int)
      modifies this
      ensures now == old(now) + d
    {
      now := now + d;
    }
  }

  /** The scenario of the clock's unit test: start, set ten minutes later, add five seconds. */
  method NowSetAddScenario(start: int)
  {
    var c := new ManualClock(start);
    var t := c.Now();
    assert t == start;
    var next := start + 10 * 60 * 1_000_000_000;
    c.Set(next);
    t := c.Now();
    assert t == next;
    c.Add(5 * 1_000_000_000);
    t := c.Now();
    assert t == next + 5 * 1_000_000_000;
  }
}
