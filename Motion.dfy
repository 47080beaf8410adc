/**
 * The chaser's position and direction, and how one tick of the main loop
 * moves them: advance by the direction, and bounce (negate the direction)
 * exactly when the new position is the first or the last cell.
 */
module Motion {
  import opened Pixels

  /** The pair of globals `current_pixel` and `direction`. */
  datatype Chase = Chase(pos: int, dir: int)

  /** The state at power-on and after every wipe. */
  const Start: Chase := Chase(0, 1)

  /**
   * The states the chaser can be in between ticks: on the strip, moving by
   * one cell, and moving inward when it sits on an end cell.
   */
  predicate Bounded(s: Chase)
  {
    0 <= s.pos <= Last && (s.dir == 1 || s.dir == -1) &&
    (s.pos == 0 ==> s.dir == 1) && (s.pos == Last ==> s.dir == -1)
  }

  /** One tick of the chaser when the button is not pressed. */
  function StepState(s: Chase): (r: Chase)
    ensures r.pos == s.pos + s.dir
    ensures r.dir == s.dir || r.dir == -s.dir
    ensures (s.dir == 1 || s.dir == -1) ==>
      (r.dir != s.dir <==> r.pos == 0 || r.pos == Last)
    ensures Bounded(s) ==> Bounded(r)
  {
    var p := s.pos + s.dir;
    if p == Last || p == 0 then Chase(p, s.dir * -1) else Chase(p, s.dir)
  }

  /** `n` ticks in a row. */
  function StepN(s: Chase, n: nat): Chase
    decreases n
  {
    if n == 0 then s else StepN(StepState(s), n - 1)
  }

  /** A flip is never followed directly by another flip. */
  lemma NoDoubleFlip(s: Chase)
    requires Bounded(s) && StepState(s).dir != s.dir
    ensures StepState(StepState(s)).dir == StepState(s).dir
  {
  }

  lemma {:induction false} StepNBounded(s: Chase, n: nat)
    requires Bounded(s)
    ensures Bounded(StepN(s, n))
    decreases n
  {
    if n > 0 {
      StepNBounded(StepState(s), n - 1);
    }
  }

  lemma {:induction false} StepNAdd(s: Chase, a: nat, b: nat)
    ensures StepN(s, a + b) == StepN(StepN(s, a), b)
    decreases a
  {
    if a > 0 {
      StepNAdd(StepState(s), a - 1, b);
    }
  }

  /** From the start the chaser climbs one cell per tick and turns on the last cell. */
  lemma {:induction false} RisingRun(k: nat)
    requires k <= Last
    ensures StepN(Start, k) == Chase(k, if k == Last then -1 else 1)
  {
    if k > 0 {
      RisingRun(k - 1);
      StepNAdd(Start, k - 1, 1);
    }
  }

  /** From the last cell the chaser descends one cell per tick and turns on cell 0. */
  lemma {:induction false} FallingRun(k: nat)
    requires k <= Last
    ensures StepN(Chase(Last, -1), k) == Chase(Last - k, if k == Last then 1 else -1)
  {
    if k > 0 {
      FallingRun(k - 1);
      StepNAdd(Chase(Last, -1), k - 1, 1);
    }
  }

  /** After `Last` (16) ticks from the start the chaser is on the last cell, heading back. */
  lemma HalfPeriod()
    ensures StepN(Start, Last) == Chase(Last, -1)
  {
    RisingRun(Last);
  }

  /** After `2 * Last` (32) ticks from the start the chaser is back at the start. */
  lemma Period()
    ensures StepN(Start, 2 * Last) == Start
  {
    StepNAdd(Start, Last, Last);
    RisingRun(Last);
    FallingRun(Last);
  }

  /** How many ticks from the start it takes to reach `s`. */
  function Phase(s: Chase): nat
    requires Bounded(s)
  {
    if s.dir == 1 then s.pos else 2 * Last - s.pos
  }

  /** Every bounded state is reached from the start, within one period. */
  lemma Reachable(s: Chase)
    requires Bounded(s)
    ensures Phase(s) < 2 * Last
    ensures StepN(Start, Phase(s)) == s
  {
    if s.dir == 1 {
      RisingRun(s.pos);
    } else {
      StepNAdd(Start, Last, Last - s.pos);
      RisingRun(Last);
      FallingRun(Last - s.pos);
    }
  }

  /** Whatever bounded state the chaser is in, 32 ticks bring it back there. */
  lemma PeriodFromAnywhere(s: Chase)
    requires Bounded(s)
    ensures StepN(s, 2 * Last) == s
  {
    var k := Phase(s);
    Reachable(s);
    StepNAdd(Start, k, 2 * Last);
    StepNAdd(Start, 2 * Last, k);
    Period();
  }
}
