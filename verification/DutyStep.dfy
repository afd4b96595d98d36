/** One complementary leg whose commanded duty changes once, at any time: exactly when
    its dead time survives the change. */
module DutyStep {
  import opened Wrappers
  import opened RealMod
  import opened GateControl
  import opened GateSignal

  /** A leg with a duty before an instant and another from it on. */
  datatype SteppedLeg = SteppedLeg(before: real, after: real, change: real, period: real, deadTime: real, delay: real) {
    ghost predicate Valid() {
      && period > 0.0 && 0.0 <= deadTime < period / 2.0
      && 0.0 <= before <= 1.0 && 0.0 <= after <= 1.0
    }

    function Duty(time: real): real { if time < change then before else after }
  }

  predicate HighOn(leg: SteppedLeg, time: real)
    requires leg.period > 0.0
  {
    RunGateOn(HighWindow(leg.Duty(time), leg.period, leg.deadTime), leg.delay, leg.period, time)
  }

  predicate LowOn(leg: SteppedLeg, time: real)
    requires leg.period > 0.0
  {
    RunGateOn(LowWindow(leg.Duty(time), leg.period, leg.deadTime), leg.delay, leg.period, time)
  }

  ghost predicate KeepsDeadTime(leg: SteppedLeg)
    requires leg.period > 0.0
  {
    forall high, low | HighOn(leg, high) && LowOn(leg, low) :: Abs(high - low) >= leg.deadTime
  }

  /** The high gate was on and the low gate comes on less than the dead time later;
      `c` is where in the cycle the change falls, `h1` and `h2` are the high gate's
      widths before and after. */
  predicate LowTooSoon(c: real, h1: real, h2: real, period: real, deadTime: real) {
    && 0.0 < h1 && 0.0 < c
    && h2 + deadTime < period - deadTime && c < period - deadTime
    && Max(c, h2 + deadTime) - Min(c, h1) < deadTime
  }

  /** The low gate was on and the change turns the high gate on again. */
  predicate HighTooSoon(c: real, h1: real, h2: real, deadTime: real) {
    0.0 < deadTime && h1 + deadTime < c < h2
  }

  function Place(leg: SteppedLeg): real
    requires leg.period > 0.0
  {
    Mod(leg.change - leg.delay, leg.period)
  }

  function WidthBefore(leg: SteppedLeg): real { HighWidth(leg.before, leg.period, leg.deadTime) }

  function WidthAfter(leg: SteppedLeg): real { HighWidth(leg.after, leg.period, leg.deadTime) }

  /** Main result: over the whole run the two gates keep the dead time exactly when the
      change falls on neither of the two places in the cycle. */
  lemma ChangeKeepsDeadTimeIff(leg: SteppedLeg)
    requires leg.Valid()
    ensures KeepsDeadTime(leg) <==>
      && !LowTooSoon(Place(leg), WidthBefore(leg), WidthAfter(leg), leg.period, leg.deadTime)
      && !HighTooSoon(Place(leg), WidthBefore(leg), WidthAfter(leg), leg.deadTime)
  {
    hide KeepsDeadTime;
    if LowTooSoon(Place(leg), WidthBefore(leg), WidthAfter(leg), leg.period, leg.deadTime) {
      LowWitness(leg);
    } else if HighTooSoon(Place(leg), WidthBefore(leg), WidthAfter(leg), leg.deadTime) {
      HighWitness(leg);
    } else {
      Kept(leg);
    }
  }

  /** A change between two cycles is never in such a place. */
  lemma ChangeBetweenCyclesIsSafe(leg: SteppedLeg)
    requires leg.Valid() && Place(leg) == 0.0
    ensures KeepsDeadTime(leg)
  {
    ChangeKeepsDeadTimeIff(leg);
  }

  lemma Kept(leg: SteppedLeg)
    requires leg.Valid()
    requires !LowTooSoon(Place(leg), WidthBefore(leg), WidthAfter(leg), leg.period, leg.deadTime)
    requires !HighTooSoon(Place(leg), WidthBefore(leg), WidthAfter(leg), leg.deadTime)
    ensures KeepsDeadTime(leg)
  {
    forall high, low | HighOn(leg, high) && LowOn(leg, low) ensures Abs(high - low) >= leg.deadTime {
      if leg.Duty(high) == leg.Duty(low)
        || Turns(high - leg.delay, leg.period) != Turns(low - leg.delay, leg.period) {
        DeadTimeSeparation(leg.Duty(high), leg.Duty(low), leg.period, leg.deadTime, leg.delay, high, low);
      } else {
        AcrossChange(leg, high, low);
      }
    }
  }

  /** Two instants of one cycle on the two sides of the change. */
  lemma AcrossChange(leg: SteppedLeg, high: real, low: real)
    requires leg.Valid() && HighOn(leg, high) && LowOn(leg, low)
    requires (high < leg.change) != (low < leg.change)
    requires Turns(high - leg.delay, leg.period) == Turns(low - leg.delay, leg.period)
    requires !LowTooSoon(Place(leg), WidthBefore(leg), WidthAfter(leg), leg.period, leg.deadTime)
    requires !HighTooSoon(Place(leg), WidthBefore(leg), WidthAfter(leg), leg.deadTime)
    ensures Abs(high - low) >= leg.deadTime
  {
    var x, y, z := high - leg.delay, leg.change - leg.delay, low - leg.delay;
    if high < low { TurnsBetween(x, y, z, leg.period); } else { TurnsBetween(z, y, x, leg.period); }
    ModRange(x, leg.period);
    ModRange(y, leg.period);
    ModRange(z, leg.period);
    WithinCycle(Mod(x, leg.period), Mod(z, leg.period), Place(leg), WidthBefore(leg), WidthAfter(leg), leg.period, leg.deadTime);
  }

  lemma WithinCycle(h: real, l: real, c: real, h1: real, h2: real, period: real, deadTime: real)
    requires 0.0 <= h && 0.0 <= l && 0.0 <= deadTime
    requires !LowTooSoon(c, h1, h2, period, deadTime) && !HighTooSoon(c, h1, h2, deadTime)
    requires (h < c) != (l < c)
    requires h < (if h < c then h1 else h2)
    requires (if l < c then h1 else h2) + deadTime <= l < period - deadTime
    ensures Abs(h - l) >= deadTime
  {}

  lemma TurnsBetween(x: real, y: real, z: real, period: real)
    requires period > 0.0 && x <= y <= z && Turns(x, period) == Turns(z, period)
    ensures Turns(y, period) == Turns(x, period)
  {
    ModRange(x, period);
    ModRange(y, period);
    ModRange(z, period);
    WholeApart(Turns(x, period), Turns(y, period), period);
  }

  /** Time at a place in the cycle of the change. */
  function At(leg: SteppedLeg, place: real): real
    requires leg.period > 0.0
  {
    leg.change - Place(leg) + place
  }

  lemma AtPlace(leg: SteppedLeg, place: real)
    requires leg.period > 0.0 && 0.0 <= place < leg.period
    ensures Mod(At(leg, place) - leg.delay, leg.period) == place
    ensures At(leg, place) < leg.change <==> place < Place(leg)
  {
    var q := Turns(leg.change - leg.delay, leg.period);
    ModUnique(At(leg, place) - leg.delay, leg.period, q, place);
  }

  /** The width in force at a place in the cycle of the change. */
  function WidthAt(leg: SteppedLeg, place: real): real
    requires leg.period > 0.0
  {
    if place < Place(leg) then WidthBefore(leg) else WidthAfter(leg)
  }

  lemma GatesAt(leg: SteppedLeg, place: real)
    requires leg.period > 0.0 && 0.0 <= place < leg.period
    ensures HighOn(leg, At(leg, place)) <==> place < WidthAt(leg, place)
    ensures LowOn(leg, At(leg, place)) <==> WidthAt(leg, place) + leg.deadTime <= place < leg.period - leg.deadTime
  {
    AtPlace(leg, place);
    hide Turns; hide Whole; hide Mod; hide HighWidth;
    assert At(leg, place) + -leg.delay == At(leg, place) - leg.delay;
  }

  lemma TooClose(leg: SteppedLeg, h: real, l: real)
    requires leg.period > 0.0 && 0.0 <= h < WidthAt(leg, h) && h < leg.period && 0.0 <= l
    requires WidthAt(leg, l) + leg.deadTime <= l < leg.period - leg.deadTime < leg.period
    requires Abs(h - l) < leg.deadTime
    ensures !KeepsDeadTime(leg)
  {
    GatesAt(leg, h);
    GatesAt(leg, l);
    hide HighOn; hide LowOn; hide WidthAt; hide Place;
    assert HighOn(leg, At(leg, h)) && LowOn(leg, At(leg, l)) && Abs(At(leg, h) - At(leg, l)) < leg.deadTime;
  }

  lemma LowWitness(leg: SteppedLeg)
    requires leg.Valid() && LowTooSoon(Place(leg), WidthBefore(leg), WidthAfter(leg), leg.period, leg.deadTime)
    ensures !KeepsDeadTime(leg)
  {
    var c, h1, h2, dt := Place(leg), WidthBefore(leg), WidthAfter(leg), leg.deadTime;
    hide Place; hide WidthBefore; hide WidthAfter; hide KeepsDeadTime;
    var l, end := Max(c, h2 + dt), Min(c, h1);
    var h := if l < dt then 0.0 else (l - dt + end) / 2.0;
    TooClose(leg, h, l);
  }

  lemma WidthFits(duty: real, period: real, deadTime: real)
    requires 0.0 <= duty <= 1.0 && 0.0 <= deadTime < period / 2.0
    ensures 0.0 <= HighWidth(duty, period, deadTime) <= period - deadTime
  {
    Share(duty, period, duty * period);
  }

  lemma HighWitness(leg: SteppedLeg)
    requires leg.Valid() && HighTooSoon(Place(leg), WidthBefore(leg), WidthAfter(leg), leg.deadTime)
    ensures !KeepsDeadTime(leg)
  {
    var c, h1, dt := Place(leg), WidthBefore(leg), leg.deadTime;
    WidthFits(leg.before, leg.period, dt);
    WidthFits(leg.after, leg.period, dt);
    hide HighWidth; hide Place; hide KeepsDeadTime; hide Mod;
    TooClose(leg, c, Max(h1 + dt, c - dt / 2.0));
  }
}
