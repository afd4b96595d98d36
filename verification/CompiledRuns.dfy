/** From the cards of single windows to whole runs: what the switches sense, over every
    solution of the source cards and every window of a run. */
module CompiledRuns {
  import opened Wrappers
  import opened RealMod
  import opened GateControl
  import opened GateSignal
  import opened Interleaving
  import opened Cards
  import opened Netlist

  /** The gate of `net` does not straddle the start of the window, or its carrier is
      written against ground. */
  predicate Steady(plan: Plan, drivers: map<string, Driver>, start: real, net: string)
    requires plan.period > 0.0 && net in plan.windows && net in drivers
  {
    drivers[net].reference == GROUND || !Straddles(plan.windows[net], GatePhases(plan, start, 0.0)[net], 0.0)
  }

  predicate GateAt(plan: Plan, net: string, time: real)
    requires plan.period > 0.0 && net in plan.windows
  {
    RunGateOn(plan.windows[net], if net in plan.delays then plan.delays[net] else 0.0, plan.period, time)
  }

  /** What a switch on a gate net senses at absolute time `time`, in potentials `v`. */
  function SensedGate(drivers: map<string, Driver>, net: string, v: Potentials): real
    requires net in drivers
  {
    Sensed(v, net, drivers[net].reference)
  }

  function GateVoltage(plan: Plan, drivers: map<string, Driver>, net: string, time: real): real
    requires plan.period > 0.0 && net in plan.windows && net in drivers
  {
    High(drivers[net].amplitude, GateAt(plan, net, time))
  }

  /** Compiler and renderer together: under any accepted declaration, in any window and
      any solution of its cards, a switch senses the gate of the unbroken run, lifted by
      twice the potential of its reference when the gate straddles the window start. */
  lemma CompiledNetSenses(declaration: Declaration, plan: Plan, duty: real, cards: seq<Card>, drivers: map<string, Driver>,
                          start: real, net: string, time: real, v: Potentials)
    requires Readable(declaration) && 0.0 <= duty <= 1.0 && Shaped(declaration, plan, duty)
    requires CompiledFor(cards, plan, drivers, start, 0.0) && Solves(cards, v, time - start)
    requires net in plan.windows && start <= time
    ensures DriverCount(cards, net) == 1
    ensures SensedGate(drivers, net, v) == GateVoltage(plan, drivers, net, time)
      + if Straddles(plan.windows[net], GatePhases(plan, start, 0.0)[net], 0.0)
        then v(drivers[net].reference) + v(drivers[net].reference) else 0.0
  {
    PlannedWindowsFit(declaration, plan, duty, net);
    SensesAt(plan, cards, drivers, start, net, time, v);
  }

  lemma SensesAt(plan: Plan, cards: seq<Card>, drivers: map<string, Driver>, start: real, net: string, time: real, v: Potentials)
    requires CompiledFor(cards, plan, drivers, start, 0.0) && Solves(cards, v, time - start)
    requires net in plan.windows && start <= time && Fits(plan.windows[net], plan.period)
    ensures DriverCount(cards, net) == 1
    ensures SensedGate(drivers, net, v) == GateVoltage(plan, drivers, net, time)
      + if Straddles(plan.windows[net], GatePhases(plan, start, 0.0)[net], 0.0)
        then v(drivers[net].reference) + v(drivers[net].reference) else 0.0
  {
    var w, phase, d := plan.windows[net], GatePhases(plan, start, 0.0)[net], drivers[net];
    SolvedIsRunGate(w, Delay(plan, net), plan.period, start, time);
    assert Level(w, phase, plan.period, 0.0, time - start) == Bit(GateAt(plan, net, time));
    HighsAdd(d.amplitude, GateAt(plan, net, time), false);
    assert GateCarried(cards, net, d, w, phase, plan.period, 0.0);
    hide Level; hide GateAt; hide Solves; hide Laid; hide Straddles; hide Amplitudes; hide SwitchesFit;
    Carried(cards, net, d, w, phase, plan.period, 0.0, v, time - start);
  }

  lemma SteadySenses(plan: Plan, cards: seq<Card>, drivers: map<string, Driver>, start: real, net: string, time: real, v: Potentials)
    requires CompiledFor(cards, plan, drivers, start, 0.0) && Solves(cards, v, time - start)
    requires net in plan.windows && start <= time && Fits(plan.windows[net], plan.period)
    requires Steady(plan, drivers, start, net)
    ensures DriverCount(cards, net) == 1 && SensedGate(drivers, net, v) == GateVoltage(plan, drivers, net, time)
  {
    SensesAt(plan, cards, drivers, start, net, time, v);
    assert v(GROUND) == 0.0;
    hide GateVoltage; hide SensedGate; hide CompiledFor; hide Solves; hide Straddles;
  }

  /** At every later instant, wherever the reference of a floating gate that straddles
      the window start stands: all of it comes on top, twice. */
  lemma FloatingGateLifted(plan: Plan, cards: seq<Card>, drivers: map<string, Driver>, start: real, net: string, time: real, x: real)
    returns (v: Potentials)
    requires CompiledFor(cards, plan, drivers, start, 0.0) && GROUND !in plan.windows
    requires net in plan.windows && start <= time && Fits(plan.windows[net], plan.period)
    requires net in drivers && !Steady(plan, drivers, start, net)
    ensures Solves(cards, v, time - start) && v(drivers[net].reference) == x
    ensures SensedGate(drivers, net, v) == GateVoltage(plan, drivers, net, time) + x + x
  {
    var w, phase, d := plan.windows[net], GatePhases(plan, start, 0.0)[net], drivers[net];
    assert GateCarried(cards, net, d, w, phase, plan.period, 0.0);
    assert d.reference != GROUND && Undriven(cards, d.reference);
    v := ReferenceAt(cards, net, d, w, phase, plan.period, 0.0, x, time - start);
    hide Solves; hide GateVoltage; hide SensedGate; hide CompiledFor;
    SensesAt(plan, cards, drivers, start, net, time, v);
  }

  /** Main result: over the window, at every instant and in every solution, the switch
      senses exactly the run's gate if and only if the gate's carrier is written against
      ground or the gate does not straddle the window start. */
  lemma CompiledNetCarriesRunGateIff(declaration: Declaration, plan: Plan, duty: real, cards: seq<Card>,
                                     drivers: map<string, Driver>, start: real, net: string)
    requires Readable(declaration) && 0.0 <= duty <= 1.0 && Shaped(declaration, plan, duty)
    requires CompiledFor(cards, plan, drivers, start, 0.0) && net in plan.windows && GROUND !in plan.windows
    ensures net in drivers
    ensures (forall time: real, v: Potentials | start <= time && Solves(cards, v, time - start) ::
              SensedGate(drivers, net, v) == GateVoltage(plan, drivers, net, time))
       <==> Steady(plan, drivers, start, net)
  {
    PlannedWindowsFit(declaration, plan, duty, net);
    hide Solves; hide GateVoltage; hide SensedGate; hide Steady; hide Shaped;
    if Steady(plan, drivers, start, net) {
      forall time: real, v: Potentials | start <= time && Solves(cards, v, time - start)
        ensures SensedGate(drivers, net, v) == GateVoltage(plan, drivers, net, time)
      {
        SteadySenses(plan, cards, drivers, start, net, time, v);
      }
    } else {
      hide CompiledFor;
      var v := FloatingGateLifted(plan, cards, drivers, start, net, start, 1.0);
      assert SensedGate(drivers, net, v) != GateVoltage(plan, drivers, net, start);
    }
  }

  /** A switch is closed above its threshold. */
  predicate Closed(drivers: map<string, Driver>, net: string, threshold: real, v: Potentials)
    requires net in drivers
  {
    SensedGate(drivers, net, v) > threshold
  }

  /** For any threshold below the amplitude, the switch is closed just while the run's
      gate is on, under the same condition and no other. */
  lemma SwitchFollowsGateIff(declaration: Declaration, plan: Plan, duty: real, cards: seq<Card>,
                             drivers: map<string, Driver>, start: real, net: string, threshold: real)
    requires Readable(declaration) && 0.0 <= duty <= 1.0 && Shaped(declaration, plan, duty)
    requires CompiledFor(cards, plan, drivers, start, 0.0) && net in plan.windows && GROUND !in plan.windows
    requires net in drivers && 0.0 <= threshold < drivers[net].amplitude
    ensures (forall time: real, v: Potentials | start <= time && Solves(cards, v, time - start) ::
              Closed(drivers, net, threshold, v) <==> GateAt(plan, net, time))
       <==> Steady(plan, drivers, start, net)
  {
    PlannedWindowsFit(declaration, plan, duty, net);
    hide Solves; hide GateAt; hide SensedGate; hide Steady; hide Shaped; hide CompiledFor;
    if Steady(plan, drivers, start, net) {
      forall time: real, v: Potentials | start <= time && Solves(cards, v, time - start)
        ensures Closed(drivers, net, threshold, v) <==> GateAt(plan, net, time)
      {
        SteadySenses(plan, cards, drivers, start, net, time, v);
      }
    } else {
      var x := if GateAt(plan, net, start) then -drivers[net].amplitude else drivers[net].amplitude;
      var v := FloatingGateLifted(plan, cards, drivers, start, net, start, x);
      assert Closed(drivers, net, threshold, v) != GateAt(plan, net, start);
    }
  }

  /** Some window of a run always straddles, unless the gate is never on: a floating
      carrier is safe in every window only then. */
  lemma SteadyEverywhereIff(plan: Plan, drivers: map<string, Driver>, net: string)
    requires plan.period > 0.0 && net in plan.windows && net in drivers && Fits(plan.windows[net], plan.period)
    ensures (forall start: real :: Steady(plan, drivers, start, net))
       <==> drivers[net].reference == GROUND || plan.windows[net].stop <= plan.windows[net].start
  {
    var w, delay := plan.windows[net], Delay(plan, net);
    if drivers[net].reference != GROUND && w.start < w.stop {
      var middle := (w.start + w.stop) / 2.0;
      PhaseAtMiddle(middle, delay, plan.period);
      assert !Steady(plan, drivers, middle + delay, net);
    }
  }

  lemma PhaseAtMiddle(middle: real, delay: real, period: real)
    requires 0.0 < middle < period
    ensures GatePhase(middle + delay, delay, period, 0.0) == middle
  {
    var x := middle + delay;
    NormalPhaseNormalised(x, period, 0.0);
    NormalPhaseNormalised(Mod(x, period) - delay, period, 0.0);
    var k := Turns(x, period);
    assert Mod(x, period) == x - Whole(k, period);
    WholeSum(k, -k, period);
    ModUnique(Mod(x, period) - delay, period, -k, middle);
  }

  /** `leg` is one of the complementary pairs the plan drives, dead time included. */
  ghost predicate IsLeg(declaration: Declaration, plan: Plan, leg: Leg, duty: real, deadTime: real) {
    match declaration
    case Complementary(declared) => declared == deadTime && PairOnly(plan, leg, duty, deadTime)
    case Paired(_, declared, shift) => declared == deadTime && exists k: nat :: LegPlanned(plan, leg, k, duty, deadTime, shift)
    case _ => false
  }

  /** The two switches of every leg keep the declared dead time over the whole run,
      whatever two windows the two instants fall in and whatever the potentials are,
      where both gates are steady. */
  lemma CompiledLegsKeepDeadTime(declaration: Declaration, plan: Plan, duty: real, leg: Leg, deadTime: real,
                                 drivers: map<string, Driver>, threshold: real,
                                 cardsHigh: seq<Card>, startHigh: real, timeHigh: real, v: Potentials,
                                 cardsLow: seq<Card>, startLow: real, timeLow: real, u: Potentials)
    requires Readable(declaration) && 0.0 <= duty <= 1.0 && Shaped(declaration, plan, duty)
    requires IsLeg(declaration, plan, leg, duty, deadTime) && threshold >= 0.0
    requires CompiledFor(cardsHigh, plan, drivers, startHigh, 0.0) && startHigh <= timeHigh
    requires CompiledFor(cardsLow, plan, drivers, startLow, 0.0) && startLow <= timeLow
    requires Steady(plan, drivers, startHigh, leg.high) && Steady(plan, drivers, startLow, leg.low)
    requires Solves(cardsHigh, v, timeHigh - startHigh) && Closed(drivers, leg.high, threshold, v)
    requires Solves(cardsLow, u, timeLow - startLow) && Closed(drivers, leg.low, threshold, u)
    ensures Abs(timeHigh - timeLow) >= deadTime
  {
    hide Solves; hide GateOn; hide CompiledFor; hide Steady; hide SensedGate;
    PlannedWindowsFit(declaration, plan, duty, leg.high);
    PlannedWindowsFit(declaration, plan, duty, leg.low);
    SteadySenses(plan, cardsHigh, drivers, startHigh, leg.high, timeHigh, v);
    SteadySenses(plan, cardsLow, drivers, startLow, leg.low, timeLow, u);
    DeadTimeSeparation(duty, duty, plan.period, deadTime, Delay(plan, leg.high), timeHigh, timeLow);
  }

  /** Closed switches over the first `k` phase nets together. */
  ghost function ClosedCount(drivers: map<string, Driver>, order: seq<string>, k: nat, threshold: real, v: Potentials): nat
    requires k <= |order| && forall net | net in order :: net in drivers
  {
    if k == 0 then 0
    else ClosedCount(drivers, order, k - 1, threshold, v) + Bit(Closed(drivers, order[k - 1], threshold, v))
  }

  /** Every phase is steady and its amplitude above the threshold. */
  ghost predicate PhasesSteady(plan: Plan, drivers: map<string, Driver>, order: seq<string>, start: real, threshold: real)
    requires plan.period > 0.0
  {
    forall net | net in order ::
      net in plan.windows && net in drivers && Steady(plan, drivers, start, net) && threshold < drivers[net].amplitude
  }

  lemma {:induction false} CompiledPhasesCounted(cards: seq<Card>, plan: Plan, drivers: map<string, Driver>, order: seq<string>,
                                                 duty: real, start: real, time: real, threshold: real, v: Potentials, k: nat)
    requires InterleavedPlan(plan, order, duty) && 0.0 <= duty <= 1.0 && 0.0 <= threshold
    requires CompiledFor(cards, plan, drivers, start, 0.0) && start <= time && k <= |order|
    requires PhasesSteady(plan, drivers, order, start, threshold) && Solves(cards, v, time - start)
    ensures ClosedCount(drivers, order, k, threshold, v) == CountOn(plan, order, k, time)
  {
    if k > 0 {
      var net := order[k - 1];
      assert net in order;
      CompiledPhasesCounted(cards, plan, drivers, order, duty, start, time, threshold, v, k - 1);
      assert PhasePlanned(plan, order, k - 1, duty);
      WindowsFit(duty, plan.period, 0.0);
      SteadySenses(plan, cards, drivers, start, net, time, v);
    }
  }

  /** The balance on what the switches sense: at every instant of every window and in
      every solution, `phases * duty` switches are closed, rounded down or up. */
  lemma CompiledPhasesBalanced(cards: seq<Card>, plan: Plan, drivers: map<string, Driver>, order: seq<string>, duty: real,
                               start: real, time: real, threshold: real, v: Potentials)
    requires InterleavedPlan(plan, order, duty) && 0.0 <= duty <= 1.0 && 0.0 <= threshold
    requires CompiledFor(cards, plan, drivers, start, 0.0) && start <= time
    requires PhasesSteady(plan, drivers, order, start, threshold) && Solves(cards, v, time - start)
    ensures var on := ClosedCount(drivers, order, |order|, threshold, v);
      on == (|order| as real * duty).Floor || on == -(-(|order| as real * duty)).Floor
  {
    CompiledPhasesCounted(cards, plan, drivers, order, duty, start, time, threshold, v, |order|);
    InterleavingBalanced(plan, order, duty, time);
  }

  /** The record of first rises names exactly the gates that ever turn on in the
      window, each with the least time at which its carrier reaches its start. */
  lemma FirstRisesMean(declaration: Declaration, plan: Plan, duty: real, start: real, net: string)
    requires Readable(declaration) && 0.0 <= duty <= 1.0 && Shaped(declaration, plan, duty) && net in plan.windows
    ensures var phase, w := GatePhases(plan, start, 0.0)[net], plan.windows[net];
      var rises := FirstRises(plan, GatePhases(plan, start, 0.0), 0.0);
      && (net in rises <==> TurnsOn(w, phase, plan.period))
      && (net in rises ==> LeastStart(w, phase, plan.period, rises[net]))
  {
    PlannedWindowsFit(declaration, plan, duty, net);
    hide Shaped; hide Readable; hide NormalPhase; hide Mod; hide Tolerance;
    NormalPhaseNormalised(NormalPhase(start, plan.period, 0.0) - Delay(plan, net), plan.period, 0.0);
    TurnsOnIff(plan.windows[net], GatePhases(plan, start, 0.0)[net], plan.period);
  }
}
