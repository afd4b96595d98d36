/** From one commanded duty and a declared control relation to one on-window per
    gate: the control branches of the compiler. */
module GateControl {
  import opened Wrappers
  import opened RealMod

  /** On-interval `[start, stop)` measured inside one switching cycle. */
  datatype Window = Window(start: real, stop: real)

  /** `delays` holds only the gates that start later than the base carrier. */
  datatype Plan = Plan(windows: map<string, Window>, period: real, delays: map<string, real>)

  datatype Switch = Switch(id: string, control: string, input: string, output: string)

  /** The two carrier parameters the control branches read; `None` is undeclared. */
  datatype Carrier = Carrier(frequency: Option<real>, deadTime: Option<real>)

  datatype Declaration =
    | Undeclared
    | Complementary(deadTime: real)
    | Interleaved(phases: nat, order: Option<seq<string>>)
    | Paired(pairs: seq<(string, string)>, deadTime: real, shift: real)

  datatype Code =
    | InvalidDuty
    | MultipleActuators
    | MultipleCarriers
    | NoCarrier
    | MissingParameter
    | InvalidParameter
    | InvalidControlDeclaration
    | AmbiguousComplementaryControl
    | AmbiguousReferenceNet
    | UnsupportedNetKind

  type Carriers = map<string, Carrier>

  const FREQUENCY_TOLERANCE := 0.000000000001

  // ---------------------------------------------------------------- shared rules

  /** `switching_frequency_hz` is required and strictly positive. */
  function Frequency(carrier: Carrier): Result<real, Code> {
    match carrier.frequency
    case None => Err(MissingParameter)
    case Some(f) => if f > 0.0 then Ok(f) else Err(InvalidParameter)
  }

  /** The switching period a usable carrier sets. */
  function Period(carrier: Carrier): (period: real)
    requires Frequency(carrier).Ok?
    ensures period > 0.0
  {
    1.0 / carrier.frequency.value
  }

  predicate SameFrequency(f: real, reference: real) {
    Abs(f - reference) <= FREQUENCY_TOLERANCE * Max(1.0, Abs(reference))
  }

  /** Two frequencies are the same within a part in a million million, or that many hertz
      below one hertz. */
  predicate Near(f: real, reference: real) {
    var allowed := if reference > 1.0 then reference * 0.000000000001
                   else if reference < -1.0 then -reference * 0.000000000001 else 0.000000000001;
    reference - allowed <= f <= reference + allowed
  }

  predicate RunsAs(carrier: Carrier, reference: real) {
    carrier.frequency.Some? && Near(carrier.frequency.value, reference)
  }

  lemma SameFrequencyMeans(f: real, reference: real)
    ensures SameFrequency(f, reference) <==> Near(f, reference)
  {}

  /** The declaration is the only authority: a carrier may repeat its dead time,
      never contradict it. */
  function DeadTimeVerdict(carrier: Carrier, deadTime: real): Option<Code> {
    match carrier.deadTime
    case None => None
    case Some(d) =>
      if d < 0.0 then Some(InvalidParameter)
      else if Abs(d - deadTime) > FREQUENCY_TOLERANCE then Some(InvalidControlDeclaration)
      else None
  }

  function ById(switches: seq<Switch>): map<string, Switch> {
    if switches == [] then map[]
    else
      var last := switches[|switches| - 1];
      ById(switches[..|switches| - 1])[last.id := last]
  }

  predicate TouchesReference(s: Switch, referenceNet: string) {
    s.input == referenceNet || s.output == referenceNet
  }

  // ------------------------------------------------------------- on-windows by mode

  function OnWindow(duty: real, period: real): Window {
    Window(0.0, duty * period)
  }

  function HighWidth(duty: real, period: real, deadTime: real): real {
    Max(0.0, duty * period - deadTime)
  }

  function HighWindow(duty: real, period: real, deadTime: real): Window {
    Window(0.0, HighWidth(duty, period, deadTime))
  }

  function LowWindow(duty: real, period: real, deadTime: real): Window {
    Window(HighWidth(duty, period, deadTime) + deadTime, period - deadTime)
  }

  // ------------------------------------------------------------------ paired legs

  /** `_pairs`: a non-empty list in which no switch is named twice. */
  method ReadPairs(raw: seq<(string, string)>) returns (r: Result<seq<(string, string)>, Code>)
    ensures r.Ok? <==> raw != [] && EachNamedOnce(raw)
    ensures r.Ok? ==> r.value == raw
    ensures r.Err? ==> r.error == InvalidControlDeclaration
  {
    if raw == [] {
      return Err(InvalidControlDeclaration);
    }
    var seen: set<string> := {};
    for k := 0 to |raw|
      invariant seen == NamesOf(raw[..k])
      invariant EachNamedOnce(raw[..k])
    {
      var (high, low) := raw[k];
      assert raw[..k + 1] == raw[..k] + [raw[k]];
      if high == low || high in seen || low in seen {
        assert !EachNamedOnce(raw) by {
          if EachNamedOnce(raw) { NamedOncePrefix(raw, k + 1); }
        }
        return Err(InvalidControlDeclaration);
      }
      seen := seen + {high, low};
    }
    assert raw[..|raw|] == raw;
    return Ok(raw);
  }

  ghost function NamesOf(pairs: seq<(string, string)>): set<string> {
    if pairs == [] then {}
    else
      var last := pairs[|pairs| - 1];
      NamesOf(pairs[..|pairs| - 1]) + {last.0, last.1}
  }

  ghost predicate EachNamedOnce(pairs: seq<(string, string)>) {
    pairs == [] ||
    (var last := pairs[|pairs| - 1];
     var rest := pairs[..|pairs| - 1];
     EachNamedOnce(rest) && last.0 != last.1 && last.0 !in NamesOf(rest) && last.1 !in NamesOf(rest))
  }

  lemma {:induction false} NamedOncePrefix(pairs: seq<(string, string)>, k: nat)
    requires EachNamedOnce(pairs) && k <= |pairs|
    ensures EachNamedOnce(pairs[..k])
  {
    if k == |pairs| {
      assert pairs[..k] == pairs;
    } else {
      NamedOncePrefix(pairs[..|pairs| - 1], k);
      assert pairs[..|pairs| - 1][..k] == pairs[..k];
    }
  }

  /** One classified leg: the control nets of its high and its low switch. */
  datatype Leg = Leg(high: string, low: string)

  function LegOf(pair: (string, string), byId: map<string, Switch>, referenceNet: string): Result<Leg, Code>
    requires pair.0 in byId && pair.1 in byId
  {
    var first, second := byId[pair.0], byId[pair.1];
    if TouchesReference(first, referenceNet) == TouchesReference(second, referenceNet) then
      Err(AmbiguousComplementaryControl)
    else if TouchesReference(first, referenceNet) then
      Ok(Leg(second.control, first.control))
    else
      Ok(Leg(first.control, second.control))
  }

  predicate AllKnown(pairs: seq<(string, string)>, byId: map<string, Switch>) {
    forall k | 0 <= k < |pairs| :: pairs[k].0 in byId && pairs[k].1 in byId
  }

  function NetsOf(legs: seq<Leg>): set<string> {
    if legs == [] then {}
    else NetsOf(legs[..|legs| - 1]) + {legs[|legs| - 1].high, legs[|legs| - 1].low}
  }

  /** What one leg contributes after the legs before it, or why it is refused. */
  function LegVerdict(pair: (string, string), earlier: seq<Leg>, byId: map<string, Switch>,
                      carriers: Carriers, referenceNet: string): Result<Leg, Code>
    requires pair.0 in byId && pair.1 in byId
  {
    match LegOf(pair, byId, referenceNet)
    case Err(e) => Err(e)
    case Ok(leg) =>
      if leg.high == leg.low || leg.high in NetsOf(earlier) || leg.low in NetsOf(earlier) then
        Err(AmbiguousComplementaryControl)
      else
        match CarrierVerdict(leg.high, carriers)
        case Some(e) => Err(e)
        case None =>
          match CarrierVerdict(leg.low, carriers)
          case Some(e) => Err(e)
          case None => Ok(leg)
  }

  function CarrierVerdict(net: string, carriers: Carriers): Option<Code> {
    if net !in carriers then Some(NoCarrier)
    else match Frequency(carriers[net]) case Err(e) => Some(e) case Ok(_) => None
  }

  /** A net whose carrier declares a positive frequency. */
  predicate Driven(net: string, carriers: Carriers) {
    net in carriers && carriers[net].frequency.Some? && carriers[net].frequency.value > 0.0
  }

  /** The legs of the first `k` pairs, or the first refusal among them. */
  function LegsUpTo(pairs: seq<(string, string)>, k: nat, byId: map<string, Switch>,
                    carriers: Carriers, referenceNet: string): Result<seq<Leg>, Code>
    requires k <= |pairs| && AllKnown(pairs, byId)
  {
    if k == 0 then Ok([])
    else
      match LegsUpTo(pairs, k - 1, byId, carriers, referenceNet)
      case Err(e) => Err(e)
      case Ok(legs) =>
        match LegVerdict(pairs[k - 1], legs, byId, carriers, referenceNet)
        case Err(e) => Err(e)
        case Ok(leg) => Ok(legs + [leg])
  }

  /** Every leg has two nets of its own, each driven by a usable carrier. */
  ghost predicate LegsReady(legs: seq<Leg>, carriers: Carriers) {
    && (forall k | 0 <= k < |legs| ::
         && legs[k].high != legs[k].low
         && CarrierVerdict(legs[k].high, carriers).None?
         && CarrierVerdict(legs[k].low, carriers).None?)
    && (forall i, j | 0 <= i < j < |legs| ::
         {legs[i].high, legs[i].low} !! {legs[j].high, legs[j].low})
  }

  lemma InNets(legs: seq<Leg>, net: string)
    ensures net in NetsOf(legs) <==> exists k :: 0 <= k < |legs| && (net == legs[k].high || net == legs[k].low)
  {
    if legs != [] {
      var n := |legs| - 1;
      InNets(legs[..n], net);
      assert NetsOf(legs) == NetsOf(legs[..n]) + {legs[n].high, legs[n].low};
      hide *;
      SomeLegJoins(legs, legs[..n], net);
    }
  }

  lemma SomeLegJoins(legs: seq<Leg>, first: seq<Leg>, net: string)
    requires legs != [] && first == legs[..|legs| - 1]
    ensures (exists k :: 0 <= k < |legs| && (net == legs[k].high || net == legs[k].low)) <==>
      || (exists k :: 0 <= k < |first| && (net == first[k].high || net == first[k].low))
      || net == legs[|legs| - 1].high || net == legs[|legs| - 1].low
  {
    assert forall k | 0 <= k < |first| :: first[k] == legs[k];
    if k :| 0 <= k < |legs| && (net == legs[k].high || net == legs[k].low) {
      if k < |first| { assert net == first[k].high || net == first[k].low; }
    }
  }

  lemma {:induction false} LegsUpToReady(pairs: seq<(string, string)>, k: nat, byId: map<string, Switch>,
                                         carriers: Carriers, referenceNet: string)
    requires k <= |pairs| && AllKnown(pairs, byId)
    requires LegsUpTo(pairs, k, byId, carriers, referenceNet).Ok?
    ensures var legs := LegsUpTo(pairs, k, byId, carriers, referenceNet).value;
      |legs| == k && LegsReady(legs, carriers)
  {
    if k > 0 {
      LegsUpToReady(pairs, k - 1, byId, carriers, referenceNet);
      var legs := LegsUpTo(pairs, k - 1, byId, carriers, referenceNet).value;
      var leg := LegVerdict(pairs[k - 1], legs, byId, carriers, referenceNet).value;
      InNets(legs, leg.high);
      InNets(legs, leg.low);
    }
  }

  predicate LegFrequenciesAgree(legs: seq<Leg>, carriers: Carriers, reference: real)
    requires forall k | 0 <= k < |legs| :: legs[k].high in carriers && legs[k].low in carriers
  {
    forall k | 0 <= k < |legs| ::
      Agrees(carriers[legs[k].high], reference) && Agrees(carriers[legs[k].low], reference)
  }

  predicate Agrees(carrier: Carrier, reference: real) {
    carrier.frequency.Some? && SameFrequency(carrier.frequency.value, reference)
  }

  /** The first contradiction between a carrier's own dead time and the declared one. */
  function LegDeadTimes(legs: seq<Leg>, k: nat, carriers: Carriers, deadTime: real): Option<Code>
    requires k <= |legs|
    requires forall k | 0 <= k < |legs| :: legs[k].high in carriers && legs[k].low in carriers
    decreases |legs| - k
  {
    if k == |legs| then None
    else
      match DeadTimeVerdict(carriers[legs[k].high], deadTime)
      case Some(e) => Some(e)
      case None =>
        match DeadTimeVerdict(carriers[legs[k].low], deadTime)
        case Some(e) => Some(e)
        case None => LegDeadTimes(legs, k + 1, carriers, deadTime)
  }

  /** Leg `k` gets the complementary pair of windows, `k` shifts late. */
  ghost predicate PairedPlan(plan: Plan, legs: seq<Leg>, duty: real, deadTime: real, shift: real) {
    && plan.windows.Keys == NetsOf(legs)
    && plan.delays.Keys == NetsOf(legs)
    && forall k | 0 <= k < |legs| :: LegPlanned(plan, legs[k], k, duty, deadTime, shift)
  }

  ghost predicate LegPlanned(plan: Plan, leg: Leg, k: nat, duty: real, deadTime: real, shift: real) {
    && leg.high in plan.windows && plan.windows[leg.high] == HighWindow(duty, plan.period, deadTime)
    && leg.low in plan.windows && plan.windows[leg.low] == LowWindow(duty, plan.period, deadTime)
    && leg.high in plan.delays && plan.delays[leg.high] == k as real * shift
    && leg.low in plan.delays && plan.delays[leg.low] == k as real * shift
  }

  /** Why a paired declaration is refused; `None` when it is accepted. */
  function PairedVerdict(pairs: seq<(string, string)>, deadTime: real, shift: real,
                         switches: seq<Switch>, carriers: Carriers, referenceNet: string): Option<Code>
    requires pairs != []
  {
    var byId := ById(switches);
    if !(byId.Keys <= NamedSwitches(pairs)) || !AllKnown(pairs, byId) then
      Some(InvalidControlDeclaration)
    else
      match LegsUpTo(pairs, |pairs|, byId, carriers, referenceNet)
      case Err(e) => Some(e)
      case Ok(legs) =>
        LegsUpToReady(pairs, |pairs|, byId, carriers, referenceNet);
        TimingVerdict(legs, carriers, deadTime, shift)
  }

  /** The period the legs share, from the first leg's high carrier. */
  function LegPeriod(legs: seq<Leg>, carriers: Carriers): (period: real)
    requires legs != [] && LegsReady(legs, carriers)
    ensures period > 0.0
  {
    Period(carriers[legs[0].high])
  }

  /** The rules that need the period: one frequency, room for two dead times, a
      shift below one period, no carrier contradicting the dead time. */
  function TimingVerdict(legs: seq<Leg>, carriers: Carriers, deadTime: real, shift: real): Option<Code>
    requires legs != [] && LegsReady(legs, carriers)
  {
    var period := LegPeriod(legs, carriers);
    if !LegFrequenciesAgree(legs, carriers, carriers[legs[0].high].frequency.value) then Some(InvalidControlDeclaration)
    else if deadTime >= period / 2.0 then Some(InvalidControlDeclaration)
    else if shift >= period then Some(InvalidControlDeclaration)
    else LegDeadTimes(legs, 0, carriers, deadTime)
  }

  /** Every gate runs at the reference frequency, two dead times fit into the cycle,
      the shift is less than a cycle, and no carrier has a dead time of its own other
      than the declared one. */
  ghost predicate TimingMeets(nets: set<string>, carriers: Carriers, reference: real, deadTime: real, shift: real) {
    && reference > 0.0 && deadTime < 1.0 / reference / 2.0 && shift < 1.0 / reference
    && forall net | net in nets :: net in carriers && GateTimed(carriers[net], reference, deadTime)
  }

  predicate GateTimed(carrier: Carrier, reference: real, deadTime: real) {
    && RunsAs(carrier, reference)
    && (carrier.deadTime.Some? ==>
         carrier.deadTime.value >= 0.0 && Abs(carrier.deadTime.value - deadTime) <= 0.000000000001)
  }

  lemma AgreesMeans(carrier: Carrier, reference: real)
    ensures Agrees(carrier, reference) <==> RunsAs(carrier, reference)
  {
    if carrier.frequency.Some? { SameFrequencyMeans(carrier.frequency.value, reference); }
    hide SameFrequency; hide Near;
  }

  lemma TimingAcceptedIff(legs: seq<Leg>, carriers: Carriers, deadTime: real, shift: real)
    requires legs != [] && LegsReady(legs, carriers)
    ensures TimingVerdict(legs, carriers, deadTime, shift).None?
       <==> TimingMeets(NetsOf(legs), carriers, carriers[legs[0].high].frequency.value, deadTime, shift)
  {
    LegDeadTimesNoneIff(legs, 0, carriers, deadTime);
    var reference := carriers[legs[0].high].frequency.value;
    forall net | net in carriers ensures Agrees(carriers[net], reference) <==> RunsAs(carriers[net], reference) {
      AgreesMeans(carriers[net], reference);
    }
    hide Agrees; hide RunsAs;
    NetsWhere(legs, net => net in carriers && GateTimed(carriers[net], reference, deadTime));
    hide NetsOf; hide LegDeadTimes; hide SameFrequency;
  }

  lemma NetsWhere(legs: seq<Leg>, p: string -> bool)
    ensures (forall net | net in NetsOf(legs) :: p(net)) <==> forall k | 0 <= k < |legs| :: p(legs[k].high) && p(legs[k].low)
  {
    forall net ensures net in NetsOf(legs) <==> exists k :: 0 <= k < |legs| && (net == legs[k].high || net == legs[k].low) {
      InNets(legs, net);
    }
    hide NetsOf;
    forall k | 0 <= k < |legs| ensures legs[k].high in NetsOf(legs) && legs[k].low in NetsOf(legs) {}
  }

  lemma {:induction false} LegDeadTimesNoneIff(legs: seq<Leg>, k: nat, carriers: Carriers, deadTime: real)
    requires k <= |legs|
    requires forall k | 0 <= k < |legs| :: legs[k].high in carriers && legs[k].low in carriers
    ensures LegDeadTimes(legs, k, carriers, deadTime).None? <==>
      forall j | k <= j < |legs| ::
        DeadTimeVerdict(carriers[legs[j].high], deadTime).None? && DeadTimeVerdict(carriers[legs[j].low], deadTime).None?
    decreases |legs| - k
  {
    if k < |legs| { LegDeadTimesNoneIff(legs, k + 1, carriers, deadTime); }
  }

  // what a graph has to be for a paired declaration

  function HighOf(pair: (string, string), byId: map<string, Switch>, referenceNet: string): Switch
    requires pair.0 in byId && pair.1 in byId
  {
    if TouchesReference(byId[pair.0], referenceNet) then byId[pair.1] else byId[pair.0]
  }

  function LowOf(pair: (string, string), byId: map<string, Switch>, referenceNet: string): Switch
    requires pair.0 in byId && pair.1 in byId
  {
    if TouchesReference(byId[pair.0], referenceNet) then byId[pair.0] else byId[pair.1]
  }

  /** The leg a half bridge is. */
  function LegRead(pair: (string, string), byId: map<string, Switch>, referenceNet: string): Leg
    requires pair.0 in byId && pair.1 in byId
  {
    Leg(HighOf(pair, byId, referenceNet).control, LowOf(pair, byId, referenceNet).control)
  }

  ghost predicate LegsRead(legs: seq<Leg>, pairs: seq<(string, string)>, k: nat, byId: map<string, Switch>, referenceNet: string)
    requires k <= |pairs| && AllKnown(pairs, byId)
  {
    |legs| == k && forall i | 0 <= i < k :: legs[i] == LegRead(pairs[i], byId, referenceNet)
  }

  /** Exactly one of the two switches reaches the reference net. */
  predicate HalfBridge(pair: (string, string), byId: map<string, Switch>, referenceNet: string)
    requires pair.0 in byId && pair.1 in byId
  {
    TouchesReference(byId[pair.0], referenceNet) != TouchesReference(byId[pair.1], referenceNet)
  }

  function GatesOf(pair: (string, string), byId: map<string, Switch>): set<string>
    requires pair.0 in byId && pair.1 in byId
  {
    {byId[pair.0].control, byId[pair.1].control}
  }

  /** The first `k` pairs are half bridges on driven control nets of their own. */
  ghost predicate BridgesMeet(pairs: seq<(string, string)>, k: nat, byId: map<string, Switch>, carriers: Carriers,
                              referenceNet: string)
    requires k <= |pairs| && AllKnown(pairs, byId)
  {
    && (forall i | 0 <= i < k :: BridgeMeets(pairs[i], byId, carriers, referenceNet))
    && (forall i, j | 0 <= i < j < k :: GatesOf(pairs[i], byId) !! GatesOf(pairs[j], byId))
  }

  ghost predicate BridgeMeets(pair: (string, string), byId: map<string, Switch>, carriers: Carriers, referenceNet: string)
    requires pair.0 in byId && pair.1 in byId
  {
    && HalfBridge(pair, byId, referenceNet) && byId[pair.0].control != byId[pair.1].control
    && Driven(byId[pair.0].control, carriers) && Driven(byId[pair.1].control, carriers)
  }

  /** The graph a paired declaration is for: every switch stands in a pair and every
      pair names switches, the pairs are half bridges with driven control nets of
      their own, and the timing fits. */
  ghost predicate PairedMeets(pairs: seq<(string, string)>, deadTime: real, shift: real,
                              switches: seq<Switch>, carriers: Carriers, referenceNet: string)
    requires pairs != []
  {
    var byId := ById(switches);
    && (forall id :: id in byId <==> InSomePair(id, pairs))
    && BridgesMeet(pairs, |pairs|, byId, carriers, referenceNet)
    && TimingMeets(ControlNets(byId), carriers,
                   carriers[HighOf(pairs[0], byId, referenceNet).control].frequency.value, deadTime, shift)
  }

  predicate InSomePair(id: string, pairs: seq<(string, string)>) {
    exists k | 0 <= k < |pairs| :: id == pairs[k].0 || id == pairs[k].1
  }

  lemma EachInSomePairIff(pairs: seq<(string, string)>, byId: map<string, Switch>)
    ensures (forall id :: id in byId <==> InSomePair(id, pairs)) <==> NamedSwitches(pairs) == byId.Keys && AllKnown(pairs, byId)
  {
    if forall id :: id in byId <==> InSomePair(id, pairs) {
      forall k | 0 <= k < |pairs| ensures pairs[k].0 in byId && pairs[k].1 in byId {
        assert InSomePair(pairs[k].0, pairs) && InSomePair(pairs[k].1, pairs);
      }
    }
  }

  /** The nets the switches are controlled by; `byId` keeps one switch a name. */
  ghost function ControlNets(byId: map<string, Switch>): set<string> {
    set id | id in byId :: byId[id].control
  }

  lemma {:induction false} BridgesAcceptedIff(pairs: seq<(string, string)>, k: nat, byId: map<string, Switch>,
                                              carriers: Carriers, referenceNet: string)
    requires k <= |pairs| && AllKnown(pairs, byId)
    ensures LegsUpTo(pairs, k, byId, carriers, referenceNet).Ok? <==> BridgesMeet(pairs, k, byId, carriers, referenceNet)
    ensures LegsUpTo(pairs, k, byId, carriers, referenceNet).Ok? ==>
      LegsRead(LegsUpTo(pairs, k, byId, carriers, referenceNet).value, pairs, k, byId, referenceNet)
  {
    if k > 0 {
      BridgesAcceptedIff(pairs, k - 1, byId, carriers, referenceNet);
      BridgesNext(pairs, k - 1, byId, carriers, referenceNet);
      if LegsUpTo(pairs, k - 1, byId, carriers, referenceNet).Ok? {
        var legs := LegsUpTo(pairs, k - 1, byId, carriers, referenceNet).value;
        hide LegVerdict; hide GatesOf; hide BridgeMeets; hide BridgesMeet; hide GatesApart; hide LegRead;
        BridgeAcceptedIff(pairs, k - 1, legs, byId, carriers, referenceNet);
      }
    }
  }

  lemma BridgesNext(pairs: seq<(string, string)>, k: nat, byId: map<string, Switch>, carriers: Carriers, referenceNet: string)
    requires k < |pairs| && AllKnown(pairs, byId)
    ensures BridgesMeet(pairs, k + 1, byId, carriers, referenceNet) <==>
      && BridgesMeet(pairs, k, byId, carriers, referenceNet)
      && BridgeMeets(pairs[k], byId, carriers, referenceNet) && GatesApart(pairs, k, byId)
    ensures BridgesMeet(pairs, k, byId, carriers, referenceNet) ==>
      forall i | 0 <= i < k :: HalfBridge(pairs[i], byId, referenceNet)
  {
    hide GatesOf; hide HalfBridge; hide Driven;
  }

  /** Pair `k` shares no control net with an earlier one. */
  ghost predicate GatesApart(pairs: seq<(string, string)>, k: nat, byId: map<string, Switch>)
    requires k < |pairs| && AllKnown(pairs, byId)
  {
    forall i | 0 <= i < k :: GatesOf(pairs[i], byId) !! GatesOf(pairs[k], byId)
  }

  lemma BridgeAcceptedIff(pairs: seq<(string, string)>, k: nat, legs: seq<Leg>, byId: map<string, Switch>,
                          carriers: Carriers, referenceNet: string)
    requires k < |pairs| && AllKnown(pairs, byId) && LegsRead(legs, pairs, k, byId, referenceNet)
    requires forall i | 0 <= i < k :: HalfBridge(pairs[i], byId, referenceNet)
    ensures var verdict := LegVerdict(pairs[k], legs, byId, carriers, referenceNet);
      && (verdict.Ok? <==>
            && BridgeMeets(pairs[k], byId, carriers, referenceNet)
            && GatesApart(pairs, k, byId))
      && (verdict.Ok? ==> verdict.value == LegRead(pairs[k], byId, referenceNet))
  {
    InNets(legs, LegRead(pairs[k], byId, referenceNet).high);
    InNets(legs, LegRead(pairs[k], byId, referenceNet).low);
    hide NetsOf;
    forall i | 0 <= i < k ensures GatesOf(pairs[i], byId) == {legs[i].high, legs[i].low} {}
    assert GatesOf(pairs[k], byId)
        == {HighOf(pairs[k], byId, referenceNet).control, LowOf(pairs[k], byId, referenceNet).control};
  }

  lemma BridgeNets(pairs: seq<(string, string)>, byId: map<string, Switch>, legs: seq<Leg>, referenceNet: string)
    requires AllKnown(pairs, byId) && NamedSwitches(pairs) == byId.Keys
    requires LegsRead(legs, pairs, |pairs|, byId, referenceNet)
    ensures NetsOf(legs) == ControlNets(byId)
  {
    forall net ensures net in NetsOf(legs) <==> net in ControlNets(byId) {
      InNets(legs, net);
      BridgeNet(pairs, byId, legs, referenceNet, net);
    }
  }

  lemma BridgeNet(pairs: seq<(string, string)>, byId: map<string, Switch>, legs: seq<Leg>, referenceNet: string, net: string)
    requires AllKnown(pairs, byId) && NamedSwitches(pairs) == byId.Keys
    requires LegsRead(legs, pairs, |pairs|, byId, referenceNet)
    ensures net in ControlNets(byId) <==> exists k :: 0 <= k < |legs| && (net == legs[k].high || net == legs[k].low)
  {
    if net in ControlNets(byId) {
      var id :| id in byId && byId[id].control == net;
      var k := PairNaming(pairs, id);
      assert net == legs[k].high || net == legs[k].low;
    }
  }

  lemma PairNaming(pairs: seq<(string, string)>, id: string) returns (k: nat)
    requires id in NamedSwitches(pairs)
    ensures k < |pairs| && (pairs[k].0 == id || pairs[k].1 == id)
  {
    k :| k < |pairs| && (pairs[k].0 == id || pairs[k].1 == id);
  }

  /** A paired declaration is accepted exactly by the graphs it is for. */
  lemma PairedAcceptedIff(pairs: seq<(string, string)>, deadTime: real, shift: real,
                          switches: seq<Switch>, carriers: Carriers, referenceNet: string)
    requires pairs != []
    ensures PairedVerdict(pairs, deadTime, shift, switches, carriers, referenceNet).None?
       <==> PairedMeets(pairs, deadTime, shift, switches, carriers, referenceNet)
  {
    var byId := ById(switches);
    EachInSomePairIff(pairs, byId);
    hide InSomePair;
    if byId.Keys <= NamedSwitches(pairs) && AllKnown(pairs, byId) {
      assert NamedSwitches(pairs) == byId.Keys;
      BridgesAcceptedIff(pairs, |pairs|, byId, carriers, referenceNet);
      hide BridgesMeet;
      if LegsUpTo(pairs, |pairs|, byId, carriers, referenceNet).Ok? {
        var legs := LegsUpTo(pairs, |pairs|, byId, carriers, referenceNet).value;
        LegsUpToReady(pairs, |pairs|, byId, carriers, referenceNet);
        TimingAcceptedIff(legs, carriers, deadTime, shift);
        BridgeNets(pairs, byId, legs, referenceNet);
      }
    }
  }

  function NamedSwitches(pairs: seq<(string, string)>): set<string> {
    (set k | 0 <= k < |pairs| :: pairs[k].0) + (set k | 0 <= k < |pairs| :: pairs[k].1)
  }

  method PairedGates(pairs: seq<(string, string)>, deadTime: real, shift: real, switches: seq<Switch>,
                     carriers: Carriers, duty: real, referenceNet: string)
    returns (r: Result<Plan, Code>, ghost legs: seq<Leg>)
    requires pairs != []
    ensures r.Err? <==> PairedVerdict(pairs, deadTime, shift, switches, carriers, referenceNet).Some?
    ensures r.Err? ==> r.error == PairedVerdict(pairs, deadTime, shift, switches, carriers, referenceNet).value
    ensures r.Ok? ==>
      && AllKnown(pairs, ById(switches))
      && LegsUpTo(pairs, |pairs|, ById(switches), carriers, referenceNet) == Ok(legs)
      && legs != [] && LegsReady(legs, carriers)
      && r.value.period == LegPeriod(legs, carriers)
      && deadTime < r.value.period / 2.0 && shift < r.value.period
      && PairedPlan(r.value, legs, duty, deadTime, shift)
  {
    var byId := ById(switches);
    if !(byId.Keys <= NamedSwitches(pairs)) || !AllKnown(pairs, byId) {
      return Err(InvalidControlDeclaration), [];
    }
    var found := ClassifyLegs(pairs, byId, carriers, referenceNet);
    if found.Err? {
      return Err(found.error), [];
    }
    LegsUpToReady(pairs, |pairs|, byId, carriers, referenceNet);
    var refused := CheckTiming(found.value, carriers, deadTime, shift);
    if refused.Some? {
      return Err(refused.value), [];
    }
    var plan := RenderLegs(found.value, duty, deadTime, shift, LegPeriod(found.value, carriers), carriers);
    return Ok(plan), found.value;
  }

  method CheckTiming(legs: seq<Leg>, carriers: Carriers, deadTime: real, shift: real) returns (refused: Option<Code>)
    requires legs != [] && LegsReady(legs, carriers)
    ensures refused == TimingVerdict(legs, carriers, deadTime, shift)
    ensures refused.None? <==>
      TimingMeets(NetsOf(legs), carriers, carriers[legs[0].high].frequency.value, deadTime, shift)
  {
    TimingAcceptedIff(legs, carriers, deadTime, shift);
    hide TimingMeets; hide NetsOf;
    var period := LegPeriod(legs, carriers);
    if !LegFrequenciesAgree(legs, carriers, carriers[legs[0].high].frequency.value) {
      return Some(InvalidControlDeclaration);
    }
    if deadTime >= period / 2.0 || shift >= period {
      return Some(InvalidControlDeclaration);
    }
    for k := 0 to |legs|
      invariant LegDeadTimes(legs, 0, carriers, deadTime) == LegDeadTimes(legs, k, carriers, deadTime)
    {
      var high := DeadTimeVerdict(carriers[legs[k].high], deadTime);
      if high.Some? { return high; }
      var low := DeadTimeVerdict(carriers[legs[k].low], deadTime);
      if low.Some? { return low; }
    }
    return None;
  }

  method ClassifyLegs(pairs: seq<(string, string)>, byId: map<string, Switch>, carriers: Carriers, referenceNet: string)
    returns (r: Result<seq<Leg>, Code>)
    requires AllKnown(pairs, byId)
    ensures r == LegsUpTo(pairs, |pairs|, byId, carriers, referenceNet)
  {
    var found: seq<Leg> := [];
    var claimed: set<string> := {};
    assert LegsUpTo(pairs, 0, byId, carriers, referenceNet) == Ok(found) && NetsOf(found) == {};
    hide LegVerdict; hide LegsUpTo; hide NetsOf; hide CarrierVerdict; hide LegOf;
    for k := 0 to |pairs|
      invariant LegsUpTo(pairs, k, byId, carriers, referenceNet) == Ok(found)
      invariant claimed == NetsOf(found)
    {
      var verdict := ClassifyLeg(pairs[k], claimed, found, byId, carriers, referenceNet);
      if verdict.Err? {
        RefusedLeg(pairs, k, byId, carriers, referenceNet);
        return Err(verdict.error);
      }
      LegAccepted(pairs, k, found, verdict.value, byId, carriers, referenceNet);
      found := found + [verdict.value];
      claimed := claimed + {verdict.value.high, verdict.value.low};
    }
    return Ok(found);
  }

  lemma LegAccepted(pairs: seq<(string, string)>, k: nat, found: seq<Leg>, leg: Leg, byId: map<string, Switch>,
                    carriers: Carriers, referenceNet: string)
    requires k < |pairs| && AllKnown(pairs, byId)
    requires LegsUpTo(pairs, k, byId, carriers, referenceNet) == Ok(found)
    requires LegVerdict(pairs[k], found, byId, carriers, referenceNet) == Ok(leg)
    ensures LegsUpTo(pairs, k + 1, byId, carriers, referenceNet) == Ok(found + [leg])
    ensures NetsOf(found + [leg]) == NetsOf(found) + {leg.high, leg.low}
  {
    hide LegVerdict;
    assert (found + [leg])[..|found|] == found;
  }

  lemma {:induction false} RefusedLeg(pairs: seq<(string, string)>, k: nat, byId: map<string, Switch>,
                                      carriers: Carriers, referenceNet: string)
    requires k < |pairs| && AllKnown(pairs, byId)
    requires LegsUpTo(pairs, k, byId, carriers, referenceNet).Ok?
    requires LegVerdict(pairs[k], LegsUpTo(pairs, k, byId, carriers, referenceNet).value, byId, carriers, referenceNet).Err?
    ensures LegsUpTo(pairs, |pairs|, byId, carriers, referenceNet)
         == Err(LegVerdict(pairs[k], LegsUpTo(pairs, k, byId, carriers, referenceNet).value, byId, carriers, referenceNet).error)
  {
    var e := LegsUpTo(pairs, k + 1, byId, carriers, referenceNet);
    for j := k + 1 to |pairs|
      invariant LegsUpTo(pairs, j, byId, carriers, referenceNet) == e
    {
    }
  }

  /** The body of the classification loop. */
  method ClassifyLeg(pair: (string, string), claimed: set<string>, ghost earlier: seq<Leg>, byId: map<string, Switch>,
                     carriers: Carriers, referenceNet: string) returns (r: Result<Leg, Code>)
    requires pair.0 in byId && pair.1 in byId && claimed == NetsOf(earlier)
    ensures r == LegVerdict(pair, earlier, byId, carriers, referenceNet)
  {
    var leg := LegOf(pair, byId, referenceNet);
    if leg.Err? { return leg; }
    var high, low := leg.value.high, leg.value.low;
    if high == low || high in claimed || low in claimed {
      return Err(AmbiguousComplementaryControl);
    }
    var nets := [high, low];
    for k := 0 to 2
      invariant forall j | 0 <= j < k :: CarrierVerdict(nets[j], carriers).None?
    {
      var verdict := CarrierVerdict(nets[k], carriers);
      if verdict.Some? {
        assert k == 1 ==> CarrierVerdict(nets[0], carriers).None?;
        return Err(verdict.value);
      }
    }
    assert CarrierVerdict(nets[0], carriers).None? && CarrierVerdict(nets[1], carriers).None?;
    return leg;
  }

  method RenderLegs(legs: seq<Leg>, duty: real, deadTime: real, shift: real, period: real, ghost carriers: Carriers)
    returns (plan: Plan)
    requires LegsReady(legs, carriers)
    ensures plan.period == period
    ensures PairedPlan(plan, legs, duty, deadTime, shift)
  {
    var windows: map<string, Window> := map[];
    var delays: map<string, real> := map[];
    for k := 0 to |legs|
      invariant windows.Keys == NetsOf(legs[..k]) == delays.Keys
      invariant forall j | 0 <= j < k :: LegPlanned(Plan(windows, period, delays), legs[j], j, duty, deadTime, shift)
    {
      var leg := legs[k];
      windows := windows[leg.high := HighWindow(duty, period, deadTime)];
      windows := windows[leg.low := LowWindow(duty, period, deadTime)];
      delays := delays[leg.high := k as real * shift][leg.low := k as real * shift];
      assert legs[..k + 1][..k] == legs[..k];
      forall j | 0 <= j < k + 1
        ensures LegPlanned(Plan(windows, period, delays), legs[j], j, duty, deadTime, shift)
      {
        if j < k {
          assert {legs[j].high, legs[j].low} !! {leg.high, leg.low};
        }
      }
    }
    assert legs[..|legs|] == legs;
    plan := Plan(windows, period, delays);
  }

  // ------------------------------------------------------------ complementary pair

  /** One high and one low switch, one carrier on each of their nets and no other. */
  function ComplementaryVerdict(switches: seq<Switch>, carriers: Carriers, referenceNet: string,
                                deadTime: real): Result<Leg, Code>
  {
    if |switches| != 2 || TouchesReference(switches[0], referenceNet) == TouchesReference(switches[1], referenceNet) then
      Err(AmbiguousComplementaryControl)
    else
      var leg := if TouchesReference(switches[0], referenceNet)
                 then Leg(switches[1].control, switches[0].control)
                 else Leg(switches[0].control, switches[1].control);
      if leg.high == leg.low || carriers.Keys != {leg.high, leg.low} then Err(AmbiguousComplementaryControl)
      else
        match CarrierVerdict(leg.high, carriers)
        case Some(e) => Err(e)
        case None =>
          match CarrierVerdict(leg.low, carriers)
          case Some(e) => Err(e)
          case None =>
            match TimingVerdict([leg], carriers, deadTime, 0.0)
            case Some(e) => Err(e)
            case None => Ok(leg)
  }

  /** The graph a complementary declaration is for: two switches of which one reaches
      the reference net, a driven control net and no other carrier for each, and a
      timing that fits. */
  ghost predicate ComplementaryMeets(switches: seq<Switch>, carriers: Carriers, referenceNet: string, deadTime: real) {
    && |switches| == 2
    && TouchesReference(switches[0], referenceNet) != TouchesReference(switches[1], referenceNet)
    && switches[0].control != switches[1].control
    && carriers.Keys == {switches[0].control, switches[1].control}
    && Driven(switches[0].control, carriers) && Driven(switches[1].control, carriers)
    && var high := if TouchesReference(switches[0], referenceNet) then switches[1].control else switches[0].control;
       TimingMeets(carriers.Keys, carriers, carriers[high].frequency.value, deadTime, 0.0)
  }

  lemma ComplementaryAcceptedIff(switches: seq<Switch>, carriers: Carriers, referenceNet: string, deadTime: real)
    ensures ComplementaryVerdict(switches, carriers, referenceNet, deadTime).Ok?
       <==> ComplementaryMeets(switches, carriers, referenceNet, deadTime)
  {
    if |switches| == 2 && TouchesReference(switches[0], referenceNet) != TouchesReference(switches[1], referenceNet) {
      var leg := if TouchesReference(switches[0], referenceNet)
                 then Leg(switches[1].control, switches[0].control)
                 else Leg(switches[0].control, switches[1].control);
      assert {leg.high, leg.low} == {switches[0].control, switches[1].control};
      OneLegNets(leg);
      hide NetsOf; hide TimingMeets; hide TimingVerdict;
      if LegsReady([leg], carriers) { TimingAcceptedIff([leg], carriers, deadTime, 0.0); }
    }
  }

  lemma OneLegNets(leg: Leg)
    ensures NetsOf([leg]) == {leg.high, leg.low}
  {
    assert [leg][..0] == [];
  }

  method ComplementaryGates(switches: seq<Switch>, carriers: Carriers, referenceNet: string, deadTime: real, duty: real)
    returns (r: Result<Plan, Code>, ghost leg: Leg)
    ensures r.Err? <==> ComplementaryVerdict(switches, carriers, referenceNet, deadTime).Err?
    ensures r.Err? ==> r.error == ComplementaryVerdict(switches, carriers, referenceNet, deadTime).error
    ensures r.Ok? ==>
      && ComplementaryVerdict(switches, carriers, referenceNet, deadTime) == Ok(leg)
      && LegsReady([leg], carriers)
      && r.value.period == LegPeriod([leg], carriers) && deadTime < r.value.period / 2.0
      && r.value.windows == map[leg.high := HighWindow(duty, r.value.period, deadTime),
                                leg.low := LowWindow(duty, r.value.period, deadTime)]
      && r.value.delays == map[]
    ensures r.Ok? ==> |switches| == 2 && r.value.windows.Keys == {switches[0].control, switches[1].control}
    ensures r.Ok? ==> forall i | 0 <= i < 2 ::
      && SidePlanned(r.value, switches[i], referenceNet, duty, deadTime)
      && (leg.low == switches[i].control <==> referenceNet == switches[i].input || referenceNet == switches[i].output)
      && (leg.high == switches[i].control <==> referenceNet != switches[i].input && referenceNet != switches[i].output)
  {
    hide SidePlanned; hide HighWindow; hide LowWindow;
    leg := Leg("", "");
    if |switches| != 2 {
      return Err(AmbiguousComplementaryControl), leg;
    }
    var high: seq<Switch>, low: seq<Switch> := [], [];
    for k := 0 to 2
      invariant |high| + |low| == k
      invariant k == 1 ==> (if TouchesReference(switches[0], referenceNet) then low == [switches[0]] else high == [switches[0]])
      invariant k == 2 && TouchesReference(switches[0], referenceNet) && !TouchesReference(switches[1], referenceNet)
        ==> low == [switches[0]] && high == [switches[1]]
      invariant k == 2 && !TouchesReference(switches[0], referenceNet) && TouchesReference(switches[1], referenceNet)
        ==> high == [switches[0]] && low == [switches[1]]
      invariant k == 2 && TouchesReference(switches[0], referenceNet) == TouchesReference(switches[1], referenceNet)
        ==> |high| != 1
    {
      if TouchesReference(switches[k], referenceNet) {
        low := low + [switches[k]];
      } else {
        high := high + [switches[k]];
      }
    }
    if |high| != 1 || |low| != 1 {
      return Err(AmbiguousComplementaryControl), leg;
    }
    var found := Leg(high[0].control, low[0].control);
    if found.high == found.low || carriers.Keys != {found.high, found.low} {
      return Err(AmbiguousComplementaryControl), leg;
    }
    var verdict := CarrierVerdict(found.high, carriers);
    if verdict.Some? { return Err(verdict.value), leg; }
    verdict := CarrierVerdict(found.low, carriers);
    if verdict.Some? { return Err(verdict.value), leg; }
    assert LegsReady([found], carriers);
    var refused := CheckTiming([found], carriers, deadTime, 0.0);
    if refused.Some? { return Err(refused.value), leg; }
    var period := LegPeriod([found], carriers);
    var windows := map[found.high := HighWindow(duty, period, deadTime), found.low := LowWindow(duty, period, deadTime)];
    SidesPlanned(switches, referenceNet, Plan(windows, period, map[]), found, duty, deadTime);
    return Ok(Plan(windows, period, map[])), found;
  }

  lemma SidesPlanned(switches: seq<Switch>, referenceNet: string, plan: Plan, leg: Leg, duty: real, deadTime: real)
    requires |switches| == 2 && leg.high != leg.low
    requires TouchesReference(switches[0], referenceNet) != TouchesReference(switches[1], referenceNet)
    requires leg == if TouchesReference(switches[0], referenceNet) then Leg(switches[1].control, switches[0].control)
                    else Leg(switches[0].control, switches[1].control)
    requires plan.windows == map[leg.high := HighWindow(duty, plan.period, deadTime), leg.low := LowWindow(duty, plan.period, deadTime)]
    ensures plan.windows.Keys == {switches[0].control, switches[1].control}
    ensures forall i | 0 <= i < 2 ::
      && SidePlanned(plan, switches[i], referenceNet, duty, deadTime)
      && (leg.low == switches[i].control <==> referenceNet == switches[i].input || referenceNet == switches[i].output)
      && (leg.high == switches[i].control <==> referenceNet != switches[i].input && referenceNet != switches[i].output)
  {}

  // ------------------------------------------------------------- interleaved phases

  /** Code-point order on net ids, the order `sorted` uses. */
  predicate Before(a: string, b: string) {
    if b == [] then false
    else if a == [] then true
    else a[0] < b[0] || (a[0] == b[0] && Before(a[1..], b[1..]))
  }

  function Insert(net: string, sorted: seq<string>): seq<string> {
    if sorted == [] || !Before(sorted[0], net) then [net] + sorted
    else [sorted[0]] + Insert(net, sorted[1..])
  }

  function Sorted(nets: seq<string>): seq<string> {
    if nets == [] then [] else Insert(nets[0], Sorted(nets[1..]))
  }

  lemma {:induction false} InsertKeeps(net: string, sorted: seq<string>)
    ensures multiset(Insert(net, sorted)) == multiset(sorted) + multiset{net}
  {
    if sorted != [] && Before(sorted[0], net) {
      InsertKeeps(net, sorted[1..]);
      assert sorted == [sorted[0]] + sorted[1..];
    }
  }

  lemma {:induction false} SortedKeeps(nets: seq<string>)
    ensures multiset(Sorted(nets)) == multiset(nets)
  {
    if nets != [] {
      SortedKeeps(nets[1..]);
      InsertKeeps(nets[0], Sorted(nets[1..]));
      assert nets == [nets[0]] + nets[1..];
    }
  }

  /** `Before` is a strict total order. */
  lemma {:induction false} BeforeOrders(a: string, b: string, c: string)
    ensures !Before(a, a)
    ensures Before(a, b) ==> !Before(b, a)
    ensures !Before(b, a) && !Before(c, b) ==> !Before(c, a)
    ensures !Before(a, b) && !Before(b, a) ==> a == b
    decreases |a| + |b| + |c|
  {
    if a != [] && b != [] && c != [] {
      BeforeOrders(a[1..], b[1..], c[1..]);
    } else if a != [] && b != [] {
      BeforeOrders(a[1..], b[1..], c);
    } else if a != [] {
      BeforeOrders(a[1..], b, c);
    }
    if a != [] && b != [] && a[0] == b[0] && a[1..] == b[1..] {
      assert a == [a[0]] + a[1..] && b == [b[0]] + b[1..];
    }
  }

  ghost predicate Ascending(nets: seq<string>) {
    forall i, j | 0 <= i < j < |nets| :: !Before(nets[j], nets[i])
  }

  lemma {:induction false} InsertAscends(net: string, sorted: seq<string>)
    requires Ascending(sorted)
    ensures Ascending(Insert(net, sorted))
  {
    InsertKeeps(net, sorted);
    if sorted != [] && Before(sorted[0], net) {
      var rest := Insert(net, sorted[1..]);
      InsertAscends(net, sorted[1..]);
      InsertKeeps(net, sorted[1..]);
      forall j | 0 <= j < |rest| ensures !Before(rest[j], sorted[0]) {
        assert rest[j] in multiset(rest);
        if rest[j] == net {
          BeforeOrders(sorted[0], net, net);
        } else {
          assert rest[j] in sorted[1..];
        }
      }
    } else {
      forall j | 0 <= j < |sorted| ensures !Before(sorted[j], net) {
        if j > 0 { BeforeOrders(net, sorted[0], sorted[j]); }
      }
    }
  }

  /** The default phase order is the bound nets in code-point order. */
  lemma {:induction false} SortedAscends(nets: seq<string>)
    ensures Ascending(Sorted(nets)) && multiset(Sorted(nets)) == multiset(nets)
  {
    SortedKeeps(nets);
    if nets != [] {
      SortedAscends(nets[1..]);
      InsertAscends(nets[0], Sorted(nets[1..]));
    }
  }

  ghost predicate Distinct(nets: seq<string>) {
    forall i, j | 0 <= i < j < |nets| :: nets[i] != nets[j]
  }

  lemma {:induction false} DistinctCounts(nets: seq<string>)
    ensures Distinct(nets) <==> forall n :: n in nets ==> multiset(nets)[n] == 1
  {
    if nets != [] {
      var rest, last := nets[..|nets| - 1], nets[|nets| - 1];
      assert nets == rest + [last];
      DistinctCounts(rest);
      if Distinct(nets) {
        assert last !in rest;
      } else if last in rest {
        assert multiset(nets)[last] >= 2;
      } else {
        assert !Distinct(rest);
        var n :| n in rest && multiset(rest)[n] != 1;
        assert n in nets && multiset(nets)[n] != 1;
      }
    }
  }

  lemma SortedDistinct(nets: seq<string>)
    requires Distinct(nets)
    ensures Distinct(Sorted(nets)) && |Sorted(nets)| == |nets|
    ensures forall n :: n in Sorted(nets) <==> n in nets
  {
    SortedKeeps(nets);
    DistinctCounts(nets);
    DistinctCounts(Sorted(nets));
    forall n ensures n in Sorted(nets) <==> n in nets {
      assert n in multiset(Sorted(nets)) <==> n in multiset(nets);
    }
    assert |multiset(Sorted(nets))| == |multiset(nets)|;
  }

  /** The control nets in the order the switches first bind them. */
  function GateNets(switches: seq<Switch>): seq<string> {
    if switches == [] then []
    else
      var nets := GateNets(switches[..|switches| - 1]);
      var net := switches[|switches| - 1].control;
      if net in nets then nets else nets + [net]
  }

  lemma {:induction false} GateNetsDistinct(switches: seq<Switch>)
    ensures Distinct(GateNets(switches))
  {
    if switches != [] { GateNetsDistinct(switches[..|switches| - 1]); }
  }

  /** `_gate_order`: an explicit order may not name a net twice. */
  ghost predicate OrderReadable(order: Option<seq<string>>) {
    order.Some? ==> Distinct(order.value)
  }

  function Elements(nets: seq<string>): set<string> {
    set n | n in nets
  }

  /** The first carrier in phase order whose frequency is missing or unusable. */
  function FrequencyFault(order: seq<string>, k: nat, carriers: Carriers): Option<Code>
    requires k <= |order| && forall n | n in order :: n in carriers
    decreases |order| - k
  {
    if k == |order| then None
    else
      match Frequency(carriers[order[k]])
      case Err(e) => Some(e)
      case Ok(_) => FrequencyFault(order, k + 1, carriers)
  }

  /** The resolved phase order, or why the declaration does not fit the graph. */
  function InterleavedVerdict(phases: nat, order: Option<seq<string>>, switches: seq<Switch>,
                              carriers: Carriers): Result<seq<string>, Code>
    requires phases >= 2
  {
    var nets := GateNets(switches);
    var resolved := if order.Some? then order.value else Sorted(nets);
    if |nets| != phases then Err(InvalidControlDeclaration)
    else if Elements(resolved) != Elements(nets) then Err(InvalidControlDeclaration)
    else if exists n :: n in resolved && n !in carriers then Err(NoCarrier)
    else if carriers.Keys != Elements(resolved) then Err(InvalidControlDeclaration)
    else
      match FrequencyFault(resolved, 0, carriers)
      case Some(e) => Err(e)
      case None =>
        if resolved != [] && exists n :: n in resolved && !Agrees(carriers[n], carriers[resolved[0]].frequency.GetOr(0.0))
        then Err(InvalidControlDeclaration)
        else Ok(resolved)
  }

  ghost function BoundControls(switches: seq<Switch>): set<string> {
    set i | 0 <= i < |switches| :: switches[i].control
  }

  lemma {:induction false} GateNetsAreBound(switches: seq<Switch>)
    ensures Elements(GateNets(switches)) == BoundControls(switches)
  {
    if switches != [] {
      var n := |switches| - 1;
      GateNetsAreBound(switches[..n]);
      var before, net := GateNets(switches[..n]), switches[n].control;
      assert BoundControls(switches) == BoundControls(switches[..n]) + {net};
      assert Elements(before + [net]) == Elements(before) + {net};
    }
  }

  /** The phase that leads: the first declared, or the least net in code-point order. */
  ghost predicate Leads(first: string, order: Option<seq<string>>, nets: set<string>) {
    if order.Some? then order.value != [] && order.value[0] == first
    else first in nets && forall n | n in nets :: !Before(n, first)
  }

  /** The graph an interleaved declaration is for: as many control nets as phases,
      listed by the order if there is one, each with a driven carrier and no carrier
      elsewhere, all at the frequency of the leading phase. */
  ghost predicate InterleavedMeets(phases: nat, order: Option<seq<string>>, switches: seq<Switch>, carriers: Carriers) {
    var nets := BoundControls(switches);
    && |nets| == phases && (order.Some? ==> Elements(order.value) == nets)
    && carriers.Keys == nets && (forall n | n in nets :: Driven(n, carriers))
    && exists first | first in nets :: Leads(first, order, nets) && SameAs(first, nets, carriers)
  }

  ghost predicate SameAs(first: string, nets: set<string>, carriers: Carriers) {
    Driven(first, carriers) && forall n | n in nets :: n in carriers && RunsAs(carriers[n], carriers[first].frequency.value)
  }

  lemma InterleavedAcceptedIff(phases: nat, order: Option<seq<string>>, switches: seq<Switch>, carriers: Carriers)
    requires phases >= 2 && OrderReadable(order)
    ensures InterleavedVerdict(phases, order, switches, carriers).Ok? <==> InterleavedMeets(phases, order, switches, carriers)
  {
    var gates, nets := GateNets(switches), BoundControls(switches);
    GateNetsAreBound(switches);
    GateNetsDistinct(switches);
    DistinctSize(gates);
    SortedAscends(gates);
    SortedDistinct(gates);
    var resolved := if order.Some? then order.value else Sorted(gates);
    assert Elements(Sorted(gates)) == nets;
    if |gates| == phases && Elements(resolved) == nets && carriers.Keys == nets {
      assert gates[0] in Elements(gates) && resolved != [];
      LeaderIs(order, gates, resolved, nets);
      FrequencyFaultNoneIff(resolved, 0, carriers);
      PhasesAcceptedIff(resolved, nets, carriers);
      hide FrequencyFault; hide Sorted; hide GateNets;
      assert resolved[0] in nets;
      LedBy(phases, order, switches, carriers, nets, resolved[0]);
      VerdictWhenListed(phases, order, switches, carriers, resolved);
    }
  }

  lemma LedBy(phases: nat, order: Option<seq<string>>, switches: seq<Switch>, carriers: Carriers, nets: set<string>, first: string)
    requires nets == BoundControls(switches) == carriers.Keys && first in nets
    requires forall n | n in nets :: Leads(n, order, nets) <==> n == first
    requires |nets| == phases && (order.Some? ==> Elements(order.value) == nets)
    ensures InterleavedMeets(phases, order, switches, carriers)
       <==> (forall n | n in nets :: Driven(n, carriers)) && SameAs(first, nets, carriers)
  {
    hide Leads; hide SameAs; hide Driven; hide Elements;
  }

  lemma VerdictWhenListed(phases: nat, order: Option<seq<string>>, switches: seq<Switch>, carriers: Carriers, resolved: seq<string>)
    requires phases >= 2 && |GateNets(switches)| == phases
    requires resolved == if order.Some? then order.value else Sorted(GateNets(switches))
    requires resolved != [] && carriers.Keys == Elements(resolved) == Elements(GateNets(switches))
    ensures InterleavedVerdict(phases, order, switches, carriers).Ok? <==>
      && FrequencyFault(resolved, 0, carriers).None?
      && !exists n :: n in resolved && !Agrees(carriers[n], carriers[resolved[0]].frequency.GetOr(0.0))
  {
    hide FrequencyFault; hide Sorted; hide GateNets; hide Agrees;
    assert forall n :: n in resolved ==> n in Elements(resolved);
  }

  lemma LeaderIs(order: Option<seq<string>>, gates: seq<string>, resolved: seq<string>, nets: set<string>)
    requires resolved == if order.Some? then order.value else Sorted(gates)
    requires resolved != [] && Elements(resolved) == nets && Ascending(Sorted(gates))
    ensures forall first | first in nets :: Leads(first, order, nets) <==> first == resolved[0]
  {
    if order.None? {
      forall first | first in nets ensures Leads(first, order, nets) <==> first == resolved[0] {
        var i :| 0 <= i < |resolved| && resolved[i] == first;
        forall n | n in nets ensures !Before(n, resolved[0]) {
          var j :| 0 <= j < |resolved| && resolved[j] == n;
          BeforeOrders(n, n, n);
        }
        BeforeOrders(first, resolved[0], first);
        assert resolved[0] in nets;
      }
    }
  }

  lemma {:induction false} FrequencyFaultNoneIff(order: seq<string>, k: nat, carriers: Carriers)
    requires k <= |order| && forall n | n in order :: n in carriers
    ensures FrequencyFault(order, k, carriers).None? <==> forall j | k <= j < |order| :: Driven(order[j], carriers)
    decreases |order| - k
  {
    if k < |order| { FrequencyFaultNoneIff(order, k + 1, carriers); }
  }

  lemma PhasesAcceptedIff(resolved: seq<string>, nets: set<string>, carriers: Carriers)
    requires resolved != [] && Elements(resolved) == nets == carriers.Keys
    requires FrequencyFault(resolved, 0, carriers).None? <==> forall j | 0 <= j < |resolved| :: Driven(resolved[j], carriers)
    ensures (FrequencyFault(resolved, 0, carriers).None?
             && !exists n :: n in resolved && !Agrees(carriers[n], carriers[resolved[0]].frequency.GetOr(0.0)))
       <==> (forall n | n in nets :: Driven(n, carriers)) && SameAs(resolved[0], nets, carriers)
  {
    var reference := carriers[resolved[0]].frequency.GetOr(0.0);
    forall n | n in nets ensures Agrees(carriers[n], reference) <==> RunsAs(carriers[n], reference) {
      AgreesMeans(carriers[n], reference);
    }
    hide FrequencyFault; hide Agrees; hide RunsAs;
    assert forall n :: n in resolved <==> n in nets;
    assert resolved[0] in resolved;
  }

  /** Phase `k` of `N` carries the common width and starts `k*T/N` late. */
  ghost predicate InterleavedPlan(plan: Plan, order: seq<string>, duty: real) {
    && plan.period > 0.0 && order != []
    && plan.windows.Keys == plan.delays.Keys == Elements(order)
    && forall k | 0 <= k < |order| :: PhasePlanned(plan, order, k, duty)
  }

  function PhaseOffset(k: nat, period: real, phases: nat): real
    requires phases > 0
  {
    k as real * period / phases as real
  }

  ghost predicate PhasePlanned(plan: Plan, order: seq<string>, k: nat, duty: real)
    requires k < |order|
  {
    && order[k] in plan.windows && plan.windows[order[k]] == OnWindow(duty, plan.period)
    && order[k] in plan.delays && plan.delays[order[k]] == PhaseOffset(k, plan.period, |order|)
  }

  method InterleavedGates(phases: nat, order: Option<seq<string>>, switches: seq<Switch>, carriers: Carriers, duty: real)
    returns (r: Result<Plan, Code>, resolved: seq<string>)
    requires phases >= 2 && OrderReadable(order)
    ensures r.Err? <==> InterleavedVerdict(phases, order, switches, carriers).Err?
    ensures r.Err? ==> r.error == InterleavedVerdict(phases, order, switches, carriers).error
    ensures r.Ok? ==>
      && InterleavedVerdict(phases, order, switches, carriers) == Ok(resolved)
      && |resolved| == phases && Distinct(resolved) && carriers.Keys == Elements(resolved)
      && InterleavedPlan(r.value, resolved, duty) && PhaseOrder(resolved, order, switches)
      && CarrierVerdict(resolved[0], carriers).None? && r.value.period == Period(carriers[resolved[0]])
  {
    var found := ResolveOrder(phases, order, switches, carriers);
    if found.Err? { return Err(found.error), []; }
    var plan := RenderPhases(found.value, duty, Period(carriers[found.value[0]]));
    return Ok(plan), found.value;
  }

  method ResolveOrder(phases: nat, order: Option<seq<string>>, switches: seq<Switch>, carriers: Carriers)
    returns (r: Result<seq<string>, Code>)
    requires phases >= 2 && OrderReadable(order)
    ensures r == InterleavedVerdict(phases, order, switches, carriers)
    ensures r.Ok? ==> |r.value| == phases && Distinct(r.value) && CarrierVerdict(r.value[0], carriers).None?
    ensures r.Ok? ==> carriers.Keys == Elements(r.value) && PhaseOrder(r.value, order, switches)
  {
    var nets := BoundNets(switches);
    GateNetsDistinct(switches);
    GateNetsAreBound(switches);
    SortedAscends(nets);
    SortedDistinct(nets);
    if |nets| != phases { return Err(InvalidControlDeclaration); }
    var found := if order.Some? then order.value else Sorted(nets);
    if Elements(found) != Elements(nets) { return Err(InvalidControlDeclaration); }
    SameElementsSameLength(found, nets);
    if exists n :: n in found && n !in carriers { return Err(NoCarrier); }
    if carriers.Keys != Elements(found) { return Err(InvalidControlDeclaration); }
    var fault := CheckFrequencies(found, carriers);
    if fault.Some? { return Err(fault.value); }
    var reference := carriers[found[0]].frequency.GetOr(0.0);
    if exists n :: n in found && !Agrees(carriers[n], reference) { return Err(InvalidControlDeclaration); }
    return Ok(found);
  }

  method BoundNets(switches: seq<Switch>) returns (nets: seq<string>)
    ensures nets == GateNets(switches)
  {
    nets := [];
    for k := 0 to |switches|
      invariant nets == GateNets(switches[..k])
    {
      assert switches[..k + 1][..k] == switches[..k];
      if switches[k].control !in nets {
        nets := nets + [switches[k].control];
      }
    }
    assert switches[..|switches|] == switches;
  }

  method CheckFrequencies(order: seq<string>, carriers: Carriers) returns (fault: Option<Code>)
    requires forall n | n in order :: n in carriers
    ensures fault == FrequencyFault(order, 0, carriers)
    ensures fault.None? ==> forall k | 0 <= k < |order| :: Frequency(carriers[order[k]]).Ok?
  {
    for k := 0 to |order|
      invariant FrequencyFault(order, 0, carriers) == FrequencyFault(order, k, carriers)
      invariant forall j | 0 <= j < k :: Frequency(carriers[order[j]]).Ok?
    {
      var f := Frequency(carriers[order[k]]);
      if f.Err? { return Some(f.error); }
    }
    return None;
  }

  method RenderPhases(order: seq<string>, duty: real, period: real) returns (plan: Plan)
    requires order != [] && Distinct(order) && period > 0.0
    ensures plan.period == period && InterleavedPlan(plan, order, duty)
  {
    var windows: map<string, Window> := map[];
    var delays: map<string, real> := map[];
    for k := 0 to |order|
      invariant windows.Keys == delays.Keys == Elements(order[..k])
      invariant forall j | 0 <= j < k :: PhasePlanned(Plan(windows, period, delays), order, j, duty)
    {
      var before := Plan(windows, period, delays);
      windows := windows[order[k] := OnWindow(duty, period)];
      delays := delays[order[k] := PhaseOffset(k, period, |order|)];
      forall j | 0 <= j < k + 1
        ensures PhasePlanned(Plan(windows, period, delays), order, j, duty)
      {
        if j < k {
          assert PhasePlanned(before, order, j, duty) && order[j] != order[k];
        }
      }
      ElementsSnoc(order, k);
    }
    assert order[..|order|] == order;
    plan := Plan(windows, period, delays);
  }

  lemma ElementsSnoc(order: seq<string>, k: nat)
    requires k < |order|
    ensures Elements(order[..k + 1]) == Elements(order[..k]) + {order[k]}
  {
    assert order[..k + 1] == order[..k] + [order[k]];
  }

  lemma {:induction false} SameElementsSameLength(a: seq<string>, b: seq<string>)
    requires Distinct(a) && Distinct(b) && Elements(a) == Elements(b)
    ensures |a| == |b|
  {
    DistinctSize(a);
    DistinctSize(b);
  }

  lemma {:induction false} DistinctSize(a: seq<string>)
    requires Distinct(a)
    ensures |Elements(a)| == |a|
  {
    if a != [] {
      var n := |a| - 1;
      DistinctSize(a[..n]);
      assert a[..n + 1] == a;
      ElementsSnoc(a, n);
    }
  }

  // ------------------------------------------------------------------ all the modes

  /** What the declaration parser already guarantees. */
  ghost predicate Readable(declaration: Declaration) {
    match declaration
    case Undeclared => true
    case Complementary(deadTime) => deadTime >= 0.0
    case Interleaved(phases, order) => phases >= 2 && OrderReadable(order)
    case Paired(pairs, deadTime, shift) => pairs != [] && EachNamedOnce(pairs) && deadTime >= 0.0 && shift >= 0.0
  }

  // what a plan has to be, read off the switches and carriers themselves

  /** The cycle is that of the carrier on the net. */
  ghost predicate Paced(plan: Plan, net: string, carriers: Carriers) {
    net in carriers && carriers[net].frequency.Some? && plan.period * carriers[net].frequency.value == 1.0
  }

  /** On at the start of the cycle for `duty` of it. */
  ghost predicate DutyWindow(w: Window, duty: real, period: real) {
    w.start == 0.0 && w.stop == duty * period
  }

  /** The switch that reaches the reference net is the low side: it is on from a dead
      time after the high side until a dead time before the end of the cycle.  The high
      side is on from the start, a dead time shorter than the duty asks for. */
  ghost predicate SideWindow(w: Window, s: Switch, referenceNet: string, duty: real, period: real, deadTime: real) {
    var high := if duty * period >= deadTime then duty * period - deadTime else 0.0;
    if referenceNet == s.input || referenceNet == s.output then w.start == high + deadTime && w.stop == period - deadTime
    else w.start == 0.0 && w.stop == high
  }

  ghost predicate SidePlanned(plan: Plan, s: Switch, referenceNet: string, duty: real, deadTime: real) {
    s.control in plan.windows && SideWindow(plan.windows[s.control], s, referenceNet, duty, plan.period, deadTime)
  }

  /** The phases in order: the declared one, or the bound nets in code-point order. */
  ghost predicate PhaseOrder(resolved: seq<string>, order: Option<seq<string>>, switches: seq<Switch>) {
    && Distinct(resolved) && Elements(resolved) == BoundControls(switches)
    && if order.Some? then resolved == order.value else Ascending(resolved)
  }

  /** Phase `k` of `N` is on for the duty and `k` `N`ths of a cycle late. */
  ghost predicate PhasesSpread(plan: Plan, resolved: seq<string>, duty: real) {
    && plan.windows.Keys == plan.delays.Keys == Elements(resolved)
    && forall k | 0 <= k < |resolved| ::
         && resolved[k] in plan.windows && DutyWindow(plan.windows[resolved[k]], duty, plan.period)
         && resolved[k] in plan.delays && plan.delays[resolved[k]] * |resolved| as real == k as real * plan.period
  }

  /** The two switches of pair `k`, `k` shifts late, the high side's carrier setting the
      cycle when the pair is the first. */
  ghost predicate PairPlanned(plan: Plan, pairs: seq<(string, string)>, k: nat, byId: map<string, Switch>, referenceNet: string,
                              duty: real, deadTime: real, shift: real)
    requires k < |pairs| && AllKnown(pairs, byId)
  {
    forall id | id == pairs[k].0 || id == pairs[k].1 ::
      && SidePlanned(plan, byId[id], referenceNet, duty, deadTime)
      && byId[id].control in plan.delays && plan.delays[byId[id].control] == k as real * shift
  }

  /** The plan of an accepted compilation, mode by mode. */
  ghost predicate Planned(declaration: Declaration, plan: Plan, duty: real, switches: seq<Switch>, carriers: Carriers,
                          referenceNet: string)
    requires Readable(declaration)
  {
    match declaration
    case Undeclared =>
      && |switches| == 1 && Paced(plan, switches[0].control, carriers) && plan.delays == map[]
      && plan.windows.Keys == {switches[0].control}
      && DutyWindow(plan.windows[switches[0].control], duty, plan.period)
    case Complementary(deadTime) =>
      && |switches| == 2 && plan.delays == map[]
      && plan.windows.Keys == {switches[0].control, switches[1].control}
      && forall i | 0 <= i < 2 ::
           && SidePlanned(plan, switches[i], referenceNet, duty, deadTime)
           && (referenceNet != switches[i].input && referenceNet != switches[i].output ==> Paced(plan, switches[i].control, carriers))
    case Interleaved(phases, order) =>
      exists resolved ::
        |resolved| == phases && PhaseOrder(resolved, order, switches)
        && PhasesSpread(plan, resolved, duty) && Paced(plan, resolved[0], carriers)
    case Paired(pairs, deadTime, shift) =>
      var byId := ById(switches);
      && AllKnown(pairs, byId) && plan.windows.Keys == plan.delays.Keys == ControlNets(byId)
      && (forall k | 0 <= k < |pairs| :: PairPlanned(plan, pairs, k, byId, referenceNet, duty, deadTime, shift))
      && forall id | id == pairs[0].0 || id == pairs[0].1 ::
           referenceNet != byId[id].input && referenceNet != byId[id].output ==> Paced(plan, byId[id].control, carriers)
  }

  /** With one switch a name, the switches by name are the switches. */
  lemma {:induction false} ByIdMeans(switches: seq<Switch>)
    requires forall i, j | 0 <= i < j < |switches| :: switches[i].id != switches[j].id
    ensures ById(switches).Keys == set i | 0 <= i < |switches| :: switches[i].id
    ensures forall i | 0 <= i < |switches| :: switches[i].id in ById(switches) && ById(switches)[switches[i].id] == switches[i]
  {
    if switches != [] {
      var n := |switches| - 1;
      assert forall i | 0 <= i < n :: switches[..n][i] == switches[i];
      ByIdMeans(switches[..n]);
      forall i | 0 <= i < |switches| ensures switches[i].id in ById(switches) && ById(switches)[switches[i].id] == switches[i] {
        if i < n { assert switches[..n][i].id in ById(switches[..n]); }
      }
    }
  }

  /** What every accepted plan looks like, whatever graph it is for. */
  ghost predicate Shaped(declaration: Declaration, plan: Plan, duty: real) {
    plan.period > 0.0 &&
    match declaration
    case Undeclared =>
      plan.delays == map[] && exists net :: SingleOnly(plan, net, duty)
    case Complementary(deadTime) =>
      && deadTime < plan.period / 2.0 && plan.delays == map[]
      && exists leg: Leg :: PairOnly(plan, leg, duty, deadTime)
    case Interleaved(phases, _) =>
      exists order :: |order| == phases && Distinct(order) && InterleavedPlan(plan, order, duty)
    case Paired(pairs, deadTime, shift) =>
      && deadTime < plan.period / 2.0 && shift < plan.period
      && exists legs: seq<Leg> :: |legs| == |pairs| && LegsApart(legs) && PairedPlan(plan, legs, duty, deadTime, shift)
  }

  ghost predicate SingleOnly(plan: Plan, net: string, duty: real) {
    plan.windows == map[net := OnWindow(duty, plan.period)]
  }

  ghost predicate PairOnly(plan: Plan, leg: Leg, duty: real, deadTime: real) {
    && leg.high != leg.low
    && plan.windows == map[leg.high := HighWindow(duty, plan.period, deadTime),
                           leg.low := LowWindow(duty, plan.period, deadTime)]
  }

  /** No two legs, and no two gates of one leg, share a control net. */
  ghost predicate LegsApart(legs: seq<Leg>) {
    && (forall k | 0 <= k < |legs| :: legs[k].high != legs[k].low)
    && (forall i, j | 0 <= i < j < |legs| :: {legs[i].high, legs[i].low} !! {legs[j].high, legs[j].low})
  }

  /** The carriers by net; a net with two carriers is refused before this is used. */
  function CarriersOf(sources: seq<(string, Carrier)>): Carriers {
    if sources == [] then map[]
    else
      var (net, carrier) := sources[|sources| - 1];
      CarriersOf(sources[..|sources| - 1])[net := carrier]
  }

  /** Each net gets the carrier of its own source. */
  lemma {:induction false} CarriersMean(sources: seq<(string, Carrier)>)
    requires OneCarrierEach(sources)
    ensures forall net :: net in CarriersOf(sources) <==> Listed(sources, net)
    ensures forall k | 0 <= k < |sources| ::
      sources[k].0 in CarriersOf(sources) && CarriersOf(sources)[sources[k].0] == sources[k].1
  {
    if sources != [] {
      var n := |sources| - 1;
      CarriersMean(sources[..n]);
      forall net ensures Listed(sources, net) <==> Listed(sources[..n], net) || net == sources[n].0 {
        if Listed(sources[..n], net) {
          var k :| 0 <= k < n && sources[..n][k].0 == net;
          assert sources[k].0 == net;
        }
        if k :| 0 <= k < n && sources[k].0 == net { assert sources[..n][k].0 == net; }
      }
      forall k | 0 <= k < |sources|
        ensures sources[k].0 in CarriersOf(sources) && CarriersOf(sources)[sources[k].0] == sources[k].1
      {
        if k < n { assert sources[..n][k] == sources[k]; }
      }
    }
  }

  /** Some pulse source drives the net. */
  predicate Listed(sources: seq<(string, Carrier)>, net: string) {
    exists k | 0 <= k < |sources| :: sources[k].0 == net
  }

  ghost predicate OneCarrierEach(sources: seq<(string, Carrier)>) {
    forall i, j | 0 <= i < j < |sources| :: sources[i].0 != sources[j].0
  }

  /** Which graph each declaration is for. */
  ghost predicate GraphMeets(declaration: Declaration, switches: seq<Switch>, sources: nat, carriers: Carriers,
                             referenceNet: string)
    requires Readable(declaration)
  {
    match declaration
    case Undeclared => |switches| == 1 && sources == 1 && Driven(switches[0].control, carriers)
    case Complementary(deadTime) => ComplementaryMeets(switches, carriers, referenceNet, deadTime)
    case Interleaved(phases, order) => InterleavedMeets(phases, order, switches, carriers)
    case Paired(pairs, deadTime, shift) => PairedMeets(pairs, deadTime, shift, switches, carriers, referenceNet)
  }

  method CompileControl(declaration: Declaration, switches: seq<Switch>, pulseSources: seq<(string, Carrier)>,
                        duty: real, referenceNet: string) returns (r: Result<Plan, Code>)
    requires Readable(declaration)
    ensures r.Ok? <==>
      && 0.0 <= duty <= 1.0 && OneCarrierEach(pulseSources)
      && GraphMeets(declaration, switches, |pulseSources|, CarriersOf(pulseSources), referenceNet)
    ensures r.Ok? ==> Planned(declaration, r.value, duty, switches, CarriersOf(pulseSources), referenceNet)
    ensures r.Ok? ==> Shaped(declaration, r.value, duty)
    ensures r.Ok? ==> forall net | net in r.value.windows :: Listed(pulseSources, net)
    ensures !(0.0 <= duty <= 1.0) ==> r == Err(InvalidDuty)
    ensures 0.0 <= duty <= 1.0 && !OneCarrierEach(pulseSources) ==> r == Err(MultipleCarriers)
  {
    if !(0.0 <= duty <= 1.0) { return Err(InvalidDuty); }
    var carriers: Carriers := map[];
    for k := 0 to |pulseSources|
      invariant carriers == CarriersOf(pulseSources[..k])
      invariant carriers.Keys == set j | 0 <= j < k :: pulseSources[j].0
      invariant forall i, j | 0 <= i < j < k :: pulseSources[i].0 != pulseSources[j].0
    {
      var (net, carrier) := pulseSources[k];
      assert pulseSources[..k + 1][..k] == pulseSources[..k];
      if net in carriers { return Err(MultipleCarriers); }
      carriers := carriers[net := carrier];
    }
    assert pulseSources[..|pulseSources|] == pulseSources;
    hide GraphMeets; hide Planned; hide Shaped; hide Readable; hide CarriersOf;
    r := PlanGates(declaration, switches, carriers, |pulseSources|, duty, referenceNet);
  }

  /** The mode branches. */
  method PlanGates(declaration: Declaration, switches: seq<Switch>, carriers: Carriers, sources: nat, duty: real,
                   referenceNet: string) returns (r: Result<Plan, Code>)
    requires Readable(declaration)
    ensures r.Ok? <==> GraphMeets(declaration, switches, sources, carriers, referenceNet)
    ensures r.Ok? ==> Planned(declaration, r.value, duty, switches, carriers, referenceNet)
    ensures r.Ok? ==> Shaped(declaration, r.value, duty) && r.value.windows.Keys <= carriers.Keys
  {
    match declaration
    case Undeclared =>
      r := SingleGate(switches, carriers, sources, duty);
      if r.Ok? {
        PeriodPaces(r.value, switches[0].control, carriers);
        assert SingleOnly(r.value, switches[0].control, duty);
      }
    case Complementary(deadTime) =>
      r := PlanComplementary(deadTime, switches, carriers, duty, referenceNet);
    case Interleaved(phases, order) =>
      r := PlanInterleaved(phases, order, switches, carriers, duty, referenceNet);
    case Paired(pairs, deadTime, shift) =>
      r := PlanPaired(pairs, deadTime, shift, switches, carriers, duty, referenceNet);
  }

  lemma PeriodPaces(plan: Plan, net: string, carriers: Carriers)
    requires CarrierVerdict(net, carriers).None? && plan.period == Period(carriers[net])
    ensures Paced(plan, net, carriers)
  {}

  method PlanComplementary(deadTime: real, switches: seq<Switch>, carriers: Carriers, duty: real, referenceNet: string)
    returns (r: Result<Plan, Code>)
    requires deadTime >= 0.0
    ensures r.Ok? <==> ComplementaryMeets(switches, carriers, referenceNet, deadTime)
    ensures r.Ok? ==> Planned(Complementary(deadTime), r.value, duty, switches, carriers, referenceNet)
    ensures r.Ok? ==> Shaped(Complementary(deadTime), r.value, duty) && r.value.windows.Keys <= carriers.Keys
  {
    ComplementaryAcceptedIff(switches, carriers, referenceNet, deadTime);
    hide ComplementaryMeets; hide ComplementaryVerdict;
    ghost var leg;
    r, leg := ComplementaryGates(switches, carriers, referenceNet, deadTime, duty);
    if r.Ok? {
      PeriodPaces(r.value, leg.high, carriers);
      assert PairOnly(r.value, leg, duty, deadTime);
    }
  }

  method PlanInterleaved(phases: nat, order: Option<seq<string>>, switches: seq<Switch>, carriers: Carriers, duty: real,
                         referenceNet: string)
    returns (r: Result<Plan, Code>)
    requires phases >= 2 && OrderReadable(order)
    ensures r.Ok? <==> InterleavedMeets(phases, order, switches, carriers)
    ensures r.Ok? ==> Planned(Interleaved(phases, order), r.value, duty, switches, carriers, referenceNet)
    ensures r.Ok? ==> Shaped(Interleaved(phases, order), r.value, duty) && r.value.windows.Keys <= carriers.Keys
  {
    InterleavedAcceptedIff(phases, order, switches, carriers);
    ReadableOrder(phases, order);
    hide *;
    var resolved;
    r, resolved := InterleavedGates(phases, order, switches, carriers, duty);
    if r.Ok? { PhasesPlanned(phases, order, r.value, resolved, duty, switches, carriers, referenceNet); }
  }

  lemma ReadableOrder(phases: nat, order: Option<seq<string>>)
    requires phases >= 2 && OrderReadable(order)
    ensures Readable(Interleaved(phases, order))
  {}

  lemma PhasesPlanned(phases: nat, order: Option<seq<string>>, plan: Plan, resolved: seq<string>, duty: real,
                      switches: seq<Switch>, carriers: Carriers, referenceNet: string)
    requires phases >= 2 && OrderReadable(order)
    requires |resolved| == phases && PhaseOrder(resolved, order, switches) && InterleavedPlan(plan, resolved, duty)
    requires CarrierVerdict(resolved[0], carriers).None? && plan.period == Period(carriers[resolved[0]])
    ensures Shaped(Interleaved(phases, order), plan, duty) && plan.windows.Keys == Elements(resolved)
    ensures Planned(Interleaved(phases, order), plan, duty, switches, carriers, referenceNet)
  {
    PeriodPaces(plan, resolved[0], carriers);
    PhasesAreSpread(plan, resolved, duty);
    hide Paced; hide InterleavedPlan; hide DutyWindow; hide PhasesSpread; hide Period; hide CarrierVerdict; hide OrderReadable;
    hide Elements; hide BoundControls; hide Distinct; hide Ascending;
  }

  lemma PhasesAreSpread(plan: Plan, resolved: seq<string>, duty: real)
    requires InterleavedPlan(plan, resolved, duty)
    ensures PhasesSpread(plan, resolved, duty) && plan.windows.Keys == Elements(resolved)
  {
    hide DutyWindow; hide PhasePlanned; hide Elements;
    forall k | 0 <= k < |resolved|
      ensures resolved[k] in plan.windows && DutyWindow(plan.windows[resolved[k]], duty, plan.period)
      ensures resolved[k] in plan.delays && plan.delays[resolved[k]] * |resolved| as real == k as real * plan.period
    {
      PhaseSpreads(plan, resolved, k, duty);
    }
  }

  lemma PhaseSpreads(plan: Plan, resolved: seq<string>, k: nat, duty: real)
    requires k < |resolved| && PhasePlanned(plan, resolved, k, duty)
    ensures resolved[k] in plan.windows && DutyWindow(plan.windows[resolved[k]], duty, plan.period)
    ensures resolved[k] in plan.delays && plan.delays[resolved[k]] * |resolved| as real == k as real * plan.period
  {
    OffsetSpreads(k, plan.period, |resolved|);
    hide PhaseOffset;
  }

  /** `N` times the delay of phase `k` is `k` cycles. */
  lemma OffsetSpreads(k: nat, period: real, phases: nat)
    requires phases > 0
    ensures PhaseOffset(k, period, phases) * phases as real == k as real * period
  {
    var a, b := k as real * period, phases as real;
    assert a / b * b == a;
  }

  method PlanPaired(pairs: seq<(string, string)>, deadTime: real, shift: real, switches: seq<Switch>, carriers: Carriers,
                    duty: real, referenceNet: string) returns (r: Result<Plan, Code>)
    requires pairs != [] && EachNamedOnce(pairs) && deadTime >= 0.0 && shift >= 0.0
    ensures r.Ok? <==> PairedMeets(pairs, deadTime, shift, switches, carriers, referenceNet)
    ensures r.Ok? ==> Planned(Paired(pairs, deadTime, shift), r.value, duty, switches, carriers, referenceNet)
    ensures r.Ok? ==> Shaped(Paired(pairs, deadTime, shift), r.value, duty) && r.value.windows.Keys <= carriers.Keys
  {
    PairedAcceptedIff(pairs, deadTime, shift, switches, carriers, referenceNet);
    EachInSomePairIff(pairs, ById(switches));
    hide PairedMeets; hide PairedVerdict; hide InSomePair;
    ghost var legs;
    r, legs := PairedGates(pairs, deadTime, shift, switches, carriers, duty, referenceNet);
    if r.Ok? {
      LegsUpToReady(pairs, |pairs|, ById(switches), carriers, referenceNet);
      assert LegsApart(legs);
      BridgesAcceptedIff(pairs, |pairs|, ById(switches), carriers, referenceNet);
      PairsPlanned(pairs, deadTime, shift, switches, carriers, duty, referenceNet, r.value, legs);
      hide LegsUpTo; hide Planned; hide BridgesMeet;
      forall net | net in NetsOf(legs) ensures net in carriers { InNets(legs, net); }
    }
  }

  lemma PairsPlanned(pairs: seq<(string, string)>, deadTime: real, shift: real, switches: seq<Switch>, carriers: Carriers,
                     duty: real, referenceNet: string, plan: Plan, legs: seq<Leg>)
    requires Readable(Paired(pairs, deadTime, shift)) && AllKnown(pairs, ById(switches))
    requires NamedSwitches(pairs) == ById(switches).Keys
    requires LegsRead(legs, pairs, |pairs|, ById(switches), referenceNet)
    requires BridgesMeet(pairs, |pairs|, ById(switches), carriers, referenceNet)
    requires LegsReady(legs, carriers) && plan.period == LegPeriod(legs, carriers)
    requires PairedPlan(plan, legs, duty, deadTime, shift)
    ensures Planned(Paired(pairs, deadTime, shift), plan, duty, switches, carriers, referenceNet)
  {
    var byId := ById(switches);
    BridgeNets(pairs, byId, legs, referenceNet);
    PeriodPaces(plan, legs[0].high, carriers);
    assert NetsOf(legs) == ControlNets(byId) && plan.windows.Keys == plan.delays.Keys == ControlNets(byId);
    assert forall k | 0 <= k < |pairs| :: LegPlanned(plan, legs[k], k, duty, deadTime, shift) && BridgeMeets(pairs[k], byId, carriers, referenceNet);
    assert Paced(plan, LegRead(pairs[0], byId, referenceNet).high, carriers);
    hide NetsOf; hide ControlNets; hide LegsReady; hide LegPlanned; hide BridgeMeets; hide BridgesMeet; hide PairedPlan; hide LegRead;
    hide PairPlanned; hide Paced; hide LegPeriod; hide ById; hide NamedSwitches; hide EachNamedOnce;
    forall k | 0 <= k < |pairs| ensures PairPlanned(plan, pairs, k, byId, referenceNet, duty, deadTime, shift) {
      PairIsPlanned(plan, pairs, k, byId, carriers, referenceNet, duty, deadTime, shift);
    }
    FirstPairPaces(plan, pairs, byId, carriers, referenceNet);
  }

  lemma PairIsPlanned(plan: Plan, pairs: seq<(string, string)>, k: nat, byId: map<string, Switch>, carriers: Carriers,
                      referenceNet: string, duty: real, deadTime: real, shift: real)
    requires k < |pairs| && AllKnown(pairs, byId) && BridgeMeets(pairs[k], byId, carriers, referenceNet)
    requires LegPlanned(plan, LegRead(pairs[k], byId, referenceNet), k, duty, deadTime, shift)
    ensures PairPlanned(plan, pairs, k, byId, referenceNet, duty, deadTime, shift)
  {}

  lemma FirstPairPaces(plan: Plan, pairs: seq<(string, string)>, byId: map<string, Switch>, carriers: Carriers, referenceNet: string)
    requires pairs != [] && AllKnown(pairs, byId) && BridgeMeets(pairs[0], byId, carriers, referenceNet)
    requires Paced(plan, LegRead(pairs[0], byId, referenceNet).high, carriers)
    ensures forall id | id == pairs[0].0 || id == pairs[0].1 ::
      referenceNet != byId[id].input && referenceNet != byId[id].output ==> Paced(plan, byId[id].control, carriers)
  {}

  /** Without a declaration: exactly one switch and one carrier, on the same net. */
  method SingleGate(switches: seq<Switch>, carriers: Carriers, sources: nat, duty: real) returns (r: Result<Plan, Code>)
    ensures r.Ok? <==> |switches| == 1 && sources == 1 && CarrierVerdict(switches[0].control, carriers).None?
    ensures r.Ok? ==>
      && r.value.period == Period(carriers[switches[0].control])
      && r.value.windows == map[switches[0].control := OnWindow(duty, r.value.period)] && r.value.delays == map[]
  {
    if |switches| != 1 { return Err(MultipleActuators); }
    if sources == 0 { return Err(NoCarrier); }
    if sources > 1 { return Err(MultipleCarriers); }
    var net := switches[0].control;
    if net !in carriers { return Err(NoCarrier); }
    var frequency := Frequency(carriers[net]);
    if frequency.Err? { return Err(frequency.error); }
    var period := Period(carriers[net]);
    return Ok(Plan(map[net := OnWindow(duty, period)], period, map[]));
  }

  /** A window that starts and stops inside the cycle. */
  ghost predicate Fits(w: Window, period: real) {
    0.0 <= w.start <= period && w.stop <= period
  }

  lemma WindowsFit(duty: real, period: real, deadTime: real)
    requires 0.0 <= duty <= 1.0 && period > 0.0
    ensures Fits(OnWindow(duty, period), period)
    ensures 0.0 <= deadTime < period / 2.0 ==>
      Fits(HighWindow(duty, period, deadTime), period) && Fits(LowWindow(duty, period, deadTime), period)
  {
    Share(duty, period, duty * period);
  }

  /** Every gate of every accepted plan lies inside the switching cycle. */
  lemma PlannedWindowsFit(declaration: Declaration, plan: Plan, duty: real, net: string)
    requires Readable(declaration) && Shaped(declaration, plan, duty) && 0.0 <= duty <= 1.0
    requires net in plan.windows
    ensures Fits(plan.windows[net], plan.period)
  {
    match declaration
    case Undeclared =>
      WindowsFit(duty, plan.period, 0.0);
    case Complementary(deadTime) =>
      WindowsFit(duty, plan.period, deadTime);
    case Interleaved(phases, _) =>
      WindowsFit(duty, plan.period, 0.0);
      var order :| |order| == phases && Distinct(order) && InterleavedPlan(plan, order, duty);
      var k :| 0 <= k < |order| && order[k] == net;
      assert PhasePlanned(plan, order, k, duty);
    case Paired(pairs, deadTime, shift) =>
      WindowsFit(duty, plan.period, deadTime);
      var legs: seq<Leg> :| |legs| == |pairs| && LegsApart(legs) && PairedPlan(plan, legs, duty, deadTime, shift);
      InNets(legs, net);
      var k :| 0 <= k < |legs| && (net == legs[k].high || net == legs[k].low);
      assert LegPlanned(plan, legs[k], k, duty, deadTime, shift);
  }
}
