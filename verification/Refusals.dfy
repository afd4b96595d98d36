/** What a control declaration that does not fit its graph is refused with. */
module Refusals {
  import opened Wrappers
  import opened GateControl

  /** A net without a usable carrier: none at all, one without a frequency, or one whose
      frequency is not positive. */
  predicate CarrierFault(net: string, carriers: Carriers, code: Code) {
    if net !in carriers then code == NoCarrier
    else if carriers[net].frequency.None? then code == MissingParameter
    else carriers[net].frequency.value <= 0.0 && code == InvalidParameter
  }

  lemma CarrierVerdictMeans(net: string, carriers: Carriers)
    ensures CarrierVerdict(net, carriers).None? <==> Driven(net, carriers)
    ensures forall code :: CarrierVerdict(net, carriers) == Some(code) <==> CarrierFault(net, carriers, code)
  {}

  /** A timing fault is a fault of the declaration, except for a carrier whose own dead
      time is negative. */
  ghost predicate TimingFault(nets: set<string>, carriers: Carriers, code: Code) {
    code == InvalidControlDeclaration
    || (code == InvalidParameter && exists net | net in nets :: NegativeDeadTime(net, carriers))
  }

  predicate NegativeDeadTime(net: string, carriers: Carriers) {
    net in carriers && carriers[net].deadTime.Some? && carriers[net].deadTime.value < 0.0
  }

  lemma {:induction false} DeadTimesMean(legs: seq<Leg>, k: nat, carriers: Carriers, deadTime: real)
    requires k <= |legs| && forall i | 0 <= i < |legs| :: legs[i].high in carriers && legs[i].low in carriers
    ensures var verdict := LegDeadTimes(legs, k, carriers, deadTime);
      verdict.Some? ==> TimingFault(NetsOf(legs), carriers, verdict.value)
    decreases |legs| - k
  {
    if k < |legs| {
      InNets(legs, legs[k].high);
      InNets(legs, legs[k].low);
      hide NetsOf;
      DeadTimesMean(legs, k + 1, carriers, deadTime);
      assert NegativeDeadTime(legs[k].high, carriers) || NegativeDeadTime(legs[k].low, carriers) ==>
        TimingFault(NetsOf(legs), carriers, InvalidParameter);
    }
  }

  lemma TimingVerdictMeans(legs: seq<Leg>, carriers: Carriers, deadTime: real, shift: real)
    requires legs != [] && LegsReady(legs, carriers)
    ensures var verdict := TimingVerdict(legs, carriers, deadTime, shift);
      verdict.Some? ==> TimingFault(NetsOf(legs), carriers, verdict.value)
  {
    DeadTimesMean(legs, 0, carriers, deadTime);
    hide LegFrequenciesAgree; hide LegDeadTimes; hide NetsOf;
  }

  // --------------------------------------------------------------- one complementary pair

  /** Two switches, one of them at the reference net, on two nets of their own that have
      the only carriers. */
  predicate IsPair(switches: seq<Switch>, carriers: Carriers, referenceNet: string) {
    && |switches| == 2
    && ((referenceNet == switches[0].input || referenceNet == switches[0].output)
        != (referenceNet == switches[1].input || referenceNet == switches[1].output))
    && switches[0].control != switches[1].control
    && carriers.Keys == {switches[0].control, switches[1].control}
  }

  /** The control nets of the switch away from the reference net and of the one at it. */
  function SidesOf(switches: seq<Switch>, referenceNet: string): (string, string)
    requires |switches| == 2
  {
    if referenceNet == switches[0].input || referenceNet == switches[0].output
    then (switches[1].control, switches[0].control) else (switches[0].control, switches[1].control)
  }

  ghost predicate ComplementaryFault(switches: seq<Switch>, carriers: Carriers, referenceNet: string, code: Code) {
    if !IsPair(switches, carriers, referenceNet) then code == AmbiguousComplementaryControl
    else
      var (high, low) := SidesOf(switches, referenceNet);
      if !Driven(high, carriers) then CarrierFault(high, carriers, code)
      else if !Driven(low, carriers) then CarrierFault(low, carriers, code)
      else TimingFault({high, low}, carriers, code)
  }

  lemma ComplementaryRefusal(switches: seq<Switch>, carriers: Carriers, referenceNet: string, deadTime: real)
    ensures var verdict := ComplementaryVerdict(switches, carriers, referenceNet, deadTime);
      verdict.Err? ==> ComplementaryFault(switches, carriers, referenceNet, verdict.error)
  {
    if IsPair(switches, carriers, referenceNet) {
      var (high, low) := SidesOf(switches, referenceNet);
      CarrierVerdictMeans(high, carriers);
      CarrierVerdictMeans(low, carriers);
      assert {high, low} == {switches[0].control, switches[1].control};
      var leg := Leg(high, low);
      assert NetsOf([leg]) == {high, low} by { assert [leg][..0] == []; }
      if Driven(high, carriers) && Driven(low, carriers) { TimingVerdictMeans([leg], carriers, deadTime, 0.0); }
      hide TimingVerdict; hide TimingFault; hide CarrierVerdict; hide CarrierFault; hide NetsOf; hide Driven;
    }
  }

  // --------------------------------------------------------------------- several legs

  ghost predicate PairFault(pairs: seq<(string, string)>, k: nat, byId: map<string, Switch>, carriers: Carriers,
                            referenceNet: string, code: Code)
    requires k < |pairs| && AllKnown(pairs, byId)
  {
    var high, low := HighOf(pairs[k], byId, referenceNet).control, LowOf(pairs[k], byId, referenceNet).control;
    if !HalfBridge(pairs[k], byId, referenceNet) || high == low || !GatesApart(pairs, k, byId)
    then code == AmbiguousComplementaryControl
    else if !Driven(high, carriers) then CarrierFault(high, carriers, code)
    else !Driven(low, carriers) && CarrierFault(low, carriers, code)
  }

  /** The fault of the first pair that has one. */
  ghost predicate FirstPairFault(pairs: seq<(string, string)>, n: nat, byId: map<string, Switch>, carriers: Carriers,
                                 referenceNet: string, code: Code)
    requires n <= |pairs| && AllKnown(pairs, byId)
  {
    exists k: nat | k < n ::
      BridgesMeet(pairs, k, byId, carriers, referenceNet) && PairFault(pairs, k, byId, carriers, referenceNet, code)
  }

  ghost predicate PairedFault(pairs: seq<(string, string)>, switches: seq<Switch>, carriers: Carriers, referenceNet: string, code: Code)
  {
    var byId := ById(switches);
    if !(forall id :: id in byId <==> InSomePair(id, pairs)) || !AllKnown(pairs, byId) then code == InvalidControlDeclaration
    else if !BridgesMeet(pairs, |pairs|, byId, carriers, referenceNet) then
      FirstPairFault(pairs, |pairs|, byId, carriers, referenceNet, code)
    else TimingFault(ControlNets(byId), carriers, code)
  }

  lemma PairRefusal(pairs: seq<(string, string)>, k: nat, legs: seq<Leg>, byId: map<string, Switch>, carriers: Carriers,
                    referenceNet: string)
    requires k < |pairs| && AllKnown(pairs, byId) && LegsRead(legs, pairs, k, byId, referenceNet)
    requires forall i | 0 <= i < k :: HalfBridge(pairs[i], byId, referenceNet)
    ensures var verdict := LegVerdict(pairs[k], legs, byId, carriers, referenceNet);
      verdict.Err? ==> PairFault(pairs, k, byId, carriers, referenceNet, verdict.error)
  {
    var high, low := HighOf(pairs[k], byId, referenceNet).control, LowOf(pairs[k], byId, referenceNet).control;
    InNets(legs, high);
    InNets(legs, low);
    CarrierVerdictMeans(high, carriers);
    CarrierVerdictMeans(low, carriers);
    hide NetsOf; hide CarrierVerdict; hide CarrierFault; hide Driven;
    forall i | 0 <= i < k ensures GatesOf(pairs[i], byId) == {legs[i].high, legs[i].low} {}
    assert GatesOf(pairs[k], byId) == {high, low};
  }

  lemma {:induction false} LegsRefusal(pairs: seq<(string, string)>, n: nat, byId: map<string, Switch>, carriers: Carriers,
                                       referenceNet: string)
    requires n <= |pairs| && AllKnown(pairs, byId)
    ensures var legs := LegsUpTo(pairs, n, byId, carriers, referenceNet);
      legs.Err? ==> FirstPairFault(pairs, n, byId, carriers, referenceNet, legs.error)
  {
    if n > 0 {
      LegsRefusal(pairs, n - 1, byId, carriers, referenceNet);
      BridgesAcceptedIff(pairs, n - 1, byId, carriers, referenceNet);
      BridgesNext(pairs, n - 1, byId, carriers, referenceNet);
      var before := LegsUpTo(pairs, n - 1, byId, carriers, referenceNet);
      hide LegVerdict; hide BridgesMeet; hide PairFault; hide LegsRead; hide HalfBridge;
      if before.Ok? { PairRefusal(pairs, n - 1, before.value, byId, carriers, referenceNet); }
    }
  }

  lemma PairedRefusal(pairs: seq<(string, string)>, deadTime: real, shift: real, switches: seq<Switch>, carriers: Carriers,
                      referenceNet: string)
    requires pairs != []
    ensures var verdict := PairedVerdict(pairs, deadTime, shift, switches, carriers, referenceNet);
      verdict.Some? ==> PairedFault(pairs, switches, carriers, referenceNet, verdict.value)
  {
    var byId := ById(switches);
    EachInSomePairIff(pairs, byId);
    hide BridgesMeet; hide FirstPairFault; hide TimingVerdict; hide TimingFault; hide InSomePair; hide ControlNets;
    hide ById; hide LegsUpTo; hide LegsReady; hide LegsRead; hide NetsOf;
    if NamedSwitches(pairs) == byId.Keys && AllKnown(pairs, byId) {
      LegsRefusal(pairs, |pairs|, byId, carriers, referenceNet);
      BridgesAcceptedIff(pairs, |pairs|, byId, carriers, referenceNet);
      var found := LegsUpTo(pairs, |pairs|, byId, carriers, referenceNet);
      if found.Ok? {
        LegsUpToReady(pairs, |pairs|, byId, carriers, referenceNet);
        TimingVerdictMeans(found.value, carriers, deadTime, shift);
        BridgeNets(pairs, byId, found.value, referenceNet);
      }
    }
  }

  // ------------------------------------------------------------------ interleaved phases

  ghost predicate InterleavedFault(phases: nat, order: Option<seq<string>>, switches: seq<Switch>, carriers: Carriers, code: Code) {
    var nets := BoundControls(switches);
    if |nets| != phases || (order.Some? && Elements(order.value) != nets) then code == InvalidControlDeclaration
    else if !(nets <= carriers.Keys) then code == NoCarrier
    else if nets != carriers.Keys then code == InvalidControlDeclaration
    else if !AllDriven(nets, carriers) then SomeCarrierFault(nets, carriers, code)
    else code == InvalidControlDeclaration
  }

  ghost predicate AllDriven(nets: set<string>, carriers: Carriers) {
    forall net | net in nets :: Driven(net, carriers)
  }

  ghost predicate SomeCarrierFault(nets: set<string>, carriers: Carriers, code: Code) {
    exists net | net in nets :: CarrierFault(net, carriers, code)
  }

  lemma {:induction false} FrequencyFaultMeans(order: seq<string>, k: nat, nets: set<string>, carriers: Carriers)
    requires k <= |order| && forall n | n in order :: n in carriers && n in nets
    ensures var fault := FrequencyFault(order, k, carriers); fault.Some? ==> SomeCarrierFault(nets, carriers, fault.value)
    decreases |order| - k
  {
    if k < |order| {
      FrequencyFaultMeans(order, k + 1, nets, carriers);
      assert order[k] in order;
    }
  }

  lemma CarriersRefused(resolved: seq<string>, nets: set<string>, carriers: Carriers)
    requires Elements(resolved) == nets == carriers.Keys
    ensures forall n | n in resolved :: n in carriers
    ensures FrequencyFault(resolved, 0, carriers).None? <==> AllDriven(nets, carriers)
    ensures FrequencyFault(resolved, 0, carriers).Some? ==>
      SomeCarrierFault(nets, carriers, FrequencyFault(resolved, 0, carriers).value)
  {
    ElementsMean(resolved);
    FrequencyFaultMeans(resolved, 0, nets, carriers);
    FrequencyFaultNoneIff(resolved, 0, carriers);
    hide FrequencyFault; hide Elements; hide Driven; hide SomeCarrierFault;
    assert forall i | 0 <= i < |resolved| :: resolved[i] in resolved;
    forall n | n in nets ensures exists i :: 0 <= i < |resolved| && resolved[i] == n { assert n in resolved; }
  }

  lemma InterleavedRefusal(phases: nat, order: Option<seq<string>>, switches: seq<Switch>, carriers: Carriers)
    requires phases >= 2 && OrderReadable(order)
    ensures var verdict := InterleavedVerdict(phases, order, switches, carriers);
      verdict.Err? ==> InterleavedFault(phases, order, switches, carriers, verdict.error)
  {
    var gates, nets := GateNets(switches), BoundControls(switches);
    var resolved := if order.Some? then order.value else Sorted(gates);
    GatesAre(switches);
    ElementsMean(resolved);
    hide GateNets; hide Sorted; hide FrequencyFault; hide Agrees; hide BoundControls; hide Elements;
    hide AllDriven; hide SomeCarrierFault; hide OrderReadable;
    if |gates| == phases && Elements(resolved) == nets {
      assert nets <= carriers.Keys <==> !exists n :: n in resolved && n !in carriers;
      if nets == carriers.Keys {
        CarriersRefused(resolved, nets, carriers);
        ListedRefusal(phases, order, switches, carriers, resolved);
      }
    }
  }

  /** Once the nets and the carriers are right only a frequency can be wrong. */
  lemma ListedRefusal(phases: nat, order: Option<seq<string>>, switches: seq<Switch>, carriers: Carriers, resolved: seq<string>)
    requires phases >= 2 && |GateNets(switches)| == phases
    requires resolved == if order.Some? then order.value else Sorted(GateNets(switches))
    requires Elements(resolved) == Elements(GateNets(switches)) == carriers.Keys
    requires forall n | n in resolved :: n in carriers
    ensures var verdict := InterleavedVerdict(phases, order, switches, carriers);
      verdict.Err? ==>
        verdict.error == match FrequencyFault(resolved, 0, carriers) case Some(e) => e case None => InvalidControlDeclaration
  {
    hide GateNets; hide Sorted; hide FrequencyFault; hide Agrees; hide Elements;
  }

  lemma ElementsMean(list: seq<string>)
    ensures forall n :: n in Elements(list) <==> n in list
  {}

  lemma GatesAre(switches: seq<Switch>)
    ensures var gates, nets := GateNets(switches), BoundControls(switches);
      Elements(gates) == nets && Elements(Sorted(gates)) == nets && |gates| == |nets|
  {
    var gates := GateNets(switches);
    GateNetsAreBound(switches);
    GateNetsDistinct(switches);
    DistinctSize(gates);
    SortedDistinct(gates);
    hide Sorted; hide GateNets;
  }
}
