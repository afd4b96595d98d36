/** The component loop: element names, synthetic carrier nodes, and the cards that
    drive each gate net, from the declared nets to whole runs. */
module Netlist {
  import opened Wrappers
  import opened RealMod
  import opened GateControl
  import opened GateSignal
  import opened Interleaving
  import opened Cards

  /** A pulse source names the gate net it drives, the node its carrier is written
      against, and what the carrier declares; an actuator is a controlled switch; any
      other device has a letter and ports, none of which takes a control net. */
  datatype Component =
    | PulseSource(id: string, net: string, negative: string, amplitude: real, carrier: Carrier)
    | Actuator(switch: Switch)
    | Device(id: string, letter: char, ports: seq<Port>)

  datatype Port = Port(net: string, electricalOnly: bool)

  datatype NetKind = Electrical | Control | Reference | Uncompilable

  /** The reference net is written as ground. */
  function Node(net: string, referenceNet: string): string {
    if net == referenceNet then GROUND else net
  }

  /** Declared nets keep nodes of their own exactly when no other net is called as
      ground is. */
  lemma NodesApartIff(nets: set<string>, referenceNet: string)
    requires referenceNet in nets
    ensures (forall a, b | a in nets && b in nets && a != b :: Node(a, referenceNet) != Node(b, referenceNet))
       <==> referenceNet == GROUND || GROUND !in nets
  {
    if referenceNet != GROUND && GROUND in nets {
      assert Node(GROUND, referenceNet) == Node(referenceNet, referenceNet);
    }
  }

  // ------------------------------------------------------------- net kinds and ports

  predicate Conducts(kind: NetKind) { kind.Electrical? || kind.Reference? }

  /** Every port is bound to a declared net, as a descriptor's own checks see to. */
  predicate Bound(kinds: map<string, NetKind>, component: Component) {
    match component
    case PulseSource(_, net, negative, _, _) => net in kinds && negative in kinds
    case Actuator(switch) => switch.control in kinds && switch.input in kinds && switch.output in kinds
    case Device(_, _, ports) => forall i | 0 <= i < |ports| :: ports[i].net in kinds
  }

  /** Every port is bound to a net of a kind it accepts. */
  predicate PortsFit(kinds: map<string, NetKind>, component: Component)
    requires Bound(kinds, component)
  {
    match component
    case PulseSource(_, net, negative, _, _) => kinds[net].Control? && Conducts(kinds[negative])
    case Actuator(switch) => kinds[switch.control].Control? && Conducts(kinds[switch.input]) && Conducts(kinds[switch.output])
    case Device(_, _, ports) =>
      forall i | 0 <= i < |ports| :: kinds[ports[i].net].Electrical? || (kinds[ports[i].net].Reference? && !ports[i].electricalOnly)
  }

  predicate AllBound(kinds: map<string, NetKind>, components: seq<Component>) {
    forall i | 0 <= i < |components| :: Bound(kinds, components[i])
  }

  predicate AllPortsFit(kinds: map<string, NetKind>, components: seq<Component>)
    requires AllBound(kinds, components)
  {
    forall i | 0 <= i < |components| :: PortsFit(kinds, components[i])
  }

  /** What a port needs of its net, and the kinds of net that offer it. */
  datatype Need = Command | Conductor | LiveConductor

  function Offering(need: Need): set<NetKind> {
    match need
    case Command => {Control}
    case Conductor => {Electrical, Reference}
    case LiveConductor => {Electrical}
  }

  /** The bound nets of a component's ports and what each port needs. */
  function PortsOf(component: Component): seq<(string, Need)> {
    match component
    case PulseSource(_, net, negative, _, _) => [(net, Command), (negative, Conductor)]
    case Actuator(switch) => [(switch.input, Conductor), (switch.output, Conductor), (switch.control, Command)]
    case Device(_, _, ports) =>
      seq(|ports|, i requires 0 <= i < |ports| => (ports[i].net, if ports[i].electricalOnly then LiveConductor else Conductor))
  }

  predicate PortAccepted(kinds: map<string, NetKind>, port: (string, Need)) {
    port.0 in kinds && kinds[port.0] in Offering(port.1)
  }

  ghost predicate PortsAccepted(kinds: map<string, NetKind>, components: seq<Component>) {
    forall i, p | 0 <= i < |components| && p in PortsOf(components[i]) :: PortAccepted(kinds, p)
  }

  lemma PortsFitMeans(kinds: map<string, NetKind>, component: Component)
    requires Bound(kinds, component)
    ensures PortsFit(kinds, component) <==> forall p | p in PortsOf(component) :: PortAccepted(kinds, p)
  {
    var ports := PortsOf(component);
    match component
    case PulseSource(_, net, negative, _, _) =>
      assert ports[0] in ports && ports[1] in ports;
    case Actuator(switch) =>
      assert ports[0] in ports && ports[1] in ports && ports[2] in ports;
    case Device(_, _, list) =>
      forall i | 0 <= i < |list|
        ensures ports[i] in ports
        ensures PortAccepted(kinds, ports[i])
           <==> kinds[list[i].net].Electrical? || (kinds[list[i].net].Reference? && !list[i].electricalOnly)
      {
        assert ports[i] == (list[i].net, if list[i].electricalOnly then LiveConductor else Conductor);
      }
      hide PortAccepted; hide PortsOf;
      assert forall p :: p in ports <==> exists i :: 0 <= i < |list| && ports[i] == p;
  }

  lemma AllPortsFitMeans(kinds: map<string, NetKind>, components: seq<Component>)
    requires AllBound(kinds, components)
    ensures AllPortsFit(kinds, components) <==> PortsAccepted(kinds, components)
  {
    hide PortsFit; hide Bound; hide PortsOf; hide PortAccepted;
    forall i | 0 <= i < |components|
      ensures PortsFit(kinds, components[i]) <==> forall p | p in PortsOf(components[i]) :: PortAccepted(kinds, p)
    {
      PortsFitMeans(kinds, components[i]);
    }
  }

  predicate AllCompilable(kinds: map<string, NetKind>) {
    forall net | net in kinds :: !kinds[net].Uncompilable?
  }

  function ReferenceNets(kinds: map<string, NetKind>): set<string> {
    set net | net in kinds && kinds[net].Reference?
  }

  /** One reference net, no net without an electrical meaning, and every port fits. */
  ghost predicate CheckedNets(kinds: map<string, NetKind>, components: seq<Component>, reference: string)
    requires AllBound(kinds, components)
  {
    AllCompilable(kinds) && ReferenceNets(kinds) == {reference} && PortsAccepted(kinds, components)
  }

  /** Reads the nets and checks every port. */
  method CheckNets(kinds: map<string, NetKind>, components: seq<Component>) returns (r: Result<string, Code>)
    requires AllBound(kinds, components)
    ensures r.Ok? ==> CheckedNets(kinds, components, r.value)
    ensures r.Err? ==> forall reference :: !CheckedNets(kinds, components, reference)
    ensures r.Err? ==> r.error == if !AllCompilable(kinds) || |ReferenceNets(kinds)| == 1 then UnsupportedNetKind else AmbiguousReferenceNet
  {
    AllPortsFitMeans(kinds, components);
    hide PortsAccepted; hide PortsFit;
    if !AllCompilable(kinds) { return Err(UnsupportedNetKind); }
    var references := ReferenceNets(kinds);
    if |references| != 1 { return Err(AmbiguousReferenceNet); }
    var reference :| reference in references;
    OnlyOne(references, reference);
    for k := 0 to |components|
      invariant forall i | 0 <= i < k :: PortsFit(kinds, components[i])
    {
      if !PortsFit(kinds, components[k]) { return Err(UnsupportedNetKind); }
    }
    return Ok(reference);
  }

  lemma OnlyOne(s: set<string>, x: string)
    requires |s| == 1 && x in s
    ensures s == {x}
  {
    assert |s - {x}| == 0;
  }

  // ----------------------------------------------------------------- synthetic nodes

  /** `base` with `k` underscores after it. */
  function Padded(base: string, k: nat): string {
    if k == 0 then base else Padded(base, k - 1) + "_"
  }

  lemma {:induction false} PaddedShape(base: string, k: nat)
    ensures |Padded(base, k)| == |base| + k && base <= Padded(base, k)
  {
    if k > 0 { PaddedShape(base, k - 1); }
  }

  /** The shortest padding of `base` that is not taken. */
  ghost predicate Synthetic(node: string, base: string, taken: set<string>) {
    node !in taken && exists k: nat :: node == Padded(base, k) && forall j: nat | j < k :: Padded(base, j) in taken
  }

  method SyntheticNode(base: string, taken: set<string>) returns (candidate: string)
    ensures Synthetic(candidate, base, taken)
    ensures base <= candidate
  {
    candidate := base;
    ghost var k: nat := 0;
    ghost var longer := taken;
    while candidate in taken
      invariant candidate == Padded(base, k)
      invariant forall j: nat | j < k :: Padded(base, j) in taken
      invariant forall node | node in taken && |node| >= |candidate| :: node in longer
      decreases longer
    {
      longer := longer - {candidate};
      candidate := candidate + "_";
      k := k + 1;
    }
    PaddedShape(base, k);
  }

  method SyntheticNodes(net: string, taken: set<string>) returns (pulseNode: string, tailNode: string)
    ensures Synthetic(pulseNode, net + "_pulse", taken) && Synthetic(tailNode, net + "_tail", taken)
    ensures pulseNode != tailNode && pulseNode !in taken && tailNode !in taken
    ensures pulseNode != GROUND && tailNode != GROUND
  {
    pulseNode := SyntheticNode(net + "_pulse", taken);
    tailNode := SyntheticNode(net + "_tail", taken);
    assert pulseNode[|net| + 1] == (net + "_pulse")[|net| + 1] == 'p';
    assert tailNode[|net| + 1] == (net + "_tail")[|net| + 1] == 't';
  }

  // ----------------------------------------------------------------- the component loop

  /** The compiler's working state: name counters, node names in use, cards so far. */
  class Compilation {
    ghost const nets: set<string>
    var counters: map<char, nat>
    var taken: set<string>
    var cards: seq<Card>

    constructor (declared: set<string>)
      ensures nets == declared && Valid()
      ensures cards == [] && taken == declared && counters == map[]
    {
      nets := declared;
      counters, taken, cards := map[], declared, [];
    }

    ghost predicate Valid()
      reads this
    {
      WellFormed(cards, counters, nets, taken)
    }

    /** `counters[letter] = counters.get(letter, 0) + 1`, and the name it makes. */
    method NextName(letter: char) returns (name: Name)
      modifies this`counters
      ensures name.letter == letter
      ensures name.index == (if letter in old(counters) then old(counters)[letter] else 0) + 1
      ensures counters == old(counters)[letter := name.index]
    {
      counters := counters[letter := (if letter in counters then counters[letter] else 0) + 1];
      name := Name(letter, counters[letter]);
    }

    /** Writes one gate; `p` and `q` are the synthetic nodes it would use. */
    method RenderGate(name: Name, net: string, d: Driver, w: Window, phase: real, period: real, eps: real)
      returns (tail: real, ghost p: string, ghost q: string, ghost tailName: Name, ghost sumName: Name)
      requires Valid() && period > 0.0 && net in nets && eps >= 0.0 && Counted(counters, name)
      requires d.reference in nets || d.reference == GROUND
      requires forall i | 0 <= i < |cards| :: cards[i].name != name
      modifies this
      ensures Valid()
      ensures tail > 0.0 ==>
        Synthetic(p, net + "_pulse", old(taken)) && Synthetic(q, net + "_tail", old(taken)) && p != q
      ensures tail > 0.0 ==> p != GROUND && q != GROUND
      ensures tail == if w.stop <= w.start then 0.0 else TailUntil(w, phase, eps)
      ensures taken == old(taken) + if tail > 0.0 then {p, q} else {}
      ensures cards == old(cards) + GateCards(name, net, d, w, phase, period, eps, p, q, tailName, sumName)
    {
      p, q, tail, tailName, sumName := net, net, 0.0, name, name;
      if w.stop <= w.start {
        AddSource(Zero(name, net, d.reference), net, d, w, phase, period, eps);
        return;
      }
      var rise := FirstRise(w, phase, period, eps);
      tail := TailUntil(w, phase, eps);
      if tail <= 0.0 {
        AddSource(Pulse(name, net, d.reference, d.amplitude, rise, w.stop - w.start, period), net, d, w, phase, period, eps);
        return;
      }
      p, q, tailName, sumName := AddPulseAndTail(name, net, d, w, phase, period, eps, rise, tail);
    }

    /** A gate that needs one source only. */
    method AddSource(card: Card, net: string, d: Driver, w: Window, phase: real, period: real, eps: real)
      requires Valid() && period > 0.0 && net in nets && Counted(counters, card.name)
      requires d.reference in nets || d.reference == GROUND
      requires !Straddles(w, phase, eps)
      requires [card] == GateCards(card.name, net, d, w, phase, period, eps, net, net, card.name, card.name)
      requires forall i | 0 <= i < |cards| :: cards[i].name != card.name
      modifies this`cards
      ensures Valid() && cards == old(cards) + [card]
    {
      GateCardsWellFormed(card.name, net, d, w, phase, period, eps, net, net, card.name, card.name, counters, nets, taken);
      GateCardsNew(card.name, net, d, w, phase, period, eps, net, net, card.name, card.name, nets, taken);
      WellFormedAppend(cards, [card], counters, counters, nets, taken, taken);
      cards := cards + [card];
    }

    /** A gate whose pulse is already running: the pulse, its tail and their sum. */
    method AddPulseAndTail(name: Name, net: string, d: Driver, w: Window, phase: real, period: real, eps: real,
                           rise: real, tail: real)
      returns (pulseNode: string, tailNode: string, tailName: Name, sumName: Name)
      requires WellFormed(cards, counters, nets, taken) && period > 0.0 && net in nets && Counted(counters, name)
      requires d.reference in nets || d.reference == GROUND
      requires Straddles(w, phase, eps) && tail == TailUntil(w, phase, eps) && rise == FirstRise(w, phase, period, eps)
      requires forall i | 0 <= i < |cards| :: cards[i].name != name
      modifies this
      ensures WellFormed(cards, counters, nets, taken) && pulseNode != tailNode
      ensures Synthetic(pulseNode, net + "_pulse", old(taken)) && Synthetic(tailNode, net + "_tail", old(taken))
      ensures pulseNode != GROUND && tailNode != GROUND
      ensures taken == old(taken) + {pulseNode, tailNode}
      ensures cards == old(cards) + GateCards(name, net, d, w, phase, period, eps, pulseNode, tailNode, tailName, sumName)
    {
      ghost var before, counted, taken0 := cards, counters, taken;
      pulseNode, tailNode := SyntheticNodes(net, taken);
      hide *;
      taken := taken + {pulseNode, tailNode};
      tailName := NextName('V');
      ghost var between := counters;
      sumName := NextName('B');
      StraddlingAppended(before, counted, between, counters, nets, taken0, name, net, d, w, phase, period, eps,
                         pulseNode, tailNode, tailName, sumName);
      cards := cards + [Pulse(name, pulseNode, d.reference, d.amplitude, rise, w.stop - w.start, period),
                        Tail(tailName, tailNode, d.reference, d.amplitude, tail),
                        Sum(sumName, net, d.reference, pulseNode, tailNode)];
    }

    /** Any card that is not a source and names declared nets only. */
    method AddElement(card: Card)
      requires Valid() && (card.Sense? || card.Element?) && Counted(counters, card.name)
      requires forall node | node in NodesOf(card) :: node in nets || node == GROUND
      requires forall i | 0 <= i < |cards| :: cards[i].name != card.name
      modifies this`cards
      ensures Valid() && cards == old(cards) + [card]
    {
      hide NodesOf;
      assert WellFormed([card], counters, nets, taken);
      WellFormedAppend(cards, [card], counters, counters, nets, taken, taken);
      cards := cards + [card];
    }
  }

  lemma GateCardsNew(name: Name, net: string, d: Driver, w: Window, phase: real, period: real, eps: real,
                     p: string, q: string, tailName: Name, sumName: Name, nets: set<string>, taken: set<string>)
    requires period > 0.0 && net in nets && (d.reference in nets || d.reference == GROUND)
    requires Straddles(w, phase, eps) ==> p !in taken && q !in taken
    ensures NodesNew(GateCards(name, net, d, w, phase, period, eps, p, q, tailName, sumName), nets, taken)
  {
    hide FirstRise; hide TailUntil;
  }

  /** The names and nodes the three cards use are new. */
  lemma StraddlingAppended(before: seq<Card>, counted: map<char, nat>, between: map<char, nat>, counters: map<char, nat>,
                           nets: set<string>, taken: set<string>, name: Name, net: string, d: Driver,
                           w: Window, phase: real, period: real, eps: real,
                           p: string, q: string, tailName: Name, sumName: Name)
    requires WellFormed(before, counted, nets, taken) && period > 0.0 && net in nets && Counted(counted, name)
    requires d.reference in nets || d.reference == GROUND
    requires Straddles(w, phase, eps) && p !in taken && q !in taken && p != q && p != GROUND && q != GROUND
    requires forall i | 0 <= i < |before| :: before[i].name != name
    requires tailName == Name('V', (if 'V' in counted then counted['V'] else 0) + 1)
    requires between == counted['V' := tailName.index]
    requires sumName == Name('B', (if 'B' in between then between['B'] else 0) + 1)
    requires counters == between['B' := sumName.index]
    ensures var added := GateCards(name, net, d, w, phase, period, eps, p, q, tailName, sumName);
      && added == [Pulse(name, p, d.reference, d.amplitude, FirstRise(w, phase, period, eps), w.stop - w.start, period),
                   Tail(tailName, q, d.reference, d.amplitude, TailUntil(w, phase, eps)),
                   Sum(sumName, net, d.reference, p, q)]
      && WellFormed(before + added, counters, nets, taken + {p, q})
  {
    var added := GateCards(name, net, d, w, phase, period, eps, p, q, tailName, sumName);
    NewNameUnused(before, counted, nets, taken, tailName);
    NewNameUnused(before, counted, nets, taken, sumName);
    GateCardsWellFormed(name, net, d, w, phase, period, eps, p, q, tailName, sumName, counters, nets, taken + {p, q});
    GateCardsNew(name, net, d, w, phase, period, eps, p, q, tailName, sumName, nets, taken);
    assert forall i | 0 <= i < |added| :: added[i].name in {name, tailName, sumName};
    hide GateCards; hide Straddles; hide FirstRise; hide TailUntil; hide NodesNew;
    WellFormedAppend(before, added, counted, counters, nets, taken, taken + {p, q});
  }

  // -------------------------------------------------------------- where cards stand

  /** Sources drive gate nets or made-up nodes, each once, and are written against a
      node that no gate is on. */
  ghost predicate Placed(cards: seq<Card>, gates: set<string>, nets: set<string>, taken: set<string>) {
    && (forall i | 0 <= i < |cards| && IsSource(cards[i]) ::
          && (cards[i].node in gates || Hidden(cards[i].node, nets, taken))
          && (cards[i].reference in nets || cards[i].reference == GROUND) && cards[i].reference !in gates)
    && (forall i, j | 0 <= i < j < |cards| && IsSource(cards[i]) && IsSource(cards[j]) :: cards[i].node != cards[j].node)
  }

  lemma PlacedAppend(a: seq<Card>, b: seq<Card>, gates: set<string>, nets: set<string>, taken: set<string>, taken': set<string>)
    requires Placed(a, gates, nets, taken) && Placed(b, gates, nets, taken') && taken <= taken'
    requires forall j | 0 <= j < |b| && IsSource(b[j]) :: Undriven(a, b[j].node)
    ensures Placed(a + b, gates, nets, taken')
  {
    var all := a + b;
    assert forall i | 0 <= i < |a| :: all[i] == a[i];
    assert forall j | 0 <= j < |b| :: all[|a| + j] == b[j];
    forall i, j | 0 <= i < j < |all| && IsSource(all[i]) && IsSource(all[j]) ensures all[i].node != all[j].node {
      if i < |a| <= j { assert !Drives(a[i], b[j - |a|].node); }
    }
  }

  /** So nothing the sources ask for clashes, unless a gate net is called as ground is. */
  lemma PlacedIsLaid(cards: seq<Card>, counters: map<char, nat>, gates: set<string>, nets: set<string>, taken: set<string>)
    requires WellFormed(cards, counters, nets, taken) && Placed(cards, gates, nets, taken) && GROUND !in gates && gates <= nets
    ensures Laid(cards)
    ensures forall i | 0 <= i < |cards| && IsSource(cards[i]) :: Undriven(cards, cards[i].reference)
  {
    hide NamesUsed; hide NodesKnown; hide PeriodsPositive;
    forall i, j | 0 <= i <= j < |cards| && cards[i].Sum? && IsSource(cards[j])
      ensures cards[j].node != cards[i].left && cards[j].node != cards[i].right
    {
      assert OwnNodes(cards, i);
      if j == i { assert Hidden(cards[i].left, nets, taken); }
    }
  }

  /** The phase every gate is rendered with. */
  function GatePhases(plan: Plan, carrierPhase: real, eps: real): map<string, real>
    requires plan.period > 0.0
  {
    map net | net in plan.windows ::
      GatePhase(carrierPhase, Delay(plan, net), plan.period, eps)
  }

  function Delay(plan: Plan, net: string): real {
    if net in plan.delays then plan.delays[net] else 0.0
  }

  /** The recorded first rises: every gate that turns on at all, and no other. */
  function FirstRises(plan: Plan, phases: map<string, real>, eps: real): map<string, real>
    requires plan.period > 0.0 && phases.Keys == plan.windows.Keys
  {
    map net | net in plan.windows && plan.windows[net].stop > plan.windows[net].start ::
      FirstRise(plan.windows[net], phases[net], plan.period, eps)
  }

  predicate OneCarrierPerNet(components: seq<Component>) {
    forall i, j | 0 <= i < j < |components| && components[i].PulseSource? && components[j].PulseSource? ::
      components[i].net != components[j].net
  }

  function DriverOf(source: Component, referenceNet: string): Driver
    requires source.PulseSource?
  {
    Driver(Node(source.negative, referenceNet), source.amplitude)
  }

  /** The carrier found by its net. */
  function DriversOf(components: seq<Component>, referenceNet: string): map<string, Driver> {
    if components == [] then map[]
    else
      var before, last := DriversOf(components[..|components| - 1], referenceNet), components[|components| - 1];
      if last.PulseSource? then before[last.net := DriverOf(last, referenceNet)] else before
  }

  lemma {:induction false} DriversAre(components: seq<Component>, referenceNet: string, i: nat)
    requires OneCarrierPerNet(components) && i < |components| && components[i].PulseSource?
    ensures components[i].net in DriversOf(components, referenceNet)
    ensures DriversOf(components, referenceNet)[components[i].net] == DriverOf(components[i], referenceNet)
  {
    var n := |components| - 1;
    if i < n {
      assert forall k | 0 <= k < n :: components[..n][k] == components[k];
      DriversAre(components[..n], referenceNet, i);
    }
  }

  function GateNets(components: seq<Component>): set<string> {
    set i | 0 <= i < |components| && components[i].PulseSource? :: components[i].net
  }

  ghost predicate TailRecorded(tails: map<string, real>, net: string, w: Window, phase: real, eps: real) {
    && (net in tails <==> w.start < w.stop && TailUntil(w, phase, eps) > 0.0)
    && (net in tails ==> tails[net] == TailUntil(w, phase, eps))
  }

  /** What every switch is written against. */
  function Against(drivers: map<string, Driver>, control: string): string {
    if control in drivers then drivers[control].reference else GROUND
  }

  ghost predicate SwitchesFit(cards: seq<Card>, drivers: map<string, Driver>) {
    forall i | 0 <= i < |cards| && cards[i].Sense? :: cards[i].against == Against(drivers, cards[i].control)
  }

  /** No other element is on a gate net. */
  ghost predicate ElementsOff(cards: seq<Card>, gates: set<string>) {
    GROUND !in gates ==> forall i, net | 0 <= i < |cards| && net in gates ::
      && (cards[i].Element? ==> net !in cards[i].nodes)
      && (cards[i].Sense? ==> net != cards[i].input && net != cards[i].output)
  }

  /** The first `k` components have left the netlist in the promised state. */
  ghost predicate LoopState(components: seq<Component>, k: nat, plan: Plan, drivers: map<string, Driver>,
                            phases: map<string, real>, eps: real, cards: seq<Card>, tails: map<string, real>)
    requires k <= |components| && plan.period > 0.0 && PeriodsPositive(cards) && phases.Keys == plan.windows.Keys
  {
    && (forall i | 0 <= i < k && components[i].PulseSource? ::
          GateRendered(components[i].net, plan, drivers, phases, eps, cards, tails))
    && (forall i | k <= i < |components| && components[i].PulseSource? ::
          components[i].net !in tails && Undriven(cards, components[i].net))
  }

  ghost predicate GateRendered(net: string, plan: Plan, drivers: map<string, Driver>, phases: map<string, real>, eps: real,
                               cards: seq<Card>, tails: map<string, real>)
    requires plan.period > 0.0 && PeriodsPositive(cards) && phases.Keys == plan.windows.Keys
  {
    net in plan.windows && net in drivers
    && GateCarried(cards, net, drivers[net], plan.windows[net], phases[net], plan.period, eps)
    && TailRecorded(tails, net, plan.windows[net], phases[net], eps)
  }

  lemma DeviceStep(components: seq<Component>, k: nat, plan: Plan, drivers: map<string, Driver>, phases: map<string, real>,
                   eps: real, earlier: seq<Card>, card: Card, tails: map<string, real>)
    requires k < |components| && !components[k].PulseSource? && !IsSource(card)
    requires plan.period > 0.0 && phases.Keys == plan.windows.Keys
    requires PeriodsPositive(earlier) && PeriodsPositive(earlier + [card])
    requires LoopState(components, k, plan, drivers, phases, eps, earlier, tails)
    ensures LoopState(components, k + 1, plan, drivers, phases, eps, earlier + [card], tails)
  {
    hide GateCarried;
    forall i | 0 <= i < k + 1 && components[i].PulseSource?
      ensures GateRendered(components[i].net, plan, drivers, phases, eps, earlier + [card], tails)
    {
      var net := components[i].net;
      OtherGateKept(earlier, [card], net, drivers[net], plan.windows[net], phases[net], plan.period, eps);
    }
  }

  lemma GateStep(components: seq<Component>, k: nat, plan: Plan, drivers: map<string, Driver>, phases: map<string, real>,
                 eps: real, earlier: seq<Card>, added: seq<Card>, tails: map<string, real>, tails': map<string, real>,
                 declared: set<string>, taken: set<string>,
                 name: Name, p: string, q: string, tailName: Name, sumName: Name, tail: real)
    requires k < |components| && components[k].PulseSource? && components[k].net in plan.windows
    requires components[k].net in drivers && declared <= taken
    requires plan.period > 0.0 && phases.Keys == plan.windows.Keys
    requires PeriodsPositive(earlier) && PeriodsPositive(earlier + added)
    requires OneCarrierPerNet(components) && GateNets(components) <= declared
    requires LoopState(components, k, plan, drivers, phases, eps, earlier, tails)
    requires var net := components[k].net; var w := plan.windows[net];
      && (Straddles(w, phases[net], eps) ==> p !in taken && q !in taken)
      && added == GateCards(name, net, drivers[net], w, phases[net], plan.period, eps, p, q, tailName, sumName)
      && tail == (if w.stop <= w.start then 0.0 else TailUntil(w, phases[net], eps))
      && tails' == if tail > 0.0 then tails[net := tail] else tails
    ensures LoopState(components, k + 1, plan, drivers, phases, eps, earlier + added, tails')
  {
    hide GateCarried; hide FirstRise; hide TailUntil; hide GateCards;
    var own := components[k].net;
    assert own in GateNets(components);
    GateCardsCarry(name, own, drivers[own], plan.windows[own], phases[own], plan.period, eps, p, q, tailName, sumName);
    GateAppended(earlier, added, own, drivers[own], plan.windows[own], phases[own], plan.period, eps);
    forall i | 0 <= i < |components| && components[i].PulseSource? && i != k
      ensures components[i].net != own && Undriven(added, components[i].net)
    {
      var net := components[i].net;
      assert net in GateNets(components);
      GateCardsElsewhere(name, own, drivers[own], plan.windows[own], phases[own], plan.period, eps, p, q, tailName, sumName, net);
    }
    forall i | 0 <= i < k && components[i].PulseSource?
      ensures GateRendered(components[i].net, plan, drivers, phases, eps, earlier + added, tails')
    {
      var net := components[i].net;
      OtherGateKept(earlier, added, net, drivers[net], plan.windows[net], phases[net], plan.period, eps);
    }
  }

  // ----------------------------------------------------------------- the nets are fit

  /** The nets the loop works on: one reference net, and every port bound to a declared
      net of a kind it accepts. */
  ghost predicate Fit(kinds: map<string, NetKind>, components: seq<Component>, referenceNet: string) {
    && AllBound(kinds, components) && AllPortsFit(kinds, components)
    && referenceNet in kinds && forall net | net in kinds :: kinds[net].Reference? <==> net == referenceNet
  }

  /** A conducting net's node is ground or a net no gate is on. */
  lemma ConductsOff(kinds: map<string, NetKind>, components: seq<Component>, referenceNet: string, net: string)
    requires Fit(kinds, components, referenceNet) && net in kinds && Conducts(kinds[net])
    ensures Node(net, referenceNet) in kinds || Node(net, referenceNet) == GROUND
    ensures GROUND !in GateNets(components) ==> Node(net, referenceNet) !in GateNets(components)
    ensures GateNets(components) <= kinds.Keys
  {
    forall gate | gate in GateNets(components) ensures gate in kinds && kinds[gate].Control? {
      var i :| 0 <= i < |components| && components[i].PulseSource? && components[i].net == gate;
      assert Bound(kinds, components[i]) && PortsFit(kinds, components[i]);
    }
  }

  /** How the cards of the first components stand. */
  ghost predicate Layout(cards: seq<Card>, drivers: map<string, Driver>, gates: set<string>, nets: set<string>, taken: set<string>) {
    SwitchesFit(cards, drivers) && ElementsOff(cards, gates) && (GROUND !in gates ==> Placed(cards, gates, nets, taken))
  }

  lemma LayoutAppend(a: seq<Card>, b: seq<Card>, drivers: map<string, Driver>, gates: set<string>, nets: set<string>,
                     taken: set<string>, taken': set<string>)
    requires Layout(a, drivers, gates, nets, taken) && Layout(b, drivers, gates, nets, taken') && taken <= taken'
    requires GROUND !in gates ==> forall j | 0 <= j < |b| && IsSource(b[j]) :: Undriven(a, b[j].node)
    ensures Layout(a + b, drivers, gates, nets, taken')
  {
    if GROUND !in gates { PlacedAppend(a, b, gates, nets, taken, taken'); }
    hide Placed;
    var all := a + b;
    assert forall i | 0 <= i < |a| :: all[i] == a[i];
    assert forall j | 0 <= j < |b| :: all[|a| + j] == b[j];
  }

  /** The card a component that is no pulse source is written as. */
  ghost predicate CardFor(component: Component, referenceNet: string, drivers: map<string, Driver>, card: Card) {
    match component
    case PulseSource(_, _, _, _, _) => false
    case Actuator(s) =>
      && card.Sense? && card.name.letter == 'S'
      && card.input == Node(s.input, referenceNet) && card.output == Node(s.output, referenceNet)
      && card.control == s.control && card.against == Against(drivers, s.control)
    case Device(_, letter, ports) =>
      && card.Element? && card.name.letter == letter && |card.nodes| == |ports|
      && forall i | 0 <= i < |ports| :: card.nodes[i] == Node(ports[i].net, referenceNet)
  }

  ghost predicate HasCard(component: Component, referenceNet: string, drivers: map<string, Driver>, cards: seq<Card>) {
    exists j | 0 <= j < |cards| :: CardFor(component, referenceNet, drivers, cards[j])
  }

  /** Every switch and every other device so far is written. */
  ghost predicate Written(components: seq<Component>, k: nat, referenceNet: string, drivers: map<string, Driver>, cards: seq<Card>)
    requires k <= |components|
  {
    forall i | 0 <= i < k && !components[i].PulseSource? :: HasCard(components[i], referenceNet, drivers, cards)
  }

  lemma WrittenMore(components: seq<Component>, k: nat, referenceNet: string, drivers: map<string, Driver>,
                    a: seq<Card>, b: seq<Card>)
    requires k < |components| && Written(components, k, referenceNet, drivers, a)
    requires components[k].PulseSource? || HasCard(components[k], referenceNet, drivers, b)
    ensures Written(components, k + 1, referenceNet, drivers, a + b)
  {
    hide CardFor;
    var all := a + b;
    forall i | 0 <= i < k + 1 && !components[i].PulseSource? ensures HasCard(components[i], referenceNet, drivers, all) {
      if i < k {
        var j :| 0 <= j < |a| && CardFor(components[i], referenceNet, drivers, a[j]);
        assert CardFor(components[i], referenceNet, drivers, all[j]);
      } else {
        var j :| 0 <= j < |b| && CardFor(components[i], referenceNet, drivers, b[j]);
        assert CardFor(components[i], referenceNet, drivers, all[|a| + j]);
      }
    }
  }

  lemma UntakenUndriven(cards: seq<Card>, taken: set<string>, node: string)
    requires NodesKnown(cards, taken) && node !in taken && node != GROUND
    ensures Undriven(cards, node)
  {
    forall i | 0 <= i < |cards| ensures !Drives(cards[i], node) {
      assert IsSource(cards[i]) ==> cards[i].node in NodesOf(cards[i]);
    }
  }

  lemma GateLayout(earlier: seq<Card>, drivers: map<string, Driver>, gates: set<string>, nets: set<string>, taken: set<string>,
                   name: Name, net: string, d: Driver, w: Window, phase: real, period: real, eps: real,
                   p: string, q: string, tailName: Name, sumName: Name)
    requires Layout(earlier, drivers, gates, nets, taken) && NodesKnown(earlier, taken) && nets <= taken
    requires period > 0.0 && net in gates && Undriven(earlier, net) && (d.reference in nets || d.reference == GROUND)
    requires GROUND !in gates ==> d.reference !in gates
    requires net in nets && (Straddles(w, phase, eps) ==> p !in taken && q !in taken && p != q && p != GROUND && q != GROUND)
    ensures Layout(earlier + GateCards(name, net, d, w, phase, period, eps, p, q, tailName, sumName), drivers, gates, nets,
                   taken + if Straddles(w, phase, eps) then {p, q} else {})
  {
    var added := GateCards(name, net, d, w, phase, period, eps, p, q, tailName, sumName);
    var taken' := taken + if Straddles(w, phase, eps) then {p, q} else {};
    if Straddles(w, phase, eps) {
      UntakenUndriven(earlier, taken, p);
      UntakenUndriven(earlier, taken, q);
    }
    hide FirstRise; hide TailUntil; hide NodesKnown; hide Undriven;
    assert Layout(added, drivers, gates, nets, taken');
    assert forall j | 0 <= j < |added| && IsSource(added[j]) :: Undriven(earlier, added[j].node);
    hide GateCards; hide Layout;
    LayoutAppend(earlier, added, drivers, gates, nets, taken, taken');
  }

  // --------------------------------------------------------------- the component loop

  method CompileNetlist(kinds: map<string, NetKind>, components: seq<Component>, referenceNet: string, plan: Plan,
                        carrierPhase: real, eps: real)
    returns (r: Result<seq<Card>, Code>, tails: map<string, real>, ghost state: Compilation)
    requires plan.period > 0.0 && eps >= 0.0 && OneCarrierPerNet(components) && Fit(kinds, components, referenceNet)
    ensures r.Err? <==> exists i :: 0 <= i < |components| && components[i].PulseSource? && components[i].net !in plan.windows
    ensures r.Err? ==> r.error == AmbiguousComplementaryControl
    ensures r.Ok? ==>
      && state.cards == r.value && state.nets == kinds.Keys && state.Valid()
      && Layout(r.value, DriversOf(components, referenceNet), GateNets(components), kinds.Keys, state.taken)
      && Written(components, |components|, referenceNet, DriversOf(components, referenceNet), r.value)
      && forall i | 0 <= i < |components| && components[i].PulseSource? ::
           GateRendered(components[i].net, plan, DriversOf(components, referenceNet), GatePhases(plan, carrierPhase, eps), eps,
                        r.value, tails)
  {
    var phases, drivers := GatePhases(plan, carrierPhase, eps), DriversOf(components, referenceNet);
    var c := new Compilation(kinds.Keys);
    state := c;
    tails := map[];
    for k := 0 to |components|
      invariant fresh(c) && forall i | 0 <= i < k && components[i].PulseSource? :: components[i].net in plan.windows
      invariant Ready(c, kinds, components, k, referenceNet, plan, drivers, phases, eps, tails)
    {
      if components[k].PulseSource? && components[k].net !in plan.windows {
        return Err(AmbiguousComplementaryControl), tails, state;
      }
      match components[k]
      case PulseSource(_, _, _, _, _) =>
        tails := AddCarrier(c, kinds, components, k, referenceNet, plan, drivers, phases, eps, tails);
      case Actuator(_) =>
        AddSwitch(c, kinds, components, k, referenceNet, plan, drivers, phases, eps, tails);
      case Device(_, _, _) =>
        AddDevice(c, kinds, components, k, referenceNet, plan, drivers, phases, eps, tails);
    }
    return Ok(c.cards), tails, state;
  }

  /** What every turn of the loop starts from: the first `k` components are written. */
  ghost predicate Ready(c: Compilation, kinds: map<string, NetKind>, components: seq<Component>, k: nat, referenceNet: string,
                        plan: Plan, drivers: map<string, Driver>, phases: map<string, real>, eps: real, tails: map<string, real>)
    reads c
  {
    && c.Valid() && c.nets == kinds.Keys && k <= |components| && eps >= 0.0 && Fit(kinds, components, referenceNet)
    && plan.period > 0.0 && phases.Keys == plan.windows.Keys && OneCarrierPerNet(components)
    && drivers == DriversOf(components, referenceNet)
    && LoopState(components, k, plan, drivers, phases, eps, c.cards, tails)
    && Layout(c.cards, drivers, GateNets(components), kinds.Keys, c.taken)
    && Written(components, k, referenceNet, drivers, c.cards)
  }

  method AddCarrier(c: Compilation, kinds: map<string, NetKind>, components: seq<Component>, k: nat, referenceNet: string,
                    plan: Plan, drivers: map<string, Driver>, phases: map<string, real>, eps: real, tails: map<string, real>)
    returns (tails': map<string, real>)
    requires Ready(c, kinds, components, k, referenceNet, plan, drivers, phases, eps, tails)
    requires k < |components| && components[k].PulseSource? && components[k].net in plan.windows
    modifies c
    ensures Ready(c, kinds, components, k + 1, referenceNet, plan, drivers, phases, eps, tails')
  {
    ghost var cards, counters, taken := c.cards, c.counters, c.taken;
    var net, d := components[k].net, DriverOf(components[k], referenceNet);
    var w, phase := plan.windows[net], phases[net];
    CarrierFits(kinds, components, referenceNet, k);
    var name := c.NextName('V');
    var tail, p, q, tailName, sumName := c.RenderGate(name, Node(net, referenceNet), d, w, phase, plan.period, eps);
    tails' := if tail > 0.0 then tails[net := tail] else tails;
    hide GateCards; hide GateCarried; hide GateRendered; hide NodesOf; hide FirstRise; hide TailUntil; hide Fit; hide OneCarrierPerNet;
    GateStep(components, k, plan, drivers, phases, eps, cards,
             GateCards(name, net, d, w, phase, plan.period, eps, p, q, tailName, sumName),
             tails, tails', kinds.Keys, taken, name, p, q, tailName, sumName, tail);
    GateLayout(cards, drivers, GateNets(components), kinds.Keys, taken, name, net, d, w, phase, plan.period, eps,
               p, q, tailName, sumName);
    hide Layout; hide LoopState;
    WrittenMore(components, k, referenceNet, drivers, cards,
                GateCards(name, net, d, w, phase, plan.period, eps, p, q, tailName, sumName));
  }

  lemma CarrierFits(kinds: map<string, NetKind>, components: seq<Component>, referenceNet: string, k: nat)
    requires Fit(kinds, components, referenceNet) && OneCarrierPerNet(components)
    requires k < |components| && components[k].PulseSource?
    ensures var net, d := components[k].net, DriverOf(components[k], referenceNet);
      && net in kinds && Node(net, referenceNet) == net && net in GateNets(components) && GateNets(components) <= kinds.Keys
      && net in DriversOf(components, referenceNet) && DriversOf(components, referenceNet)[net] == d
      && (d.reference in kinds || d.reference == GROUND)
      && (GROUND !in GateNets(components) ==> d.reference !in GateNets(components))
  {
    assert Bound(kinds, components[k]) && PortsFit(kinds, components[k]);
    DriversAre(components, referenceNet, k);
    ConductsOff(kinds, components, referenceNet, components[k].negative);
  }

  /** A switch measures its control net against the reference of the carrier on it. */
  method AddSwitch(c: Compilation, kinds: map<string, NetKind>, components: seq<Component>, k: nat, referenceNet: string,
                   plan: Plan, drivers: map<string, Driver>, phases: map<string, real>, eps: real, tails: map<string, real>)
    requires Ready(c, kinds, components, k, referenceNet, plan, drivers, phases, eps, tails)
    requires k < |components| && components[k].Actuator?
    modifies c
    ensures Ready(c, kinds, components, k + 1, referenceNet, plan, drivers, phases, eps, tails)
  {
    var s := components[k].switch;
    var against := if s.control in drivers then drivers[s.control].reference else GROUND;
    NextNameNew(c.cards, c.counters, c.nets, c.taken, 'S');
    var name := c.NextName('S');
    var card := Sense(name, Node(s.input, referenceNet), Node(s.output, referenceNet), Node(s.control, referenceNet), against);
    SwitchFits(kinds, components, referenceNet, k, card);
    AddPlain(c, kinds, components, k, referenceNet, plan, drivers, phases, eps, tails, card);
  }

  method AddDevice(c: Compilation, kinds: map<string, NetKind>, components: seq<Component>, k: nat, referenceNet: string,
                   plan: Plan, drivers: map<string, Driver>, phases: map<string, real>, eps: real, tails: map<string, real>)
    requires Ready(c, kinds, components, k, referenceNet, plan, drivers, phases, eps, tails)
    requires k < |components| && components[k].Device?
    modifies c
    ensures Ready(c, kinds, components, k + 1, referenceNet, plan, drivers, phases, eps, tails)
  {
    var ports := components[k].ports;
    NextNameNew(c.cards, c.counters, c.nets, c.taken, components[k].letter);
    var name := c.NextName(components[k].letter);
    var card := Element(name, seq(|ports|, i requires 0 <= i < |ports| => Node(ports[i].net, referenceNet)));
    DeviceFits(kinds, components, referenceNet, k, card);
    AddPlain(c, kinds, components, k, referenceNet, plan, drivers, phases, eps, tails, card);
  }

  /** A card that is no source and stands on declared nets, none of them a gate's but
      for a switch's control. */
  ghost predicate Plain(card: Card, drivers: map<string, Driver>, gates: set<string>, nets: set<string>) {
    && (card.Sense? || card.Element?) && (forall node | node in NodesOf(card) :: node in nets || node == GROUND)
    && SwitchesFit([card], drivers) && ElementsOff([card], gates)
  }

  lemma NextNameNew(cards: seq<Card>, counters: map<char, nat>, nets: set<string>, taken: set<string>, letter: char)
    requires WellFormed(cards, counters, nets, taken)
    ensures var index := (if letter in counters then counters[letter] else 0) + 1;
      && (forall i | 0 <= i < |cards| :: cards[i].name != Name(letter, index))
      && WellFormed(cards, counters[letter := index], nets, taken)
  {
    NewNameUnused(cards, counters, nets, taken, Name(letter, (if letter in counters then counters[letter] else 0) + 1));
    hide OwnNodes; hide SumsHidden; hide NodesKnown;
  }

  method AddPlain(c: Compilation, kinds: map<string, NetKind>, components: seq<Component>, k: nat, referenceNet: string,
                  plan: Plan, drivers: map<string, Driver>, phases: map<string, real>, eps: real, tails: map<string, real>,
                  card: Card)
    requires Ready(c, kinds, components, k, referenceNet, plan, drivers, phases, eps, tails)
    requires k < |components| && !components[k].PulseSource? && Counted(c.counters, card.name)
    requires forall i | 0 <= i < |c.cards| :: c.cards[i].name != card.name
    requires Plain(card, drivers, GateNets(components), kinds.Keys) && CardFor(components[k], referenceNet, drivers, card)
    modifies c`cards
    ensures Ready(c, kinds, components, k + 1, referenceNet, plan, drivers, phases, eps, tails)
  {
    ghost var cards, gates := c.cards, GateNets(components);
    assert Layout([card], drivers, gates, kinds.Keys, c.taken);
    c.AddElement(card);
    hide NodesOf; hide SwitchesFit; hide ElementsOff; hide Placed; hide GateRendered; hide Fit; hide OneCarrierPerNet;
    LayoutAppend(cards, [card], drivers, gates, kinds.Keys, c.taken, c.taken);
    DeviceStep(components, k, plan, drivers, phases, eps, cards, card, tails);
    assert HasCard(components[k], referenceNet, drivers, [card]) by { assert CardFor(components[k], referenceNet, drivers, [card][0]); }
    hide CardFor; hide LoopState; hide Layout;
    WrittenMore(components, k, referenceNet, drivers, cards, [card]);
  }

  lemma {:induction false} DriversFit(kinds: map<string, NetKind>, components: seq<Component>, referenceNet: string)
    requires AllBound(kinds, components)
    ensures forall net | net in DriversOf(components, referenceNet) ::
      DriversOf(components, referenceNet)[net].reference in kinds || DriversOf(components, referenceNet)[net].reference == GROUND
  {
    if components != [] {
      var n := |components| - 1;
      assert Bound(kinds, components[n]);
      assert forall i | 0 <= i < n :: components[..n][i] == components[i];
      DriversFit(kinds, components[..n], referenceNet);
    }
  }

  lemma SwitchFits(kinds: map<string, NetKind>, components: seq<Component>, referenceNet: string, k: nat, card: Card)
    requires Fit(kinds, components, referenceNet) && k < |components| && components[k].Actuator?
    requires var s := components[k].switch;
      card == Sense(card.name, Node(s.input, referenceNet), Node(s.output, referenceNet), Node(s.control, referenceNet),
                    Against(DriversOf(components, referenceNet), s.control))
    ensures Plain(card, DriversOf(components, referenceNet), GateNets(components), kinds.Keys)
    ensures card.control == components[k].switch.control
  {
    var s := components[k].switch;
    assert Bound(kinds, components[k]) && PortsFit(kinds, components[k]);
    ConductsOff(kinds, components, referenceNet, s.input);
    ConductsOff(kinds, components, referenceNet, s.output);
    DriversFit(kinds, components, referenceNet);
    assert Node(s.control, referenceNet) == s.control;
    hide GateNets; hide DriversOf; hide AllPortsFit; hide AllBound;
  }

  lemma DeviceFits(kinds: map<string, NetKind>, components: seq<Component>, referenceNet: string, k: nat, card: Card)
    requires Fit(kinds, components, referenceNet) && k < |components| && components[k].Device?
    requires card.Element? && |card.nodes| == |components[k].ports|
    requires forall i | 0 <= i < |card.nodes| :: card.nodes[i] == Node(components[k].ports[i].net, referenceNet)
    ensures Plain(card, DriversOf(components, referenceNet), GateNets(components), kinds.Keys)
  {
    assert Bound(kinds, components[k]) && PortsFit(kinds, components[k]);
    forall node | node in card.nodes
      ensures node in kinds || node == GROUND
      ensures GROUND !in GateNets(components) ==> node !in GateNets(components)
    {
      var i :| 0 <= i < |card.nodes| && card.nodes[i] == node;
      ConductsOff(kinds, components, referenceNet, components[k].ports[i].net);
    }
  }

  predicate HasSource(components: seq<Component>, net: string) {
    exists i | 0 <= i < |components| :: components[i].PulseSource? && components[i].net == net
  }

  // ----------------------------------------------------------- the whole compilation

  function SourcesOf(components: seq<Component>): seq<(string, Carrier)> {
    if components == [] then []
    else
      var last := components[|components| - 1];
      SourcesOf(components[..|components| - 1]) + if last.PulseSource? then [(last.net, last.carrier)] else []
  }

  function ActuatorsOf(components: seq<Component>): seq<Switch> {
    if components == [] then []
    else
      var last := components[|components| - 1];
      ActuatorsOf(components[..|components| - 1]) + if last.Actuator? then [last.switch] else []
  }

  lemma {:induction false} SourceListed(components: seq<Component>, net: string)
    ensures HasSource(components, net) <==> Listed(SourcesOf(components), net)
  {
    if components != [] {
      var n := |components| - 1;
      var before, all := SourcesOf(components[..n]), SourcesOf(components);
      SourceListed(components[..n], net);
      if HasSource(components, net) && !HasSource(components[..n], net) {
        assert components[n].PulseSource? && components[n].net == net;
        assert all[|before|].0 == net;
      }
      if HasSource(components[..n], net) {
        var i :| 0 <= i < n && components[..n][i].PulseSource? && components[..n][i].net == net;
        assert components[i].PulseSource? && components[i].net == net;
        var k :| 0 <= k < |before| && before[k].0 == net;
        assert all[k].0 == net;
      }
      if k :| 0 <= k < |all| && all[k].0 == net {
        if k < |before| { assert before[k].0 == net; }
      }
    }
  }

  /** One carrier a control net among the components is one among the sources. */
  lemma {:induction false} CarriersApart(components: seq<Component>)
    requires OneCarrierEach(SourcesOf(components))
    ensures OneCarrierPerNet(components)
  {
    if components != [] {
      var n := |components| - 1;
      var before, all := SourcesOf(components[..n]), SourcesOf(components);
      assert forall k | 0 <= k < |before| :: all[k] == before[k];
      CarriersApart(components[..n]);
      forall i | 0 <= i < n && components[i].PulseSource? && components[n].PulseSource?
        ensures components[i].net != components[n].net
      {
        SourceListed(components[..n], components[i].net);
        assert components[..n][i].PulseSource? && components[..n][i].net == components[i].net;
        assert Listed(before, components[i].net);
        var k :| 0 <= k < |before| && before[k].0 == components[i].net;
        assert all[|before|].0 == components[n].net;
      }
    }
  }

  /** Every pulse source drives a gate the plan has. */
  ghost predicate NoStraySource(components: seq<Component>, plan: Plan) {
    forall i | 0 <= i < |components| && components[i].PulseSource? :: components[i].net in plan.windows
  }

  /** The netlist compiled for the carrier phase at absolute time `start`, with every
      gate of the plan on it.  Unless a gate net is called as ground is, its source
      cards never contradict each other and leave the gates' references free. */
  ghost predicate CompiledFor(cards: seq<Card>, plan: Plan, drivers: map<string, Driver>, start: real, eps: real) {
    && plan.period > 0.0 && PeriodsPositive(cards) && SwitchesFit(cards, drivers)
    && (forall net | net in plan.windows :: net in drivers
         && GateCarried(cards, net, drivers[net], plan.windows[net], GatePhases(plan, start, eps)[net], plan.period, eps))
    && (GROUND !in plan.windows ==>
         Laid(cards) && forall net | net in plan.windows :: net in drivers ==> Undriven(cards, drivers[net].reference))
  }

  /** What a compilation is accepted for: the duty, the nets, the carriers and the graph. */
  ghost predicate Accepted(declaration: Declaration, kinds: map<string, NetKind>, components: seq<Component>, duty: real,
                           reference: string)
    requires Readable(declaration) && AllBound(kinds, components)
  {
    var sources := SourcesOf(components);
    && 0.0 <= duty <= 1.0 && CheckedNets(kinds, components, reference) && OneCarrierEach(sources)
    && GraphMeets(declaration, ActuatorsOf(components), |sources|, CarriersOf(sources), reference)
  }

  /** The netlist of an accepted plan, or a stray pulse source. */
  method CompilePlanned(kinds: map<string, NetKind>, components: seq<Component>, reference: string, plan: Plan,
                        carrierPhase: real, eps: real) returns (r: Result<seq<Card>, Code>)
    requires plan.period > 0.0 && eps >= 0.0 && OneCarrierPerNet(components) && Fit(kinds, components, reference)
    requires forall net | net in plan.windows :: Listed(SourcesOf(components), net)
    ensures r.Err? ==> !NoStraySource(components, plan) && r.error == AmbiguousComplementaryControl
    ensures r.Ok? ==>
      && NoStraySource(components, plan) && plan.windows.Keys == GateNets(components)
      && (exists counters, taken :: WellFormed(r.value, counters, kinds.Keys, taken))
      && ElementsOff(r.value, GateNets(components))
      && Written(components, |components|, reference, DriversOf(components, reference), r.value)
      && CompiledFor(r.value, plan, DriversOf(components, reference), carrierPhase, eps)
  {
    hide Written; hide CompiledFor; hide DriversOf; hide Listed; hide Fit; hide OneCarrierPerNet; hide GateRendered;
    var tails;
    ghost var state;
    r, tails, state := CompileNetlist(kinds, components, reference, plan, carrierPhase, eps);
    if r.Ok? {
      PlanIsGates(components, plan);
      NetlistCompiled(kinds, components, reference, plan, carrierPhase, eps, r.value, tails, state.counters, state.taken);
    }
  }

  /** One compiled window: nets, plan and cards from the same components.  Either the
      nets or the control relation refuse them, or a source drives no gate of the plan,
      or every gate net of the plan has exactly one driver, which carries its gate. */
  method CompileTopology(declaration: Declaration, kinds: map<string, NetKind>, components: seq<Component>, duty: real,
                         carrierPhase: real, eps: real)
    returns (r: Result<seq<Card>, Code>, plan: Plan, drivers: map<string, Driver>)
    requires Readable(declaration) && eps >= 0.0 && AllBound(kinds, components)
    ensures r.Ok? ==> exists reference ::
      && Accepted(declaration, kinds, components, duty, reference)
      && Planned(declaration, plan, duty, ActuatorsOf(components), CarriersOf(SourcesOf(components)), reference)
      && Shaped(declaration, plan, duty) && NoStraySource(components, plan)
      && plan.windows.Keys == GateNets(components)
      && drivers == DriversOf(components, reference)
      && (exists counters, taken :: WellFormed(r.value, counters, kinds.Keys, taken))
      && ElementsOff(r.value, GateNets(components))
      && Written(components, |components|, reference, drivers, r.value)
      && CompiledFor(r.value, plan, drivers, carrierPhase, eps)
    ensures r.Err? ==>
      || (forall reference :: !Accepted(declaration, kinds, components, duty, reference))
      || (Shaped(declaration, plan, duty) && !NoStraySource(components, plan) && r.error == AmbiguousComplementaryControl)
  {
    plan, drivers := Plan(map[], 0.0, map[]), map[];
    if !(0.0 <= duty <= 1.0) { return Err(InvalidDuty), plan, drivers; }
    var nets := CheckNets(kinds, components);
    if nets.Err? { return Err(nets.error), plan, drivers; }
    var reference := nets.value;
    CheckedNetsFit(kinds, components, reference);
    forall other | CheckedNets(kinds, components, other) ensures other == reference { assert other in {reference}; }
    hide *;
    var planned := CompileControl(declaration, ActuatorsOf(components), SourcesOf(components), duty, reference);
    if planned.Err? { return Err(planned.error), plan, drivers; }
    plan, drivers := planned.value, DriversOf(components, reference);
    CarriersApart(components);
    assert plan.period > 0.0 by { PlanHasPeriod(declaration, plan, duty); }
    r := CompilePlanned(kinds, components, reference, plan, carrierPhase, eps);
  }

  lemma CheckedNetsFit(kinds: map<string, NetKind>, components: seq<Component>, reference: string)
    requires AllBound(kinds, components) && CheckedNets(kinds, components, reference)
    ensures Fit(kinds, components, reference)
  {
    AllPortsFitMeans(kinds, components);
    hide AllPortsFit; hide AllCompilable; hide PortsAccepted;
    assert reference in ReferenceNets(kinds);
    forall net | net in kinds ensures kinds[net].Reference? <==> net == reference {
      assert kinds[net].Reference? <==> net in ReferenceNets(kinds);
    }
  }

  lemma PlanHasPeriod(declaration: Declaration, plan: Plan, duty: real)
    requires Shaped(declaration, plan, duty)
    ensures plan.period > 0.0
  {}

  lemma PlanIsGates(components: seq<Component>, plan: Plan)
    requires NoStraySource(components, plan) && forall net | net in plan.windows :: Listed(SourcesOf(components), net)
    ensures plan.windows.Keys == GateNets(components)
  {
    forall net | net in plan.windows ensures net in GateNets(components) {
      SourceListed(components, net);
      assert HasSource(components, net);
    }
  }

  lemma NetlistCompiled(kinds: map<string, NetKind>, components: seq<Component>, reference: string, plan: Plan,
                        start: real, eps: real, cards: seq<Card>, tails: map<string, real>,
                        counters: map<char, nat>, taken: set<string>)
    requires plan.period > 0.0 && OneCarrierPerNet(components) && Fit(kinds, components, reference)
    requires plan.windows.Keys == GateNets(components) && WellFormed(cards, counters, kinds.Keys, taken)
    requires Layout(cards, DriversOf(components, reference), GateNets(components), kinds.Keys, taken)
    requires forall i | 0 <= i < |components| && components[i].PulseSource? ::
      GateRendered(components[i].net, plan, DriversOf(components, reference), GatePhases(plan, start, eps), eps, cards, tails)
    ensures CompiledFor(cards, plan, DriversOf(components, reference), start, eps)
  {
    var drivers := DriversOf(components, reference);
    assert PeriodsPositive(cards);
    hide GateCarried; hide DriversOf; hide Fit; hide WellFormed; hide OneCarrierPerNet; hide Placed; hide ElementsOff;
    forall net | net in plan.windows
      ensures net in drivers && GateCarried(cards, net, drivers[net], plan.windows[net], GatePhases(plan, start, eps)[net], plan.period, eps)
      ensures GROUND !in GateNets(components) ==> Undriven(cards, drivers[net].reference)
    {
      var i :| 0 <= i < |components| && components[i].PulseSource? && components[i].net == net;
      assert GateRendered(components[i].net, plan, drivers, GatePhases(plan, start, eps), eps, cards, tails);
      CarrierFits(kinds, components, reference, i);
      if GROUND !in GateNets(components) {
        ReferenceUndriven(cards, GateNets(components), kinds.Keys, taken, drivers[net].reference);
      }
    }
    if GROUND !in plan.windows {
      GatesDeclared(kinds, components, reference);
      PlacedIsLaid(cards, counters, GateNets(components), kinds.Keys, taken);
    }
  }

  lemma GatesDeclared(kinds: map<string, NetKind>, components: seq<Component>, reference: string)
    requires Fit(kinds, components, reference)
    ensures GateNets(components) <= kinds.Keys
  {
    forall i | 0 <= i < |components| && components[i].PulseSource? ensures components[i].net in kinds {
      assert Bound(kinds, components[i]);
    }
  }

  lemma ReferenceUndriven(cards: seq<Card>, gates: set<string>, nets: set<string>, taken: set<string>, reference: string)
    requires Placed(cards, gates, nets, taken) && reference !in gates && (reference in nets || reference == GROUND)
    ensures Undriven(cards, reference)
  {}
}
