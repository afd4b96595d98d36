/** The recorded marker against the declared one.

    Leaves are valued by position where nothing relates them, and by an environment
    where equal comparisons have to agree. */
module MarkerRecord {
  import opened Wrappers
  import opened MarkerText
  import opened MarkerExpr
  import opened MarkerMeaning
  import opened MarkerExtras

  // ------------------------------------------------------------------- environments

  type Environment = string -> bool

  lemma {:induction false} InfixCounts(e: Expr, connector: Option<Connector>)
    ensures |Infix(e, connector)| == Leaves(e)
    decreases e
  {
    match e
    case Last(i) => if i.Group? { InfixCounts(i.inner, connector); }
    case More(i, c, t) =>
      if i.Group? { InfixCounts(i.inner, connector); }
      InfixCounts(t, Some(c));
  }

  function LeafTexts(e: Expr): (texts: seq<string>)
    ensures |texts| == Leaves(e)
  {
    InfixCounts(e, None);
    seq(Leaves(e), i requires 0 <= i < Leaves(e) => Infix(e, None)[i].1)
  }

  function ValuesIn(e: Expr, env: Environment): (v: Values)
    ensures |v| == Leaves(e)
  {
    seq(Leaves(e), i requires 0 <= i < Leaves(e) => env(LeafTexts(e)[i]))
  }

  /** The value of a marker in an environment. */
  predicate EvalIn(e: Expr, env: Environment) {
    Eval(e, ValuesIn(e, env))
  }

  ghost predicate DistinctLeaves(e: Expr) {
    forall i, j | 0 <= i < j < Leaves(e) :: LeafTexts(e)[i] != LeafTexts(e)[j]
  }

  /** When no comparison stands twice, every valuation is that of some environment. */
  lemma EnvironmentOf(e: Expr, v: Values) returns (env: Environment)
    requires DistinctLeaves(e) && |v| == Leaves(e)
    ensures ValuesIn(e, env) == v
  {
    var texts := LeafTexts(e);
    env := s => exists i | 0 <= i < |texts| && i < |v| :: texts[i] == s && v[i];
    forall i | 0 <= i < |texts| ensures env(texts[i]) == v[i] {
      if env(texts[i]) {
        var j :| 0 <= j < |texts| && texts[j] == texts[i] && v[j];
        assert j == i;
      }
    }
  }

  lemma FlatLeaves(e: Expr, env: Environment)
    ensures Leaves(Flat(e)) == Leaves(e) && ValuesIn(Flat(e), env) == ValuesIn(e, env)
  {
    FlatKeepsInfix(e, None);
    assert LeafTexts(Flat(e)) == LeafTexts(e);
  }

  /** In every environment flattening keeps a marker with no `or` group under an `and`;
      and where no comparison stands twice, only such a marker. */
  lemma FlatteningInEnvironments(e: Expr)
    ensures NoOrUnderAnd(e) ==> forall env: Environment :: EvalIn(Flat(e), env) == EvalIn(e, env)
    ensures DistinctLeaves(e) ==>
      ((forall env: Environment :: EvalIn(Flat(e), env) == EvalIn(e, env)) <==> NoOrUnderAnd(e))
  {
    FlatteningKeepsMeaningIff(e);
    if NoOrUnderAnd(e) {
      forall env: Environment ensures EvalIn(Flat(e), env) == EvalIn(e, env) { FlatLeaves(e, env); }
    } else if DistinctLeaves(e) {
      var v: Values :| |v| == Leaves(e) && Eval(Flat(e), v) != Eval(e, v);
      var env := EnvironmentOf(e, v);
      FlatLeaves(e, env);
      assert EvalIn(Flat(e), env) != EvalIn(e, env);
    }
  }

  // ------------------------------------------------------------------ the extra's place

  function ExtraLeaves(e: Expr, extras: Extras): nat {
    match e
    case Last(i) => ExtraLeavesItem(i, extras)
    case More(i, _, t) => ExtraLeavesItem(i, extras) + ExtraLeaves(t, extras)
  }

  function ExtraLeavesItem(i: Item, extras: Extras): nat {
    match i case Atom(text) => if extras(text).Some? then 1 else 0 case Group(e) => ExtraLeaves(e, extras)
  }

  /** No `or` outside brackets. */
  predicate TopAnd(e: Expr) {
    match e case Last(_) => true case More(_, c, t) => c.And? && TopAnd(t)
  }

  /** The extra is reached through `and` and brackets only. */
  predicate Demanded(e: Expr, extras: Extras) {
    match e
    case Last(i) => DemandedItem(i, extras)
    case More(i, c, t) => c.And? && ((DemandedItem(i, extras) && TopAnd(t)) || Demanded(t, extras))
  }

  predicate DemandedItem(i: Item, extras: Extras) {
    match i case Atom(text) => extras(text).Some? case Group(e) => Demanded(e, extras)
  }

  /** What is left of the expression without its extras. */
  function Without(e: Expr, extras: Extras): Option<Expr> {
    match e
    case Last(i) =>
      (match WithoutItem(i, extras) case None => None case Some(item) => Some(Last(item)))
    case More(i, c, t) =>
      match (WithoutItem(i, extras), Without(t, extras))
      case (None, rest) => rest
      case (Some(item), None) => Some(Last(item))
      case (Some(item), Some(rest)) => Some(More(item, c, rest))
  }

  function WithoutItem(i: Item, extras: Extras): Option<Item> {
    match i
    case Atom(text) => if extras(text).Some? then None else Some(i)
    case Group(e) =>
      match Without(e, extras) case None => None case Some(inner) => Some(Group(inner))
  }

  /** The values of the leaves that are left. */
  function Drop(e: Expr, extras: Extras, v: Values): Values
    requires |v| == Leaves(e)
  {
    match e
    case Last(i) => DropItem(i, extras, v)
    case More(i, _, t) => DropItem(i, extras, v[..LeavesItem(i)]) + Drop(t, extras, v[LeavesItem(i)..])
  }

  function DropItem(i: Item, extras: Extras, v: Values): Values
    requires |v| == LeavesItem(i)
  {
    match i case Atom(text) => if extras(text).Some? then [] else v case Group(e) => Drop(e, extras, v)
  }

  /** Every extra is asked for. */
  predicate Asked(e: Expr, extras: Extras, v: Values)
    requires |v| == Leaves(e)
  {
    match e
    case Last(i) => AskedItem(i, extras, v)
    case More(i, _, t) => AskedItem(i, extras, v[..LeavesItem(i)]) && Asked(t, extras, v[LeavesItem(i)..])
  }

  predicate AskedItem(i: Item, extras: Extras, v: Values)
    requires |v| == LeavesItem(i)
  {
    match i case Atom(text) => extras(text).Some? ==> v[0] case Group(e) => Asked(e, extras, v)
  }

  // --------------------------------------------------- the same, seen on the clauses

  lemma {:induction false} CountJoins(a: seq<Clause>, b: seq<Clause>, extras: Extras)
    ensures ExtraCount(a + b, extras) == ExtraCount(a, extras) + ExtraCount(b, extras)
    ensures Kept(a + b, extras) == Kept(a, extras) + Kept(b, extras)
  {
    if b == [] {
      assert a + b == a;
    } else {
      assert (a + b)[..|a + b| - 1] == a + b[..|b| - 1];
      CountJoins(a, b[..|b| - 1], extras);
    }
  }

  lemma {:induction false} ValuesJoin(a: seq<Clause>, b: seq<Clause>, extras: Extras, v: Values, w: Values)
    requires |v| == |a| && |w| == |b|
    ensures KeptValues(a + b, extras, v + w) == KeptValues(a, extras, v) + KeptValues(b, extras, w)
  {
    if b == [] {
      assert a + b == a && v + w == v;
    } else {
      var n := |b| - 1;
      assert (a + b)[..|a + b| - 1] == a + b[..n] && (v + w)[..|a + b| - 1] == v + w[..n];
      ValuesJoin(a, b[..n], extras, v, w[..n]);
    }
  }

  ghost predicate ExtrasTrue(clauses: seq<Clause>, extras: Extras, v: Values)
    requires |v| == |clauses|
  {
    forall i | 0 <= i < |clauses| :: IsExtra(clauses, extras, i) ==> v[i]
  }

  lemma TruthJoins(a: seq<Clause>, b: seq<Clause>, extras: Extras, v: Values, w: Values)
    requires |v| == |a| && |w| == |b|
    ensures ExtrasTrue(a + b, extras, v + w) <==> ExtrasTrue(a, extras, v) && ExtrasTrue(b, extras, w)
  {
    var all, u := a + b, v + w;
    assert forall i | 0 <= i < |a| :: all[i] == a[i] && u[i] == v[i];
    assert forall i | 0 <= i < |b| :: all[|a| + i] == b[i] && u[|a| + i] == w[i];
    if ExtrasTrue(all, extras, u) {
      forall i | 0 <= i < |a| && IsExtra(a, extras, i) ensures v[i] { assert IsExtra(all, extras, i); }
      forall i | 0 <= i < |b| && IsExtra(b, extras, i) ensures w[i] { assert IsExtra(all, extras, |a| + i); }
    }
    if ExtrasTrue(a, extras, v) && ExtrasTrue(b, extras, w) {
      forall i | 0 <= i < |all| && IsExtra(all, extras, i) ensures u[i] {
        if i < |a| { assert IsExtra(a, extras, i); } else { assert IsExtra(b, extras, i - |a|); }
      }
    }
  }

  /** Counting, dropping and asking on the expression is counting, dropping and asking
      on its clauses. */
  lemma {:induction false} OnClauses(e: Expr, extras: Extras, connector: Option<Connector>, v: Values)
    requires |v| == Leaves(e)
    ensures |Infix(e, connector)| == Leaves(e)
    ensures ExtraCount(Infix(e, connector), extras) == ExtraLeaves(e, extras)
    ensures KeptValues(Infix(e, connector), extras, v) == Drop(e, extras, v)
    ensures ExtrasTrue(Infix(e, connector), extras, v) <==> Asked(e, extras, v)
    decreases e
  {
    InfixCounts(e, connector);
    match e
    case Last(i) => OnClausesItem(i, extras, connector, v);
    case More(i, c, t) =>
      var n := LeavesItem(i);
      OnClausesItem(i, extras, connector, v[..n]);
      OnClauses(t, extras, Some(c), v[n..]);
      assert v == v[..n] + v[n..];
      CountJoins(InfixItem(i, connector), Infix(t, Some(c)), extras);
      ValuesJoin(InfixItem(i, connector), Infix(t, Some(c)), extras, v[..n], v[n..]);
      TruthJoins(InfixItem(i, connector), Infix(t, Some(c)), extras, v[..n], v[n..]);
  }

  lemma {:induction false} OnClausesItem(i: Item, extras: Extras, connector: Option<Connector>, v: Values)
    requires |v| == LeavesItem(i)
    ensures |InfixItem(i, connector)| == LeavesItem(i)
    ensures ExtraCount(InfixItem(i, connector), extras) == ExtraLeavesItem(i, extras)
    ensures KeptValues(InfixItem(i, connector), extras, v) == DropItem(i, extras, v)
    ensures ExtrasTrue(InfixItem(i, connector), extras, v) <==> AskedItem(i, extras, v)
    decreases i
  {
    match i
    case Group(e) => OnClauses(e, extras, connector, v);
    case Atom(text) =>
      var clauses: seq<Clause> := [(connector, text)];
      assert clauses[..0] == [] && v[..0] == [] && v == [v[0]];
      assert IsExtra(clauses, extras, 0) <==> extras(text).Some?;
  }

  // ------------------------------------------------------- no extra: nothing changes

  lemma {:induction false} NoExtra(e: Expr, extras: Extras, v: Values)
    requires |v| == Leaves(e) && ExtraLeaves(e, extras) == 0
    ensures Without(e, extras) == Some(e) && Drop(e, extras, v) == v && Asked(e, extras, v)
    ensures !Demanded(e, extras)
    decreases e
  {
    match e
    case Last(i) => NoExtraItem(i, extras, v);
    case More(i, c, t) =>
      var n := LeavesItem(i);
      NoExtraItem(i, extras, v[..n]);
      NoExtra(t, extras, v[n..]);
      assert v == v[..n] + v[n..];
  }

  lemma {:induction false} NoExtraItem(i: Item, extras: Extras, v: Values)
    requires |v| == LeavesItem(i) && ExtraLeavesItem(i, extras) == 0
    ensures WithoutItem(i, extras) == Some(i) && DropItem(i, extras, v) == v && AskedItem(i, extras, v)
    ensures !DemandedItem(i, extras)
    decreases i
  {
    if i.Group? { NoExtra(i.inner, extras, v); }
  }

  // ------------------------------------------------ one demanded extra: it factors out

  lemma {:induction false} AndTakesOut(e: Expr, v: Values, soFar: bool)
    requires |v| == Leaves(e) && TopAnd(e)
    ensures EvalFrom(e, v, soFar) <==> soFar && EvalFrom(e, v, true)
    decreases e
  {
    match e
    case Last(i) =>
    case More(i, c, t) =>
      var first := EvalItem(i, v[..LeavesItem(i)]);
      AndTakesOut(t, v[LeavesItem(i)..], soFar && first);
      AndTakesOut(t, v[LeavesItem(i)..], first);
  }

  function RestLeaves(rest: Option<Expr>): nat {
    if rest.Some? then Leaves(rest.value) else 0
  }

  /** What the expression says besides its extras. */
  predicate RestHolds(rest: Option<Expr>, v: Values, soFar: bool)
    requires |v| == RestLeaves(rest)
  {
    if rest.Some? then EvalFrom(rest.value, v, soFar) else soFar
  }

  predicate ItemHolds(rest: Option<Item>, v: Values)
    requires |v| == if rest.Some? then LeavesItem(rest.value) else 0
  {
    rest.Some? ==> EvalItem(rest.value, v)
  }

  lemma {:induction false} DropCounts(e: Expr, extras: Extras, v: Values)
    requires |v| == Leaves(e)
    ensures |Drop(e, extras, v)| == RestLeaves(Without(e, extras)) == Leaves(e) - ExtraLeaves(e, extras)
    decreases e
  {
    match e
    case Last(i) => DropCountsItem(i, extras, v);
    case More(i, c, t) =>
      DropCountsItem(i, extras, v[..LeavesItem(i)]);
      DropCounts(t, extras, v[LeavesItem(i)..]);
  }

  lemma {:induction false} DropCountsItem(i: Item, extras: Extras, v: Values)
    requires |v| == LeavesItem(i)
    ensures |DropItem(i, extras, v)| == LeavesItem(i) - ExtraLeavesItem(i, extras)
         == if WithoutItem(i, extras).Some? then LeavesItem(WithoutItem(i, extras).value) else 0
    decreases i
  {
    if i.Group? { DropCounts(i.inner, extras, v); }
  }

  /** A demanded extra stands as a condition in front of the rest. */
  lemma {:induction false} FactorsOut(e: Expr, extras: Extras, v: Values, soFar: bool)
    requires |v| == Leaves(e) && ExtraLeaves(e, extras) == 1 && Demanded(e, extras)
    ensures |Drop(e, extras, v)| == RestLeaves(Without(e, extras))
    ensures EvalFrom(e, v, soFar) <==> Asked(e, extras, v) && RestHolds(Without(e, extras), Drop(e, extras, v), soFar)
    decreases e
  {
    DropCounts(e, extras, v);
    match e
    case Last(i) => FactorsOutItem(i, extras, v);
    case More(i, c, t) =>
      var n := LeavesItem(i);
      if ExtraLeavesItem(i, extras) == 1 {
        NoExtra(t, extras, v[n..]);
        FactorsOutItem(i, extras, v[..n]);
        FirstFactors(i, t, extras, v, soFar);
      } else {
        NoExtraItem(i, extras, v[..n]);
        DropCounts(t, extras, v[n..]);
        FactorsOut(t, extras, v[n..], soFar && EvalItem(i, v[..n]));
        TailFactors(i, t, extras, v, soFar);
      }
  }

  lemma {:induction false} FactorsOutItem(i: Item, extras: Extras, v: Values)
    requires |v| == LeavesItem(i) && ExtraLeavesItem(i, extras) == 1 && DemandedItem(i, extras)
    ensures |DropItem(i, extras, v)| == if WithoutItem(i, extras).Some? then LeavesItem(WithoutItem(i, extras).value) else 0
    ensures EvalItem(i, v) <==> AskedItem(i, extras, v) && ItemHolds(WithoutItem(i, extras), DropItem(i, extras, v))
    decreases i
  {
    if i.Group? { FactorsOut(i.inner, extras, v, true); }
  }

  lemma FirstFactors(i: Item, t: Expr, extras: Extras, v: Values, soFar: bool)
    requires |v| == LeavesItem(i) + Leaves(t) && ExtraLeaves(t, extras) == 0 && TopAnd(t)
    requires var first := v[..LeavesItem(i)];
      && |DropItem(i, extras, first)| == (if WithoutItem(i, extras).Some? then LeavesItem(WithoutItem(i, extras).value) else 0)
      && (EvalItem(i, first) <==> AskedItem(i, extras, first) && ItemHolds(WithoutItem(i, extras), DropItem(i, extras, first)))
    ensures var e := More(i, And, t);
      && |Drop(e, extras, v)| == RestLeaves(Without(e, extras))
      && (EvalFrom(e, v, soFar) <==> Asked(e, extras, v) && RestHolds(Without(e, extras), Drop(e, extras, v), soFar))
  {
    var n := LeavesItem(i);
    var first, rest := v[..n], v[n..];
    NoExtra(t, extras, rest);
    AndTakesOut(t, rest, soFar && EvalItem(i, first));
    var kept := DropItem(i, extras, first);
    match WithoutItem(i, extras)
    case None =>
      assert kept + rest == rest;
      AndTakesOut(t, rest, soFar);
    case Some(item) =>
      assert (kept + rest)[..|kept|] == kept && (kept + rest)[|kept|..] == rest;
      AndTakesOut(t, rest, soFar && EvalItem(item, kept));
  }

  lemma TailFactors(i: Item, t: Expr, extras: Extras, v: Values, soFar: bool)
    requires |v| == LeavesItem(i) + Leaves(t)
    requires WithoutItem(i, extras) == Some(i) && DropItem(i, extras, v[..LeavesItem(i)]) == v[..LeavesItem(i)]
    requires AskedItem(i, extras, v[..LeavesItem(i)])
    ensures var e, n := More(i, And, t), LeavesItem(i);
      && |Drop(t, extras, v[n..])| == RestLeaves(Without(t, extras))
      && |Drop(e, extras, v)| == RestLeaves(Without(e, extras))
      && Asked(e, extras, v) == Asked(t, extras, v[n..])
      && RestHolds(Without(e, extras), Drop(e, extras, v), soFar)
      == RestHolds(Without(t, extras), Drop(t, extras, v[n..]), soFar && EvalItem(i, v[..n]))
  {
    var n := LeavesItem(i);
    DropCounts(t, extras, v[n..]);
    DropCounts(More(i, And, t), extras, v);
    var kept := Drop(t, extras, v[n..]);
    assert Drop(More(i, And, t), extras, v) == v[..n] + kept;
    match Without(t, extras)
    case None =>
      assert v[..n] + kept == v[..n];
      assert Without(More(i, And, t), extras) == Some(Last(i));
    case Some(rest) =>
      assert (v[..n] + kept)[..n] == v[..n] && (v[..n] + kept)[n..] == kept;
      assert Without(More(i, And, t), extras) == Some(More(i, And, rest));
  }

  // ------------------------------------------------------- the kept clauses of the rest

  function RestClauses(rest: Option<Expr>): seq<Clause> {
    if rest.Some? then Infix(rest.value, Some(And)) else []
  }

  lemma {:induction false} PlainKept(e: Expr, extras: Extras, connector: Option<Connector>)
    requires ExtraLeaves(e, extras) == 0
    ensures Kept(Infix(e, connector), extras) == Infix(e, connector)
    decreases e
  {
    match e
    case Last(i) => PlainKeptItem(i, extras, connector);
    case More(i, c, t) =>
      PlainKeptItem(i, extras, connector);
      PlainKept(t, extras, Some(c));
      CountJoins(InfixItem(i, connector), Infix(t, Some(c)), extras);
  }

  lemma {:induction false} PlainKeptItem(i: Item, extras: Extras, connector: Option<Connector>)
    requires ExtraLeavesItem(i, extras) == 0
    ensures Kept(InfixItem(i, connector), extras) == InfixItem(i, connector)
    decreases i
  {
    match i
    case Group(e) => PlainKept(e, extras, connector);
    case Atom(text) => KeptOne((connector, text), extras);
  }

  lemma KeptOne(clause: Clause, extras: Extras)
    ensures Kept([clause], extras) == if extras(clause.1).None? then [clause] else []
  {
    assert [clause][..0] == [];
  }

  /** Behind an `and`, what is kept of a demanded extra's marker is the rest's clauses. */
  lemma {:induction false} KeptIsRest(e: Expr, extras: Extras)
    requires ExtraLeaves(e, extras) == 1 && Demanded(e, extras)
    ensures Kept(Infix(e, Some(And)), extras) == RestClauses(Without(e, extras))
    decreases e
  {
    match e
    case Last(i) => KeptIsRestItem(i, extras);
    case More(i, c, t) =>
      CountJoins(InfixItem(i, Some(And)), Infix(t, Some(And)), extras);
      if ExtraLeavesItem(i, extras) == 1 {
        NoExtra(t, extras, Constant(Leaves(t), true));
        KeptIsRestItem(i, extras);
        PlainKept(t, extras, Some(And));
      } else {
        NoExtraItem(i, extras, Constant(LeavesItem(i), true));
        PlainKeptItem(i, extras, Some(And));
        KeptIsRest(t, extras);
      }
  }

  lemma {:induction false} KeptIsRestItem(i: Item, extras: Extras)
    requires ExtraLeavesItem(i, extras) == 1 && DemandedItem(i, extras)
    ensures Kept(InfixItem(i, Some(And)), extras)
         == if WithoutItem(i, extras).Some? then InfixItem(WithoutItem(i, extras).value, Some(And)) else []
    decreases i
  {
    match i
    case Group(e) => KeptIsRest(e, extras);
    case Atom(text) => KeptOne((Some(And), text), extras);
  }

  /** The connector in front of the first clause says nothing. */
  lemma FirstConnectorIdle(a: seq<Clause>, b: seq<Clause>, v: Values, run: bool)
    requires |a| == |b| == |v| > 0 && a[1..] == b[1..]
    ensures Holds(a, v, run) == Holds(b, v, run)
  {
    if |a| > 1 { assert a[1] == a[1..][0] == b[1]; }
  }

  lemma KeptRelabelled(e: Expr, extras: Extras, connector: Option<Connector>)
    ensures var a, b := Kept(Infix(e, None), extras), Kept(Infix(e, connector), extras);
      |a| == |b| && (a != [] ==> a[1..] == b[1..])
  {
    RelabelInfix(e, connector);
    var plain := Infix(e, None);
    var first, rest := plain[0], plain[1..];
    assert plain == [first] + rest && Infix(e, connector) == [(connector, first.1)] + rest;
    CountJoins([first], rest, extras);
    CountJoins([(connector, first.1)], rest, extras);
    KeptOne(first, extras);
    KeptOne((connector, first.1), extras);
  }

  /** The recorded pair of a marker whose one extra is demanded: the extra is asked for
      and the rest holds, read without its brackets. */
  lemma RecordFactors(e: Expr, extras: Extras, v: Values)
    requires |v| == Leaves(e) && ExtraLeaves(e, extras) == 1 && Demanded(e, extras)
    ensures |Infix(e, None)| == Leaves(e) && |Drop(e, extras, v)| == RestLeaves(Without(e, extras))
    ensures Without(e, extras).Some? ==> Leaves(Flat(Without(e, extras).value)) == Leaves(Without(e, extras).value)
    ensures RecordHolds(Infix(e, None), extras, v) <==>
      Asked(e, extras, v) && (Without(e, extras).Some? ==> Eval(Flat(Without(e, extras).value), Drop(e, extras, v)))
  {
    var rest := Without(e, extras);
    OnClauses(e, extras, None, v);
    DropCounts(e, extras, v);
    AskedIsExtra(Infix(e, None), extras, v);
    KeptIsRest(e, extras);
    KeptRelabelled(e, extras, Some(And));
    if rest.Some? {
      var kept := Drop(e, extras, v);
      FlatKeepsInfix(rest.value, Some(And));
      FlatAllAtoms(rest.value);
      AtomsMeanClauses(Flat(rest.value), Some(And), kept, true);
      FirstConnectorIdle(Kept(Infix(e, None), extras), Infix(rest.value, Some(And)), kept, true);
    }
  }

  lemma AskedIsExtra(clauses: seq<Clause>, extras: Extras, v: Values)
    requires |v| == |clauses| && ExtraCount(clauses, extras) == 1
    ensures ExtraAt(clauses, extras) < |clauses|
    ensures ExtrasTrue(clauses, extras, v) <==> v[ExtraAt(clauses, extras)]
  {
    ExtraFacts(clauses, extras);
  }

  /** Any values of the rest come from values of the whole with the extra asked for. */
  lemma {:induction false} FilledIn(e: Expr, extras: Extras, u: Values) returns (v: Values)
    requires ExtraLeaves(e, extras) <= Leaves(e) && |u| == Leaves(e) - ExtraLeaves(e, extras)
    ensures |v| == Leaves(e) && Drop(e, extras, v) == u && Asked(e, extras, v)
    decreases e
  {
    match e
    case Last(i) => v := FilledInItem(i, extras, u);
    case More(i, c, t) =>
      DropCountsItem(i, extras, Constant(LeavesItem(i), true));
      DropCounts(t, extras, Constant(Leaves(t), true));
      var k := LeavesItem(i) - ExtraLeavesItem(i, extras);
      var first := FilledInItem(i, extras, u[..k]);
      var rest := FilledIn(t, extras, u[k..]);
      v := first + rest;
      assert v[..LeavesItem(i)] == first && v[LeavesItem(i)..] == rest;
  }

  lemma {:induction false} FilledInItem(i: Item, extras: Extras, u: Values) returns (v: Values)
    requires ExtraLeavesItem(i, extras) <= LeavesItem(i) && |u| == LeavesItem(i) - ExtraLeavesItem(i, extras)
    ensures |v| == LeavesItem(i) && DropItem(i, extras, v) == u && AskedItem(i, extras, v)
    decreases i
  {
    match i
    case Group(e) => v := FilledIn(e, extras, u);
    case Atom(text) => v := if extras(text).Some? then [true] else u;
  }

  // --------------------------------------------- an extra that is not demanded, or two

  /** Everything true but the extras. */
  function Sparing(e: Expr, extras: Extras): (v: Values)
    ensures |v| == Leaves(e)
  {
    match e case Last(i) => SparingItem(i, extras) case More(i, _, t) => SparingItem(i, extras) + Sparing(t, extras)
  }

  function SparingItem(i: Item, extras: Extras): (v: Values)
    ensures |v| == LeavesItem(i)
  {
    match i case Atom(text) => [extras(text).None?] case Group(e) => Sparing(e, extras)
  }

  lemma {:induction false} SparingPlain(e: Expr, extras: Extras)
    requires ExtraLeaves(e, extras) == 0
    ensures Sparing(e, extras) == Constant(Leaves(e), true)
    decreases e
  {
    match e
    case Last(i) => SparingPlainItem(i, extras);
    case More(i, c, t) => SparingPlainItem(i, extras); SparingPlain(t, extras);
  }

  lemma {:induction false} SparingPlainItem(i: Item, extras: Extras)
    requires ExtraLeavesItem(i, extras) == 0
    ensures SparingItem(i, extras) == Constant(LeavesItem(i), true)
    decreases i
  {
    if i.Group? { SparingPlain(i.inner, extras); }
  }

  /** With nothing and-ed in front all-true leaves are saved by an outer `or` only. */
  lemma {:induction false} SavedByOr(e: Expr)
    ensures EvalFrom(e, Constant(Leaves(e), true), false) <==> !TopAnd(e)
    decreases e
  {
    match e
    case Last(i) => ConstantItem(i, true);
    case More(i, c, t) =>
      assert Constant(Leaves(e), true)[LeavesItem(i)..] == Constant(Leaves(t), true);
      ConstantValue(t, true, true);
      SavedByOr(t);
  }

  /** Its one extra false, the rest true: false exactly when the extra is demanded. */
  lemma {:induction false} SparingValue(e: Expr, extras: Extras)
    requires ExtraLeaves(e, extras) == 1
    ensures EvalFrom(e, Sparing(e, extras), true) <==> !Demanded(e, extras)
    decreases e
  {
    match e
    case Last(i) => SparingValueItem(i, extras);
    case More(i, c, t) =>
      var n := LeavesItem(i);
      var v := Sparing(e, extras);
      assert v[..n] == SparingItem(i, extras) && v[n..] == Sparing(t, extras);
      if ExtraLeavesItem(i, extras) == 1 {
        NoExtra(t, extras, Constant(Leaves(t), true));
        SparingValueItem(i, extras);
        SparingPlain(t, extras);
        SavedByOr(t);
        ConstantValue(t, true, true);
      } else {
        NoExtraItem(i, extras, Constant(n, true));
        SparingPlainItem(i, extras);
        ConstantItem(i, true);
        SparingValue(t, extras);
      }
  }

  lemma {:induction false} SparingValueItem(i: Item, extras: Extras)
    requires ExtraLeavesItem(i, extras) == 1
    ensures EvalItem(i, SparingItem(i, extras)) <==> !DemandedItem(i, extras)
    decreases i
  {
    if i.Group? { SparingValue(i.inner, extras); }
  }

  lemma {:induction false} SparingNotAsked(e: Expr, extras: Extras)
    requires ExtraLeaves(e, extras) > 0
    ensures !Asked(e, extras, Sparing(e, extras))
    decreases e
  {
    match e
    case Last(i) => if i.Group? { SparingNotAsked(i.inner, extras); }
    case More(i, c, t) =>
      assert Sparing(e, extras)[..LeavesItem(i)] == SparingItem(i, extras);
      assert Sparing(e, extras)[LeavesItem(i)..] == Sparing(t, extras);
      if ExtraLeavesItem(i, extras) == 0 {
        SparingNotAsked(t, extras);
      } else if i.Group? {
        SparingNotAsked(i.inner, extras);
      }
  }

  lemma {:induction false} TermTrueHolds(e: Expr)
    ensures EvalFrom(e, TermTrue(e), true)
    decreases e
  {
    match e
    case Last(i) => ConstantItem(i, true);
    case More(i, c, t) =>
      var n := LeavesItem(i);
      assert TermTrue(e)[..n] == Constant(n, true);
      ConstantItem(i, true);
      if c.And? {
        assert TermTrue(e)[n..] == TermTrue(t);
        TermTrueHolds(t);
      }
  }

  /** Every leaf matters: some values of the others make the whole follow it. */
  lemma {:induction false} Sensitive(e: Expr, y: nat) returns (v: Values)
    requires y < Leaves(e)
    ensures |v| == Leaves(e) && EvalFrom(e, v[y := true], true) && !EvalFrom(e, v[y := false], true)
    decreases e
  {
    match e
    case Last(i) => v := SensitiveItem(i, y);
    case More(i, c, t) =>
      var n := LeavesItem(i);
      if y < n {
        var first := SensitiveItem(i, y);
        var rest := if c.And? then TermTrue(t) else Constant(Leaves(t), false);
        v := first + rest;
        assert v[y := true][..n] == first[y := true] && v[y := true][n..] == rest;
        assert v[y := false][..n] == first[y := false] && v[y := false][n..] == rest;
        TermTrueHolds(t);
        TermTrueValue(t);
        ConstantValue(t, false, true);
      } else {
        var rest := Sensitive(t, y - n);
        var first := Constant(n, c.And?);
        v := first + rest;
        assert v[y := true][..n] == first && v[y := true][n..] == rest[y - n := true];
        assert v[y := false][..n] == first && v[y := false][n..] == rest[y - n := false];
        ConstantItem(i, c.And?);
      }
  }

  lemma {:induction false} SensitiveItem(i: Item, y: nat) returns (v: Values)
    requires y < LeavesItem(i)
    ensures |v| == LeavesItem(i) && EvalItem(i, v[y := true]) && !EvalItem(i, v[y := false])
    decreases i
  {
    match i
    case Group(e) => v := Sensitive(e, y);
    case Atom(_) => v := [true];
  }

  /** The record takes no notice of any extra but the first. */
  lemma {:induction false} KeptIgnores(clauses: seq<Clause>, extras: Extras, v: Values, y: nat, b: bool)
    requires |v| == |clauses| && y < |clauses| && IsExtra(clauses, extras, y)
    ensures KeptValues(clauses, extras, v[y := b]) == KeptValues(clauses, extras, v)
  {
    var n := |clauses| - 1;
    if y < n {
      assert v[y := b][..n] == v[..n][y := b];
      KeptIgnores(clauses[..n], extras, v[..n], y, b);
    } else {
      assert v[y := b][..n] == v[..n];
    }
  }

  // ------------------------------------------------------------------ the main result

  /** When the recorded pair says what the marker said. */
  predicate Faithful(e: Expr, extras: Extras) {
    if ExtraLeaves(e, extras) == 0 then NoOrUnderAnd(e)
    else
      && ExtraLeaves(e, extras) == 1 && Demanded(e, extras)
      && (Without(e, extras).Some? ==> NoOrUnderAnd(Without(e, extras).value))
  }

  ghost predicate RecordMeans(e: Expr, extras: Extras, v: Values)
    requires |v| == Leaves(e)
  {
    |Infix(e, None)| == Leaves(e) && (RecordHolds(Infix(e, None), extras, v) <==> Eval(e, v))
  }

  /** What is meant by that: the recorded text is the print of a bracket-free expression
      whose value, with the first extra asked for, is the record's. */
  lemma RecordedTextMeans(e: Expr, extras: Extras, v: Values)
    requires ExprOk(e) && |v| == Leaves(e)
    ensures Flatten(Print(e)) == Infix(e, None) && |Infix(e, None)| == Leaves(e)
    ensures var clauses := Infix(e, None);
      var kept, at := Kept(clauses, extras), ExtraAt(clauses, extras);
      && (kept != [] ==> Print(Chain(kept)) == Rejoin(kept) && Leaves(Chain(kept)) == |kept|)
      && (at < |v| ==> FirstExtra(clauses, extras) == extras(clauses[at].1))
      && (RecordMeans(e, extras, v) <==>
        (Eval(e, v) <==> (at < |v| ==> v[at]) && (kept != [] ==> Eval(Chain(kept), KeptValues(clauses, extras, v)))))
  {
    FlattenPrinted(e);
    InfixCounts(e, None);
    InfixLinked(e, None);
    KeptLinked(Infix(e, None), extras);
    ExtraFacts(Infix(e, None), extras);
    var kept := Kept(Infix(e, None), extras);
    if kept != [] { ChainMeans(kept, KeptValues(Infix(e, None), extras, v)); }
  }

  lemma ChainMeans(kept: seq<Clause>, u: Values)
    requires kept != [] && Linked(kept) && |u| == |kept|
    ensures Print(Chain(kept)) == Rejoin(kept) && Leaves(Chain(kept)) == |kept|
    ensures Eval(Chain(kept), u) <==> Holds(kept, u, true)
  {
    ChainPrints(kept);
    ChainAtoms(kept);
    InfixCounts(Chain(kept), kept[0].0);
    hide Linked; hide Chain; hide Holds;
    AtomsMeanClauses(Chain(kept), kept[0].0, u, true);
  }

  lemma {:induction false} ChainAtoms(clauses: seq<Clause>)
    requires clauses != []
    ensures AllAtoms(Chain(clauses))
  {
    if |clauses| > 1 { ChainAtoms(clauses[1..]); }
  }

  lemma RecordWithoutExtra(e: Expr, extras: Extras, v: Values)
    requires |v| == Leaves(e) && ExtraLeaves(e, extras) == 0
    ensures Leaves(Flat(e)) == Leaves(e) && (RecordMeans(e, extras, v) <==> Eval(Flat(e), v) == Eval(e, v))
  {
    OnClauses(e, extras, None, v);
    ExtraFacts(Infix(e, None), extras);
    NothingDropped(Infix(e, None), extras, v);
    FlatKeepsInfix(e, None);
    FlatAllAtoms(e);
    AtomsMeanClauses(Flat(e), None, v, true);
  }

  lemma RecordWithDemanded(e: Expr, extras: Extras, v: Values)
    requires |v| == Leaves(e) && ExtraLeaves(e, extras) == 1 && Demanded(e, extras)
    ensures |Drop(e, extras, v)| == RestLeaves(Without(e, extras))
    ensures Without(e, extras).None? ==> RecordMeans(e, extras, v)
    ensures Without(e, extras).Some? ==> var rest := Without(e, extras).value;
      && Leaves(Flat(rest)) == Leaves(rest)
      && (RecordMeans(e, extras, v) <==>
        (Asked(e, extras, v) ==> Eval(Flat(rest), Drop(e, extras, v)) == Eval(rest, Drop(e, extras, v))))
  {
    RecordFactors(e, extras, v);
    FactorsOut(e, extras, v, true);
  }

  lemma FaithfulMeans(e: Expr, extras: Extras, v: Values)
    requires |v| == Leaves(e) && Faithful(e, extras)
    ensures RecordMeans(e, extras, v)
  {
    if ExtraLeaves(e, extras) == 0 {
      RecordWithoutExtra(e, extras, v);
      FlatteningKeepsMeaningIff(e);
    } else {
      RecordWithDemanded(e, extras, v);
      if Without(e, extras).Some? { FlatteningKeepsMeaningIff(Without(e, extras).value); }
    }
  }

  /** Otherwise some valuation tells the two apart. */
  lemma Unfaithful(e: Expr, extras: Extras) returns (v: Values)
    requires !Faithful(e, extras)
    ensures |v| == Leaves(e) && !RecordMeans(e, extras, v)
  {
    if ExtraLeaves(e, extras) == 0 {
      FlatteningKeepsMeaningIff(e);
      v :| |v| == Leaves(e) && Eval(Flat(e), v) != Eval(e, v);
      RecordWithoutExtra(e, extras, v);
    } else if ExtraLeaves(e, extras) > 1 {
      v := TwoExtras(e, extras);
    } else if Demanded(e, extras) {
      var rest := Without(e, extras).value;
      FlatteningKeepsMeaningIff(rest);
      var u: Values :| |u| == Leaves(rest) && Eval(Flat(rest), u) != Eval(rest, u);
      DropCounts(e, extras, Constant(Leaves(e), true));
      v := FilledIn(e, extras, u);
      RecordWithDemanded(e, extras, v);
    } else {
      v := Sparing(e, extras);
      SparingValue(e, extras);
      SparingNotAsked(e, extras);
      OnClauses(e, extras, None, v);
      AskedIsExtra(Infix(e, None), extras, v);
    }
  }

  lemma TwoExtras(e: Expr, extras: Extras) returns (v: Values)
    requires ExtraLeaves(e, extras) > 1
    ensures |v| == Leaves(e) && !RecordMeans(e, extras, v)
  {
    var clauses := Infix(e, None);
    OnClauses(e, extras, None, Constant(Leaves(e), true));
    var y := AnotherExtra(clauses, extras);
    var u := Sensitive(e, y);
    KeptIgnores(clauses, extras, u, y, true);
    KeptIgnores(clauses, extras, u, y, false);
    var on, off := u[y := true], u[y := false];
    assert RecordHolds(clauses, extras, on) == RecordHolds(clauses, extras, off);
    v := if RecordHolds(clauses, extras, on) then off else on;
  }

  /** Main result: read back as "the extra is asked for and the marker holds", the record
      of a marker means that marker under every valuation of its leaves exactly when it
      names no extra and has no `or` group under an `and`, or names one, reached through
      `and` and brackets only, and what is left without it has none. */
  lemma RecordMeansDeclaredMarkerIff(e: Expr, extras: Extras)
    ensures (forall v: Values | |v| == Leaves(e) :: RecordMeans(e, extras, v)) <==> Faithful(e, extras)
  {
    if Faithful(e, extras) {
      forall v: Values | |v| == Leaves(e) ensures RecordMeans(e, extras, v) { FaithfulMeans(e, extras, v); }
    } else {
      var v := Unfaithful(e, extras);
    }
  }

  /** The same in environments, where equal comparisons agree. */
  lemma RecordInEnvironments(e: Expr, extras: Extras)
    ensures Faithful(e, extras) ==> forall env: Environment :: RecordMeans(e, extras, ValuesIn(e, env))
    ensures DistinctLeaves(e) ==>
      ((forall env: Environment :: RecordMeans(e, extras, ValuesIn(e, env))) <==> Faithful(e, extras))
  {
    if Faithful(e, extras) {
      forall env: Environment ensures RecordMeans(e, extras, ValuesIn(e, env)) {
        FaithfulMeans(e, extras, ValuesIn(e, env));
      }
    } else if DistinctLeaves(e) {
      var v := Unfaithful(e, extras);
      var env := EnvironmentOf(e, v);
    }
  }

  /** `a or b`, and `(a or b) and a or b`. */
  function Either(a: string, b: string): Expr { More(Atom(a), Or, Last(Atom(b))) }

  function Twice(a: string, b: string): Expr { More(Group(Either(a, b)), And, Either(a, b)) }

  /** A comparison that stands twice can make up for lost brackets. */
  lemma RepeatedLeafKeepsMeaning(a: string, b: string, env: Environment)
    ensures !NoOrUnderAnd(Twice(a, b)) && !DistinctLeaves(Twice(a, b))
    ensures EvalIn(Flat(Twice(a, b)), env) == EvalIn(Twice(a, b), env)
  {
    var e, pair := Twice(a, b), Either(a, b);
    EitherFacts(a, b, None);
    EitherFacts(a, b, Some(And));
    assert !OrFreeItem(Group(pair));
    assert Infix(e, None) == Infix(pair, None) + Infix(pair, Some(And));
    assert Leaves(e) == 4;
    assert LeafTexts(e) == [a, b, a, b];
    assert LeafTexts(e)[0] == LeafTexts(e)[2];
    FlatLeaves(e, env);
    var v := ValuesIn(e, env);
    assert v == [env(a), env(b), env(a), env(b)];
    EitherValue(a, b, true, v[..2]);
    EitherValue(a, b, Eval(pair, v[..2]), v[2..]);
    EitherValue(a, b, v[1], v[2..]);
    assert Flat(e) == Append(pair, And, pair);
    assert Append(pair, And, pair) == More(Atom(a), Or, More(Atom(b), And, pair));
    assert v[1..][1..] == v[2..];
    assert EvalFrom(More(Atom(b), And, pair), v[1..], true) == EvalFrom(pair, v[2..], v[1]);
    assert LeavesItem(Atom(b)) == 1 && Leaves(More(Atom(b), And, pair)) == 3;
    HeadOr(Atom(a), More(Atom(b), And, pair), v);
    assert Eval(e, v) == EvalFrom(pair, v[2..], EvalItem(Group(pair), v[..2]));
  }

  lemma FlatLeaf(i: Item)
    requires i.Atom?
    ensures FlatItem(i) == Last(i) && Flat(Last(i)) == Last(i)
  {
    assert Flat(Last(i)) == FlatItem(i);
  }

  lemma EitherFacts(a: string, b: string, connector: Option<Connector>)
    ensures Leaves(Either(a, b)) == 2 && Flat(Either(a, b)) == Either(a, b)
    ensures Infix(Either(a, b), connector) == [(connector, a), (Some(Or), b)]
  {
    FlatLeaf(Atom(a));
    FlatLeaf(Atom(b));
    assert Leaves(Last(Atom(b))) == 1;
    assert Infix(Last(Atom(b)), Some(Or)) == [(Some(Or), b)];
    assert Flat(Either(a, b)) == Append(Last(Atom(a)), Or, Last(Atom(b)));
  }

  lemma HeadOr(i: Item, t: Expr, v: Values)
    requires i.Atom? && |v| == Leaves(More(i, Or, t)) == 1 + Leaves(t)
    ensures Eval(More(i, Or, t), v) <==> v[0] || Eval(t, v[1..])
  {
    assert EvalItem(i, v[..1]) == v[0];
  }

  lemma EitherValue(a: string, b: string, soFar: bool, v: Values)
    requires |v| == 2
    ensures Leaves(Either(a, b)) == 2
    ensures EvalFrom(Either(a, b), v, soFar) <==> (soFar && v[0]) || v[1]
  {
    assert Leaves(Last(Atom(b))) == 1;
    assert v[1..] == [v[1]];
    assert EvalFrom(Last(Atom(b)), v[1..], true) == v[1];
  }
}
