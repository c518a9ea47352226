/** The comparison theorems speak of events that exist, and two inputs on which
    a compiled comparison is wrong. */
module ComparisonLimits {
  import opened Linear
  import opened Formulas
  import opened Saturation
  import opened Conditions
  import opened PartialTruth
  import opened NegationLimits
  import opened LinearForms
  import opened Comparisons
  import opened ComparisonTruth

  // ----- every event has its opaque scalars -----

  lemma {:induction false} EvalAgrees(a: QuantityId -> Num3, b: QuantityId -> Num3, e: Expr)
    requires forall q | q in Quants(e) :: a(q) == b(q)
    ensures Eval(a, e) == Eval(b, e)
    decreases e, 1
  {
    match e
    case Neg(x) => EvalAgrees(a, b, x);
    case Abs(x) => EvalAgrees(a, b, x);
    case Bin(_, l, r) => EvalAgrees(a, b, l); EvalAgrees(a, b, r);
    case Extremum(least, args) => if args != [] { ExtremumAgrees(a, b, least, args); }
    case _ =>
  }

  lemma {:induction false} ExtremumAgrees(a: QuantityId -> Num3, b: QuantityId -> Num3, least: bool, args: seq<Expr>)
    requires args != [] && forall x, q | x in args && q in Quants(x) :: a(q) == b(q)
    ensures EvalExtremum(a, least, args) == EvalExtremum(b, least, args)
    decreases args, 0
  {
    var n := |args| - 1;
    EvalAgrees(a, b, args[n]);
    if n > 0 { ExtremumAgrees(a, b, least, args[..n]); }
  }

  /** Opaque scalars have ids of their own. */
  ghost predicate OwnScalars(env: Env) {
    && (forall e, f | e in env.interned && f in env.interned :: env.opaqueOf(e) == env.opaqueOf(f) ==> e == f)
    && (forall e, f | e in env.interned && f in env.interned :: env.opaqueOf(e) !in Quants(f))
  }

  predicate IsScalar(env: Env, q: QuantityId) { exists e | e in env.interned :: env.opaqueOf(e) == q }

  /** What the expression behind a scalar evaluates to. */
  ghost function ScalarValue(env: Env, ev: Event, q: QuantityId): Num3
    requires IsScalar(env, q)
  {
    var e :| e in env.interned && env.opaqueOf(e) == q;
    Eval(Reading(env.table, ev), e)
  }

  /** The event with every opaque scalar at the value of its expression. */
  ghost function Completion(env: Env, ev: Event): Event {
    Event(
      (q: QuantityId) => if IsScalar(env, q) then (match ScalarValue(env, ev, q) case Val(x) => x case _ => 0.0) else ev.value(q),
      (q: QuantityId) => if IsScalar(env, q) then ScalarValue(env, ev, q).Val? else ev.has(q),
      ev.reading)
  }

  lemma CompletedScalar(env: Env, ev: Event, e: Expr)
    requires OwnScalars(env) && e in env.interned
    ensures IsScalar(env, env.opaqueOf(e)) && ScalarValue(env, ev, env.opaqueOf(e)) == Eval(Reading(env.table, ev), e)
    ensures Eval(Reading(env.table, Completion(env, ev)), e) == Eval(Reading(env.table, ev), e)
  {
    hide Eval, Quants;
    assert IsScalar(env, env.opaqueOf(e));
    EvalAgrees(Reading(env.table, Completion(env, ev)), Reading(env.table, ev), e);
  }

  lemma CompletedFloors(env: Env, ev: Event, q: QuantityId)
    requires EnvValid(env) && DataFit(env, ev) && !IsScalar(env, q) && ev.has(q)
    ensures FloorsHold(env.floors(q), View(env.table, Completion(env, ev)))
  {
    hide Completion;
    var floors, done := env.floors(q), Completion(env, ev);
    assert FloorsHold(floors, View(env.table, ev));
    forall i | 0 <= i < |floors| ensures AtomHolds(floors[i].AsAtom(), View(env.table, done)) {
      SizeUnchanged(env, ev, floors[i].size);
      SingleIsMake(floors[i].size, Gt, floors[i].bound as real);
      assert AtomHolds(floors[i].AsAtom(), View(env.table, ev));
    }
  }

  lemma SizeUnchanged(env: Env, ev: Event, q: QuantityId)
    requires EnvValid(env) && env.sizes(q)
    ensures !IsScalar(env, q) && View(env.table, Completion(env, ev))(q) == View(env.table, ev)(q)
  {
  }

  /** Whatever the data of an event, it has opaque scalars that fit it: nothing
      else changes. */
  lemma EventsExist(env: Env, ev: Event)
    requires EnvValid(env) && OwnScalars(env) && DataFit(env, ev)
    ensures EventFits(env, Completion(env, ev))
    ensures forall q: QuantityId :: !IsScalar(env, q) ==>
      Completion(env, ev).has(q) == ev.has(q) && Completion(env, ev).value(q) == ev.value(q)
  {
    hide Eval, FloorsHold, Quants;
    var done := Completion(env, ev);
    forall e | e in env.interned ensures OpaqueFits(env, done, e) { CompletedScalar(env, ev, e); }
    forall q: QuantityId | !env.table.MayBeAbsent(q) ensures done.has(q) { assert !IsScalar(env, q); }
    forall q: QuantityId | env.sizes(q) ensures IsInteger(View(env.table, done)(q)) { SizeUnchanged(env, ev, q); }
    forall q: QuantityId | done.has(q) ensures FloorsHold(env.floors(q), View(env.table, done)) {
      if IsScalar(env, q) { NoGuards(View(env.table, done)); } else { CompletedFloors(env, ev, q); }
    }
  }

  lemma NoGuards(v: Valuation)
    ensures FloorsHold([], v)
  {
  }

  // ----- concrete failures -----

  function Undefined(q: QuantityId): Expr { Bin(Div, Quant(q), Num(0.0)) }

  lemma UndefinedFacts(read: QuantityId -> Num3, q: QuantityId)
    ensures !Eval(read, Undefined(q)).Val? && Quants(Undefined(q)) == {q}
    ensures read(q).Val? ==> Eval(read, Undefined(q)) == NonValue
    ensures Lin(Undefined(q)) == NonFinite
  {
    QuantForms(q);
    NumberForm(0.0);
  }

  lemma NumberForm(r: real)
    ensures Lin(Num(r)) == Form(ConstForm(r)) && IsConstTree(Num(r))
  {
  }

  lemma QuantForms(q: QuantityId)
    ensures !IsConstTree(Quant(q)) && !IsConstTree(Undefined(q))
    ensures Lin(Quant(q)) == Form(LinExpr([Term(1.0, q)], 0.0, {q}))
  {
  }

  lemma AbsoluteClaims(env: Env, ev: Event, q: QuantityId)
    requires EnvValid(env) && EventFits(env, ev) && ev.has(q)
    ensures CompareTruth(Reading(env.table, ev), Gt, Abs(Undefined(q)), Num(-1.0)) == F
    ensures Sat(Compare(env, Gt, Abs(Undefined(q)), Num(-1.0)), UnderSide, View(env.table, ev))
  {
    hide Lin, GuardPresence, Project, EventFits, View, Quants;
    var read := Reading(env.table, ev);
    UndefinedFacts(read, q);
    NumberForm(-1.0);
    AbsIsNonLinear(q);
    FitsIsValid(env, ev);
    ConstHolds(View(env.table, ev));
    GuardPresenceMeans(env.table, ev, {q}, True, UnderSide);
    assert Compare(env, Gt, Abs(Undefined(q)), Num(-1.0)) == AbsCompare(env, Undefined(q), Gt, -1.0);
  }

  lemma AbsIsNonLinear(q: QuantityId)
    ensures Lin(Abs(Undefined(q))) == NonLinear
    ensures Lin(Extremum(true, [Quant(q), Undefined(q)])) == NonLinear
  {
    QuantForms(q);
    assert [Quant(q), Undefined(q)][0] == Quant(q);
  }

  lemma MinimumClaims(env: Env, ev: Event, q: QuantityId)
    requires EnvValid(env) && EventFits(env, ev) && env.table.innerOf(q) == None && ev.has(q) && ev.value(q) < 5.0
    ensures CompareTruth(Reading(env.table, ev), Lt, Extremum(true, [Quant(q), Undefined(q)]), Num(5.0)) == F
    ensures Sat(Compare(env, Lt, Extremum(true, [Quant(q), Undefined(q)]), Num(5.0)), UnderSide, View(env.table, ev))
  {
    hide Lin, GuardPresence, Project, EventFits, View, Quants, ExtremumCompare, AtomOf, EnvValid, Complete;
    var read, v, args := Reading(env.table, ev), View(env.table, ev), [Quant(q), Undefined(q)];
    UndefinedFacts(read, q);
    NumberForm(5.0);
    AbsIsNonLinear(q);
    MinimumEval(read, q);
    var parts := seq(2, i requires 0 <= i < 2 => ArgCompare(env, args[i], Lt, 5.0));
    MinimumParts(env, ev, q, parts);
    ExtremumExact(env, ev, true, args, Lt, 5.0, parts);
    MinimumIncomplete(env, ev, q);
    MinimumExact(env, q, parts);
    ExactProjectionsAgree(ExtremumCompare(env, true, args, Lt, parts));
  }

  lemma MinimumEval(read: QuantityId -> Num3, q: QuantityId)
    requires read(q).Val?
    ensures Eval(read, Extremum(true, [Quant(q), Undefined(q)])) == NonValue
  {
    var args := [Quant(q), Undefined(q)];
    assert args[..1] == [Quant(q)];
    UndefinedFacts(read, q);
    assert EvalExtremum(read, true, [Quant(q)]) == read(q);
    assert EvalExtremum(read, true, args) == NonValue;
  }

  lemma PlainQuant(env: Env, q: QuantityId)
    requires env.table.innerOf(q) == None
    ensures Tabled(env, Quant(q)) && Tabled(env, Undefined(q))
  {
  }

  lemma MinimumParts(env: Env, ev: Event, q: QuantityId, parts: seq<Formula>)
    requires EnvValid(env) && EventFits(env, ev) && env.table.innerOf(q) == None
    requires var args := [Quant(q), Undefined(q)];
      parts == seq(2, i requires 0 <= i < 2 => ArgCompare(env, args[i], Lt, 5.0))
    ensures EachJudges(env, ev, [Quant(q), Undefined(q)], Lt, 5.0, parts) && AllExact(parts)
  {
    hide Project, EventFits, View, AtomOf, EnvValid, Judges, Compares, ArgCompare, Quants, Regular;
    PlainQuant(env, q);
    assert Regular(env, ev, Quant(q)) && Regular(env, ev, Undefined(q)) by { RegularPlain(env, ev, q); }
    ArgJudges(env, ev, Quant(q), Lt, 5.0);
    ArgJudges(env, ev, Undefined(q), Lt, 5.0);
    ExactArguments(env, q);
  }

  lemma RegularPlain(env: Env, ev: Event, q: QuantityId)
    ensures Regular(env, ev, Quant(q)) && Regular(env, ev, Undefined(q))
  {
  }

  lemma ExactArguments(env: Env, q: QuantityId)
    ensures IsExact(ArgCompare(env, Quant(q), Lt, 5.0)) && IsExact(ArgCompare(env, Undefined(q), Lt, 5.0))
  {
    hide Ascending, GuardPresence, AtomOf, Lin;
    UndefinedFacts(_ => Blocked, q);
    QuantForms(q);
    PlainAtomExact(env, [Term(1.0, q)], Lt, 5.0 - 0.0);
    GuardPresenceExact(env.table, {q}, AtomOf(env.sizes, [Term(1.0, q)], Lt, 5.0 - 0.0));
  }

  lemma MinimumIncomplete(env: Env, ev: Event, q: QuantityId)
    requires ev.has(q) && ev.value(q) < 5.0
    ensures !Complete(env, ev, [Quant(q), Undefined(q)], Lt, 5.0)
  {
    var args, read := [Quant(q), Undefined(q)], Reading(env.table, ev);
    UndefinedFacts(read, q);
    assert Compares(read, args[0], Lt, 5.0);
    assert args[1] in args;
    assert AllQuants(args) == {q} by {
      assert forall a :: a in args ==> Quants(a) == {q};
      assert args[0] in args;
    }
  }

  lemma MinimumExact(env: Env, q: QuantityId, parts: seq<Formula>)
    requires |parts| == 2 && AllExact(parts)
    ensures IsExact(ExtremumCompare(env, true, [Quant(q), Undefined(q)], Lt, parts))
  {
    hide FAnd, FOr, ExactQuants, FloorAtoms, OpaqueMarks;
    var present := ExactQuants([Quant(q), Undefined(q)], parts);
    ExactAlternatives(parts);
    ConjunctionMeans(FloorsOf(env, present), parts, FOr(parts), OverSide, _ => 0.0);
    GuardPresenceExact(env.table, present, FAnd(FloorAtoms(FloorsOf(env, present)) + OpaqueMarks(parts) + [FOr(parts)]));
  }

  /** The table of the negation examples, with id 0 a size, and ids 5 and 9 the
      scalars of the two operands below. */
  const SAMPLE_ENV := Env(SAMPLE, q => q == 0, {Abs(Undefined(1)), Extremum(true, [Quant(1), Undefined(1)])},
    (e: Expr) => if e.Abs? then 5 else 9, _ => [])

  /** Everything but the two scalars has a value, and it is 0. */
  const SAMPLE_EVENT := Event(_ => 0.0, q => q != 5 && q != 9, _ => U)

  lemma SampleEnvValid()
    ensures EnvValid(SAMPLE_ENV)
  {
    SampleValid();
  }

  lemma SampleQuants()
    ensures forall e | e in SAMPLE_ENV.interned :: Quants(e) == {1}
  {
    hide Eval, Lin;
    UndefinedFacts(_ => Blocked, 1);
    assert Quants(Quant(1)) == {1};
    assert forall a :: a in [Quant(1), Undefined(1)] ==> Quants(a) == {1};
    assert Quant(1) in [Quant(1), Undefined(1)];
    assert Quants(Extremum(true, [Quant(1), Undefined(1)])) == {1};
  }

  lemma SampleScalarsOwn()
    ensures OwnScalars(SAMPLE_ENV)
  {
    hide Quants;
    SampleQuants();
  }

  lemma SampleScalars()
    ensures forall e | e in SAMPLE_ENV.interned :: OpaqueFits(SAMPLE_ENV, SAMPLE_EVENT, e)
  {
    hide Eval;
    var read := Reading(SAMPLE, SAMPLE_EVENT);
    assert read(1) == Val(0.0);
    UndefinedFacts(read, 1);
    MinimumEval(read, 1);
    AbsOfNonValue(read, Undefined(1));
  }

  lemma SampleTabled()
    ensures Tabled(SAMPLE_ENV, Abs(Undefined(1))) && Tabled(SAMPLE_ENV, Extremum(true, [Quant(1), Undefined(1)]))
  {
    hide Lin;
    UndefinedFacts(_ => Blocked, 1);
    AbsIsNonLinear(1);
    QuantForms(1);
    NumberForm(0.0);
    assert Opaques(Undefined(1)) == {} && Opaques(Quant(1)) == {};
    assert forall a :: a in [Quant(1), Undefined(1)] ==> Quants(a) == {1} && Opaques(a) == {};
  }

  lemma SampleFits()
    ensures EnvValid(SAMPLE_ENV) && OwnScalars(SAMPLE_ENV) && EventFits(SAMPLE_ENV, SAMPLE_EVENT)
    ensures Tabled(SAMPLE_ENV, Abs(Undefined(1))) && Tabled(SAMPLE_ENV, Extremum(true, [Quant(1), Undefined(1)]))
  {
    hide OpaqueFits, Tabled, EnvValid, OwnScalars;
    SampleEnvValid();
    SampleScalarsOwn();
    SampleScalars();
    SampleTabled();
  }

  lemma AbsOfNonValue(read: QuantityId -> Num3, e: Expr)
    requires Eval(read, e).NonValue?
    ensures Eval(read, Abs(e)).NonValue?
  {
  }

  /** `|q / 0| > -1` is false, and the encoding claims it. */
  lemma AbsoluteOfNothing()
    ensures EnvValid(SAMPLE_ENV) && EventFits(SAMPLE_ENV, SAMPLE_EVENT) && Tabled(SAMPLE_ENV, Abs(Undefined(1)))
    ensures CompareTruth(Reading(SAMPLE, SAMPLE_EVENT), Gt, Abs(Undefined(1)), Num(-1.0)) == F
    ensures Sat(Compare(SAMPLE_ENV, Gt, Abs(Undefined(1)), Num(-1.0)), UnderSide, View(SAMPLE, SAMPLE_EVENT))
  {
    hide EnvValid, EventFits, Tabled, Compare, Eval, Project;
    SampleFits();
    AbsoluteClaims(SAMPLE_ENV, SAMPLE_EVENT, 1);
  }

  /** `min(q, q / 0) < 5` is false, and the encoding claims it. */
  lemma MinimumOfNothing()
    ensures EnvValid(SAMPLE_ENV) && EventFits(SAMPLE_ENV, SAMPLE_EVENT)
    ensures Tabled(SAMPLE_ENV, Extremum(true, [Quant(1), Undefined(1)]))
    ensures CompareTruth(Reading(SAMPLE, SAMPLE_EVENT), Lt, Extremum(true, [Quant(1), Undefined(1)]), Num(5.0)) == F
    ensures Sat(Compare(SAMPLE_ENV, Lt, Extremum(true, [Quant(1), Undefined(1)]), Num(5.0)), UnderSide, View(SAMPLE, SAMPLE_EVENT))
  {
    hide EnvValid, EventFits, Tabled, Compare, Eval, Project;
    SampleFits();
    MinimumClaims(SAMPLE_ENV, SAMPLE_EVENT, 1);
  }
}
