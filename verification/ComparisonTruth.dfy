/** The compiled comparison says what the interpreter says: exactly, on every
    event, except where an absolute value or a `min`/`max` argument can lack a
    value although all its data are present. */
module ComparisonTruth {
  import opened Linear
  import opened Formulas
  import opened Saturation
  import opened Conditions
  import opened PartialTruth
  import opened LinearForms
  import opened Comparisons

  // ----- the interpreter -----

  /** An expression against a number. */
  predicate Compares(read: QuantityId -> Num3, e: Expr, rel: Rel, c: real) {
    var n := Eval(read, e);
    n.Val? && RelEval(rel, n.x, c)
  }

  function CompareTruth(read: QuantityId -> Num3, rel: Rel, l: Expr, r: Expr): Tri {
    var a, b := Eval(read, l), Eval(read, r);
    if a.NonValue? || b.NonValue? then F
    else if a.Blocked? || b.Blocked? then U
    else if RelEval(rel, a.x, b.x) then T else F
  }

  function BandTruth(read: QuantityId -> Num3, inside: bool, e: Expr, lo: real, hi: real): Tri {
    match Eval(read, e)
    case NonValue => F
    case Blocked => U
    case Val(x) => if inside then if lo <= x <= hi then T else F else if x <= lo || x >= hi then T else F
  }

  // ----- what is assumed of the table and the event -----

  ghost predicate PlainQuants(env: Env, qs: set<QuantityId>) { forall q | q in qs :: env.table.innerOf(q) == None }

  /** A size is always there, and needs no guard; guards speak of sizes. */
  ghost predicate SizesValid(env: Env) {
    && (forall q: QuantityId :: env.sizes(q) ==>
      env.table.absence(q) == Never && env.table.innerOf(q) == None && env.floors(q) == [])
    && (forall q: QuantityId, f: Floor :: f in env.floors(q) ==> env.sizes(f.size))
  }

  /** An opaque scalar is an external function's value. */
  ghost predicate IsOpaque(env: Env, q: QuantityId) {
    env.table.innerOf(q) == None && env.table.absence(q) == Soft && env.floors(q) == []
  }

  ghost predicate EnvValid(env: Env) {
    env.table.Valid() && SizesValid(env) && forall e | e in env.interned :: IsOpaque(env, env.opaqueOf(e))
  }

  /** Indexed properties come with their elements, and sizes are integers. */
  ghost predicate DataFit(env: Env, ev: Event) {
    && ValidEvent(env.table, ev) && SizesIntegral(env.sizes, View(env.table, ev))
    && forall q: QuantityId :: ev.has(q) ==> FloorsHold(env.floors(q), View(env.table, ev))
  }

  /** An opaque scalar has the value of the expression it stands for. */
  ghost predicate OpaqueFits(env: Env, ev: Event, e: Expr) {
    var q, n := env.opaqueOf(e), Eval(Reading(env.table, ev), e);
    (ev.has(q) <==> n.Val?) && (n.Val? ==> ev.value(q) == n.x)
  }

  ghost predicate EventFits(env: Env, ev: Event) {
    DataFit(env, ev) && forall e | e in env.interned :: OpaqueFits(env, ev, e)
  }

  /** The nonlinear subexpressions: what the encoder may intern as a scalar. */
  function Opaques(e: Expr): set<Expr> {
    (if Lin(e).NonLinear? then {e} else {}) +
    match e
    case Neg(a) => Opaques(a)
    case Abs(a) => Opaques(a)
    case Bin(_, l, r) => Opaques(l) + Opaques(r)
    case Extremum(_, args) => set a, x | a in args && x in Opaques(a) :: x
    case _ => {}
  }

  /** The table holds what compiling the expression asks for. */
  ghost predicate Tabled(env: Env, e: Expr) { PlainQuants(env, Quants(e)) && Opaques(e) <= env.interned }

  /** The over-projection holds when the fact does, and the under-projection holds
      only then. */
  ghost predicate Judges(f: Formula, v: Valuation, fact: bool) {
    (fact ==> Sat(f, OverSide, v)) && (Sat(f, UnderSide, v) ==> fact)
  }

  /** On an exact formula a judgement is an equivalence. */
  lemma ExactJudges(f: Formula, v: Valuation, fact: bool)
    requires IsExact(f)
    ensures Judges(f, v, fact) <==> (Sat(f, OverSide, v) <==> fact)
  {
    ExactProjectionsAgree(f);
  }

  lemma GuardJudges(env: Env, ev: Event, quants: set<QuantityId>, f: Formula, fact: bool)
    requires EnvValid(env) && ValidEvent(env.table, ev)
    requires fact ==> Known(ev, quants) && Sat(f, OverSide, View(env.table, ev))
    requires Sat(f, UnderSide, View(env.table, ev)) && (IsExact(f) ==> Known(ev, quants)) ==> fact
    ensures Judges(GuardPresence(env.table, quants, f), View(env.table, ev), fact)
  {
    GuardPresenceMeans(env.table, ev, quants, f, OverSide);
    GuardPresenceMeans(env.table, ev, quants, f, UnderSide);
  }

  lemma PairJudges(a: Formula, b: Formula, p: Polarity, v: Valuation)
    ensures Sat(FAnd([a, b]), p, v) <==> Sat(a, p, v) && Sat(b, p, v)
    ensures Sat(FOr([a, b]), p, v) <==> Sat(a, p, v) || Sat(b, p, v)
    ensures IsExact(a) && IsExact(b) ==> IsExact(FAnd([a, b])) && IsExact(FOr([a, b]))
  {
    hide FAnd, FOr, Project;
    var s := [a, b];
    assert s[0] == a && s[1] == b;
    FAndMeans(s, p, v);
    FOrMeans(s, p, v);
    if IsExact(a) && IsExact(b) {
      ExactParts(s);
      ExactAlternatives(s);
    }
  }

  lemma ExactAlternatives(parts: seq<Formula>)
    requires forall i :: 0 <= i < |parts| ==> IsExact(parts[i])
    ensures IsExact(FOr(parts))
  {
    forall x | x in OrParts(parts) ensures IsExact(x) {
      OrPartsMember(parts, x);
    }
  }

  // ----- forms -----

  /** A form stands for an expression: it has a value when what it mentions is
      present, and then it is the expression's. */
  ghost predicate Stands(f: LinExpr, e: Expr, env: Env, ev: Event) {
    var n := Eval(Reading(env.table, ev), e);
    && (n.Val? <==> Known(ev, f.mentioned))
    && (n.Val? ==> n.x == FormValue(f, View(env.table, ev)))
  }

  lemma PlainExtends(env: Env, ev: Event, qs: set<QuantityId>)
    requires PlainQuants(env, qs)
    ensures Extends(View(env.table, ev), Reading(env.table, ev), qs)
  {
  }

  lemma KnownReading(env: Env, ev: Event, qs: set<QuantityId>)
    ensures Known3(Reading(env.table, ev), qs) <==> Known(ev, qs)
  {
    if Known3(Reading(env.table, ev), qs) {
      forall q | q in qs ensures ev.has(q) { assert Reading(env.table, ev)(q).Val?; }
    }
  }

  /** Linear analysis on an event. */
  lemma LinStands(env: Env, ev: Event, e: Expr)
    requires PlainQuants(env, Quants(e))
    ensures match Lin(e)
      case Form(f) => Stands(f, e, env, ev)
      case NonFinite => !Eval(Reading(env.table, ev), e).Val?
      case NonLinear => true
  {
    hide Eval, Lin, FormValue, Quants;
    PlainExtends(env, ev, Quants(e));
    LinSound(e, Reading(env.table, ev), View(env.table, ev));
    match Lin(e)
    case Form(f) => KnownReading(env, ev, f.mentioned);
    case _ =>
  }

  lemma OpaqueStands(env: Env, ev: Event, e: Expr)
    requires EnvValid(env) && EventFits(env, ev) && e in env.interned
    ensures Stands(LinExpr([Term(1.0, env.opaqueOf(e))], 0.0, {env.opaqueOf(e)}), e, env, ev)
  {
    hide Eval, Dot, FormValue;
    var q, read := env.opaqueOf(e), Reading(env.table, ev);
    SingleFormValue(q, View(env.table, ev));
    assert IsOpaque(env, q) && OpaqueFits(env, ev, e);
    assert View(env.table, ev)(q) == ev.value(q);
  }

  lemma OrOpaqueStands(env: Env, ev: Event, e: Expr)
    requires EnvValid(env) && EventFits(env, ev) && Tabled(env, e)
    ensures match LinOrOpaque(env, e)
      case Form(f) => Stands(f, e, env, ev)
      case NonFinite => !Eval(Reading(env.table, ev), e).Val?
      case NonLinear => true
  {
    hide Eval, Lin, FormValue, Quants, Stands, EventFits, EnvValid;
    LinStands(env, ev, e);
    if Lin(e).NonLinear? { OpaqueStands(env, ev, e); }
  }

  /** Moving the constant across a relation. */
  lemma RelShift(rel: Rel, x: real, y: real)
    ensures RelEval(rel, x, y) <==> RelEval(rel, x - y, 0.0)
  {
  }

  /** A form's terms against the shifted constant is the form against the constant. */
  lemma FormAtom(env: Env, ev: Event, f: LinExpr, rel: Rel, c: real, p: Polarity)
    requires EventFits(env, ev)
    ensures var a := AtomOf(env.sizes, f.terms, rel, c - f.k);
      IsExact(a) && (Sat(a, p, View(env.table, ev)) <==> RelEval(rel, FormValue(f, View(env.table, ev)), c))
  {
    hide AtomOf, Project, Dot;
    AtomOfMeans(env.sizes, f.terms, rel, c - f.k, p, View(env.table, ev));
  }

  /** The form of an expression, guarded, against a constant. */
  lemma FormJudges(env: Env, ev: Event, f: LinExpr, e: Expr, rel: Rel, c: real)
    requires EnvValid(env) && EventFits(env, ev) && Stands(f, e, env, ev)
    ensures Judges(GuardPresence(env.table, f.mentioned, AtomOf(env.sizes, f.terms, rel, c - f.k)), View(env.table, ev),
      Compares(Reading(env.table, ev), e, rel, c))
  {
    hide AtomOf, Eval, FormValue, GuardPresence, EventFits, EnvValid, View;
    var a, fact := AtomOf(env.sizes, f.terms, rel, c - f.k), Compares(Reading(env.table, ev), e, rel, c);
    FormAtom(env, ev, f, rel, c, OverSide);
    FormAtom(env, ev, f, rel, c, UnderSide);
    FitsIsValid(env, ev);
    GuardJudges(env, ev, f.mentioned, a, fact);
  }

  lemma FitsIsValid(env: Env, ev: Event)
    requires EventFits(env, ev)
    ensures ValidEvent(env.table, ev)
  {
  }

  lemma OpaqueJudges(env: Env, ev: Event, e: Expr, rel: Rel, c: real)
    requires EnvValid(env) && EventFits(env, ev) && e in env.interned
    ensures Judges(OpaqueAtom(env, e, rel, c), View(env.table, ev), Compares(Reading(env.table, ev), e, rel, c))
  {
    hide AtomOf, Eval, FormValue, EventFits, EnvValid, Stands, GuardPresence, View;
    var q := env.opaqueOf(e);
    OpaqueStands(env, ev, e);
    FormJudges(env, ev, LinExpr([Term(1.0, q)], 0.0, {q}), e, rel, c);
    assert c - 0.0 == c;
  }

  // ----- ratios -----

  lemma ProductRel(rel: Rel, z: real, y: real)
    requires y != 0.0
    ensures RelEval(rel, z, 0.0) <==> RelEval(if y < 0.0 then RelFlipped(rel) else rel, Times(z, y), 0.0)
  {
    assert z > 0.0 && y > 0.0 ==> Times(z, y) > 0.0;
    assert z > 0.0 && y < 0.0 ==> Times(z, y) < 0.0;
    assert z < 0.0 && y > 0.0 ==> Times(z, y) < 0.0;
    assert z < 0.0 && y < 0.0 ==> Times(z, y) > 0.0;
    assert z == 0.0 ==> Times(z, y) == 0.0;
  }

  /** Clearing a denominator keeps the relation or flips it, by its sign. */
  lemma RatioRel(rel: Rel, x: real, y: real, c: real)
    requires y != 0.0
    ensures RelEval(rel, x / y, c) <==> RelEval(if y < 0.0 then RelFlipped(rel) else rel, x - Times(c, y), 0.0)
  {
    Undivided(x, y, c);
    RelShift(rel, x / y, c);
    ProductRel(rel, x / y - c, y);
  }

  lemma Undivided(x: real, y: real, c: real)
    requires y != 0.0
    ensures Times(x / y - c, y) == x - Times(c, y)
  {
    var z := x / y;
    assert z * y == x;
    assert (z - c) * y == z * y - c * y;
  }

  lemma RatioForm(env: Env, ev: Event, l: LinExpr, d: LinExpr, c: real)
    ensures var e := Minus(l, ScaledBy(d, c));
      FormValue(e, View(env.table, ev)) == FormValue(l, View(env.table, ev)) - Times(c, FormValue(d, View(env.table, ev)))
  {
    MinusValue(l, ScaledBy(d, c), View(env.table, ev));
    ScaledValue(d, c, View(env.table, ev));
  }

  lemma KnownUnion(ev: Event, a: set<QuantityId>, b: set<QuantityId>)
    ensures Known(ev, a + b) <==> Known(ev, a) && Known(ev, b)
  {
  }

  lemma RatioEval(read: QuantityId -> Num3, num: Expr, den: Expr)
    ensures var n, d := Eval(read, num), Eval(read, den);
      Eval(read, Bin(Div, num, den)) ==
        if n.NonValue? || d.NonValue? then NonValue
        else if n.Blocked? || d.Blocked? then Blocked
        else if d.x == 0.0 then NonValue else Val(n.x / d.x)
  {
  }

  /** A ratio whose denominator is a constant. */
  lemma ConstantRatioJudges(env: Env, ev: Event, num: Expr, den: Expr, l: LinExpr, d: LinExpr, rel: Rel, c: real)
    requires EnvValid(env) && EventFits(env, ev)
    requires Stands(l, num, env, ev) && Stands(d, den, env, ev) && d.terms == [] && d.mentioned == {} && d.k != 0.0
    ensures var e := Minus(l, ScaledBy(d, c));
      Judges(GuardPresence(env.table, l.mentioned + d.mentioned,
          AtomOf(env.sizes, e.terms, if d.k < 0.0 then RelFlipped(rel) else rel, -e.k)),
        View(env.table, ev), Compares(Reading(env.table, ev), Bin(Div, num, den), rel, c))
  {
    hide AtomOf, Eval, FormValue, GuardPresence, EventFits, EnvValid, View, Minus, ScaledBy;
    var e, v, r := Minus(l, ScaledBy(d, c)), View(env.table, ev), if d.k < 0.0 then RelFlipped(rel) else rel;
    RatioEval(Reading(env.table, ev), num, den);
    RatioForm(env, ev, l, d, c);
    FormConstant(d, v);
    assert 0.0 - e.k == -e.k;
    FormAtom(env, ev, e, r, 0.0, OverSide);
    FormAtom(env, ev, e, r, 0.0, UnderSide);
    RatioRel(rel, FormValue(l, v), d.k, c);
    FitsIsValid(env, ev);
    KnownUnion(ev, l.mentioned, d.mentioned);
    GuardJudges(env, ev, l.mentioned + d.mentioned, AtomOf(env.sizes, e.terms, r, -e.k),
      Compares(Reading(env.table, ev), Bin(Div, num, den), rel, c));
  }

  lemma FormConstant(d: LinExpr, v: Valuation)
    requires d.terms == []
    ensures FormValue(d, v) == d.k
  {
  }

  /** The two sign branches of a ratio, on a valuation. */
  lemma BranchesHold(env: Env, ev: Event, l: LinExpr, d: LinExpr, rel: Rel, c: real, p: Polarity)
    requires EventFits(env, ev)
    ensures var e, v := Minus(l, ScaledBy(d, c)), View(env.table, ev);
      var f := FOr([
        FAnd([AtomOf(env.sizes, d.terms, Gt, -d.k), AtomOf(env.sizes, e.terms, rel, -e.k)]),
        FAnd([AtomOf(env.sizes, d.terms, Lt, -d.k), AtomOf(env.sizes, e.terms, RelFlipped(rel), -e.k)])]);
      IsExact(f) && (Sat(f, p, v) <==>
        FormValue(d, v) != 0.0 && RelEval(rel, FormValue(l, v) / FormValue(d, v), c))
  {
    hide AtomOf, FormValue, EventFits, View, Minus, ScaledBy, FAnd, FOr, Project;
    var e, v := Minus(l, ScaledBy(d, c)), View(env.table, ev);
    var y := FormValue(d, v);
    RatioForm(env, ev, l, d, c);
    assert 0.0 - e.k == -e.k && 0.0 - d.k == -d.k;
    FormAtom(env, ev, d, Gt, 0.0, p);
    FormAtom(env, ev, d, Lt, 0.0, p);
    FormAtom(env, ev, e, rel, 0.0, p);
    FormAtom(env, ev, e, RelFlipped(rel), 0.0, p);
    if y != 0.0 { RatioRel(rel, FormValue(l, v), y, c); }
    var dPos, ePos := AtomOf(env.sizes, d.terms, Gt, -d.k), AtomOf(env.sizes, e.terms, rel, -e.k);
    var dNeg, eNeg := AtomOf(env.sizes, d.terms, Lt, -d.k), AtomOf(env.sizes, e.terms, RelFlipped(rel), -e.k);
    PairJudges(dPos, ePos, p, v);
    PairJudges(dNeg, eNeg, p, v);
    PairJudges(FAnd([dPos, ePos]), FAnd([dNeg, eNeg]), p, v);
  }

  lemma VaryingRatioJudges(env: Env, ev: Event, num: Expr, den: Expr, l: LinExpr, d: LinExpr, rel: Rel, c: real)
    requires EnvValid(env) && EventFits(env, ev) && Stands(l, num, env, ev) && Stands(d, den, env, ev)
    ensures var e := Minus(l, ScaledBy(d, c));
      Judges(GuardPresence(env.table, l.mentioned + d.mentioned, FOr([
        FAnd([AtomOf(env.sizes, d.terms, Gt, -d.k), AtomOf(env.sizes, e.terms, rel, -e.k)]),
        FAnd([AtomOf(env.sizes, d.terms, Lt, -d.k), AtomOf(env.sizes, e.terms, RelFlipped(rel), -e.k)])])),
        View(env.table, ev), Compares(Reading(env.table, ev), Bin(Div, num, den), rel, c))
  {
    hide AtomOf, Eval, FormValue, GuardPresence, EventFits, EnvValid, View, Minus, ScaledBy, FAnd, FOr, Project;
    var e := Minus(l, ScaledBy(d, c));
    RatioEval(Reading(env.table, ev), num, den);
    BranchesHold(env, ev, l, d, rel, c, OverSide);
    BranchesHold(env, ev, l, d, rel, c, UnderSide);
    FitsIsValid(env, ev);
    KnownUnion(ev, l.mentioned, d.mentioned);
    GuardJudges(env, ev, l.mentioned + d.mentioned, FOr([
        FAnd([AtomOf(env.sizes, d.terms, Gt, -d.k), AtomOf(env.sizes, e.terms, rel, -e.k)]),
        FAnd([AtomOf(env.sizes, d.terms, Lt, -d.k), AtomOf(env.sizes, e.terms, RelFlipped(rel), -e.k)])]),
      Compares(Reading(env.table, ev), Bin(Div, num, den), rel, c));
  }

  lemma UnknownJudges(d: nat, v: Valuation, fact: bool)
    ensures Judges(Unknown(d), v, fact)
  {
  }

  lemma FalseJudges(v: Valuation, fact: bool)
    requires !fact
    ensures Judges(False, v, fact)
  {
  }

  lemma ClosedLin(e: Expr)
    requires Lin(e).Form? && Lin(e).form.terms == []
    ensures Lin(e).form.mentioned == {}
  {
    LinClosed(e);
  }

  /** Clearing a ratio is exact, and false when the denominator is zero. */
  lemma RatioJudges(env: Env, ev: Event, num: Expr, den: Expr, rel: Rel, c: real)
    requires EnvValid(env) && EventFits(env, ev) && Tabled(env, num) && Tabled(env, den)
    ensures Judges(Ratio(env, num, den, rel, c), View(env.table, ev),
      Compares(Reading(env.table, ev), Bin(Div, num, den), rel, c))
  {
    hide AtomOf, Eval, Lin, FormValue, GuardPresence, EventFits, EnvValid, View, Minus, ScaledBy, FAnd, FOr, Project, Quants,
      Stands, Judges, Tabled;
    var read, v := Reading(env.table, ev), View(env.table, ev);
    OrOpaqueStands(env, ev, num);
    OrOpaqueStands(env, ev, den);
    RatioEval(read, num, den);
    UnknownJudges(0, v, Compares(read, Bin(Div, num, den), rel, c));
    match (LinOrOpaque(env, num), LinOrOpaque(env, den))
    case (Form(l), Form(d)) =>
      if d.terms != [] {
        VaryingRatioJudges(env, ev, num, den, l, d, rel, c);
      } else {
        ClosedLin(den);
        if d.k == 0.0 {
          ZeroDenominator(env, ev, den, d);
          FalseJudges(v, Compares(read, Bin(Div, num, den), rel, c));
        } else {
          ConstantRatioJudges(env, ev, num, den, l, d, rel, c);
        }
      }
    case (NonFinite, _) => FalseJudges(v, Compares(read, Bin(Div, num, den), rel, c));
    case (Form(_), NonFinite) => FalseJudges(v, Compares(read, Bin(Div, num, den), rel, c));
    case _ =>
  }

  lemma ZeroDenominator(env: Env, ev: Event, den: Expr, d: LinExpr)
    requires Stands(d, den, env, ev) && d.terms == [] && d.k == 0.0
    ensures var n := Eval(Reading(env.table, ev), den); n.Val? ==> n.x == 0.0
  {
    FormConstant(d, View(env.table, ev));
  }

  // ----- absolute values -----

  /** The expression has a value whenever all its data are present. */
  ghost predicate Steady(env: Env, ev: Event, e: Expr) {
    Known(ev, Quants(e)) ==> Eval(Reading(env.table, ev), e).Val?
  }

  lemma {:induction false} ValueNeedsQuants(read: QuantityId -> Num3, e: Expr)
    requires Eval(read, e).Val?
    ensures Known3(read, Quants(e))
    decreases e, 1
  {
    match e
    case Neg(a) => ValueNeedsQuants(read, a);
    case Abs(a) => ValueNeedsQuants(read, a);
    case Bin(_, l, r) => ValueNeedsQuants(read, l); ValueNeedsQuants(read, r);
    case Extremum(least, args) => ExtremumNeedsQuants(read, least, args);
    case _ =>
  }

  lemma {:induction false} ExtremumNeedsQuants(read: QuantityId -> Num3, least: bool, args: seq<Expr>)
    requires args != [] && EvalExtremum(read, least, args).Val?
    ensures forall a | a in args :: Known3(read, Quants(a))
    decreases args, 0
  {
    var n := |args| - 1;
    ValueNeedsQuants(read, args[n]);
    if n > 0 { ExtremumNeedsQuants(read, least, args[..n]); }
    assert forall a :: a in args ==> a == args[n] || a in args[..n];
  }

  lemma ValuesAreKnown(env: Env, ev: Event, e: Expr)
    requires Eval(Reading(env.table, ev), e).Val?
    ensures Known(ev, Quants(e))
  {
    ValueNeedsQuants(Reading(env.table, ev), e);
    KnownReading(env, ev, Quants(e));
  }

  lemma AbsRel(rel: Rel, x: real, c: real)
    requires c >= 0.0
    ensures RelEval(rel, AbsOf(x), c) <==>
      match rel
      case Lt => x < c && x > -c
      case Le => x <= c && x >= -c
      case Gt => x > c || x < -c
      case Ge => x >= c || x <= -c
      case Eq => x == c || x == -c
      case Ne => x != c && x != -c
  {
  }

  lemma ExpansionHolds(env: Env, ev: Event, f: LinExpr, rel: Rel, c: real, p: Polarity)
    requires EventFits(env, ev) && c >= 0.0
    ensures Sat(AbsExpansion(env, f, rel, c), p, View(env.table, ev)) <==>
      RelEval(rel, AbsOf(FormValue(f, View(env.table, ev))), c)
    ensures IsExact(AbsExpansion(env, f, rel, c))
  {
    hide AtomOf, EventFits, View, Project, FAnd, FOr, FormValue, AbsOf;
    var v := View(env.table, ev);
    var x, upper, lower := FormValue(f, v), rel, match rel
      case Lt => Gt
      case Le => Ge
      case Gt => Lt
      case Ge => Le
      case Eq => Eq
      case Ne => Ne;
    AbsRel(rel, x, c);
    FormAtom(env, ev, f, upper, c, p);
    FormAtom(env, ev, f, lower, -c, p);
    PairJudges(AtomOf(env.sizes, f.terms, upper, c - f.k), AtomOf(env.sizes, f.terms, lower, -c - f.k), p, v);
  }

  lemma AbsEval(read: QuantityId -> Num3, e: Expr, rel: Rel, c: real)
    ensures Compares(read, Abs(e), rel, c) <==> Eval(read, e).Val? && RelEval(rel, AbsOf(Eval(read, e).x), c)
  {
  }

  lemma AbsFormJudges(env: Env, ev: Event, e: Expr, f: LinExpr, rel: Rel, c: real)
    requires EnvValid(env) && EventFits(env, ev) && Stands(f, e, env, ev) && c >= 0.0
    ensures Judges(GuardPresence(env.table, f.mentioned, AbsExpansion(env, f, rel, c)), View(env.table, ev),
      Compares(Reading(env.table, ev), Abs(e), rel, c))
  {
    hide Eval, EventFits, EnvValid, View, Project, FormValue, AbsExpansion, GuardPresence, AbsOf;
    AbsEval(Reading(env.table, ev), e, rel, c);
    ExpansionHolds(env, ev, f, rel, c, OverSide);
    ExpansionHolds(env, ev, f, rel, c, UnderSide);
    FitsIsValid(env, ev);
    GuardJudges(env, ev, f.mentioned, AbsExpansion(env, f, rel, c), Compares(Reading(env.table, ev), Abs(e), rel, c));
  }

  predicate NeverBelow(rel: Rel) { rel == Lt || rel == Le || rel == Eq }

  lemma AbsNegative(rel: Rel, x: real, c: real)
    requires c < 0.0
    ensures RelEval(rel, AbsOf(x), c) <==> !NeverBelow(rel)
  {
  }

  /** Against a negative bound only the presence of the data is left, and that is
      the comparison if and only if present data give the operand a value. */
  lemma NegativeBoundExact(env: Env, ev: Event, inner: Expr, rel: Rel, c: real)
    requires EnvValid(env) && EventFits(env, ev) && c < 0.0
    ensures Judges(AbsCompare(env, inner, rel, c), View(env.table, ev), Compares(Reading(env.table, ev), Abs(inner), rel, c))
      <==> NeverBelow(rel) || Steady(env, ev, inner)
  {
    hide Eval, EventFits, EnvValid, Quants, AbsOf, GuardPresence, View;
    var read, v, folded := Reading(env.table, ev), View(env.table, ev), if NeverBelow(rel) then False else True;
    AbsEval(read, inner, rel, c);
    if Eval(read, inner).Val? {
      AbsNegative(rel, Eval(read, inner).x, c);
      ValuesAreKnown(env, ev, inner);
    }
    FitsIsValid(env, ev);
    EnvTable(env);
    ConstHolds(v);
    GuardPresenceMeans(env.table, ev, Quants(inner), folded, OverSide);
    GuardPresenceMeans(env.table, ev, Quants(inner), folded, UnderSide);
  }

  lemma EnvTable(env: Env)
    requires EnvValid(env)
    ensures env.table.Valid()
  {
  }

  lemma ConstHolds(v: Valuation)
    ensures forall p: Polarity :: Sat(True, p, v) && !Sat(False, p, v)
    ensures IsExact(True) && IsExact(False)
  {
  }

  lemma AbsNeeds(env: Env, inner: Expr)
    requires Tabled(env, Abs(inner))
    ensures PlainQuants(env, Quants(inner)) && (Lin(inner).NonLinear? ==> Abs(inner) in env.interned)
  {
  }

  lemma AbsJudges(env: Env, ev: Event, inner: Expr, rel: Rel, c: real)
    requires EnvValid(env) && EventFits(env, ev) && Tabled(env, Abs(inner)) && Steady(env, ev, inner)
    ensures Judges(AbsCompare(env, inner, rel, c), View(env.table, ev), Compares(Reading(env.table, ev), Abs(inner), rel, c))
  {
    hide Eval, EventFits, EnvValid, Quants, AbsOf, GuardPresence, View, Lin, AbsExpansion, OpaqueAtom, Stands, Judges;
    if c < 0.0 {
      NegativeBoundExact(env, ev, inner, rel, c);
    } else {
      AbsNeeds(env, inner);
      LinStands(env, ev, inner);
      AbsEval(Reading(env.table, ev), inner, rel, c);
      match Lin(inner)
      case Form(f) => AbsFormJudges(env, ev, inner, f, rel, c);
      case NonFinite => FalseJudges(View(env.table, ev), Compares(Reading(env.table, ev), Abs(inner), rel, c));
      case NonLinear => OpaqueJudges(env, ev, Abs(inner), rel, c);
    }
  }

  // ----- min and max -----

  ghost predicate AllValued(read: QuantityId -> Num3, args: seq<Expr>) { forall a | a in args :: Eval(read, a).Val? }

  ghost predicate SomeCompares(read: QuantityId -> Num3, args: seq<Expr>, rel: Rel, c: real) {
    exists i :: 0 <= i < |args| && Compares(read, args[i], rel, c)
  }

  ghost predicate AllCompare(read: QuantityId -> Num3, args: seq<Expr>, rel: Rel, c: real) {
    forall i :: 0 <= i < |args| ==> Compares(read, args[i], rel, c)
  }

  lemma BetterRel(least: bool, x: real, y: real, rel: Rel, c: real)
    ensures SomeDecides(least, rel) ==> (RelEval(rel, Better(least, x, y), c) <==> RelEval(rel, x, c) || RelEval(rel, y, c))
    ensures EachComplies(least, rel) ==> (RelEval(rel, Better(least, x, y), c) <==> RelEval(rel, x, c) && RelEval(rel, y, c))
  {
  }

  /** A minimum or maximum has a value when every argument has one, and compares
      as its deciding argument does. */
  lemma {:induction false} ExtremumMeans(read: QuantityId -> Num3, least: bool, args: seq<Expr>, rel: Rel, c: real)
    requires args != []
    ensures EvalExtremum(read, least, args).Val? <==> AllValued(read, args)
    ensures AllValued(read, args) && SomeDecides(least, rel) ==>
      (RelEval(rel, EvalExtremum(read, least, args).x, c) <==> SomeCompares(read, args, rel, c))
    ensures AllValued(read, args) && EachComplies(least, rel) ==>
      (RelEval(rel, EvalExtremum(read, least, args).x, c) <==> AllCompare(read, args, rel, c))
    decreases |args|
  {
    hide Eval, Better, RelEval;
    var n := |args| - 1;
    var init, last := args[..n], args[n];
    assert forall a :: a in args <==> a == last || a in init;
    if n > 0 {
      ExtremumMeans(read, least, init, rel, c);
      assert AllValued(read, args) <==> AllValued(read, init) && Eval(read, last).Val?;
      if AllValued(read, args) {
        BetterRel(least, EvalExtremum(read, least, init).x, Eval(read, last).x, rel, c);
        assert SomeCompares(read, args, rel, c) <==> SomeCompares(read, init, rel, c) || Compares(read, last, rel, c);
        assert AllCompare(read, args, rel, c) <==> AllCompare(read, init, rel, c) && Compares(read, last, rel, c);
      }
    } else {
      assert AllValued(read, args) <==> Eval(read, last).Val?;
    }
  }

  ghost predicate AllExact(parts: seq<Formula>) { forall i :: 0 <= i < |parts| ==> IsExact(parts[i]) }

  lemma {:induction false} MarksMean(parts: seq<Formula>)
    ensures forall i :: 0 <= i < |OpaqueMarks(parts)| ==> OpaqueMarks(parts)[i] == Unknown(0)
    ensures OpaqueMarks(parts) == [] <==> AllExact(parts)
  {
    if parts != [] {
      var n := |parts| - 1;
      MarksMean(parts[..n]);
      assert AllExact(parts) <==> AllExact(parts[..n]) && IsExact(parts[n]);
    }
  }

  lemma FloorAtomsHold(floors: seq<Floor>, p: Polarity, v: Valuation)
    ensures AllSat(FloorAtoms(floors), p, v) <==> FloorsHold(floors, v)
    ensures AllExact(FloorAtoms(floors))
  {
    var fs := FloorAtoms(floors);
    forall i | 0 <= i < |floors| ensures Sat(fs[i], p, v) <==> AtomHolds(floors[i].AsAtom(), v) {
    }
    if FloorsHold(floors, v) {
      forall i | 0 <= i < |fs| ensures Sat(fs[i], p, v) { assert AtomHolds(floors[i].AsAtom(), v); }
    }
    if AllSat(fs, p, v) {
      forall i | 0 <= i < |floors| ensures AtomHolds(floors[i].AsAtom(), v) { assert Sat(fs[i], p, v); }
    }
  }

  /** The conjunction under an extremum's guard. */
  lemma ConjunctionMeans(floors: seq<Floor>, parts: seq<Formula>, combined: Formula, p: Polarity, v: Valuation)
    requires AllExact(parts) ==> IsExact(combined)
    ensures var f := FAnd(FloorAtoms(floors) + OpaqueMarks(parts) + [combined]);
      && (Sat(f, p, v) <==> FloorsHold(floors, v) && (p == UnderSide ==> AllExact(parts)) && Sat(combined, p, v))
      && (AllExact(parts) ==> IsExact(f))
  {
    hide FAnd, FloorsHold, FloorAtoms, OpaqueMarks;
    var a, b := FloorAtoms(floors), OpaqueMarks(parts);
    var all := a + b + [combined];
    FAndMeans(all, p, v);
    FloorAtomsHold(floors, p, v);
    MarksMean(parts);
    AllSatConcat(a + b, [combined], p, v);
    AllSatConcat(a, b, p, v);
    assert AllSat([combined], p, v) <==> Sat(combined, p, v) by { assert [combined][0] == combined; }
    UnknownSat(0, v);
    if p == UnderSide && !AllExact(parts) { assert !Sat(b[0], p, v); }
    if AllExact(parts) { ExactParts(all); }
  }

  lemma UnknownSat(d: nat, v: Valuation)
    ensures Sat(Unknown(d), OverSide, v) && !Sat(Unknown(d), UnderSide, v)
  {
  }

  function AllQuants(args: seq<Expr>): set<QuantityId> { set a, q | a in args && q in Quants(a) :: q }

  /** With every datum present, an argument that decides leaves no other argument
      without a value. */
  ghost predicate Complete(env: Env, ev: Event, args: seq<Expr>, rel: Rel, c: real) {
    var read := Reading(env.table, ev);
    Known(ev, AllQuants(args)) && SomeCompares(read, args, rel, c) ==> AllValued(read, args)
  }

  ghost predicate EachJudges(env: Env, ev: Event, args: seq<Expr>, rel: Rel, c: real, parts: seq<Formula>) {
    |parts| == |args| && forall i :: 0 <= i < |args| ==>
      Judges(parts[i], View(env.table, ev), Compares(Reading(env.table, ev), args[i], rel, c))
  }

  lemma ExtremumEval(read: QuantityId -> Num3, least: bool, args: seq<Expr>, rel: Rel, c: real)
    requires args != []
    ensures Compares(read, Extremum(least, args), rel, c) <==>
      EvalExtremum(read, least, args).Val? && RelEval(rel, EvalExtremum(read, least, args).x, c)
  {
  }

  lemma ExactQuantsKnown(env: Env, ev: Event, args: seq<Expr>, parts: seq<Formula>)
    requires |parts| == |args|
    ensures AllValued(Reading(env.table, ev), args) ==> Known(ev, ExactQuants(args, parts))
    ensures AllExact(parts) ==> ExactQuants(args, parts) == AllQuants(args)
  {
    hide Eval, IsExact, Quants;
    if AllValued(Reading(env.table, ev), args) {
      forall i | 0 <= i < |args| ensures Known(ev, Quants(args[i])) {
        assert args[i] in args;
        ValuesAreKnown(env, ev, args[i]);
      }
    }
    if AllExact(parts) {
      forall a, q | a in args && q in Quants(a) ensures q in ExactQuants(args, parts) {
        var i :| 0 <= i < |args| && args[i] == a;
      }
      forall q | q in ExactQuants(args, parts) ensures q in AllQuants(args) {
        var i :| 0 <= i < |args| && IsExact(parts[i]) && q in Quants(args[i]);
        assert args[i] in args;
      }
    }
  }

  lemma CombinedHolds(env: Env, ev: Event, least: bool, args: seq<Expr>, rel: Rel, c: real, parts: seq<Formula>)
    requires EachJudges(env, ev, args, rel, c, parts)
    ensures var combined, read := if SomeDecides(least, rel) then FOr(parts) else FAnd(parts), Reading(env.table, ev);
      && (SomeDecides(least, rel) ==> Judges(combined, View(env.table, ev), SomeCompares(read, args, rel, c)))
      && (!SomeDecides(least, rel) ==> Judges(combined, View(env.table, ev), AllCompare(read, args, rel, c)))
      && (AllExact(parts) ==> IsExact(combined))
  {
    hide FAnd, FOr, Project, Compares, View;
    var v := View(env.table, ev);
    FOrMeans(parts, OverSide, v);
    FOrMeans(parts, UnderSide, v);
    FAndMeans(parts, OverSide, v);
    FAndMeans(parts, UnderSide, v);
    if AllExact(parts) {
      ExactParts(parts);
      ExactAlternatives(parts);
    }
  }

  lemma FloorMeans(floor: Floor, v: Valuation)
    ensures AtomHolds(floor.AsAtom(), v) <==> v(floor.size) > floor.bound as real
  {
    SingleIsMake(floor.size, Gt, floor.bound as real);
  }

  /** One guard for each collection says all that the indexed properties need:
      that the collection is longer than every index into it. */
  lemma FloorsExactly(env: Env, qs: set<QuantityId>, v: Valuation)
    ensures FloorsHold(FloorsOf(env, qs), v) <==>
      forall q, f | q in qs && f in env.floors(q) :: v(f.size) > f.bound as real
  {
    hide Greatest, Ascending;
    var floors := FloorsOf(env, qs);
    if FloorsHold(floors, v) {
      forall q, f | q in qs && f in env.floors(q) ensures v(f.size) > f.bound as real {
        var i := FloorCovers(env, qs, q, f);
        FloorMeans(floors[i], v);
      }
    }
    if forall q, f | q in qs && f in env.floors(q) :: v(f.size) > f.bound as real {
      forall i | 0 <= i < |floors| ensures AtomHolds(floors[i].AsAtom(), v) {
        FloorsOfMember(env, qs, i);
        FloorMeans(floors[i], v);
      }
    }
  }

  lemma FloorCovers(env: Env, qs: set<QuantityId>, q: QuantityId, f: Floor) returns (i: nat)
    requires q in qs && f in env.floors(q)
    ensures i < |FloorsOf(env, qs)| && FloorsOf(env, qs)[i].size == f.size && FloorsOf(env, qs)[i].bound >= f.bound
  {
    hide Greatest, Ascending;
    var needs := set q, f | q in qs && f in env.floors(q) :: f;
    var sizes := Ascending(set f | f in needs :: f.size);
    assert f in needs && f.size in sizes;
    i :| 0 <= i < |sizes| && sizes[i] == f.size;
    var bounds := set g | g in needs && g.size == sizes[i] :: g.bound;
    assert f.bound in bounds;
    assert IsGreatest(bounds, Greatest(bounds));
    assert FloorsOf(env, qs)[i] == Floor(sizes[i], Greatest(bounds));
  }

  lemma FitsFloors(env: Env, ev: Event, qs: set<QuantityId>)
    requires EventFits(env, ev)
    ensures Known(ev, qs) ==> FloorsHold(FloorsOf(env, qs), View(env.table, ev))
  {
    hide FloorsOf, View;
    var floors := FloorsOf(env, qs);
    forall i | 0 <= i < |floors| && Known(ev, qs) ensures AtomHolds(floors[i].AsAtom(), View(env.table, ev)) {
      FloorsOfMember(env, qs, i);
      var q :| q in qs && floors[i] in env.floors(q);
      var j :| 0 <= j < |env.floors(q)| && env.floors(q)[j] == floors[i];
      assert FloorsHold(env.floors(q), View(env.table, ev));
    }
  }

  lemma ExtremumJudges(env: Env, ev: Event, least: bool, args: seq<Expr>, rel: Rel, c: real, parts: seq<Formula>)
    requires EnvValid(env) && EventFits(env, ev) && args != []
    requires SomeDecides(least, rel) || EachComplies(least, rel)
    requires |parts| == |args| && EachJudges(env, ev, args, rel, c, parts)
    requires SomeDecides(least, rel) ==> Complete(env, ev, args, rel, c)
    ensures Judges(ExtremumCompare(env, least, args, rel, parts), View(env.table, ev),
      Compares(Reading(env.table, ev), Extremum(least, args), rel, c))
  {
    hide FAnd, FOr, Project, Compares, View, EventFits, EnvValid, EvalExtremum, EachJudges, FloorAtoms, OpaqueMarks, ExactQuants,
      GuardPresence, SomeCompares, AllCompare, FloorsHold, RelEval, IsExact, AllValued;
    var v, read, present := View(env.table, ev), Reading(env.table, ev), ExactQuants(args, parts);
    var combined := if SomeDecides(least, rel) then FOr(parts) else FAnd(parts);
    ExtremumEval(read, least, args, rel, c);
    ExtremumMeans(read, least, args, rel, c);
    CombinedHolds(env, ev, least, args, rel, c, parts);
    ExactQuantsKnown(env, ev, args, parts);
    FitsFloors(env, ev, present);
    FitsIsValid(env, ev);
    ConjunctionMeans(FloorsOf(env, present), parts, combined, OverSide, v);
    ConjunctionMeans(FloorsOf(env, present), parts, combined, UnderSide, v);
    if AllCompare(read, args, rel, c) { ComparesValued(read, args, rel, c); }
    GuardJudges(env, ev, present, FAnd(FloorAtoms(FloorsOf(env, present)) + OpaqueMarks(parts) + [combined]),
      Compares(read, Extremum(least, args), rel, c));
  }

  lemma ComparesValued(read: QuantityId -> Num3, args: seq<Expr>, rel: Rel, c: real)
    requires AllCompare(read, args, rel, c)
    ensures AllValued(read, args)
  {
    forall a | a in args ensures Eval(read, a).Val? {
      var i :| 0 <= i < |args| && args[i] == a;
      assert Compares(read, args[i], rel, c);
    }
  }

  /** When some argument decides, the encoding is right on an event if and only if
      no decided argument hides one without a value behind present data. */
  lemma ExtremumExact(env: Env, ev: Event, least: bool, args: seq<Expr>, rel: Rel, c: real, parts: seq<Formula>)
    requires EnvValid(env) && EventFits(env, ev) && args != [] && SomeDecides(least, rel)
    requires |parts| == |args| && EachJudges(env, ev, args, rel, c, parts) && AllExact(parts)
    ensures Judges(ExtremumCompare(env, least, args, rel, parts), View(env.table, ev),
        Compares(Reading(env.table, ev), Extremum(least, args), rel, c))
      <==> Complete(env, ev, args, rel, c)
  {
    hide FAnd, FOr, Project, Compares, View, EventFits, EnvValid, EvalExtremum, EachJudges, FloorAtoms, OpaqueMarks, ExactQuants,
      GuardPresence, SomeCompares, AllCompare, FloorsHold, RelEval, IsExact, AllValued;
    if Complete(env, ev, args, rel, c) {
      ExtremumJudges(env, ev, least, args, rel, c, parts);
    } else {
      var v, read, present := View(env.table, ev), Reading(env.table, ev), ExactQuants(args, parts);
      var f := FAnd(FloorAtoms(FloorsOf(env, present)) + OpaqueMarks(parts) + [FOr(parts)]);
      ExtremumEval(read, least, args, rel, c);
      ExtremumMeans(read, least, args, rel, c);
      CombinedHolds(env, ev, least, args, rel, c, parts);
      ExactJudges(FOr(parts), v, SomeCompares(read, args, rel, c));
      ExactProjectionsAgree(FOr(parts));
      ExactQuantsKnown(env, ev, args, parts);
      FitsFloors(env, ev, present);
      FitsIsValid(env, ev);
      EnvTable(env);
      ConjunctionMeans(FloorsOf(env, present), parts, FOr(parts), UnderSide, v);
      GuardPresenceMeans(env.table, ev, present, f, UnderSide);
    }
  }

  // ----- every comparison -----

  /** Operands of absolute values and arguments of `min` and `max` have values
      whenever their data are present. */
  ghost predicate Regular(env: Env, ev: Event, e: Expr) {
    match e
    case Abs(a) => Steady(env, ev, a)
    case Extremum(_, args) => forall a | a in args :: Steady(env, ev, a) && Regular(env, ev, a)
    case _ => true
  }

  lemma SteadyComplete(env: Env, ev: Event, args: seq<Expr>, rel: Rel, c: real)
    requires forall a | a in args :: Steady(env, ev, a)
    ensures Complete(env, ev, args, rel, c)
  {
    hide Eval, Quants, Compares;
    if Known(ev, AllQuants(args)) {
      forall a | a in args ensures Eval(Reading(env.table, ev), a).Val? {
        assert Quants(a) <= AllQuants(args);
      }
    }
  }

  lemma ArgQuants(env: Env, least: bool, args: seq<Expr>, a: Expr)
    requires a in args && Tabled(env, Extremum(least, args))
    ensures Tabled(env, a)
  {
  }

  lemma OperandQuants(env: Env, e: Expr)
    requires Tabled(env, e)
    ensures PlainQuants(env, Quants(e)) && (Lin(e).NonLinear? ==> e in env.interned)
    ensures e.Bin? ==> Tabled(env, e.l) && Tabled(env, e.r)
  {
  }

  lemma NonLinearArguments(e: Expr)
    requires Lin(e) == NonLinear && e.Extremum?
    ensures e.args != []
  {
  }

  /** A nonlinear shape against a constant. */
  lemma {:induction false} PatternJudges(env: Env, ev: Event, e: Expr, rel: Rel, c: real)
    requires EnvValid(env) && EventFits(env, ev) && Tabled(env, e) && Regular(env, ev, e) && Lin(e).NonLinear?
    ensures Judges(Pattern(env, e, rel, c), View(env.table, ev), Compares(Reading(env.table, ev), e, rel, c))
    decreases e, 0
  {
    hide Eval, Quants, Compares, EventFits, EnvValid, View, Lin, Ratio, AbsCompare, OpaqueAtom, ExtremumCompare, Judges, Steady,
      Tabled;
    OperandQuants(env, e);
    if e.Extremum? { NonLinearArguments(e); }
    match e
    case Abs(a) => AbsJudges(env, ev, a, rel, c);
    case Extremum(least, args) =>
      if SomeDecides(least, rel) || EachComplies(least, rel) {
        var parts := seq(|args|, i requires 0 <= i < |args| => ArgCompare(env, args[i], rel, c));
        forall i | 0 <= i < |args|
          ensures Judges(parts[i], View(env.table, ev), Compares(Reading(env.table, ev), args[i], rel, c))
        {
          ArgQuants(env, least, args, args[i]);
          ArgJudges(env, ev, args[i], rel, c);
        }
        SteadyComplete(env, ev, args, rel, c);
        ExtremumJudges(env, ev, least, args, rel, c, parts);
      } else {
        UnknownJudges(0, View(env.table, ev), Compares(Reading(env.table, ev), e, rel, c));
      }
    case Bin(op, l, r) =>
      if op == Div { RatioJudges(env, ev, l, r, rel, c); } else { OpaqueJudges(env, ev, e, rel, c); }
    case _ => OpaqueJudges(env, ev, e, rel, c);
  }

  /** Any expression against a constant. */
  lemma {:induction false} ArgJudges(env: Env, ev: Event, e: Expr, rel: Rel, c: real)
    requires EnvValid(env) && EventFits(env, ev) && Tabled(env, e) && Regular(env, ev, e)
    ensures Judges(ArgCompare(env, e, rel, c), View(env.table, ev), Compares(Reading(env.table, ev), e, rel, c))
    decreases e, 1
  {
    hide Eval, Quants, EventFits, EnvValid, View, Lin, Judges, Stands, Pattern, Regular, GuardPresence, AtomOf, Tabled;
    OperandQuants(env, e);
    LinStands(env, ev, e);
    match Lin(e)
    case Form(f) => FormJudges(env, ev, f, e, rel, c);
    case NonFinite => FalseJudges(View(env.table, ev), Compares(Reading(env.table, ev), e, rel, c));
    case NonLinear => PatternJudges(env, ev, e, rel, c);
  }

  /** Two forms against each other. */
  lemma FormsJudge(env: Env, ev: Event, rel: Rel, l: Expr, r: Expr, a: LinExpr, b: LinExpr)
    requires EnvValid(env) && EventFits(env, ev) && Stands(a, l, env, ev) && Stands(b, r, env, ev)
    ensures var d := Minus(a, b);
      Judges(GuardPresence(env.table, d.mentioned, AtomOf(env.sizes, d.terms, rel, -d.k)), View(env.table, ev),
        CompareTruth(Reading(env.table, ev), rel, l, r) == T)
  {
    hide Eval, EventFits, EnvValid, View, GuardPresence, AtomOf, FormValue, Merge, Scale;
    var d, v := Minus(a, b), View(env.table, ev);
    MinusValue(a, b, v);
    assert 0.0 - d.k == -d.k;
    FormAtom(env, ev, d, rel, 0.0, OverSide);
    FormAtom(env, ev, d, rel, 0.0, UnderSide);
    RelShift(rel, FormValue(a, v), FormValue(b, v));
    FitsIsValid(env, ev);
    KnownUnion(ev, a.mentioned, b.mentioned);
    GuardJudges(env, ev, d.mentioned, AtomOf(env.sizes, d.terms, rel, -d.k), CompareTruth(Reading(env.table, ev), rel, l, r) == T);
  }

  lemma ConstantSide(env: Env, ev: Event, e: Expr)
    requires PlainQuants(env, Quants(e)) && Lin(e).Form? && Lin(e).form.terms == []
    ensures Eval(Reading(env.table, ev), e) == Val(Lin(e).form.k)
  {
    hide Eval, Lin, Quants;
    LinStands(env, ev, e);
    ClosedLin(e);
    FormConstant(Lin(e).form, View(env.table, ev));
  }

  lemma FlippedRel(rel: Rel, x: real, y: real)
    ensures RelEval(rel, x, y) <==> RelEval(RelFlipped(rel), y, x)
  {
  }

  /** A compiled comparison brackets the interpreter's verdict on every event on
      which its operands are regular: linear, cleared, expanded or opaque. */
  lemma CompareJudges(env: Env, ev: Event, rel: Rel, l: Expr, r: Expr)
    requires EnvValid(env) && EventFits(env, ev) && Tabled(env, l) && Tabled(env, r)
    requires Regular(env, ev, l) && Regular(env, ev, r)
    ensures Judges(Compare(env, rel, l, r), View(env.table, ev), CompareTruth(Reading(env.table, ev), rel, l, r) == T)
  {
    hide Eval, Quants, EventFits, EnvValid, View, Lin, Judges, Stands, Pattern, Regular, GuardPresence, AtomOf, RelEval, Minus,
      Tabled;
    OperandQuants(env, l);
    OperandQuants(env, r);
    var read, v := Reading(env.table, ev), View(env.table, ev);
    LinStands(env, ev, l);
    LinStands(env, ev, r);
    UnknownJudges(0, v, CompareTruth(read, rel, l, r) == T);
    match (Lin(l), Lin(r))
    case (Form(a), Form(b)) => FormsJudge(env, ev, rel, l, r, a, b);
    case (NonFinite, _) => FalseJudges(v, CompareTruth(read, rel, l, r) == T);
    case (_, NonFinite) => FalseJudges(v, CompareTruth(read, rel, l, r) == T);
    case (NonLinear, Form(b)) =>
      if b.terms == [] {
        ConstantSide(env, ev, r);
        PatternJudges(env, ev, l, rel, b.k);
      }
    case (Form(a), NonLinear) =>
      if a.terms == [] {
        ConstantSide(env, ev, l);
        if Eval(read, r).Val? { FlippedRel(rel, a.k, Eval(read, r).x); }
        PatternJudges(env, ev, r, RelFlipped(rel), a.k);
      }
    case (NonLinear, NonLinear) =>
  }

  lemma BandFormJudges(env: Env, ev: Event, inside: bool, e: Expr, f: LinExpr, lo: real, hi: real)
    requires EnvValid(env) && EventFits(env, ev) && Stands(f, e, env, ev)
    ensures var parts := [
        AtomOf(env.sizes, f.terms, if inside then Ge else Le, lo - f.k),
        AtomOf(env.sizes, f.terms, if inside then Le else Ge, hi - f.k)];
      Judges(GuardPresence(env.table, f.mentioned, if inside then FAnd(parts) else FOr(parts)), View(env.table, ev),
        BandTruth(Reading(env.table, ev), inside, e, lo, hi) == T)
  {
    hide Eval, EventFits, EnvValid, View, GuardPresence, AtomOf, FormValue, FAnd, FOr, Project;
    var v := View(env.table, ev);
    var a := AtomOf(env.sizes, f.terms, if inside then Ge else Le, lo - f.k);
    var b := AtomOf(env.sizes, f.terms, if inside then Le else Ge, hi - f.k);
    FormAtom(env, ev, f, if inside then Ge else Le, lo, OverSide);
    FormAtom(env, ev, f, if inside then Ge else Le, lo, UnderSide);
    FormAtom(env, ev, f, if inside then Le else Ge, hi, OverSide);
    FormAtom(env, ev, f, if inside then Le else Ge, hi, UnderSide);
    PairJudges(a, b, OverSide, v);
    PairJudges(a, b, UnderSide, v);
    FitsIsValid(env, ev);
    GuardJudges(env, ev, f.mentioned, if inside then FAnd([a, b]) else FOr([a, b]),
      BandTruth(Reading(env.table, ev), inside, e, lo, hi) == T);
  }

  /** So does a compiled band. */
  lemma BandJudges(env: Env, ev: Event, inside: bool, e: Expr, lo: real, hi: real)
    requires EnvValid(env) && EventFits(env, ev) && Tabled(env, e) && Regular(env, ev, e)
    ensures Judges(Band(env, inside, e, lo, hi), View(env.table, ev), BandTruth(Reading(env.table, ev), inside, e, lo, hi) == T)
  {
    hide Eval, Quants, EventFits, EnvValid, View, Lin, Stands, Pattern, Regular, GuardPresence, AtomOf, FAnd, FOr, Project;
    var read, v, fact := Reading(env.table, ev), View(env.table, ev), BandTruth(Reading(env.table, ev), inside, e, lo, hi) == T;
    OperandQuants(env, e);
    LinStands(env, ev, e);
    match Lin(e)
    case Form(f) => BandFormJudges(env, ev, inside, e, f, lo, hi);
    case NonFinite => FalseJudges(v, fact);
    case NonLinear =>
      var r, s := if inside then Ge else Le, if inside then Le else Ge;
      var a, b := Pattern(env, e, r, lo), Pattern(env, e, s, hi);
      PatternJudges(env, ev, e, r, lo);
      PatternJudges(env, ev, e, s, hi);
      PairJudges(a, b, OverSide, v);
      PairJudges(a, b, UnderSide, v);
      FitsIsValid(env, ev);
      if Eval(read, e).Val? { ValuesAreKnown(env, ev, e); }
      GuardJudges(env, ev, Quants(e), if inside then FAnd([a, b]) else FOr([a, b]), fact);
  }

  // ----- where a linear form lacks a value -----

  function Completed(read: QuantityId -> Num3): Valuation { (q: QuantityId) => if read(q).Val? then read(q).x else 0.0 }

  lemma LinConstant(read: QuantityId -> Num3, e: Expr)
    requires Lin(e).Form? && Lin(e).form.terms == []
    ensures Eval(read, e) == Val(Lin(e).form.k)
  {
    hide Eval, Lin;
    LinSound(e, read, Completed(read));
    ClosedLin(e);
    FormConstant(Lin(e).form, Completed(read));
  }

  ghost predicate SomeNonValue(read: QuantityId -> Num3, qs: set<QuantityId>) { exists q | q in qs :: read(q).NonValue? }

  /** In a linear form a non-value can only come from a soft quantity. */
  lemma {:induction false} LinNonValue(read: QuantityId -> Num3, e: Expr)
    requires Lin(e).Form?
    ensures Eval(read, e).NonValue? <==> SomeNonValue(read, Lin(e).form.mentioned)
  {
    hide FormValue, Merge, Scale;
    if IsConstTree(e) {
      ConstEval(read, e);
    } else {
      match e
      case Quant(q) =>
      case Neg(a) => LinNonValue(read, a);
      case Bin(op, l, r) =>
        LinNonValue(read, l);
        LinNonValue(read, r);
        if op == Div {
          LinConstant(read, r);
          ClosedLin(r);
        } else if op == Mul {
          if Lin(l).form.terms == [] { ClosedLin(l); } else { ClosedLin(r); }
        }
    }
  }

  lemma MissingReads(env: Env, ev: Event, qs: set<QuantityId>)
    ensures Missing(env.table, ev, qs, Soft) <==> SomeNonValue(Reading(env.table, ev), qs)
  {
    if q :| q in qs && env.table.absence(q) == Soft && !ev.has(q) { assert Reading(env.table, ev)(q).NonValue?; }
  }

  lemma PlainAtomExact(env: Env, terms: seq<Term>, rel: Rel, k: real)
    ensures IsExact(AtomOf(env.sizes, terms, rel, k))
  {
  }
}
