/** Comparisons whose atoms show their data: taken apart into guards and atoms,
    they agree with the interpreter also where event data are missing, if and
    only if nothing they read has cancelled. */
module CutLeaves {
  import opened Linear
  import opened Formulas
  import opened Saturation
  import opened Conditions
  import opened Negation
  import opened PartialTruth
  import opened Exactness
  import opened LinearForms
  import opened Comparisons
  import opened ComparisonTruth
  import opened ShownData
  import opened Cuts

  // ----- comparisons without opaque scalars -----

  /** A form, the absolute value of one, or a minimum or maximum of such. */
  predicate Sturdy(e: Expr) {
    || Lin(e).Form?
    || match e
       case Abs(a) => Lin(a).Form?
       case Extremum(_, args) => forall a | a in args :: Sturdy(a)
       case _ => false
  }

  predicate IsInequality(rel: Rel) { IsUpward(rel) || IsDownward(rel) }

  /** A nonlinear shape that is expanded over forms. */
  predicate ShownExpr(e: Expr, rel: Rel) {
    && Lin(e).NonLinear?
    && match e
       case Abs(a) => Lin(a).Form?
       case Extremum(_, args) => IsInequality(rel) && forall a | a in args :: Sturdy(a)
       case Bin(op, l, r) => op == Div && Lin(l).Form? && Lin(r).Form?
       case _ => false
  }

  predicate Shown(c: Cut) {
    match c
    case Relation(rel, l, r) =>
      (match (Lin(l), Lin(r))
       case (Form(_), Form(_)) => true
       case (NonLinear, Form(b)) => b.terms == [] && ShownExpr(l, rel)
       case (Form(a), NonLinear) => a.terms == [] && ShownExpr(r, RelFlipped(rel))
       case _ => false)
    case Range(_, e, _, _) => Lin(e).Form? || ShownExpr(e, Ge)
  }

  // ----- the atoms behind the guards -----

  function RatioInner(env: Env, n: LinExpr, d: LinExpr, rel: Rel, c: real): Formula {
    var e := Minus(n, ScaledBy(d, c));
    if d.terms == [] then
      if d.k == 0.0 then False else AtomOf(env.sizes, e.terms, if d.k < 0.0 then RelFlipped(rel) else rel, -e.k)
    else
      FOr([
        FAnd([AtomOf(env.sizes, d.terms, Gt, -d.k), AtomOf(env.sizes, e.terms, rel, -e.k)]),
        FAnd([AtomOf(env.sizes, d.terms, Lt, -d.k), AtomOf(env.sizes, e.terms, RelFlipped(rel), -e.k)])])
  }

  function ExtremumInner(env: Env, least: bool, args: seq<Expr>, rel: Rel, parts: seq<Formula>): Formula {
    FAnd(FloorAtoms(FloorsOf(env, AllQuants(args))) + [if SomeDecides(least, rel) then FOr(parts) else FAnd(parts)])
  }

  function ArgParts(env: Env, args: seq<Expr>, rel: Rel, c: real): seq<Formula> {
    seq(|args|, i requires 0 <= i < |args| => ArgCompare(env, args[i], rel, c))
  }

  function PatternInner(env: Env, e: Expr, rel: Rel, c: real): Formula {
    match e
    case Abs(a) =>
      if c < 0.0 then if NeverBelow(rel) then False else True
      else (match Lin(a) case Form(f) => AbsExpansion(env, f, rel, c) case _ => False)
    case Extremum(least, args) => ExtremumInner(env, least, args, rel, ArgParts(env, args, rel, c))
    case Bin(_, l, r) => (match (Lin(l), Lin(r)) case (Form(n), Form(d)) => RatioInner(env, n, d, rel, c) case _ => False)
    case _ => False
  }

  function CutInner(env: Env, c: Cut): Formula {
    match c
    case Relation(rel, l, r) =>
      (match (Lin(l), Lin(r))
       case (Form(a), Form(b)) => var d := Minus(a, b); AtomOf(env.sizes, d.terms, rel, -d.k)
       case (NonLinear, Form(b)) => PatternInner(env, l, rel, b.k)
       case (Form(a), NonLinear) => PatternInner(env, r, RelFlipped(rel), a.k)
       case _ => False)
    case Range(inside, e, lo, hi) =>
      var r, s := if inside then Ge else Le, if inside then Le else Ge;
      var parts := match Lin(e)
        case Form(f) => [AtomOf(env.sizes, f.terms, r, lo - f.k), AtomOf(env.sizes, f.terms, s, hi - f.k)]
        case _ => [Pattern(env, e, r, lo), Pattern(env, e, s, hi)];
      if inside then FAnd(parts) else FOr(parts)
  }

  /** A comparison taken apart. */
  function CutLeaf(env: Env, id: nat, c: Cut): Cond { Leaf(id, CutQuants(c), FloorsOf(env, CutQuants(c)), CutInner(env, c)) }

  lemma PairExact(a: Formula, b: Formula)
    requires IsExact(a) && IsExact(b)
    ensures IsExact(FAnd([a, b])) && IsExact(FOr([a, b]))
  {
    ExactParts([a, b]);
    ExactAlternatives([a, b]);
  }

  lemma AbsExact(env: Env, f: LinExpr, rel: Rel, c: real)
    ensures IsExact(AbsExpansion(env, f, rel, c))
  {
    hide AtomOf, FAnd, FOr;
    var upper, lower := rel, match rel
      case Lt => Gt
      case Le => Ge
      case Gt => Lt
      case Ge => Le
      case Eq => Eq
      case Ne => Ne;
    PlainAtomExact(env, f.terms, upper, c - f.k);
    PlainAtomExact(env, f.terms, lower, -c - f.k);
    PairExact(AtomOf(env.sizes, f.terms, upper, c - f.k), AtomOf(env.sizes, f.terms, lower, -c - f.k));
  }

  lemma RatioExact(env: Env, n: LinExpr, d: LinExpr, rel: Rel, c: real)
    ensures IsExact(RatioInner(env, n, d, rel, c))
  {
    hide AtomOf, FAnd, FOr, Minus, ScaledBy;
    var e := Minus(n, ScaledBy(d, c));
    var dPos, ePos := AtomOf(env.sizes, d.terms, Gt, -d.k), AtomOf(env.sizes, e.terms, rel, -e.k);
    var dNeg, eNeg := AtomOf(env.sizes, d.terms, Lt, -d.k), AtomOf(env.sizes, e.terms, RelFlipped(rel), -e.k);
    PlainAtomExact(env, d.terms, Gt, -d.k);
    PlainAtomExact(env, d.terms, Lt, -d.k);
    PlainAtomExact(env, e.terms, rel, -e.k);
    PlainAtomExact(env, e.terms, RelFlipped(rel), -e.k);
    PairExact(dPos, ePos);
    PairExact(dNeg, eNeg);
    PairExact(FAnd([dPos, ePos]), FAnd([dNeg, eNeg]));
  }

  /** With exact parts no argument is marked opaque and every datum is guarded. */
  lemma ExtremumTaken(env: Env, least: bool, args: seq<Expr>, rel: Rel, parts: seq<Formula>)
    requires |parts| == |args| && AllExact(parts)
    ensures ExtremumCompare(env, least, args, rel, parts)
      == GuardPresence(env.table, AllQuants(args), ExtremumInner(env, least, args, rel, parts))
    ensures IsExact(ExtremumInner(env, least, args, rel, parts))
  {
    hide FAnd, FOr, GuardPresence, FloorAtoms, FloorsOf, ExactQuants;
    var combined := if SomeDecides(least, rel) then FOr(parts) else FAnd(parts);
    MarksMean(parts);
    ExactQuantsAll(args, parts);
    ExactParts(parts);
    ExactAlternatives(parts);
    var floors := FloorAtoms(FloorsOf(env, AllQuants(args)));
    assert floors + OpaqueMarks(parts) + [combined] == floors + [combined];
    FloorAtomsHold(FloorsOf(env, AllQuants(args)), OverSide, _ => 0.0);
    ExactParts(floors + [combined]);
  }

  lemma ExactQuantsAll(args: seq<Expr>, parts: seq<Formula>)
    requires |parts| == |args| && AllExact(parts)
    ensures ExactQuants(args, parts) == AllQuants(args)
  {
    hide Quants, IsExact;
    forall a, q | a in args && q in Quants(a) ensures q in ExactQuants(args, parts) {
      var i :| 0 <= i < |args| && args[i] == a;
      assert IsExact(parts[i]);
    }
    forall q | q in ExactQuants(args, parts) ensures q in AllQuants(args) {
      var i :| 0 <= i < |args| && IsExact(parts[i]) && q in Quants(args[i]);
      assert args[i] in args;
    }
  }

  lemma OpaqueExact(env: Env, e: Expr, rel: Rel, c: real)
    ensures IsExact(OpaqueAtom(env, e, rel, c))
  {
    hide GuardPresence, AtomOf;
    PlainAtomExact(env, [Term(1.0, env.opaqueOf(e))], rel, c);
    GuardPresenceExact(env.table, {env.opaqueOf(e)}, AtomOf(env.sizes, [Term(1.0, env.opaqueOf(e))], rel, c));
  }

  lemma WholeRatioExact(env: Env, num: Expr, den: Expr, rel: Rel, c: real)
    ensures IsExact(Ratio(env, num, den, rel, c))
  {
    hide Lin, GuardPresence, AtomOf, FAnd, FOr, Minus, ScaledBy;
    match (LinOrOpaque(env, num), LinOrOpaque(env, den))
    case (Form(n), Form(d)) =>
      RatioExact(env, n, d, rel, c);
      GuardPresenceExact(env.table, n.mentioned + d.mentioned, RatioInner(env, n, d, rel, c));
    case _ =>
  }

  lemma AbsCompareExact(env: Env, inner: Expr, rel: Rel, c: real)
    ensures IsExact(AbsCompare(env, inner, rel, c))
  {
    hide Lin, GuardPresence, AbsExpansion, OpaqueAtom, Quants;
    GuardPresenceExact(env.table, Quants(inner), False);
    GuardPresenceExact(env.table, Quants(inner), True);
    match Lin(inner)
    case Form(f) =>
      AbsExact(env, f, rel, c);
      GuardPresenceExact(env.table, f.mentioned, AbsExpansion(env, f, rel, c));
    case NonLinear => OpaqueExact(env, Abs(inner), rel, c);
    case NonFinite =>
  }

  /** Only a minimum or maximum under an equality is left open. */
  lemma {:induction false} PatternExactly(env: Env, e: Expr, rel: Rel, c: real)
    ensures if e.Extremum? && !IsInequality(rel) then Pattern(env, e, rel, c) == Unknown(0) else IsExact(Pattern(env, e, rel, c))
    decreases e, 0
  {
    hide ArgCompare, AbsCompare, Ratio, OpaqueAtom, ExtremumCompare, ExtremumInner, GuardPresence;
    match e
    case Abs(a) => AbsCompareExact(env, a, rel, c);
    case Extremum(least, args) =>
      if IsInequality(rel) {
        forall i | 0 <= i < |args| ensures IsExact(ArgParts(env, args, rel, c)[i]) { ArgExact(env, args[i], rel, c); }
        ExtremumTaken(env, least, args, rel, ArgParts(env, args, rel, c));
        GuardPresenceExact(env.table, AllQuants(args), ExtremumInner(env, least, args, rel, ArgParts(env, args, rel, c)));
      }
    case Bin(op, l, r) =>
      WholeRatioExact(env, l, r, rel, c);
      OpaqueExact(env, e, rel, c);
    case _ => OpaqueExact(env, e, rel, c);
  }

  lemma {:induction false} ArgExact(env: Env, e: Expr, rel: Rel, c: real)
    requires IsInequality(rel)
    ensures IsExact(ArgCompare(env, e, rel, c))
    decreases e, 1
  {
    hide Lin, GuardPresence, AtomOf, Pattern;
    match Lin(e)
    case Form(f) =>
      PlainAtomExact(env, f.terms, rel, c - f.k);
      GuardPresenceExact(env.table, f.mentioned, AtomOf(env.sizes, f.terms, rel, c - f.k));
    case NonFinite =>
    case NonLinear => PatternExactly(env, e, rel, c);
  }

  lemma ArgPartsExact(env: Env, args: seq<Expr>, rel: Rel, c: real)
    requires IsInequality(rel)
    ensures AllExact(ArgParts(env, args, rel, c))
  {
    hide ArgCompare;
    forall i | 0 <= i < |args| ensures IsExact(ArgParts(env, args, rel, c)[i]) { ArgExact(env, args[i], rel, c); }
  }

  /** A comparison that the encoder leaves open: between two nonlinear sides, of
      a nonlinear side with anything but a constant, or of a minimum or maximum
      by equality. */
  predicate LeftOpen(rel: Rel, l: Expr, r: Expr) {
    match (Lin(l), Lin(r))
    case (NonLinear, NonLinear) => true
    case (NonLinear, Form(b)) => b.terms != [] || (l.Extremum? && !IsInequality(rel))
    case (Form(a), NonLinear) => a.terms != [] || (r.Extremum? && !IsInequality(rel))
    case _ => false
  }

  predicate Decided(c: Cut) { c.Range? || !LeftOpen(c.rel, c.l, c.r) }

  lemma BareExactly(env: Env, c: Cut)
    ensures if Decided(c) then IsExact(Bare(env, c)) else Bare(env, c) == Unknown(0)
  {
    hide Lin, GuardPresence, AtomOf, Pattern, FAnd, FOr, Minus, Quants;
    match c
    case Relation(rel, l, r) =>
      match (Lin(l), Lin(r)) {
        case (Form(a), Form(b)) =>
          var d := Minus(a, b);
          PlainAtomExact(env, d.terms, rel, -d.k);
          GuardPresenceExact(env.table, d.mentioned, AtomOf(env.sizes, d.terms, rel, -d.k));
        case (NonLinear, Form(b)) => PatternExactly(env, l, rel, b.k);
        case (Form(a), NonLinear) => PatternExactly(env, r, RelFlipped(rel), a.k);
        case _ =>
      }
    case Range(inside, e, lo, hi) => BandExact(env, inside, e, lo, hi);
  }

  lemma BandExact(env: Env, inside: bool, e: Expr, lo: real, hi: real)
    ensures IsExact(Band(env, inside, e, lo, hi))
  {
    hide Lin, GuardPresence, AtomOf, Pattern, FAnd, FOr, Quants;
    var x, y := if inside then Ge else Le, if inside then Le else Ge;
    match Lin(e)
    case Form(f) =>
      var a, b := AtomOf(env.sizes, f.terms, x, lo - f.k), AtomOf(env.sizes, f.terms, y, hi - f.k);
      PlainAtomExact(env, f.terms, x, lo - f.k);
      PlainAtomExact(env, f.terms, y, hi - f.k);
      PairExact(a, b);
      GuardPresenceExact(env.table, f.mentioned, if inside then FAnd([a, b]) else FOr([a, b]));
    case NonLinear =>
      var a, b := Pattern(env, e, x, lo), Pattern(env, e, y, hi);
      PatternExactly(env, e, x, lo);
      PatternExactly(env, e, y, hi);
      PairExact(a, b);
      GuardPresenceExact(env.table, Quants(e), if inside then FAnd([a, b]) else FOr([a, b]));
    case NonFinite =>
  }

  /** A decided comparison is encoded exactly: on every event that fits, each
      projection holds just when the interpreter says True. The others are left
      open altogether. */
  lemma CutExactly(env: Env, ev: Event, c: Cut, p: Polarity)
    requires EnvValid(env) && EventFits(env, ev) && CutTabled(env, c) && CutRegular(env, ev, c)
    ensures Decided(c) ==> (Sat(CutFormula(env, c), p, View(env.table, ev)) <==> CutTruth(Reading(env.table, ev), c) == T)
    ensures !Decided(c) ==> CutFormula(env, c) == Unknown(0)
  {
    hide Bare, CutTabled, CutRegular, EnvValid, EventFits, View, FloorsOf, CutTruth, CutQuants, Project, Decided;
    var floors, v := FloorsOf(env, CutQuants(c)), View(env.table, ev);
    BareExactly(env, c);
    FloorsMean(floors, Bare(env, c), OverSide, v);
    FloorsMean(floors, Bare(env, c), UnderSide, v);
    if Decided(c) {
      CutJudges(env, ev, c);
      ExactProjectionsAgree(Bare(env, c));
    }
  }

  lemma GuardFalse(table: Table, quants: set<QuantityId>)
    ensures GuardPresence(table, quants, False) == False
  {
  }

  lemma PatternTaken(env: Env, e: Expr, rel: Rel, c: real)
    requires ShownExpr(e, rel)
    ensures Pattern(env, e, rel, c) == GuardPresence(env.table, Quants(e), PatternInner(env, e, rel, c))
    ensures IsExact(PatternInner(env, e, rel, c))
  {
    hide Lin, GuardPresence, AtomOf, AbsExpansion, ExtremumCompare, ExtremumInner, FAnd, FOr, Minus, ScaledBy, Sturdy;
    match e
    case Abs(a) =>
      FormNames(a);
      AbsExact(env, Lin(a).form, rel, c);
    case Extremum(least, args) =>
      ArgPartsExact(env, args, rel, c);
      ExtremumTaken(env, least, args, rel, ArgParts(env, args, rel, c));
      assert AllQuants(args) == Quants(e);
    case Bin(op, l, r) =>
      FormNames(l);
      FormNames(r);
      BinQuants(op, l, r);
      GuardFalse(env.table, Quants(e));
      RatioExact(env, Lin(l).form, Lin(r).form, rel, c);
  }

  lemma ConstantNames(e: Expr)
    requires Lin(e).Form? && Lin(e).form.terms == []
    ensures Quants(e) == {}
  {
    FormNames(e);
  }

  /** The encoded comparison is that of its parts: presence guards over all it
      reads, size guards over all it indexes, and its atoms. */
  lemma ShownIsLeaf(env: Env, c: Cut, id: nat)
    requires Shown(c)
    ensures Bare(env, c) == GuardPresence(env.table, CutQuants(c), CutInner(env, c))
    ensures CutFormula(env, c) == Encode(env.table, CutLeaf(env, id, c))
    ensures IsExact(CutInner(env, c))
  {
    hide Lin, GuardPresence, AtomOf, Pattern, PatternInner, FAnd, FOr, Minus, Quants, GuardExistence, FloorsOf, ShownExpr;
    match c
    case Relation(rel, l, r) =>
      match (Lin(l), Lin(r)) {
        case (Form(a), Form(b)) =>
          FormNames(l);
          FormNames(r);
          assert Minus(a, b).mentioned == a.mentioned + b.mentioned by { MinusMentions(a, b); }
          PlainAtomExact(env, Minus(a, b).terms, rel, -Minus(a, b).k);
        case (NonLinear, Form(b)) =>
          ConstantNames(r);
          assert CutQuants(c) == Quants(l);
          PatternTaken(env, l, rel, b.k);
        case (Form(a), NonLinear) =>
          ConstantNames(l);
          assert CutQuants(c) == Quants(r);
          PatternTaken(env, r, RelFlipped(rel), a.k);
      }
    case Range(inside, e, lo, hi) =>
      var x, y := if inside then Ge else Le, if inside then Le else Ge;
      match Lin(e) {
        case Form(f) =>
          FormNames(e);
          PlainAtomExact(env, f.terms, x, lo - f.k);
          PlainAtomExact(env, f.terms, y, hi - f.k);
          PairExact(AtomOf(env.sizes, f.terms, x, lo - f.k), AtomOf(env.sizes, f.terms, y, hi - f.k));
        case _ =>
          EitherInequality(e, x);
          EitherInequality(e, y);
          PatternTaken(env, e, x, lo);
          PatternTaken(env, e, y, hi);
          GuardPresenceExact(env.table, Quants(e), PatternInner(env, e, x, lo));
          GuardPresenceExact(env.table, Quants(e), PatternInner(env, e, y, hi));
          PairExact(Pattern(env, e, x, lo), Pattern(env, e, y, hi));
      }
  }

  lemma MinusMentions(a: LinExpr, b: LinExpr)
    ensures Minus(a, b).mentioned == a.mentioned + b.mentioned
  {
  }

  lemma EitherInequality(e: Expr, rel: Rel)
    requires ShownExpr(e, Ge) && IsInequality(rel)
    ensures ShownExpr(e, rel)
  {
  }

  // ----- its truth is the interpreter's -----

  ghost predicate SoftMissing(env: Env, ev: Event, qs: set<QuantityId>) { Missing(env.table, ev, qs, Soft) }

  lemma FormNonValue(env: Env, ev: Event, e: Expr)
    requires Lin(e).Form? && Eval(Reading(env.table, ev), e).NonValue?
    ensures SoftMissing(env, ev, Quants(e))
  {
    hide Eval, Lin, Quants;
    LinNonValue(Reading(env.table, ev), e);
    FormNames(e);
    MissingReads(env, ev, Quants(e));
  }

  /** A sturdy expression whose operands are steady lacks a value softly only for
      want of a soft datum, or with all its data present. */
  lemma {:induction false} SturdyNonValue(env: Env, ev: Event, e: Expr)
    requires Sturdy(e) && Regular(env, ev, e) && Eval(Reading(env.table, ev), e).NonValue?
    ensures SoftMissing(env, ev, Quants(e)) || Known(ev, Quants(e))
    decreases e, 1
  {
    hide Lin, Missing;
    if Lin(e).Form? {
      FormNonValue(env, ev, e);
    } else {
      match e
      case Abs(a) => FormNonValue(env, ev, a);
      case Extremum(least, args) =>
        if args != [] {
          SturdyArgument(env, ev, least, args);
          MissingGrows(env, ev, AllQuants(args), Quants(e));
        }
    }
  }

  lemma {:induction false} SturdyArgument(env: Env, ev: Event, least: bool, args: seq<Expr>)
    requires args != [] && forall a | a in args :: Sturdy(a) && Steady(env, ev, a) && Regular(env, ev, a)
    requires EvalExtremum(Reading(env.table, ev), least, args).NonValue?
    ensures SoftMissing(env, ev, AllQuants(args))
    decreases args, 0
  {
    hide Lin, Sturdy, Regular, Quants, Missing, Eval;
    var n, read := |args| - 1, Reading(env.table, ev);
    if n > 0 && EvalExtremum(read, least, args[..n]).NonValue? {
      SturdyArgument(env, ev, least, args[..n]);
      MissingGrows(env, ev, AllQuants(args[..n]), AllQuants(args));
    } else {
      assert args[n] in args && Eval(read, args[n]).NonValue?;
      SturdyNonValue(env, ev, args[n]);
      MissingGrows(env, ev, Quants(args[n]), AllQuants(args));
    }
  }

  lemma MissingGrows(env: Env, ev: Event, a: set<QuantityId>, b: set<QuantityId>)
    requires a <= b
    ensures SoftMissing(env, ev, a) ==> SoftMissing(env, ev, b)
  {
  }

  lemma ShownNonValue(env: Env, ev: Event, e: Expr, rel: Rel)
    requires ShownExpr(e, rel) && Regular(env, ev, e) && Eval(Reading(env.table, ev), e).NonValue?
    ensures SoftMissing(env, ev, Quants(e)) || Known(ev, Quants(e))
  {
    hide Lin, Missing, Eval;
    match e
    case Abs(a) => SturdyNonValue(env, ev, e);
    case Extremum(_, _) => SturdyNonValue(env, ev, e);
    case Bin(op, l, r) => RatioNonValue(env, ev, l, r);
  }

  lemma RatioNonValue(env: Env, ev: Event, l: Expr, r: Expr)
    requires Lin(l).Form? && Lin(r).Form? && Eval(Reading(env.table, ev), Bin(Div, l, r)).NonValue?
    ensures SoftMissing(env, ev, Quants(l) + Quants(r)) || Known(ev, Quants(l) + Quants(r))
  {
    hide Lin, Missing, Eval, Quants;
    var read := Reading(env.table, ev);
    RatioEval(read, l, r);
    if Eval(read, l).NonValue? {
      FormNonValue(env, ev, l);
      MissingGrows(env, ev, Quants(l), Quants(l) + Quants(r));
    } else if Eval(read, r).NonValue? {
      FormNonValue(env, ev, r);
      MissingGrows(env, ev, Quants(r), Quants(l) + Quants(r));
    } else {
      ValuesAreKnown(env, ev, l);
      ValuesAreKnown(env, ev, r);
    }
  }

  /** A comparison that is false is so on present data or for want of a soft one. */
  lemma FalseIsSettled(env: Env, ev: Event, c: Cut)
    requires Shown(c) && CutTabled(env, c) && CutRegular(env, ev, c) && CutTruth(Reading(env.table, ev), c) == F
    ensures SoftMissing(env, ev, CutQuants(c)) || Known(ev, CutQuants(c))
  {
    hide Lin, Missing, Eval, Quants, Regular, ShownExpr, Tabled, Reading;
    var read := Reading(env.table, ev);
    match c
    case Relation(rel, l, r) =>
      MissingGrows(env, ev, Quants(l), CutQuants(c));
      MissingGrows(env, ev, Quants(r), CutQuants(c));
      if Eval(read, l).Val? && Eval(read, r).Val? {
        ValuesAreKnown(env, ev, l);
        ValuesAreKnown(env, ev, r);
      } else if Eval(read, l).NonValue? {
        OperandNonValue(env, ev, l, rel);
        if !Lin(l).Form? { ConstantNames(r); }
      } else {
        OperandNonValue(env, ev, r, RelFlipped(rel));
        if !Lin(r).Form? { ConstantNames(l); }
      }
    case Range(inside, e, lo, hi) =>
      if Eval(read, e).Val? { ValuesAreKnown(env, ev, e); } else { OperandNonValue(env, ev, e, Ge); }
  }

  lemma OperandNonValue(env: Env, ev: Event, e: Expr, rel: Rel)
    requires Lin(e).Form? || (ShownExpr(e, rel) && Regular(env, ev, e))
    requires Eval(Reading(env.table, ev), e).NonValue?
    ensures SoftMissing(env, ev, Quants(e)) || (!Lin(e).Form? && Known(ev, Quants(e)))
  {
    hide Missing, Eval, Quants, Regular, ShownExpr, Lin;
    if Lin(e).Form? { FormNonValue(env, ev, e); } else { ShownNonValue(env, ev, e, rel); }
  }

  /** On every event the parts have the comparison's truth, when that is also what
      the interpreter reports where a soft and a hard datum are both missing. */
  lemma LeafTruthIsCutTruth(env: Env, ev: Event, c: Cut, id: nat)
    requires EnvValid(env) && EventFits(env, ev) && CutTabled(env, c) && CutRegular(env, ev, c) && Shown(c)
    requires ev.reading(id) == CutTruth(Reading(env.table, ev), c)
    ensures Truth(env.table, ev, CutLeaf(env, id, c)) == CutTruth(Reading(env.table, ev), c)
  {
    hide EnvValid, EventFits, CutTabled, CutRegular, Shown, CutTruth, CutQuants, CutInner, Bare, GuardPresence, Project,
      View, Reading;
    var read, qs, inner := Reading(env.table, ev), CutQuants(c), CutInner(env, c);
    FitsIsValid(env, ev);
    EnvTable(env);
    MissingMeansUnknown(env.table, ev, qs);
    if CutTruth(read, c) == T { TrueIsKnown(env, ev, c); }
    if CutTruth(read, c) == F { FalseIsSettled(env, ev, c); }
    if !Missing(env.table, ev, qs, Hard) {
      NothingMissing(env.table, ev, qs);
      Definite(env.table, ev, c);
    }
    ShownIsLeaf(env, c, id);
    BareJudges(env, ev, c);
    ExactProjectionsAgree(inner);
    GuardPresenceMeans(env.table, ev, qs, inner, OverSide);
    GuardPresenceMeans(env.table, ev, qs, inner, UnderSide);
  }

  lemma NothingMissing(table: Table, ev: Event, qs: set<QuantityId>)
    requires !Missing(table, ev, qs, Hard)
    ensures DataThere(table, ev, qs)
  {
    forall q | q in Hards(table, qs) ensures ev.has(q) { assert q in qs; }
  }

  // ----- its parts are compiled -----

  /** A well-shaped formula that is constant only if nothing needs a guard. */
  ghost predicate Solid(env: Env, qs: set<QuantityId>, f: Formula) {
    Shaped(env.table, f) && (IsConst(f) ==> Unguarded(env, qs))
  }

  ghost predicate Unguarded(env: Env, qs: set<QuantityId>) {
    NeverAbsent(env.table, qs) && forall q | q in qs :: env.floors(q) == []
  }

  lemma CompiledCut(env: Env, c: Cut)
    requires EnvValid(env) && CutTabled(env, c) && Shown(c) && Solid(env, CutQuants(c), CutInner(env, c))
    ensures LeafCompiled(env.table, CutQuants(c), FloorsOf(env, CutQuants(c)), CutInner(env, c))
  {
    hide CutTabled, Shown, CutInner, CutQuants, FloorsOf, Bare, GuardPresence, HardQuantities, HardForced, Clause, FNot;
    var qs, inner := CutQuants(c), CutInner(env, c);
    EnvTable(env);
    ShownIsLeaf(env, c, 0);
    PresenceGuard(env.table, qs, inner);
    CutWithin(env, c);
    FloorsOfPlain(env, qs);
    if IsConst(inner) { NoFloors(env, qs); }
  }

  lemma PairSolid(env: Env, qs: set<QuantityId>, a: Formula, b: Formula)
    requires Solid(env, qs, a) && Solid(env, qs, b)
    ensures Solid(env, qs, FAnd([a, b])) && Solid(env, qs, FOr([a, b]))
  {
    hide Clause, FAnd, FOr, Unguarded;
    var s := [a, b];
    ShapedAnd(env.table, s);
    ShapedOr(env.table, s);
    ConstNotClause(env.table);
    if !IsConst(a) && !IsConst(b) {
      assert s[0] == a && s[1] == b;
      ClauseOfAnd(env.table, s);
      ClauseOfOr(env.table, s);
    }
  }

  lemma AtomSolid(env: Env, ts: seq<Term>, rel: Rel, k: real, qs: set<QuantityId>)
    requires SizesValid(env) && PlainQuants(env, Named(ts))
    requires Named(ts) == qs || (ts != [] && IsInequality(rel))
    ensures Solid(env, qs, AtomOf(env.sizes, ts, rel, k))
  {
    hide HardQuantities, HardForced, Clause, MakeAtom;
    AtomOfShape(env, ts, rel, k);
  }

  lemma AbsSolid(env: Env, f: LinExpr, rel: Rel, c: real)
    requires SizesValid(env) && PlainQuants(env, Named(f.terms))
    ensures Solid(env, Named(f.terms), AbsExpansion(env, f, rel, c))
  {
    hide AtomOf, FAnd, FOr, Clause, Unguarded, Named;
    var upper, lower := rel, match rel
      case Lt => Gt
      case Le => Ge
      case Gt => Lt
      case Ge => Le
      case Eq => Eq
      case Ne => Ne;
    AtomSolid(env, f.terms, upper, c - f.k, Named(f.terms));
    AtomSolid(env, f.terms, lower, -c - f.k, Named(f.terms));
    PairSolid(env, Named(f.terms), AtomOf(env.sizes, f.terms, upper, c - f.k), AtomOf(env.sizes, f.terms, lower, -c - f.k));
  }

  lemma RatioSolid(env: Env, n: LinExpr, d: LinExpr, rel: Rel, c: real)
    requires SizesValid(env) && PlainQuants(env, Named(n.terms)) && PlainQuants(env, Named(d.terms)) && (d.terms != [] || d.k != 0.0)
    ensures Solid(env, Named(n.terms) + Named(d.terms), RatioInner(env, n, d, rel, c))
  {
    hide AtomOf, FAnd, FOr, Minus, ScaledBy, Clause, Unguarded, Named;
    var e, qs := Minus(n, ScaledBy(d, c)), Named(n.terms) + Named(d.terms);
    PlusNames(n, d, c);
    var dPos, ePos := AtomOf(env.sizes, d.terms, Gt, -d.k), AtomOf(env.sizes, e.terms, rel, -e.k);
    var dNeg, eNeg := AtomOf(env.sizes, d.terms, Lt, -d.k), AtomOf(env.sizes, e.terms, RelFlipped(rel), -e.k);
    AtomSolid(env, e.terms, rel, -e.k, qs);
    AtomSolid(env, e.terms, RelFlipped(rel), -e.k, qs);
    if d.terms != [] {
      AtomSolid(env, d.terms, Gt, -d.k, qs);
      AtomSolid(env, d.terms, Lt, -d.k, qs);
      PairSolid(env, qs, dPos, ePos);
      PairSolid(env, qs, dNeg, eNeg);
      PairSolid(env, qs, FAnd([dPos, ePos]), FAnd([dNeg, eNeg]));
    }
  }

  /** A cleared ratio, or an absolute value against a bound it can meet. */
  predicate FormExpr(e: Expr, c: real) {
    match e
    case Abs(a) => Lin(a).Form? && c >= 0.0
    case Bin(op, l, r) => op == Div && Lin(l).Form? && Lin(r).Form?
    case _ => false
  }

  /** Linear cuts, and cleared ratios and absolute values against a constant, in
      a relation or a band. */
  predicate OverForms(c: Cut) {
    && Shown(c)
    && match c
       case Relation(rel, l, r) =>
         (match (Lin(l), Lin(r))
          case (NonLinear, Form(b)) => FormExpr(l, b.k)
          case (Form(a), NonLinear) => FormExpr(r, a.k)
          case _ => true)
       case Range(_, e, lo, hi) => Lin(e).Form? || (FormExpr(e, lo) && FormExpr(e, hi))
  }

  lemma OperandForms(env: Env, e: Expr)
    requires Tabled(env, e)
    ensures match e
      case Abs(a) => Lin(a).Form? ==> PlainQuants(env, Named(Lin(a).form.terms)) && Named(Lin(a).form.terms) == Quants(e)
      case Bin(_, l, r) => Lin(l).Form? && Lin(r).Form? ==>
        && PlainQuants(env, Named(Lin(l).form.terms)) && PlainQuants(env, Named(Lin(r).form.terms))
        && Named(Lin(l).form.terms) + Named(Lin(r).form.terms) == Quants(e)
      case _ => true
  {
    hide Lin, Named;
    match e
    case Abs(a) => if Lin(a).Form? { FormNames(a); }
    case Bin(_, l, r) => if Lin(l).Form? && Lin(r).Form? { FormNames(l); FormNames(r); }
    case _ =>
  }

  lemma NonLinearRatio(op: ArithOp, l: Expr, r: Expr)
    requires Lin(Bin(op, l, r)).NonLinear? && op == Div && Lin(l).Form? && Lin(r).Form?
    ensures Lin(r).form.terms != [] || Lin(r).form.k != 0.0
  {
  }

  lemma PatternSolid(env: Env, e: Expr, rel: Rel, c: real)
    requires EnvValid(env) && Tabled(env, e) && Lin(e).NonLinear? && FormExpr(e, c)
    ensures Solid(env, Quants(e), PatternInner(env, e, rel, c))
  {
    hide Lin, AbsExpansion, RatioInner, Named, Solid, Quants, Tabled;
    OperandForms(env, e);
    match e
    case Abs(a) => AbsSolid(env, Lin(a).form, rel, c);
    case Bin(op, l, r) =>
      NonLinearRatio(op, l, r);
      RatioSolid(env, Lin(l).form, Lin(r).form, rel, c);
  }

  lemma GuardedSolid(env: Env, qs: set<QuantityId>, f: Formula)
    requires EnvValid(env) && IsExact(f) && Solid(env, qs, f)
    ensures Solid(env, qs, GuardPresence(env.table, qs, f))
  {
    hide GuardPresence, HardQuantities, HardForced, Clause, FNot;
    EnvTable(env);
    PresenceGuard(env.table, qs, f);
  }

  /** Linear cuts, cleared ratios, absolute values and their bands are compiled. */
  lemma OverFormsCompiled(env: Env, c: Cut)
    requires EnvValid(env) && CutTabled(env, c) && OverForms(c)
    ensures LeafCompiled(env.table, CutQuants(c), FloorsOf(env, CutQuants(c)), CutInner(env, c))
  {
    hide Lin, AtomOf, Named, Solid, PatternInner, LeafCompiled, Quants, Tabled, FormExpr, FAnd, FOr, Minus, Pattern,
      EnvValid, ShownExpr;
    EnvSizes(env);
    match c {
      case Relation(rel, l, r) =>
        match (Lin(l), Lin(r)) {
          case (Form(a), Form(b)) =>
            FormsNamed(env, l, r);
            AtomSolid(env, Minus(a, b).terms, rel, -Minus(a, b).k, CutQuants(c));
          case (NonLinear, Form(b)) =>
            ConstantNames(r);
            assert CutQuants(c) == Quants(l);
            PatternSolid(env, l, rel, b.k);
          case (Form(a), NonLinear) =>
            ConstantNames(l);
            assert CutQuants(c) == Quants(r);
            PatternSolid(env, r, RelFlipped(rel), a.k);
        }
      case Range(inside, e, lo, hi) =>
        var x, y := if inside then Ge else Le, if inside then Le else Ge;
        match Lin(e) {
          case Form(f) =>
            FormsNamed(env, e, e);
            AtomSolid(env, f.terms, x, lo - f.k, Quants(e));
            AtomSolid(env, f.terms, y, hi - f.k, Quants(e));
            PairSolid(env, Quants(e), AtomOf(env.sizes, f.terms, x, lo - f.k), AtomOf(env.sizes, f.terms, y, hi - f.k));
          case _ =>
            BandSideSolid(env, e, x, lo);
            BandSideSolid(env, e, y, hi);
            PairSolid(env, Quants(e), Pattern(env, e, x, lo), Pattern(env, e, y, hi));
        }
    }
    CompiledCut(env, c);
  }

  lemma BandSideSolid(env: Env, e: Expr, rel: Rel, c: real)
    requires EnvValid(env) && Tabled(env, e) && ShownExpr(e, Ge) && FormExpr(e, c) && IsInequality(rel)
    ensures Solid(env, Quants(e), Pattern(env, e, rel, c))
  {
    hide Lin, Named, Solid, PatternInner, Quants, Tabled, FormExpr, Pattern, EnvValid;
    EitherInequality(e, rel);
    PatternTaken(env, e, rel, c);
    PatternSolid(env, e, rel, c);
    GuardedSolid(env, Quants(e), PatternInner(env, e, rel, c));
  }

  lemma EnvSizes(env: Env)
    requires EnvValid(env)
    ensures SizesValid(env)
  {
  }

  lemma FormsNamed(env: Env, l: Expr, r: Expr)
    requires Tabled(env, l) && Tabled(env, r) && Lin(l).Form? && Lin(r).Form?
    ensures var d := Minus(Lin(l).form, Lin(r).form);
      && Named(d.terms) == Quants(l) + Quants(r) && PlainQuants(env, Named(d.terms))
      && Named(Lin(l).form.terms) == Quants(l) && PlainQuants(env, Quants(l))
  {
    hide Lin, Named, Quants, Minus;
    FormNames(l);
    FormNames(r);
    PlusNames(Lin(l).form, Lin(r).form, 1.0);
  }

  // ----- agreement where event data are missing -----

  /** The comparison's atoms show all that it reads. */
  ghost predicate Transparent(env: Env, c: Cut) {
    && Shown(c)
    && LeafCompiled(env.table, CutQuants(c), FloorsOf(env, CutQuants(c)), CutInner(env, c))
    && LeafTransparent(env.table, CutQuants(c), FloorsOf(env, CutQuants(c)), CutInner(env, c))
  }

  /** A transparent comparison agrees with the interpreter on every event,
      whatever is absent. */
  lemma TransparentAgrees(env: Env, ev: Event, c: Cut)
    requires EnvValid(env) && EventFits(env, ev) && CutTabled(env, c) && CutRegular(env, ev, c) && Transparent(env, c)
    ensures Agrees(env.table, ev, CutFormula(env, c), CutTruth(Reading(env.table, ev), c))
  {
    hide EnvValid, EventFits, CutTabled, CutRegular, Shown, LeafCompiled, LeafTransparent, CutQuants, CutInner, CutFormula,
      CutTruth,
      FloorsOf, LeafTruth, Agrees, GuardExistence, GuardPresence;
    var told := ev.(reading := _ => CutTruth(Reading(env.table, ev), c));
    SameData(env, ev, told, c);
    EnvTable(env);
    FitsIsValid(env, told);
    FitsFloors(env, told, CutQuants(c));
    ShownIsLeaf(env, c, 0);
    LeafTruthIsCutTruth(env, told, c, 0);
    LeafAgrees(env.table, told, 0, CutQuants(c), FloorsOf(env, CutQuants(c)), CutInner(env, c));
    AgreesIgnoresReading(env.table, ev, told, CutFormula(env, c), CutTruth(Reading(env.table, ev), c));
  }

  lemma SameData(env: Env, ev: Event, told: Event, c: Cut)
    requires told.value == ev.value && told.has == ev.has
    ensures Reading(env.table, told) == Reading(env.table, ev)
    ensures EventFits(env, ev) ==> EventFits(env, told)
    ensures CutRegular(env, ev, c) ==> CutRegular(env, told, c)
  {
    assert Reading(env.table, told) == Reading(env.table, ev);
    match c
    case Relation(_, l, r) => SameRegular(env, ev, told, l); SameRegular(env, ev, told, r);
    case Range(_, e, _, _) => SameRegular(env, ev, told, e);
  }

  lemma {:induction false} SameRegular(env: Env, ev: Event, told: Event, e: Expr)
    requires told.has == ev.has && Reading(env.table, told) == Reading(env.table, ev)
    ensures Regular(env, ev, e) ==> Regular(env, told, e)
  {
    hide Eval, Quants;
    if e.Extremum? { forall a | a in e.args { SameRegular(env, ev, told, a); } }
  }

  lemma AgreesIgnoresReading(table: Table, ev: Event, told: Event, f: Formula, t: Tri)
    requires told.value == ev.value && told.has == ev.has && Agrees(table, told, f, t)
    ensures Agrees(table, ev, f, t)
  {
  }

  // ----- when the atoms show everything -----

  /** What a formula over a single form shows and forces. */
  ghost predicate ShowsForm(table: Table, f: Formula, ts: seq<Term>) {
    && HardQuantities(table, f) == Hards(table, Kept(ts))
    && HardForced(table, f) == if HasSoft(table, Kept(ts)) then {} else Hards(table, Kept(ts))
  }

  /** No event datum cancels, and unless size guards or a surviving element
      property excuse it, event data stand without element properties. */
  ghost predicate NothingCancels(env: Env, qs: set<QuantityId>, ts: seq<Term>) {
    && Hards(env.table, qs) <= Kept(ts)
    && (HasSoft(env.table, qs) && FloorsOf(env, qs) == [] && !HasSoft(env.table, Kept(ts)) ==> Hards(env.table, qs) == {})
  }

  lemma TransparentForm(env: Env, qs: set<QuantityId>, f: Formula, ts: seq<Term>)
    requires ShowsForm(env.table, f, ts) && Kept(ts) <= qs
    ensures LeafTransparent(env.table, qs, FloorsOf(env, qs), f) <==> NothingCancels(env, qs, ts)
  {
    hide HardQuantities, HardForced, Kept, FloorsOf;
    assert forall q :: q in Hards(env.table, qs) <==> q in qs && env.table.absence(q) == Hard;
    assert forall q :: q in Hards(env.table, Kept(ts)) <==> q in Kept(ts) && env.table.absence(q) == Hard;
  }

  lemma AtomPair(a: Formula, b: Formula)
    requires a.Atom? && b.Atom?
    ensures FAnd([a, b]) == And([a, b]) && FOr([a, b]) == Or([a, b])
  {
    var s := [a, b];
    assert s[..1] == [a] && s[..0] == [];
    assert AndParts([a]) == [a] && OrParts([a]) == [a] by { assert [a][..0] == []; }
    assert AndParts(s) == [a] + [b] && OrParts(s) == [a] + [b];
  }

  /** Two atoms over one form, conjoined or disjoined, show and force what each does. */
  lemma PairShows(env: Env, a: Formula, b: Formula, ts: seq<Term>)
    requires ShowsForm(env.table, a, ts) && ShowsForm(env.table, b, ts)
    requires (a.Atom? || IsConst(a)) && (b.Atom? || IsConst(b))
    requires Shaped(env.table, a) && Shaped(env.table, b)
    ensures ShowsForm(env.table, FAnd([a, b]), ts) && ShowsForm(env.table, FOr([a, b]), ts)
  {
    hide Kept, FAnd, FOr;
    NothingHard(env.table);
    if Hards(env.table, Kept(ts)) == {} {
      PairWithin(env.table, a, b, {});
      forall q | q in HardForced(env.table, FAnd([a, b])) ensures false { ForcedSubset(env.table, FAnd([a, b]), q); }
      forall q | q in HardForced(env.table, FOr([a, b])) ensures false { ForcedSubset(env.table, FOr([a, b]), q); }
    } else {
      AtomPair(a, b);
      AtomPairShows(env.table, a, b);
    }
  }

  lemma AtomPairShows(table: Table, a: Formula, b: Formula)
    requires a.Atom? && b.Atom? && Clause(table, a) && Clause(table, b)
    ensures HardQuantities(table, And([a, b])) == HardQuantities(table, a) + HardQuantities(table, b)
    ensures HardQuantities(table, Or([a, b])) == HardQuantities(table, a) + HardQuantities(table, b)
    ensures HardForced(table, And([a, b])) == HardForced(table, a) * HardForced(table, b)
    ensures HardForced(table, Or([a, b])) == HardForced(table, a) + HardForced(table, b)
  {
    hide HardQuantities, ForcedByFalsity;
    var s := [a, b];
    assert s[0] == a && s[1] == b;
    assert forall x :: x in s <==> x == a || x == b;
    PairHard(table, s);
    forall q { ForcedByAllMember(table, s, q); }
    PairForced(table, s);
  }

  lemma PairHard(table: Table, s: seq<Formula>)
    ensures HardQuantities(table, And(s)) == HardOfAll(table, s) && HardQuantities(table, Or(s)) == HardOfAll(table, s)
  {
  }

  lemma PairForced(table: Table, s: seq<Formula>)
    ensures forall q :: q in ForcedByFalsity(table, Or(s)) <==> exists x :: x in s && q in ForcedByFalsity(table, x)
  {
  }

  lemma AtomOfShows(env: Env, ts: seq<Term>, rel: Rel, k: real)
    requires SizesValid(env) && PlainQuants(env, Named(ts))
    ensures var f := AtomOf(env.sizes, ts, rel, k);
      ShowsForm(env.table, f, ts) && (f.Atom? || IsConst(f)) && Shaped(env.table, f)
  {
    AtomOfShape(env, ts, rel, k);
  }

  lemma AbsShows(env: Env, f: LinExpr, rel: Rel, c: real)
    requires SizesValid(env) && PlainQuants(env, Named(f.terms))
    ensures ShowsForm(env.table, AbsExpansion(env, f, rel, c), f.terms)
  {
    hide AtomOf, FAnd, FOr, ShowsForm, Shaped, Named;
    var upper, lower := rel, match rel
      case Lt => Gt
      case Le => Ge
      case Gt => Lt
      case Ge => Le
      case Eq => Eq
      case Ne => Ne;
    AtomOfShows(env, f.terms, upper, c - f.k);
    AtomOfShows(env, f.terms, lower, -c - f.k);
    PairShows(env, AtomOf(env.sizes, f.terms, upper, c - f.k), AtomOf(env.sizes, f.terms, lower, -c - f.k), f.terms);
  }

  /** The one form behind a linear cut, an absolute value or a band. */
  function SingleForm(c: Cut): Option<seq<Term>> {
    match c
    case Relation(rel, l, r) =>
      (match (Lin(l), Lin(r))
       case (Form(a), Form(b)) => Some(Minus(a, b).terms)
       case (NonLinear, Form(b)) =>
         if l.Abs? && Lin(l.e).Form? && b.terms == [] && b.k >= 0.0 then Some(Lin(l.e).form.terms) else None
       case (Form(a), NonLinear) =>
         if r.Abs? && Lin(r.e).Form? && a.terms == [] && a.k >= 0.0 then Some(Lin(r.e).form.terms) else None
       case _ => None)
    case Range(_, e, _, _) => (match Lin(e) case Form(f) => Some(f.terms) case _ => None)
  }

  lemma KeptNamed(ts: seq<Term>)
    ensures Kept(ts) <= Named(ts)
  {
  }

  /** A linear cut, an absolute value or a linear band shows all that it reads if
      and only if nothing it reads cancels. */
  lemma SingleFormTransparent(env: Env, c: Cut)
    requires EnvValid(env) && CutTabled(env, c) && SingleForm(c).Some?
    ensures Transparent(env, c) <==> NothingCancels(env, CutQuants(c), SingleForm(c).value)
  {
    hide Lin, AtomOf, Named, Kept, LeafCompiled, LeafTransparent, Quants, Tabled, FAnd, FOr, Minus, EnvValid, ShowsForm,
      NothingCancels,
      FloorsOf, AbsExpansion;
    EnvSizes(env);
    var ts := SingleForm(c).value;
    match c {
      case Relation(rel, l, r) =>
        match (Lin(l), Lin(r)) {
          case (Form(a), Form(b)) =>
            FormsNamed(env, l, r);
            AtomOfShows(env, ts, rel, -Minus(a, b).k);
          case (NonLinear, Form(b)) =>
            ConstantNames(r);
            OperandForms(env, l);
            AbsShows(env, Lin(l.e).form, rel, b.k);
          case (Form(a), NonLinear) =>
            ConstantNames(l);
            OperandForms(env, r);
            AbsShows(env, Lin(r.e).form, RelFlipped(rel), a.k);
        }
      case Range(inside, e, lo, hi) =>
        var x, y, f := if inside then Ge else Le, if inside then Le else Ge, Lin(e).form;
        FormsNamed(env, e, e);
        AtomOfShows(env, ts, x, lo - f.k);
        AtomOfShows(env, ts, y, hi - f.k);
        PairShows(env, AtomOf(env.sizes, f.terms, x, lo - f.k), AtomOf(env.sizes, f.terms, y, hi - f.k), ts);
    }
    KeptNamed(ts);
    OverFormsCompiled(env, c);
    TransparentForm(env, CutQuants(c), CutInner(env, c), ts);
  }

  /** The forms of a ratio's denominator and of its cleared comparison. */
  datatype Cleared = Cleared(den: LinExpr, cleared: LinExpr)

  function RatioForms(e: Expr, c: real): Option<Cleared> {
    if e.Bin? && e.op == Div && Lin(e.l).Form? && Lin(e.r).Form?
    then Some(Cleared(Lin(e.r).form, Minus(Lin(e.l).form, ScaledBy(Lin(e.r).form, c))))
    else None
  }

  /** The forms behind a ratio against a constant. */
  function ClearedForms(c: Cut): Option<Cleared> {
    match c
    case Relation(rel, l, r) =>
      (match (Lin(l), Lin(r))
       case (NonLinear, Form(b)) => if b.terms == [] then RatioForms(l, b.k) else None
       case (Form(a), NonLinear) => if a.terms == [] then RatioForms(r, a.k) else None
       case _ => None)
    case _ => None
  }

  /** Every event datum survives in the denominator or in the cleared comparison,
      and unless size guards or a surviving element property excuse it, a ratio
      that also reads element properties has no event datum surviving in both. */
  ghost predicate RatioKeeps(env: Env, qs: set<QuantityId>, f: Cleared) {
    var d, e := Kept(f.den.terms), Kept(f.cleared.terms);
    && Hards(env.table, qs) <= d + e
    && (HasSoft(env.table, qs) && FloorsOf(env, qs) == [] && !HasSoft(env.table, d + e) ==>
      if f.den.terms == [] then Hards(env.table, e) == {} else Hards(env.table, d) * Hards(env.table, e) == {})
  }

  lemma RatioShows(env: Env, n: LinExpr, d: LinExpr, rel: Rel, c: real)
    requires SizesValid(env) && PlainQuants(env, Named(n.terms)) && PlainQuants(env, Named(d.terms)) && d.terms != []
    ensures var f, a, b := RatioInner(env, n, d, rel, c), Kept(d.terms), Kept(Minus(n, ScaledBy(d, c)).terms);
      && HardQuantities(env.table, f) == Hards(env.table, a + b)
      && HardForced(env.table, f) == if HasSoft(env.table, a + b) then {} else Hards(env.table, a) * Hards(env.table, b)
  {
    hide AtomOf, FAnd, FOr, Minus, ScaledBy, Named, Kept, HardQuantities, HardForced, Clause;
    var table, e := env.table, Minus(n, ScaledBy(d, c));
    PlusNames(n, d, c);
    KeptNamed(d.terms);
    KeptNamed(e.terms);
    var dPos, ePos := AtomOf(env.sizes, d.terms, Gt, -d.k), AtomOf(env.sizes, e.terms, rel, -e.k);
    var dNeg, eNeg := AtomOf(env.sizes, d.terms, Lt, -d.k), AtomOf(env.sizes, e.terms, RelFlipped(rel), -e.k);
    AtomOfShape(env, d.terms, Gt, -d.k);
    AtomOfShape(env, d.terms, Lt, -d.k);
    AtomOfShape(env, e.terms, rel, -e.k);
    AtomOfShape(env, e.terms, RelFlipped(rel), -e.k);
    if IsConst(ePos) || IsConst(eNeg) {
      var f := RatioInner(env, n, d, rel, c);
      PairWithin(table, dPos, ePos, {});
      PairWithin(table, dNeg, eNeg, {});
      PairWithin(table, FAnd([dPos, ePos]), FAnd([dNeg, eNeg]), {});
      forall q | q in HardForced(table, f) ensures false { ForcedSubset(table, f, q); }
    } else {
      AtomOfAtom(env, d.terms, -d.k);
      AtomOfOpen(env, e.terms, rel, -e.k);
      AtomOfOpen(env, e.terms, RelFlipped(rel), -e.k);
      AtomPair(dPos, ePos);
      AtomPair(dNeg, eNeg);
      BranchesShow(table, dPos, ePos, dNeg, eNeg);
    }
  }

  lemma AtomOfAtom(env: Env, ts: seq<Term>, k: real)
    requires ts != []
    ensures AtomOf(env.sizes, ts, Gt, k).Atom? && AtomOf(env.sizes, ts, Lt, k).Atom?
  {
  }

  lemma AtomOfOpen(env: Env, ts: seq<Term>, rel: Rel, k: real)
    ensures AtomOf(env.sizes, ts, rel, k).Atom? || IsConst(AtomOf(env.sizes, ts, rel, k))
  {
  }

  lemma BranchesShow(table: Table, a: Formula, b: Formula, c: Formula, d: Formula)
    requires a.Atom? && b.Atom? && c.Atom? && d.Atom?
    requires Clause(table, a) && Clause(table, b) && Clause(table, c) && Clause(table, d)
    requires HardQuantities(table, a) == HardQuantities(table, c) && HardForced(table, a) == HardForced(table, c)
    requires HardQuantities(table, b) == HardQuantities(table, d) && HardForced(table, b) == HardForced(table, d)
    ensures var f := FOr([And([a, b]), And([c, d])]);
      && HardQuantities(table, f) == HardQuantities(table, a) + HardQuantities(table, b)
      && HardForced(table, f) == HardForced(table, a) * HardForced(table, b)
  {
    hide HardQuantities, ForcedByFalsity;
    var s := [And([a, b]), And([c, d])];
    AtomPairShows(table, a, b);
    AtomPairShows(table, c, d);
    AndPairOr(And([a, b]), And([c, d]));
    assert s[0] == And([a, b]) && s[1] == And([c, d]);
    assert forall x :: x in s <==> x == s[0] || x == s[1];
    PairHard(table, s);
    PairForced(table, s);
  }

  lemma AndPairOr(a: Formula, b: Formula)
    requires a.And? && b.And?
    ensures FOr([a, b]) == Or([a, b])
  {
    var s := [a, b];
    assert s[..1] == [a] && [a][..0] == [];
    assert OrParts([a]) == [a];
    assert OrParts(s) == [a] + [b];
  }

  lemma ClearedNames(env: Env, e: Expr, c: real)
    requires Tabled(env, e) && RatioForms(e, c).Some?
    ensures var f := RatioForms(e, c).value;
      && PlainQuants(env, Named(Lin(e.l).form.terms)) && PlainQuants(env, Named(f.den.terms))
      && PlainQuants(env, Named(f.cleared.terms))
      && Named(f.den.terms) + Named(f.cleared.terms) == Quants(e)
  {
    hide Lin, Named, Minus, ScaledBy;
    OperandForms(env, e);
    PlusNames(Lin(e.l).form, Lin(e.r).form, c);
  }

  /** A cleared ratio shows all that it reads if and only if nothing cancels in
      both of its forms. */
  lemma RatioTransparent(env: Env, c: Cut)
    requires EnvValid(env) && CutTabled(env, c) && ClearedForms(c).Some?
    ensures Transparent(env, c) <==> RatioKeeps(env, CutQuants(c), ClearedForms(c).value)
  {
    hide Lin, LeafCompiled, LeafTransparent, Quants, Tabled, Minus, ScaledBy, EnvValid, RatioKeeps, FloorsOf, PatternInner,
      RatioForms;
    match c
    case Relation(rel, l, r) =>
      match (Lin(l), Lin(r)) {
        case (NonLinear, Form(b)) =>
          ConstantNames(r);
          assert CutQuants(c) == Quants(l);
          RatioFormsFacts(l, b.k, rel);
          RatioPatternTransparent(env, l, rel, b.k);
        case (Form(a), NonLinear) =>
          ConstantNames(l);
          assert CutQuants(c) == Quants(r);
          RatioFormsFacts(r, a.k, RelFlipped(rel));
          RatioPatternTransparent(env, r, RelFlipped(rel), a.k);
      }
      OverFormsCompiled(env, c);
  }

  lemma RatioFormsFacts(e: Expr, c: real, rel: Rel)
    requires Lin(e).NonLinear? && RatioForms(e, c).Some?
    ensures ShownExpr(e, rel) && FormExpr(e, c)
  {
  }

  lemma RatioPatternTransparent(env: Env, e: Expr, rel: Rel, c: real)
    requires EnvValid(env) && Tabled(env, e) && Lin(e).NonLinear? && RatioForms(e, c).Some?
    ensures LeafTransparent(env.table, Quants(e), FloorsOf(env, Quants(e)), PatternInner(env, e, rel, c))
      <==> RatioKeeps(env, Quants(e), RatioForms(e, c).value)
  {
    hide Lin, Named, Kept, Quants, Tabled, Minus, ScaledBy, EnvValid, FloorsOf, AtomOf, HardQuantities, HardForced;
    EnvSizes(env);
    ClearedNames(env, e, c);
    NonLinearRatio(e.op, e.l, e.r);
    var n, d, f := Lin(e.l).form, Lin(e.r).form, RatioForms(e, c).value;
    var inner := PatternInner(env, e, rel, c);
    assert inner == RatioInner(env, n, d, rel, c);
    KeptNamed(f.den.terms);
    KeptNamed(f.cleared.terms);
    var qs, kept := Quants(e), Kept(f.den.terms) + Kept(f.cleared.terms);
    if d.terms != [] {
      RatioShows(env, n, d, rel, c);
    } else {
      AtomOfShape(env, f.cleared.terms, if d.k < 0.0 then RelFlipped(rel) else rel, -f.cleared.k);
      NothingKept();
    }
    assert Hards(env.table, qs) <= kept <==> Hards(env.table, qs) <= Hards(env.table, kept);
    assert HardQuantities(env.table, inner) == Hards(env.table, kept);
  }

  lemma NothingKept()
    ensures Kept([]) == {}
  {
  }

  lemma LinearFalse(env: Env, ev: Event, rel: Rel, l: Expr, r: Expr)
    requires Lin(l).Form? && Lin(r).Form? && SoftMissing(env, ev, Quants(l) + Quants(r))
    ensures CompareTruth(Reading(env.table, ev), rel, l, r) == F
  {
    hide Lin, Eval, Quants;
    var read := Reading(env.table, ev);
    FormNames(l);
    FormNames(r);
    LinNonValue(read, l);
    LinNonValue(read, r);
    MissingReads(env, ev, Quants(l));
    MissingReads(env, ev, Quants(r));
    var q :| q in Quants(l) + Quants(r) && env.table.absence(q) == Soft && !ev.has(q);
    assert read(q).NonValue?;
  }

  /** A linear cut with its size guards: the guarded leaf is what the encoder makes
      of it, it is compiled, and it has the interpreter's three-valued truth on
      every event, a soft absence winning over a hard one. */
  lemma LinearCutTruth(env: Env, ev: Event, id: nat, rel: Rel, l: Expr, r: Expr)
    requires EnvValid(env) && EventFits(env, ev) && Tabled(env, l) && Tabled(env, r)
    requires Lin(l).Form? && Lin(r).Form? && ev.reading(id) != U
    ensures var c := Relation(rel, l, r);
      && CutFormula(env, c) == Encode(env.table, CutLeaf(env, id, c))
      && LeafCompiled(env.table, CutQuants(c), FloorsOf(env, CutQuants(c)), CutInner(env, c))
      && Truth(env.table, ev, CutLeaf(env, id, c)) == CompareTruth(Reading(env.table, ev), rel, l, r)
  {
    hide Lin, EnvValid, EventFits, Tabled, LeafCompiled, CutInner, CutFormula, FloorsOf, CompareTruth, Quants, Missing,
      Project, View;
    var c := Relation(rel, l, r);
    var told := ev.(reading := _ => CompareTruth(Reading(env.table, ev), rel, l, r));
    ShownIsLeaf(env, c, id);
    OverFormsCompiled(env, c);
    FormsRegular(env, ev, l);
    FormsRegular(env, ev, r);
    SameData(env, ev, told, c);
    LeafTruthIsCutTruth(env, told, c, id);
    if SoftMissing(env, ev, CutQuants(c)) { LinearFalse(env, ev, rel, l, r); }
    SameMissing(env, ev, told, CutQuants(c));
  }

  /** A form that is not constant has no operand to be regular about. */
  lemma FormsRegular(env: Env, ev: Event, e: Expr)
    requires Lin(e).Form?
    ensures Regular(env, ev, e)
  {
    if IsConstTree(e) { ConstRegular(env, ev, e); }
  }

  lemma {:induction false} ConstRegular(env: Env, ev: Event, e: Expr)
    requires IsConstTree(e) && ConstValue(e).Val?
    ensures Regular(env, ev, e)
  {
    hide Quants;
    var read := Reading(env.table, ev);
    ConstEval(read, e);
    match e
    case Abs(a) =>
    case Extremum(least, args) =>
      if args != [] { ExtremumMeans(read, least, args, Eq, 0.0); }
      forall a | a in args ensures Steady(env, ev, a) && Regular(env, ev, a) {
        ConstEval(read, a);
        ConstRegular(env, ev, a);
      }
    case _ =>
  }

  lemma SameMissing(env: Env, ev: Event, told: Event, qs: set<QuantityId>)
    requires told.has == ev.has && told.value == ev.value
    ensures forall k: Absence :: Missing(env.table, told, qs, k) == Missing(env.table, ev, qs, k)
    ensures View(env.table, told) == View(env.table, ev)
  {
  }

  // ----- minima and maxima -----

  /** No argument folds to a constant: forms that name something, absolute values
      of such against a bound they can meet, and minima and maxima of these. */
  predicate Varying(e: Expr, c: real) {
    if Lin(e).Form? then Lin(e).form.terms != []
    else
      match e
      case Abs(a) => c >= 0.0 && Lin(a).Form? && Lin(a).form.terms != []
      case Extremum(_, args) => args != [] && forall a | a in args :: Varying(a, c)
      case _ => false
  }

  /** The quantities that survive in some form of the expression. */
  function KeptIn(e: Expr): set<QuantityId> {
    if Lin(e).Form? then Kept(Lin(e).form.terms)
    else
      match e
      case Abs(a) => if Lin(a).Form? then Kept(Lin(a).form.terms) else {}
      case Extremum(_, args) => set a, q | a in args && q in KeptIn(a) :: q
      case _ => {}
  }

  /** An exact clause that shows these event data. */
  ghost predicate Shows(table: Table, f: Formula, qs: set<QuantityId>) {
    IsExact(f) && Clause(table, f) && HardQuantities(table, f) == Hards(table, qs)
  }

  lemma GuardShows(env: Env, quants: set<QuantityId>, f: Formula, qs: set<QuantityId>)
    requires EnvValid(env) && Shows(env.table, f, qs)
    ensures Shows(env.table, GuardPresence(env.table, quants, f), qs)
  {
    hide GuardPresence, HardQuantities, HardForced, Clause, FNot;
    EnvTable(env);
    ConstNotClause(env.table);
    PresenceGuard(env.table, quants, f);
    GuardPresenceExact(env.table, quants, f);
  }

  lemma AtomVaries(env: Env, ts: seq<Term>, rel: Rel, k: real)
    requires SizesValid(env) && PlainQuants(env, Named(ts)) && ts != [] && IsInequality(rel)
    ensures Shows(env.table, AtomOf(env.sizes, ts, rel, k), Kept(ts))
  {
    hide HardQuantities, HardForced, Clause, MakeAtom, Kept;
    AtomOfShape(env, ts, rel, k);
    PlainAtomExact(env, ts, rel, k);
  }

  lemma AbsVaries(env: Env, f: LinExpr, rel: Rel, c: real)
    requires SizesValid(env) && PlainQuants(env, Named(f.terms)) && f.terms != [] && IsInequality(rel)
    ensures Shows(env.table, AbsExpansion(env, f, rel, c), Kept(f.terms))
  {
    hide AtomOf, Kept, HardQuantities, Clause, FAnd, FOr;
    var upper, lower := rel, match rel
      case Lt => Gt
      case Le => Ge
      case Gt => Lt
      case Ge => Le
      case Eq => Eq
      case Ne => Ne;
    var a, b := AtomOf(env.sizes, f.terms, upper, c - f.k), AtomOf(env.sizes, f.terms, lower, -c - f.k);
    AtomVaries(env, f.terms, upper, c - f.k);
    AtomVaries(env, f.terms, lower, -c - f.k);
    AbsExact(env, f, rel, c);
    AllShow(env.table, [a, b], [Kept(f.terms), Kept(f.terms)]);
    Twice(Kept(f.terms));
  }

  lemma Twice(qs: set<QuantityId>)
    ensures Union([qs, qs]) == qs
  {
    var s := [qs, qs];
    assert s[0] == qs;
  }

  function Union(sets: seq<set<QuantityId>>): set<QuantityId> { set s, q | s in sets && q in s :: q }

  /** Conjoined or disjoined, clauses show what each of them does. */
  lemma AllShow(table: Table, parts: seq<Formula>, shown: seq<set<QuantityId>>)
    requires |parts| == |shown| > 0 && forall i :: 0 <= i < |parts| ==> Shows(table, parts[i], shown[i])
    ensures Shows(table, FAnd(parts), Union(shown)) && Shows(table, FOr(parts), Union(shown))
  {
    hide FAnd, FOr, Clause, HardQuantities;
    ConstNotClause(table);
    assert False !in parts && True !in parts;
    ExactParts(parts);
    ExactAlternatives(parts);
    assert Clause(table, parts[0]);
    ClauseOfAnd(table, parts);
    ClauseOfOr(table, parts);
    HardOfAnd(table, parts);
    HardOfOr(table, parts);
    forall q | q in HardOfAll(table, parts) ensures q in Hards(table, Union(shown)) {
      var x :| x in parts && q in HardQuantities(table, x);
      var i :| 0 <= i < |parts| && parts[i] == x;
      assert shown[i] in shown && q in Hards(table, shown[i]);
    }
    forall q | q in Hards(table, Union(shown)) ensures q in HardOfAll(table, parts) {
      var s :| s in shown && q in s;
      var i :| 0 <= i < |shown| && shown[i] == s;
      assert parts[i] in parts && q in Hards(table, shown[i]);
    }
  }

  /** The size guards beside a clause show no event datum. */
  lemma BehindFloors(env: Env, floors: seq<Floor>, f: Formula, qs: set<QuantityId>)
    requires FloorsPlain(env.table, floors) && Shows(env.table, f, qs)
    ensures Shows(env.table, FAnd(FloorAtoms(floors) + [f]), qs)
  {
    hide FAnd, Clause, HardQuantities, HardForced;
    var parts := FloorAtoms(floors) + [f];
    var shown := seq(|floors|, i => {}) + [qs];
    FloorAtomsHold(floors, OverSide, _ => 0.0);
    forall i | 0 <= i < |parts| ensures Shows(env.table, parts[i], shown[i]) {
      if i < |floors| { FloorAtom(env.table, floors[i]); }
    }
    AllShow(env.table, parts, shown);
    assert shown[|floors|] == qs;
    assert Union(shown) == qs;
  }

  lemma ExtremumShows(env: Env, least: bool, args: seq<Expr>, rel: Rel, c: real)
    requires EnvValid(env) && IsInequality(rel) && args != []
    requires forall a | a in args :: Sturdy(a) && Shows(env.table, ArgCompare(env, a, rel, c), KeptIn(a))
    ensures Shows(env.table, ExtremumInner(env, least, args, rel, ArgParts(env, args, rel, c)), Union(KeptAll(args)))
  {
    hide FAnd, FOr, Clause, HardQuantities, ArgCompare, KeptIn, FloorsOf, Sturdy, GuardPresence;
    var parts := ArgParts(env, args, rel, c);
    EnvSizes(env);
    AllShow(env.table, parts, KeptAll(args));
    FloorsOfPlain(env, AllQuants(args));
    BehindFloors(env, FloorsOf(env, AllQuants(args)), if SomeDecides(least, rel) then FOr(parts) else FAnd(parts), Union(KeptAll(args)));
  }

  function KeptAll(args: seq<Expr>): seq<set<QuantityId>> { seq(|args|, i requires 0 <= i < |args| => KeptIn(args[i])) }

  lemma KeptOfExtremum(least: bool, args: seq<Expr>)
    requires !Lin(Extremum(least, args)).Form?
    ensures KeptIn(Extremum(least, args)) == Union(KeptAll(args))
  {
    var all := KeptAll(args);
    forall q | q in KeptIn(Extremum(least, args)) ensures q in Union(all) {
      var a :| a in args && q in KeptIn(a);
      var i :| 0 <= i < |args| && args[i] == a;
      assert all[i] in all;
    }
    forall q | q in Union(all) ensures q in KeptIn(Extremum(least, args)) {
      var s :| s in all && q in s;
      var i :| 0 <= i < |all| && all[i] == s;
      assert args[i] in args;
    }
  }

  /** An argument that does not fold compiles to a clause that shows what survives. */
  lemma {:induction false} VaryingShows(env: Env, e: Expr, rel: Rel, c: real)
    requires EnvValid(env) && Tabled(env, e) && Sturdy(e) && Varying(e, c) && !Lin(e).NonFinite? && IsInequality(rel)
    ensures Shows(env.table, ArgCompare(env, e, rel, c), KeptIn(e))
    decreases e, 1
  {
    hide Lin, Shows, GuardPresence, AtomOf, AbsExpansion, Kept, Named, Tabled, EnvValid, Quants;
    EnvSizes(env);
    match Lin(e)
    case Form(f) =>
      FormsNamed(env, e, e);
      AtomVaries(env, f.terms, rel, c - f.k);
      GuardShows(env, f.mentioned, AtomOf(env.sizes, f.terms, rel, c - f.k), KeptIn(e));
    case NonLinear =>
      match e {
        case Abs(a) =>
          OperandForms(env, e);
          AbsVaries(env, Lin(a).form, rel, c);
          GuardShows(env, Lin(a).form.mentioned, AbsExpansion(env, Lin(a).form, rel, c), KeptIn(e));
        case Extremum(least, args) => VaryingExtremum(env, least, args, rel, c);
      }
  }

  lemma {:induction false} VaryingExtremum(env: Env, least: bool, args: seq<Expr>, rel: Rel, c: real)
    requires EnvValid(env) && Tabled(env, Extremum(least, args)) && Lin(Extremum(least, args)).NonLinear? && IsInequality(rel)
    requires args != [] && forall a | a in args :: Sturdy(a) && Varying(a, c)
    ensures Shows(env.table, PatternInner(env, Extremum(least, args), rel, c), KeptIn(Extremum(least, args)))
    ensures Shows(env.table, ArgCompare(env, Extremum(least, args), rel, c), KeptIn(Extremum(least, args)))
    decreases args, 0
  {
    hide Lin, Shows, GuardPresence, ExtremumInner, ArgCompare, Tabled, EnvValid, Quants, Sturdy, Varying, KeptIn,
      ExtremumCompare;
    forall a | a in args ensures Shows(env.table, ArgCompare(env, a, rel, c), KeptIn(a)) {
      ArgQuants(env, least, args, a);
      VaryingFinite(a, c);
      VaryingShows(env, a, rel, c);
    }
    ExtremumShows(env, least, args, rel, c);
    KeptOfExtremum(least, args);
    ArgPartsExact(env, args, rel, c);
    ExtremumTaken(env, least, args, rel, ArgParts(env, args, rel, c));
    var inner := ExtremumInner(env, least, args, rel, ArgParts(env, args, rel, c));
    GuardShows(env, AllQuants(args), inner, KeptIn(Extremum(least, args)));
    ExtremumCompiles(env, least, args, rel, c);
  }

  lemma ExtremumCompiles(env: Env, least: bool, args: seq<Expr>, rel: Rel, c: real)
    requires Lin(Extremum(least, args)).NonLinear? && IsInequality(rel)
    ensures ArgCompare(env, Extremum(least, args), rel, c) == ExtremumCompare(env, least, args, rel, ArgParts(env, args, rel, c))
  {
    hide Lin, ExtremumCompare;
  }

  lemma VaryingFinite(e: Expr, c: real)
    requires Varying(e, c)
    ensures !Lin(e).NonFinite?
  {
    VaryingReads(e, c);
  }

  lemma {:induction false} VaryingReads(e: Expr, c: real)
    requires Varying(e, c)
    ensures !IsConstTree(e)
  {
    if e.Extremum? && !Lin(e).Form? { VaryingReads(e.args[0], c); }
  }

  predicate SpreadExpr(e: Expr, rel: Rel, c: real) { e.Extremum? && ShownExpr(e, rel) && Varying(e, c) }

  /** The minimum or maximum of a comparison with a constant. */
  function Spread(c: Cut): Option<Expr> {
    match c
    case Relation(rel, l, r) =>
      (match (Lin(l), Lin(r))
       case (NonLinear, Form(b)) => if b.terms == [] && SpreadExpr(l, rel, b.k) then Some(l) else None
       case (Form(a), NonLinear) => if a.terms == [] && SpreadExpr(r, RelFlipped(rel), a.k) then Some(r) else None
       case _ => None)
    case _ => None
  }

  lemma SpreadSolid(env: Env, e: Expr, rel: Rel, c: real)
    requires EnvValid(env) && Tabled(env, e) && SpreadExpr(e, rel, c)
    ensures Shows(env.table, PatternInner(env, e, rel, c), KeptIn(e)) && Solid(env, Quants(e), PatternInner(env, e, rel, c))
  {
    hide Lin, Quants, Tabled, EnvValid, PatternInner, HardQuantities, Clause, KeptIn, Sturdy;
    SpreadArguments(e, rel, c);
    VaryingExtremum(env, e.least, e.args, rel, c);
    ConstNotClause(env.table);
  }

  lemma SpreadArguments(e: Expr, rel: Rel, c: real)
    requires SpreadExpr(e, rel, c)
    ensures e.args != [] && forall a | a in e.args :: Sturdy(a) && Varying(a, c)
  {
    hide Lin, Sturdy;
  }

  /** A minimum or maximum over arguments that do not fold is compiled, and shows
      all that it reads if and only if every event datum survives in some argument
      and element properties without size guards stand beside no forced one. */
  lemma ExtremumTransparent(env: Env, c: Cut)
    requires EnvValid(env) && CutTabled(env, c) && Spread(c).Some?
    ensures LeafCompiled(env.table, CutQuants(c), FloorsOf(env, CutQuants(c)), CutInner(env, c))
    ensures Transparent(env, c) <==>
      && Hards(env.table, CutQuants(c)) <= KeptIn(Spread(c).value)
      && (HasSoft(env.table, CutQuants(c)) && FloorsOf(env, CutQuants(c)) == [] ==> HardForced(env.table, CutInner(env, c)) == {})
  {
    hide Lin, LeafCompiled, Quants, Tabled, EnvValid, FloorsOf, PatternInner, ShownExpr, Varying, KeptIn, HardQuantities,
      HardForced,
      Solid, Clause;
    match c
    case Relation(rel, l, r) =>
      match (Lin(l), Lin(r)) {
        case (NonLinear, Form(b)) =>
          ConstantNames(r);
          assert CutQuants(c) == Quants(l);
          SpreadSolid(env, l, rel, b.k);
        case (Form(a), NonLinear) =>
          ConstantNames(l);
          assert CutQuants(c) == Quants(r);
          SpreadSolid(env, r, RelFlipped(rel), a.k);
      }
      CompiledCut(env, c);
      assert HardQuantities(env.table, CutInner(env, c)) == Hards(env.table, KeptIn(Spread(c).value));
  }
}
