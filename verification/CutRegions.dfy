/** Regions whose conditions are comparisons: the encoder's formulas, and every
    verdict drawn from them, are true of what the interpreter computes. */
module CutRegions {
  import opened Linear
  import opened Formulas
  import opened Conditions
  import opened Negation
  import opened PartialTruth
  import opened Exactness
  import opened NegationLimits
  import opened LinearForms
  import opened Comparisons
  import opened ComparisonTruth
  import opened Cuts
  import opened CutLeaves
  import opened Regions
  import opened Solving
  import opened Verdicts
  import opened EventVerdicts

  // ----- one comparison -----

  /** The event reads the comparison as its encoding assumes: operands have values
      when their data are present, and event data are present or shown. */
  ghost predicate CutFits(env: Env, ev: Event, c: Cut) {
    && CutTabled(env, c) && CutRegular(env, ev, c) && Shaped(env.table, CutFormula(env, c))
    && (DataThere(env.table, ev, CutQuants(c)) || Transparent(env, c))
  }

  lemma CutAgrees(env: Env, ev: Event, c: Cut)
    requires EnvValid(env) && EventFits(env, ev) && CutFits(env, ev, c)
    ensures Agrees(env.table, ev, CutFormula(env, c), CutTruth(Reading(env.table, ev), c))
  {
    hide EnvValid, EventFits, CutTabled, CutRegular, Shaped, CutFormula, CutTruth, CutQuants, Agrees, Transparent, DataThere;
    if DataThere(env.table, ev, CutQuants(c)) { PresentAgrees(env, ev, c); } else { TransparentAgrees(env, ev, c); }
  }

  /** Negating an exactly compiled comparison is right on an event if and only if
      an unreadable verdict shows a missing event datum, and a false one has read
      every event datum that its encoding's falsity forces. */
  lemma CutNegationExact(env: Env, ev: Event, c: Cut)
    requires EnvValid(env) && EventFits(env, ev) && CutTabled(env, c) && CutRegular(env, ev, c) && IsExact(CutFormula(env, c))
    ensures var f, t := CutFormula(env, c), CutTruth(Reading(env.table, ev), c);
      NegationSound(env.table, ev, f, t) <==>
        && (t == U ==> !Known(ev, HardQuantities(env.table, f)))
        && (t == F ==> Known(ev, HardForced(env.table, f)))
  {
    hide EnvValid, EventFits, CutTabled, CutRegular, CutFormula, CutTruth, Negate, Project, HardQuantities, HardForced, View;
    EnvTable(env);
    CutJudges(env, ev, c);
    ExactProjectionsAgree(CutFormula(env, c));
    NegateMeans(env.table, ev, CutFormula(env, c));
  }

  // ----- conditions made of comparisons -----

  /** Every comparison of the condition is one of the given cuts, as the encoder
      leaves it; what is taken apart are the size guards of bounded expansions. */
  ghost predicate OfCuts(env: Env, cuts: seq<Cut>, c: Cond) {
    match c
    case Comparison(id, f) => id < |cuts| && f == CutFormula(env, cuts[id])
    case Leaf(_, quants, floors, inner) =>
      && floors == [] && NormalFormula(inner)
      && LeafCompiled(env.table, quants, floors, inner) && LeafTransparent(env.table, quants, floors, inner)
    case Between(upper, lower, _) => OfCuts(env, cuts, upper) && OfCuts(env, cuts, lower)
    case All(parts) => forall x | x in parts :: OfCuts(env, cuts, x)
    case Any(parts) => forall x | x in parts :: OfCuts(env, cuts, x)
    case Not(arg) => OfCuts(env, cuts, arg)
    case Ternary(g, t, e) => OfCuts(env, cuts, g) && OfCuts(env, cuts, t) && OfCuts(env, cuts, e)
    case _ => true
  }

  /** The interpreter evaluates every cut, by its arithmetic on the event. */
  ghost predicate Interpreted(env: Env, cuts: seq<Cut>, ev: Event) {
    && EventFits(env, ev)
    && forall id :: 0 <= id < |cuts| ==>
      ev.reading(id) == CutTruth(Reading(env.table, ev), cuts[id]) && CutFits(env, ev, cuts[id])
  }

  /** Brackets bracket, and undecided ternaries survive. */
  ghost predicate Bracketing(table: Table, ev: Event, c: Cond) {
    match c
    case Between(upper, lower, id) =>
      && Bracketing(table, ev, upper) && Bracketing(table, ev, lower)
      && Bracketed(Truth(table, ev, upper), Truth(table, ev, lower), ev.reading(id))
    case All(parts) => forall x | x in parts :: Bracketing(table, ev, x)
    case Any(parts) => forall x | x in parts :: Bracketing(table, ev, x)
    case Not(arg) => Bracketing(table, ev, arg)
    case Ternary(g, t, e) =>
      && Bracketing(table, ev, g) && Bracketing(table, ev, t) && Bracketing(table, ev, e)
      && (Undecided(table, ev, g, t, e) ==> Retained(table, ev, Encode(table, c)))
    case _ => true
  }

  lemma {:induction false} CutsFit(env: Env, cuts: seq<Cut>, ev: Event, c: Cond)
    requires EnvValid(env) && OfCuts(env, cuts, c) && Interpreted(env, cuts, ev) && Bracketing(env.table, ev, c)
    ensures CondFits(env.table, ev, c)
  {
    hide EnvValid, EventFits, CutFits, Agrees, CutFormula, CutTruth, Truth, Encode, LeafCompiled, LeafTransparent, Retained;
    match c
    case Comparison(id, _) => CutAgrees(env, ev, cuts[id]);
    case Leaf(_, _, _, _) =>
    case Between(upper, lower, _) => CutsFit(env, cuts, ev, upper); CutsFit(env, cuts, ev, lower);
    case All(parts) => forall x | x in parts { CutsFit(env, cuts, ev, x); }
    case Any(parts) => forall x | x in parts { CutsFit(env, cuts, ev, x); }
    case Not(arg) => CutsFit(env, cuts, ev, arg);
    case Ternary(g, t, e) => CutsFit(env, cuts, ev, g); CutsFit(env, cuts, ev, t); CutsFit(env, cuts, ev, e);
    case _ =>
  }

  // ----- regions made of comparisons -----

  ghost predicate UnitOfCuts(env: Env, cuts: seq<Cut>, regions: Unit) {
    forall r, i :: 0 <= r < |regions| && 0 <= i < |regions[r]| && HasCond(regions[r][i]) ==> OfCuts(env, cuts, regions[r][i].cond)
  }

  ghost predicate UnitBrackets(table: Table, ev: Event, regions: Unit) {
    forall r, i :: 0 <= r < |regions| && 0 <= i < |regions[r]| && HasCond(regions[r][i]) ==> Bracketing(table, ev, regions[r][i].cond)
  }

  lemma UnitFitsCuts(env: Env, cuts: seq<Cut>, regions: Unit, ev: Event)
    requires EnvValid(env) && UnitOfCuts(env, cuts, regions) && Interpreted(env, cuts, ev)
    requires UnitBrackets(env.table, ev, regions)
    ensures ValidEvent(env.table, ev) && UnitFits(env.table, ev, regions)
  {
    hide EnvValid, EventFits, Interpreted, OfCuts, Bracketing, Compiled, Fits;
    assert EventFits(env, ev) by { InterpretedFits(env, cuts, ev); }
    FitsIsValid(env, ev);
    forall r, i | 0 <= r < |regions| && 0 <= i < |regions[r]| && HasCond(regions[r][i])
      ensures CondFits(env.table, ev, regions[r][i].cond)
    {
      CutsFit(env, cuts, ev, regions[r][i].cond);
    }
  }

  lemma InterpretedFits(env: Env, cuts: seq<Cut>, ev: Event)
    requires Interpreted(env, cuts, ev)
    ensures EventFits(env, ev)
  {
  }

  /** Regions of comparisons: an event that the interpreter puts into the region
      satisfies the over-projection of every flattened statement, and one that
      satisfies every under-projection is put there. */
  lemma CutRegionSound(env: Env, cuts: seq<Cut>, regions: Unit, r: nat, ev: Event)
    requires EnvValid(env) && r < |regions|
    requires UnitOfCuts(env, cuts, regions) && Interpreted(env, cuts, ev) && UnitBrackets(env.table, ev, regions)
    ensures Plain(Flattened(regions, regions[r], [r]))
    ensures RegionTruth(env.table, ev, regions, r) == T
      ==> AllSat(FlatFormulas(env.table, Flattened(regions, regions[r], [r])), OverSide, View(env.table, ev))
    ensures AllSat(FlatFormulas(env.table, Flattened(regions, regions[r], [r])), UnderSide, View(env.table, ev))
      ==> RegionTruth(env.table, ev, regions, r) == T
  {
    hide Interpreted, UnitOfCuts, UnitBrackets, EventFits, EnvValid, UnitFits, Flattened, FlatFormulas, RegionTruth;
    EnvTable(env);
    UnitFitsCuts(env, cuts, regions, ev);
    RegionSound(env.table, ev, regions, r);
  }

  /** Every event of the interpreter of which the background is true is admitted,
      so each verdict about admitted events is one about regions of comparisons. */
  lemma CutsAdmitted(env: Env, cuts: seq<Cut>, regions: Unit, bg: Background, ev: Event)
    requires EnvValid(env) && UnitOfCuts(env, cuts, regions)
    requires Interpreted(env, cuts, ev) && UnitBrackets(env.table, ev, regions) && BackgroundHolds(bg, View(env.table, ev))
    ensures Admitted(env.table, regions, bg, ev)
  {
    hide Interpreted, UnitOfCuts, UnitBrackets, EnvValid, UnitFits, BackgroundHolds, ValidEvent;
    UnitFitsCuts(env, cuts, regions, ev);
  }

  /** The event as the interpreter reads it. */
  function Interpretation(env: Env, cuts: seq<Cut>, ev: Event): Event {
    ev.(reading := (id: nat) => if id < |cuts| then CutTruth(Reading(env.table, ev), cuts[id]) else U)
  }

  /** Whatever an event's data, there is an event with those data that the
      interpreter has read. */
  lemma InterpretationExists(env: Env, cuts: seq<Cut>, ev: Event)
    requires EventFits(env, ev) && forall c | c in cuts :: CutFits(env, ev, c)
    ensures Interpreted(env, cuts, Interpretation(env, cuts, ev))
  {
    hide EventFits, CutTruth, CutRegular, Transparent, CutTabled, CutFormula, CutQuants, Shaped;
    var told := Interpretation(env, cuts, ev);
    forall id | 0 <= id < |cuts| ensures CutFits(env, told, cuts[id]) {
      assert cuts[id] in cuts;
      SameData(env, ev, told, cuts[id]);
    }
    assert Reading(env.table, told) == Reading(env.table, ev);
    if cuts != [] { SameData(env, ev, told, cuts[0]); } else { SameData(env, ev, told, Range(true, Num(0.0), 0.0, 0.0)); }
  }

  /** A pair report about regions of comparisons says what it says of every event
      that the interpreter reads, certified or honestly solved. */
  lemma CutPairSound(env: Env, cuts: seq<Cut>, regions: Unit, bg: Background, certify: bool, oracle: Oracle, sorts: Sorts,
      i: nat, j: nat, kind: PairKind, ev: Event)
    requires EnvValid(env) && UnitOfCuts(env, cuts, regions)
    requires PairSound(env.table, regions, bg, certify, oracle, sorts, i, j, kind)
    requires Interpreted(env, cuts, ev) && UnitBrackets(env.table, ev, regions) && BackgroundHolds(bg, View(env.table, ev))
    requires Trusted(env.table, certify, oracle, sorts, ev)
    ensures kind.ByInterval? || kind.ByCore? ==>
      !(RegionTruth(env.table, ev, regions, i) == T && RegionTruth(env.table, ev, regions, j) == T)
    ensures kind.NotDisjoint? && kind.aInB && RegionTruth(env.table, ev, regions, i) == T ==> RegionTruth(env.table, ev, regions, j) == T
    ensures kind.NotDisjoint? && kind.bInA && RegionTruth(env.table, ev, regions, j) == T ==> RegionTruth(env.table, ev, regions, i) == T
  {
    hide Interpreted, UnitOfCuts, UnitBrackets, EnvValid, BackgroundHolds, Admitted, Trusted, RegionTruth;
    CutsAdmitted(env, cuts, regions, bg, ev);
    assert In(env.table, ev, regions, i) <==> RegionTruth(env.table, ev, regions, i) == T;
    assert In(env.table, ev, regions, j) <==> RegionTruth(env.table, ev, regions, j) == T;
  }

  // ----- encoded comparisons keep atoms in normal form -----

  lemma AtomNormal(env: Env, terms: seq<Term>, rel: Rel, k: real)
    ensures NormalFormula(AtomOf(env.sizes, terms, rel, k))
  {
    NormalizeSound(terms);
  }

  lemma PairNormal(a: Formula, b: Formula)
    requires NormalFormula(a) && NormalFormula(b)
    ensures NormalFormula(FAnd([a, b])) && NormalFormula(FOr([a, b]))
  {
    hide FAnd, FOr, NormalFormula;
    AndNormal([a, b]);
    OrNormal([a, b]);
  }

  lemma PresenceNormal(table: Table, quants: set<QuantityId>, f: Formula)
    requires NormalFormula(f)
    ensures NormalFormula(GuardPresence(table, quants, f))
  {
    hide FAnd, NormalFormula;
    var needed := Ascending(set q | q in quants && table.MayBeAbsent(q));
    GuardNormal(seq(|needed|, i requires 0 <= i < |needed| => table.presentOf(needed[i])), f);
  }

  lemma AbsNormal(env: Env, f: LinExpr, rel: Rel, c: real)
    ensures NormalFormula(AbsExpansion(env, f, rel, c))
  {
    hide AtomOf, FAnd, FOr, NormalFormula;
    var upper, lower := rel, match rel
      case Lt => Gt
      case Le => Ge
      case Gt => Lt
      case Ge => Le
      case Eq => Eq
      case Ne => Ne;
    AtomNormal(env, f.terms, upper, c - f.k);
    AtomNormal(env, f.terms, lower, -c - f.k);
    PairNormal(AtomOf(env.sizes, f.terms, upper, c - f.k), AtomOf(env.sizes, f.terms, lower, -c - f.k));
  }

  lemma RatioNormal(env: Env, num: Expr, den: Expr, rel: Rel, c: real)
    ensures NormalFormula(Ratio(env, num, den, rel, c))
  {
    hide AtomOf, FAnd, FOr, NormalFormula, GuardPresence, Minus, ScaledBy, LinOrOpaque;
    ConstNormal();
    if LinOrOpaque(env, num).Form? && LinOrOpaque(env, den).Form? {
      var l, d := LinOrOpaque(env, num).form, LinOrOpaque(env, den).form;
      var e, flipped := Minus(l, ScaledBy(d, c)), if d.k < 0.0 then RelFlipped(rel) else rel;
      var dPos, ePos := AtomOf(env.sizes, d.terms, Gt, -d.k), AtomOf(env.sizes, e.terms, rel, -e.k);
      var dNeg, eNeg := AtomOf(env.sizes, d.terms, Lt, -d.k), AtomOf(env.sizes, e.terms, RelFlipped(rel), -e.k);
      AtomNormal(env, d.terms, Gt, -d.k);
      AtomNormal(env, d.terms, Lt, -d.k);
      AtomNormal(env, e.terms, rel, -e.k);
      AtomNormal(env, e.terms, flipped, -e.k);
      AtomNormal(env, e.terms, RelFlipped(rel), -e.k);
      PairNormal(dPos, ePos);
      PairNormal(dNeg, eNeg);
      PairNormal(FAnd([dPos, ePos]), FAnd([dNeg, eNeg]));
      PresenceNormal(env.table, l.mentioned + d.mentioned, FOr([FAnd([dPos, ePos]), FAnd([dNeg, eNeg])]));
      PresenceNormal(env.table, l.mentioned + d.mentioned, AtomOf(env.sizes, e.terms, flipped, -e.k));
    }
  }

  lemma ConstNormal()
    ensures NormalFormula(True) && NormalFormula(False) && NormalFormula(Unknown(0))
  {
  }

  lemma OpaqueNormal(env: Env, e: Expr, rel: Rel, c: real)
    ensures NormalFormula(OpaqueAtom(env, e, rel, c))
  {
    hide AtomOf, NormalFormula, GuardPresence;
    var q := env.opaqueOf(e);
    AtomNormal(env, [Term(1.0, q)], rel, c);
    PresenceNormal(env.table, {q}, AtomOf(env.sizes, [Term(1.0, q)], rel, c));
  }

  lemma AbsCompareNormal(env: Env, inner: Expr, rel: Rel, c: real)
    ensures NormalFormula(AbsCompare(env, inner, rel, c))
  {
    hide NormalFormula, GuardPresence, AbsExpansion, OpaqueAtom, Lin;
    ConstNormal();
    PresenceNormal(env.table, Quants(inner), True);
    PresenceNormal(env.table, Quants(inner), False);
    OpaqueNormal(env, Abs(inner), rel, c);
    if Lin(inner).Form? {
      AbsNormal(env, Lin(inner).form, rel, c);
      PresenceNormal(env.table, Lin(inner).form.mentioned, AbsExpansion(env, Lin(inner).form, rel, c));
    }
  }

  lemma ExtremumNormal(env: Env, least: bool, args: seq<Expr>, rel: Rel, parts: seq<Formula>)
    requires |parts| == |args| && NormalFormulas(parts)
    ensures NormalFormula(ExtremumCompare(env, least, args, rel, parts))
  {
    hide NormalFormula, GuardPresence, FAnd, FOr, OpaqueMarks, ExactQuants, FloorsOf;
    var present := ExactQuants(args, parts);
    var floors, combined := FloorsOf(env, present), if SomeDecides(least, rel) then FOr(parts) else FAnd(parts);
    ConstNormal();
    AndNormal(parts);
    OrNormal(parts);
    MarksMean(parts);
    var all := FloorAtoms(floors) + OpaqueMarks(parts) + [combined];
    forall i | 0 <= i < |all| ensures NormalFormula(all[i]) {
      if i < |floors| { FloorNormal(floors[i]); }
    }
    AndNormal(all);
    PresenceNormal(env.table, present, FAnd(all));
  }

  lemma FloorNormal(floor: Floor)
    ensures NormalFormula(Atom(floor.AsAtom()))
  {
    SingleIsMake(floor.size, Gt, floor.bound as real);
  }

  lemma {:induction false} PatternNormal(env: Env, e: Expr, rel: Rel, c: real)
    ensures NormalFormula(Pattern(env, e, rel, c))
    decreases e, 0
  {
    hide NormalFormula, AbsCompare, ExtremumCompare, Ratio, OpaqueAtom;
    ConstNormal();
    OpaqueNormal(env, e, rel, c);
    match e
    case Abs(a) => AbsCompareNormal(env, a, rel, c);
    case Extremum(least, args) =>
      var parts := ArgParts(env, args, rel, c);
      forall i | 0 <= i < |args| ensures NormalFormula(parts[i]) { ArgNormal(env, args[i], rel, c); }
      ExtremumNormal(env, least, args, rel, parts);
    case Bin(op, l, r) => RatioNormal(env, l, r, rel, c);
    case _ =>
  }

  lemma {:induction false} ArgNormal(env: Env, e: Expr, rel: Rel, c: real)
    ensures NormalFormula(ArgCompare(env, e, rel, c))
    decreases e, 1
  {
    hide NormalFormula, Pattern, GuardPresence, AtomOf, Lin;
    ConstNormal();
    PatternNormal(env, e, rel, c);
    if Lin(e).Form? {
      var f := Lin(e).form;
      AtomNormal(env, f.terms, rel, c - f.k);
      PresenceNormal(env.table, f.mentioned, AtomOf(env.sizes, f.terms, rel, c - f.k));
    }
  }

  lemma RelationNormal(env: Env, rel: Rel, l: Expr, r: Expr)
    ensures NormalFormula(Compare(env, rel, l, r))
  {
    hide NormalFormula, Pattern, GuardPresence, AtomOf, Lin, Minus;
    ConstNormal();
    match (Lin(l), Lin(r))
    case (Form(a), Form(b)) =>
      var d := Minus(a, b);
      AtomNormal(env, d.terms, rel, -d.k);
      PresenceNormal(env.table, d.mentioned, AtomOf(env.sizes, d.terms, rel, -d.k));
    case (NonLinear, Form(b)) => PatternNormal(env, l, rel, b.k);
    case (Form(a), NonLinear) => PatternNormal(env, r, RelFlipped(rel), a.k);
    case _ =>
  }

  lemma BandNormal(env: Env, inside: bool, e: Expr, lo: real, hi: real)
    ensures NormalFormula(Band(env, inside, e, lo, hi))
  {
    hide NormalFormula, Pattern, GuardPresence, AtomOf, Lin, FAnd, FOr;
    ConstNormal();
    var r, s := if inside then Ge else Le, if inside then Le else Ge;
    match Lin(e)
    case Form(f) =>
      var a, b := AtomOf(env.sizes, f.terms, r, lo - f.k), AtomOf(env.sizes, f.terms, s, hi - f.k);
      AtomNormal(env, f.terms, r, lo - f.k);
      AtomNormal(env, f.terms, s, hi - f.k);
      PairNormal(a, b);
      PresenceNormal(env.table, f.mentioned, if inside then FAnd([a, b]) else FOr([a, b]));
    case NonFinite =>
    case NonLinear =>
      var a, b := Pattern(env, e, r, lo), Pattern(env, e, s, hi);
      PatternNormal(env, e, r, lo);
      PatternNormal(env, e, s, hi);
      PairNormal(a, b);
      PresenceNormal(env.table, Quants(e), if inside then FAnd([a, b]) else FOr([a, b]));
  }

  lemma CutNormal(env: Env, c: Cut)
    ensures NormalFormula(CutFormula(env, c))
  {
    hide NormalFormula, Compare, Band, GuardExistence, FloorsOf;
    match c {
      case Relation(rel, l, r) => RelationNormal(env, rel, l, r);
      case Range(inside, e, lo, hi) => BandNormal(env, inside, e, lo, hi);
    }
    FloorsNormal(FloorsOf(env, CutQuants(c)), Bare(env, c));
  }

  lemma {:induction false} OfCutsNormal(env: Env, cuts: seq<Cut>, c: Cond)
    requires OfCuts(env, cuts, c)
    ensures NormalCond(c)
  {
    hide NormalFormula, CutFormula, LeafCompiled, LeafTransparent;
    match c
    case Comparison(id, _) => CutNormal(env, cuts[id]);
    case Between(upper, lower, _) => OfCutsNormal(env, cuts, upper); OfCutsNormal(env, cuts, lower);
    case All(parts) => forall x | x in parts { OfCutsNormal(env, cuts, x); }
    case Any(parts) => forall x | x in parts { OfCutsNormal(env, cuts, x); }
    case Not(arg) => OfCutsNormal(env, cuts, arg);
    case Ternary(g, t, e) => OfCutsNormal(env, cuts, g); OfCutsNormal(env, cuts, t); OfCutsNormal(env, cuts, e);
    case _ =>
  }

  /** So the pipeline accepts regions of comparisons as they are. */
  lemma UnitOfCutsNormal(env: Env, cuts: seq<Cut>, regions: Unit)
    requires UnitOfCuts(env, cuts, regions)
    ensures NormalUnit(regions)
  {
    hide NormalCond, OfCuts;
    forall r, i | 0 <= r < |regions| && 0 <= i < |regions[r]| && HasCond(regions[r][i]) ensures NormalCond(regions[r][i].cond) {
      OfCutsNormal(env, cuts, regions[r][i].cond);
    }
  }

  // ----- a concrete failure -----

  /** The square of the event scalar 3, which the encoder interns as scalar 5. */
  const SQUARE := Expr.Bin(Mul, Quant(3), Quant(3))

  const SQUARE_ENV := Env(SAMPLE, q => q == 0, {SQUARE}, _ => 5, _ => [])

  /** Neither has a value. */
  const SQUARELESS := Event(_ => 0.0, q => q != 3 && q != 5, _ => U)

  lemma SquareFits()
    ensures EnvValid(SQUARE_ENV) && EventFits(SQUARE_ENV, SQUARELESS)
    ensures Lin(SQUARE) == NonLinear && Eval(Reading(SAMPLE, SQUARELESS), SQUARE) == Blocked
    ensures Eval(Reading(SAMPLE, SQUARELESS), Num(5.0)) == Val(5.0)
  {
    SampleValid();
    assert Lin(Quant(3)) == Form(LinExpr([Term(1.0, 3)], 0.0, {3}));
    assert Eval(Reading(SAMPLE, SQUARELESS), Quant(3)) == Blocked;
  }

  /** Rejecting `s * s < 5` claims the event in which the scalar s is unreadable:
      the product is interned as a value that is softly absent. */
  lemma SquareClaimsEvent()
    ensures EnvValid(SQUARE_ENV) && EventFits(SQUARE_ENV, SQUARELESS)
    ensures CutTruth(Reading(SAMPLE, SQUARELESS), Relation(Lt, SQUARE, Num(5.0))) == U
    ensures Sat(Negate(SAMPLE, CutFormula(SQUARE_ENV, Relation(Lt, SQUARE, Num(5.0)))), UnderSide, View(SAMPLE, SQUARELESS))
  {
    hide Negate, Project, Lin, Eval, EnvValid, EventFits, CutFormula, HardQuantities, View;
    SquareFits();
    SquareFormula();
    SampleValid();
    NegateMeans(SAMPLE, SQUARELESS, CutFormula(SQUARE_ENV, Relation(Lt, SQUARE, Num(5.0))));
    FitsIsValid(SQUARE_ENV, SQUARELESS);
    GuardPresenceMeans(SAMPLE, SQUARELESS, {5}, AtomOf(SQUARE_ENV.sizes, [Term(1.0, 5)], Lt, 5.0), OverSide);
    PlainAtomExact(SQUARE_ENV, [Term(1.0, 5)], Lt, 5.0);
  }

  lemma SquareFormula()
    ensures CutFormula(SQUARE_ENV, Relation(Lt, SQUARE, Num(5.0)))
      == GuardPresence(SAMPLE, {5}, AtomOf(SQUARE_ENV.sizes, [Term(1.0, 5)], Lt, 5.0))
    ensures HardQuantities(SAMPLE, CutFormula(SQUARE_ENV, Relation(Lt, SQUARE, Num(5.0)))) == {}
  {
    hide GuardPresence, AtomOf, HardQuantities, FloorsOf;
    var c := Relation(Lt, SQUARE, Num(5.0));
    assert Lin(Quant(3)) == Form(LinExpr([Term(1.0, 3)], 0.0, {3}));
    NoFloors(SQUARE_ENV, CutQuants(c));
    assert Compare(SQUARE_ENV, Lt, SQUARE, Num(5.0)) == OpaqueAtom(SQUARE_ENV, SQUARE, Lt, 5.0);
    SquareFits();
    OpaqueWithin(SQUARE_ENV, SQUARE, Lt, 5.0, {});
  }
}
