/** Comparisons as the encoder leaves them, guards and all, agree with the
    interpreter's verdict on every partial event. */
module Cuts {
  import opened Linear
  import opened Formulas
  import opened Conditions
  import opened Negation
  import opened PartialTruth
  import opened Exactness
  import opened LinearForms
  import opened Comparisons
  import opened ComparisonTruth
  import opened ShownData

  datatype Cut =
    | Relation(rel: Rel, l: Expr, r: Expr)
    | Range(inside: bool, e: Expr, lo: real, hi: real)

  function CutQuants(c: Cut): set<QuantityId> {
    match c
    case Relation(_, l, r) => Quants(l) + Quants(r)
    case Range(_, e, _, _) => Quants(e)
  }

  /** The interpreter's verdict. */
  function CutTruth(read: QuantityId -> Num3, c: Cut): Tri {
    match c
    case Relation(rel, l, r) => CompareTruth(read, rel, l, r)
    case Range(inside, e, lo, hi) => BandTruth(read, inside, e, lo, hi)
  }

  /** `leaf_inner`: the comparison without its size guards. */
  function Bare(env: Env, c: Cut): Formula {
    match c
    case Relation(rel, l, r) => Compare(env, rel, l, r)
    case Range(inside, e, lo, hi) => Band(env, inside, e, lo, hi)
  }

  /** `leaf`: the comparison as the encoder leaves it. */
  function CutFormula(env: Env, c: Cut): Formula { GuardExistence(FloorsOf(env, CutQuants(c)), Bare(env, c)) }

  /** The table holds what compiling the comparison asks for. */
  ghost predicate CutTabled(env: Env, c: Cut) {
    match c
    case Relation(_, l, r) => Tabled(env, l) && Tabled(env, r)
    case Range(_, e, _, _) => Tabled(env, e)
  }

  ghost predicate CutRegular(env: Env, ev: Event, c: Cut) {
    match c
    case Relation(_, l, r) => Regular(env, ev, l) && Regular(env, ev, r)
    case Range(_, e, _, _) => Regular(env, ev, e)
  }

  // ----- the verdict is bracketed -----

  lemma BareJudges(env: Env, ev: Event, c: Cut)
    requires EnvValid(env) && EventFits(env, ev) && CutTabled(env, c) && CutRegular(env, ev, c)
    ensures Judges(Bare(env, c), View(env.table, ev), CutTruth(Reading(env.table, ev), c) == T)
  {
    hide Compare, Band, Tabled, Regular, EnvValid, EventFits, Judges, View;
    match c
    case Relation(rel, l, r) => CompareJudges(env, ev, rel, l, r);
    case Range(inside, e, lo, hi) => BandJudges(env, ev, inside, e, lo, hi);
  }

  lemma TrueIsKnown(env: Env, ev: Event, c: Cut)
    requires CutTruth(Reading(env.table, ev), c) == T
    ensures Known(ev, CutQuants(c))
  {
    hide Eval, Quants;
    match c
    case Relation(rel, l, r) =>
      ValuesAreKnown(env, ev, l);
      ValuesAreKnown(env, ev, r);
    case Range(inside, e, lo, hi) => ValuesAreKnown(env, ev, e);
  }

  /** Size guards included, the encoding keeps every event on which the comparison
      is true and claims no other. */
  lemma CutJudges(env: Env, ev: Event, c: Cut)
    requires EnvValid(env) && EventFits(env, ev) && CutTabled(env, c) && CutRegular(env, ev, c)
    ensures Judges(CutFormula(env, c), View(env.table, ev), CutTruth(Reading(env.table, ev), c) == T)
  {
    hide Bare, CutTabled, CutRegular, EnvValid, EventFits, View, FAnd, FloorsOf, CutTruth, CutQuants, Project;
    var floors, v := FloorsOf(env, CutQuants(c)), View(env.table, ev);
    BareJudges(env, ev, c);
    FitsFloors(env, ev, CutQuants(c));
    if CutTruth(Reading(env.table, ev), c) == T { TrueIsKnown(env, ev, c); }
    FloorsMean(floors, Bare(env, c), OverSide, v);
    FloorsMean(floors, Bare(env, c), UnderSide, v);
  }

  // ----- with every event datum present the verdict is definite -----

  lemma {:induction false} NeverBlocked(read: QuantityId -> Num3, e: Expr)
    requires forall q | q in Quants(e) :: !read(q).Blocked?
    ensures !Eval(read, e).Blocked?
    decreases e, 1
  {
    match e
    case Neg(a) => NeverBlocked(read, a);
    case Abs(a) => NeverBlocked(read, a);
    case Bin(_, l, r) => NeverBlocked(read, l); NeverBlocked(read, r);
    case Extremum(least, args) => if args != [] { ExtremumNeverBlocked(read, least, args); }
    case _ =>
  }

  lemma {:induction false} ExtremumNeverBlocked(read: QuantityId -> Num3, least: bool, args: seq<Expr>)
    requires args != [] && forall a, q | a in args && q in Quants(a) :: !read(q).Blocked?
    ensures !EvalExtremum(read, least, args).Blocked?
    decreases args, 0
  {
    NeverBlocked(read, args[|args| - 1]);
    if |args| > 1 { ExtremumNeverBlocked(read, least, args[..|args| - 1]); }
  }

  lemma DataThereReads(table: Table, ev: Event, qs: set<QuantityId>)
    requires ValidEvent(table, ev) && DataThere(table, ev, qs)
    ensures forall q | q in qs :: !Reading(table, ev)(q).Blocked?
  {
    forall q | q in qs ensures !Reading(table, ev)(q).Blocked? {
    }
  }

  lemma Definite(table: Table, ev: Event, c: Cut)
    requires ValidEvent(table, ev) && DataThere(table, ev, CutQuants(c))
    ensures CutTruth(Reading(table, ev), c) != U
  {
    hide Eval, Quants, Reading;
    DataThereReads(table, ev, CutQuants(c));
    match c
    case Relation(rel, l, r) =>
      NeverBlocked(Reading(table, ev), l);
      NeverBlocked(Reading(table, ev), r);
    case Range(inside, e, lo, hi) => NeverBlocked(Reading(table, ev), e);
  }

  // ----- a comparison shows no event datum that it does not read -----

  lemma PairWithin(table: Table, a: Formula, b: Formula, qs: set<QuantityId>)
    requires HardQuantities(table, a) <= qs && HardQuantities(table, b) <= qs
    ensures HardQuantities(table, FAnd([a, b])) <= qs && HardQuantities(table, FOr([a, b])) <= qs
  {
    hide HardQuantities, FAnd, FOr;
    AndShows(table, [a, b], qs);
  }

  lemma GuardWithin(table: Table, quants: set<QuantityId>, f: Formula, qs: set<QuantityId>)
    requires table.Valid() && HardQuantities(table, f) <= qs
    ensures HardQuantities(table, GuardPresence(table, quants, f)) <= qs
  {
    hide HardQuantities, FAnd;
    var order := Ascending(set q | q in quants && table.MayBeAbsent(q));
    var ids := seq(|order|, i requires 0 <= i < |order| => table.presentOf(order[i]));
    GuardShowsNothing(table, ids, f, qs);
  }

  lemma FloorsWithin(env: Env, floors: seq<Floor>, f: Formula, qs: set<QuantityId>)
    requires FloorsPlain(env.table, floors) && HardQuantities(env.table, f) <= qs
    ensures HardQuantities(env.table, GuardExistence(floors, f)) <= qs
  {
    hide HardQuantities, FAnd;
    var parts := seq(|floors|, i requires 0 <= i < |floors| => Atom(floors[i].AsAtom())) + [f];
    forall i | 0 <= i < |parts| ensures HardQuantities(env.table, parts[i]) <= qs {
      if i < |floors| { FloorAtom(env.table, floors[i]); }
    }
    AndShows(env.table, parts, qs);
  }

  lemma FloorsOfPlain(env: Env, qs: set<QuantityId>)
    requires SizesValid(env)
    ensures FloorsPlain(env.table, FloorsOf(env, qs))
  {
    hide FloorsOf;
    forall i | 0 <= i < |FloorsOf(env, qs)| ensures env.sizes(FloorsOf(env, qs)[i].size) { FloorsOfMember(env, qs, i); }
  }

  /** The atoms of a form show only what it names. */
  lemma FormWithin(env: Env, terms: seq<Term>, rel: Rel, k: real, qs: set<QuantityId>)
    requires SizesValid(env) && PlainQuants(env, Named(terms)) && Hards(env.table, Named(terms)) <= qs
    ensures HardQuantities(env.table, AtomOf(env.sizes, terms, rel, k)) <= qs
  {
    hide AtomOf, HardQuantities, Clause;
    AtomOfShape(env, terms, rel, k);
  }

  lemma OpaqueWithin(env: Env, e: Expr, rel: Rel, c: real, qs: set<QuantityId>)
    requires EnvValid(env) && e in env.interned
    ensures HardQuantities(env.table, OpaqueAtom(env, e, rel, c)) <= qs
  {
    hide AtomOf, HardQuantities, GuardPresence, Clause;
    var q := env.opaqueOf(e);
    assert IsOpaque(env, q);
    NamedCons(Term(1.0, q), []);
    assert Named([]) == {};
    AtomOfShape(env, [Term(1.0, q)], rel, c);
    GuardWithin(env.table, {q}, AtomOf(env.sizes, [Term(1.0, q)], rel, c), qs);
  }

  /** A form or its scalar: what it names is plain, and its event data are the
      expression's. */
  lemma OrOpaqueNames(env: Env, e: Expr)
    requires EnvValid(env) && Tabled(env, e) && LinOrOpaque(env, e).Form?
    ensures var f := LinOrOpaque(env, e).form;
      && f.mentioned == Named(f.terms) && PlainQuants(env, Named(f.terms))
      && Hards(env.table, Named(f.terms)) <= Quants(e)
      && (Lin(e).Form? ==> Names(f, Quants(e)))
  {
    hide Lin, Quants, Opaques;
    OperandQuants(env, e);
    if Lin(e).Form? {
      FormNames(e);
    } else {
      var q := env.opaqueOf(e);
      NamedCons(Term(1.0, q), []);
      assert Named([]) == {};
      assert IsOpaque(env, q);
    }
  }

  lemma AbsWithin(env: Env, f: LinExpr, rel: Rel, c: real, qs: set<QuantityId>)
    requires SizesValid(env) && PlainQuants(env, Named(f.terms)) && Hards(env.table, Named(f.terms)) <= qs
    ensures HardQuantities(env.table, AbsExpansion(env, f, rel, c)) <= qs
  {
    hide AtomOf, HardQuantities, FAnd, FOr;
    var upper, lower := rel, match rel
      case Lt => Gt
      case Le => Ge
      case Gt => Lt
      case Ge => Le
      case Eq => Eq
      case Ne => Ne;
    FormWithin(env, f.terms, upper, c - f.k, qs);
    FormWithin(env, f.terms, lower, -c - f.k, qs);
    PairWithin(env.table, AtomOf(env.sizes, f.terms, upper, c - f.k), AtomOf(env.sizes, f.terms, lower, -c - f.k), qs);
  }

  lemma RatioWithin(env: Env, num: Expr, den: Expr, rel: Rel, c: real)
    requires EnvValid(env) && Tabled(env, num) && Tabled(env, den)
    ensures HardQuantities(env.table, Ratio(env, num, den, rel, c)) <= Quants(num) + Quants(den)
  {
    hide AtomOf, HardQuantities, FAnd, FOr, GuardPresence, Quants, Lin, Minus, ScaledBy, Tabled, LinOrOpaque;
    NothingHard(env.table);
    UnknownHard(env.table);
    var qs := Quants(num) + Quants(den);
    if LinOrOpaque(env, num).Form? && LinOrOpaque(env, den).Form? {
      var l, d := LinOrOpaque(env, num).form, LinOrOpaque(env, den).form;
      OrOpaqueNames(env, num);
      OrOpaqueNames(env, den);
      PlusNames(l, d, c);
      var e := Minus(l, ScaledBy(d, c));
      var flipped := if d.k < 0.0 then RelFlipped(rel) else rel;
      var dPos, ePos := AtomOf(env.sizes, d.terms, Gt, -d.k), AtomOf(env.sizes, e.terms, rel, -e.k);
      var dNeg, eNeg := AtomOf(env.sizes, d.terms, Lt, -d.k), AtomOf(env.sizes, e.terms, RelFlipped(rel), -e.k);
      FormWithin(env, d.terms, Gt, -d.k, qs);
      FormWithin(env, d.terms, Lt, -d.k, qs);
      FormWithin(env, e.terms, rel, -e.k, qs);
      FormWithin(env, e.terms, RelFlipped(rel), -e.k, qs);
      PairWithin(env.table, dPos, ePos, qs);
      PairWithin(env.table, dNeg, eNeg, qs);
      PairWithin(env.table, FAnd([dPos, ePos]), FAnd([dNeg, eNeg]), qs);
      GuardWithin(env.table, l.mentioned + d.mentioned, FOr([FAnd([dPos, ePos]), FAnd([dNeg, eNeg])]), qs);
      GuardWithin(env.table, l.mentioned + d.mentioned, AtomOf(env.sizes, e.terms, flipped, -e.k), qs);
    }
  }

  lemma MarksWithin(table: Table, parts: seq<Formula>)
    ensures forall i :: 0 <= i < |OpaqueMarks(parts)| ==> HardQuantities(table, OpaqueMarks(parts)[i]) == {}
  {
    hide OpaqueMarks;
    MarksMean(parts);
  }

  lemma ExtremumWithin(env: Env, least: bool, args: seq<Expr>, rel: Rel, parts: seq<Formula>, qs: set<QuantityId>)
    requires EnvValid(env) && |args| == |parts|
    requires forall i :: 0 <= i < |parts| ==> HardQuantities(env.table, parts[i]) <= qs
    ensures HardQuantities(env.table, ExtremumCompare(env, least, args, rel, parts)) <= qs
  {
    hide HardQuantities, FAnd, FOr, GuardPresence, ExactQuants, OpaqueMarks, FloorsOf;
    var present := ExactQuants(args, parts);
    var floors := FloorsOf(env, present);
    var combined := if SomeDecides(least, rel) then FOr(parts) else FAnd(parts);
    AndShows(env.table, parts, qs);
    MarksWithin(env.table, parts);
    FloorsOfPlain(env, present);
    var all := FloorAtoms(floors) + OpaqueMarks(parts) + [combined];
    forall i | 0 <= i < |all| ensures HardQuantities(env.table, all[i]) <= qs {
      if i < |floors| { FloorAtom(env.table, floors[i]); }
    }
    AndShows(env.table, all, qs);
    GuardWithin(env.table, present, FAnd(all), qs);
  }

  lemma {:induction false} PatternWithin(env: Env, e: Expr, rel: Rel, c: real)
    requires EnvValid(env) && Tabled(env, e) && Lin(e).NonLinear?
    ensures HardQuantities(env.table, Pattern(env, e, rel, c)) <= Quants(e)
    decreases e, 0
  {
    hide HardQuantities, EnvValid, Tabled, Lin, Ratio, OpaqueAtom, ExtremumCompare, AbsCompare, Quants;
    OperandQuants(env, e);
    NothingHard(env.table);
    match e
    case Abs(a) => AbsCompareWithin(env, a, rel, c);
    case Extremum(least, args) =>
      if SomeDecides(least, rel) || EachComplies(least, rel) {
        var parts := seq(|args|, i requires 0 <= i < |args| => ArgCompare(env, args[i], rel, c));
        forall i | 0 <= i < |args| ensures HardQuantities(env.table, parts[i]) <= Quants(e) {
          ArgQuants(env, least, args, args[i]);
          ArgWithin(env, args[i], rel, c);
          PartQuants(least, args, i);
        }
        ExtremumWithin(env, least, args, rel, parts, Quants(e));
      } else {
        UnknownHard(env.table);
      }
    case Bin(op, l, r) =>
      BinQuants(op, l, r);
      if op == Div { RatioWithin(env, l, r, rel, c); } else { OpaqueWithin(env, e, rel, c, Quants(e)); }
    case _ => OpaqueWithin(env, e, rel, c, Quants(e));
  }

  lemma UnknownHard(table: Table)
    ensures HardQuantities(table, Unknown(0)) == {}
  {
  }

  lemma PartQuants(least: bool, args: seq<Expr>, i: nat)
    requires i < |args|
    ensures Quants(args[i]) <= Quants(Extremum(least, args))
  {
    assert args[i] in args;
  }

  lemma BinQuants(op: ArithOp, l: Expr, r: Expr)
    ensures Quants(Bin(op, l, r)) == Quants(l) + Quants(r)
  {
  }

  lemma AbsCompareWithin(env: Env, inner: Expr, rel: Rel, c: real)
    requires EnvValid(env) && Tabled(env, Abs(inner))
    ensures HardQuantities(env.table, AbsCompare(env, inner, rel, c)) <= Quants(Abs(inner))
  {
    hide HardQuantities, Lin, OpaqueAtom, AbsExpansion, GuardPresence;
    NothingHard(env.table);
    AbsNeeds(env, inner);
    var qs := Quants(Abs(inner));
    assert qs == Quants(inner);
    GuardWithin(env.table, Quants(inner), False, qs);
    GuardWithin(env.table, Quants(inner), True, qs);
    match Lin(inner)
    case Form(f) =>
      FormNames(inner);
      if c >= 0.0 {
        AbsWithin(env, f, rel, c, qs);
        GuardWithin(env.table, f.mentioned, AbsExpansion(env, f, rel, c), qs);
      }
    case NonLinear => if c >= 0.0 { OpaqueWithin(env, Abs(inner), rel, c, qs); }
    case NonFinite =>
  }

  lemma {:induction false} ArgWithin(env: Env, e: Expr, rel: Rel, c: real)
    requires EnvValid(env) && Tabled(env, e)
    ensures HardQuantities(env.table, ArgCompare(env, e, rel, c)) <= Quants(e)
    decreases e, 1
  {
    hide HardQuantities, EnvValid, Tabled, Lin, Pattern, GuardPresence, AtomOf, Quants;
    NothingHard(env.table);
    OperandQuants(env, e);
    match Lin(e)
    case Form(f) => GuardedFormWithin(env, e, f.terms, rel, c - f.k, Quants(e));
    case NonFinite =>
    case NonLinear => PatternWithin(env, e, rel, c);
  }

  lemma GuardedFormWithin(env: Env, e: Expr, terms: seq<Term>, rel: Rel, k: real, qs: set<QuantityId>)
    requires EnvValid(env) && Tabled(env, e) && Lin(e).Form? && Lin(e).form.terms == terms && Quants(e) <= qs
    ensures HardQuantities(env.table, GuardPresence(env.table, Lin(e).form.mentioned, AtomOf(env.sizes, terms, rel, k))) <= qs
  {
    hide HardQuantities, Lin, GuardPresence, AtomOf, Quants;
    FormNames(e);
    FormWithin(env, terms, rel, k, qs);
    GuardWithin(env.table, Lin(e).form.mentioned, AtomOf(env.sizes, terms, rel, k), qs);
  }

  lemma CompareWithin(env: Env, rel: Rel, l: Expr, r: Expr)
    requires EnvValid(env) && Tabled(env, l) && Tabled(env, r)
    ensures HardQuantities(env.table, Compare(env, rel, l, r)) <= Quants(l) + Quants(r)
  {
    hide HardQuantities, EnvValid, Tabled, Lin, Pattern, Quants, Minus, AtomOf, GuardPresence;
    NothingHard(env.table);
    UnknownHard(env.table);
    match (Lin(l), Lin(r))
    case (Form(a), Form(b)) => FormsWithin(env, rel, l, r);
    case (NonLinear, Form(b)) => PatternWithin(env, l, rel, b.k);
    case (Form(a), NonLinear) => PatternWithin(env, r, RelFlipped(rel), a.k);
    case _ =>
  }

  lemma FormsWithin(env: Env, rel: Rel, l: Expr, r: Expr)
    requires EnvValid(env) && Tabled(env, l) && Tabled(env, r) && Lin(l).Form? && Lin(r).Form?
    ensures var d := Minus(Lin(l).form, Lin(r).form);
      && HardQuantities(env.table, GuardPresence(env.table, d.mentioned, AtomOf(env.sizes, d.terms, rel, -d.k))) <= Quants(l) + Quants(r)
      && PlainQuants(env, Named(d.terms)) && Names(d, Quants(l) + Quants(r))
  {
    hide HardQuantities, Lin, GuardPresence, AtomOf, Quants, Merge, Scale;
    var a, b := Lin(l).form, Lin(r).form;
    var d := Minus(a, b);
    FormNames(l);
    FormNames(r);
    PlusNames(a, b, 1.0);
    FormWithin(env, d.terms, rel, -d.k, Quants(l) + Quants(r));
    GuardWithin(env.table, d.mentioned, AtomOf(env.sizes, d.terms, rel, -d.k), Quants(l) + Quants(r));
  }

  lemma BandWithin(env: Env, inside: bool, e: Expr, lo: real, hi: real)
    requires EnvValid(env) && Tabled(env, e)
    ensures HardQuantities(env.table, Band(env, inside, e, lo, hi)) <= Quants(e)
  {
    hide HardQuantities, EnvValid, Tabled, Lin, Pattern, Quants, GuardPresence, AtomOf, FAnd, FOr;
    NothingHard(env.table);
    EnvTable(env);
    var r, s := if inside then Ge else Le, if inside then Le else Ge;
    match Lin(e)
    case Form(f) =>
      var a, b := AtomOf(env.sizes, f.terms, r, lo - f.k), AtomOf(env.sizes, f.terms, s, hi - f.k);
      BareFormWithin(env, e, r, lo - f.k);
      BareFormWithin(env, e, s, hi - f.k);
      PairWithin(env.table, a, b, Quants(e));
      GuardWithin(env.table, f.mentioned, if inside then FAnd([a, b]) else FOr([a, b]), Quants(e));
    case NonFinite =>
    case NonLinear =>
      var a, b := Pattern(env, e, r, lo), Pattern(env, e, s, hi);
      PatternWithin(env, e, r, lo);
      PatternWithin(env, e, s, hi);
      PairWithin(env.table, a, b, Quants(e));
      GuardWithin(env.table, Quants(e), if inside then FAnd([a, b]) else FOr([a, b]), Quants(e));
  }

  lemma BareFormWithin(env: Env, e: Expr, rel: Rel, k: real)
    requires EnvValid(env) && Tabled(env, e) && Lin(e).Form?
    ensures HardQuantities(env.table, AtomOf(env.sizes, Lin(e).form.terms, rel, k)) <= Quants(e)
  {
    hide HardQuantities, Lin, AtomOf, Quants;
    FormNames(e);
    FormWithin(env, Lin(e).form.terms, rel, k, Quants(e));
  }

  /** An encoded comparison shows no event datum that the comparison does not read. */
  lemma CutWithin(env: Env, c: Cut)
    requires EnvValid(env) && CutTabled(env, c)
    ensures HardQuantities(env.table, Bare(env, c)) <= CutQuants(c)
    ensures HardQuantities(env.table, CutFormula(env, c)) <= CutQuants(c)
  {
    hide HardQuantities, Tabled, Compare, Band, Quants, GuardExistence, FloorsOf;
    match c {
      case Relation(rel, l, r) => CompareWithin(env, rel, l, r);
      case Range(inside, e, lo, hi) => BandWithin(env, inside, e, lo, hi);
    }
    FloorsOfPlain(env, CutQuants(c));
    FloorsWithin(env, FloorsOf(env, CutQuants(c)), Bare(env, c), CutQuants(c));
  }

  /** When every event datum of a comparison is present, its encoding agrees with
      the interpreter: linear or not, exact or not, whatever else is absent. */
  lemma PresentAgrees(env: Env, ev: Event, c: Cut)
    requires EnvValid(env) && EventFits(env, ev) && CutTabled(env, c) && CutRegular(env, ev, c)
    requires Shaped(env.table, CutFormula(env, c)) && DataThere(env.table, ev, CutQuants(c))
    ensures Agrees(env.table, ev, CutFormula(env, c), CutTruth(Reading(env.table, ev), c))
  {
    hide EnvValid, EventFits, CutTabled, CutRegular, CutFormula, CutTruth, CutQuants, HardQuantities, ForcedByFalsity,
      FNot, Project, View,
      Shaped;
    var f := CutFormula(env, c);
    CutJudges(env, ev, c);
    FitsIsValid(env, ev);
    Definite(env.table, ev, c);
    CutWithin(env, c);
    HardOfNot(env.table, f);
    forall q | q in HardForced(env.table, f) || q in HardForced(env.table, FNot(f)) ensures ev.has(q) {
      if q in HardForced(env.table, f) { ForcedSubset(env.table, f, q); } else { ForcedSubset(env.table, FNot(f), q); }
      assert q in Hards(env.table, CutQuants(c));
    }
  }
}
