/** Filter predicates over one element: their truth, their encoding, and what
    membership in a filtered collection says about an element. */
module ElementPredicates {
  import opened Linear
  import opened Formulas
  import opened Saturation
  import opened Conditions
  import opened LinearForms
  import opened ComparisonTruth
  import opened ComparisonLimits
  import opened Collections

  type Reader = QuantityId -> Num3

  /** What the interpreter says, of one element, about the nodes outside the
      fragment. */
  type Foreigns = nat -> Tri

  /** A predicate on an element; a quantity is one of its properties or an event
      datum. `Foreign` is a node outside the fragment. */
  datatype Pred =
    | PBool(b: bool)
    | PAnd(items: seq<Pred>)
    | POr(items: seq<Pred>)
    | PNot(p: Pred)
    | PCmp(rel: Rel, l: Expr, r: Expr)
    | PBand(inside: bool, e: Expr, lo: real, hi: real)
    | Foreign(id: nat)

  function PTruth(read: Reader, foreign: Foreigns, p: Pred): Tri {
    match p
    case PBool(b) => if b then T else F
    case PAnd(items) =>
      if exists x | x in items :: PTruth(read, foreign, x) == F then F
      else if exists x | x in items :: PTruth(read, foreign, x) == U then U else T
    case POr(items) =>
      if exists x | x in items :: PTruth(read, foreign, x) == T then T
      else if exists x | x in items :: PTruth(read, foreign, x) == U then U else F
    case PNot(q) => TriNot(PTruth(read, foreign, q))
    case PCmp(rel, l, r) => CompareTruth(read, rel, l, r)
    case PBand(inside, e, lo, hi) => BandTruth(read, inside, e, lo, hi)
    case Foreign(id) => foreign(id)
  }

  function PQuants(p: Pred): set<QuantityId> {
    match p
    case PAnd(items) => set x, q | x in items && q in PQuants(x) :: q
    case POr(items) => set x, q | x in items && q in PQuants(x) :: q
    case PNot(q) => PQuants(q)
    case PCmp(_, l, r) => Quants(l) + Quants(r)
    case PBand(_, e, _, _) => Quants(e)
    case _ => {}
  }

  // ----- one object of a base -----

  /** What a filter reads besides the element: event data, and for every element
      what the interpreter says of the nodes outside the fragment. */
  datatype Surroundings = Surroundings(read: Reader, foreign: (nat, Object) -> Tri) {
    function On(o: Object): Foreigns { (id: nat) => foreign(id, o) }
  }

  /** What a quantity reads as over one element: its own property, or the event's. */
  function ElemReader(event: Surroundings, own: QuantityId -> Option<PropId>, o: Object): Reader {
    (q: QuantityId) => match own(q)
      case Some(p) => if p in o then Val(o[p]) else NonValue
      case None => event.read(q)
  }

  // ----- properties that membership requires -----

  /** Arithmetic over literals and the element's own properties, in which a
      missing operand is absorbing. */
  predicate AbsorbingArith(own: QuantityId -> bool, e: Expr) {
    match e
    case Num(_) => true
    case Quant(q) => own(q)
    case Neg(a) => AbsorbingArith(own, a)
    case Abs(a) => AbsorbingArith(own, a)
    case Bin(_, l, r) => AbsorbingArith(own, l) && AbsorbingArith(own, r)
    case Extremum(_, _) => false
  }

  /** The predicate cannot be true of an element that lacks the property. */
  predicate RequiresPresent(own: QuantityId -> bool, p: Pred, prop: QuantityId) {
    match p
    case PAnd(items) => exists x | x in items :: RequiresPresent(own, x, prop)
    case POr(items) => items != [] && forall x | x in items :: RequiresPresent(own, x, prop)
    case PCmp(_, l, r) => (prop in Quants(l) || prop in Quants(r)) && AbsorbingArith(own, l) && AbsorbingArith(own, r)
    case PBand(_, e, _, _) => prop in Quants(e) && AbsorbingArith(own, e)
    case _ => false
  }

  /** Membership in a filtered collection makes every required property present. */
  lemma {:induction false} RequiredIsPresent(read: Reader, foreign: Foreigns, own: QuantityId -> bool, p: Pred, prop: QuantityId)
    requires RequiresPresent(own, p, prop) && PTruth(read, foreign, p) == T
    ensures read(prop).Val?
  {
    match p
    case PAnd(items) =>
      var x :| x in items && RequiresPresent(own, x, prop);
      RequiredIsPresent(read, foreign, own, x, prop);
    case POr(items) =>
      var x :| x in items && PTruth(read, foreign, x) == T;
      RequiredIsPresent(read, foreign, own, x, prop);
    case PCmp(_, l, r) =>
      ValueNeedsQuants(read, l);
      ValueNeedsQuants(read, r);
    case PBand(_, e, _, _) => ValueNeedsQuants(read, e);
  }

  predicate HasExtremum(e: Expr) {
    match e
    case Extremum(_, _) => true
    case Neg(a) => HasExtremum(a)
    case Abs(a) => HasExtremum(a)
    case Bin(_, l, r) => HasExtremum(l) || HasExtremum(r)
    case _ => false
  }

  /** Plain arithmetic over the element's own properties. */
  predicate OwnArithmetic(own: QuantityId -> bool, e: Expr) { !HasExtremum(e) && forall q :: q in Quants(e) ==> own(q) }

  /** A leaf that no element without the property can satisfy. */
  predicate Compels(own: QuantityId -> bool, leaf: Pred, prop: QuantityId) {
    match leaf
    case PCmp(_, l, r) => prop in Quants(l) + Quants(r) && OwnArithmetic(own, l) && OwnArithmetic(own, r)
    case PBand(_, e, _, _) => prop in Quants(e) && OwnArithmetic(own, e)
    case _ => false
  }

  /** The predicate passes when its leaves are taken as that choice says; a
      disjunction of nothing counts as a leaf. */
  predicate Passes(p: Pred, choice: Pred -> bool) {
    match p
    case PAnd(items) => forall x | x in items :: Passes(x, choice)
    case POr(items) => if items == [] then choice(p) else exists x | x in items :: Passes(x, choice)
    case _ => choice(p)
  }

  lemma {:induction false} AbsorbingIsOwn(own: QuantityId -> bool, e: Expr)
    ensures AbsorbingArith(own, e) <==> OwnArithmetic(own, e)
  {
    match e
    case Neg(a) => AbsorbingIsOwn(own, a);
    case Abs(a) => AbsorbingIsOwn(own, a);
    case Bin(_, l, r) =>
      AbsorbingIsOwn(own, l);
      AbsorbingIsOwn(own, r);
    case _ =>
  }

  /** A required property is compelled by a chosen leaf however the predicate
      passes; when the others alone do not make it pass, it is required. */
  lemma {:induction false} RequiredByChoice(own: QuantityId -> bool, p: Pred, prop: QuantityId, choice: Pred -> bool)
    ensures RequiresPresent(own, p, prop) && Passes(p, choice) ==> exists leaf :: Compels(own, leaf, prop) && choice(leaf)
    ensures !RequiresPresent(own, p, prop) ==> Passes(p, leaf => !Compels(own, leaf, prop))
    decreases p
  {
    match p
    case PAnd(items) =>
      forall x | x in items
        ensures RequiresPresent(own, x, prop) && Passes(x, choice) ==> exists leaf :: Compels(own, leaf, prop) && choice(leaf)
        ensures !RequiresPresent(own, x, prop) ==> Passes(x, leaf => !Compels(own, leaf, prop))
      {
        RequiredByChoice(own, x, prop, choice);
      }
    case POr(items) =>
      forall x | x in items
        ensures RequiresPresent(own, x, prop) && Passes(x, choice) ==> exists leaf :: Compels(own, leaf, prop) && choice(leaf)
        ensures !RequiresPresent(own, x, prop) ==> Passes(x, leaf => !Compels(own, leaf, prop))
      {
        RequiredByChoice(own, x, prop, choice);
      }
    case PCmp(_, l, r) =>
      AbsorbingIsOwn(own, l);
      AbsorbingIsOwn(own, r);
    case PBand(_, e, _, _) => AbsorbingIsOwn(own, e);
    case _ =>
  }

  /** Exactly the properties that every way of passing compels are required. */
  lemma RequiredExactly(own: QuantityId -> bool, p: Pred, prop: QuantityId)
    ensures RequiresPresent(own, p, prop) <==>
      forall choice: Pred -> bool :: Passes(p, choice) ==> exists leaf :: Compels(own, leaf, prop) && choice(leaf)
  {
    hide RequiresPresent, Passes, Compels;
    forall choice: Pred -> bool
      ensures RequiresPresent(own, p, prop) && Passes(p, choice) ==> exists leaf :: Compels(own, leaf, prop) && choice(leaf)
    {
      RequiredByChoice(own, p, prop, choice);
    }
    if !RequiresPresent(own, p, prop) {
      var others: Pred -> bool := leaf => !Compels(own, leaf, prop);
      RequiredByChoice(own, p, prop, others);
      assert Passes(p, others);
    }
  }

  // ----- the exact encoding -----

  /** The predicate encoder's own linear forms: no constant folding of min, max
      and absolute values, and division only between constants. */
  function LinPred(e: Expr): Option<LinExpr> {
    match e
    case Num(r) => Some(ConstForm(r))
    case Quant(q) => Some(LinExpr([Term(1.0, q)], 0.0, {q}))
    case Neg(a) => (match LinPred(a) case Some(f) => Some(ScaledBy(f, -1.0)) case None => None)
    case Bin(op, l, r) =>
      (match (LinPred(l), LinPred(r))
       case (Some(a), Some(b)) => LinPredBinary(op, a, b)
       case _ => None)
    case _ => None
  }

  function LinPredBinary(op: ArithOp, a: LinExpr, b: LinExpr): Option<LinExpr> {
    match op
    case Add => Some(Plus(a, b))
    case Sub => Some(Minus(a, b))
    case Mul =>
      if a.terms == [] then Some(ScaledBy(b, a.k)) else if b.terms == [] then Some(ScaledBy(a, b.k)) else None
    case Div => if b.terms != [] || b.k == 0.0 || a.terms != [] then None else Some(ConstForm(a.k / b.k))
  }

  function QAtomOf(terms: seq<Term>, rel: Rel, k: real): QFormula {
    var kept := DropZeros(terms);
    if kept == [] then if RelEval(rel, 0.0, k) then QTrue else QFalse else QAtom(MakeAtom(kept, rel, k))
  }

  function Pow2(n: nat): nat { if n == 0 then 1 else 2 * Pow2(n - 1) }

  predicate IsPowerOfTwo(x: real) {
    exists n: nat | n < 64 :: AbsOf(x) == Pow2(n) as real || Times(AbsOf(x), Pow2(n) as real) == 1.0
  }

  /** `num / den rel other` for a constant power-of-two denominator. */
  function ClearRatio(side: Expr, other: Expr, rel: Rel): Option<QFormula> {
    if !side.Bin? || side.op != Div then None
    else
      match LinPred(side.r)
      case None => None
      case Some(d) =>
        if d.terms != [] then None
        else if d.k == 0.0 then Some(QFalse)
        else if !IsPowerOfTwo(d.k) then None
        else
          match (LinPred(side.l), LinPred(other))
          case (Some(l), Some(r)) =>
            var e := Minus(l, ScaledBy(r, d.k));
            Some(QAtomOf(e.terms, if d.k < 0.0 then RelFlipped(rel) else rel, -e.k))
          case _ => None
  }

  function AbsPred(inner: Expr, rel: Rel, c: real): Option<QFormula> {
    if c < 0.0 then Some(if rel == Lt || rel == Le || rel == Eq then QFalse else QTrue)
    else
      match LinPred(inner)
      case None => None
      case Some(e) =>
        var hi, lo := c - e.k, -c - e.k;
        Some(match rel
          case Lt => QAnd([QAtomOf(e.terms, Lt, hi), QAtomOf(e.terms, Gt, lo)])
          case Le => QAnd([QAtomOf(e.terms, Le, hi), QAtomOf(e.terms, Ge, lo)])
          case Gt => QOr([QAtomOf(e.terms, Gt, hi), QAtomOf(e.terms, Lt, lo)])
          case Ge => QOr([QAtomOf(e.terms, Ge, hi), QAtomOf(e.terms, Le, lo)])
          case Eq => QOr([QAtomOf(e.terms, Eq, hi), QAtomOf(e.terms, Eq, lo)])
          case Ne => QAnd([QAtomOf(e.terms, Ne, hi), QAtomOf(e.terms, Ne, lo)]))
  }

  predicate IsConstantPred(e: Expr) { LinPred(e).Some? && LinPred(e).value.terms == [] }

  function LinearPred(rel: Rel, l: Expr, r: Expr): Option<QFormula> {
    match (LinPred(l), LinPred(r))
    case (Some(a), Some(b)) => var d := Minus(a, b); Some(QAtomOf(d.terms, rel, -d.k))
    case _ => None
  }

  /** A comparison: ratios first, absolute values against a constant, then linear. */
  function CmpPred(rel: Rel, l: Expr, r: Expr): Option<QFormula> {
    if ClearRatio(l, r, rel).Some? then ClearRatio(l, r, rel)
    else if ClearRatio(r, l, RelFlipped(rel)).Some? then ClearRatio(r, l, RelFlipped(rel))
    else if l.Abs? && IsConstantPred(r) then AbsPred(l.e, rel, LinPred(r).value.k)
    else if r.Abs? && IsConstantPred(l) then AbsPred(r.e, RelFlipped(rel), LinPred(l).value.k)
    else LinearPred(rel, l, r)
  }

  function BandPred(inside: bool, e: Expr, lo: real, hi: real): Option<QFormula> {
    match LinPred(e)
    case None => None
    case Some(f) =>
      var a := QAtomOf(f.terms, if inside then Ge else Le, lo - f.k);
      var b := QAtomOf(f.terms, if inside then Le else Ge, hi - f.k);
      Some(if inside then QAnd([a, b]) else QOr([a, b]))
  }

  /** All the formulas, if every item has one. */
  function ExactAll(items: seq<Pred>): Option<seq<QFormula>> {
    if items == [] then Some([])
    else
      match (ExactAll(items[..|items| - 1]), EncodeExact(items[|items| - 1]))
      case (Some(fs), Some(f)) => Some(fs + [f])
      case _ => None
  }

  function EncodeExact(p: Pred): Option<QFormula> {
    match p
    case PBool(b) => Some(if b then QTrue else QFalse)
    case PAnd(items) => (match ExactAll(items) case Some(fs) => Some(QAnd(fs)) case None => None)
    case POr(items) => (match ExactAll(items) case Some(fs) => Some(QOr(fs)) case None => None)
    case PNot(q) => (match EncodeExact(q) case Some(f) => Some(QNot(f)) case None => None)
    case PCmp(rel, l, r) => CmpPred(rel, l, r)
    case PBand(inside, e, lo, hi) => BandPred(inside, e, lo, hi)
    case Foreign(_) => None
  }

  /** What an element axiom says: the encodable conjuncts of the predicate. */
  function Encodable(items: seq<Pred>): seq<QFormula> {
    if items == [] then []
    else
      var init := Encodable(items[..|items| - 1]);
      match EncodeExact(items[|items| - 1]) case Some(f) => init + [f] case None => init
  }

  function EncodeElemPred(p: Pred): Option<QFormula> {
    if p.PAnd? then if Encodable(p.items) == [] then None else Some(QAnd(Encodable(p.items)))
    else EncodeExact(p)
  }

  // ----- the predicate encoder's forms are the comparison encoder's -----

  lemma ConstArithmetic(a: real, b: real)
    ensures Plus(ConstForm(a), ConstForm(b)) == ConstForm(a + b)
    ensures Minus(ConstForm(a), ConstForm(b)) == ConstForm(a - b)
    ensures ScaledBy(ConstForm(a), b) == ConstForm(Times(b, a))
  {
  }

  lemma {:induction false} ConstTermsAreTrees(e: Expr)
    requires LinPred(e).Some?
    ensures LinPred(e).value.terms == [] <==> IsConstTree(e)
    ensures IsConstTree(e) ==> LinPred(e).value == ConstForm(LinPred(e).value.k) && ConstValue(e) == Val(LinPred(e).value.k)
  {
    match e
    case Num(_) =>
    case Quant(_) =>
    case Neg(a) =>
      ConstTermsAreTrees(a);
      ScaleLength(-1.0, LinPred(a).value.terms);
      ConstArithmetic(LinPred(a).value.k, -1.0);
    case Bin(op, l, r) =>
      ConstTermsAreTrees(l);
      ConstTermsAreTrees(r);
      BinaryTerms(op, LinPred(l).value, LinPred(r).value);
      ConstArithmetic(LinPred(l).value.k, LinPred(r).value.k);
      ConstArithmetic(LinPred(r).value.k, LinPred(l).value.k);
  }

  lemma BinaryTerms(op: ArithOp, a: LinExpr, b: LinExpr)
    requires LinPredBinary(op, a, b).Some?
    ensures LinPredBinary(op, a, b).value.terms == [] <==> a.terms == [] && b.terms == []
  {
    ScaleLength(-1.0, b.terms);
    ScaleLength(a.k, b.terms);
    ScaleLength(b.k, a.terms);
    MergeNonEmpty(a.terms, b.terms);
    MergeNonEmpty(a.terms, Scale(-1.0, b.terms));
  }

  /** Where the predicate encoder finds a form, it is the comparison encoder's. */
  lemma {:induction false} LinPredIsLin(e: Expr)
    requires LinPred(e).Some?
    ensures Lin(e) == Form(LinPred(e).value)
  {
    ConstTermsAreTrees(e);
    if !IsConstTree(e) {
      match e
      case Quant(_) =>
      case Neg(a) => LinPredIsLin(a);
      case Bin(op, l, r) =>
        LinPredIsLin(l);
        LinPredIsLin(r);
        ConstTermsAreTrees(l);
        ConstTermsAreTrees(r);
    }
  }

  /** A form of an expression whose quantities are all present. */
  lemma PresentForm(e: Expr, read: Reader, v: Valuation)
    requires LinPred(e).Some? && Known3(read, Quants(e)) && Extends(v, read, Quants(e))
    ensures Eval(read, e) == Val(FormValue(LinPred(e).value, v))
    ensures LinPred(e).value.terms == [] ==> FormValue(LinPred(e).value, v) == LinPred(e).value.k
  {
    hide Eval, Lin, LinPred;
    LinPredIsLin(e);
    LinSound(e, read, v);
  }

  lemma QAtomMeans(terms: seq<Term>, rel: Rel, k: real, v: Valuation)
    ensures Holds(QAtomOf(terms, rel, k), v) <==> RelEval(rel, Dot(terms, v), k)
  {
    hide MakeAtom, Normalize;
    var kept := DropZeros(terms);
    forall q ensures Coeff(kept, q) == Coeff(terms, q) { DropZerosCoeff(terms, q); }
    SameCoeffsSameDot(kept, terms, v);
    MakeAtomMeans(kept, rel, k, v);
  }

  lemma FormHolds(f: LinExpr, rel: Rel, c: real, v: Valuation)
    ensures Holds(QAtomOf(f.terms, rel, c - f.k), v) <==> RelEval(rel, FormValue(f, v), c)
  {
    hide QAtomOf, Dot;
    QAtomMeans(f.terms, rel, c - f.k, v);
  }

  // ----- comparisons -----

  lemma {:induction false} PresentNotBlocked(read: Reader, e: Expr)
    requires Known3(read, Quants(e))
    ensures !Eval(read, e).Blocked?
    decreases e, 1
  {
    match e
    case Neg(a) => PresentNotBlocked(read, a);
    case Abs(a) => PresentNotBlocked(read, a);
    case Bin(_, l, r) => PresentNotBlocked(read, l); PresentNotBlocked(read, r);
    case Extremum(least, args) => if args != [] { PresentExtremum(read, least, args); }
    case _ =>
  }

  lemma {:induction false} PresentExtremum(read: Reader, least: bool, args: seq<Expr>)
    requires args != [] && forall a | a in args :: Known3(read, Quants(a))
    ensures !EvalExtremum(read, least, args).Blocked?
    decreases args, 0
  {
    PresentNotBlocked(read, args[|args| - 1]);
    if |args| > 1 { PresentExtremum(read, least, args[..|args| - 1]); }
  }

  /** All the quantities are present, at their values in the valuation. */
  ghost predicate Present(read: Reader, v: Valuation, qs: set<QuantityId>) { Known3(read, qs) && Extends(v, read, qs) }

  predicate BothCompare(read: Reader, rel: Rel, l: Expr, r: Expr) { CompareTruth(read, rel, l, r) == T }

  lemma LinearPredMeans(rel: Rel, l: Expr, r: Expr, read: Reader, v: Valuation)
    requires Present(read, v, Quants(l)) && Present(read, v, Quants(r)) && LinearPred(rel, l, r).Some?
    ensures Holds(LinearPred(rel, l, r).value, v) <==> BothCompare(read, rel, l, r)
  {
    hide Eval, LinPred, FormValue, QAtomOf, Minus;
    PresentForm(l, read, v);
    PresentForm(r, read, v);
    var a, b := LinPred(l).value, LinPred(r).value;
    MinusValue(a, b, v);
    assert 0.0 - Minus(a, b).k == -Minus(a, b).k;
    FormHolds(Minus(a, b), rel, 0.0, v);
    RelShift(rel, FormValue(a, v), FormValue(b, v));
  }

  lemma RatioPredMeans(side: Expr, other: Expr, rel: Rel, read: Reader, v: Valuation)
    requires Present(read, v, Quants(side)) && Present(read, v, Quants(other)) && ClearRatio(side, other, rel).Some?
    ensures Holds(ClearRatio(side, other, rel).value, v) <==> BothCompare(read, rel, side, other)
  {
    hide LinPred, FormValue, QAtomOf, Minus, Eval, ScaledBy;
    var d := LinPred(side.r).value;
    OperandsPresent(side, read, v);
    RatioEval(read, side.l, side.r);
    PresentForm(side.r, read, v);
    if d.k != 0.0 {
      var l, r := LinPred(side.l).value, LinPred(other).value;
      var e, use := Minus(l, ScaledBy(r, d.k)), if d.k < 0.0 then RelFlipped(rel) else rel;
      PresentForm(side.l, read, v);
      PresentForm(other, read, v);
      MinusValue(l, ScaledBy(r, d.k), v);
      ScaledValue(r, d.k, v);
      assert 0.0 - e.k == -e.k;
      FormHolds(e, use, 0.0, v);
      RatioRel(rel, FormValue(l, v), d.k, FormValue(r, v));
      TimesSwap(FormValue(r, v), d.k);
    }
  }

  lemma OperandsPresent(e: Expr, read: Reader, v: Valuation)
    requires e.Bin? && Present(read, v, Quants(e))
    ensures Present(read, v, Quants(e.l)) && Present(read, v, Quants(e.r))
  {
  }

  /** The absolute value's operand has a value, unless only its sign matters. */
  predicate AbsSettled(read: Reader, rel: Rel, inner: Expr, c: real) {
    c >= 0.0 || NeverBelow(rel) || Eval(read, inner).Val?
  }

  lemma AbsFormMeans(inner: Expr, rel: Rel, c: real, read: Reader, v: Valuation)
    requires Present(read, v, Quants(inner)) && LinPred(inner).Some? && c >= 0.0
    ensures Holds(AbsPred(inner, rel, c).value, v) <==> Compares(read, Abs(inner), rel, c)
  {
    hide Eval, LinPred, FormValue, QAtomOf, AbsOf;
    var f := LinPred(inner).value;
    var upper, lower := rel, match rel
      case Lt => Gt
      case Le => Ge
      case Gt => Lt
      case Ge => Le
      case Eq => Eq
      case Ne => Ne;
    PresentForm(inner, read, v);
    AbsEval(read, inner, rel, c);
    AbsRel(rel, FormValue(f, v), c);
    FormHolds(f, upper, c, v);
    FormHolds(f, lower, -c, v);
    TwoHold(QAtomOf(f.terms, upper, c - f.k), QAtomOf(f.terms, lower, -c - f.k), v);
  }

  lemma TwoHold(a: QFormula, b: QFormula, v: Valuation)
    ensures Holds(QAnd([a, b]), v) <==> Holds(a, v) && Holds(b, v)
    ensures Holds(QOr([a, b]), v) <==> Holds(a, v) || Holds(b, v)
  {
    var s := [a, b];
    assert s[0] == a && s[1] == b;
    assert forall x :: x in s <==> x == a || x == b;
  }

  /** Against a negative bound the encoding is a constant, which is right if and
      only if the operand has a value or no absolute value could comply. */
  lemma AbsPredExact(inner: Expr, rel: Rel, c: real, read: Reader, v: Valuation)
    requires Present(read, v, Quants(inner)) && AbsPred(inner, rel, c).Some?
    ensures (Holds(AbsPred(inner, rel, c).value, v) <==> Compares(read, Abs(inner), rel, c)) <==> AbsSettled(read, rel, inner, c)
  {
    hide Eval, LinPred, AbsOf;
    if c >= 0.0 {
      AbsFormMeans(inner, rel, c, read, v);
    } else {
      AbsEval(read, inner, rel, c);
      if Eval(read, inner).Val? { AbsNegative(rel, Eval(read, inner).x, c); }
    }
  }

  predicate CmpSettled(read: Reader, rel: Rel, l: Expr, r: Expr) {
    && (l.Abs? && IsConstantPred(r) ==> AbsSettled(read, rel, l.e, LinPred(r).value.k))
    && (r.Abs? && IsConstantPred(l) ==> AbsSettled(read, RelFlipped(rel), r.e, LinPred(l).value.k))
  }

  lemma FlippedCompare(read: Reader, rel: Rel, l: Expr, r: Expr)
    ensures BothCompare(read, RelFlipped(rel), r, l) <==> BothCompare(read, rel, l, r)
  {
  }

  lemma ConstantCompare(read: Reader, v: Valuation, rel: Rel, e: Expr, k: Expr)
    requires IsConstantPred(k) && Present(read, v, Quants(k))
    ensures Compares(read, e, rel, LinPred(k).value.k) <==> BothCompare(read, rel, e, k)
  {
    hide Eval, LinPred, FormValue, Quants;
    PresentForm(k, read, v);
  }

  lemma AbsOperandPresent(e: Expr, read: Reader, v: Valuation)
    requires e.Abs? && Present(read, v, Quants(e))
    ensures Present(read, v, Quants(e.e))
  {
  }

  /** A comparison's exact encoding is the comparison, on elements that have what
      it mentions. */
  lemma CmpPredMeans(rel: Rel, l: Expr, r: Expr, read: Reader, v: Valuation)
    requires Present(read, v, Quants(l)) && Present(read, v, Quants(r)) && CmpPred(rel, l, r).Some? && CmpSettled(read, rel, l, r)
    ensures Holds(CmpPred(rel, l, r).value, v) <==> BothCompare(read, rel, l, r)
  {
    hide Eval, LinPred, ClearRatio, AbsPred, LinearPred, Quants, BothCompare, Compares, Present;
    if ClearRatio(l, r, rel).Some? {
      RatioPredMeans(l, r, rel, read, v);
    } else if ClearRatio(r, l, RelFlipped(rel)).Some? {
      RatioPredMeans(r, l, RelFlipped(rel), read, v);
      FlippedCompare(read, rel, l, r);
    } else if l.Abs? && IsConstantPred(r) {
      AbsOperandPresent(l, read, v);
      AbsPredExact(l.e, rel, LinPred(r).value.k, read, v);
      ConstantCompare(read, v, rel, l, r);
    } else if r.Abs? && IsConstantPred(l) {
      AbsOperandPresent(r, read, v);
      AbsPredExact(r.e, RelFlipped(rel), LinPred(l).value.k, read, v);
      ConstantCompare(read, v, RelFlipped(rel), r, l);
      FlippedCompare(read, rel, l, r);
    } else {
      LinearPredMeans(rel, l, r, read, v);
    }
  }

  lemma BandPredMeans(inside: bool, e: Expr, lo: real, hi: real, read: Reader, v: Valuation)
    requires Present(read, v, Quants(e)) && BandPred(inside, e, lo, hi).Some?
    ensures Holds(BandPred(inside, e, lo, hi).value, v) <==> BandTruth(read, inside, e, lo, hi) == T
  {
    hide Eval, LinPred, FormValue, QAtomOf;
    var f := LinPred(e).value;
    PresentForm(e, read, v);
    FormHolds(f, if inside then Ge else Le, lo, v);
    FormHolds(f, if inside then Le else Ge, hi, v);
    TwoHold(QAtomOf(f.terms, if inside then Ge else Le, lo - f.k), QAtomOf(f.terms, if inside then Le else Ge, hi - f.k), v);
  }

  // ----- whole predicates -----

  /** Every absolute value against a negative constant has a settled operand. */
  predicate Settled(read: Reader, p: Pred) {
    match p
    case PAnd(items) => forall x | x in items :: Settled(read, x)
    case POr(items) => forall x | x in items :: Settled(read, x)
    case PNot(q) => Settled(read, q)
    case PCmp(rel, l, r) => CmpSettled(read, rel, l, r)
    case _ => true
  }

  /** The item-by-item encodings, when all exist. */
  lemma {:induction false} ExactAllItems(items: seq<Pred>)
    requires ExactAll(items).Some?
    ensures |ExactAll(items).value| == |items|
    ensures forall i :: 0 <= i < |items| ==> EncodeExact(items[i]) == Some(ExactAll(items).value[i])
  {
    if items != [] { ExactAllItems(items[..|items| - 1]); }
  }

  /** A predicate with an exact encoding has a definite truth value on an element
      that has what it mentions, and the encoding tells it. */
  lemma {:induction false} ExactMeans(p: Pred, read: Reader, foreign: Foreigns, v: Valuation)
    requires EncodeExact(p).Some? && Present(read, v, PQuants(p)) && Settled(read, p)
    ensures PTruth(read, foreign, p) != U
    ensures Holds(EncodeExact(p).value, v) <==> PTruth(read, foreign, p) == T
    decreases p, 1
  {
    hide Eval, CmpPred, BandPred, CmpSettled, Quants;
    match p
    case PBool(_) =>
    case PAnd(items) => ExactItems(items, read, foreign, v);
    case POr(items) => ExactItems(items, read, foreign, v);
    case PNot(q) =>
      ExactMeans(q, read, foreign, v);
      QNotFlips(EncodeExact(q).value, v);
    case PCmp(rel, l, r) =>
      CmpQuants(rel, l, r, read, v);
      CmpPredMeans(rel, l, r, read, v);
      PresentNotBlocked(read, l);
      PresentNotBlocked(read, r);
    case PBand(inside, e, lo, hi) =>
      BandPredMeans(inside, e, lo, hi, read, v);
      PresentNotBlocked(read, e);
  }

  lemma CmpQuants(rel: Rel, l: Expr, r: Expr, read: Reader, v: Valuation)
    requires Present(read, v, PQuants(PCmp(rel, l, r)))
    ensures Present(read, v, Quants(l)) && Present(read, v, Quants(r))
  {
  }

  lemma {:induction false} ExactItems(items: seq<Pred>, read: Reader, foreign: Foreigns, v: Valuation)
    requires ExactAll(items).Some? && forall x | x in items :: Present(read, v, PQuants(x)) && Settled(read, x)
    ensures forall x | x in items :: PTruth(read, foreign, x) != U
    ensures (forall f | f in ExactAll(items).value :: Holds(f, v)) <==> forall x | x in items :: PTruth(read, foreign, x) == T
    ensures (exists f | f in ExactAll(items).value :: Holds(f, v)) <==> exists x | x in items :: PTruth(read, foreign, x) == T
    decreases items, 0
  {
    hide EncodeExact, PTruth, Settled, PQuants, Holds;
    var fs := ExactAll(items).value;
    ExactAllItems(items);
    forall i | 0 <= i < |items|
      ensures PTruth(read, foreign, items[i]) != U && (Holds(fs[i], v) <==> PTruth(read, foreign, items[i]) == T)
    {
      ExactMeans(items[i], read, foreign, v);
    }
    forall x | x in items ensures PTruth(read, foreign, x) != U {
      var i :| 0 <= i < |items| && items[i] == x;
    }
    MatchingItems(items, fs, read, foreign, v);
  }

  lemma MatchingItems(items: seq<Pred>, fs: seq<QFormula>, read: Reader, foreign: Foreigns, v: Valuation)
    requires |items| == |fs| && forall i :: 0 <= i < |items| ==> (Holds(fs[i], v) <==> PTruth(read, foreign, items[i]) == T)
    ensures (forall f | f in fs :: Holds(f, v)) <==> forall x | x in items :: PTruth(read, foreign, x) == T
    ensures (exists f | f in fs :: Holds(f, v)) <==> exists x | x in items :: PTruth(read, foreign, x) == T
  {
    hide PTruth, Holds;
    forall x | x in items ensures exists f :: f in fs && (Holds(f, v) <==> PTruth(read, foreign, x) == T) {
      var i :| 0 <= i < |items| && items[i] == x;
      assert fs[i] in fs;
    }
    forall f | f in fs ensures exists x :: x in items && (Holds(f, v) <==> PTruth(read, foreign, x) == T) {
      var i :| 0 <= i < |fs| && fs[i] == f;
      assert items[i] in items;
    }
  }

  lemma {:induction false} EncodableHolds(items: seq<Pred>, read: Reader, foreign: Foreigns, v: Valuation)
    requires forall x | x in items :: Present(read, v, PQuants(x)) && Settled(read, x) && PTruth(read, foreign, x) == T
    ensures forall f | f in Encodable(items) :: Holds(f, v)
  {
    if items != [] {
      var last := items[|items| - 1];
      EncodableHolds(items[..|items| - 1], read, foreign, v);
      if EncodeExact(last).Some? { ExactMeans(last, read, foreign, v); }
    }
  }

  /** The element axiom of a filter is true of every element that passes it and
      has what it mentions, whatever conjuncts were dropped. */
  lemma ElementAxiomHolds(p: Pred, read: Reader, foreign: Foreigns, v: Valuation)
    requires EncodeElemPred(p).Some? && PTruth(read, foreign, p) == T
    requires Present(read, v, PQuants(p)) && Settled(read, p)
    ensures Holds(EncodeElemPred(p).value, v)
  {
    if p.PAnd? {
      forall x | x in p.items ensures Present(read, v, PQuants(x)) { assert PQuants(x) <= PQuants(p); }
      EncodableHolds(p.items, read, foreign, v);
    } else {
      ExactMeans(p, read, foreign, v);
    }
  }

  // ----- which predicates have an encoding -----

  /** Sums of quantities with constant factors; a quotient only of constants, and not by zero. */
  predicate Affine(e: Expr) {
    match e
    case Num(_) => true
    case Quant(_) => true
    case Neg(a) => Affine(a)
    case Bin(op, l, r) =>
      && Affine(l) && Affine(r)
      && (op == Mul ==> IsConstTree(l) || IsConstTree(r))
      && (op == Div ==> IsConstTree(l) && IsConstTree(r) && ConstValue(r) != Val(0.0))
    case _ => false
  }

  lemma {:induction false} AffineExactly(e: Expr)
    ensures LinPred(e).Some? <==> Affine(e)
    ensures Affine(e) ==> (LinPred(e).value.terms == [] <==> IsConstTree(e))
    ensures Affine(e) && IsConstTree(e) ==> ConstValue(e) == Val(LinPred(e).value.k)
  {
    match e
    case Neg(a) => AffineExactly(a);
    case Bin(_, l, r) =>
      AffineExactly(l);
      AffineExactly(r);
    case _ =>
    if LinPred(e).Some? { ConstTermsAreTrees(e); }
  }

  /** A quotient by a constant whose ratio clears: by zero, or by a power of two. */
  predicate Clearable(side: Expr, other: Expr) {
    && side.Bin? && side.op == Div && Affine(side.r) && IsConstTree(side.r)
    && var d := ConstValue(side.r);
       d == Val(0.0) || (d.Val? && IsPowerOfTwo(d.x) && Affine(side.l) && Affine(other))
  }

  /** An absolute value against a constant: of anything if it is negative. */
  predicate AbsReadable(side: Expr, other: Expr) {
    && side.Abs? && Affine(other) && IsConstTree(other)
    && var c := ConstValue(other); c.Val? && (c.x < 0.0 || Affine(side.e))
  }

  predicate CmpReadable(l: Expr, r: Expr) {
    (Affine(l) && Affine(r)) || Clearable(l, r) || Clearable(r, l) || AbsReadable(l, r) || AbsReadable(r, l)
  }

  lemma ClearableExactly(side: Expr, other: Expr, rel: Rel)
    ensures ClearRatio(side, other, rel).Some? <==> Clearable(side, other)
  {
    hide LinPred, Affine, IsConstTree, QAtomOf, Minus, ScaledBy, IsPowerOfTwo;
    AffineExactly(other);
    if side.Bin? {
      AffineExactly(side.l);
      AffineExactly(side.r);
    }
  }

  lemma AbsReadableExactly(side: Expr, other: Expr, rel: Rel)
    requires side.Abs? && IsConstantPred(other)
    ensures AbsPred(side.e, rel, LinPred(other).value.k).Some? <==> AbsReadable(side, other)
  {
    hide LinPred, Affine, IsConstTree, QAtomOf;
    AffineExactly(other);
    AffineExactly(side.e);
  }

  /** A comparison has an exact encoding just when it is between affine sides, or
      is a ratio that clears, or bounds an absolute value by a constant. */
  lemma CmpReadableExactly(rel: Rel, l: Expr, r: Expr)
    ensures CmpPred(rel, l, r).Some? <==> CmpReadable(l, r)
  {
    hide LinPred, Affine, IsConstTree, QAtomOf, ClearRatio, AbsPred, Clearable, Minus;
    AffineExactly(l);
    AffineExactly(r);
    ClearableExactly(l, r, rel);
    ClearableExactly(r, l, RelFlipped(rel));
    if l.Abs? && IsConstantPred(r) { AbsReadableExactly(l, r, rel); }
    if r.Abs? && IsConstantPred(l) { AbsReadableExactly(r, l, RelFlipped(rel)); }
    AbsNotAffine(l);
    AbsNotAffine(r);
  }

  lemma AbsNotAffine(e: Expr)
    ensures e.Abs? ==> !Affine(e)
  {
  }

  /** Every leaf has an exact encoding. */
  predicate Readable(p: Pred) {
    match p
    case PBool(_) => true
    case PAnd(items) => forall x | x in items :: Readable(x)
    case POr(items) => forall x | x in items :: Readable(x)
    case PNot(q) => Readable(q)
    case PCmp(_, l, r) => CmpReadable(l, r)
    case PBand(_, e, _, _) => Affine(e)
    case Foreign(_) => false
  }

  lemma {:induction false} ReadableExactly(p: Pred)
    ensures EncodeExact(p).Some? <==> Readable(p)
    decreases p, 1
  {
    hide CmpPred, CmpReadable, LinPred, Affine, QAtomOf;
    match p
    case PAnd(items) => ReadableItems(items);
    case POr(items) => ReadableItems(items);
    case PNot(q) => ReadableExactly(q);
    case PCmp(rel, l, r) => CmpReadableExactly(rel, l, r);
    case PBand(_, e, _, _) => AffineExactly(e);
    case _ =>
  }

  lemma {:induction false} ReadableItems(items: seq<Pred>)
    ensures ExactAll(items).Some? <==> forall x | x in items :: Readable(x)
    decreases items, 0
  {
    hide EncodeExact, Readable;
    if items != [] {
      var n := |items| - 1;
      ReadableItems(items[..n]);
      ReadableExactly(items[n]);
      assert forall x :: x in items <==> x in items[..n] || x == items[n];
    }
  }

  lemma {:induction false} EncodableMeans(items: seq<Pred>, v: Valuation)
    ensures Encodable(items) == [] <==> forall x | x in items :: !Readable(x)
    ensures (forall f | f in Encodable(items) :: Holds(f, v)) <==>
      forall x | x in items && EncodeExact(x).Some? :: Holds(EncodeExact(x).value, v)
  {
    hide EncodeExact, Readable, Holds;
    if items != [] {
      var n := |items| - 1;
      EncodableMeans(items[..n], v);
      ReadableExactly(items[n]);
      assert forall x :: x in items <==> x in items[..n] || x == items[n];
      if EncodeExact(items[n]).Some? {
        assert forall f :: f in Encodable(items) <==> f in Encodable(items[..n]) || f == EncodeExact(items[n]).value;
      }
    }
  }

  /** An element axiom drops exactly the conjuncts that have no exact encoding;
      there is none when nothing is left to say. */
  lemma ElementAxiomMeans(p: Pred, v: Valuation)
    ensures EncodeElemPred(p).Some? <==> if p.PAnd? then exists x | x in p.items :: Readable(x) else Readable(p)
    ensures EncodeElemPred(p).Some? ==> (Holds(EncodeElemPred(p).value, v) <==>
      if p.PAnd? then forall x | x in p.items && EncodeExact(x).Some? :: Holds(EncodeExact(x).value, v)
      else EncodeExact(p).Some? && Holds(EncodeExact(p).value, v))
  {
    hide EncodeExact, Readable;
    ReadableExactly(p);
    if p.PAnd? { EncodableMeans(p.items, v); }
  }

  /** `not (|q / 0| > -1)` is true of every element with q, and its axiom is false. */
  lemma ElementAxiomFails(q: QuantityId, read: Reader, foreign: Foreigns, v: Valuation)
    requires read(q).Val?
    ensures PTruth(read, foreign, PNot(PCmp(Gt, Abs(Undefined(q)), Num(-1.0)))) == T
    ensures EncodeElemPred(PNot(PCmp(Gt, Abs(Undefined(q)), Num(-1.0)))) == Some(QFalse)
  {
    hide Eval, CmpPred;
    UndefinedAbs(read, q);
    UndefinedCmp(q);
    var c := PCmp(Gt, Abs(Undefined(q)), Num(-1.0));
    assert PTruth(read, foreign, c) == F && EncodeExact(c) == Some(QTrue);
    assert EncodeExact(PNot(c)) == Some(QNot(QTrue));
  }

  lemma UndefinedAbs(read: Reader, q: QuantityId)
    requires read(q).Val?
    ensures Eval(read, Abs(Undefined(q))) == NonValue
  {
    hide Eval;
    UndefinedFacts(read, q);
    AbsOfNonValue(read, Undefined(q));
  }

  lemma UndefinedCmp(q: QuantityId)
    ensures CmpPred(Gt, Abs(Undefined(q)), Num(-1.0)) == Some(QTrue)
  {
    assert LinPred(Num(-1.0)) == Some(ConstForm(-1.0));
    assert ClearRatio(Abs(Undefined(q)), Num(-1.0), Gt).None? && ClearRatio(Num(-1.0), Abs(Undefined(q)), Lt).None?;
  }
}
