/** The polarity-typed formula IR: `Formula` with its Unknown and Dual leaves,
    and the Unknown-free `QFormula` that a proof may use. */
module Formulas {
  import opened Linear

  /** A quantifier-free formula over linear atoms. */
  datatype QFormula =
    | QTrue
    | QFalse
    | QAtom(atom: LinAtom)
    | QAnd(items: seq<QFormula>)
    | QOr(items: seq<QFormula>)

  predicate Holds(f: QFormula, v: Valuation) {
    match f
    case QTrue => true
    case QFalse => false
    case QAtom(a) => AtomHolds(a, v)
    case QAnd(items) => forall x | x in items :: Holds(x, v)
    case QOr(items) => exists x | x in items :: Holds(x, v)
  }

  predicate HoldsAll(fs: seq<QFormula>, v: Valuation) {
    forall f | f in fs :: Holds(f, v)
  }

  /** Some total valuation satisfies every formula. */
  ghost predicate Satisfiable(fs: seq<QFormula>) {
    exists v: Valuation :: HoldsAll(fs, v)
  }

  /** The quantities a formula's atoms mention. */
  function Mentions(f: QFormula): set<QuantityId> {
    match f
    case QAtom(a) => set t | t in a.terms :: t.q
    case QAnd(items) => set x, q | x in items && q in Mentions(x) :: q
    case QOr(items) => set x, q | x in items && q in Mentions(x) :: q
    case _ => {}
  }

  lemma {:induction false} DotAgrees(ts: seq<Term>, v: Valuation, w: Valuation)
    requires forall t | t in ts :: v(t.q) == w(t.q)
    ensures Dot(ts, v) == Dot(ts, w)
  {
    if ts != [] {
      assert ts[0] in ts;
      DotAgrees(ts[1..], v, w);
    }
  }

  /** Only what it mentions matters to a formula. */
  lemma {:induction false} HoldsAgrees(f: QFormula, v: Valuation, w: Valuation)
    requires forall q | q in Mentions(f) :: v(q) == w(q)
    ensures Holds(f, v) <==> Holds(f, w)
  {
    match f
    case QAtom(a) =>
      forall t | t in a.terms ensures v(t.q) == w(t.q) { assert t.q in Mentions(f); }
      DotAgrees(a.terms, v, w);
    case QAnd(items) =>
      forall x | x in items ensures Holds(x, v) <==> Holds(x, w) {
        assert Mentions(x) <= Mentions(f);
        HoldsAgrees(x, v, w);
      }
    case QOr(items) =>
      forall x | x in items ensures Holds(x, v) <==> Holds(x, w) {
        assert Mentions(x) <= Mentions(f);
        HoldsAgrees(x, v, w);
      }
    case _ =>
  }

  function QNot(f: QFormula): QFormula {
    match f
    case QTrue => QFalse
    case QFalse => QTrue
    case QAtom(a) => QAtom(a.Negated())
    case QAnd(items) => QOr(seq(|items|, i requires 0 <= i < |items| => QNot(items[i])))
    case QOr(items) => QAnd(seq(|items|, i requires 0 <= i < |items| => QNot(items[i])))
  }

  /** Exact negation. */
  lemma {:induction false} QNotFlips(f: QFormula, v: Valuation)
    ensures Holds(QNot(f), v) <==> !Holds(f, v)
  {
    match f
    case QTrue =>
    case QFalse =>
    case QAtom(a) =>
    case QAnd(items) =>
      forall x | x in items { QNotFlips(x, v); }
      var n := QNot(f).items;
      if x :| x in items && !Holds(x, v) {
        var i :| 0 <= i < |items| && items[i] == x;
        assert n[i] in n;
      }
    case QOr(items) =>
      forall x | x in items { QNotFlips(x, v); }
      var n := QNot(f).items;
      if x :| x in items && Holds(x, v) {
        var i :| 0 <= i < |items| && items[i] == x;
        assert n[i] in n;
      }
  }

  /** What the encoder produces for a region cut. `Unknown` stands for a cut it
      cannot encode, `Dual` for one it can only bracket. */
  datatype Formula =
    | True
    | False
    | Atom(atom: LinAtom)
    | And(items: seq<Formula>)
    | Or(items: seq<Formula>)
    | Unknown(diag: nat)
    | Dual(plus: Formula, minus: Formula, diag: nat)

  datatype Polarity = OverSide | UnderSide

  function Project(f: Formula, p: Polarity): QFormula {
    match f
    case True => QTrue
    case False => QFalse
    case Atom(a) => QAtom(a)
    case And(items) => QAnd(seq(|items|, i requires 0 <= i < |items| => Project(items[i], p)))
    case Or(items) => QOr(seq(|items|, i requires 0 <= i < |items| => Project(items[i], p)))
    case Unknown(_) => if p == OverSide then QTrue else QFalse
    case Dual(plus, minus, _) => if p == OverSide then Project(plus, p) else Project(minus, p)
  }

  function Over(f: Formula): QFormula { Project(f, OverSide) }
  function Under(f: Formula): QFormula { Project(f, UnderSide) }

  function FNot(f: Formula): Formula {
    match f
    case True => False
    case False => True
    case Atom(a) => Atom(a.Negated())
    case And(items) => Or(seq(|items|, i requires 0 <= i < |items| => FNot(items[i])))
    case Or(items) => And(seq(|items|, i requires 0 <= i < |items| => FNot(items[i])))
    case Unknown(d) => Unknown(d)
    case Dual(plus, minus, d) => Dual(FNot(minus), FNot(plus), d)
  }

  predicate IsExact(f: Formula) {
    match f
    case True => true
    case False => true
    case Atom(_) => true
    case And(items) => forall x | x in items :: IsExact(x)
    case Or(items) => forall x | x in items :: IsExact(x)
    case Unknown(_) => false
    case Dual(_, _, _) => false
  }

  // ----- polarity laws -----

  /** Negation is an involution on the syntax itself. */
  lemma {:induction false} FNotInvolutive(f: Formula)
    ensures FNot(FNot(f)) == f
  {
    match f
    case True =>
    case False =>
    case Atom(_) =>
    case And(items) =>
      forall x | x in items { FNotInvolutive(x); }
      assert FNot(FNot(f)).items == items;
    case Or(items) =>
      forall x | x in items { FNotInvolutive(x); }
      assert FNot(FNot(f)).items == items;
    case Unknown(_) =>
    case Dual(plus, minus, _) =>
      FNotInvolutive(plus);
      FNotInvolutive(minus);
  }

  function Opposite(p: Polarity): Polarity {
    if p == OverSide then UnderSide else OverSide
  }

  /** Negating swaps the projections: over(not f) is literally not under(f). */
  lemma {:induction false} NegationSwapsPolarity(f: Formula, p: Polarity)
    ensures Project(FNot(f), p) == QNot(Project(f, Opposite(p)))
  {
    match f
    case True =>
    case False =>
    case Atom(_) =>
    case And(items) =>
      forall x | x in items { NegationSwapsPolarity(x, p); }
      assert Project(FNot(f), p).items == QNot(Project(f, Opposite(p))).items;
    case Or(items) =>
      forall x | x in items { NegationSwapsPolarity(x, p); }
      assert Project(FNot(f), p).items == QNot(Project(f, Opposite(p))).items;
    case Unknown(_) =>
    case Dual(plus, minus, _) =>
      NegationSwapsPolarity(plus, p);
      NegationSwapsPolarity(minus, p);
  }

  lemma {:induction false} ExactProjectionsAgree(f: Formula)
    requires IsExact(f)
    ensures Over(f) == Under(f)
  {
    match f
    case True =>
    case False =>
    case Atom(_) =>
    case And(items) =>
      forall i | 0 <= i < |items|
        ensures Project(items[i], OverSide) == Project(items[i], UnderSide)
      {
        ExactProjectionsAgree(items[i]);
      }
      assert Over(f).items == Under(f).items;
    case Or(items) =>
      forall i | 0 <= i < |items|
        ensures Project(items[i], OverSide) == Project(items[i], UnderSide)
      {
        ExactProjectionsAgree(items[i]);
      }
      assert Over(f).items == Under(f).items;
  }

  /** The truth values an event can give a formula: an Unknown leaf may go
      either way, a Dual leaf lands anywhere between its two branches. */
  ghost predicate Resolves(f: Formula, v: Valuation, b: bool) {
    match f
    case True => b
    case False => !b
    case Atom(a) => b == AtomHolds(a, v)
    case And(items) =>
      if b then forall x | x in items :: Resolves(x, v, true)
      else exists x | x in items :: Resolves(x, v, false)
    case Or(items) =>
      if b then exists x | x in items :: Resolves(x, v, true)
      else forall x | x in items :: Resolves(x, v, false)
    case Unknown(_) => true
    case Dual(plus, minus, _) => if b then Resolves(plus, v, true) else Resolves(minus, v, false)
  }

  /** Every Dual has minus implying plus, at this valuation. */
  ghost predicate DualsOrdered(f: Formula, v: Valuation) {
    match f
    case And(items) => forall x | x in items :: DualsOrdered(x, v)
    case Or(items) => forall x | x in items :: DualsOrdered(x, v)
    case Dual(plus, minus, _) =>
      && DualsOrdered(plus, v) && DualsOrdered(minus, v)
      && (Holds(Under(minus), v) ==> Holds(Over(plus), v))
      && (Holds(Under(minus), v) ==> Holds(Under(plus), v))
      && (Holds(Over(minus), v) ==> Holds(Over(plus), v))
    case _ => true
  }

  /** The projections are exactly the extreme resolutions: `over` holds if and
      only if some resolution makes the formula true, and `under` fails if and
      only if some resolution makes it false. */
  lemma {:induction false} ProjectionsAreExtreme(f: Formula, v: Valuation)
    ensures Resolves(f, v, true) <==> Holds(Over(f), v)
    ensures Resolves(f, v, false) <==> !Holds(Under(f), v)
  {
    match f
    case True =>
    case False =>
    case Atom(_) =>
    case And(items) =>
      forall x | x in items { ProjectionsAreExtreme(x, v); }
      ProjectedItems(items, OverSide);
      ProjectedItems(items, UnderSide);
    case Or(items) =>
      forall x | x in items { ProjectionsAreExtreme(x, v); }
      ProjectedItems(items, OverSide);
      ProjectedItems(items, UnderSide);
    case Unknown(_) =>
    case Dual(plus, minus, _) =>
      ProjectionsAreExtreme(plus, v);
      ProjectionsAreExtreme(minus, v);
  }

  /** The items of a projected conjunction are the projections of its items. */
  lemma ProjectedItems(items: seq<Formula>, p: Polarity)
    ensures forall v: Valuation :: Holds(Project(And(items), p), v) <==> forall x | x in items :: Holds(Project(x, p), v)
    ensures forall v: Valuation :: Holds(Project(Or(items), p), v) <==> exists x | x in items :: Holds(Project(x, p), v)
  {
    var a, o := Project(And(items), p).items, Project(Or(items), p).items;
    assert a == o;
    forall x | x in items ensures Project(x, p) in a {
      var i :| 0 <= i < |items| && items[i] == x;
      assert a[i] == Project(x, p);
    }
    forall y | y in a ensures exists x :: x in items && y == Project(x, p) {
      var i :| 0 <= i < |a| && a[i] == y;
      assert items[i] in items;
    }
  }

  /** A formula whose Duals are ordered never under-approximates above its
      over-approximation. */
  lemma {:induction false} UnderImpliesOver(f: Formula, v: Valuation)
    requires DualsOrdered(f, v)
    requires Holds(Under(f), v)
    ensures Holds(Over(f), v)
  {
    match f
    case True =>
    case Atom(_) =>
    case And(items) =>
      ProjectedItems(items, OverSide);
      ProjectedItems(items, UnderSide);
      forall x | x in items { UnderImpliesOver(x, v); }
    case Or(items) =>
      ProjectedItems(items, OverSide);
      ProjectedItems(items, UnderSide);
      var x :| x in items && Holds(Under(x), v);
      UnderImpliesOver(x, v);
    case Dual(plus, minus, _) =>
  }

  // ----- simplifying constructors -----

  /** The truth of a formula's projection. */
  predicate Sat(f: Formula, p: Polarity, v: Valuation) { Holds(Project(f, p), v) }

  /** What one argument of `fand` contributes to the flattened list. */
  function AndItems(f: Formula): seq<Formula> {
    match f
    case True => []
    case And(items) => items
    case _ => [f]
  }

  function OrItems(f: Formula): seq<Formula> {
    match f
    case False => []
    case Or(items) => items
    case _ => [f]
  }

  function AndParts(parts: seq<Formula>): seq<Formula> {
    if parts == [] then [] else AndParts(parts[..|parts| - 1]) + AndItems(parts[|parts| - 1])
  }

  function OrParts(parts: seq<Formula>): seq<Formula> {
    if parts == [] then [] else OrParts(parts[..|parts| - 1]) + OrItems(parts[|parts| - 1])
  }

  function AndOf(out: seq<Formula>): Formula {
    if out == [] then True else if |out| == 1 then out[0] else And(out)
  }

  function OrOf(out: seq<Formula>): Formula {
    if out == [] then False else if |out| == 1 then out[0] else Or(out)
  }

  /** Conjunction that folds constants and flattens nested conjunctions. */
  function FAnd(parts: seq<Formula>): Formula {
    if False in parts then False else AndOf(AndParts(parts))
  }

  /** Disjunction that folds constants and flattens nested disjunctions. */
  function FOr(parts: seq<Formula>): Formula {
    if True in parts then True else OrOf(OrParts(parts))
  }

  lemma {:induction false} AndPartsMember(parts: seq<Formula>, x: Formula)
    ensures x in AndParts(parts) <==> exists i :: 0 <= i < |parts| && x in AndItems(parts[i])
  {
    if parts != [] {
      var init := parts[..|parts| - 1];
      AndPartsMember(init, x);
      assert forall i :: 0 <= i < |init| ==> parts[i] == init[i];
    }
  }

  lemma {:induction false} OrPartsMember(parts: seq<Formula>, x: Formula)
    ensures x in OrParts(parts) <==> exists i :: 0 <= i < |parts| && x in OrItems(parts[i])
  {
    if parts != [] {
      var init := parts[..|parts| - 1];
      OrPartsMember(init, x);
      assert forall i :: 0 <= i < |init| ==> parts[i] == init[i];
    }
  }

  lemma AndOfMeans(out: seq<Formula>, p: Polarity, v: Valuation)
    ensures Sat(AndOf(out), p, v) <==> forall x | x in out :: Sat(x, p, v)
  {
    ProjectedItems(out, p);
  }

  lemma OrOfMeans(out: seq<Formula>, p: Polarity, v: Valuation)
    ensures Sat(OrOf(out), p, v) <==> exists x | x in out :: Sat(x, p, v)
  {
    ProjectedItems(out, p);
  }

  lemma AndItemsMean(f: Formula, p: Polarity, v: Valuation)
    ensures Sat(f, p, v) <==> forall x | x in AndItems(f) :: Sat(x, p, v)
  {
    if f.And? { ProjectedItems(f.items, p); }
  }

  lemma OrItemsMean(f: Formula, p: Polarity, v: Valuation)
    ensures Sat(f, p, v) <==> exists x | x in OrItems(f) :: Sat(x, p, v)
  {
    if f.Or? { ProjectedItems(f.items, p); }
    if !f.Or? && f != False { assert f in OrItems(f); }
  }

  /** `fand` means conjunction, in either projection. */
  lemma FAndMeans(parts: seq<Formula>, p: Polarity, v: Valuation)
    ensures Sat(FAnd(parts), p, v) <==> forall i :: 0 <= i < |parts| ==> Sat(parts[i], p, v)
  {
    var out := AndParts(parts);
    AndOfMeans(out, p, v);
    forall i | 0 <= i < |parts| { AndItemsMean(parts[i], p, v); }
    forall x { AndPartsMember(parts, x); }
    if False in parts {
      var i :| 0 <= i < |parts| && parts[i] == False;
      assert !Sat(parts[i], p, v);
    } else if forall i :: 0 <= i < |parts| ==> Sat(parts[i], p, v) {
      forall x | x in out ensures Sat(x, p, v) {
        var i :| 0 <= i < |parts| && x in AndItems(parts[i]);
        assert Sat(parts[i], p, v);
      }
    } else {
      var i :| 0 <= i < |parts| && !Sat(parts[i], p, v);
      var x :| x in AndItems(parts[i]) && !Sat(x, p, v);
      assert x in out;
    }
  }

  /** `forr` means disjunction, in either projection. */
  lemma FOrMeans(parts: seq<Formula>, p: Polarity, v: Valuation)
    ensures Sat(FOr(parts), p, v) <==> exists i :: 0 <= i < |parts| && Sat(parts[i], p, v)
  {
    var out := OrParts(parts);
    OrOfMeans(out, p, v);
    forall i | 0 <= i < |parts| { OrItemsMean(parts[i], p, v); }
    forall x { OrPartsMember(parts, x); }
    if True in parts {
      var i :| 0 <= i < |parts| && parts[i] == True;
      assert Sat(parts[i], p, v);
    } else if i :| 0 <= i < |parts| && Sat(parts[i], p, v) {
      var x :| x in OrItems(parts[i]) && Sat(x, p, v);
      assert x in out;
    } else {
      forall x | x in out ensures !Sat(x, p, v) {
        var i :| 0 <= i < |parts| && x in OrItems(parts[i]);
        assert !Sat(parts[i], p, v);
      }
    }
  }

  ghost predicate AllSat(fs: seq<Formula>, p: Polarity, v: Valuation) {
    forall i :: 0 <= i < |fs| ==> Sat(fs[i], p, v)
  }

  lemma AllSatConcat(a: seq<Formula>, b: seq<Formula>, p: Polarity, v: Valuation)
    ensures AllSat(a + b, p, v) <==> AllSat(a, p, v) && AllSat(b, p, v)
  {
    if AllSat(a + b, p, v) {
      forall i | 0 <= i < |a| ensures Sat(a[i], p, v) { assert (a + b)[i] == a[i]; }
      forall i | 0 <= i < |b| ensures Sat(b[i], p, v) { assert (a + b)[|a| + i] == b[i]; }
    }
  }

  /** `fand` as the program runs it. */
  method MakeAnd(parts: seq<Formula>) returns (f: Formula)
    ensures f == FAnd(parts)
    ensures forall p: Polarity, v: Valuation ::
      Sat(f, p, v) <==> forall i :: 0 <= i < |parts| ==> Sat(parts[i], p, v)
  {
    forall p: Polarity, v: Valuation { FAndMeans(parts, p, v); }
    var out: seq<Formula> := [];
    for i := 0 to |parts|
      invariant False !in parts[..i]
      invariant out == AndParts(parts[..i])
    {
      assert parts[..i + 1][..i] == parts[..i];
      match parts[i] {
        case True =>
        case False => return False;
        case And(items) => out := out + items;
        case _ => out := out + [parts[i]];
      }
    }
    assert parts[..|parts|] == parts;
    if out == [] { return True; }
    if |out| == 1 { return out[0]; }
    return And(out);
  }

  /** `forr` as the program runs it. */
  method MakeOr(parts: seq<Formula>) returns (f: Formula)
    ensures f == FOr(parts)
    ensures forall p: Polarity, v: Valuation ::
      Sat(f, p, v) <==> exists i :: 0 <= i < |parts| && Sat(parts[i], p, v)
  {
    forall p: Polarity, v: Valuation { FOrMeans(parts, p, v); }
    var out: seq<Formula> := [];
    for i := 0 to |parts|
      invariant True !in parts[..i]
      invariant out == OrParts(parts[..i])
    {
      assert parts[..i + 1][..i] == parts[..i];
      match parts[i] {
        case False =>
        case True => return True;
        case Or(items) => out := out + items;
        case _ => out := out + [parts[i]];
      }
    }
    assert parts[..|parts|] == parts;
    if out == [] { return False; }
    if |out| == 1 { return out[0]; }
    return Or(out);
  }
}
