/** Reconciliation of filtered collections: a certified implication between two
    chains of filters over one generic element bounds one size by the other. */
module Reconcile {
  import opened Linear
  import opened Formulas
  import opened Saturation
  import opened Conditions
  import opened PartialTruth
  import opened LinearForms
  import opened ElementPredicates
  import opened Collections
  import opened Intervals
  import opened Solving
  import opened Numerals
  import opened Verdicts
  import Axioms

  // ----- a filter chain as a formula over a generic element -----

  function Lift(f: QFormula): Formula {
    match f
    case QTrue => True
    case QFalse => False
    case QAtom(a) => Atom(a)
    case QAnd(items) => And(seq(|items|, i requires 0 <= i < |items| => Lift(items[i])))
    case QOr(items) => Or(seq(|items|, i requires 0 <= i < |items| => Lift(items[i])))
  }

  /** Exact comparisons, and Unknown for everything that has no exact encoding. */
  function PredFormula(p: Pred): Formula {
    match p
    case PBool(b) => if b then True else False
    case PAnd(items) => And(seq(|items|, i requires 0 <= i < |items| => PredFormula(items[i])))
    case POr(items) => Or(seq(|items|, i requires 0 <= i < |items| => PredFormula(items[i])))
    case PNot(q) => FNot(PredFormula(q))
    case PCmp(_, _, _) => (match EncodeExact(p) case Some(f) => Lift(f) case None => Unknown(0))
    case PBand(_, _, _, _) => (match EncodeExact(p) case Some(f) => Lift(f) case None => Unknown(0))
    case Foreign(_) => Unknown(0)
  }

  /** `lower`: the conjunction of a chain's predicates. */
  function Lower(preds: seq<Pred>): Formula {
    if preds == [] then True
    else if |preds| == 1 then PredFormula(preds[0])
    else And(seq(|preds|, i requires 0 <= i < |preds| => PredFormula(preds[i])))
  }

  lemma {:induction false} LiftMeans(f: QFormula, p: Polarity, v: Valuation)
    ensures Sat(Lift(f), p, v) <==> Holds(f, v)
  {
    match f
    case QAnd(items) => LiftItems(items, p, v);
    case QOr(items) => LiftItems(items, p, v);
    case _ =>
  }

  lemma {:induction false} LiftItems(items: seq<QFormula>, p: Polarity, v: Valuation)
    ensures Sat(Lift(QAnd(items)), p, v) <==> Holds(QAnd(items), v)
    ensures Sat(Lift(QOr(items)), p, v) <==> Holds(QOr(items), v)
  {
    var lifted := seq(|items|, i requires 0 <= i < |items| => Lift(items[i]));
    ProjectedItems(lifted, p);
    forall i | 0 <= i < |items| ensures Sat(lifted[i], p, v) <==> Holds(items[i], v) { LiftMeans(items[i], p, v); }
    SameTruths(items, lifted, p, v);
  }

  lemma SameTruths(items: seq<QFormula>, lifted: seq<Formula>, p: Polarity, v: Valuation)
    requires |items| == |lifted| && forall i :: 0 <= i < |items| ==> (Sat(lifted[i], p, v) <==> Holds(items[i], v))
    ensures (forall x | x in lifted :: Sat(x, p, v)) <==> forall y | y in items :: Holds(y, v)
    ensures (exists x | x in lifted :: Sat(x, p, v)) <==> exists y | y in items :: Holds(y, v)
  {
    hide Sat, Holds;
    forall y | y in items ensures exists x :: x in lifted && (Sat(x, p, v) <==> Holds(y, v)) {
      var i :| 0 <= i < |items| && items[i] == y;
      assert lifted[i] in lifted;
    }
    forall x | x in lifted ensures exists y :: y in items && (Sat(x, p, v) <==> Holds(y, v)) {
      var i :| 0 <= i < |lifted| && lifted[i] == x;
      assert items[i] in items;
    }
  }

  /** Over the element's data, the over-projection fails only where the predicate
      is False, and the under-projection holds only where it is True. */
  ghost predicate Brackets(f: Formula, v: Valuation, t: Tri) {
    (t != F ==> Sat(f, OverSide, v)) && (Sat(f, UnderSide, v) ==> t == T)
  }

  ghost predicate Grounds(read: Reader, v: Valuation, p: Pred) { Present(read, v, PQuants(p)) && Settled(read, p) }

  lemma {:induction false} PredBrackets(p: Pred, read: Reader, foreign: Foreigns, v: Valuation)
    requires Grounds(read, v, p)
    ensures Brackets(PredFormula(p), v, PTruth(read, foreign, p))
  {
    hide Eval, EncodeExact, CmpSettled, Quants, Project;
    match p
    case PBool(_) => ConstBrackets(v);
    case PAnd(items) => ItemsBracket(items, read, foreign, v);
    case POr(items) => ItemsBracket(items, read, foreign, v);
    case PNot(q) =>
      PredBrackets(q, read, foreign, v);
      SatNot(PredFormula(q), OverSide, v);
      SatNot(PredFormula(q), UnderSide, v);
    case PCmp(_, _, _) => ExactBrackets(p, read, foreign, v);
    case PBand(_, _, _, _) => ExactBrackets(p, read, foreign, v);
    case Foreign(_) => ConstBrackets(v);
  }

  lemma ConstBrackets(v: Valuation)
    ensures Brackets(True, v, T) && Brackets(False, v, F) && forall t: Tri :: Brackets(Unknown(0), v, t)
  {
  }

  lemma ExactBrackets(p: Pred, read: Reader, foreign: Foreigns, v: Valuation)
    requires Grounds(read, v, p)
    ensures Brackets(match EncodeExact(p) case Some(f) => Lift(f) case None => Unknown(0), v, PTruth(read, foreign, p))
  {
    hide Project, EncodeExact, PTruth, Settled, PQuants;
    ConstBrackets(v);
    match EncodeExact(p)
    case None =>
    case Some(f) =>
      ExactMeans(p, read, foreign, v);
      LiftMeans(f, OverSide, v);
      LiftMeans(f, UnderSide, v);
  }

  lemma {:induction false} ItemsBracket(items: seq<Pred>, read: Reader, foreign: Foreigns, v: Valuation)
    requires Grounds(read, v, PAnd(items))
    ensures Brackets(PredFormula(PAnd(items)), v, PTruth(read, foreign, PAnd(items)))
    ensures Brackets(PredFormula(POr(items)), v, PTruth(read, foreign, POr(items)))
  {
    var fs := seq(|items|, i requires 0 <= i < |items| => PredFormula(items[i]));
    forall i | 0 <= i < |items| ensures Brackets(fs[i], v, PTruth(read, foreign, items[i])) {
      assert PQuants(items[i]) <= PQuants(PAnd(items));
      PredBrackets(items[i], read, foreign, v);
    }
    BracketAll(items, fs, read, foreign, v);
  }

  lemma TruthOfItems(items: seq<Pred>, read: Reader, foreign: Foreigns)
    ensures PTruth(read, foreign, PAnd(items)) == F <==> exists x | x in items :: PTruth(read, foreign, x) == F
    ensures PTruth(read, foreign, PAnd(items)) == T <==> forall x | x in items :: PTruth(read, foreign, x) == T
    ensures PTruth(read, foreign, POr(items)) == T <==> exists x | x in items :: PTruth(read, foreign, x) == T
    ensures PTruth(read, foreign, POr(items)) == F <==> forall x | x in items :: PTruth(read, foreign, x) == F
  {
  }

  lemma BracketAll(items: seq<Pred>, fs: seq<Formula>, read: Reader, foreign: Foreigns, v: Valuation)
    requires |items| == |fs| && forall i :: 0 <= i < |items| ==> Brackets(fs[i], v, PTruth(read, foreign, items[i]))
    ensures Brackets(And(fs), v, PTruth(read, foreign, PAnd(items))) && Brackets(Or(fs), v, PTruth(read, foreign, POr(items)))
  {
    hide Sat, PTruth;
    TruthOfItems(items, read, foreign);
    SatItems(fs, OverSide, v);
    SatItems(fs, UnderSide, v);
    if Sat(And(fs), UnderSide, v) {
      forall y | y in items ensures PTruth(read, foreign, y) == T {
        var i :| 0 <= i < |items| && items[i] == y;
        assert fs[i] in fs;
      }
    }
    if !Sat(Or(fs), OverSide, v) {
      forall y | y in items ensures PTruth(read, foreign, y) == F {
        var i :| 0 <= i < |items| && items[i] == y;
        assert fs[i] in fs;
      }
    }
    if PTruth(read, foreign, PAnd(items)) != F {
      forall x | x in fs ensures Sat(x, OverSide, v) {
        var i :| 0 <= i < |fs| && fs[i] == x;
        assert items[i] in items;
      }
    }
    if x :| x in fs && Sat(x, UnderSide, v) {
      var i :| 0 <= i < |fs| && fs[i] == x;
      assert items[i] in items;
    }
  }

  lemma SatItems(fs: seq<Formula>, p: Polarity, v: Valuation)
    ensures Sat(And(fs), p, v) <==> forall x | x in fs :: Sat(x, p, v)
    ensures Sat(Or(fs), p, v) <==> exists x | x in fs :: Sat(x, p, v)
  {
    hide Project;
    ProjectedItems(fs, p);
  }

  predicate PassesAll(read: Reader, foreign: Foreigns, preds: seq<Pred>) { forall p | p in preds :: PTruth(read, foreign, p) == T }

  /** A chain's formula brackets passing every filter of the chain. */
  lemma LowerBrackets(preds: seq<Pred>, read: Reader, foreign: Foreigns, v: Valuation)
    requires forall p | p in preds :: Grounds(read, v, p)
    ensures PassesAll(read, foreign, preds) ==> Sat(Lower(preds), OverSide, v)
    ensures Sat(Lower(preds), UnderSide, v) ==> PassesAll(read, foreign, preds)
  {
    hide Project;
    ConstBrackets(v);
    if |preds| == 1 {
      PredBrackets(preds[0], read, foreign, v);
    } else if preds != [] {
      var fs := seq(|preds|, i requires 0 <= i < |preds| => PredFormula(preds[i]));
      forall i | 0 <= i < |preds| ensures Brackets(fs[i], v, PTruth(read, foreign, preds[i])) { PredBrackets(preds[i], read, foreign, v); }
      BracketAll(preds, fs, read, foreign, v);
    }
  }

  /** What a predicate's formula says from above or from below: a comparison with
      no exact encoding is given away, and negation changes sides. */
  ghost predicate SaysSide(p: Pred, above: bool, v: Valuation) {
    match p
    case PBool(b) => b
    case PAnd(items) => forall x | x in items :: SaysSide(x, above, v)
    case POr(items) => exists x | x in items :: SaysSide(x, above, v)
    case PNot(q) => !SaysSide(q, !above, v)
    case Foreign(_) => above
    case _ => if Readable(p) then EncodeExact(p).Some? && Holds(EncodeExact(p).value, v) else above
  }

  function SideOf(above: bool): Polarity { if above then OverSide else UnderSide }

  lemma UnknownSide(above: bool, v: Valuation)
    ensures Sat(Unknown(0), SideOf(above), v) <==> above
    ensures Sat(True, SideOf(above), v) && !Sat(False, SideOf(above), v)
  {
  }

  lemma {:induction false} PredSays(p: Pred, above: bool, v: Valuation)
    ensures Sat(PredFormula(p), SideOf(above), v) <==> SaysSide(p, above, v)
  {
    hide EncodeExact, Readable, Project;
    UnknownSide(above, v);
    match p
    case PAnd(items) => ItemsSay(items, above, v);
    case POr(items) => ItemsSay(items, above, v);
    case PNot(q) =>
      PredSays(q, !above, v);
      SatNot(PredFormula(q), SideOf(above), v);
    case PCmp(_, _, _) =>
      ReadableExactly(p);
      if EncodeExact(p).Some? { LiftMeans(EncodeExact(p).value, SideOf(above), v); }
    case PBand(_, _, _, _) =>
      ReadableExactly(p);
      if EncodeExact(p).Some? { LiftMeans(EncodeExact(p).value, SideOf(above), v); }
    case _ =>
  }

  lemma {:induction false} ItemsSay(items: seq<Pred>, above: bool, v: Valuation)
    ensures Sat(PredFormula(PAnd(items)), SideOf(above), v) <==> forall x | x in items :: SaysSide(x, above, v)
    ensures Sat(PredFormula(POr(items)), SideOf(above), v) <==> exists x | x in items :: SaysSide(x, above, v)
  {
    hide SaysSide, Project, Sat;
    var fs := seq(|items|, i requires 0 <= i < |items| => PredFormula(items[i]));
    forall i | 0 <= i < |items| ensures Sat(fs[i], SideOf(above), v) <==> SaysSide(items[i], above, v) {
      PredSays(items[i], above, v);
    }
    SatItems(fs, SideOf(above), v);
    SaysAll(items, fs, above, v);
  }

  lemma SaysAll(items: seq<Pred>, fs: seq<Formula>, above: bool, v: Valuation)
    requires |items| == |fs| && forall i :: 0 <= i < |items| ==> (Sat(fs[i], SideOf(above), v) <==> SaysSide(items[i], above, v))
    ensures (forall x | x in fs :: Sat(x, SideOf(above), v)) <==> forall x | x in items :: SaysSide(x, above, v)
    ensures (exists x | x in fs :: Sat(x, SideOf(above), v)) <==> exists x | x in items :: SaysSide(x, above, v)
  {
    hide SaysSide, Sat;
    forall y | y in items ensures exists x :: x in fs && (Sat(x, SideOf(above), v) <==> SaysSide(y, above, v)) {
      var i :| 0 <= i < |items| && items[i] == y;
      assert fs[i] in fs;
    }
    forall x | x in fs ensures exists y :: y in items && (Sat(x, SideOf(above), v) <==> SaysSide(y, above, v)) {
      var i :| 0 <= i < |fs| && fs[i] == x;
      assert items[i] in items;
    }
  }

  /** A chain's formula says, on either side, what all its filters say. */
  lemma LowerSays(preds: seq<Pred>, above: bool, v: Valuation)
    ensures Sat(Lower(preds), SideOf(above), v) <==> forall p | p in preds :: SaysSide(p, above, v)
  {
    hide SaysSide, Project, PredFormula;
    UnknownSide(above, v);
    if |preds| == 1 {
      PredSays(preds[0], above, v);
    } else if preds != [] {
      ItemsSay(preds, above, v);
      ConjunctionFormula(preds);
    }
  }

  lemma ConjunctionFormula(preds: seq<Pred>)
    ensures PredFormula(PAnd(preds)) == And(seq(|preds|, i requires 0 <= i < |preds| => PredFormula(preds[i])))
  {
  }

  lemma {:induction false} ReadableSays(p: Pred, above: bool, read: Reader, foreign: Foreigns, v: Valuation)
    requires Grounds(read, v, p) && Readable(p)
    ensures SaysSide(p, above, v) <==> PTruth(read, foreign, p) == T
    ensures PTruth(read, foreign, p) != U
  {
    hide Eval, EncodeExact, CmpSettled, CmpReadable, Quants;
    ReadableExactly(p);
    ExactMeans(p, read, foreign, v);
    match p
    case PAnd(items) =>
      forall x | x in items ensures SaysSide(x, above, v) <==> PTruth(read, foreign, x) == T {
        assert PQuants(x) <= PQuants(p);
        ReadableSays(x, above, read, foreign, v);
      }
    case POr(items) =>
      forall x | x in items ensures SaysSide(x, above, v) <==> PTruth(read, foreign, x) == T {
        assert PQuants(x) <= PQuants(p);
        ReadableSays(x, above, read, foreign, v);
      }
    case PNot(q) => ReadableSays(q, !above, read, foreign, v);
    case _ =>
  }

  /** When every filter of a chain can be encoded, both sides of its formula are
      passing all of them. */
  lemma LowerExact(preds: seq<Pred>, above: bool, read: Reader, foreign: Foreigns, v: Valuation)
    requires forall p | p in preds :: Grounds(read, v, p) && Readable(p)
    ensures Sat(Lower(preds), SideOf(above), v) <==> PassesAll(read, foreign, preds)
  {
    hide SaysSide, Project, Lower, PTruth;
    LowerSays(preds, above, v);
    forall p | p in preds ensures SaysSide(p, above, v) <==> PTruth(read, foreign, p) == T { ReadableSays(p, above, read, foreign, v); }
  }

  // ----- filtering objects -----

  /** The event's valuation with the generic element grounded on one object. */
  function Grounded1(v: Valuation, own: QuantityId -> Option<PropId>, o: Object): Valuation {
    (q: QuantityId) => match own(q)
      case Some(p) => if p in o then o[p] else v(q)
      case None => v(q)
  }

  function Passes(event: Surroundings, own: QuantityId -> Option<PropId>, p: Pred): Object -> bool {
    o => PTruth(ElemReader(event, own, o), event.On(o), p) == T
  }

  function PassesChain(event: Surroundings, own: QuantityId -> Option<PropId>, preds: seq<Pred>): Object -> bool {
    o => PassesAll(ElemReader(event, own, o), event.On(o), preds)
  }

  /** The objects left after every filter of a chain in turn. */
  function FilterChain(objs: seq<Object>, event: Surroundings, own: QuantityId -> Option<PropId>, preds: seq<Pred>): seq<Object> {
    if preds == [] then objs
    else
      var n := |preds| - 1;
      Kept(FilterChain(objs, event, own, preds[..n]), Passes(event, own, preds[n]))
  }

  lemma {:induction false} KeptTwice(objs: seq<Object>, p: Object -> bool, q: Object -> bool, both: Object -> bool)
    requires forall o: Object :: both(o) <==> p(o) && q(o)
    ensures Kept(Kept(objs, p), q) == Kept(objs, both)
  {
    if objs != [] {
      var n := |objs| - 1;
      KeptTwice(objs[..n], p, q, both);
      if p(objs[n]) {
        assert Kept(objs, p)[..|Kept(objs, p)| - 1] == Kept(objs[..n], p);
      }
    }
  }

  lemma {:induction false} KeptAll(objs: seq<Object>, pass: Object -> bool)
    requires forall o | o in objs :: pass(o)
    ensures Kept(objs, pass) == objs
  {
    if objs != [] { KeptAll(objs[..|objs| - 1], pass); }
  }

  /** Filtering step by step keeps exactly the objects that pass every filter. */
  lemma {:induction false} ChainIsConjunction(objs: seq<Object>, event: Surroundings, own: QuantityId -> Option<PropId>, preds: seq<Pred>)
    ensures FilterChain(objs, event, own, preds) == Kept(objs, PassesChain(event, own, preds))
  {
    hide PTruth;
    if preds == [] {
      KeptAll(objs, PassesChain(event, own, preds));
    } else {
      var n := |preds| - 1;
      ChainIsConjunction(objs, event, own, preds[..n]);
      forall o: Object
        ensures PassesChain(event, own, preds)(o) <==> PassesChain(event, own, preds[..n])(o) && Passes(event, own, preds[n])(o)
      {
        assert forall p :: p in preds <==> p == preds[n] || p in preds[..n];
      }
      KeptTwice(objs, PassesChain(event, own, preds[..n]), Passes(event, own, preds[n]), PassesChain(event, own, preds));
    }
  }

  lemma {:induction false} KeptMonotone(objs: seq<Object>, p: Object -> bool, q: Object -> bool)
    requires forall o | o in objs :: p(o) ==> q(o)
    ensures |Kept(objs, p)| <= |Kept(objs, q)|
  {
    if objs != [] { KeptMonotone(objs[..|objs| - 1], p, q); }
  }

  // ----- one implication -----

  /** Under the background, the one formula's over-projection implies the other's
      under-projection. */
  ghost predicate Implies(a: Formula, b: Formula, v: Valuation) { Holds(Over(a), v) ==> Holds(Under(b), v) }

  ghost predicate Implication(a: Formula, b: Formula, bg: Background, certify: bool, oracle: Oracle, sorts: Sorts) {
    && (certify ==> forall v: Valuation :: BackgroundHolds(bg, v) ==> Implies(a, b, v))
    && (Honest(oracle, sorts) ==> forall v: Valuation :: WellSorted(sorts, v) && BackgroundHolds(bg, v) ==> Implies(a, b, v))
  }

  datatype Proof = Proof(holds: bool, chain: bool)

  function ImplicationQuery(a: Formula, b: Formula): Assertions { [("QSUB0", Over(a)), ("QSUBNEG", QNot(Under(b)))] }

  lemma QueryNegatesImplication(a: Formula, b: Formula, v: Valuation)
    ensures AllHold(ImplicationQuery(a, b), v) <==> !Implies(a, b, v)
  {
    QNotFlips(Under(b), v);
    var q := ImplicationQuery(a, b);
    assert q[0].1 == Over(a) && q[1].1 == QNot(Under(b));
  }

  /** `subset_proof`: refute the one over-projection with the negated other. */
  method SubsetProof(solver: Solver, certify: bool, a: Formula, b: Formula, bg: Background) returns (r: Proof)
    requires Grounded(solver, bg) && NormalBackground(bg) && NormalAtoms(Over(a)) && NormalAtoms(Under(b))
    modifies solver
    ensures Grounded(solver, bg)
    ensures r.holds ==> Implication(a, b, bg, certify, solver.oracle, solver.sorts)
    ensures certify && r.holds ==> r.chain
    ensures solver.asked == old(solver.asked) + 1
    ensures Answers(r.holds, solver.oracle, old(solver.asked), certify, ImplicationQuery(a, b), bg)
  {
    hide Answers, AllHold, BackgroundHolds, WellSorted, Honest, NormalAtoms, Holds, Implies, Project;
    QNotNormal(Under(b));
    var named := [("QSUB0", Over(a)), ("QSUBNEG", QNot(Under(b)))];
    var q := Query(solver, certify, named, bg);
    r := Proof(Claims(q), q.cert.Yes?);
    forall v: Valuation { QueryNegatesImplication(a, b, v); }
  }

  /** A certified implication over the generic element orders the filtered sizes
      on every event whose elements have what the filters mention. */
  lemma ImplicationOrdersSizes(a: seq<Pred>, b: seq<Pred>, objs: seq<Object>, event: Surroundings,
      own: QuantityId -> Option<PropId>, v: Valuation)
    requires forall o | o in objs :: Implies(Lower(a), Lower(b), Grounded1(v, own, o))
    requires forall o, p | o in objs && (p in a || p in b) :: Grounds(ElemReader(event, own, o), Grounded1(v, own, o), p)
    ensures |FilterChain(objs, event, own, a)| <= |FilterChain(objs, event, own, b)|
  {
    hide Lower, PTruth, Grounds, Project;
    ChainIsConjunction(objs, event, own, a);
    ChainIsConjunction(objs, event, own, b);
    forall o | o in objs ensures PassesChain(event, own, a)(o) ==> PassesChain(event, own, b)(o) {
      LowerBrackets(a, ElemReader(event, own, o), event.On(o), Grounded1(v, own, o));
      LowerBrackets(b, ElemReader(event, own, o), event.On(o), Grounded1(v, own, o));
    }
    KeptMonotone(objs, PassesChain(event, own, a), PassesChain(event, own, b));
  }

  // ----- deriving size facts -----

  /** Two filtered collections over one base: their chains and their size ids. */
  datatype Candidate = Candidate(base: nat, chainA: seq<Pred>, chainB: seq<Pred>, sizeA: QuantityId, sizeB: QuantityId)

  function SizeLe(sub: QuantityId, sup: QuantityId): QFormula { Axioms.Compare([(1.0, sub), (-1.0, sup)], Le, 0.0) }

  /** Everything the derivation of facts assumes of an event: it satisfies the
      axioms, its sizes count its filtered objects, those have what the filters
      mention, and the generic element's ids occur nowhere else. */
  ghost predicate ReconEvent(cands: seq<Candidate>, axioms: seq<QFormula>, own: QuantityId -> Option<PropId>,
      bases: nat -> seq<Object>, event: Surroundings, v: Valuation) {
    && HoldsAll(axioms, v)
    && (forall f, q | f in axioms && q in Mentions(f) :: own(q).None?)
    && (forall k :: 0 <= k < |cands| ==> CandidateFits(cands[k], own, bases, event, v))
  }

  ghost predicate CandidateFits(c: Candidate, own: QuantityId -> Option<PropId>, bases: nat -> seq<Object>, event: Surroundings, v: Valuation) {
    && own(c.sizeA).None? && own(c.sizeB).None?
    && v(c.sizeA) == |FilterChain(bases(c.base), event, own, c.chainA)| as real
    && v(c.sizeB) == |FilterChain(bases(c.base), event, own, c.chainB)| as real
    && forall o, p | o in bases(c.base) && (p in c.chainA || p in c.chainB) ::
      Grounds(ElemReader(event, own, o), Grounded1(v, own, o), p)
  }

  /** Grounding the generic element leaves collection sizes integral. */
  ghost predicate OwnAreReal(own: QuantityId -> Option<PropId>, sorts: Sorts) { forall q: QuantityId :: own(q).Some? ==> !sorts(q) }

  ghost predicate Believed(certify: bool, oracle: Oracle, sorts: Sorts, own: QuantityId -> Option<PropId>, v: Valuation) {
    certify || (Honest(oracle, sorts) && WellSorted(sorts, v) && OwnAreReal(own, sorts))
  }

  /** The facts hold on every event, and mention only sizes of the candidates. */
  ghost predicate FactsTrue(facts: Assertions, cands: seq<Candidate>, axioms: seq<QFormula>, certify: bool, oracle: Oracle, sorts: Sorts) {
    forall own: QuantityId -> Option<PropId>, bases: nat -> seq<Object>, event: Surroundings, v: Valuation ::
      ReconEvent(cands, axioms, own, bases, event, v) && Believed(certify, oracle, sorts, own, v) ==> AllHold(facts, v)
  }

  ghost predicate FactsAbout(facts: Assertions, cands: seq<Candidate>) {
    forall k :: 0 <= k < |facts| ==> exists c | c in cands ::
      facts[k].1 == SizeLe(c.sizeA, c.sizeB) || facts[k].1 == SizeLe(c.sizeB, c.sizeA)
  }

  lemma SizeLeMentions(a: QuantityId, b: QuantityId)
    ensures Mentions(SizeLe(a, b)) <= {a, b} && NormalAtoms(SizeLe(a, b))
  {
    var given := [(1.0, a), (-1.0, b)];
    var ts := seq(2, i requires 0 <= i < 2 => Term(given[i].0, given[i].1));
    NormalizeSound(ts);
    forall t | t in Normalize(ts) ensures t.q in {a, b} {
      DropZerosMember(Merge([], ts), t);
      MergeKeys([], ts, t);
    }
  }

  lemma GroundedSorts(own: QuantityId -> Option<PropId>, sorts: Sorts, v: Valuation, o: Object)
    requires WellSorted(sorts, v) && OwnAreReal(own, sorts)
    ensures WellSorted(sorts, Grounded1(v, own, o))
  {
    forall q: QuantityId | sorts(q) ensures Grounded1(v, own, o)(q) == Grounded1(v, own, o)(q).Floor as real {
      assert own(q).None?;
    }
  }

  /** The background survives grounding the generic element on any object. */
  lemma GroundedBackground(bg: Background, cands: seq<Candidate>, own: QuantityId -> Option<PropId>, bases: nat -> seq<Object>,
      event: Surroundings, v: Valuation, o: Object)
    requires ReconEvent(cands, bg.axioms, own, bases, event, v) && FactsAbout(bg.facts, cands) && BackgroundHolds(bg, v)
    ensures BackgroundHolds(bg, Grounded1(v, own, o))
  {
    hide Holds, Mentions, CandidateFits, SizeLe;
    var w := Grounded1(v, own, o);
    forall f | f in bg.axioms ensures Holds(f, w) { HoldsAgrees(f, v, w); }
    forall k | 0 <= k < |bg.facts| ensures Holds(bg.facts[k].1, w) {
      var c :| c in cands && (bg.facts[k].1 == SizeLe(c.sizeA, c.sizeB) || bg.facts[k].1 == SizeLe(c.sizeB, c.sizeA));
      var i :| 0 <= i < |cands| && cands[i] == c;
      SizesNotOwn(cands[i], own, bases, event, v);
      SizeLeMentions(c.sizeA, c.sizeB);
      SizeLeMentions(c.sizeB, c.sizeA);
      HoldsAgrees(bg.facts[k].1, v, w);
    }
  }

  lemma SizesNotOwn(c: Candidate, own: QuantityId -> Option<PropId>, bases: nat -> seq<Object>, event: Surroundings, v: Valuation)
    requires CandidateFits(c, own, bases, event, v)
    ensures own(c.sizeA).None? && own(c.sizeB).None?
  {
  }

  lemma SizeLeHolds(a: QuantityId, b: QuantityId, v: Valuation)
    ensures Holds(SizeLe(a, b), v) <==> v(a) <= v(b)
  {
    hide Holds;
    Axioms.CompareTwo(1.0, a, -1.0, b, Le, 0.0, v);
  }

  /** An implication proved under a true background yields a true fact. */
  lemma FactHolds(c: Candidate, forward: bool, bg: Background, cands: seq<Candidate>, certify: bool, oracle: Oracle, sorts: Sorts,
      own: QuantityId -> Option<PropId>, bases: nat -> seq<Object>, event: Surroundings, v: Valuation)
    requires c in cands && ReconEvent(cands, bg.axioms, own, bases, event, v) && Believed(certify, oracle, sorts, own, v)
    requires FactsAbout(bg.facts, cands) && BackgroundHolds(bg, v)
    requires forward ==> Implication(Lower(c.chainA), Lower(c.chainB), bg, certify, oracle, sorts)
    requires !forward ==> Implication(Lower(c.chainB), Lower(c.chainA), bg, certify, oracle, sorts)
    ensures Holds(if forward then SizeLe(c.sizeA, c.sizeB) else SizeLe(c.sizeB, c.sizeA), v)
  {
    hide Lower, Implies, BackgroundHolds, WellSorted, Honest, FilterChain, Holds, Mentions, FactsAbout, Grounds, SizeLe;
    var i :| 0 <= i < |cands| && cands[i] == c;
    var objs, a, b := bases(c.base), if forward then c.chainA else c.chainB, if forward then c.chainB else c.chainA;
    assert CandidateFits(c, own, bases, event, v);
    forall o | o in objs ensures Implies(Lower(a), Lower(b), Grounded1(v, own, o)) {
      GroundedBackground(bg, cands, own, bases, event, v, o);
      if !certify { GroundedSorts(own, sorts, v, o); }
    }
    ImplicationOrdersSizes(a, b, objs, event, own, v);
    SizeLeHolds(c.sizeA, c.sizeB, v);
    SizeLeHolds(c.sizeB, c.sizeA, v);
  }

  // ----- the reconciliation loop -----

  datatype PredImplies = PredImplies(aInB: Proof, bInA: Proof)

  function FrameQuery(a: Formula, b: Formula): Assertions { [("", Under(a)), ("", Under(b))] }

  /** Both directions follow the solver's answers, unless it finds no model of
      the two chains together. */
  ghost predicate ImplyAnswers(r: PredImplies, a: Formula, b: Formula, certify: bool, bg: Background, oracle: Oracle, n: nat) {
    if Reply(oracle, n, FrameQuery(a, b), bg).result != SomeModel then !r.aInB.holds && !r.bInA.holds
    else
      && Answers(r.aInB.holds, oracle, n + 1, certify, ImplicationQuery(a, b), bg)
      && Answers(r.bInA.holds, oracle, n + 2, certify, ImplicationQuery(b, a), bg)
  }

  /** `prove_pred_implies`: both directions, unless the two chains look
      incompatible to the solver. */
  method ProvePredImplies(solver: Solver, certify: bool, a: Formula, b: Formula, bg: Background) returns (r: PredImplies)
    requires Grounded(solver, bg) && NormalBackground(bg)
    requires NormalAtoms(Over(a)) && NormalAtoms(Over(b)) && NormalAtoms(Under(a)) && NormalAtoms(Under(b))
    modifies solver
    ensures Grounded(solver, bg)
    ensures r.aInB.holds ==> Implication(a, b, bg, certify, solver.oracle, solver.sorts) && (certify ==> r.aInB.chain)
    ensures r.bInA.holds ==> Implication(b, a, bg, certify, solver.oracle, solver.sorts) && (certify ==> r.bInA.chain)
    ensures ImplyAnswers(r, a, b, certify, bg, solver.oracle, old(solver.asked))
  {
    hide NormalAtoms, Implication, Available, Project, Answers;
    solver.Push();
    solver.AssertAll(FrameQuery(a, b));
    assert [] + FrameQuery(a, b) == FrameQuery(a, b);
    assert solver.frames == [Available([], bg)] + [FrameQuery(a, b)];
    var frame := solver.CheckUnsat();
    solver.Pop();
    assert solver.frames == [Available([], bg)];
    if frame != SomeModel { return PredImplies(Proof(false, false), Proof(false, false)); }
    var ab := SubsetProof(solver, certify, a, b, bg);
    var ba := SubsetProof(solver, certify, b, a, bg);
    r := PredImplies(ab, ba);
  }

  /** A fact joins the background in the solver's base frame. */
  method AssertFact(solver: Solver, axioms: seq<QFormula>, facts: Assertions, name: Name, fact: QFormula)
    requires Grounded(solver, Background(axioms, facts))
    modifies solver
    ensures Grounded(solver, Background(axioms, facts + [(name, fact)]))
  {
    hide NamedAxioms;
    solver.AssertFormula(fact, name);
    assert Available([], Background(axioms, facts)) + [(name, fact)] == Available([], Background(axioms, facts + [(name, fact)]));
  }

  ghost predicate ChainsNormal(c: Candidate) {
    && NormalAtoms(Over(Lower(c.chainA))) && NormalAtoms(Under(Lower(c.chainA)))
    && NormalAtoms(Over(Lower(c.chainB))) && NormalAtoms(Under(Lower(c.chainB)))
  }

  /** The facts so far, and the solver that holds them. */
  ghost predicate Derived(facts: Assertions, cands: seq<Candidate>, axioms: seq<QFormula>, certify: bool, oracle: Oracle, sorts: Sorts) {
    && FactsTrue(facts, cands, axioms, certify, oracle, sorts)
    && FactsAbout(facts, cands)
    && AllNormalNamed(facts)
  }

  lemma DeriveFact(c: Candidate, forward: bool, facts: Assertions, name: Name, cands: seq<Candidate>, axioms: seq<QFormula>,
      certify: bool, oracle: Oracle, sorts: Sorts)
    requires c in cands && Derived(facts, cands, axioms, certify, oracle, sorts)
    requires forward ==> Implication(Lower(c.chainA), Lower(c.chainB), Background(axioms, facts), certify, oracle, sorts)
    requires !forward ==> Implication(Lower(c.chainB), Lower(c.chainA), Background(axioms, facts), certify, oracle, sorts)
    ensures var fact := if forward then SizeLe(c.sizeA, c.sizeB) else SizeLe(c.sizeB, c.sizeA);
      Derived(facts + [(name, fact)], cands, axioms, certify, oracle, sorts)
  {
    hide Implication, Lower, ReconEvent, Believed, Holds, SizeLe, NormalAtoms, HoldsAll;
    var fact := if forward then SizeLe(c.sizeA, c.sizeB) else SizeLe(c.sizeB, c.sizeA);
    var bg := Background(axioms, facts);
    SizeLeMentions(c.sizeA, c.sizeB);
    SizeLeMentions(c.sizeB, c.sizeA);
    forall own: QuantityId -> Option<PropId>, bases: nat -> seq<Object>, event: Surroundings, v: Valuation
      | ReconEvent(cands, axioms, own, bases, event, v) && Believed(certify, oracle, sorts, own, v)
      ensures AllHold(facts + [(name, fact)], v)
    {
      AxiomsHold(cands, axioms, own, bases, event, v);
      FactHolds(c, forward, bg, cands, certify, oracle, sorts, own, bases, event, v);
    }
  }

  lemma AxiomsHold(cands: seq<Candidate>, axioms: seq<QFormula>, own: QuantityId -> Option<PropId>, bases: nat -> seq<Object>,
      event: Surroundings, v: Valuation)
    requires ReconEvent(cands, axioms, own, bases, event, v)
    ensures HoldsAll(axioms, v)
  {
  }

  /** Fewer premises do no harm: an implication under fewer facts stands. */
  lemma ImplicationWeakens(a: Formula, b: Formula, axioms: seq<QFormula>, facts: Assertions, name: Name, fact: QFormula,
      certify: bool, oracle: Oracle, sorts: Sorts)
    requires Implication(a, b, Background(axioms, facts), certify, oracle, sorts)
    ensures Implication(a, b, Background(axioms, facts + [(name, fact)]), certify, oracle, sorts)
  {
    hide Implies, Honest, WellSorted, Holds;
    forall v: Valuation ensures BackgroundHolds(Background(axioms, facts + [(name, fact)]), v) ==> BackgroundHolds(Background(axioms, facts), v) {
      AllHoldConcat(facts, [(name, fact)], v);
    }
  }

  /** The facts that one candidate's answers bring, named from the n-th on. */
  function Emits(c: Candidate, r: PredImplies, n: nat, existing: set<(QuantityId, QuantityId)>, certify: bool): Assertions {
    var first :=
      if r.aInB.holds && c.sizeA != c.sizeB && (c.sizeA, c.sizeB) !in existing && (!certify || r.aInB.chain)
      then [("XR" + Digits(n), SizeLe(c.sizeA, c.sizeB))] else [];
    var second :=
      if r.bInA.holds && c.sizeA != c.sizeB && (c.sizeB, c.sizeA) !in existing && (!certify || r.bInA.chain)
      then [("XR" + Digits(n + |first|), SizeLe(c.sizeB, c.sizeA))] else [];
    first + second
  }

  function FactsOf(cands: seq<Candidate>, rs: seq<PredImplies>, existing: set<(QuantityId, QuantityId)>, certify: bool): Assertions
    requires |rs| <= |cands|
  {
    if rs == [] then []
    else
      var k := |rs| - 1;
      var before := FactsOf(cands, rs[..k], existing, certify);
      before + Emits(cands[k], rs[k], |before|, existing, certify)
  }

  ghost predicate AnsweredUnder(r: PredImplies, c: Candidate, bg: Background, certify: bool, oracle: Oracle) {
    exists n: nat :: ImplyAnswers(r, Lower(c.chainA), Lower(c.chainB), certify, bg, oracle, n)
  }

  /** Each candidate's answers were given under the facts before it. */
  ghost predicate Answered(cands: seq<Candidate>, rs: seq<PredImplies>, axioms: seq<QFormula>,
      existing: set<(QuantityId, QuantityId)>, certify: bool, oracle: Oracle)
    requires |rs| <= |cands|
  {
    forall k :: 0 <= k < |rs| ==>
      AnsweredUnder(rs[k], cands[k], Background(axioms, FactsOf(cands, rs[..k], existing, certify)), certify, oracle)
  }

  lemma AnswersExtend(cands: seq<Candidate>, rs: seq<PredImplies>, r: PredImplies, axioms: seq<QFormula>,
      existing: set<(QuantityId, QuantityId)>, certify: bool, oracle: Oracle)
    requires |rs| < |cands| && Answered(cands, rs, axioms, existing, certify, oracle)
    requires AnsweredUnder(r, cands[|rs|], Background(axioms, FactsOf(cands, rs, existing, certify)), certify, oracle)
    ensures Answered(cands, rs + [r], axioms, existing, certify, oracle)
    ensures var before := FactsOf(cands, rs, existing, certify);
      FactsOf(cands, rs + [r], existing, certify) == before + Emits(cands[|rs|], r, |before|, existing, certify)
  {
    hide AnsweredUnder, FactsOf;
    var more := rs + [r];
    forall k | 0 <= k < |more|
      ensures AnsweredUnder(more[k], cands[k], Background(axioms, FactsOf(cands, more[..k], existing, certify)), certify, oracle)
    {
      assert more[..k] == if k < |rs| then rs[..k] else rs;
      assert more[k] == if k < |rs| then rs[k] else r;
    }
    FactsOfSnoc(cands, rs, r, existing, certify);
  }

  lemma FactsOfSnoc(cands: seq<Candidate>, rs: seq<PredImplies>, r: PredImplies, existing: set<(QuantityId, QuantityId)>, certify: bool)
    requires |rs| < |cands|
    ensures var before := FactsOf(cands, rs, existing, certify);
      FactsOf(cands, rs + [r], existing, certify) == before + Emits(cands[|rs|], r, |before|, existing, certify)
  {
    hide Emits;
    assert (rs + [r])[..|rs|] == rs;
  }

  /** Derive size facts candidate by candidate, each under the ones before. With
      certification on, no fact rests on the solver's word; and every fact is true
      of every event that the derivation speaks of. */
  method ApplyReconcile(solver: Solver, certify: bool, cands: seq<Candidate>, axioms: seq<QFormula>,
      existing: set<(QuantityId, QuantityId)>) returns (facts: Assertions)
    requires Grounded(solver, Background(axioms, [])) && AllNormal(axioms)
    requires forall c | c in cands :: ChainsNormal(c)
    modifies solver
    ensures Grounded(solver, Background(axioms, facts))
    ensures Derived(facts, cands, axioms, certify, solver.oracle, solver.sorts)
    ensures exists rs: seq<PredImplies> :: |rs| == |cands| && facts == FactsOf(cands, rs, existing, certify)
                                           && Answered(cands, rs, axioms, existing, certify, solver.oracle)
  {
    hide FactsTrue, FactsAbout, Available, Implication, Lower, NormalAtoms, Project, SizeLe, Digits, FactsOf, Answered, ImplyAnswers;
    facts := [];
    ghost var rs: seq<PredImplies> := [];
    NothingAnswered(cands, axioms, existing, certify, solver.oracle);
    NothingDerived(cands, axioms, certify, solver.oracle, solver.sorts);
    for i := 0 to |cands|
      invariant Grounded(solver, Background(axioms, facts))
      invariant Derived(facts, cands, axioms, certify, solver.oracle, solver.sorts)
      invariant |rs| == i && facts == FactsOf(cands, rs, existing, certify)
      invariant Answered(cands, rs, axioms, existing, certify, solver.oracle)
    {
      var c := cands[i];
      assert ChainsNormal(c);
      var pi := ProvePredImplies(solver, certify, Lower(c.chainA), Lower(c.chainB), Background(axioms, facts));
      assert AnsweredUnder(pi, c, Background(axioms, facts), certify, solver.oracle);
      AnswersExtend(cands, rs, pi, axioms, existing, certify, solver.oracle);
      rs := rs + [pi];
      if pi.aInB.holds && c.sizeA != c.sizeB && (c.sizeA, c.sizeB) !in existing && (!certify || pi.aInB.chain) {
        var name := "XR" + Digits(|facts|);
        DeriveFact(c, true, facts, name, cands, axioms, certify, solver.oracle, solver.sorts);
        if pi.bInA.holds {
          ImplicationWeakens(Lower(c.chainB), Lower(c.chainA), axioms, facts, name, SizeLe(c.sizeA, c.sizeB),
            certify, solver.oracle, solver.sorts);
        }
        AssertFact(solver, axioms, facts, name, SizeLe(c.sizeA, c.sizeB));
        facts := facts + [(name, SizeLe(c.sizeA, c.sizeB))];
      }
      if pi.bInA.holds && c.sizeA != c.sizeB && (c.sizeB, c.sizeA) !in existing && (!certify || pi.bInA.chain) {
        var name := "XR" + Digits(|facts|);
        DeriveFact(c, false, facts, name, cands, axioms, certify, solver.oracle, solver.sorts);
        AssertFact(solver, axioms, facts, name, SizeLe(c.sizeB, c.sizeA));
        facts := facts + [(name, SizeLe(c.sizeB, c.sizeA))];
      }
    }
  }

  lemma NothingAnswered(cands: seq<Candidate>, axioms: seq<QFormula>, existing: set<(QuantityId, QuantityId)>, certify: bool,
      oracle: Oracle)
    ensures FactsOf(cands, [], existing, certify) == [] && Answered(cands, [], axioms, existing, certify, oracle)
  {
  }

  lemma NothingDerived(cands: seq<Candidate>, axioms: seq<QFormula>, certify: bool, oracle: Oracle, sorts: Sorts)
    ensures Derived([], cands, axioms, certify, oracle, sorts)
  {
  }
}
