/** Closed-form certificates for the interval fast path: a constant false, one
    ground contradiction, or two opposing bounds on one quantity. */
module BoundCertificates {
  import opened Linear
  import opened Formulas
  import opened Constraints
  import opened Saturation
  import opened Certificates
  import FourierMotzkin

  const MAX_CONSTRAINTS: nat := 64

  /** The only term with a non-zero coefficient, if there is exactly one. */
  function SoleTerm(c: Constraint): Option<Term> {
    var terms := DropZeros(c.coeffs);
    if |terms| == 1 then Some(terms[0]) else None
  }

  predicate IsGround(c: Constraint) { AllZero(c.coeffs) }

  function AbsReal(x: real): real { if x < 0.0 then -x else x }

  /** Multipliers that are zero except at i and j. */
  function PairLam(n: nat, i: nat, li: real, j: nat, lj: real): seq<real> {
    seq(n, k => if k == i then li else if k == j then lj else 0.0)
  }

  // ----- what a pair of multipliers derives -----

  lemma {:induction false} PairWeighted(cons: seq<Constraint>, i: nat, li: real, j: nat, lj: real, k: nat, q: QuantityId)
    requires i < j < |cons| && k <= |cons|
    ensures var lam := PairLam(|cons|, i, li, j, lj);
      Coeff(Weighted(cons, lam, k), q) ==
        (if i < k then Times(li, Coeff(cons[i].coeffs, q)) else 0.0) + (if j < k then Times(lj, Coeff(cons[j].coeffs, q)) else 0.0)
    ensures var lam := PairLam(|cons|, i, li, j, lj);
      WeightedRhs(cons, lam, k) ==
        (if i < k then ScaledRhs(li, cons[i]) else 0.0) + (if j < k then ScaledRhs(lj, cons[j]) else 0.0)
  {
    hide Coeff, Scale, Times, ScaledRhs;
    var lam := PairLam(|cons|, i, li, j, lj);
    if k != 0 {
      PairWeighted(cons, i, li, j, lj, k - 1, q);
      CoeffConcat(Weighted(cons, lam, k - 1), Scale(lam[k - 1], cons[k - 1].coeffs), q);
      CoeffScale(lam[k - 1], cons[k - 1].coeffs, q);
      ZeroTimes(Coeff(cons[k - 1].coeffs, q), cons[k - 1]);
    } else {
      assert Coeff([], q) == 0.0 by { NoTerms(q); }
    }
  }

  lemma NoTerms(q: QuantityId)
    ensures Coeff([], q) == 0.0
  {
  }

  lemma ZeroTimes(x: real, con: Constraint)
    ensures Times(0.0, x) == 0.0 && ScaledRhs(0.0, con) == 0.0
  {
  }

  /** Two constraints bound the same single quantity from opposite sides. */
  predicate Opposed(ci: Constraint, cj: Constraint) {
    && SoleTerm(ci).Some? && SoleTerm(cj).Some?
    && SoleTerm(ci).value.q == SoleTerm(cj).value.q
    && (SoleTerm(ci).value.coeff < 0.0) != (SoleTerm(cj).value.coeff < 0.0)
  }

  /** The weight that scales a sole coefficient to plus or minus one. */
  function Weight(c: Constraint): real
    requires SoleTerm(c).Some?
  {
    SoleWeight(c);
    1.0 / AbsReal(SoleTerm(c).value.coeff)
  }

  lemma SoleWeight(c: Constraint)
    requires SoleTerm(c).Some?
    ensures SoleTerm(c).value.coeff != 0.0
  {
    DropZerosMember(c.coeffs, DropZeros(c.coeffs)[0]);
  }

  /** The two bounds exclude each other: added up they derive `0 <= s` with s
      negative, or `0 < s` with s not positive. */
  predicate Conflicting(ci: Constraint, cj: Constraint)
    requires Opposed(ci, cj)
  {
    var s := Times(Weight(ci), ci.b) + Times(Weight(cj), cj.b);
    if ci.strict || cj.strict then s <= 0.0 else s < 0.0
  }

  lemma SoleCoeff(c: Constraint, q: QuantityId)
    requires SoleTerm(c).Some?
    ensures Coeff(c.coeffs, q) == if q == SoleTerm(c).value.q then SoleTerm(c).value.coeff else 0.0
  {
    DropZerosCoeff(c.coeffs, q);
    var t := DropZeros(c.coeffs)[0];
    assert DropZeros(c.coeffs) == [t] && [t][1..] == [];
  }

  lemma WeightFacts(c: Constraint)
    requires SoleTerm(c).Some?
    ensures Weight(c) > 0.0
    ensures Times(Weight(c), SoleTerm(c).value.coeff) == if SoleTerm(c).value.coeff < 0.0 then -1.0 else 1.0
    ensures Times(Weight(c), 0.0) == 0.0
  {
    SoleWeight(c);
  }

  /** The kernel accepts the weights of two opposed bounds exactly when the
      bounds exclude each other. */
  lemma OpposedRefutes(cons: seq<Constraint>, i: nat, j: nat)
    requires i < j < |cons| && Opposed(cons[i], cons[j])
    ensures FarkasRefutes(cons, PairLam(|cons|, i, Weight(cons[i]), j, Weight(cons[j]))) <==> Conflicting(cons[i], cons[j])
  {
    hide SoleTerm, Weight, Coeff, Weighted, WeightedRhs, Times;
    var ci, cj, n := cons[i], cons[j], |cons|;
    var lam := PairLam(n, i, Weight(ci), j, Weight(cj));
    WeightFacts(ci);
    WeightFacts(cj);
    forall q ensures Coeff(Weighted(cons, lam, n), q) == 0.0 {
      PairWeighted(cons, i, Weight(ci), j, Weight(cj), n, q);
      SoleCoeff(ci, q);
      SoleCoeff(cj, q);
    }
    FarkasCancels(cons, lam);
    PairWeighted(cons, i, Weight(ci), j, Weight(cj), n, 0);
    assert lam[i] != 0.0 && lam[j] != 0.0;
    assert forall k :: 0 <= k < n && k != i && k != j ==> lam[k] == 0.0;
  }

  /** A constraint over nothing that no number meets. */
  predicate Impossible(c: Constraint) { IsGround(c) && if c.strict then c.b <= 0.0 else c.b < 0.0 }

  lemma {:induction false} ZeroCoeff(ts: seq<Term>, q: QuantityId)
    requires AllZero(ts)
    ensures Coeff(ts, q) == 0.0
  {
    if ts != [] { ZeroCoeff(ts[1..], q); }
  }

  /** The kernel accepts a ground constraint alone exactly when it is impossible. */
  lemma GroundRefutes(cons: seq<Constraint>, i: nat)
    requires i < |cons| && IsGround(cons[i])
    ensures FarkasRefutes(cons, FourierMotzkin.Unit(|cons|, i)) <==> Impossible(cons[i])
  {
    hide Coeff, Weighted, WeightedRhs, Accumulated;
    var lam := FourierMotzkin.Unit(|cons|, i);
    FourierMotzkin.InitialDerived(cons, i);
    forall q { ZeroCoeff(cons[i].coeffs, q); }
    FarkasCancels(cons, lam);
  }

  /** Two of the constraints exclude each other. */
  ghost predicate SomePairConflicts(cons: seq<Constraint>) {
    exists i, j :: 0 <= i < j < |cons| && Opposed(cons[i], cons[j]) && Conflicting(cons[i], cons[j])
  }

  ghost predicate SomeImpossible(cons: seq<Constraint>) { exists i :: 0 <= i < |cons| && Impossible(cons[i]) }

  /** A conjunction with no case split and few constraints, one of them
      impossible or two of them excluding each other. */
  ghost predicate HasConflict(formulas: seq<QFormula>) {
    var items := SpineAll(formulas);
    var cons := CollectConstraints(items);
    LeftmostOr(items).None? && |cons| <= MAX_CONSTRAINTS && (SomeImpossible(cons) || SomePairConflicts(cons))
  }

  /** The untrusted producer. What it returns always replays, and it finds a
      certificate exactly where there is a constant false, an impossible
      constraint or a conflicting pair of bounds. */
  method ConstructBounds(formulas: seq<QFormula>) returns (r: Option<CertNode>)
    ensures r.Some? ==> Replay(r.value, formulas)
    ensures r.Some? <==> AnyFalse(formulas) || HasConflict(formulas)
  {
    hide FarkasRefutes, SoleTerm, Weight, Conflicting, Impossible, FourierMotzkin.Unit;
    var sat := Saturate(formulas);
    if sat.hasFalse { return Some(Contradiction); }
    if LeftmostOr(sat.items).Some? { return None; }
    var cons := CollectConstraints(sat.items);
    if |cons| == 0 || |cons| > MAX_CONSTRAINTS { return None; }
    var zeros := seq(|cons|, _ => 0.0);

    for i := 0 to |cons|
      invariant forall k :: 0 <= k < i ==> !Impossible(cons[k])
    {
      if IsGround(cons[i]) {
        var lam := zeros[i := 1.0];
        UnitUpdate(|cons|, i);
        GroundRefutes(cons, i);
        if FarkasRefutes(cons, lam) { return Some(Farkas(lam)); }
      } else {
        GroundOnly(cons[i]);
      }
    }

    for i := 0 to |cons|
      invariant forall a, b :: 0 <= a < i && a < b < |cons| && Opposed(cons[a], cons[b]) ==> !Conflicting(cons[a], cons[b])
    {
      var si := SoleTerm(cons[i]);
      if si.Some? {
        for j := i + 1 to |cons|
          invariant forall b :: i < b < j && Opposed(cons[i], cons[b]) ==> !Conflicting(cons[i], cons[b])
        {
          var sj := SoleTerm(cons[j]);
          if sj.Some? && si.value.q == sj.value.q && (si.value.coeff < 0.0) != (sj.value.coeff < 0.0) {
            var lam := zeros[i := Weight(cons[i])][j := Weight(cons[j])];
            assert lam == PairLam(|cons|, i, Weight(cons[i]), j, Weight(cons[j]));
            OpposedRefutes(cons, i, j);
            if FarkasRefutes(cons, lam) { return Some(Farkas(lam)); }
          }
        }
      }
    }
    r := None;
  }

  lemma UnitUpdate(n: nat, i: nat)
    requires i < n
    ensures seq(n, _ => 0.0)[i := 1.0] == FourierMotzkin.Unit(n, i)
  {
  }

  lemma GroundOnly(c: Constraint)
    requires !IsGround(c)
    ensures !Impossible(c)
  {
  }

  /** The checked entry point: construct, then replay. The replay never fails,
      so the answer is as complete as the construction. */
  method CertifyBounds(formulas: seq<QFormula>) returns (r: Option<CertNode>)
    ensures r.Some? ==> Replay(r.value, formulas) && !Satisfiable(formulas)
    ensures r.Some? <==> AnyFalse(formulas) || HasConflict(formulas)
  {
    var cert := ConstructBounds(formulas);
    match cert {
      case None => r := None;
      case Some(c) =>
        ReplaySound(c, formulas, 0);
        r := if Replay(c, formulas) then Some(c) else None;
    }
  }
}
