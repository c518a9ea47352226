/** Upper-bound constraints and the Farkas refutation primitive: the trusted
    arithmetic of the certificate kernel. */
module Constraints {
  import opened Linear

  /** `coeffs <= b`, or `coeffs < b` when strict. */
  datatype Constraint = Constraint(coeffs: seq<Term>, b: real, strict: bool)

  predicate Meets(c: Constraint, v: Valuation) {
    if c.strict then Dot(c.coeffs, v) < c.b else Dot(c.coeffs, v) <= c.b
  }

  predicate MeetsAll(cons: seq<Constraint>, v: Valuation) {
    forall c | c in cons :: Meets(c, v)
  }

  ghost predicate Feasible(cons: seq<Constraint>) {
    exists v: Valuation :: MeetsAll(cons, v)
  }

  function Canonicalize(atom: LinAtom): Constraint {
    var flip := atom.rel == Ge || atom.rel == Gt;
    var strict := atom.rel == Lt || atom.rel == Gt;
    Constraint(if flip then Scale(-1.0, atom.terms) else atom.terms,
               if flip then -atom.constant else atom.constant,
               strict)
  }

  /** The canonical constraint says what the atom says, unless the atom is an
      equality or a disequality, which saturation removes beforehand. */
  lemma CanonicalizeFaithful(atom: LinAtom, v: Valuation)
    requires atom.rel != Eq && atom.rel != Ne
    ensures Meets(Canonicalize(atom), v) <==> AtomHolds(atom, v)
  {
    DotScale(-1.0, atom.terms, v);
  }

  lemma CanonicalizeNormal(atom: LinAtom)
    requires Normal(atom.terms)
    ensures Normal(Canonicalize(atom).coeffs)
  {
    ScaleNormal(-1.0, atom.terms);
  }

  // ----- weighted sums of the first n constraints -----

  /** All terms of the sum of `lam[i] * cons[i]`, not yet merged. */
  function Weighted(cons: seq<Constraint>, lam: seq<real>, n: nat): seq<Term>
    requires n <= |cons| && n <= |lam|
  {
    if n == 0 then [] else Weighted(cons, lam, n - 1) + Scale(lam[n - 1], cons[n - 1].coeffs)
  }

  function WeightedRhs(cons: seq<Constraint>, lam: seq<real>, n: nat): real
    requires n <= |cons| && n <= |lam|
  {
    if n == 0 then 0.0 else WeightedRhs(cons, lam, n - 1) + ScaledRhs(lam[n - 1], cons[n - 1])
  }

  function ScaledRhs(c: real, con: Constraint): real { Times(c, con.b) }

  /** Some strict constraint carries a non-zero multiplier. */
  predicate UsesStrict(cons: seq<Constraint>, lam: seq<real>, n: nat)
    requires n <= |cons| && n <= |lam|
  {
    exists i :: 0 <= i < n && lam[i] != 0.0 && cons[i].strict
  }

  predicate NonNegative(lam: seq<real>) {
    forall i :: 0 <= i < |lam| ==> lam[i] >= 0.0
  }

  /** One step of the checker's accumulation; a zero multiplier is skipped. */
  function Accumulate(acc: seq<Term>, c: real, con: Constraint): seq<Term> {
    if c == 0.0 then acc else Merge(acc, Scale(c, con.coeffs))
  }

  /** The coefficient map the checker accumulates. */
  function Accumulated(cons: seq<Constraint>, lam: seq<real>, n: nat): seq<Term>
    requires n <= |cons| && n <= |lam|
  {
    if n == 0 then [] else Accumulate(Accumulated(cons, lam, n - 1), lam[n - 1], cons[n - 1])
  }

  /** The multipliers derive `0 < s` with `s <= 0`, or `0 <= s` with `s < 0`. */
  predicate FarkasRefutes(cons: seq<Constraint>, lam: seq<real>) {
    && |lam| == |cons|
    && NonNegative(lam)
    && AllZero(Accumulated(cons, lam, |cons|))
    && var s := WeightedRhs(cons, lam, |cons|);
       if UsesStrict(cons, lam, |cons|) then s <= 0.0 else s < 0.0
  }

  lemma {:induction false} AccumulatedIsWeighted(cons: seq<Constraint>, lam: seq<real>, n: nat, q: QuantityId)
    requires n <= |cons| && n <= |lam|
    ensures Ordered(Accumulated(cons, lam, n))
    ensures Coeff(Accumulated(cons, lam, n), q) == Coeff(Weighted(cons, lam, n), q)
  {
    hide Coeff, Scale, Accumulate, Merge;
    if n != 0 {
      AccumulatedIsWeighted(cons, lam, n - 1, q);
      AccumulateStep(Accumulated(cons, lam, n - 1), lam[n - 1], cons[n - 1], q);
      CoeffConcat(Weighted(cons, lam, n - 1), Scale(lam[n - 1], cons[n - 1].coeffs), q);
    }
  }

  lemma AccumulateStep(acc: seq<Term>, c: real, con: Constraint, q: QuantityId)
    requires Ordered(acc)
    ensures Ordered(Accumulate(acc, c, con))
    ensures Coeff(Accumulate(acc, c, con), q) == Coeff(acc, q) + Coeff(Scale(c, con.coeffs), q)
  {
    if c == 0.0 {
      CoeffScale(c, con.coeffs, q);
    } else {
      MergeCoeff(acc, Scale(c, con.coeffs), q);
      MergeOrdered(acc, Scale(c, con.coeffs));
    }
  }

  /** The check, term by term, says that the weighted sum has no variable left. */
  lemma FarkasCancels(cons: seq<Constraint>, lam: seq<real>)
    requires |cons| == |lam|
    ensures AllZero(Accumulated(cons, lam, |cons|)) <==> NoCoeff(Weighted(cons, lam, |cons|))
  {
    var n := |cons|;
    AccumulatedIsWeighted(cons, lam, n, 0);
    AllZeroIffNoCoeff(Accumulated(cons, lam, n));
    forall q { AccumulatedIsWeighted(cons, lam, n, q); }
    SameCoeffs(Accumulated(cons, lam, n), Weighted(cons, lam, n));
  }

  lemma SameCoeffs(a: seq<Term>, b: seq<Term>)
    requires forall q :: Coeff(a, q) == Coeff(b, q)
    ensures NoCoeff(a) <==> NoCoeff(b)
  {
    if NoCoeff(a) { forall q ensures Coeff(b, q) == 0.0 { assert Coeff(a, q) == 0.0; } }
    if NoCoeff(b) { forall q ensures Coeff(a, q) == 0.0 { assert Coeff(b, q) == 0.0; } }
  }

  lemma {:induction false} WeightedBound(cons: seq<Constraint>, lam: seq<real>, n: nat, v: Valuation)
    requires n <= |cons| == |lam| && NonNegative(lam) && MeetsAll(cons, v)
    ensures Dot(Weighted(cons, lam, n), v) <= WeightedRhs(cons, lam, n)
    ensures UsesStrict(cons, lam, n) ==> Dot(Weighted(cons, lam, n), v) < WeightedRhs(cons, lam, n)
  {
    hide Dot, Weighted, WeightedRhs, UsesStrict, Meets;
    if n == 0 {
      WeightedEmpty(cons, lam, v);
    } else {
      WeightedBound(cons, lam, n - 1, v);
      assert cons[n - 1] in cons;
      WeightedBoundStep(cons, lam, n, v);
    }
  }

  lemma WeightedEmpty(cons: seq<Constraint>, lam: seq<real>, v: Valuation)
    ensures Dot(Weighted(cons, lam, 0), v) == 0.0 == WeightedRhs(cons, lam, 0)
    ensures !UsesStrict(cons, lam, 0)
  {
  }

  lemma WeightedBoundStep(cons: seq<Constraint>, lam: seq<real>, n: nat, v: Valuation)
    requires 0 < n <= |cons| == |lam| && lam[n - 1] >= 0.0 && Meets(cons[n - 1], v)
    requires Dot(Weighted(cons, lam, n - 1), v) <= WeightedRhs(cons, lam, n - 1)
    requires UsesStrict(cons, lam, n - 1) ==> Dot(Weighted(cons, lam, n - 1), v) < WeightedRhs(cons, lam, n - 1)
    ensures Dot(Weighted(cons, lam, n), v) <= WeightedRhs(cons, lam, n)
    ensures UsesStrict(cons, lam, n) ==> Dot(Weighted(cons, lam, n), v) < WeightedRhs(cons, lam, n)
  {
    hide *;
    WeightedStep(cons, lam, n, v);
    ScaledConstraint(cons[n - 1], lam[n - 1], v);
  }

  lemma WeightedStep(cons: seq<Constraint>, lam: seq<real>, n: nat, v: Valuation)
    requires 0 < n <= |cons| && n <= |lam|
    ensures Dot(Weighted(cons, lam, n), v) == Dot(Weighted(cons, lam, n - 1), v) + Dot(Scale(lam[n - 1], cons[n - 1].coeffs), v)
    ensures WeightedRhs(cons, lam, n) == WeightedRhs(cons, lam, n - 1) + ScaledRhs(lam[n - 1], cons[n - 1])
    ensures UsesStrict(cons, lam, n) <==> UsesStrict(cons, lam, n - 1) || (lam[n - 1] != 0.0 && cons[n - 1].strict)
  {
    hide Dot;
    DotConcat(Weighted(cons, lam, n - 1), Scale(lam[n - 1], cons[n - 1].coeffs), v);
  }

  lemma ScaledConstraint(con: Constraint, c: real, v: Valuation)
    requires c >= 0.0 && Meets(con, v)
    ensures Dot(Scale(c, con.coeffs), v) <= ScaledRhs(c, con)
    ensures con.strict && c != 0.0 ==> Dot(Scale(c, con.coeffs), v) < ScaledRhs(c, con)
  {
    DotScale(c, con.coeffs, v);
    TimesMonotone(c, Dot(con.coeffs, v), con.b);
  }

  lemma TimesMonotone(c: real, x: real, y: real)
    requires c >= 0.0 && x <= y
    ensures Times(c, x) <= Times(c, y)
    ensures c != 0.0 && x < y ==> Times(c, x) < Times(c, y)
  {
    assert Times(c, y) - Times(c, x) == Times(c, y - x);
    TimesSign(c, y - x);
  }

  lemma TimesSign(c: real, d: real)
    requires c >= 0.0 && d >= 0.0
    ensures Times(c, d) >= 0.0
    ensures Times(c, d) != 0.0 <==> c != 0.0 && d != 0.0
  {
  }

  /** Soundness of the primitive: accepted multipliers mean that no valuation
      meets all the constraints. */
  lemma FarkasSound(cons: seq<Constraint>, lam: seq<real>)
    requires FarkasRefutes(cons, lam)
    ensures !Feasible(cons)
  {
    FarkasCancels(cons, lam);
    forall v: Valuation ensures !MeetsAll(cons, v) {
      if MeetsAll(cons, v) {
        WeightedBound(cons, lam, |cons|, v);
        ZeroForm(Weighted(cons, lam, |cons|), v);
      }
    }
  }

  /** The checker as the program runs it. */
  method CheckFarkas(cons: seq<Constraint>, lam: seq<real>) returns (ok: bool)
    ensures ok == FarkasRefutes(cons, lam)
    ensures ok ==> !Feasible(cons)
  {
    if |lam| != |cons| { return false; }
    var acc: seq<Term> := [];
    var s, anyStrict := 0.0, false;
    for i := 0 to |cons|
      invariant forall k :: 0 <= k < i ==> lam[k] >= 0.0
      invariant acc == Accumulated(cons, lam, i)
      invariant s == WeightedRhs(cons, lam, i)
      invariant anyStrict == UsesStrict(cons, lam, i)
    {
      if lam[i] < 0.0 {
        return false;
      }
      if lam[i] != 0.0 {
        acc := Merge(acc, Scale(lam[i], cons[i].coeffs));
        s := s + lam[i] * cons[i].b;
        if cons[i].strict { anyStrict := true; }
      }
    }
    ok := AllZero(acc) && if anyStrict then s <= 0.0 else s < 0.0;
    if ok { FarkasSound(cons, lam); }
  }
}
