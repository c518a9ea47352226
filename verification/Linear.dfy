/** Linear forms over interned quantities, and linear atoms.
    Coefficients are exact rationals in the program; here they are `real`. */
module Linear {
  type QuantityId = nat

  /** What one event (or one solver model) assigns to every quantity. */
  type Valuation = QuantityId -> real

  /** Multiplication under a name, so that equal factors give equal products
      by congruence and proofs need no non-linear reasoning to see it. */
  function Times(x: real, y: real): real { x * y }

  datatype Term = Term(coeff: real, q: QuantityId)

  /** The value of a list of terms under a valuation. */
  function Dot(ts: seq<Term>, v: Valuation): real {
    if ts == [] then 0.0 else ts[0].coeff * v(ts[0].q) + Dot(ts[1..], v)
  }

  /** The total coefficient of one quantity. */
  function Coeff(ts: seq<Term>, q: QuantityId): real {
    if ts == [] then 0.0 else (if ts[0].q == q then ts[0].coeff else 0.0) + Coeff(ts[1..], q)
  }

  /** The iteration order of `std::map<QuantityId, Rat>`: strictly ascending keys. */
  ghost predicate Ordered(m: seq<Term>) {
    forall i, j :: 0 <= i < j < |m| ==> m[i].q < m[j].q
  }

  ghost predicate NonZero(m: seq<Term>) {
    forall i :: 0 <= i < |m| ==> m[i].coeff != 0.0
  }

  /** The normal form that `LinAtom::make` establishes. */
  ghost predicate Normal(m: seq<Term>) {
    Ordered(m) && NonZero(m)
  }

  function Scale(c: real, ts: seq<Term>): seq<Term> {
    if ts == [] then [] else [Term(c * ts[0].coeff, ts[0].q)] + Scale(c, ts[1..])
  }

  /** Find-or-insert in the ordered map, accumulating into an existing entry. */
  function AddTerm(m: seq<Term>, q: QuantityId, c: real): seq<Term> {
    if m == [] then [Term(c, q)]
    else if m[0].q < q then [m[0]] + AddTerm(m[1..], q, c)
    else if m[0].q == q then [Term(m[0].coeff + c, q)] + m[1..]
    else [Term(c, q)] + m
  }

  /** Erase the zero entries. */
  function DropZeros(m: seq<Term>): seq<Term> {
    if m == [] then []
    else if m[0].coeff == 0.0 then DropZeros(m[1..])
    else [m[0]] + DropZeros(m[1..])
  }

  /** Accumulate a list of terms into an ordered map, left to right. */
  function Merge(m: seq<Term>, ts: seq<Term>): seq<Term>
    decreases |ts|
  {
    if ts == [] then m else AddTerm(Merge(m, ts[..|ts| - 1]), ts[|ts| - 1].q, ts[|ts| - 1].coeff)
  }

  function Normalize(ts: seq<Term>): seq<Term> {
    DropZeros(Merge([], ts))
  }

  // ----- linear forms are determined by their coefficients -----

  lemma {:induction false} DotConcat(a: seq<Term>, b: seq<Term>, v: Valuation)
    ensures Dot(a + b, v) == Dot(a, v) + Dot(b, v)
  {
    if a == [] {
      assert a + b == b;
    } else {
      assert (a + b)[1..] == a[1..] + b;
      DotConcat(a[1..], b, v);
    }
  }

  lemma {:induction false} CoeffConcat(a: seq<Term>, b: seq<Term>, q: QuantityId)
    ensures Coeff(a + b, q) == Coeff(a, q) + Coeff(b, q)
  {
    if a == [] {
      assert a + b == b;
    } else {
      assert (a + b)[1..] == a[1..] + b;
      CoeffConcat(a[1..], b, q);
    }
  }

  lemma {:induction false} DotScale(c: real, ts: seq<Term>, v: Valuation)
    ensures Dot(Scale(c, ts), v) == Times(c, Dot(ts, v))
  {
    if ts != [] {
      DotScale(c, ts[1..], v);
      assert Scale(c, ts)[1..] == Scale(c, ts[1..]);
    }
  }

  lemma {:induction false} CoeffScale(c: real, ts: seq<Term>, q: QuantityId)
    ensures Coeff(Scale(c, ts), q) == Times(c, Coeff(ts, q))
  {
    if ts != [] {
      CoeffScale(c, ts[1..], q);
      assert Scale(c, ts)[1..] == Scale(c, ts[1..]);
    }
  }

  lemma {:induction false} ScaleAt(c: real, ts: seq<Term>, i: nat)
    requires i < |ts|
    ensures |Scale(c, ts)| == |ts|
    ensures Scale(c, ts)[i] == Term(c * ts[i].coeff, ts[i].q)
  {
    if i > 0 {
      ScaleAt(c, ts[1..], i - 1);
    } else if |ts| > 1 {
      ScaleAt(c, ts[1..], 0);
    }
  }

  lemma ScaleLength(c: real, ts: seq<Term>)
    ensures |Scale(c, ts)| == |ts|
  {
    if ts != [] { ScaleAt(c, ts, 0); }
  }

  lemma ScaleNormal(c: real, ts: seq<Term>)
    requires Normal(ts) && c != 0.0
    ensures Normal(Scale(c, ts))
  {
    forall i | 0 <= i < |ts| { ScaleAt(c, ts, i); }
    if ts != [] { ScaleAt(c, ts, 0); }
  }

  function Without(ts: seq<Term>, q: QuantityId): (r: seq<Term>)
    ensures |r| <= |ts|
    ensures ts != [] && ts[0].q == q ==> |r| < |ts|
  {
    if ts == [] then []
    else if ts[0].q == q then Without(ts[1..], q)
    else [ts[0]] + Without(ts[1..], q)
  }

  lemma {:induction false} WithoutCoeff(ts: seq<Term>, q: QuantityId, p: QuantityId)
    ensures Coeff(Without(ts, q), p) == if p == q then 0.0 else Coeff(ts, p)
  {
    if ts != [] {
      WithoutCoeff(ts[1..], q, p);
      if ts[0].q != q {
        assert Without(ts, q)[1..] == Without(ts[1..], q);
      }
    }
  }

  lemma {:induction false} WithoutDot(ts: seq<Term>, q: QuantityId, v: Valuation)
    ensures Dot(ts, v) == Times(Coeff(ts, q), v(q)) + Dot(Without(ts, q), v)
  {
    if ts == [] {
      TimesPlus(0.0, 0.0, v(q));
    } else {
      WithoutDot(ts[1..], q, v);
      assert Dot(ts, v) == Times(ts[0].coeff, v(ts[0].q)) + Dot(ts[1..], v);
      if ts[0].q == q {
        TimesPlus(ts[0].coeff, Coeff(ts[1..], q), v(q));
      } else {
        assert Without(ts, q)[1..] == Without(ts[1..], q);
        assert Dot(Without(ts, q), v) == Times(ts[0].coeff, v(ts[0].q)) + Dot(Without(ts[1..], q), v);
      }
    }
  }

  lemma TimesPlus(a: real, b: real, x: real)
    ensures Times(a + b, x) == Times(a, x) + Times(b, x) && Times(0.0, x) == 0.0
  {
  }

  lemma {:induction false} ZeroForm(ts: seq<Term>, v: Valuation)
    requires NoCoeff(ts)
    ensures Dot(ts, v) == 0.0
    decreases |ts|
  {
    if ts != [] {
      var q := ts[0].q;
      WithoutDot(ts, q, v);
      TimesPlus(0.0, 0.0, v(q));
      forall p ensures Coeff(Without(ts, q), p) == 0.0 { WithoutCoeff(ts, q, p); }
      ZeroForm(Without(ts, q), v);
    }
  }

  /** Two lists with the same coefficients are the same linear form. */
  lemma SameCoeffsSameDot(a: seq<Term>, b: seq<Term>, v: Valuation)
    requires forall q :: Coeff(a, q) == Coeff(b, q)
    ensures Dot(a, v) == Dot(b, v)
  {
    var d := a + Scale(-1.0, b);
    forall q ensures Coeff(d, q) == 0.0 {
      CoeffConcat(a, Scale(-1.0, b), q);
      CoeffScale(-1.0, b, q);
    }
    ZeroForm(d, v);
    DotConcat(a, Scale(-1.0, b), v);
    DotScale(-1.0, b, v);
  }

  // ----- the ordered map -----

  lemma {:induction false} AddTermCoeff(m: seq<Term>, q: QuantityId, c: real, p: QuantityId)
    ensures Coeff(AddTerm(m, q, c), p) == Coeff(m, p) + if p == q then c else 0.0
  {
    if m != [] && m[0].q < q {
      AddTermCoeff(m[1..], q, c, p);
    }
  }

  lemma {:induction false} AddTermKeys(m: seq<Term>, q: QuantityId, c: real)
    ensures forall t :: t in AddTerm(m, q, c) ==> t.q == q || exists s :: s in m && s.q == t.q
  {
    if m != [] && m[0].q < q {
      AddTermKeys(m[1..], q, c);
      forall t | t in AddTerm(m, q, c) && t.q != q
        ensures exists s :: s in m && s.q == t.q
      {
        if t == m[0] {
        } else {
          var s :| s in m[1..] && s.q == t.q;
          assert s in m;
        }
      }
    } else if m != [] {
      forall t | t in AddTerm(m, q, c) && t.q != q
        ensures exists s :: s in m && s.q == t.q
      {
        assert t in m;
      }
    }
  }

  lemma {:induction false} AddTermOrdered(m: seq<Term>, q: QuantityId, c: real)
    requires Ordered(m)
    ensures Ordered(AddTerm(m, q, c))
  {
    if m != [] && m[0].q < q {
      AddTermOrdered(m[1..], q, c);
      AddTermKeys(m[1..], q, c);
      var r := AddTerm(m[1..], q, c);
      forall j | 0 <= j < |r| ensures m[0].q < r[j].q {
        assert r[j] in r;
      }
    }
  }

  lemma {:induction false} DropZerosMember(m: seq<Term>, t: Term)
    ensures t in DropZeros(m) <==> t in m && t.coeff != 0.0
  {
    if m != [] {
      DropZerosMember(m[1..], t);
      assert m == [m[0]] + m[1..];
    }
  }

  lemma {:induction false} DropZerosNormal(m: seq<Term>)
    requires Ordered(m)
    ensures Normal(DropZeros(m))
  {
    if m != [] {
      DropZerosNormal(m[1..]);
      var r := DropZeros(m[1..]);
      forall j | 0 <= j < |r| ensures m[0].q < r[j].q {
        DropZerosMember(m[1..], r[j]);
        var k :| 0 <= k < |m[1..]| && m[1..][k] == r[j];
        assert m[k + 1] == r[j];
      }
    }
  }

  lemma {:induction false} DropZerosCoeff(m: seq<Term>, q: QuantityId)
    ensures Coeff(DropZeros(m), q) == Coeff(m, q)
  {
    if m != [] {
      DropZerosCoeff(m[1..], q);
      if m[0].coeff != 0.0 {
        assert DropZeros(m)[1..] == DropZeros(m[1..]);
      }
    }
  }

  lemma {:induction false} MergeCoeff(m: seq<Term>, ts: seq<Term>, q: QuantityId)
    ensures Coeff(Merge(m, ts), q) == Coeff(m, q) + Coeff(ts, q)
    decreases |ts|
  {
    if ts != [] {
      var init, t := ts[..|ts| - 1], ts[|ts| - 1];
      MergeCoeff(m, init, q);
      AddTermCoeff(Merge(m, init), t.q, t.coeff, q);
      assert ts == init + [t];
      CoeffConcat(init, [t], q);
      assert Coeff([t], q) == if t.q == q then t.coeff else 0.0;
    }
  }

  lemma {:induction false} MergeOrdered(m: seq<Term>, ts: seq<Term>)
    requires Ordered(m)
    ensures Ordered(Merge(m, ts))
    decreases |ts|
  {
    if ts != [] {
      MergeOrdered(m, ts[..|ts| - 1]);
      AddTermOrdered(Merge(m, ts[..|ts| - 1]), ts[|ts| - 1].q, ts[|ts| - 1].coeff);
    }
  }

  lemma {:induction false} MergeKeys(m: seq<Term>, ts: seq<Term>, t: Term)
    requires t in Merge(m, ts)
    ensures exists s :: s in m + ts && s.q == t.q
    decreases |ts|
  {
    if ts == [] {
      assert t in m + ts;
    } else {
      var init, e := ts[..|ts| - 1], ts[|ts| - 1];
      AddTermKeys(Merge(m, init), e.q, e.coeff);
      if t.q == e.q {
        assert e in m + ts;
      } else {
        var s :| s in Merge(m, init) && s.q == t.q;
        MergeKeys(m, init, s);
        var u :| u in m + init && u.q == s.q;
        assert u in m + ts;
      }
    }
  }

  /** `LinAtom::make` yields a normal form with the coefficients, hence the
      value, of the terms it was given. */
  lemma NormalizeSound(ts: seq<Term>)
    ensures Normal(Normalize(ts))
    ensures forall q :: Coeff(Normalize(ts), q) == Coeff(ts, q)
    ensures forall v :: Dot(Normalize(ts), v) == Dot(ts, v)
  {
    MergeOrdered([], ts);
    DropZerosNormal(Merge([], ts));
    forall q ensures Coeff(Normalize(ts), q) == Coeff(ts, q) {
      DropZerosCoeff(Merge([], ts), q);
      MergeCoeff([], ts, q);
    }
    forall v ensures Dot(Normalize(ts), v) == Dot(ts, v) {
      SameCoeffsSameDot(Normalize(ts), ts, v);
    }
  }

  /** In an ordered map the coefficient of a key is the entry stored under it. */
  lemma {:induction false} CoeffOfEntry(m: seq<Term>, i: nat)
    requires Ordered(m) && i < |m|
    ensures Coeff(m, m[i].q) == m[i].coeff
  {
    if i == 0 {
      CoeffAbsent(m[1..], m[0].q);
    } else {
      CoeffOfEntry(m[1..], i - 1);
    }
  }

  lemma {:induction false} CoeffAbsent(m: seq<Term>, q: QuantityId)
    requires forall t :: t in m ==> t.q != q
    ensures Coeff(m, q) == 0.0
  {
    if m != [] {
      assert m[0] in m;
      forall t | t in m[1..] ensures t.q != q { assert t in m; }
      CoeffAbsent(m[1..], q);
    }
  }

  predicate AllZero(m: seq<Term>) { forall t | t in m :: t.coeff == 0.0 }

  ghost predicate NoCoeff(m: seq<Term>) { forall q :: Coeff(m, q) == 0.0 }

  lemma AllZeroIffNoCoeff(m: seq<Term>)
    requires Ordered(m)
    ensures AllZero(m) <==> NoCoeff(m)
  {
    forall i | 0 <= i < |m| { CoeffOfEntry(m, i); }
    if AllZero(m) {
      forall q ensures Coeff(m, q) == 0.0 {
        if i :| 0 <= i < |m| && m[i].q == q {
          assert m[i] in m;
        } else {
          CoeffAbsent(m, q);
        }
      }
    } else {
      var t :| t in m && t.coeff != 0.0;
      var i :| 0 <= i < |m| && m[i] == t;
      assert Coeff(m, m[i].q) != 0.0;
    }
  }

  /** Two normal forms with the same coefficients are the same list. */
  lemma {:induction false} NormalUnique(a: seq<Term>, b: seq<Term>)
    requires Normal(a) && Normal(b)
    requires forall q :: Coeff(a, q) == Coeff(b, q)
    ensures a == b
  {
    if a == [] {
      if b != [] { assert Coeff(a, b[0].q) == Coeff(b, b[0].q); CoeffOfEntry(b, 0); }
    } else if b == [] {
      assert Coeff(a, a[0].q) == Coeff(b, a[0].q);
      CoeffOfEntry(a, 0);
    } else {
      CoeffOfEntry(a, 0);
      CoeffOfEntry(b, 0);
      if a[0].q < b[0].q { CoeffAbsent(b, a[0].q); }
      if b[0].q < a[0].q { CoeffAbsent(a, b[0].q); }
      assert a[0] == b[0];
      forall q ensures Coeff(a[1..], q) == Coeff(b[1..], q) {
        assert Coeff(a, q) == Coeff(b, q);
      }
      NormalUnique(a[1..], b[1..]);
    }
  }

  // ----- relations and atoms -----

  datatype Rel = Lt | Le | Gt | Ge | Eq | Ne

  function RelNegated(r: Rel): Rel {
    match r
    case Lt => Ge
    case Le => Gt
    case Gt => Le
    case Ge => Lt
    case Eq => Ne
    case Ne => Eq
  }

  function RelFlipped(r: Rel): Rel {
    match r
    case Lt => Gt
    case Le => Ge
    case Gt => Lt
    case Ge => Le
    case Eq => Eq
    case Ne => Ne
  }

  predicate RelEval(r: Rel, lhs: real, rhs: real) {
    match r
    case Lt => lhs < rhs
    case Le => lhs <= rhs
    case Gt => lhs > rhs
    case Ge => lhs >= rhs
    case Eq => lhs == rhs
    case Ne => lhs != rhs
  }

  /** A linear atom `terms rel constant`. */
  datatype LinAtom = LinAtom(terms: seq<Term>, rel: Rel, constant: real) {
    function Negated(): LinAtom { this.(rel := RelNegated(rel)) }
  }

  predicate AtomHolds(a: LinAtom, v: Valuation) {
    RelEval(a.rel, Dot(a.terms, v), a.constant)
  }

  function MakeAtom(terms: seq<Term>, rel: Rel, constant: real): LinAtom {
    LinAtom(Normalize(terms), rel, constant)
  }

  function Single(q: QuantityId, rel: Rel, constant: real): LinAtom {
    LinAtom([Term(1.0, q)], rel, constant)
  }

  lemma SingleIsMake(q: QuantityId, rel: Rel, constant: real)
    ensures Single(q, rel, constant) == MakeAtom([Term(1.0, q)], rel, constant)
    ensures Normal(Single(q, rel, constant).terms)
    ensures forall v: Valuation :: AtomHolds(Single(q, rel, constant), v) <==> RelEval(rel, v(q), constant)
  {
    var ts := [Term(1.0, q)];
    assert ts[..0] == [];
    assert Merge([], ts) == AddTerm(Merge([], ts[..0]), q, 1.0);
    assert Merge([], ts) == ts;
    assert ts[1..] == [];
    assert DropZeros(ts) == [ts[0]] + DropZeros(ts[1..]);
    forall v: Valuation
      ensures AtomHolds(Single(q, rel, constant), v) <==> RelEval(rel, v(q), constant)
    {
      assert Dot(ts, v) == ts[0].coeff * v(ts[0].q) + Dot(ts[1..], v);
      assert Single(q, rel, constant).terms == ts;
    }
  }

  /** Normalising the terms does not change what the atom says. */
  lemma MakeAtomMeans(terms: seq<Term>, rel: Rel, k: real, v: Valuation)
    ensures AtomHolds(MakeAtom(terms, rel, k), v) <==> RelEval(rel, Dot(terms, v), k)
  {
    NormalizeSound(terms);
  }

  /** The atom constructor as the program runs it: merge into an ordered map,
      then copy out the entries that are not zero. */
  method Make(terms: seq<Term>, rel: Rel, constant: real) returns (a: LinAtom)
    ensures a == MakeAtom(terms, rel, constant)
    ensures Normal(a.terms)
    ensures forall v :: AtomHolds(a, v) <==> RelEval(rel, Dot(terms, v), constant)
  {
    var merged: seq<Term> := [];
    for i := 0 to |terms|
      invariant merged == Merge([], terms[..i])
    {
      assert terms[..i + 1][..i] == terms[..i];
      merged := AddTerm(merged, terms[i].q, terms[i].coeff);
    }
    assert terms[..|terms|] == terms;
    var kept: seq<Term> := [];
    for i := 0 to |merged|
      invariant kept + DropZeros(merged[i..]) == DropZeros(merged)
    {
      if merged[i].coeff != 0.0 {
        assert kept + ([merged[i]] + DropZeros(merged[i + 1..])) == (kept + [merged[i]]) + DropZeros(merged[i + 1..]);
        kept := kept + [merged[i]];
      }
    }
    NormalizeSound(terms);
    a := LinAtom(kept, rel, constant);
  }
}
