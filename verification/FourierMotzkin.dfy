/** Exact Fourier-Motzkin elimination with Farkas provenance over mixed strict
    and non-strict constraints: the leaf solver of the untrusted search. */
module FourierMotzkin {
  import opened Linear
  import opened Constraints

  /** A derived row `coeffs <= b` (or `<`), with the multipliers that derive it
      from the input constraints. */
  datatype Row = Row(coeffs: seq<Term>, b: real, strict: bool, prov: seq<real>) {
    function Claim(): Constraint { Constraint(coeffs, b, strict) }
  }

  datatype RowStatus = Contradiction | Satisfied | Open

  function Classify(row: Row): RowStatus {
    if row.coeffs != [] then Open
    else if (if row.strict then row.b <= 0.0 else row.b < 0.0) then Contradiction
    else Satisfied
  }

  datatype LeafResult = Refuted(multipliers: seq<real>) | Fits | TooBig

  // ----- combinations of two rows -----

  function Mix(mp: real, x: real, mn: real, y: real): real { mp * x + mn * y }

  function MixProv(mp: real, p: seq<real>, mn: real, n: seq<real>): seq<real>
    requires |p| == |n|
  {
    seq(|p|, i requires 0 <= i < |p| => Mix(mp, p[i], mn, n[i]))
  }

  /** `row` is the combination of the constraints that its provenance names. */
  ghost predicate Derived(row: Row, cons: seq<Constraint>) {
    && |row.prov| == |cons|
    && NonNegative(row.prov)
    && (forall q :: Coeff(row.coeffs, q) == Coeff(Weighted(cons, row.prov, |cons|), q))
    && row.b == WeightedRhs(cons, row.prov, |cons|)
    && (row.strict <==> UsesStrict(cons, row.prov, |cons|))
  }

  lemma MixAdd(mp: real, x: real, dx: real, mn: real, y: real, dy: real)
    ensures Mix(mp, x + dx, mn, y + dy) == Mix(mp, x, mn, y) + Mix(mp, dx, mn, dy)
  {
  }

  lemma MixTimes(mp: real, x: real, mn: real, y: real, k: real)
    ensures Times(Mix(mp, x, mn, y), k) == Mix(mp, Times(x, k), mn, Times(y, k))
  {
  }

  lemma MixCoeff(mp: real, x: real, mn: real, y: real, ts: seq<Term>, q: QuantityId)
    ensures Coeff(Scale(Mix(mp, x, mn, y), ts), q) == Mix(mp, Coeff(Scale(x, ts), q), mn, Coeff(Scale(y, ts), q))
  {
    hide *;
    CoeffScale(Mix(mp, x, mn, y), ts, q);
    CoeffScale(x, ts, q);
    CoeffScale(y, ts, q);
    MixTimes(mp, x, mn, y, Coeff(ts, q));
  }

  /** The weighted sum is linear in the multipliers, seen at one quantity. */
  lemma {:induction false} MixWeighted(cons: seq<Constraint>, mp: real, p: seq<real>, mn: real, n: seq<real>, k: nat, q: QuantityId)
    requires |p| == |n| == |cons| && k <= |cons|
    ensures Coeff(Weighted(cons, MixProv(mp, p, mn, n), k), q)
         == Mix(mp, Coeff(Weighted(cons, p, k), q), mn, Coeff(Weighted(cons, n, k), q))
    ensures WeightedRhs(cons, MixProv(mp, p, mn, n), k)
         == Mix(mp, WeightedRhs(cons, p, k), mn, WeightedRhs(cons, n, k))
  {
    hide Coeff, Scale, ScaledRhs, Weighted, WeightedRhs, Mix;
    var m := MixProv(mp, p, mn, n);
    WeightedCoeff(cons, m, k, q);
    WeightedCoeff(cons, p, k, q);
    WeightedCoeff(cons, n, k, q);
    if k == 0 {
      MixZero(mp, mn);
    } else {
      var con := cons[k - 1];
      MixWeighted(cons, mp, p, mn, n, k - 1, q);
      MixCoeff(mp, p[k - 1], mn, n[k - 1], con.coeffs, q);
      MixAdd(mp, Coeff(Weighted(cons, p, k - 1), q), Coeff(Scale(p[k - 1], con.coeffs), q),
             mn, Coeff(Weighted(cons, n, k - 1), q), Coeff(Scale(n[k - 1], con.coeffs), q));
      MixRhs(mp, p[k - 1], mn, n[k - 1], con);
      MixAdd(mp, WeightedRhs(cons, p, k - 1), ScaledRhs(p[k - 1], con),
             mn, WeightedRhs(cons, n, k - 1), ScaledRhs(n[k - 1], con));
    }
  }

  lemma MixZero(mp: real, mn: real)
    ensures Mix(mp, 0.0, mn, 0.0) == 0.0
  {
  }

  lemma MixRhs(mp: real, x: real, mn: real, y: real, con: Constraint)
    ensures ScaledRhs(Mix(mp, x, mn, y), con) == Mix(mp, ScaledRhs(x, con), mn, ScaledRhs(y, con))
  {
    MixTimes(mp, x, mn, y, con.b);
  }

  lemma WeightedCoeff(cons: seq<Constraint>, lam: seq<real>, k: nat, q: QuantityId)
    requires k <= |cons| == |lam|
    ensures Coeff(Weighted(cons, lam, k), q) ==
      if k == 0 then 0.0 else Coeff(Weighted(cons, lam, k - 1), q) + Coeff(Scale(lam[k - 1], cons[k - 1].coeffs), q)
    ensures WeightedRhs(cons, lam, k) ==
      if k == 0 then 0.0 else WeightedRhs(cons, lam, k - 1) + ScaledRhs(lam[k - 1], cons[k - 1])
  {
    hide Scale, ScaledRhs;
    if k != 0 { CoeffConcat(Weighted(cons, lam, k - 1), Scale(lam[k - 1], cons[k - 1].coeffs), q); }
  }

  lemma MixSign(mp: real, x: real, mn: real, y: real)
    requires mp > 0.0 && mn > 0.0 && x >= 0.0 && y >= 0.0
    ensures Mix(mp, x, mn, y) >= 0.0
    ensures Mix(mp, x, mn, y) != 0.0 <==> x != 0.0 || y != 0.0
  {
    TimesSign(mp, x);
    TimesSign(mn, y);
    assert Mix(mp, x, mn, y) == Times(mp, x) + Times(mn, y);
  }

  /** Motzkin: the combined provenance uses a strict constraint iff a parent does. */
  lemma MixStrict(cons: seq<Constraint>, mp: real, p: seq<real>, mn: real, n: seq<real>)
    requires |p| == |n| == |cons| && mp > 0.0 && mn > 0.0 && NonNegative(p) && NonNegative(n)
    ensures NonNegative(MixProv(mp, p, mn, n))
    ensures UsesStrict(cons, MixProv(mp, p, mn, n), |cons|)
       <==> UsesStrict(cons, p, |cons|) || UsesStrict(cons, n, |cons|)
  {
    var m := MixProv(mp, p, mn, n);
    forall i | 0 <= i < |cons|
      ensures m[i] >= 0.0 && (m[i] != 0.0 <==> p[i] != 0.0 || n[i] != 0.0)
    {
      MixSign(mp, p[i], mn, n[i]);
    }
  }

  /** What `combine` computes, coefficient by coefficient. */
  ghost predicate IsCombination(out: Row, mp: real, p: Row, mn: real, n: Row) {
    && Normal(out.coeffs)
    && (forall q :: Coeff(out.coeffs, q) == Mix(mp, Coeff(p.coeffs, q), mn, Coeff(n.coeffs, q)))
    && out.b == Mix(mp, p.b, mn, n.b)
    && out.strict == (p.strict || n.strict)
    && |p.prov| == |n.prov| && out.prov == MixProv(mp, p.prov, mn, n.prov)
  }

  /** Accumulate `c * ts` into an ordered map, term by term. */
  method AddScaled(m: seq<Term>, c: real, ts: seq<Term>) returns (r: seq<Term>)
    ensures r == Merge(m, Scale(c, ts))
  {
    ghost var st := Scale(c, ts);
    ScaleLength(c, ts);
    r := m;
    for i := 0 to |ts|
      invariant r == Merge(m, st[..i])
    {
      ScaleAt(c, ts, i);
      assert st[..i + 1][..i] == st[..i] && st[..i + 1][i] == st[i];
      r := AddTerm(r, ts[i].q, c * ts[i].coeff);
    }
    assert st[..|ts|] == st;
  }

  method Combine(mp: real, p: Row, mn: real, n: Row) returns (out: Row)
    requires |p.prov| == |n.prov|
    ensures IsCombination(out, mp, p, mn, n)
  {
    var coeffs := AddScaled([], mp, p.coeffs);
    coeffs := AddScaled(coeffs, mn, n.coeffs);
    CombinedCoeffs(mp, p.coeffs, mn, n.coeffs);
    var prov: seq<real> := [];
    for i := 0 to |p.prov|
      invariant |prov| == i && forall k :: 0 <= k < i ==> prov[k] == Mix(mp, p.prov[k], mn, n.prov[k])
    {
      prov := prov + [Mix(mp, p.prov[i], mn, n.prov[i])];
    }
    assert prov == MixProv(mp, p.prov, mn, n.prov);
    out := Row(DropZeros(coeffs), Mix(mp, p.b, mn, n.b), p.strict || n.strict, prov);
  }

  lemma CombinedCoeffs(mp: real, p: seq<Term>, mn: real, n: seq<Term>)
    ensures var m := DropZeros(Merge(Merge([], Scale(mp, p)), Scale(mn, n)));
      Normal(m) && forall q :: Coeff(m, q) == Mix(mp, Coeff(p, q), mn, Coeff(n, q))
  {
    var a := Merge([], Scale(mp, p));
    var m := Merge(a, Scale(mn, n));
    MergeOrdered([], Scale(mp, p));
    MergeOrdered(a, Scale(mn, n));
    DropZerosNormal(m);
    forall q ensures Coeff(DropZeros(m), q) == Mix(mp, Coeff(p, q), mn, Coeff(n, q)) {
      DropZerosCoeff(m, q);
      MergeCoeff([], Scale(mp, p), q);
      MergeCoeff(a, Scale(mn, n), q);
      CoeffScale(mp, p, q);
      CoeffScale(mn, n, q);
    }
  }

  lemma CombinationDerived(out: Row, mp: real, p: Row, mn: real, n: Row, cons: seq<Constraint>)
    requires Derived(p, cons) && Derived(n, cons) && mp > 0.0 && mn > 0.0
    requires IsCombination(out, mp, p, mn, n)
    ensures Derived(out, cons)
  {
    MixStrict(cons, mp, p.prov, mn, n.prov);
    forall q ensures Coeff(out.coeffs, q) == Coeff(Weighted(cons, out.prov, |cons|), q) {
      MixWeighted(cons, mp, p.prov, mn, n.prov, |cons|, q);
    }
    MixWeighted(cons, mp, p.prov, mn, n.prov, |cons|, 0);
  }

  /** A contradictory row hands the kernel multipliers that it accepts. */
  lemma ContradictionRefutes(row: Row, cons: seq<Constraint>)
    requires Derived(row, cons) && Classify(row) == Contradiction
    ensures FarkasRefutes(cons, row.prov)
  {
    SameCoeffs(row.coeffs, Weighted(cons, row.prov, |cons|));
    FarkasCancels(cons, row.prov);
  }

  // ----- the initial rows -----

  function Unit(n: nat, i: nat): seq<real> {
    seq(n, k => if k == i then 1.0 else 0.0)
  }

  lemma {:induction false} UnitWeighted(cons: seq<Constraint>, i: nat, k: nat, q: QuantityId)
    requires i < |cons| && k <= |cons|
    ensures Coeff(Weighted(cons, Unit(|cons|, i), k), q) == if i < k then Coeff(cons[i].coeffs, q) else 0.0
    ensures WeightedRhs(cons, Unit(|cons|, i), k) == if i < k then cons[i].b else 0.0
  {
    hide Coeff, Scale, Weighted, WeightedRhs, Times;
    var u := Unit(|cons|, i);
    WeightedCoeff(cons, u, k, q);
    if k != 0 {
      UnitWeighted(cons, i, k - 1, q);
      CoeffScale(u[k - 1], cons[k - 1].coeffs, q);
      TimesUnit(Coeff(cons[k - 1].coeffs, q));
      TimesUnit(cons[k - 1].b);
    }
  }

  lemma TimesUnit(x: real)
    ensures Times(1.0, x) == x && Times(0.0, x) == 0.0
  {
  }

  lemma InitialDerived(cons: seq<Constraint>, i: nat)
    requires i < |cons|
    ensures Derived(Row(cons[i].coeffs, cons[i].b, cons[i].strict, Unit(|cons|, i)), cons)
  {
    var u := Unit(|cons|, i);
    forall q ensures Coeff(cons[i].coeffs, q) == Coeff(Weighted(cons, u, |cons|), q) {
      UnitWeighted(cons, i, |cons|, q);
    }
    UnitWeighted(cons, i, |cons|, 0);
    if cons[i].strict { assert u[i] != 0.0; }
  }

  // ----- eliminating one variable -----

  function Update(v: Valuation, q: QuantityId, x: real): Valuation {
    (p: QuantityId) => if p == q then x else v(p)
  }

  lemma {:induction false} DotUpdate(ts: seq<Term>, v: Valuation, q: QuantityId, x: real)
    ensures Dot(ts, Update(v, q, x)) == Dot(ts, v) + Times(Coeff(ts, q), x - v(q))
  {
    if ts != [] {
      DotUpdate(ts[1..], v, q, x);
    }
  }

  /** The value at which a row with a coefficient on `q` becomes tight, all
      other quantities being as in `v`. */
  function TightAt(row: Row, q: QuantityId, v: Valuation): real
    requires Coeff(row.coeffs, q) != 0.0
  {
    v(q) + (row.b - Dot(row.coeffs, v)) / Coeff(row.coeffs, q)
  }

  /** A one-sided bound on the value of the eliminated quantity. */
  datatype Limit = Limit(value: real, strict: bool)

  predicate Below(x: real, u: Limit) { if u.strict then x < u.value else x <= u.value }

  predicate Above(x: real, l: Limit) { if l.strict then l.value < x else l.value <= x }

  function LimitOf(row: Row, q: QuantityId, v: Valuation): Limit
    requires Coeff(row.coeffs, q) != 0.0
  {
    Limit(TightAt(row, q, v), row.strict)
  }

  lemma Cancel(c: real, d: real, x: real)
    requires c != 0.0
    ensures c > 0.0 ==> (x <= d / c <==> Times(c, x) <= d) && (x < d / c <==> Times(c, x) < d)
    ensures c < 0.0 ==> (x >= d / c <==> Times(c, x) <= d) && (x > d / c <==> Times(c, x) < d)
  {
    var t := d / c;
    assert Times(c, t) == d;
    assert Times(c, t) - Times(c, x) == Times(c, t - x);
    if c > 0.0 {
      if x <= t { TimesSign(c, t - x); }
      if x >= t { TimesSign(c, x - t); }
    } else {
      if x <= t { TimesSign(-c, t - x); }
      if x >= t { TimesSign(-c, x - t); }
    }
  }

  /** A row that mentions `q` is a bound on `q`: from above when its coefficient
      is positive, from below when it is negative. */
  lemma RowIsLimit(row: Row, q: QuantityId, v: Valuation, x: real)
    requires Coeff(row.coeffs, q) != 0.0
    ensures Meets(row.Claim(), Update(v, q, x)) <==>
      if Coeff(row.coeffs, q) > 0.0 then Below(x, LimitOf(row, q, v)) else Above(x, LimitOf(row, q, v))
  {
    hide Dot, Coeff, Update, Times;
    DotUpdate(row.coeffs, v, q, x);
    Cancel(Coeff(row.coeffs, q), row.b - Dot(row.coeffs, v), x - v(q));
  }

  predicate Compatible(l: Limit, u: Limit) {
    l.value < u.value || (l.value == u.value && !l.strict && !u.strict)
  }

  lemma CombinationDot(out: Row, mp: real, p: Row, mn: real, n: Row, v: Valuation)
    requires IsCombination(out, mp, p, mn, n)
    ensures Dot(out.coeffs, v) == Mix(mp, Dot(p.coeffs, v), mn, Dot(n.coeffs, v))
  {
    hide Dot, Coeff, Scale;
    var sum := Scale(mp, p.coeffs) + Scale(mn, n.coeffs);
    forall q ensures Coeff(out.coeffs, q) == Coeff(sum, q) {
      CoeffConcat(Scale(mp, p.coeffs), Scale(mn, n.coeffs), q);
      CoeffScale(mp, p.coeffs, q);
      CoeffScale(mn, n.coeffs, q);
    }
    SameCoeffsSameDot(out.coeffs, sum, v);
    DotConcat(Scale(mp, p.coeffs), Scale(mn, n.coeffs), v);
    DotScale(mp, p.coeffs, v);
    DotScale(mn, n.coeffs, v);
  }

  lemma CrossSign(cp: real, cn: real, dp: real, dn: real)
    requires cp > 0.0 > cn
    ensures Mix(-cn, dp, cp, dn) > 0.0 <==> dn / cn < dp / cp
    ensures Mix(-cn, dp, cp, dn) == 0.0 <==> dn / cn == dp / cp
  {
    var tp, tn := dp / cp, dn / cn;
    assert dp == Times(cp, tp) && dn == Times(cn, tn);
    var k := Times(-cn, cp);
    TimesSign(-cn, cp);
    assert Mix(-cn, Times(cp, tp), cp, Times(cn, tn)) == Times(k, tp - tn);
    if tp >= tn {
      TimesSign(k, tp - tn);
    } else {
      TimesSign(k, tn - tp);
      assert Times(k, tp - tn) == -Times(k, tn - tp);
    }
  }

  /** The combined row says exactly that the two bounds leave room for `q`. */
  lemma CombinationIsCompatibility(out: Row, p: Row, n: Row, q: QuantityId, v: Valuation)
    requires Coeff(p.coeffs, q) > 0.0 > Coeff(n.coeffs, q)
    requires IsCombination(out, -Coeff(n.coeffs, q), p, Coeff(p.coeffs, q), n)
    ensures Meets(out.Claim(), v) <==> Compatible(LimitOf(n, q, v), LimitOf(p, q, v))
  {
    var cp, cn := Coeff(p.coeffs, q), Coeff(n.coeffs, q);
    var dp, dn := p.b - Dot(p.coeffs, v), n.b - Dot(n.coeffs, v);
    CombinationDot(out, -cn, p, cp, n, v);
    MixAdd(-cn, Dot(p.coeffs, v), dp, cp, Dot(n.coeffs, v), dn);
    CrossSign(cp, cn, dp, dn);
  }

  // ----- choosing a value between compatible bounds -----

  lemma {:induction false} TightestUpper(ups: seq<Limit>) returns (t: Limit)
    requires ups != []
    ensures t in ups
    ensures forall u :: u in ups ==> t.value < u.value || (t.value == u.value && (u.strict ==> t.strict))
  {
    t := ups[0];
    if |ups| > 1 {
      var r := TightestUpper(ups[1..]);
      if r.value < t.value || (r.value == t.value && r.strict) { t := r; }
      assert ups == [ups[0]] + ups[1..];
    }
  }

  lemma {:induction false} TightestLower(los: seq<Limit>) returns (t: Limit)
    requires los != []
    ensures t in los
    ensures forall l :: l in los ==> l.value < t.value || (t.value == l.value && (l.strict ==> t.strict))
  {
    t := los[0];
    if |los| > 1 {
      var r := TightestLower(los[1..]);
      if r.value > t.value || (r.value == t.value && r.strict) { t := r; }
      assert los == [los[0]] + los[1..];
    }
  }

  lemma ChooseBetween(los: seq<Limit>, ups: seq<Limit>) returns (x: real)
    requires forall l, u :: l in los && u in ups ==> Compatible(l, u)
    ensures forall l :: l in los ==> Above(x, l)
    ensures forall u :: u in ups ==> Below(x, u)
  {
    if ups == [] {
      if los == [] { return 0.0; }
      var l := TightestLower(los);
      x := l.value + 1.0;
    } else {
      var u := TightestUpper(ups);
      if los == [] {
        x := u.value - 1.0;
      } else {
        var l := TightestLower(los);
        assert Compatible(l, u);
        x := (l.value + u.value) / 2.0;
      }
    }
  }

  ghost predicate RowsMeet(rows: seq<Row>, v: Valuation) {
    forall r | r in rows :: Meets(r.Claim(), v)
  }

  /** The bounds that rows `n` (from below) and `p` (from above) put on `q` leave room. */
  ghost predicate LeaveRoom(n: Row, p: Row, q: QuantityId, v: Valuation) {
    Coeff(n.coeffs, q) != 0.0 && Coeff(p.coeffs, q) != 0.0 && Compatible(LimitOf(n, q, v), LimitOf(p, q, v))
  }

  /** A solution of the rows without `q` extends to `q` when all bounds leave room. */
  lemma ExtendSolution(pos: seq<Row>, neg: seq<Row>, rest: seq<Row>, q: QuantityId, v: Valuation) returns (w: Valuation)
    requires forall r :: r in pos ==> Coeff(r.coeffs, q) > 0.0
    requires forall r :: r in neg ==> Coeff(r.coeffs, q) < 0.0
    requires forall r :: r in rest ==> Coeff(r.coeffs, q) == 0.0
    requires RowsMeet(rest, v)
    requires forall n, p :: n in neg && p in pos ==> LeaveRoom(n, p, q, v)
    ensures RowsMeet(pos, w) && RowsMeet(neg, w) && RowsMeet(rest, w)
  {
    hide Dot, Coeff, Update, Times;
    var los := seq(|neg|, i requires 0 <= i < |neg| => LimitOf(neg[i], q, v));
    var ups := seq(|pos|, i requires 0 <= i < |pos| => LimitOf(pos[i], q, v));
    forall l, u | l in los && u in ups ensures Compatible(l, u) {
      var i :| 0 <= i < |los| && los[i] == l;
      var j :| 0 <= j < |ups| && ups[j] == u;
      assert LeaveRoom(neg[i], pos[j], q, v);
    }
    var x := ChooseBetween(los, ups);
    w := Update(v, q, x);
    forall r | r in pos ensures Meets(r.Claim(), w) {
      var i :| 0 <= i < |pos| && pos[i] == r;
      assert ups[i] in ups;
      RowIsLimit(r, q, v, x);
    }
    forall r | r in neg ensures Meets(r.Claim(), w) {
      var i :| 0 <= i < |neg| && neg[i] == r;
      assert los[i] in los;
      RowIsLimit(r, q, v, x);
    }
    forall r | r in rest ensures Meets(r.Claim(), w) {
      DotUpdate(r.coeffs, v, q, x);
      TimesUnit(x - v(q));
      assert Meets(r.Claim(), v);
    }
  }

  // ----- the quantities that open rows still mention -----

  ghost function Keys(ts: seq<Term>): set<QuantityId> { set t | t in ts :: t.q }

  ghost function Vars(rows: seq<Row>): set<QuantityId> {
    set r, t | r in rows && t in r.coeffs :: t.q
  }

  /** The quantities that the constraints mention. */
  ghost function ConstraintVars(cons: seq<Constraint>): set<QuantityId> {
    set c, t | c in cons && t in c.coeffs :: t.q
  }

  lemma {:induction false} SubsetSize(a: set<QuantityId>, b: set<QuantityId>)
    requires a <= b
    ensures |a| <= |b|
  {
    if x :| x in a { SubsetSize(a - {x}, b - {x}); }
  }

  lemma KeyIffCoeff(ts: seq<Term>, q: QuantityId)
    requires Normal(ts)
    ensures q in Keys(ts) <==> Coeff(ts, q) != 0.0
  {
    hide Coeff;
    if q in Keys(ts) {
      var t :| t in ts && t.q == q;
      var i :| 0 <= i < |ts| && ts[i] == t;
      CoeffOfEntry(ts, i);
    } else {
      CoeffAbsent(ts, q);
    }
  }

  /** An open row of the working set. */
  ghost predicate Working(row: Row, cons: seq<Constraint>) {
    Derived(row, cons) && Normal(row.coeffs) && row.coeffs != []
  }

  /** A combination that eliminates `q` mentions only other quantities of its parents. */
  lemma CombinationKeys(out: Row, p: Row, n: Row, q: QuantityId)
    requires Normal(p.coeffs) && Normal(n.coeffs)
    requires Coeff(p.coeffs, q) > 0.0 > Coeff(n.coeffs, q)
    requires IsCombination(out, -Coeff(n.coeffs, q), p, Coeff(p.coeffs, q), n)
    ensures Coeff(out.coeffs, q) == 0.0
    ensures Keys(out.coeffs) <= Keys(p.coeffs) + Keys(n.coeffs) - {q}
  {
    hide Coeff;
    var cp, cn := Coeff(p.coeffs, q), Coeff(n.coeffs, q);
    assert Coeff(out.coeffs, q) == Mix(-cn, cp, cp, cn);
    forall k | k in Keys(out.coeffs) ensures k in Keys(p.coeffs) + Keys(n.coeffs) - {q} {
      KeyIffCoeff(out.coeffs, k);
      KeyIffCoeff(p.coeffs, k);
      KeyIffCoeff(n.coeffs, k);
      MixZero(-cn, cp);
    }
  }

  lemma VarsEmpty(rows: seq<Row>)
    ensures Vars(rows) == {} <==> forall k :: 0 <= k < |rows| ==> rows[k].coeffs == []
  {
    if k :| 0 <= k < |rows| && rows[k].coeffs != [] {
      assert rows[k] in rows && rows[k].coeffs[0] in rows[k].coeffs;
      assert rows[k].coeffs[0].q in Vars(rows);
    } else {
      forall q ensures q !in Vars(rows) {
        assert forall r :: r in rows ==> r.coeffs == [];
      }
    }
  }

  datatype Pick = NoVar | Var(q: QuantityId)

  /** The least quantity that an open row mentions. */
  method PickVar(rows: seq<Row>) returns (best: Pick)
    requires forall r :: r in rows ==> Ordered(r.coeffs)
    ensures best.NoVar? <==> Vars(rows) == {}
    ensures best.Var? ==> best.q in Vars(rows) && forall k :: k in Vars(rows) ==> best.q <= k
  {
    best := NoVar;
    for i := 0 to |rows|
      invariant best.NoVar? <==> forall k :: 0 <= k < i ==> rows[k].coeffs == []
      invariant best.Var? ==> best.q in Vars(rows)
      invariant best.Var? ==> forall k, t :: 0 <= k < i && t in rows[k].coeffs ==> best.q <= t.q
    {
      if rows[i].coeffs != [] {
        var first := rows[i].coeffs[0];
        assert rows[i] in rows && first in rows[i].coeffs;
        assert first.q in Vars(rows);
        if best.NoVar? || first.q < best.q { best := Var(first.q); }
      }
    }
    VarsEmpty(rows);
  }

  datatype Split = Split(pos: seq<Row>, neg: seq<Row>, rest: seq<Row>)

  ghost predicate IsSplit(s: Split, rows: seq<Row>, q: QuantityId) {
    && (forall r :: r in s.pos ==> r in rows && Coeff(r.coeffs, q) > 0.0)
    && (forall r :: r in s.neg ==> r in rows && Coeff(r.coeffs, q) < 0.0)
    && (forall r :: r in s.rest ==> r in rows && Coeff(r.coeffs, q) == 0.0)
    && (forall r :: r in rows ==> r in s.pos || r in s.neg || r in s.rest)
  }

  /** The rows whose coefficient on `q` has that sign, in order. */
  function Signed(rows: seq<Row>, q: QuantityId, sign: int): seq<Row> {
    if rows == [] then []
    else
      var last := rows[|rows| - 1];
      Signed(rows[..|rows| - 1], q, sign) + if SignOf(Coeff(last.coeffs, q)) == sign then [last] else []
  }

  function SignOf(x: real): int { if x > 0.0 then 1 else if x < 0.0 then -1 else 0 }

  function SplitBy(rows: seq<Row>, q: QuantityId): Split { Split(Signed(rows, q, 1), Signed(rows, q, -1), Signed(rows, q, 0)) }

  lemma {:induction false} SplitByIsSplit(rows: seq<Row>, q: QuantityId)
    ensures var s := SplitBy(rows, q); IsSplit(s, rows, q) && |s.pos| + |s.neg| + |s.rest| == |rows|
  {
    hide Coeff;
    if rows != [] {
      var n := |rows| - 1;
      SplitByIsSplit(rows[..n], q);
      assert rows == rows[..n] + [rows[n]];
    }
  }

  /** Sort the rows by the sign of their coefficient on `q`. */
  method Partition(rows: seq<Row>, q: QuantityId) returns (s: Split)
    ensures IsSplit(s, rows, q) && |s.pos| + |s.neg| + |s.rest| == |rows|
    ensures s == SplitBy(rows, q)
  {
    hide Coeff, IsSplit;
    s := Split([], [], []);
    for i := 0 to |rows|
      invariant s == SplitBy(rows[..i], q)
    {
      var c := Coeff(rows[i].coeffs, q);
      assert rows[..i + 1][..i] == rows[..i];
      if c > 0.0 {
        s := s.(pos := s.pos + [rows[i]]);
      } else if c < 0.0 {
        s := s.(neg := s.neg + [rows[i]]);
      } else {
        s := s.(rest := s.rest + [rows[i]]);
      }
    }
    assert rows[..|rows|] == rows;
    SplitByIsSplit(rows, q);
  }

  // ----- how many rows elimination can make -----

  function Pairs(p: nat, n: nat): nat { p * n }

  function Square(m: nat): nat { m * m }

  /** A bound on the rows left after eliminating that many quantities. */
  function Growth(rows: nat, quantities: nat): nat
    decreases quantities
  {
    if quantities == 0 then rows else Growth(Square(rows), quantities - 1)
  }

  lemma PairsSteps(i: nat, p: nat, n: nat)
    ensures Pairs(0, n) == 0 && Pairs(i + 1, n) == Pairs(i, n) + n
    ensures i <= p ==> Pairs(i, n) <= Pairs(p, n)
  {
    if i <= p { assert (p - i) * n >= 0; }
  }

  lemma SplitSquare(p: nat, n: nat, r: nat)
    ensures r + Pairs(p, n) <= Square(p + n + r)
  {
    assert r <= r * r;
    assert (p + n + r) * (p + n + r) == p * p + n * n + r * r + 2 * (p * n) + 2 * (p * r) + 2 * (n * r);
  }

  lemma SquareMonotone(a: nat, b: nat)
    requires a <= b
    ensures Square(a) <= Square(b) && a <= Square(a)
  {
    assert a * a <= a * b <= b * b;
  }

  lemma {:induction false} GrowthMonotone(m: nat, k: nat, m': nat, k': nat)
    requires m <= m' && k <= k'
    ensures Growth(m, k) <= Growth(m', k')
    decreases k'
  {
    hide Square;
    SquareMonotone(m, m');
    SquareMonotone(m', m');
    if k > 0 {
      GrowthMonotone(Square(m), k - 1, Square(m'), k' - 1);
    } else if k' > 0 {
      GrowthMonotone(m, 0, Square(m'), k' - 1);
    }
  }

  /** The bound, for the quantities that the rows still mention. */
  ghost function RowGrowth(rows: seq<Row>): nat { Growth(|rows|, |Vars(rows)|) }

  lemma RoundGrowth(rows: seq<Row>, next: seq<Row>, q: QuantityId)
    requires q in Vars(rows) && Vars(next) <= Vars(rows) - {q} && |next| <= Square(|rows|)
    ensures RowGrowth(next) <= RowGrowth(rows)
  {
    hide Square, Vars;
    SubsetSize(Vars(next), Vars(rows) - {q});
    GrowthMonotone(|next|, |Vars(next)|, Square(|rows|), |Vars(rows)| - 1);
  }

  lemma LastRound(rows: seq<Row>, q: QuantityId)
    requires q in Vars(rows)
    ensures Square(|rows|) <= RowGrowth(rows)
  {
    hide Square, Vars;
    SubsetSize({q}, Vars(rows));
    GrowthMonotone(Square(|rows|), 0, Square(|rows|), |Vars(rows)| - 1);
  }

  lemma FirstRound(rows: seq<Row>, cons: seq<Constraint>)
    requires |rows| <= |cons| && Vars(rows) <= ConstraintVars(cons)
    ensures RowGrowth(rows) <= Growth(|cons|, |ConstraintVars(cons)|)
  {
    hide Square, Vars, ConstraintVars;
    SubsetSize(Vars(rows), ConstraintVars(cons));
    GrowthMonotone(|rows|, |Vars(rows)|, |cons|, |ConstraintVars(cons)|);
  }

  lemma NoVars(cons: seq<Constraint>)
    ensures Vars([]) <= ConstraintVars(cons)
  {
  }

  lemma InitialVars(rows: seq<Row>, row: Row, cons: seq<Constraint>, i: nat)
    requires i < |cons| && row.coeffs == cons[i].coeffs && Vars(rows) <= ConstraintVars(cons)
    ensures Vars(rows + [row]) <= ConstraintVars(cons)
  {
    forall q | q in Vars(rows + [row]) ensures q in ConstraintVars(cons) {
      var r, t :| r in rows + [row] && t in r.coeffs && t.q == q;
      if r == row { assert cons[i] in cons; } else { assert r in rows; }
    }
  }

  /** What one elimination round keeps about the rows it has collected. */
  ghost predicate Collected(next: seq<Row>, rows: seq<Row>, cons: seq<Constraint>, q: QuantityId) {
    forall r :: r in next ==> Working(r, cons) && Keys(r.coeffs) <= Vars(rows) - {q}
  }

  /** Every pair up to position (i, j) has been dealt with: any solution of the
      collected rows leaves room between its two bounds. */
  ghost predicate PairsDone(next: seq<Row>, pos: seq<Row>, neg: seq<Row>, q: QuantityId, i: nat, j: nat) {
    forall v: Valuation, a, b
      | RowsMeet(next, v) && 0 <= a < |pos| && 0 <= b < |neg| && (a < i || (a == i && b < j))
      :: LeaveRoom(neg[b], pos[a], q, v)
  }

  // ----- which rows a round makes -----

  /** The row that eliminating `q` makes of an upper and a lower bound on it. */
  ghost predicate Combines(out: Row, p: Row, n: Row, q: QuantityId) {
    IsCombination(out, -Coeff(n.coeffs, q), p, Coeff(p.coeffs, q), n)
  }

  predicate Earlier(a: (nat, nat), b: (nat, nat)) { a.0 < b.0 || (a.0 == b.0 && a.1 < b.1) }

  /** After the rows without `q` come the open combinations of those pairs, each pair once. */
  ghost predicate Made(next: seq<Row>, s: Split, q: QuantityId, pairs: seq<(nat, nat)>) {
    && |next| == |s.rest| + |pairs| && s.rest == next[..|s.rest|]
    && (forall k :: 0 <= k < |pairs| ==> MadeOf(next[|s.rest| + k], s, q, pairs[k]))
    && forall k, l :: 0 <= k < l < |pairs| ==> Earlier(pairs[k], pairs[l])
  }

  ghost predicate MadeOf(row: Row, s: Split, q: QuantityId, pair: (nat, nat)) {
    pair.0 < |s.pos| && pair.1 < |s.neg| && Combines(row, s.pos[pair.0], s.neg[pair.1], q) && row.coeffs != []
  }

  /** Every pair before that one is among the pairs, or its combination says nothing. */
  ghost predicate Complete(s: Split, q: QuantityId, pairs: seq<(nat, nat)>, before: (nat, nat)) {
    forall a: nat, b: nat | a < |s.pos| && b < |s.neg| && Earlier((a, b), before) :: (a, b) in pairs || Idle(s, q, a, b)
  }

  ghost predicate Idle(s: Split, q: QuantityId, a: nat, b: nat) {
    a < |s.pos| && b < |s.neg| && exists out :: Combines(out, s.pos[a], s.neg[b], q) && Classify(out) == Satisfied
  }

  /** One whole round: the rows without `q` and all open combinations. */
  ghost predicate Eliminated(rows: seq<Row>, q: QuantityId, next: seq<Row>) {
    exists pairs :: Made(next, SplitBy(rows, q), q, pairs) && Complete(SplitBy(rows, q), q, pairs, (|SplitBy(rows, q).pos|, 0))
  }

  /** The round makes more rows than the cap allows. */
  ghost predicate Overflows(rows: seq<Row>, q: QuantityId, fillCap: nat) {
    exists next, pairs :: Made(next, SplitBy(rows, q), q, pairs) && |next| > fillCap
  }

  ghost predicate Least(q: QuantityId, rows: seq<Row>) { q in Vars(rows) && forall k :: k in Vars(rows) ==> q <= k }

  ghost predicate Step(rows: seq<Row>, next: seq<Row>) { exists q :: Least(q, rows) && Eliminated(rows, q, next) }

  /** The constraints that mention a quantity, each derived from itself. */
  function OpenRows(cons: seq<Constraint>, n: nat): seq<Row>
    requires n <= |cons|
  {
    if n == 0 then []
    else
      var c := cons[n - 1];
      OpenRows(cons, n - 1) + if c.coeffs == [] then [] else [Row(c.coeffs, c.b, c.strict, Unit(|cons|, n - 1))]
  }

  /** The rounds so far, the least quantity first. */
  ghost predicate Chain(stages: seq<seq<Row>>, cons: seq<Constraint>) {
    && stages != [] && stages[0] == OpenRows(cons, |cons|)
    && forall i :: 0 <= i < |stages| - 1 ==> Step(stages[i], stages[i + 1])
  }

  ghost predicate NextOverflows(rows: seq<Row>, fillCap: nat) { exists q :: Least(q, rows) && Overflows(rows, q, fillCap) }

  /** Eliminating the least quantity again and again comes to a round that makes too many rows. */
  ghost predicate Overfills(cons: seq<Constraint>, fillCap: nat) {
    exists stages :: Chain(stages, cons) && NextOverflows(stages[|stages| - 1], fillCap)
  }

  lemma MadeOne(next: seq<Row>, row: Row, s: Split, q: QuantityId, pairs: seq<(nat, nat)>, i: nat, j: nat)
    requires Made(next, s, q, pairs) && MadeOf(row, s, q, (i, j)) && forall k :: 0 <= k < |pairs| ==> Earlier(pairs[k], (i, j))
    ensures Made(next + [row], s, q, pairs + [(i, j)])
    ensures forall k :: 0 <= k <= |pairs| ==> Earlier((pairs + [(i, j)])[k], (i, j + 1))
  {
    hide MadeOf;
    assert (next + [row])[..|s.rest|] == next[..|s.rest|];
  }

  lemma CompleteStep(s: Split, q: QuantityId, pairs: seq<(nat, nat)>, pairs': seq<(nat, nat)>, i: nat, j: nat)
    requires Complete(s, q, pairs, (i, j)) && (forall x | x in pairs :: x in pairs')
    requires (i, j) in pairs' || Idle(s, q, i, j)
    ensures Complete(s, q, pairs', (i, j + 1))
  {
    hide Idle;
  }

  lemma CompleteRow(s: Split, q: QuantityId, pairs: seq<(nat, nat)>, i: nat)
    requires Complete(s, q, pairs, (i, |s.neg|)) && forall k :: 0 <= k < |pairs| ==> Earlier(pairs[k], (i, |s.neg|))
    ensures Complete(s, q, pairs, (i + 1, 0)) && forall k :: 0 <= k < |pairs| ==> Earlier(pairs[k], (i + 1, 0))
  {
    hide Idle;
  }

  lemma NothingMade(s: Split, q: QuantityId)
    ensures Made(s.rest, s, q, []) && Complete(s, q, [], (0, 0))
  {
  }

  datatype Round = RoundRefuted(multipliers: seq<real>) | RoundTooBig | Next(rows: seq<Row>)

  /** One combination, and what becomes of it. */
  method CombinePair(ghost cons: seq<Constraint>, ghost rows: seq<Row>, p: Row, n: Row, q: QuantityId) returns (row: Row)
    requires p in rows && n in rows && Working(p, cons) && Working(n, cons)
    requires Coeff(p.coeffs, q) > 0.0 > Coeff(n.coeffs, q)
    ensures Derived(row, cons) && Normal(row.coeffs) && Keys(row.coeffs) <= Vars(rows) - {q}
    ensures Combines(row, p, n, q)
    ensures forall v: Valuation :: Meets(row.Claim(), v) ==> LeaveRoom(n, p, q, v)
    ensures Classify(row) == Satisfied ==> forall v: Valuation :: Meets(row.Claim(), v)
    ensures Classify(row) == Contradiction ==> FarkasRefutes(cons, row.prov)
  {
    var cp, cn := Coeff(p.coeffs, q), Coeff(n.coeffs, q);
    row := Combine(-cn, p, cp, n);
    CombinationDerived(row, -cn, p, cp, n, cons);
    CombinationKeys(row, p, n, q);
    forall v: Valuation ensures Meets(row.Claim(), v) ==> LeaveRoom(n, p, q, v) {
      CombinationIsCompatibility(row, p, n, q, v);
    }
    if Classify(row) == Contradiction { ContradictionRefutes(row, cons); }
  }

  method Eliminate(ghost cons: seq<Constraint>, rows: seq<Row>, q: QuantityId, fillCap: nat) returns (r: Round)
    requires forall row :: row in rows ==> Working(row, cons)
    ensures r.RoundRefuted? ==> FarkasRefutes(cons, r.multipliers)
    ensures r.Next? ==> (forall row :: row in r.rows ==> Working(row, cons)) && Vars(r.rows) <= Vars(rows) - {q}
    ensures r.Next? ==> forall v: Valuation :: RowsMeet(r.rows, v) ==> exists w: Valuation :: RowsMeet(rows, w)
    ensures r.Next? ==> |r.rows| <= Square(|rows|) && (|r.rows| <= |rows| || |r.rows| <= fillCap)
    ensures r.RoundTooBig? ==> Square(|rows|) > fillCap && Overflows(rows, q, fillCap)
    ensures r.Next? ==> Eliminated(rows, q, r.rows)
  {
    hide Pairs, Square, LeaveRoom, Meets, Coeff, Made, MadeOf, Complete, Idle, Combines, Signed;
    var s := Partition(rows, q);
    var pos, neg, next := s.pos, s.neg, s.rest;
    RestCollected(s, rows, cons, q);
    SplitSquare(|pos|, |neg|, |s.rest|);
    PairsSteps(0, 0, |neg|);
    NothingMade(s, q);
    ghost var pairs: seq<(nat, nat)> := [];
    for i := 0 to |pos|
      invariant Made(next, s, q, pairs) && Complete(s, q, pairs, (i, 0))
      invariant forall k :: 0 <= k < |pairs| ==> Earlier(pairs[k], (i, 0))
      invariant |next| <= |s.rest| + Pairs(i, |neg|) && (|next| <= |s.rest| || |next| <= fillCap)
      invariant Collected(next, rows, cons, q) && (forall row :: row in s.rest ==> row in next)
      invariant PairsDone(next, pos, neg, q, i, 0)
    {
      PairsSteps(i, i, |neg|);
      PairsSteps(i + 1, |pos|, |neg|);
      for j := 0 to |neg|
        invariant Made(next, s, q, pairs) && Complete(s, q, pairs, (i, j))
        invariant forall k :: 0 <= k < |pairs| ==> Earlier(pairs[k], (i, j))
        invariant |next| <= |s.rest| + Pairs(i, |neg|) + j && (|next| <= |s.rest| || |next| <= fillCap)
        invariant Collected(next, rows, cons, q) && (forall row :: row in s.rest ==> row in next)
        invariant PairsDone(next, pos, neg, q, i, j)
      {
        var row := CombinePair(cons, rows, pos[i], neg[j], q);
        match Classify(row) {
          case Contradiction =>
            return RoundRefuted(row.prov);
          case Satisfied =>
            PairDone(next, next, row, pos, neg, q, i, j);
            PairIdle(row, s, q, i, j);
            CompleteStep(s, q, pairs, pairs, i, j);
          case Open =>
            PairDone(next, next + [row], row, pos, neg, q, i, j);
            PairMade(row, s, q, i, j);
            MadeOne(next, row, s, q, pairs, i, j);
            CompleteStep(s, q, pairs, pairs + [(i, j)], i, j);
            next := next + [row];
            pairs := pairs + [(i, j)];
            if |next| > fillCap { return RoundTooBig; }
        }
      }
      RowDone(next, pos, neg, q, i);
      CompleteRow(s, q, pairs, i);
    }
    forall v: Valuation | RowsMeet(next, v) ensures exists w: Valuation :: RowsMeet(rows, w) {
      var w := ExtendSolution(pos, neg, s.rest, q, v);
      assert RowsMeet(rows, w);
    }
    r := Next(next);
  }

  lemma PairIdle(row: Row, s: Split, q: QuantityId, i: nat, j: nat)
    requires i < |s.pos| && j < |s.neg| && Combines(row, s.pos[i], s.neg[j], q) && Classify(row) == Satisfied
    ensures Idle(s, q, i, j)
  {
    hide Combines;
  }

  lemma PairMade(row: Row, s: Split, q: QuantityId, i: nat, j: nat)
    requires i < |s.pos| && j < |s.neg| && Combines(row, s.pos[i], s.neg[j], q) && Classify(row) == Open
    ensures MadeOf(row, s, q, (i, j))
  {
    hide Combines;
  }

  lemma RestCollected(s: Split, rows: seq<Row>, cons: seq<Constraint>, q: QuantityId)
    requires IsSplit(s, rows, q) && forall row :: row in rows ==> Working(row, cons)
    ensures Collected(s.rest, rows, cons, q)
  {
    hide Coeff;
    forall row | row in s.rest ensures Keys(row.coeffs) <= Vars(rows) - {q} {
      KeyIffCoeff(row.coeffs, q);
    }
  }

  lemma PairDone(next: seq<Row>, next': seq<Row>, row: Row, pos: seq<Row>, neg: seq<Row>, q: QuantityId, i: nat, j: nat)
    requires PairsDone(next, pos, neg, q, i, j) && i < |pos| && j < |neg|
    requires forall r :: r in next ==> r in next'
    requires forall v: Valuation :: RowsMeet(next', v) ==> Meets(row.Claim(), v)
    requires forall v: Valuation :: Meets(row.Claim(), v) ==> LeaveRoom(neg[j], pos[i], q, v)
    ensures PairsDone(next', pos, neg, q, i, j + 1)
  {
    hide LeaveRoom, Meets;
    forall v: Valuation | RowsMeet(next', v) ensures RowsMeet(next, v) { }
  }

  lemma RowDone(next: seq<Row>, pos: seq<Row>, neg: seq<Row>, q: QuantityId, i: nat)
    requires PairsDone(next, pos, neg, q, i, |neg|)
    ensures PairsDone(next, pos, neg, q, i + 1, 0)
  {
    hide LeaveRoom, RowsMeet;
  }

  /** Every solution of the rows meets the first n constraints. */
  ghost predicate Covers(rows: seq<Row>, cons: seq<Constraint>, n: nat)
    requires n <= |cons|
  {
    forall v: Valuation, k | RowsMeet(rows, v) && 0 <= k < n :: Meets(cons[k], v)
  }

  lemma CoverStep(rows: seq<Row>, rows': seq<Row>, row: Row, cons: seq<Constraint>, i: nat)
    requires i < |cons| && Covers(rows, cons, i) && row.Claim() == cons[i]
    requires rows' == rows + if Classify(row) == Open then [row] else []
    ensures Classify(row) != Contradiction ==> Covers(rows', cons, i + 1)
  {
    if Classify(row) != Contradiction {
      forall v: Valuation, k | RowsMeet(rows', v) && 0 <= k < i + 1 ensures Meets(cons[k], v) {
        assert RowsMeet(rows, v);
        if k == i && Classify(row) == Open {
          assert row in rows';
        }
      }
    }
  }

  lemma FirstStage(rows: seq<Row>, cons: seq<Constraint>)
    requires rows == OpenRows(cons, |cons|)
    ensures Chain([rows], cons)
  {
  }

  lemma NextStage(stages: seq<seq<Row>>, next: seq<Row>, q: QuantityId, cons: seq<Constraint>)
    requires Chain(stages, cons) && Least(q, stages[|stages| - 1]) && Eliminated(stages[|stages| - 1], q, next)
    ensures Chain(stages + [next], cons)
  {
    hide Least, Eliminated;
  }

  lemma LastStage(stages: seq<seq<Row>>, q: QuantityId, fillCap: nat, cons: seq<Constraint>)
    requires Chain(stages, cons) && Least(q, stages[|stages| - 1]) && Overflows(stages[|stages| - 1], q, fillCap)
    ensures Overfills(cons, fillCap)
  {
    hide Least, Overflows;
    assert NextOverflows(stages[|stages| - 1], fillCap);
  }

  /** Decide a conjunction of constraints over the reals, within a fill-in cap.
      A refutation comes with multipliers that the kernel accepts, and `Fits`
      means that the whole mixed system has a common solution. */
  method SolveLeaf(cons: seq<Constraint>, fillCap: nat) returns (r: LeafResult)
    requires forall c :: c in cons ==> Normal(c.coeffs)
    ensures r.Refuted? ==> FarkasRefutes(cons, r.multipliers)
    ensures r.Refuted? ==> !Feasible(cons)
    ensures r.Fits? ==> Feasible(cons)
    ensures r.TooBig? ==> Growth(|cons|, |ConstraintVars(cons)|) > fillCap && Overfills(cons, fillCap)
  {
    hide Vars, ConstraintVars, Growth, Square, RowGrowth, Chain, Overflows, Eliminated, Overfills;
    var rows: seq<Row> := [];
    NoVars(cons);
    for i := 0 to |cons|
      invariant |rows| <= i && Vars(rows) <= ConstraintVars(cons) && rows == OpenRows(cons, i)
      invariant forall row :: row in rows ==> Working(row, cons)
      invariant Covers(rows, cons, i)
    {
      var row := Row(cons[i].coeffs, cons[i].b, cons[i].strict, Unit(|cons|, i));
      InitialDerived(cons, i);
      assert row.Claim() == cons[i];
      InitialVars(rows, row, cons, i);
      CoverStep(rows, rows + if Classify(row) == Open then [row] else [], row, cons, i);
      match Classify(row) {
        case Contradiction =>
          ContradictionRefutes(row, cons);
          FarkasSound(cons, row.prov);
          return Refuted(row.prov);
        case Satisfied =>
          assert rows + [] == rows;
        case Open =>
          rows := rows + [row];
      }
    }
    assert forall v: Valuation :: RowsMeet(rows, v) ==> MeetsAll(cons, v);
    var pick := PickVar(rows);
    FirstRound(rows, cons);
    ghost var stages := [rows];
    FirstStage(rows, cons);
    while pick.Var?
      invariant stages != [] && stages[|stages| - 1] == rows && Chain(stages, cons)
      invariant RowGrowth(rows) <= Growth(|cons|, |ConstraintVars(cons)|)
      invariant forall row :: row in rows ==> Working(row, cons)
      invariant forall v: Valuation :: RowsMeet(rows, v) ==> Feasible(cons)
      invariant pick.NoVar? <==> Vars(rows) == {}
      invariant pick.Var? ==> Least(pick.q, rows)
      decreases Vars(rows)
    {
      var round := Eliminate(cons, rows, pick.q, fillCap);
      LastRound(rows, pick.q);
      match round {
        case RoundRefuted(lam) =>
          FarkasSound(cons, lam);
          return Refuted(lam);
        case RoundTooBig =>
          LastStage(stages, pick.q, fillCap, cons);
          return TooBig;
        case Next(next) =>
          NextStage(stages, next, pick.q, cons);
          stages := stages + [next];
          RoundGrowth(rows, next, pick.q);
          rows := next;
          pick := PickVar(rows);
      }
    }
    VarsEmpty(rows);
    assert RowsMeet(rows, q => 0.0);
    r := Fits;
  }
}
