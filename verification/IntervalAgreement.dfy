/** The interval layer and the replay kernel never disagree. */
module IntervalAgreement {
  import opened Linear
  import opened Formulas
  import opened Constraints
  import opened Saturation
  import opened Certificates
  import opened BoundCertificates
  import opened Intervals

  // ----- a bound, seen by the kernel -----

  lemma NormalizeSole(t: Term)
    requires t.coeff != 0.0
    ensures Normalize([t]) == [t] && DropZeros([t]) == [t] && Scale(-1.0, [t]) == [Term(-1.0 * t.coeff, t.q)]
  {
    var ts := [t];
    assert ts[..0] == [] && ts[1..] == [];
    assert Merge([], ts) == AddTerm(Merge([], ts[..0]), t.q, t.coeff);
    assert DropZeros(ts) == [ts[0]] + DropZeros(ts[1..]);
    assert Scale(-1.0, ts) == [Term(-1.0 * t.coeff, t.q)] + Scale(-1.0, ts[1..]);
  }

  /** The constraint bounds `q` by `value`, from below or from above. */
  ghost predicate Bounds(c: Constraint, q: QuantityId, value: real, strict: bool, lower: bool) {
    && SoleTerm(c).Some? && SoleTerm(c).value.q == q
    && (SoleTerm(c).value.coeff < 0.0 <==> lower)
    && Times(Weight(c), c.b) == (if lower then -value else value)
    && c.strict == strict
  }

  /** The kernel's canonical constraint of a one-sided single-quantity atom is
      the interval layer's bound. */
  lemma CanonicalBounds(a: LinAtom)
    requires SingleQuantity(a) && a.rel != Eq && a.rel != Ne
    ensures var r := SingleRel(a);
      Bounds(Canonicalize(a), a.terms[0].q, SingleValue(a), r == Lt || r == Gt, r == Gt || r == Ge)
  {
    var t, c := a.terms[0], Canonicalize(a);
    assert a.terms == [t];
    NormalizeSole(t);
    var flipped := a.rel == Ge || a.rel == Gt;
    var s := if flipped then Term(-1.0 * t.coeff, t.q) else t;
    assert c.coeffs == [s];
    NormalizeSole(s);
    assert SoleTerm(c) == Some(s);
    QuotientSigns(t.coeff, a.constant);
  }

  lemma QuotientSigns(x: real, k: real)
    requires x != 0.0
    ensures Times(1.0 / AbsReal(x), k) == if x < 0.0 then -(k / x) else k / x
    ensures Times(1.0 / AbsReal(-1.0 * x), -k) == if x < 0.0 then k / x else -(k / x)
  {
  }

  /** A bound's atom, saturated, gives the kernel that very bound. */
  lemma BoundReachesKernel(b: Bound, q: QuantityId, lower: bool) returns (i: nat)
    requires SetBy(b, q, lower)
    ensures var cons := CollectConstraints(Spine(QAtom(b.atom)));
      i < |cons| <= 2 && Bounds(cons[i], q, b.value, b.strict, lower)
    ensures forall x :: x in Spine(QAtom(b.atom)) ==> x.QAtom?
  {
    hide Bounds;
    var a := b.atom;
    var t, items := a.terms[0], Spine(QAtom(a));
    assert a.terms == [t];
    NormalizeSole(t);
    if a.rel == Eq {
      var le, ge := LinAtom([t], Le, a.constant), LinAtom([t], Ge, a.constant);
      assert items == [QAtom(le), QAtom(ge)];
      CollectTwo(QAtom(le), QAtom(ge));
      CanonicalBounds(le);
      CanonicalBounds(ge);
      i := if (t.coeff > 0.0) == lower then 1 else 0;
    } else {
      assert items == [QAtom(a)];
      assert CollectConstraints(items) == [Canonicalize(a)] by { assert items[1..] == []; }
      CanonicalBounds(a);
      i := 0;
    }
  }

  lemma CollectTwo(x: QFormula, y: QFormula)
    requires x.QAtom? && y.QAtom?
    ensures CollectConstraints([x, y]) == [Canonicalize(x.atom), Canonicalize(y.atom)]
  {
    assert [x, y][1..] == [y];
    assert [y][1..] == [];
    assert CollectConstraints([y]) == [Canonicalize(y.atom)];
  }

  lemma {:induction false} CollectConcat(a: seq<QFormula>, b: seq<QFormula>)
    ensures CollectConstraints(a + b) == CollectConstraints(a) + CollectConstraints(b)
  {
    hide Canonicalize;
    if a == [] {
      assert a + b == b;
    } else {
      assert (a + b)[1..] == a[1..] + b && (a + b)[0] == a[0];
      CollectConcat(a[1..], b);
    }
  }

  /** Two bounds that the interval layer refutes on are a conflict for the
      kernel, given nothing but their two atoms. */
  lemma RefutedPairConflicts(lo: Bound, hi: Bound, q: QuantityId)
    requires SetBy(lo, q, true) && SetBy(hi, q, false)
    requires lo.value > hi.value || (lo.value == hi.value && (lo.strict || hi.strict))
    ensures HasConflict([QAtom(lo.atom), QAtom(hi.atom)])
  {
    hide SetBy, SoleTerm, Weight, Times, Spine, CollectConstraints;
    var fs := [QAtom(lo.atom), QAtom(hi.atom)];
    var sl, sh := Spine(QAtom(lo.atom)), Spine(QAtom(hi.atom));
    SpineTwo(QAtom(lo.atom), QAtom(hi.atom));
    CollectConcat(sl, sh);
    var i := BoundReachesKernel(lo, q, true);
    var j := BoundReachesKernel(hi, q, false);
    var cl, ch, cons := CollectConstraints(sl), CollectConstraints(sh), CollectConstraints(SpineAll(fs));
    assert cons == cl + ch;
    var k := |cl| + j;
    assert cons[i] == cl[i] && cons[k] == ch[j];
    assert Opposed(cons[i], cons[k]) && Conflicting(cons[i], cons[k]);
    forall x | x in SpineAll(fs) ensures !x.QOr? { }
    assert LeftmostOr(SpineAll(fs)).None?;
  }

  lemma SpineTwo(x: QFormula, y: QFormula)
    ensures SpineAll([x, y]) == Spine(x) + Spine(y)
  {
    assert [x, y][1..] == [y];
    assert [y][1..] == [];
    assert SpineAll([y]) == Spine(y) + [];
  }

  // ----- certification of an interval verdict -----

  /** A named formula, whole or one conjunct of it, taking part in a refutation. */
  datatype RefutingPart = Whole(src: Name) | Conjunct(src: Name, atom: LinAtom)

  function PartOf(b: Bound): RefutingPart { Conjunct(b.src, b.atom) }

  function SelfEmptyParts(e: SelfEmptiness): seq<RefutingPart> {
    match e
    case ConstFalse(name) => [Whole(name)]
    case EmptyInterval(_, iv) =>
      match Refutation(iv, iv)
      case None => []
      case Some((lo, hi)) => [PartOf(lo), PartOf(hi)]
  }

  function DisjointParts(d: Disjointness): seq<RefutingPart> { [PartOf(d.lo), PartOf(d.hi)] }

  function OverOf(overs: Overs, name: Name): Option<QFormula> {
    if overs == [] then None
    else if overs[0].0 == name then Some(overs[0].1)
    else OverOf(overs[1..], name)
  }

  /** The formula recorded under a name in either region. */
  function Lookup(a: Overs, b: Overs, name: Name): Option<QFormula> {
    var f := OverOf(a, name);
    if f.Some? then f else OverOf(b, name)
  }

  lemma {:induction false} OverOfFinds(overs: Overs, name: Name)
    ensures OverOf(overs, name).Some? ==> exists k :: 0 <= k < |overs| && overs[k] == (name, OverOf(overs, name).value)
    ensures forall k :: 0 <= k < |overs| && overs[k].0 == name ==> OverOf(overs, name).Some?
  {
    if overs != [] && overs[0].0 != name {
      OverOfFinds(overs[1..], name);
      if OverOf(overs, name).Some? {
        var k :| 0 <= k < |overs[1..]| && overs[1..][k] == (name, OverOf(overs, name).value);
        assert overs[k + 1] == (name, OverOf(overs, name).value);
      }
      forall k | 0 <= k < |overs| && overs[k].0 == name ensures OverOf(overs, name).Some? {
        assert overs[1..][k - 1].0 == name;
      }
    }
  }

  /** One name never stands for two formulas. */
  ghost predicate NamesAgree(overs: Overs) {
    forall i, j :: 0 <= i < |overs| && 0 <= j < |overs| && overs[i].0 == overs[j].0 ==> overs[i].1 == overs[j].1
  }

  lemma LookupFinds(a: Overs, b: Overs, name: Name)
    requires NamesAgree(a + b)
    ensures forall k :: 0 <= k < |a + b| && (a + b)[k].0 == name ==> Lookup(a, b, name) == Some((a + b)[k].1)
  {
    OverOfFinds(a, name);
    OverOfFinds(b, name);
    forall k | 0 <= k < |a + b| && (a + b)[k].0 == name
      ensures Lookup(a, b, name) == Some((a + b)[k].1)
    {
      if k < |a| {
        assert a[k].0 == name;
      } else {
        assert b[k - |a|].0 == name;
      }
      if OverOf(a, name).Some? {
        var i :| 0 <= i < |a| && a[i] == (name, OverOf(a, name).value);
        assert (a + b)[i] == a[i];
      } else {
        var i :| 0 <= i < |b| && b[i] == (name, OverOf(b, name).value);
        assert (a + b)[|a| + i] == b[i];
      }
    }
  }

  datatype Failure = NoParts | MissingOver(name: Name) | ConstantFalseRejected(name: Name) | PairRejected

  datatype IntervalCert =
    | Accepted(asserts: Overs, cert: CertNode, whole: bool)
    | Unavailable(why: Failure)

  function FormulasOf(asserts: Overs): seq<QFormula> {
    seq(|asserts|, i requires 0 <= i < |asserts| => asserts[i].1)
  }

  /** What the interval layer produces: the name of a constant-false cut, or
      the two traced bounds of one quantity that exclude each other. */
  ghost predicate LayerParts(parts: seq<RefutingPart>, a: Overs, b: Overs) {
    || (exists name :: parts == [Whole(name)] && NamesFalse(a + b, name))
    || (exists lo, hi, q :: parts == [PartOf(lo), PartOf(hi)] && RefutingBounds(lo, hi, q, a + b))
  }

  ghost predicate RefutingBounds(lo: Bound, hi: Bound, q: QuantityId, overs: Overs) {
    && SetBy(lo, q, true) && SetBy(hi, q, false) && Traced(lo, overs) && Traced(hi, overs)
    && (lo.value > hi.value || (lo.value == hi.value && (lo.strict || hi.strict)))
  }

  /** Every part names a recorded formula. */
  ghost predicate Recorded(parts: seq<RefutingPart>, a: Overs, b: Overs) {
    forall p | p in parts :: Lookup(a, b, p.src).Some?
  }

  lemma LayerPartsRecorded(parts: seq<RefutingPart>, a: Overs, b: Overs)
    requires NamesAgree(a + b) && LayerParts(parts, a, b)
    ensures parts != [] && Recorded(parts, a, b)
  {
    forall p | p in parts ensures Lookup(a, b, p.src).Some? {
      LookupFinds(a, b, p.src);
    }
  }

  /** Certify an interval verdict: first the named formulas as they stand, then
      only the atoms that set the two bounds. It never fails on parts that the
      interval layer produced. */
  method CertifyIntervalPair(parts: seq<RefutingPart>, a: Overs, b: Overs) returns (r: IntervalCert)
    requires NamesAgree(a + b)
    ensures r.Accepted? ==> Replay(r.cert, FormulasOf(r.asserts)) && !Satisfiable(FormulasOf(r.asserts))
    ensures LayerParts(parts, a, b) ==> r.Accepted?
  {
    hide Replay, Satisfiable, HasConflict, LayerParts, FalseInSpine;
    if LayerParts(parts, a, b) { LayerPartsRecorded(parts, a, b); }
    if parts == [] { return Unavailable(NoParts); }
    var whole: Overs := [];
    for i := 0 to |parts|
      invariant forall m :: 0 <= m < |whole| ==> Lookup(a, b, whole[m].0) == Some(whole[m].1)
      invariant forall k :: 0 <= k < i ==> Named(whole, parts[k].src)
    {
      var name := parts[i].src;
      OverOfFinds(whole, name);
      if OverOf(whole, name).None? {
        var f := OverOf(a, name);
        if f.None? { f := OverOf(b, name); }
        if f.None? {
          assert parts[i] in parts && !Recorded(parts, a, b);
          return Unavailable(MissingOver(name));
        }
        forall k | 0 <= k < i { NamedGrows(whole, (name, f.value), parts[k].src); }
        whole := whole + [(name, f.value)];
        assert whole[|whole| - 1].0 == name;
      }
    }
    var cert := CertifyBounds(FormulasOf(whole));
    if cert.Some? { return Accepted(whole, cert.value, true); }
    if LayerParts(parts, a, b) { WholeOrPair(parts, a, b, whole); }

    var lean: Overs := [];
    for i := 0 to |parts|
      invariant |lean| == i && forall k :: 0 <= k < i ==> parts[k].Conjunct? && lean[k] == (parts[k].src, QAtom(parts[k].atom))
    {
      match parts[i] {
        case Whole(name) => return Unavailable(ConstantFalseRejected(name));
        case Conjunct(src, atom) => lean := lean + [(src, QAtom(atom))];
      }
    }
    cert := CertifyBounds(FormulasOf(lean));
    if LayerParts(parts, a, b) {
      assert FormulasOf(lean) == [QAtom(parts[0].atom), QAtom(parts[1].atom)];
    }
    r := match cert case Some(c) => Accepted(lean, c, false) case None => Unavailable(PairRejected);
  }

  ghost predicate Named(whole: Overs, name: Name) {
    exists m :: 0 <= m < |whole| && whole[m].0 == name
  }

  lemma NamedGrows(whole: Overs, x: (Name, QFormula), name: Name)
    requires Named(whole, name)
    ensures Named(whole + [x], name)
  {
    var m :| 0 <= m < |whole| && whole[m].0 == name;
    assert (whole + [x])[m] == whole[m];
  }

  /** When the whole formulas do not settle it, the parts are a pair of atoms
      that the kernel refutes by themselves. */
  lemma WholeOrPair(parts: seq<RefutingPart>, a: Overs, b: Overs, whole: Overs)
    requires NamesAgree(a + b) && LayerParts(parts, a, b)
    requires forall m :: 0 <= m < |whole| ==> Lookup(a, b, whole[m].0) == Some(whole[m].1)
    requires forall p :: p in parts ==> Named(whole, p.src)
    ensures AnyFalse(FormulasOf(whole)) ||
      (|parts| == 2 && parts[0].Conjunct? && parts[1].Conjunct? && HasConflict([QAtom(parts[0].atom), QAtom(parts[1].atom)]))
  {
    if name :| parts == [Whole(name)] && NamesFalse(a + b, name) {
      LookupFinds(a, b, name);
      assert parts[0] in parts;
      var m :| 0 <= m < |whole| && whole[m].0 == name;
      assert FormulasOf(whole)[m] == whole[m].1;
    } else {
      var lo, hi, q :| parts == [PartOf(lo), PartOf(hi)] && RefutingBounds(lo, hi, q, a + b);
      RefutedPairConflicts(lo, hi, q);
    }
  }

  lemma TracedWeaken(b: Bound, overs: Overs, l: Overs, r: Overs)
    requires Traced(b, overs)
    ensures Traced(b, l + overs + r)
  {
    var k :| 0 <= k < |overs| && overs[k].0 == b.src && AtomInSpine(overs[k].1, b.atom);
    assert (l + overs + r)[|l| + k] == overs[k];
  }

  // ----- the interval arms of the pair verdict -----

  datatype IntervalVerdict = NoVerdict | ProvenDisjoint(cert: IntervalCert)

  lemma SelfEmptyLayerParts(e: SelfEmptiness, x: Overs, a: Overs, b: Overs)
    requires e.ConstFalse? ==> NamesFalse(x, e.name)
    requires e.EmptyInterval? ==> IvTraced(e.iv, e.q, x) && Refutation(e.iv, e.iv).Some?
    requires x == a || x == b
    ensures LayerParts(SelfEmptyParts(e), a, b)
  {
    var l, r := if x == a then [] else a, if x == a then b else [];
    assert l + x + r == a + b;
    match e {
      case ConstFalse(name) =>
        var k :| 0 <= k < |x| && x[k].0 == name && FalseInSpine(x[k].1);
        assert (l + x + r)[|l| + k] == x[k];
        assert SelfEmptyParts(e) == [Whole(name)];
      case EmptyInterval(q, iv) =>
        var (lo, hi) := Refutation(iv, iv).value;
        TracedWeaken(lo, x, l, r);
        TracedWeaken(hi, x, l, r);
        assert SelfEmptyParts(e) == [PartOf(lo), PartOf(hi)] && RefutingBounds(lo, hi, q, a + b);
    }
  }

  lemma DisjointLayerParts(d: Disjointness, a: Overs, b: Overs)
    requires IvTraced(d.a, d.q, a) && IvTraced(d.b, d.q, b) && Refutation(d.a, d.b) == Some((d.lo, d.hi))
    ensures LayerParts(DisjointParts(d), a, b)
  {
    assert [] + a + b == a + b && a + b + [] == a + b;
    if d.a.lo == Some(d.lo) { TracedWeaken(d.lo, a, [], b); } else { TracedWeaken(d.lo, b, a, []); }
    if d.a.hi == Some(d.hi) { TracedWeaken(d.hi, a, [], b); } else { TracedWeaken(d.hi, b, a, []); }
    assert RefutingBounds(d.lo, d.hi, d.q, a + b);
  }

  /** What the interval layer looks for in a pair of regions. */
  ghost predicate LayerRefutes(a: Overs, b: Overs, presence: QuantityId -> Presence) {
    var x, y := SummaryOf(a, |a|), SummaryOf(b, |b|);
    VisiblyApart(x.entries, y.entries, presence) || VisiblyEmpty(x) || VisiblyEmpty(y)
  }

  /** Two regions' single-quantity cuts leave a point to each, the same wherever
      presence is settled. */
  ghost predicate Meet(a: Overs, b: Overs, presence: QuantityId -> Presence) {
    exists v: Valuation, w: Valuation :: InSpine(a, v) && InSpine(b, w)
      && Agree(v, w, SummaryOf(a, |a|).entries, SummaryOf(b, |b|).entries, presence)
  }

  /** The layer refutes exactly the pairs that single quantities keep apart. */
  lemma LayerExactly(a: Overs, b: Overs, presence: QuantityId -> Presence)
    ensures LayerRefutes(a, b, presence) <==> !Meet(a, b, presence)
  {
    hide SummaryOf, InSpine, Describes, Agree, VisiblyApart, VisiblyEmpty, KeysAscend, Refutation;
    var x, y := SummaryOf(a, |a|), SummaryOf(b, |b|);
    SummaryAscends(a, |a|);
    SummaryAscends(b, |b|);
    EmptyExactly(x);
    EmptyExactly(y);
    forall v: Valuation ensures InSpine(a, v) <==> x.falsified.None? && Describes(x.entries, v) {
      SummaryExactly(a, |a|, v);
      assert a[..|a|] == a;
    }
    forall v: Valuation ensures InSpine(b, v) <==> y.falsified.None? && Describes(y.entries, v) {
      SummaryExactly(b, |b|, v);
      assert b[..|b|] == b;
    }
    if !VisiblyEmpty(x) && !VisiblyEmpty(y) {
      NotEmptyInside(x);
      NotEmptyInside(y);
      ApartExactly(x.entries, y.entries, presence);
    }
  }

  lemma NotEmptyInside(st: Summary)
    requires !VisiblyEmpty(st)
    ensures forall e :: e in st.entries ==> Refutation(e.iv, e.iv).None?
  {
    hide Refutation;
    forall e | e in st.entries ensures Refutation(e.iv, e.iv).None? {
      var k :| 0 <= k < |st.entries| && st.entries[k] == e;
    }
  }

  /** The interval part of the pair verdict. Whatever it claims is true of every
      valuation, and it is always certified: the "interval certificate
      unavailable" diagnostic cannot arise from parts of the layer itself. */
  method IntervalPair(a: Overs, b: Overs, presence: QuantityId -> Presence) returns (r: IntervalVerdict)
    requires NamesAgree(a + b)
    ensures r.ProvenDisjoint? ==> r.cert.Accepted?
    ensures r.ProvenDisjoint? ==> forall v: Valuation :: !(AllHold(a, v) && AllHold(b, v))
    ensures r.ProvenDisjoint? <==> LayerRefutes(a, b, presence)
  {
    hide LayerParts, SummaryOf, Refutation, Inside, NamesAgree, Reports;
    var ma := BuildContext(a);
    var mb := BuildContext(b);
    SummaryOfTraced(a, |a|);
    SummaryOfTraced(b, |b|);
    assert ma.Contents() == SummaryOf(a, |a|) && mb.Contents() == SummaryOf(b, |b|);
    var d := DisjointWith(ma, mb, presence);
    if d.Some? {
      DisjointLayerParts(d.value, a, b);
      RefutationExact(d.value.a, d.value.b);
      forall v: Valuation ensures !(AllHold(a, v) && AllHold(b, v)) {
        if AllHold(a, v) && AllHold(b, v) {
          RegionInside(a, d.value.q, d.value.a, v);
          RegionInside(b, d.value.q, d.value.b, v);
        }
      }
      var cert := CertifyIntervalPair(DisjointParts(d.value), a, b);
      return ProvenDisjoint(cert);
    }
    var ea := SelfEmpty(ma);
    if ea.Some? {
      SelfEmptyLayerParts(ea.value, a, a, b);
      SelfEmptySound(ea.value, a);
      var cert := CertifyIntervalPair(SelfEmptyParts(ea.value), a, b);
      return ProvenDisjoint(cert);
    }
    var eb := SelfEmpty(mb);
    if eb.Some? {
      SelfEmptyLayerParts(eb.value, b, a, b);
      SelfEmptySound(eb.value, b);
      var cert := CertifyIntervalPair(SelfEmptyParts(eb.value), a, b);
      return ProvenDisjoint(cert);
    }
    r := NoVerdict;
  }

  /** A region that the layer calls empty selects nothing. */
  lemma SelfEmptySound(e: SelfEmptiness, x: Overs)
    requires var s := SummaryOf(x, |x|);
      if e.ConstFalse? then s.falsified == Some(e.name)
      else Entry(e.q, e.iv) in s.entries && Refutation(e.iv, e.iv).Some?
    ensures forall v: Valuation :: !AllHold(x, v)
  {
    if e.EmptyInterval? { RefutationExact(e.iv, e.iv); }
    forall v: Valuation ensures !AllHold(x, v) {
      if AllHold(x, v) {
        if e.EmptyInterval? { RegionInside(x, e.q, e.iv, v); } else { SummarySound(x, |x|, v); }
      }
    }
  }

  lemma RegionInside(x: Overs, q: QuantityId, iv: Iv, v: Valuation)
    requires AllHold(x, v) && Entry(q, iv) in SummaryOf(x, |x|).entries
    ensures Inside(v(q), iv)
  {
    SummarySound(x, |x|, v);
  }
}
