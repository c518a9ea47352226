/** What the axioms force: the emitted formulas hold of a valuation exactly when
    its numbers keep the facts about sizes, order and presence spelled out here. */
module AxiomStrength {
  import opened Linear
  import opened Formulas
  import opened Saturation
  import opened Conditions
  import opened Collections
  import opened ElementPredicates
  import opened ElementInstances
  import opened Axioms

  // ----- sizes -----

  function SizeSum(g: Catalog, parts: seq<CollectionId>, v: Valuation): real {
    if parts == [] then 0.0 else SizeSum(g, parts[..|parts| - 1], v) + v(SizeId(g, parts[|parts| - 1]))
  }

  /** The numbers that a valuation gives to a collection and to what it is made of:
      a filter never grows, a sort keeps the size, a union lies between its parts
      and their sum, a slice within its parent and its width, a projection is as
      large as its combination, and a combination without enough objects is empty. */
  ghost predicate SizeForces(g: Catalog, c: CollectionId, v: Valuation)
    requires c < |g.cs|
  {
    var n := v(SizeId(g, c));
    n >= 0.0 &&
    match g.cs[c]
    case Base(_) => true
    case Filtered(p, _) => n <= v(SizeId(g, p))
    case UnionOf(parts) =>
      n <= SizeSum(g, parts, v) && forall i :: 0 <= i < |parts| ==> v(SizeId(g, parts[i])) <= n
    case Sorted(p, _, _) => n == v(SizeId(g, p))
    case Slice(p, start, end) =>
      n <= v(SizeId(g, p)) && (end.Some? && start <= end.value ==> n <= (end.value - start) as real)
    case CombProject(p, _) => n == v(SizeId(g, p))
    case Combination(k) =>
      if k.disjoint && SameSource(k.parts) then v(SizeId(g, k.parts[0])) < 2.0 ==> n == 0.0
      else
        && (forall i :: 0 <= i < |k.parts| && v(SizeId(g, k.parts[i])) < 1.0 ==> n == 0.0)
        && (!k.disjoint && k.cuts == [] && k.candidate == None && k.parts != [] ==>
          (forall i :: 0 <= i < |k.parts| ==> v(SizeId(g, k.parts[i])) > 0.0) ==> n >= 1.0)
  }

  lemma HoldsConcat(a: seq<QFormula>, b: seq<QFormula>, v: Valuation)
    ensures HoldsAll(a + b, v) <==> HoldsAll(a, v) && HoldsAll(b, v)
  {
    hide Holds;
    if HoldsAll(a + b, v) {
      forall f | f in a ensures Holds(f, v) { assert f in a + b; }
      forall f | f in b ensures Holds(f, v) { assert f in a + b; }
    }
  }

  lemma HoldsOne(f: QFormula, v: Valuation)
    ensures HoldsAll([f], v) <==> Holds(f, v)
  {
    hide Holds;
    assert f in [f];
  }

  lemma HoldsEach(fs: seq<QFormula>, v: Valuation)
    ensures HoldsAll(fs, v) <==> forall i :: 0 <= i < |fs| ==> Holds(fs[i], v)
  {
    hide Holds;
  }

  lemma {:induction false} PartsDot(g: Catalog, parts: seq<CollectionId>, v: Valuation)
    ensures Dot(seq(|parts|, i requires 0 <= i < |parts| => Term(-1.0, SizeId(g, parts[i]))), v) == -SizeSum(g, parts, v)
  {
    var ts := seq(|parts|, i requires 0 <= i < |parts| => Term(-1.0, SizeId(g, parts[i])));
    if parts != [] {
      var n := |parts| - 1;
      var init := seq(n, i requires 0 <= i < n => Term(-1.0, SizeId(g, parts[..n][i])));
      PartsDot(g, parts[..n], v);
      assert ts == init + [Term(-1.0, SizeId(g, parts[n]))];
      DotConcat(init, [Term(-1.0, SizeId(g, parts[n]))], v);
      DotOne(-1.0, SizeId(g, parts[n]), v);
    }
  }

  lemma SumMeans(g: Catalog, c: CollectionId, parts: seq<CollectionId>, v: Valuation)
    ensures Holds(Compare([(1.0, SizeId(g, c))] + seq(|parts|, i requires 0 <= i < |parts| => (-1.0, SizeId(g, parts[i]))), Le, 0.0), v)
      <==> v(SizeId(g, c)) <= SizeSum(g, parts, v)
  {
    hide Normalize, Dot, MakeAtom, SizeSum;
    var pairs := [(1.0, SizeId(g, c))] + seq(|parts|, i requires 0 <= i < |parts| => (-1.0, SizeId(g, parts[i])));
    var head := [Term(1.0, SizeId(g, c))];
    var tail := seq(|parts|, i requires 0 <= i < |parts| => Term(-1.0, SizeId(g, parts[i])));
    var ts := seq(|pairs|, i requires 0 <= i < |pairs| => Term(pairs[i].0, pairs[i].1));
    assert ts == head + tail;
    MakeAtomMeans(ts, Le, 0.0, v);
    PartsDot(g, parts, v);
    DotConcat(head, tail, v);
    DotOne(1.0, SizeId(g, c), v);
  }

  lemma UniMeans(g: Catalog, c: CollectionId, v: Valuation)
    requires c < |g.cs| && g.cs[c].UnionOf?
    ensures var parts := g.cs[c].parts;
      HoldsAll(UniOf(g, c), v) <==>
        v(SizeId(g, c)) <= SizeSum(g, parts, v) && forall i :: 0 <= i < |parts| ==> v(SizeId(g, parts[i])) <= v(SizeId(g, c))
  {
    hide Compare, SizeSum, Holds;
    var parts := g.cs[c].parts;
    var each := seq(|parts|, i requires 0 <= i < |parts| => Compare([(1.0, SizeId(g, c)), (-1.0, SizeId(g, parts[i]))], Ge, 0.0));
    var sum := Compare([(1.0, SizeId(g, c))] + seq(|parts|, i requires 0 <= i < |parts| => (-1.0, SizeId(g, parts[i]))), Le, 0.0);
    HoldsConcat(each, [sum], v);
    HoldsOne(sum, v);
    HoldsEach(each, v);
    SumMeans(g, c, parts, v);
    forall i | 0 <= i < |parts| ensures Holds(each[i], v) <==> v(SizeId(g, parts[i])) <= v(SizeId(g, c)) {
      CompareTwo(1.0, SizeId(g, c), -1.0, SizeId(g, parts[i]), Ge, 0.0, v);
    }
  }

  lemma EmptyHolds(v: Valuation)
    ensures HoldsAll([], v)
  {
  }

  /** Filters, slices, sorts and projections. */
  lemma SimpleMeans(g: Catalog, c: CollectionId, v: Valuation)
    requires c < |g.cs| && !g.cs[c].UnionOf? && !g.cs[c].Combination?
    ensures var axioms := SubOf(g, c) + UniOf(g, c) + SzsliceOf(g, c) + SzpermOf(g, c) + CombSizeOf(g, c);
      (HoldsAll(axioms, v) && v(SizeId(g, c)) >= 0.0) <==> SizeForces(g, c, v)
  {
    hide Compare, Holds;
    var n := SizeId(g, c);
    CompareOne(1.0, n, Ge, 0.0, v);
    match g.cs[c]
    case Base(_) => EmptyHolds(v);
    case Filtered(p, _) =>
      CompareTwo(1.0, n, -1.0, SizeId(g, p), Le, 0.0, v);
      HoldsOne(Compare([(1.0, n), (-1.0, SizeId(g, p))], Le, 0.0), v);
      assert SubOf(g, c) + [] + [] + [] + [] == SubOf(g, c);
    case Sorted(p, _, _) =>
      CompareTwo(1.0, n, -1.0, SizeId(g, p), Eq, 0.0, v);
      HoldsOne(Compare([(1.0, n), (-1.0, SizeId(g, p))], Eq, 0.0), v);
      assert [] + [] + [] + SzpermOf(g, c) + [] == SzpermOf(g, c);
    case CombProject(p, _) =>
      CompareTwo(1.0, n, -1.0, SizeId(g, p), Eq, 0.0, v);
      HoldsOne(Compare([(1.0, n), (-1.0, SizeId(g, p))], Eq, 0.0), v);
      assert [] + [] + [] + [] + CombSizeOf(g, c) == CombSizeOf(g, c);
    case Slice(_, _, _) => SliceMeans(g, c, v);
  }

  lemma SliceMeans(g: Catalog, c: CollectionId, v: Valuation)
    requires c < |g.cs| && g.cs[c].Slice?
    ensures var axioms := SubOf(g, c) + UniOf(g, c) + SzsliceOf(g, c) + SzpermOf(g, c) + CombSizeOf(g, c);
      (HoldsAll(axioms, v) && v(SizeId(g, c)) >= 0.0) <==> SizeForces(g, c, v)
  {
    hide Compare, Holds;
    var n, p, start, end := SizeId(g, c), g.cs[c].parent, g.cs[c].start, g.cs[c].end;
    CompareOne(1.0, n, Ge, 0.0, v);
    CompareTwo(1.0, n, -1.0, SizeId(g, p), Le, 0.0, v);
    if end.Some? && end.value >= start { CompareOne(1.0, n, Le, (end.value - start) as real, v); }
    HoldsEach(SzsliceOf(g, c), v);
    SliceAxioms(g, c);
    assert [] + [] + SzsliceOf(g, c) + [] + [] == SzsliceOf(g, c);
  }

  lemma SliceAxioms(g: Catalog, c: CollectionId)
    requires c < |g.cs| && g.cs[c].Slice?
    ensures var s, end := SzsliceOf(g, c), g.cs[c].end;
      && |s| == (if end.Some? && end.value >= g.cs[c].start then 3 else 2)
      && s[0] == Compare([(1.0, SizeId(g, c))], Ge, 0.0)
      && s[1] == Compare([(1.0, SizeId(g, c)), (-1.0, SizeId(g, g.cs[c].parent))], Le, 0.0)
      && (|s| == 3 ==> s[2] == Compare([(1.0, SizeId(g, c))], Le, (end.value - g.cs[c].start) as real))
  {
    hide Compare;
  }

  lemma UnlessEmpty(g: Catalog, c: CollectionId, p: CollectionId, k: real, v: Valuation)
    ensures Holds(QOrOf([Compare([(1.0, SizeId(g, p))], Ge, k), Compare([(1.0, SizeId(g, c))], Eq, 0.0)]), v)
      <==> (v(SizeId(g, p)) < k ==> v(SizeId(g, c)) == 0.0)
  {
    hide Compare, QOrOf;
    PairOr(Compare([(1.0, SizeId(g, p))], Ge, k), Compare([(1.0, SizeId(g, c))], Eq, 0.0), v);
    CompareOne(1.0, SizeId(g, p), Ge, k, v);
    CompareOne(1.0, SizeId(g, c), Eq, 0.0, v);
  }

  lemma BareMeans(g: Catalog, k: Combo, c: CollectionId, v: Valuation)
    ensures Holds(QOrOf(BareAlternatives(g, k, c)), v) <==>
      ((forall i :: 0 <= i < |k.parts| ==> v(SizeId(g, k.parts[i])) > 0.0) ==> v(SizeId(g, c)) >= 1.0)
  {
    hide Compare, QOrOf, Holds;
    var alts, n := BareAlternatives(g, k, c), |k.parts|;
    QOrOfHolds(alts, v);
    CompareOne(1.0, SizeId(g, c), Ge, 1.0, v);
    assert alts[n] == Compare([(1.0, SizeId(g, c))], Ge, 1.0);
    forall i | 0 <= i < n ensures Holds(alts[i], v) <==> v(SizeId(g, k.parts[i])) <= 0.0 {
      CompareOne(1.0, SizeId(g, k.parts[i]), Le, 0.0, v);
    }
  }

  lemma CombinationMeans(g: Catalog, c: CollectionId, v: Valuation)
    requires c < |g.cs| && g.cs[c].Combination?
    ensures HoldsAll(CombSizeOf(g, c), v) <==> SizeForces(g, c, v)
  {
    hide Compare, QOrOf, Holds, BareAlternatives;
    var k := g.cs[c].combo;
    var empty := Compare([(1.0, SizeId(g, c))], Eq, 0.0);
    var first := [Compare([(1.0, SizeId(g, c))], Ge, 0.0)];
    CompareOne(1.0, SizeId(g, c), Ge, 0.0, v);
    HoldsOne(first[0], v);
    if k.disjoint && SameSource(k.parts) {
      var two := QOrOf([Compare([(1.0, SizeId(g, k.parts[0]))], Ge, 2.0), empty]);
      UnlessEmpty(g, c, k.parts[0], 2.0, v);
      HoldsOne(two, v);
      HoldsConcat(first, [two], v);
    } else {
      var each := seq(|k.parts|, i requires 0 <= i < |k.parts| => QOrOf([Compare([(1.0, SizeId(g, k.parts[i]))], Ge, 1.0), empty]));
      var bare := if !k.disjoint && k.cuts == [] && k.candidate == None && k.parts != [] then [QOrOf(BareAlternatives(g, k, c))] else [];
      HoldsEach(each, v);
      forall i | 0 <= i < |k.parts| ensures Holds(each[i], v) <==> (v(SizeId(g, k.parts[i])) < 1.0 ==> v(SizeId(g, c)) == 0.0) {
        UnlessEmpty(g, c, k.parts[i], 1.0, v);
      }
      BareMeans(g, k, c, v);
      HoldsOne(QOrOf(BareAlternatives(g, k, c)), v);
      EmptyHolds(v);
      HoldsConcat(first, each + bare, v);
      HoldsConcat(each, bare, v);
      assert CombSizeOf(g, c) == first + (each + bare);
    }
  }

  /** The axioms of a size say what it is to its origin, no less and no more. */
  lemma SizesMean(g: Catalog, c: CollectionId, v: Valuation)
    requires c < |g.cs|
    ensures HoldsAll(SizeAxioms(g, c), v) <==> SizeForces(g, c, v)
  {
    hide Compare, Holds, SubOf, UniOf, SzsliceOf, SzpermOf, CombSizeOf, SizeForces;
    var first := [Compare([(1.0, SizeId(g, c))], Ge, 0.0)];
    var rest := SubOf(g, c) + UniOf(g, c) + SzsliceOf(g, c) + SzpermOf(g, c) + CombSizeOf(g, c);
    assert SizeAxioms(g, c) == first + rest;
    HoldsConcat(first, rest, v);
    HoldsOne(first[0], v);
    CompareOne(1.0, SizeId(g, c), Ge, 0.0, v);
    if g.cs[c].UnionOf? {
      OnlyUnion(g, c);
      UniMeans(g, c, v);
      UnionForces(g, c, v);
    } else if g.cs[c].Combination? {
      OnlyCombination(g, c);
      CombinationMeans(g, c, v);
      CombinationForces(g, c, v);
    } else {
      SimpleMeans(g, c, v);
    }
  }

  lemma OnlyUnion(g: Catalog, c: CollectionId)
    requires c < |g.cs| && g.cs[c].UnionOf?
    ensures SubOf(g, c) + UniOf(g, c) + SzsliceOf(g, c) + SzpermOf(g, c) + CombSizeOf(g, c) == UniOf(g, c)
  {
    hide Compare;
  }

  lemma OnlyCombination(g: Catalog, c: CollectionId)
    requires c < |g.cs| && g.cs[c].Combination?
    ensures SubOf(g, c) + UniOf(g, c) + SzsliceOf(g, c) + SzpermOf(g, c) + CombSizeOf(g, c) == CombSizeOf(g, c)
  {
    hide Compare;
  }

  lemma UnionForces(g: Catalog, c: CollectionId, v: Valuation)
    requires c < |g.cs| && g.cs[c].UnionOf?
    ensures var parts := g.cs[c].parts;
      SizeForces(g, c, v) <==>
        && v(SizeId(g, c)) >= 0.0 && v(SizeId(g, c)) <= SizeSum(g, parts, v)
        && forall i :: 0 <= i < |parts| ==> v(SizeId(g, parts[i])) <= v(SizeId(g, c))
  {
  }

  lemma CombinationForces(g: Catalog, c: CollectionId, v: Valuation)
    requires c < |g.cs| && g.cs[c].Combination?
    ensures SizeForces(g, c, v) ==> v(SizeId(g, c)) >= 0.0
  {
  }

  // ----- order -----

  /** By its numbers the collection is long enough for the index. */
  ghost predicate Reaches(g: Catalog, v: Valuation, c: CollectionId, i: Index) {
    match i
    case FromFront(n) => v(SizeId(g, c)) > n as real
    case FromBack(n) => n > 0 ==> v(SizeId(g, c)) > (n - 1) as real
  }

  /** By its numbers the element exists and has a pT. */
  ghost predicate Listed(g: Catalog, v: Valuation, e: Elem) {
    Reaches(g, v, e.c, e.i) && v(g.idOf(PropPresent(e.c, e.i, g.pt))) >= 1.0
  }

  function Pt(g: Catalog, v: Valuation, e: Elem): real { v(g.idOf(PropOf(e.c, e.i, g.pt))) }

  lemma FloorMeans(g: Catalog, c: CollectionId, floor: Option<nat>, v: Valuation)
    ensures HoldsSome(FloorAtom(g, c, floor), v) <==> floor.Some? && v(SizeId(g, c)) <= floor.value as real
  {
    hide Compare;
    if floor.Some? {
      CompareOne(1.0, SizeId(g, c), Le, floor.value as real, v);
      assert FloorAtom(g, c, floor)[0] == Compare([(1.0, SizeId(g, c))], Le, floor.value as real);
    }
  }

  ghost predicate HoldsSome(fs: seq<QFormula>, v: Valuation) { exists i :: 0 <= i < |fs| && Holds(fs[i], v) }

  lemma SomeConcat(a: seq<QFormula>, b: seq<QFormula>, v: Valuation)
    ensures HoldsSome(a + b, v) <==> HoldsSome(a, v) || HoldsSome(b, v)
  {
    hide Holds;
    if i :| 0 <= i < |a| && Holds(a[i], v) { assert (a + b)[i] == a[i]; }
    if i :| 0 <= i < |b| && Holds(b[i], v) { assert (a + b)[|a| + i] == b[i]; }
  }

  lemma PairFloorsMean(g: Catalog, a: Elem, b: Elem, v: Valuation)
    ensures HoldsSome(PairFloors(g, a, b), v) <==> !Reaches(g, v, a.c, a.i) || !Reaches(g, v, b.c, b.i)
  {
    hide FloorAtom;
    FloorMeans(g, a.c, FloorOf(a.i), v);
    FloorMeans(g, b.c, FloorOf(b.i), v);
    FloorMeans(g, a.c, Higher(FloorOf(a.i), FloorOf(b.i)), v);
    SomeConcat(FloorAtom(g, a.c, FloorOf(a.i)), FloorAtom(g, b.c, FloorOf(b.i)), v);
    SomeConcat(FloorAtom(g, b.c, FloorOf(b.i)), FloorAtom(g, a.c, FloorOf(a.i)), v);
  }

  lemma SomeOne(f: QFormula, v: Valuation)
    ensures HoldsSome([f], v) <==> Holds(f, v)
  {
    assert [f][0] == f;
  }

  /** A guarded pT fact: of two listed elements the one compares to the other. */
  lemma GuardedPtMeans(g: Catalog, a: Elem, b: Elem, rel: Rel, v: Valuation)
    ensures Holds(GuardedPt(g, a, b, rel), v) <==> (Listed(g, v, a) && Listed(g, v, b) ==> RelEval(rel, Pt(g, v, a), Pt(g, v, b)))
  {
    hide Compare, PairFloors, QOrOf, Reaches, HoldsSome, Holds;
    var fact := Compare([(1.0, g.idOf(PropOf(a.c, a.i, g.pt))), (-1.0, g.idOf(PropOf(b.c, b.i, g.pt)))], rel, 0.0);
    var floors, tail := PairFloors(g, a, b), if a == b then [] else [Absent(g, b)];
    QOrOfSome(floors + [Absent(g, a)] + tail + [fact], v);
    SomeConcat(floors + [Absent(g, a)] + tail, [fact], v);
    SomeConcat(floors + [Absent(g, a)], tail, v);
    SomeConcat(floors, [Absent(g, a)], v);
    SomeOne(fact, v);
    SomeOne(Absent(g, a), v);
    SomeOne(Absent(g, b), v);
    SomeNone(v);
    PairFloorsMean(g, a, b, v);
    CompareOne(1.0, g.idOf(PropPresent(a.c, a.i, g.pt)), Lt, 1.0, v);
    CompareOne(1.0, g.idOf(PropPresent(b.c, b.i, g.pt)), Lt, 1.0, v);
    CompareTwo(1.0, g.idOf(PropOf(a.c, a.i, g.pt)), -1.0, g.idOf(PropOf(b.c, b.i, g.pt)), rel, 0.0, v);
    RelDifference(rel, Pt(g, v, a), Pt(g, v, b));
  }

  lemma RelDifference(rel: Rel, x: real, y: real)
    ensures RelEval(rel, 1.0 * x + -1.0 * y, 0.0) <==> RelEval(rel, x, y)
  {
  }

  lemma SomeNone(v: Valuation)
    ensures !HoldsSome([], v)
  {
  }

  lemma QOrOfSome(parts: seq<QFormula>, v: Valuation)
    ensures Holds(QOrOf(parts), v) <==> HoldsSome(parts, v)
  {
    QOrOfHolds(parts, v);
  }

  /** In a pT-ordered collection listed elements are in descending pT: two from the
      front, two from the back, and one from each end where the ends must come in
      that order. */
  ghost predicate OrdForces(g: Catalog, p: Quantity, q: Quantity, v: Valuation)
    requires WellFormed(g.cs)
  {
    p.PropOf? && q.PropOf? && p.prop == q.prop == g.pt && p.c == q.c && p.c < |g.cs| && PtOrdered(g.cs, p.c, g.pt) ==>
      var a, b := Elem(p.c, p.i), Elem(q.c, q.i);
      Listed(g, v, a) && Listed(g, v, b) ==>
        && (p.i.FromFront? && q.i.FromFront? && p.i.n < q.i.n ==> Pt(g, v, a) >= Pt(g, v, b))
        && (p.i.FromBack? && q.i.FromBack? && p.i.n < q.i.n ==> Pt(g, v, b) >= Pt(g, v, a))
        && (p.i.FromFront? && q.i.FromBack? && (p.i.n == 0 || q.i.n == 1) ==> Pt(g, v, a) >= Pt(g, v, b))
  }

  lemma OrdMeans(g: Catalog, p: Quantity, q: Quantity, v: Valuation)
    requires WellFormed(g.cs)
    ensures HoldsAll(OrdOf(g, p, q), v) <==> OrdForces(g, p, q, v)
  {
    hide GuardedPt, Listed, Holds, PtOrdered;
    if p.PropOf? && q.PropOf? {
      var a, b := Elem(p.c, p.i), Elem(q.c, q.i);
      GuardedPtMeans(g, a, b, Ge, v);
      GuardedPtMeans(g, b, a, Ge, v);
      HoldsOne(GuardedPt(g, a, b, Ge), v);
      HoldsOne(GuardedPt(g, b, a, Ge), v);
    }
    EmptyHolds(v);
  }

  /** A listed element of a filtered collection has at most the pT of its parent's
      listed element of the same index. */
  ghost predicate IdomForces(g: Catalog, q: Quantity, v: Valuation)
    requires WellFormed(g.cs)
  {
    q.PropOf? && q.prop == g.pt && q.i.FromFront? && q.c < |g.cs| && g.cs[q.c].Filtered? && PtOrdered(g.cs, q.c, g.pt)
      && PtOrdered(g.cs, g.cs[q.c].parent, g.pt) ==>
      var a, b := Elem(q.c, q.i), Elem(g.cs[q.c].parent, q.i);
      Listed(g, v, a) && Listed(g, v, b) ==> Pt(g, v, a) <= Pt(g, v, b)
  }

  lemma IdomMeans(g: Catalog, q: Quantity, v: Valuation)
    requires WellFormed(g.cs)
    ensures HoldsAll(IdomOf(g, q), v) <==> IdomForces(g, q, v)
  {
    hide GuardedPt, Listed, Holds, PtOrdered;
    if q.PropOf? && q.c < |g.cs| && g.cs[q.c].Filtered? {
      GuardedPtMeans(g, Elem(q.c, q.i), Elem(g.cs[q.c].parent, q.i), Le, v);
      HoldsOne(GuardedPt(g, Elem(q.c, q.i), Elem(g.cs[q.c].parent, q.i), Le), v);
    }
    EmptyHolds(v);
  }

  // ----- filters and presence -----

  /** The n-th element of a filtered collection that is long enough satisfies the
      filter's axiom and has every property the filter requires. */
  ghost predicate FilterForces(g: Catalog, q: Quantity, v: Valuation) {
    q.PropOf? && q.i.FromFront? && q.c < |g.cs| && g.cs[q.c].Filtered? && v(SizeId(g, q.c)) > q.i.n as real ==>
      var p := g.preds(g.cs[q.c].pred);
      var axiom := EncodeElemPred(Rename(p, AtElement(g, q.c, q.i.n)));
      && (axiom.Some? ==> Holds(axiom.value, v))
      && (forall x | x in PQuants(p) && g.own(x).Some? && RequiresPresent((y: QuantityId) => g.own(y).Some?, p, x) ::
            v(g.idOf(PropPresent(q.c, FromFront(q.i.n), g.own(x).value))) >= 1.0)
  }

  lemma IfThereMeans(g: Catalog, c: CollectionId, n: nat, f: QFormula, v: Valuation)
    ensures Holds(IfThere(g, c, n, f), v) <==> (v(SizeId(g, c)) > n as real ==> Holds(f, v))
  {
    hide Compare;
    CompareOne(1.0, SizeId(g, c), Le, n as real, v);
    var parts := [Compare([(1.0, SizeId(g, c))], Le, n as real), f];
    assert parts[0] in parts && parts[1] in parts;
  }

  lemma EpresMeans(g: Catalog, q: Quantity, v: Valuation)
    requires IsTarget(g, q)
    ensures HoldsAll(EpresOf(g, q), v) <==>
      forall x | x in Required(g, PredOf(g, q.c)) ::
        v(SizeId(g, q.c)) > q.i.n as real ==> v(g.idOf(PropPresent(q.c, FromFront(q.i.n), g.own(x).value))) >= 1.0
  {
    hide Compare, Holds, Required, IfThere;
    var c, n, required := q.c, q.i.n, Required(g, PredOf(g, q.c));
    var order := Ascending(required);
    assert forall x | x in required :: g.own(x).Some? by { RequiredOwn(g, PredOf(g, c)); }
    HoldsEach(EpresOf(g, q), v);
    forall i | 0 <= i < |order|
      ensures order[i] in required && EpresOf(g, q)[i] == IfThere(g, c, n, PresenceFact(g, c, n, order[i]))
      ensures Holds(EpresOf(g, q)[i], v) <==>
        (v(SizeId(g, c)) > n as real ==> v(g.idOf(PropPresent(c, FromFront(n), g.own(order[i]).value))) >= 1.0)
    {
      assert order[i] in order;
      IfThereMeans(g, c, n, PresenceFact(g, c, n, order[i]), v);
      CompareOne(1.0, g.idOf(PropPresent(c, FromFront(n), g.own(order[i]).value)), Ge, 1.0, v);
    }
    if HoldsAll(EpresOf(g, q), v) {
      forall x | x in required
        ensures v(SizeId(g, c)) > n as real ==> v(g.idOf(PropPresent(c, FromFront(n), g.own(x).value))) >= 1.0
      {
        assert x in order;
        var i :| 0 <= i < |order| && order[i] == x;
        assert Holds(EpresOf(g, q)[i], v);
      }
    }
  }

  lemma RequiredOwn(g: Catalog, p: Pred)
    ensures forall x | x in Required(g, p) :: g.own(x).Some?
  {
  }

  lemma FiltersMean(g: Catalog, q: Quantity, v: Valuation)
    ensures HoldsAll(EpredOf(g, q) + EpresOf(g, q), v) <==> FilterForces(g, q, v)
  {
    hide Compare, Holds, IfThere, EncodeElemPred, RequiresPresent, PQuants;
    HoldsConcat(EpredOf(g, q), EpresOf(g, q), v);
    EmptyHolds(v);
    if IsTarget(g, q) {
      EpresMeans(g, q, v);
      var axiom := EncodeElemPred(Rename(PredOf(g, q.c), AtElement(g, q.c, q.i.n)));
      if axiom.Some? {
        IfThereMeans(g, q.c, q.i.n, axiom.value, v);
        HoldsOne(IfThere(g, q.c, q.i.n, axiom.value), v);
      }
    }
  }

  /** An indicator lies between 0 and 1, and reads 1 only if the element exists. */
  ghost predicate PresenceForces(g: Catalog, q: Quantity, v: Valuation) {
    q.PropPresent? && q.c < |g.cs| ==>
      0.0 <= v(g.idOf(q)) <= 1.0 && (v(g.idOf(q)) >= 1.0 ==> Reaches(g, v, q.c, q.i))
  }

  lemma PresenceMeans(g: Catalog, q: Quantity, v: Valuation)
    ensures HoldsAll(if q.PropPresent? && q.c < |g.cs| then PresOf(g, q) + PdefOf(g, q) else [], v) <==> PresenceForces(g, q, v)
  {
    hide Compare;
    EmptyHolds(v);
    if q.PropPresent? && q.c < |g.cs| {
      var id := g.idOf(q);
      var bounds := [Compare([(1.0, id)], Ge, 0.0), Compare([(1.0, id)], Le, 1.0)];
      CompareOne(1.0, id, Ge, 0.0, v);
      CompareOne(1.0, id, Le, 1.0, v);
      CompareOne(1.0, id, Lt, 1.0, v);
      assert bounds[0] in bounds && bounds[1] in bounds;
      HoldsConcat(PresOf(g, q), PdefOf(g, q), v);
      HoldsOne(QAnd(bounds), v);
      if FloorOf(q.i).Some? {
        var n := FloorOf(q.i).value;
        var alts := [Compare([(1.0, id)], Lt, 1.0), Compare([(1.0, SizeId(g, q.c))], Gt, n as real)];
        CompareOne(1.0, SizeId(g, q.c), Gt, n as real, v);
        assert alts[0] in alts && alts[1] in alts;
        HoldsOne(QOr(alts), v);
      }
    }
  }

  // ----- everything due -----

  /** The facts about one quantity. */
  ghost predicate OwnForces(g: Catalog, q: Quantity, v: Valuation)
    requires WellFormed(g.cs)
  {
    && (q.SizeOf? && q.c < |g.cs| ==> SizeForces(g, q.c, v))
    && FilterForces(g, q, v) && IdomForces(g, q, v) && PresenceForces(g, q, v)
  }

  /** All the facts about some quantities. */
  ghost predicate Forces(g: Catalog, qs: set<QuantityId>, v: Valuation)
    requires WellFormed(g.cs)
  {
    && (forall q | q in qs :: OwnForces(g, g.quantityOf(q), v))
    && (forall p, q | p in qs && q in qs :: OrdForces(g, g.quantityOf(p), g.quantityOf(q), v))
  }

  lemma OwnMeans(g: Catalog, q: Quantity, v: Valuation)
    requires WellFormed(g.cs)
    ensures HoldsAll(AxiomsOf(g, q), v) <==> OwnForces(g, q, v)
  {
    hide Holds, SizeAxioms, EpredOf, EpresOf, IdomOf, PresOf, PdefOf, SizeForces, FilterForces, IdomForces, PresenceForces;
    var sizes := if q.SizeOf? && q.c < |g.cs| then SizeAxioms(g, q.c) else [];
    var present := if q.PropPresent? && q.c < |g.cs| then PresOf(g, q) + PdefOf(g, q) else [];
    var filters := EpredOf(g, q) + EpresOf(g, q);
    assert AxiomsOf(g, q) == ((sizes + filters) + IdomOf(g, q)) + present;
    HoldsConcat((sizes + filters) + IdomOf(g, q), present, v);
    HoldsConcat(sizes + filters, IdomOf(g, q), v);
    HoldsConcat(sizes, filters, v);
    EmptyHolds(v);
    if q.SizeOf? && q.c < |g.cs| { SizesMean(g, q.c, v); }
    FiltersMean(g, q, v);
    IdomMeans(g, q, v);
    PresenceMeans(g, q, v);
  }

  /** What is due for some quantities holds of a valuation exactly when its numbers
      keep the facts about them. */
  lemma DueMeans(g: Catalog, qs: seq<QuantityId>, all: set<QuantityId>, v: Valuation)
    requires WellFormed(g.cs) && forall q :: q in qs <==> q in all
    ensures (forall f | Due(g, qs, f) :: Holds(f, v)) <==> Forces(g, all, v)
  {
    hide Holds, AxiomsOf, OrdOf, OwnForces, OrdForces;
    forall q | q in qs { OwnMeans(g, g.quantityOf(q), v); }
    forall p, q | p in qs && q in qs { OrdMeans(g, g.quantityOf(p), g.quantityOf(q), v); }
    if forall f | Due(g, qs, f) :: Holds(f, v) {
      forall q | q in qs ensures HoldsAll(AxiomsOf(g, g.quantityOf(q)), v) {
        forall f | f in AxiomsOf(g, g.quantityOf(q)) ensures Holds(f, v) { assert Due(g, qs, f); }
      }
      forall p, q | p in qs && q in qs ensures HoldsAll(OrdOf(g, g.quantityOf(p), g.quantityOf(q)), v) {
        forall f | f in OrdOf(g, g.quantityOf(p), g.quantityOf(q)) ensures Holds(f, v) { assert Due(g, qs, f); }
      }
    }
    if Forces(g, all, v) {
      forall f | Due(g, qs, f) ensures Holds(f, v) { DueHolds(g, qs, all, v, f); }
    }
  }

  lemma DueHolds(g: Catalog, qs: seq<QuantityId>, all: set<QuantityId>, v: Valuation, f: QFormula)
    requires WellFormed(g.cs) && (forall q :: q in qs <==> q in all) && Forces(g, all, v) && Due(g, qs, f)
    ensures Holds(f, v)
  {
    hide Holds, AxiomsOf, OrdOf, OwnForces, OrdForces;
    if OwnDue(g, qs, f) {
      var q :| q in qs && f in AxiomsOf(g, g.quantityOf(q));
      OwnMeans(g, g.quantityOf(q), v);
    } else {
      var p, q :| p in qs && q in qs && f in OrdOf(g, g.quantityOf(p), g.quantityOf(q));
      OrdMeans(g, g.quantityOf(p), g.quantityOf(q), v);
    }
  }
}
