/** The emitted size, order, presence and filter axioms, and that each is true of
    events. */
module Axioms {
  import opened Linear
  import opened Formulas
  import opened Saturation
  import opened Conditions
  import opened Collections
  import opened LinearForms
  import opened ElementPredicates
  import opened ElementInstances

  datatype Index = FromFront(n: nat) | FromBack(n: nat)

  /** The quantities the axioms speak of: sizes, properties of elements, and the
      indicators of those. */
  datatype Quantity =
    | SizeOf(c: CollectionId)
    | PropOf(c: CollectionId, i: Index, prop: PropId)
    | PropPresent(c: CollectionId, i: Index, prop: PropId)
    | Other

  /** The interned table: an id for every quantity, the quantity of every id, and
      the filter predicates, in which an own id stands for a property of the
      element at hand. */
  datatype Catalog = Catalog(
    cs: Colls,
    pt: PropId,
    own: QuantityId -> Option<PropId>,
    preds: nat -> Pred,
    idOf: Quantity -> QuantityId,
    quantityOf: QuantityId -> Quantity)

  ghost predicate CatalogValid(g: Catalog) {
    WellFormed(g.cs) && forall q: Quantity :: q != Other ==> g.quantityOf(g.idOf(q)) == q
  }

  // ----- what the quantities mean on an event -----

  /** The position an index denotes in a list of the given length. */
  function Position(i: Index, len: nat): Option<nat> {
    match i
    case FromFront(n) => if n < len then Some(n) else None
    case FromBack(n) => if 1 <= n <= len then Some(len - n) else None
  }

  function PropValue(objs: seq<Object>, i: Index, prop: PropId): Option<real> {
    match Position(i, |objs|)
    case Some(k) => if k < |objs| && prop in objs[k] then Some(objs[k][prop]) else None
    case None => None
  }

  /** The valuation reads the event: sizes, values where there are any, and the
      indicators that say where. */
  ghost predicate Reflects(v: Valuation, ph: Physics, g: Catalog)
    requires WellFormed(g.cs)
  {
    && (forall c: CollectionId :: c < |g.cs| ==> v(g.idOf(SizeOf(c))) == |Materialize(ph, g.cs, c)| as real)
    && (forall c: CollectionId, i: Index, prop: PropId :: c < |g.cs| ==>
      match PropValue(Materialize(ph, g.cs, c), i, prop)
      case Some(x) => v(g.idOf(PropOf(c, i, prop))) == x && v(g.idOf(PropPresent(c, i, prop))) == 1.0
      case None => v(g.idOf(PropPresent(c, i, prop))) == 0.0)
  }

  /** A filter keeps the objects on which its predicate is true. */
  ghost predicate Filters(ph: Physics, event: Surroundings, g: Catalog) {
    forall k: nat, o: Object :: ph.passes(k, o) <==> PTruth(ElemReader(event, g.own, o), event.On(o), g.preds(k)) == T
  }

  /** An event and a valuation that reads it. */
  ghost predicate EventOf(ph: Physics, event: Surroundings, v: Valuation, g: Catalog)
    requires WellFormed(g.cs)
  {
    ValidPhysics(ph, g.pt) && Reflects(v, ph, g) && Filters(ph, event, g)
  }

  /** True of every event, under every valuation that reads it. */
  ghost predicate TrueOfEvents(f: QFormula, g: Catalog)
    requires WellFormed(g.cs)
  {
    forall ph: Physics, event: Surroundings, v: Valuation :: EventOf(ph, event, v, g) ==> Holds(f, v)
  }

  /** The object has every property that the predicate mentions, the event every
      datum, and operands whose sign alone matters have values. */
  ghost predicate Carries(event: Surroundings, v: Valuation, g: Catalog, p: Pred, o: Object) {
    && Settled(ElemReader(event, g.own, o), p)
    && forall q | q in PQuants(p) ::
      match g.own(q)
      case Some(prop) => prop in o
      case None => event.read(q) == Val(v(q))
  }

  /** Every object that a filter kept has what the filter mentions. */
  ghost predicate ElementsCarry(ph: Physics, event: Surroundings, v: Valuation, g: Catalog)
    requires WellFormed(g.cs)
  {
    forall c: CollectionId, o: Object :: c < |g.cs| && g.cs[c].Filtered? && o in Materialize(ph, g.cs, c) ==>
      Carries(event, v, g, g.preds(g.cs[c].pred), o)
  }

  ghost predicate TrueWhereCarried(f: QFormula, g: Catalog)
    requires WellFormed(g.cs)
  {
    forall ph: Physics, event: Surroundings, v: Valuation :: EventOf(ph, event, v, g) && ElementsCarry(ph, event, v, g) ==> Holds(f, v)
  }

  ghost predicate AllTrue(fs: seq<QFormula>, g: Catalog)
    requires WellFormed(g.cs)
  {
    forall f | f in fs :: TrueOfEvents(f, g)
  }

  // ----- building blocks -----

  function Compare(terms: seq<(real, QuantityId)>, rel: Rel, k: real): QFormula {
    QAtom(MakeAtom(seq(|terms|, i requires 0 <= i < |terms| => Term(terms[i].0, terms[i].1)), rel, k))
  }

  function QOrOf(parts: seq<QFormula>): QFormula {
    if parts == [] then QFalse else if |parts| == 1 then parts[0] else QOr(parts)
  }

  lemma QOrOfHolds(parts: seq<QFormula>, v: Valuation)
    ensures Holds(QOrOf(parts), v) <==> exists i :: 0 <= i < |parts| && Holds(parts[i], v)
  {
    if |parts| > 1 {
      assert Holds(QOr(parts), v) <==> exists x | x in parts :: Holds(x, v);
      if x :| x in parts && Holds(x, v) {
        var i :| 0 <= i < |parts| && parts[i] == x;
      }
    }
  }

  lemma CompareOne(a: real, p: QuantityId, rel: Rel, k: real, v: Valuation)
    ensures Holds(Compare([(a, p)], rel, k), v) <==> RelEval(rel, a * v(p), k)
  {
    hide Normalize, Dot, MakeAtom;
    var ts := [Term(a, p)];
    MakeAtomMeans(ts, rel, k, v);
    DotOne(a, p, v);
    assert seq(1, i requires 0 <= i < 1 => Term([(a, p)][i].0, [(a, p)][i].1)) == ts;
  }

  lemma DotOne(a: real, p: QuantityId, v: Valuation)
    ensures Dot([Term(a, p)], v) == a * v(p)
  {
    var ts := [Term(a, p)];
    assert ts[1..] == [];
    assert Dot(ts, v) == ts[0].coeff * v(ts[0].q) + Dot(ts[1..], v);
  }

  lemma CompareTwo(a: real, p: QuantityId, b: real, q: QuantityId, rel: Rel, k: real, v: Valuation)
    ensures Holds(Compare([(a, p), (b, q)], rel, k), v) <==> RelEval(rel, a * v(p) + b * v(q), k)
  {
    hide Normalize, Dot, MakeAtom;
    var ts := [Term(a, p), Term(b, q)];
    MakeAtomMeans(ts, rel, k, v);
    assert ts == [Term(a, p)] + [Term(b, q)];
    DotConcat([Term(a, p)], [Term(b, q)], v);
    DotOne(a, p, v);
    DotOne(b, q, v);
    var given := [(a, p), (b, q)];
    assert seq(2, i requires 0 <= i < 2 => Term(given[i].0, given[i].1)) == ts;
  }

  // ----- sizes -----

  function SizeId(g: Catalog, c: CollectionId): QuantityId { g.idOf(SizeOf(c)) }

  function SubOf(g: Catalog, c: CollectionId): seq<QFormula>
    requires c < |g.cs|
  {
    match g.cs[c]
    case Filtered(p, _) => [Compare([(1.0, SizeId(g, c)), (-1.0, SizeId(g, p))], Le, 0.0)]
    case _ => []
  }

  function UniOf(g: Catalog, c: CollectionId): seq<QFormula>
    requires c < |g.cs|
  {
    match g.cs[c]
    case UnionOf(parts) =>
      seq(|parts|, i requires 0 <= i < |parts| => Compare([(1.0, SizeId(g, c)), (-1.0, SizeId(g, parts[i]))], Ge, 0.0))
      + [Compare([(1.0, SizeId(g, c))] + seq(|parts|, i requires 0 <= i < |parts| => (-1.0, SizeId(g, parts[i]))), Le, 0.0)]
    case _ => []
  }

  function SzsliceOf(g: Catalog, c: CollectionId): seq<QFormula>
    requires c < |g.cs|
  {
    match g.cs[c]
    case Slice(p, start, end) =>
      [Compare([(1.0, SizeId(g, c))], Ge, 0.0), Compare([(1.0, SizeId(g, c)), (-1.0, SizeId(g, p))], Le, 0.0)]
      + (if end.Some? && end.value >= start then [Compare([(1.0, SizeId(g, c))], Le, (end.value - start) as real)] else [])
    case _ => []
  }

  function SzpermOf(g: Catalog, c: CollectionId): seq<QFormula>
    requires c < |g.cs|
  {
    match g.cs[c]
    case Sorted(p, _, _) => [Compare([(1.0, SizeId(g, c)), (-1.0, SizeId(g, p))], Eq, 0.0)]
    case _ => []
  }

  /** Some part is empty, or the product is not. */
  function BareAlternatives(g: Catalog, k: Combo, c: CollectionId): seq<QFormula> {
    seq(|k.parts|, i requires 0 <= i < |k.parts| => Compare([(1.0, SizeId(g, k.parts[i]))], Le, 0.0))
    + [Compare([(1.0, SizeId(g, c))], Ge, 1.0)]
  }

  function CombSizeOf(g: Catalog, c: CollectionId): seq<QFormula>
    requires c < |g.cs|
  {
    match g.cs[c]
    case CombProject(p, _) => [Compare([(1.0, SizeId(g, c)), (-1.0, SizeId(g, p))], Eq, 0.0)]
    case Combination(k) =>
      var empty := Compare([(1.0, SizeId(g, c))], Eq, 0.0);
      [Compare([(1.0, SizeId(g, c))], Ge, 0.0)]
      + if k.disjoint && SameSource(k.parts) then
          [QOrOf([Compare([(1.0, SizeId(g, k.parts[0]))], Ge, 2.0), empty])]
        else
          seq(|k.parts|, i requires 0 <= i < |k.parts| =>
            QOrOf([Compare([(1.0, SizeId(g, k.parts[i]))], Ge, 1.0), empty]))
          + (if !k.disjoint && k.cuts == [] && k.candidate == None && k.parts != [] then
               [QOrOf(BareAlternatives(g, k, c))]
             else [])
    case _ => []
  }

  lemma SubTrue(g: Catalog, c: CollectionId)
    requires CatalogValid(g) && c < |g.cs|
    ensures AllTrue(SubOf(g, c), g)
  {
    forall ph: Physics, v: Valuation | ValidPhysics(ph, g.pt) && Reflects(v, ph, g)
      ensures forall f | f in SubOf(g, c) :: Holds(f, v)
    {
      if g.cs[c].Filtered? {
        var p := g.cs[c].parent;
        CompareTwo(1.0, SizeId(g, c), -1.0, SizeId(g, p), Le, 0.0, v);
        KeptShorter(Materialize(ph, g.cs, p), o => ph.passes(g.cs[c].pred, o));
      }
    }
  }

  lemma {:induction false} NegativeSum(g: Catalog, parts: seq<CollectionId>, ns: seq<nat>, v: Valuation)
    requires |parts| == |ns| && forall i :: 0 <= i < |parts| ==> v(SizeId(g, parts[i])) == ns[i] as real
    ensures Dot(seq(|parts|, i requires 0 <= i < |parts| => Term(-1.0, SizeId(g, parts[i]))), v) == -(Total(ns) as real)
  {
    var ts := seq(|parts|, i requires 0 <= i < |parts| => Term(-1.0, SizeId(g, parts[i])));
    if parts != [] {
      var n := |parts| - 1;
      NegativeSum(g, parts[..n], ns[..n], v);
      var last := [Term(-1.0, SizeId(g, parts[n]))];
      assert ts == seq(n, i requires 0 <= i < n => Term(-1.0, SizeId(g, parts[..n][i]))) + last;
      DotConcat(ts[..n], last, v);
      assert last[1..] == [];
      assert Dot(last, v) == last[0].coeff * v(last[0].q) + Dot(last[1..], v);
      assert ts[..n] == seq(n, i requires 0 <= i < n => Term(-1.0, SizeId(g, parts[..n][i])));
    }
  }

  /** `size(c) - sum of the parts' sizes` as the emitter lists it. */
  lemma CompareSum(g: Catalog, c: CollectionId, parts: seq<CollectionId>, ns: seq<nat>, v: Valuation)
    requires |parts| == |ns| && forall i :: 0 <= i < |parts| ==> v(SizeId(g, parts[i])) == ns[i] as real
    ensures Holds(Compare([(1.0, SizeId(g, c))] + seq(|parts|, i requires 0 <= i < |parts| => (-1.0, SizeId(g, parts[i]))), Le, 0.0), v)
      <==> v(SizeId(g, c)) <= Total(ns) as real
  {
    hide Normalize, Dot, Total, MakeAtom;
    var pairs := [(1.0, SizeId(g, c))] + seq(|parts|, i requires 0 <= i < |parts| => (-1.0, SizeId(g, parts[i])));
    var head := [Term(1.0, SizeId(g, c))];
    var tail := seq(|parts|, i requires 0 <= i < |parts| => Term(-1.0, SizeId(g, parts[i])));
    var ts := seq(|pairs|, i requires 0 <= i < |pairs| => Term(pairs[i].0, pairs[i].1));
    assert ts == head + tail;
    MakeAtomMeans(ts, Le, 0.0, v);
    NegativeSum(g, parts, ns, v);
    DotConcat(head, tail, v);
    DotOne(1.0, SizeId(g, c), v);
  }

  /** The sizes around a union, on one event. */
  lemma UnionSizes(g: Catalog, c: CollectionId, ph: Physics, v: Valuation) returns (ns: seq<nat>)
    requires CatalogValid(g) && c < |g.cs| && g.cs[c].UnionOf? && Reflects(v, ph, g)
    ensures |ns| == |g.cs[c].parts| && v(SizeId(g, c)) == Total(ns) as real
    ensures forall i | 0 <= i < |ns| :: v(SizeId(g, g.cs[c].parts[i])) == ns[i] as real <= v(SizeId(g, c))
  {
    var parts := g.cs[c].parts;
    var lists := MaterializeAll(ph, g.cs, parts, c);
    ConcatenatedSize(lists);
    ns := Sizes(lists);
    forall i | 0 <= i < |parts| ensures v(SizeId(g, parts[i])) == ns[i] as real <= v(SizeId(g, c)) {
      assert parts[i] in parts;
      assert |lists[i]| <= |Concatenated(lists)|;
    }
  }

  lemma UniTrue(g: Catalog, c: CollectionId)
    requires CatalogValid(g) && c < |g.cs|
    ensures AllTrue(UniOf(g, c), g)
  {
    hide Compare, Total, Materialize, Holds, Reflects;
    forall ph: Physics, v: Valuation | ValidPhysics(ph, g.pt) && Reflects(v, ph, g)
      ensures forall f | f in UniOf(g, c) :: Holds(f, v)
    {
      if g.cs[c].UnionOf? {
        var parts := g.cs[c].parts;
        var ns := UnionSizes(g, c, ph, v);
        forall i | 0 <= i < |parts|
          ensures Holds(Compare([(1.0, SizeId(g, c)), (-1.0, SizeId(g, parts[i]))], Ge, 0.0), v)
        {
          CompareTwo(1.0, SizeId(g, c), -1.0, SizeId(g, parts[i]), Ge, 0.0, v);
        }
        CompareSum(g, c, parts, ns, v);
      }
    }
  }

  lemma SzsliceTrue(g: Catalog, c: CollectionId)
    requires CatalogValid(g) && c < |g.cs|
    ensures AllTrue(SzsliceOf(g, c), g)
  {
    hide Compare, Sliced;
    forall ph: Physics, v: Valuation | ValidPhysics(ph, g.pt) && Reflects(v, ph, g)
      ensures forall f | f in SzsliceOf(g, c) :: Holds(f, v)
    {
      match g.cs[c]
      case Slice(p, start, end) =>
        CompareOne(1.0, SizeId(g, c), Ge, 0.0, v);
        CompareTwo(1.0, SizeId(g, c), -1.0, SizeId(g, p), Le, 0.0, v);
        if end.Some? && end.value >= start { CompareOne(1.0, SizeId(g, c), Le, (end.value - start) as real, v); }
        SlicedSize(Materialize(ph, g.cs, p), start, end);
      case _ =>
    }
  }

  lemma SzpermTrue(g: Catalog, c: CollectionId)
    requires CatalogValid(g) && c < |g.cs|
    ensures AllTrue(SzpermOf(g, c), g)
  {
    hide Compare, StableSort;
    forall ph: Physics, v: Valuation | ValidPhysics(ph, g.pt) && Reflects(v, ph, g)
      ensures forall f | f in SzpermOf(g, c) :: Holds(f, v)
    {
      match g.cs[c]
      case Sorted(p, key, descend) =>
        CompareTwo(1.0, SizeId(g, c), -1.0, SizeId(g, p), Eq, 0.0, v);
        if key.Some? { StableSortSize(Materialize(ph, g.cs, p), key.value, descend); }
      case _ =>
    }
  }

  /** The size of a combination, in terms of its parts' sizes. */
  lemma ComboSize(ph: Physics, cs: Colls, c: CollectionId)
    requires WellFormed(cs) && c < |cs| && cs[c].Combination?
    ensures var k := cs[c].combo; var slots := MaterializeAll(ph, cs, k.parts, c);
      && ((exists i :: 0 <= i < |slots| && slots[i] == []) ==> Materialize(ph, cs, c) == [])
      && (k.disjoint && SameSource(k.parts) && |slots[0]| < 2 ==> Materialize(ph, cs, c) == [])
      && (!k.disjoint && k.cuts == [] && k.candidate == None && k.parts != [] && (forall i :: 0 <= i < |slots| ==> slots[i] != [])
        ==> Materialize(ph, cs, c) != [])
  {
    var k := cs[c].combo;
    var slots := MaterializeAll(ph, cs, k.parts, c);
    ComboCount(ph, cs, k, None, c);
    if exists i :: 0 <= i < |slots| && slots[i] == [] { NoTuples(k, slots); }
    if k.disjoint && SameSource(k.parts) && |slots[0]| < 2 {
      forall i | 0 <= i < |slots| ensures |slots[i]| < 2 { assert k.parts[i] == k.parts[0]; }
      NoTuples(k, slots);
    }
    if !k.disjoint && k.cuts == [] && k.candidate == None && k.parts != [] && (forall i :: 0 <= i < |slots| ==> slots[i] != []) {
      SomeTuple(ph, k, slots);
    }
  }

  lemma CombSizeTrue(g: Catalog, c: CollectionId)
    requires CatalogValid(g) && c < |g.cs|
    ensures AllTrue(CombSizeOf(g, c), g)
  {
    forall ph: Physics, v: Valuation | ValidPhysics(ph, g.pt) && Reflects(v, ph, g)
      ensures forall f | f in CombSizeOf(g, c) :: Holds(f, v)
    {
      match g.cs[c]
      case CombProject(p, slot) => ProjectionSizeHolds(g, ph, v, c);
      case Combination(k) => CombinationSizeHolds(g, ph, v, c);
      case _ =>
    }
  }

  lemma ProjectionSizeHolds(g: Catalog, ph: Physics, v: Valuation, c: CollectionId)
    requires CatalogValid(g) && c < |g.cs| && Reflects(v, ph, g) && g.cs[c].CombProject?
    ensures forall f | f in CombSizeOf(g, c) :: Holds(f, v)
  {
    hide Compare, Materialize, MaterializeAll, MaterializeCombo, Survivors, ComboTuples;
    var p := g.cs[c].parent;
    CompareTwo(1.0, SizeId(g, c), -1.0, SizeId(g, p), Eq, 0.0, v);
    ComboCount(ph, g.cs, g.cs[p].combo, None, p);
    ComboCount(ph, g.cs, g.cs[p].combo, g.cs[c].slot, p);
    ProjectionIs(ph, g.cs, c);
  }

  lemma ProjectionIs(ph: Physics, cs: Colls, c: CollectionId)
    requires WellFormed(cs) && c < |cs| && cs[c].CombProject?
    ensures Materialize(ph, cs, c) == MaterializeCombo(ph, cs, cs[cs[c].parent].combo, cs[c].slot, cs[c].parent)
    ensures Materialize(ph, cs, cs[c].parent) == MaterializeCombo(ph, cs, cs[cs[c].parent].combo, None, cs[c].parent)
  {
  }

  lemma PartSizes(g: Catalog, ph: Physics, v: Valuation, parts: seq<CollectionId>, c: CollectionId, i: nat)
    requires CatalogValid(g) && c < |g.cs| && Reflects(v, ph, g) && i < |parts| && forall p | p in parts :: p < c
    ensures v(SizeId(g, parts[i])) == |MaterializeAll(ph, g.cs, parts, c)[i]| as real
  {
    assert parts[i] in parts;
  }

  lemma CombinationSizeHolds(g: Catalog, ph: Physics, v: Valuation, c: CollectionId)
    requires CatalogValid(g) && c < |g.cs| && Reflects(v, ph, g) && g.cs[c].Combination?
    ensures forall f | f in CombSizeOf(g, c) :: Holds(f, v)
  {
    hide Compare, MaterializeAll, Materialize, QOrOf;
    var k := g.cs[c].combo;
    var slots, n := MaterializeAll(ph, g.cs, k.parts, c), |k.parts|;
    var empty := Compare([(1.0, SizeId(g, c))], Eq, 0.0);
    SlotCount(ph, g.cs, k.parts, c);
    ComboSize(ph, g.cs, c);
    CompareOne(1.0, SizeId(g, c), Ge, 0.0, v);
    CompareOne(1.0, SizeId(g, c), Eq, 0.0, v);
    CompareOne(1.0, SizeId(g, c), Ge, 1.0, v);
    forall i | 0 <= i < n
      ensures Holds(Compare([(1.0, SizeId(g, k.parts[i]))], Ge, 2.0), v) <==> |slots[i]| >= 2
      ensures Holds(Compare([(1.0, SizeId(g, k.parts[i]))], Ge, 1.0), v) <==> slots[i] != []
      ensures Holds(Compare([(1.0, SizeId(g, k.parts[i]))], Le, 0.0), v) <==> slots[i] == []
    {
      PartSizes(g, ph, v, k.parts, c, i);
      CompareOne(1.0, SizeId(g, k.parts[i]), Ge, 2.0, v);
      CompareOne(1.0, SizeId(g, k.parts[i]), Ge, 1.0, v);
      CompareOne(1.0, SizeId(g, k.parts[i]), Le, 0.0, v);
    }
    if k.disjoint && SameSource(k.parts) {
      PairOr(Compare([(1.0, SizeId(g, k.parts[0]))], Ge, 2.0), empty, v);
    } else {
      forall i | 0 <= i < n ensures Holds(QOrOf([Compare([(1.0, SizeId(g, k.parts[i]))], Ge, 1.0), empty]), v) {
        PairOr(Compare([(1.0, SizeId(g, k.parts[i]))], Ge, 1.0), empty, v);
      }
      BareProductHolds(g, ph, v, c);
    }
  }

  lemma SlotCount(ph: Physics, cs: Colls, parts: seq<CollectionId>, c: CollectionId)
    requires WellFormed(cs) && c < |cs| && forall p | p in parts :: p < c
    ensures |MaterializeAll(ph, cs, parts, c)| == |parts|
  {
  }

  lemma PairOr(a: QFormula, b: QFormula, v: Valuation)
    ensures Holds(QOrOf([a, b]), v) <==> Holds(a, v) || Holds(b, v)
  {
    QOrOfHolds([a, b], v);
    assert [a, b][0] == a && [a, b][1] == b;
  }

  lemma BareProductHolds(g: Catalog, ph: Physics, v: Valuation, c: CollectionId)
    requires CatalogValid(g) && c < |g.cs| && Reflects(v, ph, g) && g.cs[c].Combination?
    ensures var k := g.cs[c].combo;
      !k.disjoint && k.cuts == [] && k.candidate == None && k.parts != [] ==>
        Holds(QOrOf(BareAlternatives(g, k, c)), v)
  {
    hide Compare, MaterializeAll, Materialize, QOrOf;
    var k := g.cs[c].combo;
    var slots, n := MaterializeAll(ph, g.cs, k.parts, c), |k.parts|;
    var alts := BareAlternatives(g, k, c);
    SlotCount(ph, g.cs, k.parts, c);
    ComboSize(ph, g.cs, c);
    QOrOfHolds(alts, v);
    CompareOne(1.0, SizeId(g, c), Ge, 1.0, v);
    assert alts[n] == Compare([(1.0, SizeId(g, c))], Ge, 1.0);
    if i :| 0 <= i < n && slots[i] == [] {
      PartSizes(g, ph, v, k.parts, c, i);
      CompareOne(1.0, SizeId(g, k.parts[i]), Le, 0.0, v);
      assert Holds(alts[i], v);
    } else if !k.disjoint && k.cuts == [] && k.candidate == None && k.parts != [] {
      var size := |Materialize(ph, g.cs, c)|;
      assert size >= 1 && v(SizeId(g, c)) == size as real;
      assert |alts| == n + 1 && Holds(alts[n], v);
    }
  }

  // ----- the pT order -----

  /** The element an index needs: the collection must be larger than this. */
  function FloorOf(i: Index): Option<nat> {
    match i
    case FromFront(n) => Some(n)
    case FromBack(n) => if n >= 1 then Some(n - 1) else None
  }

  function FloorAtom(g: Catalog, c: CollectionId, floor: Option<nat>): seq<QFormula> {
    match floor
    case Some(n) => [Compare([(1.0, SizeId(g, c))], Le, n as real)]
    case None => []
  }

  function Higher(a: Option<nat>, b: Option<nat>): Option<nat> {
    if a.Some? && (b.None? || a.value >= b.value) then a else b
  }

  datatype Elem = Elem(c: CollectionId, i: Index)

  /** The size guards of two elements, one per collection in order. */
  function PairFloors(g: Catalog, a: Elem, b: Elem): seq<QFormula> {
    if a.c == b.c then FloorAtom(g, a.c, Higher(FloorOf(a.i), FloorOf(b.i)))
    else if a.c < b.c then FloorAtom(g, a.c, FloorOf(a.i)) + FloorAtom(g, b.c, FloorOf(b.i))
    else FloorAtom(g, b.c, FloorOf(b.i)) + FloorAtom(g, a.c, FloorOf(a.i))
  }

  function Absent(g: Catalog, e: Elem): QFormula { Compare([(1.0, g.idOf(PropPresent(e.c, e.i, g.pt)))], Lt, 1.0) }

  /** `pt(a) rel pt(b)`, unless one of the elements or values is missing. */
  function GuardedPt(g: Catalog, a: Elem, b: Elem, rel: Rel): QFormula {
    QOrOf(PairFloors(g, a, b) + [Absent(g, a)] + (if a == b then [] else [Absent(g, b)])
      + [Compare([(1.0, g.idOf(PropOf(a.c, a.i, g.pt))), (-1.0, g.idOf(PropOf(b.c, b.i, g.pt)))], rel, 0.0)])
  }

  lemma GuardedPtHolds(g: Catalog, ph: Physics, v: Valuation, a: Elem, b: Elem, rel: Rel)
    requires CatalogValid(g) && Reflects(v, ph, g) && a.c < |g.cs| && b.c < |g.cs|
    requires var x, y := PropValue(Materialize(ph, g.cs, a.c), a.i, g.pt), PropValue(Materialize(ph, g.cs, b.c), b.i, g.pt);
      x.Some? && y.Some? ==> RelEval(rel, x.value, y.value)
    ensures Holds(GuardedPt(g, a, b, rel), v)
  {
    hide Compare, Materialize, PropValue, PairFloors, QOrOf;
    var fact := Compare([(1.0, g.idOf(PropOf(a.c, a.i, g.pt))), (-1.0, g.idOf(PropOf(b.c, b.i, g.pt)))], rel, 0.0);
    var floors, tail := PairFloors(g, a, b), if a == b then [] else [Absent(g, b)];
    var parts := floors + [Absent(g, a)] + tail + [fact];
    var n := |floors|;
    QOrOfHolds(parts, v);
    CompareOne(1.0, g.idOf(PropPresent(a.c, a.i, g.pt)), Lt, 1.0, v);
    CompareOne(1.0, g.idOf(PropPresent(b.c, b.i, g.pt)), Lt, 1.0, v);
    CompareTwo(1.0, g.idOf(PropOf(a.c, a.i, g.pt)), -1.0, g.idOf(PropOf(b.c, b.i, g.pt)), rel, 0.0, v);
    assert parts[n] == Absent(g, a) && parts[n + 1 + |tail|] == fact;
    if PropValue(Materialize(ph, g.cs, a.c), a.i, g.pt).None? {
      assert Holds(parts[n], v);
    } else if PropValue(Materialize(ph, g.cs, b.c), b.i, g.pt).None? {
      assert parts[n + 1] == Absent(g, b) && Holds(parts[n + 1], v);
    } else {
      assert Holds(parts[n + 1 + |tail|], v);
    }
  }

  /** The order axioms of a pair of pT quantities of one ordered collection. */
  function OrdOf(g: Catalog, p: Quantity, q: Quantity): seq<QFormula>
    requires WellFormed(g.cs)
  {
    if p.PropOf? && q.PropOf? && p.prop == q.prop == g.pt && p.c == q.c && p.c < |g.cs| && PtOrdered(g.cs, p.c, g.pt) then
      match (p.i, q.i)
      case (FromFront(a), FromFront(b)) => if a < b then [GuardedPt(g, Elem(p.c, p.i), Elem(q.c, q.i), Ge)] else []
      case (FromBack(a), FromBack(b)) => if a < b then [GuardedPt(g, Elem(q.c, q.i), Elem(p.c, p.i), Ge)] else []
      case (FromFront(a), FromBack(b)) =>
        if a == 0 || b == 1 then [GuardedPt(g, Elem(p.c, p.i), Elem(q.c, q.i), Ge)] else []
      case _ => []
    else []
  }

  lemma DescendingAt(objs: seq<Object>, pt: PropId, i: Index, j: Index)
    requires Descending(objs, pt) && PropValue(objs, i, pt).Some? && PropValue(objs, j, pt).Some?
    requires Position(i, |objs|).value <= Position(j, |objs|).value
    ensures PropValue(objs, i, pt).value >= PropValue(objs, j, pt).value
  {
  }

  lemma OrdTrue(g: Catalog, p: Quantity, q: Quantity)
    requires CatalogValid(g)
    ensures AllTrue(OrdOf(g, p, q), g)
  {
    hide GuardedPt, Materialize, Descending;
    forall ph: Physics, v: Valuation | ValidPhysics(ph, g.pt) && Reflects(v, ph, g)
      ensures forall f | f in OrdOf(g, p, q) :: Holds(f, v)
    {
      if OrdOf(g, p, q) != [] {
        var objs := Materialize(ph, g.cs, p.c);
        PtOrderedSound(ph, g.cs, p.c, g.pt);
        var first, second := if p.i.FromBack? then q.i else p.i, if p.i.FromBack? then p.i else q.i;
        if PropValue(objs, first, g.pt).Some? && PropValue(objs, second, g.pt).Some? { DescendingAt(objs, g.pt, first, second); }
        GuardedPtHolds(g, ph, v, Elem(p.c, first), Elem(p.c, second), Ge);
      }
    }
  }

  /** An element of a filtered collection is dominated by its parent's element of
      the same index. */
  function IdomOf(g: Catalog, q: Quantity): seq<QFormula>
    requires WellFormed(g.cs)
  {
    if q.PropOf? && q.prop == g.pt && q.i.FromFront? && q.c < |g.cs| && g.cs[q.c].Filtered? && PtOrdered(g.cs, q.c, g.pt)
      && PtOrdered(g.cs, g.cs[q.c].parent, g.pt)
    then [GuardedPt(g, Elem(q.c, q.i), Elem(g.cs[q.c].parent, q.i), Le)]
    else []
  }

  lemma IdomTrue(g: Catalog, q: Quantity)
    requires CatalogValid(g)
    ensures AllTrue(IdomOf(g, q), g)
  {
    hide GuardedPt;
    forall ph: Physics, v: Valuation | ValidPhysics(ph, g.pt) && Reflects(v, ph, g)
      ensures forall f | f in IdomOf(g, q) :: Holds(f, v)
    {
      if IdomOf(g, q) != [] {
        var parent, pred := g.cs[q.c].parent, g.cs[q.c].pred;
        PtOrderedSound(ph, g.cs, parent, g.pt);
        Dominated(Materialize(ph, g.cs, parent), o => ph.passes(pred, o), q.i.n, g.pt);
        GuardedPtHolds(g, ph, v, Elem(q.c, q.i), Elem(parent, q.i), Le);
      }
    }
  }

  lemma Dominated(objs: seq<Object>, pass: Object -> bool, n: nat, pt: PropId)
    requires Descending(objs, pt)
    ensures var x, y := PropValue(Kept(objs, pass), FromFront(n), pt), PropValue(objs, FromFront(n), pt);
      x.Some? && y.Some? ==> x.value <= y.value
  {
    if n < |Kept(objs, pass)| { KeptAt(objs, pass, n); }
  }

  // ----- what a filter says of its elements -----

  /** An own id of the predicate is that property of the n-th element. */
  function ElementId(g: Catalog, c: CollectionId, n: nat, q: QuantityId): QuantityId {
    match g.own(q)
    case Some(prop) => g.idOf(PropOf(c, FromFront(n), prop))
    case None => q
  }

  function AtElement(g: Catalog, c: CollectionId, n: nat): Renaming { (q: QuantityId) => ElementId(g, c, n, q) }

  /** The element that a property from the front of a filtered collection names. */
  predicate IsTarget(g: Catalog, q: Quantity) { q.PropOf? && q.i.FromFront? && q.c < |g.cs| && g.cs[q.c].Filtered? }

  function PredOf(g: Catalog, c: CollectionId): Pred
    requires c < |g.cs| && g.cs[c].Filtered?
  {
    g.preds(g.cs[c].pred)
  }

  /** Unless the collection is too short for the element. */
  function IfThere(g: Catalog, c: CollectionId, n: nat, f: QFormula): QFormula {
    QOr([Compare([(1.0, SizeId(g, c))], Le, n as real), f])
  }

  function EpredOf(g: Catalog, q: Quantity): seq<QFormula> {
    if !IsTarget(g, q) then []
    else
      match EncodeElemPred(Rename(PredOf(g, q.c), AtElement(g, q.c, q.i.n)))
      case Some(f) => [IfThere(g, q.c, q.i.n, f)]
      case None => []
  }

  /** The own ids that the predicate requires to be present. */
  function Required(g: Catalog, p: Pred): set<QuantityId> {
    set q | q in PQuants(p) && g.own(q).Some? && RequiresPresent((x: QuantityId) => g.own(x).Some?, p, q)
  }

  function PresenceFact(g: Catalog, c: CollectionId, n: nat, q: QuantityId): QFormula
    requires g.own(q).Some?
  {
    Compare([(1.0, g.idOf(PropPresent(c, FromFront(n), g.own(q).value)))], Ge, 1.0)
  }

  function EpresOf(g: Catalog, q: Quantity): seq<QFormula> {
    if !IsTarget(g, q) then []
    else
      var order := Ascending(Required(g, PredOf(g, q.c)));
      seq(|order|, i requires 0 <= i < |order| =>
        assert order[i] in order;
        IfThere(g, q.c, q.i.n, PresenceFact(g, q.c, q.i.n, order[i])))
  }

  lemma IfThereHolds(g: Catalog, ph: Physics, v: Valuation, c: CollectionId, n: nat, f: QFormula)
    requires CatalogValid(g) && Reflects(v, ph, g) && c < |g.cs|
    requires n < |Materialize(ph, g.cs, c)| ==> Holds(f, v)
    ensures Holds(IfThere(g, c, n, f), v)
  {
    hide Compare, Materialize;
    var guard := Compare([(1.0, SizeId(g, c))], Le, n as real);
    CompareOne(1.0, SizeId(g, c), Le, n as real, v);
    var parts := [guard, f];
    assert parts[0] == guard && parts[1] == f;
  }

  /** An element of a filtered collection passes its filter. */
  lemma ElementPasses(g: Catalog, ph: Physics, event: Surroundings, v: Valuation, c: CollectionId, n: nat)
    requires CatalogValid(g) && EventOf(ph, event, v, g) && c < |g.cs| && g.cs[c].Filtered? && n < |Materialize(ph, g.cs, c)|
    ensures var o := Materialize(ph, g.cs, c)[n];
      PTruth(ElemReader(event, g.own, o), event.On(o), PredOf(g, c)) == T
  {
    hide PTruth, Reflects;
    var pred := g.cs[c].pred;
    KeptAt(Materialize(ph, g.cs, g.cs[c].parent), o => ph.passes(pred, o), n);
    assert ph.passes(pred, Materialize(ph, g.cs, c)[n]);
  }

  lemma ReflectsProp(g: Catalog, ph: Physics, v: Valuation, c: CollectionId, n: nat, prop: PropId)
    requires CatalogValid(g) && Reflects(v, ph, g) && c < |g.cs| && n < |Materialize(ph, g.cs, c)|
    requires prop in Materialize(ph, g.cs, c)[n]
    ensures v(g.idOf(PropOf(c, FromFront(n), prop))) == Materialize(ph, g.cs, c)[n][prop]
    ensures v(g.idOf(PropPresent(c, FromFront(n), prop))) == 1.0
  {
    hide Materialize;
    assert PropValue(Materialize(ph, g.cs, c), FromFront(n), prop) == Some(Materialize(ph, g.cs, c)[n][prop]);
  }

  /** The filter's encodable conjuncts hold of every element it kept, where the
      elements have what the filter mentions. */
  lemma EpredTrue(g: Catalog, q: Quantity)
    requires CatalogValid(g)
    ensures forall f | f in EpredOf(g, q) :: TrueWhereCarried(f, g)
  {
    hide Materialize, IfThere, EncodeElemPred, PTruth, Reflects;
    if IsTarget(g, q) {
      var c, n, p := q.c, q.i.n, PredOf(g, q.c);
      match EncodeElemPred(Rename(p, AtElement(g, c, n)))
      case None =>
      case Some(axiom) =>
        forall ph: Physics, event: Surroundings, v: Valuation | EventOf(ph, event, v, g) && ElementsCarry(ph, event, v, g)
          ensures Holds(IfThere(g, c, n, axiom), v)
        {
          if n < |Materialize(ph, g.cs, c)| { ElementAxiomAt(g, ph, event, v, c, n, axiom); }
          IfThereHolds(g, ph, v, c, n, axiom);
        }
    }
  }

  lemma ElementAxiomAt(g: Catalog, ph: Physics, event: Surroundings, v: Valuation, c: CollectionId, n: nat, axiom: QFormula)
    requires CatalogValid(g) && EventOf(ph, event, v, g) && ElementsCarry(ph, event, v, g)
    requires c < |g.cs| && g.cs[c].Filtered? && n < |Materialize(ph, g.cs, c)|
    requires EncodeElemPred(Rename(PredOf(g, c), AtElement(g, c, n))) == Some(axiom)
    ensures Holds(axiom, v)
  {
    hide Materialize, EncodeElemPred, PTruth, Reflects, Filters;
    var o, p := Materialize(ph, g.cs, c)[n], PredOf(g, c);
    var read := ElemReader(event, g.own, o);
    assert o in Materialize(ph, g.cs, c);
    assert Carries(event, v, g, p, o);
    ElementPasses(g, ph, event, v, c, n);
    forall q | q in PQuants(p) ensures Everywhere(v)(AtElement(g, c, n)(q)) == read(q) {
      if g.own(q).Some? { ReflectsProp(g, ph, v, c, n, g.own(q).value); }
    }
    InstanceHolds(p, AtElement(g, c, n), read, event.On(o), v);
  }

  /** The properties a filter requires are present on every element it kept. */
  lemma EpresTrue(g: Catalog, q: Quantity)
    requires CatalogValid(g)
    ensures AllTrue(EpresOf(g, q), g)
  {
    hide Materialize, IfThere, PTruth, Reflects, RequiresPresent, Compare;
    if IsTarget(g, q) {
      var c, n, p := q.c, q.i.n, PredOf(g, q.c);
      var order := Ascending(Required(g, p));
      forall i, ph: Physics, event: Surroundings, v: Valuation | 0 <= i < |order| && EventOf(ph, event, v, g)
        ensures order[i] in Required(g, p) && Holds(IfThere(g, c, n, PresenceFact(g, c, n, order[i])), v)
      {
        assert order[i] in order;
        if n < |Materialize(ph, g.cs, c)| { RequiredAt(g, ph, event, v, c, n, order[i]); }
        IfThereHolds(g, ph, v, c, n, PresenceFact(g, c, n, order[i]));
      }
    }
  }

  lemma RequiredAt(g: Catalog, ph: Physics, event: Surroundings, v: Valuation, c: CollectionId, n: nat, q: QuantityId)
    requires CatalogValid(g) && EventOf(ph, event, v, g)
    requires c < |g.cs| && g.cs[c].Filtered? && n < |Materialize(ph, g.cs, c)| && q in Required(g, PredOf(g, c))
    ensures Holds(PresenceFact(g, c, n, q), v)
  {
    hide Materialize, PTruth, Reflects, Filters, RequiresPresent, Compare;
    var o := Materialize(ph, g.cs, c)[n];
    ElementPasses(g, ph, event, v, c, n);
    RequiredIsPresent(ElemReader(event, g.own, o), event.On(o), (x: QuantityId) => g.own(x).Some?, PredOf(g, c), q);
    ReflectsProp(g, ph, v, c, n, g.own(q).value);
    CompareOne(1.0, g.idOf(PropPresent(c, FromFront(n), g.own(q).value)), Ge, 1.0, v);
  }

  // ----- presence indicators -----

  /** An indicator lies between 0 and 1. */
  function PresOf(g: Catalog, q: Quantity): seq<QFormula> {
    if !q.PropPresent? then []
    else [QAnd([Compare([(1.0, g.idOf(q))], Ge, 0.0), Compare([(1.0, g.idOf(q))], Le, 1.0)])]
  }

  /** A property that is defined belongs to an element that exists. */
  function PdefOf(g: Catalog, q: Quantity): seq<QFormula> {
    if !q.PropPresent? || FloorOf(q.i).None? then []
    else [QOr([Compare([(1.0, g.idOf(q))], Lt, 1.0), Compare([(1.0, SizeId(g, q.c))], Gt, FloorOf(q.i).value as real)])]
  }

  lemma PresenceTrue(g: Catalog, q: Quantity)
    requires CatalogValid(g) && (q.PropPresent? ==> q.c < |g.cs|)
    ensures AllTrue(PresOf(g, q), g) && AllTrue(PdefOf(g, q), g)
  {
    hide Materialize, Compare;
    if q.PropPresent? {
      forall ph: Physics, event: Surroundings, v: Valuation | EventOf(ph, event, v, g)
        ensures forall f | f in PresOf(g, q) || f in PdefOf(g, q) :: Holds(f, v)
      {
        PresenceHolds(g, ph, v, q);
      }
    }
  }

  lemma PresenceHolds(g: Catalog, ph: Physics, v: Valuation, q: Quantity)
    requires CatalogValid(g) && Reflects(v, ph, g) && q.PropPresent? && q.c < |g.cs|
    ensures forall f | f in PresOf(g, q) || f in PdefOf(g, q) :: Holds(f, v)
  {
    hide Materialize, Compare;
    var objs, id := Materialize(ph, g.cs, q.c), g.idOf(q);
    CompareOne(1.0, id, Ge, 0.0, v);
    CompareOne(1.0, id, Le, 1.0, v);
    CompareOne(1.0, id, Lt, 1.0, v);
    assert v(id) == if PropValue(objs, q.i, q.prop).Some? then 1.0 else 0.0;
    var bounds := [Compare([(1.0, id)], Ge, 0.0), Compare([(1.0, id)], Le, 1.0)];
    assert forall x :: x in bounds ==> x == bounds[0] || x == bounds[1];
    if FloorOf(q.i).Some? {
      var n := FloorOf(q.i).value;
      CompareOne(1.0, SizeId(g, q.c), Gt, n as real, v);
      var parts := [Compare([(1.0, id)], Lt, 1.0), Compare([(1.0, SizeId(g, q.c))], Gt, n as real)];
      assert parts[0] in parts && parts[1] in parts;
      assert PropValue(objs, q.i, q.prop).Some? ==> |objs| > n;
      assert v(SizeId(g, q.c)) == |objs| as real;
    }
  }

  // ----- emission -----

  /** The size axioms of one collection. */
  function SizeAxioms(g: Catalog, c: CollectionId): seq<QFormula>
    requires c < |g.cs|
  {
    [Compare([(1.0, SizeId(g, c))], Ge, 0.0)] + SubOf(g, c) + UniOf(g, c) + SzsliceOf(g, c) + SzpermOf(g, c) + CombSizeOf(g, c)
  }

  lemma SizeAxiomsTrue(g: Catalog, c: CollectionId)
    requires CatalogValid(g) && c < |g.cs|
    ensures AllTrue(SizeAxioms(g, c), g)
  {
    hide TrueOfEvents, SubOf, UniOf, SzsliceOf, SzpermOf, CombSizeOf, Compare;
    NonNegativeSize(g, c);
    SubTrue(g, c);
    UniTrue(g, c);
    SzsliceTrue(g, c);
    SzpermTrue(g, c);
    CombSizeTrue(g, c);
  }

  lemma NonNegativeSize(g: Catalog, c: CollectionId)
    requires CatalogValid(g) && c < |g.cs|
    ensures TrueOfEvents(Compare([(1.0, SizeId(g, c))], Ge, 0.0), g)
  {
    hide Compare;
    forall ph: Physics, v: Valuation | ValidPhysics(ph, g.pt) && Reflects(v, ph, g)
      ensures Holds(Compare([(1.0, SizeId(g, c))], Ge, 0.0), v)
    {
      CompareOne(1.0, SizeId(g, c), Ge, 0.0, v);
    }
  }

  function AxiomsOf(g: Catalog, q: Quantity): seq<QFormula>
    requires WellFormed(g.cs)
  {
    (if q.SizeOf? && q.c < |g.cs| then SizeAxioms(g, q.c) else []) + EpredOf(g, q) + EpresOf(g, q) + IdomOf(g, q)
    + (if q.PropPresent? && q.c < |g.cs| then PresOf(g, q) + PdefOf(g, q) else [])
  }

  /** Brought by one quantity of the list. */
  ghost predicate OwnDue(g: Catalog, qs: seq<QuantityId>, f: QFormula)
    requires WellFormed(g.cs)
  {
    exists q | q in qs :: f in AxiomsOf(g, g.quantityOf(q))
  }

  /** Brought by a pair whose first quantity is in the one list, the second in the other. */
  ghost predicate PairDue(g: Catalog, ps: seq<QuantityId>, qs: seq<QuantityId>, f: QFormula)
    requires WellFormed(g.cs)
  {
    exists p, q | p in ps && q in qs :: f in OrdOf(g, g.quantityOf(p), g.quantityOf(q))
  }

  /** The axioms due for a list of quantities. */
  ghost predicate Due(g: Catalog, qs: seq<QuantityId>, f: QFormula)
    requires WellFormed(g.cs)
  {
    OwnDue(g, qs, f) || PairDue(g, qs, qs, f)
  }
}
