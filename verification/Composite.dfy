/** Expansion of a lower bound on the number of object combinations. */
module Composite {
  import opened Linear
  import opened Formulas
  import opened Saturation
  import opened Conditions
  import opened PartialTruth
  import opened Comparisons
  import opened ComparisonTruth
  import opened Tuples
  import opened Collections

  const COMB2D_BOUND := 2

  /** How the encoder sees collections: the id of each size, and each cut of a
      combination rewritten for one index tuple (None if a member stays unread). */
  datatype Lens = Lens(
    table: Table,
    sizes: QuantityId -> bool,
    sizeOf: CollectionId -> QuantityId,
    cutAt: (nat, seq<CollectionId>, Tuple) -> Option<Cond>)

  /** Comparisons with a size that no empty collection satisfies. */
  predicate ForcesOne(rel: Rel, k: real) {
    (rel == Ge && k >= 1.0) || (rel == Gt && k >= 0.0) || (rel == Eq && k >= 1.0)
  }

  predicate BelowBound(t: Tuple, n: nat, bound: nat) { |t| == n && forall i :: 0 <= i < |t| ==> t[i] < bound }

  /** The tuples that the expansion enumerates: every slot below the bound. */
  method BinderIndexTuples(parts: seq<CollectionId>, disjoint: bool, bound: nat) returns (tuples: seq<Tuple>)
    ensures tuples == TuplesOf(seq(|parts|, _ => bound), disjoint && SameSource(parts))
    ensures NoDuplicates(tuples)
    ensures forall t :: t in tuples <==> BelowBound(t, |parts|, bound) && (disjoint && SameSource(parts) ==> Increasing(t))
  {
    var sizes := seq(|parts|, _ => bound);
    TuplesExact(sizes, disjoint && SameSource(parts));
    tuples := IndexTuples(sizes, disjoint && SameSource(parts));
  }

  function LargerThan(lens: Lens, c: CollectionId, n: nat): Formula { Atom(Single(lens.sizeOf(c), Gt, n as real)) }

  function CutFormula(lens: Lens, cut: nat, parts: seq<CollectionId>, t: Tuple): Formula {
    match lens.cutAt(cut, parts, t)
    case Some(c) => Encode(lens.table, c)
    case None => Unknown(0)
  }

  /** The tuple exists and passes every cut. */
  function TupleCuts(lens: Lens, k: Combo, t: Tuple): Formula
    requires |t| == |k.parts|
  {
    FAnd(seq(|t|, i requires 0 <= i < |t| => LargerThan(lens, k.parts[i], t[i]))
      + seq(|k.cuts|, j requires 0 <= j < |k.cuts| => CutFormula(lens, k.cuts[j], k.parts, t)))
  }

  function BoundedTuples(k: Combo, bound: nat): seq<Tuple> { TuplesOf(seq(|k.parts|, _ => bound), k.disjoint && SameSource(k.parts)) }

  /** Some listed tuple passes, or some part is larger than the bound. */
  function Existence(lens: Lens, k: Combo, bound: nat): seq<Formula>
    requires forall t | t in BoundedTuples(k, bound) :: |t| == |k.parts|
  {
    var ts := BoundedTuples(k, bound);
    seq(|ts|, i requires 0 <= i < |ts| => assert ts[i] in ts; TupleCuts(lens, k, ts[i]))
    + seq(|k.parts|, i requires 0 <= i < |k.parts| => LargerThan(lens, k.parts[i], bound))
  }

  lemma BoundedLength(k: Combo, bound: nat)
    ensures forall t | t in BoundedTuples(k, bound) :: |t| == |k.parts|
  {
    TuplesExact(seq(|k.parts|, _ => bound), k.disjoint && SameSource(k.parts));
  }

  /** `size(c) rel k` over a combination, or a projection of one, that the cut
      forces to be non-empty. */
  function CombExistence(lens: Lens, cs: Colls, c: CollectionId, rel: Rel, k: real, bound: nat): Option<Formula>
    requires WellFormed(cs) && c < |cs|
  {
    var source := if cs[c].CombProject? then cs[c].parent else c;
    if !ForcesOne(rel, k) || !cs[source].Combination? then None
    else
      var combo := cs[source].combo;
      if combo.cuts == [] || combo.parts == [] || BoundedTuples(combo, bound) == [] then None
      else
        BoundedLength(combo, bound);
        var atom := AtomOf(lens.sizes, [Term(1.0, lens.sizeOf(c))], rel, k);
        if atom == False then Some(False) else Some(Dual(FAnd([atom, FOr(Existence(lens, combo, bound))]), atom, 0))
  }

  // ----- the expansion over-approximates -----

  /** The event reads the object lists: sizes, and cuts that pass on a tuple's
      objects are true of the tuple's elements. */
  ghost predicate LensFits(lens: Lens, ev: Event, ph: Physics, cs: Colls)
    requires WellFormed(cs)
  {
    && lens.table.Valid() && ValidEvent(lens.table, ev) && SizesIntegral(lens.sizes, View(lens.table, ev))
    && (forall c: CollectionId :: c < |cs| ==> View(lens.table, ev)(lens.sizeOf(c)) == |Materialize(ph, cs, c)| as real)
    && (forall c: CollectionId :: c < |cs| && cs[c].Combination? ==>
      CutsFit(lens, ev, ph, cs[c].combo, MaterializeAll(ph, cs, cs[c].combo.parts, c)))
  }

  ghost predicate CutFits(lens: Lens, ev: Event, ph: Physics, k: Combo, slots: seq<seq<Object>>, cut: nat, t: Tuple) {
    match lens.cutAt(cut, k.parts, t)
    case None => true
    case Some(c) =>
      && Compiled(lens.table, c) && Fits(lens.table, ev, c)
      && (Picks(slots, t) && ph.admits(cut, Picked(slots, t)) ==> Truth(lens.table, ev, c) == T)
  }

  ghost predicate CutsFit(lens: Lens, ev: Event, ph: Physics, k: Combo, slots: seq<seq<Object>>) {
    forall cut: nat, t: Tuple :: cut in k.cuts ==> CutFits(lens, ev, ph, k, slots, cut, t)
  }

  lemma LargerHolds(lens: Lens, ev: Event, c: CollectionId, n: nat, size: nat)
    requires View(lens.table, ev)(lens.sizeOf(c)) == size as real
    ensures Sat(LargerThan(lens, c, n), OverSide, View(lens.table, ev)) <==> size > n
  {
    SingleIsMake(lens.sizeOf(c), Gt, n as real);
  }

  /** A surviving tuple makes its own formula true. */
  lemma SurvivorHolds(lens: Lens, ev: Event, ph: Physics, cs: Colls, c: CollectionId, t: Tuple)
    requires WellFormed(cs) && c < |cs| && cs[c].Combination? && LensFits(lens, ev, ph, cs)
    requires var k := cs[c].combo; var slots := MaterializeAll(ph, cs, k.parts, c);
      |t| == |k.parts| && Picks(slots, t) && Survives(ph, k, Picked(slots, t))
    ensures Sat(TupleCuts(lens, cs[c].combo, t), OverSide, View(lens.table, ev))
  {
    hide FAnd, View, Materialize, LargerThan, CutFormula, Compiled, Fits, Truth;
    var k := cs[c].combo;
    var v, slots := View(lens.table, ev), MaterializeAll(ph, cs, k.parts, c);
    var sizes := seq(|t|, i requires 0 <= i < |t| => LargerThan(lens, k.parts[i], t[i]));
    var cuts := seq(|k.cuts|, j requires 0 <= j < |k.cuts| => CutFormula(lens, k.cuts[j], k.parts, t));
    forall i | 0 <= i < |t| ensures Sat(sizes[i], OverSide, v) {
      assert k.parts[i] in k.parts;
      assert t[i] < Sizes(slots)[i];
      LargerHolds(lens, ev, k.parts[i], t[i], |slots[i]|);
    }
    forall j | 0 <= j < |k.cuts| ensures Sat(cuts[j], OverSide, v) {
      assert k.cuts[j] in k.cuts;
      assert CutFits(lens, ev, ph, k, slots, k.cuts[j], t);
      AdmittedCut(lens, ev, ph, k, slots, k.cuts[j], t);
    }
    AllSatConcat(sizes, cuts, OverSide, v);
    FAndMeans(sizes + cuts, OverSide, v);
  }

  lemma AdmittedCut(lens: Lens, ev: Event, ph: Physics, k: Combo, slots: seq<seq<Object>>, cut: nat, t: Tuple)
    requires lens.table.Valid() && ValidEvent(lens.table, ev)
    requires CutFits(lens, ev, ph, k, slots, cut, t) && Picks(slots, t) && ph.admits(cut, Picked(slots, t))
    ensures Sat(CutFormula(lens, cut, k.parts, t), OverSide, View(lens.table, ev))
  {
    match lens.cutAt(cut, k.parts, t)
    case None =>
    case Some(c) => EncodeAgrees(lens.table, ev, c);
  }

  /** A non-empty combination has a surviving index tuple. */
  lemma ASurvivor(ph: Physics, cs: Colls, c: CollectionId) returns (t: Tuple)
    requires WellFormed(cs) && c < |cs| && cs[c].Combination? && Materialize(ph, cs, c) != []
    ensures var k := cs[c].combo; var slots := MaterializeAll(ph, cs, k.parts, c);
      && |t| == |k.parts| == |slots| && Picks(slots, t) && Survives(ph, k, Picked(slots, t))
      && (k.disjoint && SameSource(k.parts) ==> Increasing(t))
  {
    hide Survives, Picked;
    var k := cs[c].combo;
    var slots := MaterializeAll(ph, cs, k.parts, c);
    ComboCount(ph, cs, k, None, c);
    SurvivorsPick(ph, k, slots, ComboTuples(k, slots));
    TuplesExact(Sizes(slots), k.disjoint && SameSource(k.parts));
    t := Survivors(ph, k, slots, ComboTuples(k, slots))[0];
    assert t in Survivors(ph, k, slots, ComboTuples(k, slots));
  }

  lemma LargePartHolds(lens: Lens, ev: Event, ph: Physics, cs: Colls, c: CollectionId, i: nat, bound: nat)
    requires WellFormed(cs) && c < |cs| && cs[c].Combination? && LensFits(lens, ev, ph, cs) && i < |cs[c].combo.parts|
    requires |MaterializeAll(ph, cs, cs[c].combo.parts, c)[i]| > bound
    ensures Sat(LargerThan(lens, cs[c].combo.parts[i], bound), OverSide, View(lens.table, ev))
  {
    hide LargerThan, View, CutsFit;
    var k := cs[c].combo;
    assert k.parts[i] in k.parts;
    LargerHolds(lens, ev, k.parts[i], bound, |MaterializeAll(ph, cs, k.parts, c)[i]|);
  }

  /** On an event with a surviving tuple the expansion holds: either the tuple is
      listed, or some index, and so some part, exceeds the bound. */
  lemma ExistenceHolds(lens: Lens, ev: Event, ph: Physics, cs: Colls, c: CollectionId, bound: nat)
    requires WellFormed(cs) && c < |cs| && cs[c].Combination? && LensFits(lens, ev, ph, cs)
    requires Materialize(ph, cs, c) != []
    ensures forall t | t in BoundedTuples(cs[c].combo, bound) :: |t| == |cs[c].combo.parts|
    ensures Sat(FOr(Existence(lens, cs[c].combo, bound)), OverSide, View(lens.table, ev))
  {
    hide FOr, View, TupleCuts, LargerThan, Survives, LensFits, Picked, Materialize, MaterializeAll, Sat, Existence, BoundedTuples;
    BoundedLength(cs[c].combo, bound);
    var k := cs[c].combo;
    var parts, v, slots := Existence(lens, k, bound), View(lens.table, ev), MaterializeAll(ph, cs, k.parts, c);
    var t := ASurvivor(ph, cs, c);
    FOrMeans(parts, OverSide, v);
    if i :| 0 <= i < |t| && t[i] >= bound {
      assert t[i] < Sizes(slots)[i];
      LargePartHolds(lens, ev, ph, cs, c, i, bound);
      LargerListed(lens, k, bound, i);
    } else {
      SurvivorHolds(lens, ev, ph, cs, c, t);
      TupleListed(lens, k, bound, t);
    }
  }

  lemma LargerListed(lens: Lens, k: Combo, bound: nat, i: nat)
    requires i < |k.parts| && forall t | t in BoundedTuples(k, bound) :: |t| == |k.parts|
    ensures exists j :: 0 <= j < |Existence(lens, k, bound)| && Existence(lens, k, bound)[j] == LargerThan(lens, k.parts[i], bound)
  {
    hide TupleCuts, LargerThan, BoundedTuples;
    assert Existence(lens, k, bound)[|BoundedTuples(k, bound)| + i] == LargerThan(lens, k.parts[i], bound);
  }

  lemma TupleListed(lens: Lens, k: Combo, bound: nat, t: Tuple)
    requires forall t | t in BoundedTuples(k, bound) :: |t| == |k.parts|
    requires |t| == |k.parts| && (forall i | 0 <= i < |t| :: t[i] < bound) && (k.disjoint && SameSource(k.parts) ==> Increasing(t))
    ensures exists j :: 0 <= j < |Existence(lens, k, bound)| && Existence(lens, k, bound)[j] == TupleCuts(lens, k, t)
  {
    hide TupleCuts, LargerThan, TuplesOf;
    var sizes := seq(|k.parts|, _ => bound);
    TuplesExact(sizes, k.disjoint && SameSource(k.parts));
    assert InBounds(t, sizes);
    var j :| 0 <= j < |BoundedTuples(k, bound)| && BoundedTuples(k, bound)[j] == t;
    assert Existence(lens, k, bound)[j] == TupleCuts(lens, k, t);
  }

  lemma ForcedCount(rel: Rel, k: real, n: nat)
    requires ForcesOne(rel, k) && RelEval(rel, n as real, k)
    ensures n >= 1
  {
  }

  lemma SoleDot(q: QuantityId, v: Valuation)
    ensures Dot([Term(1.0, q)], v) == v(q)
  {
    SingleIsMake(q, Eq, v(q));
  }

  lemma CountTransfers(ph: Physics, cs: Colls, c: CollectionId)
    requires WellFormed(cs) && c < |cs| && (cs[c].Combination? || cs[c].CombProject?)
    ensures var source := if cs[c].CombProject? then cs[c].parent else c;
      |Materialize(ph, cs, c)| == |Materialize(ph, cs, source)|
  {
    if cs[c].CombProject? {
      var p := cs[c].parent;
      ComboCount(ph, cs, cs[p].combo, None, p);
      ComboCount(ph, cs, cs[p].combo, cs[c].slot, p);
    }
  }

  /** The expanded cut brackets the plain one on every event, whatever the sizes
      of the parts. */
  lemma CombExistenceJudges(lens: Lens, ev: Event, ph: Physics, cs: Colls, c: CollectionId, rel: Rel, k: real, bound: nat)
    requires WellFormed(cs) && c < |cs| && LensFits(lens, ev, ph, cs)
    requires CombExistence(lens, cs, c, rel, k, bound).Some?
    ensures Judges(CombExistence(lens, cs, c, rel, k, bound).value, View(lens.table, ev),
      RelEval(rel, |Materialize(ph, cs, c)| as real, k))
  {
    hide FOr, FAnd, View, AtomOf, Materialize, Existence, BoundedTuples, CutsFit;
    var v, n := View(lens.table, ev), |Materialize(ph, cs, c)|;
    var source := if cs[c].CombProject? then cs[c].parent else c;
    var terms := [Term(1.0, lens.sizeOf(c))];
    SoleDot(lens.sizeOf(c), v);
    AtomOfMeans(lens.sizes, terms, rel, k, OverSide, v);
    AtomOfMeans(lens.sizes, terms, rel, k, UnderSide, v);
    BoundedLength(cs[source].combo, bound);
    if RelEval(rel, n as real, k) {
      ForcedCount(rel, k, n);
      CountTransfers(ph, cs, c);
      ExistenceHolds(lens, ev, ph, cs, source, bound);
    }
    PairJudges(AtomOf(lens.sizes, terms, rel, k), FOr(Existence(lens, cs[source].combo, bound)), OverSide, v);
  }

  // ----- and not more than the cuts allow -----

  /** Every cut of the combination that was rewritten for the tuple keeps it. */
  ghost predicate CutsKeep(lens: Lens, ev: Event, k: Combo, t: Tuple) {
    forall j :: 0 <= j < |k.cuts| && lens.cutAt(k.cuts[j], k.parts, t).Some? ==>
      Sat(Encode(lens.table, lens.cutAt(k.cuts[j], k.parts, t).value), OverSide, View(lens.table, ev))
  }

  /** An index tuple of objects that exist, below the bound, increasing where it
      must be, and kept by every rewritten cut. */
  ghost predicate Passable(lens: Lens, ev: Event, k: Combo, slots: seq<seq<Object>>, bound: nat, t: Tuple) {
    && |t| == |k.parts| && Picks(slots, t)
    && (forall i :: 0 <= i < |t| ==> t[i] < bound)
    && (k.disjoint && SameSource(k.parts) ==> Increasing(t))
    && CutsKeep(lens, ev, k, t)
  }

  lemma CutHolds(lens: Lens, ev: Event, k: Combo, t: Tuple, j: nat)
    requires j < |k.cuts|
    ensures var c := lens.cutAt(k.cuts[j], k.parts, t);
      Sat(CutFormula(lens, k.cuts[j], k.parts, t), OverSide, View(lens.table, ev)) <==>
        (c.Some? ==> Sat(Encode(lens.table, c.value), OverSide, View(lens.table, ev)))
  {
    hide Encode, View;
  }

  /** A tuple's formula holds exactly when its objects exist and its cuts keep it. */
  lemma TupleCutsMean(lens: Lens, ev: Event, ph: Physics, cs: Colls, c: CollectionId, t: Tuple)
    requires WellFormed(cs) && c < |cs| && cs[c].Combination? && LensFits(lens, ev, ph, cs) && |t| == |cs[c].combo.parts|
    ensures var k := cs[c].combo; var slots := MaterializeAll(ph, cs, k.parts, c);
      Sat(TupleCuts(lens, k, t), OverSide, View(lens.table, ev)) <==> Picks(slots, t) && CutsKeep(lens, ev, k, t)
  {
    hide FAnd, View, Materialize, LargerThan, CutFormula, CutsFit, Encode, Project;
    var k := cs[c].combo;
    var v, slots := View(lens.table, ev), MaterializeAll(ph, cs, k.parts, c);
    var sizes := seq(|t|, i requires 0 <= i < |t| => LargerThan(lens, k.parts[i], t[i]));
    var cuts := seq(|k.cuts|, j requires 0 <= j < |k.cuts| => CutFormula(lens, k.cuts[j], k.parts, t));
    forall i | 0 <= i < |t| ensures Sat(sizes[i], OverSide, v) <==> t[i] < |slots[i]| {
      assert k.parts[i] in k.parts;
      LargerHolds(lens, ev, k.parts[i], t[i], |slots[i]|);
    }
    assert AllSat(sizes, OverSide, v) <==> Picks(slots, t) by { PicksEach(slots, t); }
    forall j | 0 <= j < |k.cuts|
      ensures Sat(cuts[j], OverSide, v) <==>
        (lens.cutAt(k.cuts[j], k.parts, t).Some? ==> Sat(Encode(lens.table, lens.cutAt(k.cuts[j], k.parts, t).value), OverSide, v))
    {
      CutHolds(lens, ev, k, t, j);
    }
    assert AllSat(cuts, OverSide, v) <==> CutsKeep(lens, ev, k, t);
    AllSatConcat(sizes, cuts, OverSide, v);
    FAndMeans(sizes + cuts, OverSide, v);
  }

  lemma PicksEach(slots: seq<seq<Object>>, t: Tuple)
    requires |t| == |slots|
    ensures Picks(slots, t) <==> forall i :: 0 <= i < |t| ==> t[i] < |slots[i]|
  {
    assert forall i :: 0 <= i < |slots| ==> Sizes(slots)[i] == |slots[i]|;
  }

  /** The expansion of a combination holds exactly when some part is larger than
      the bound, or an index tuple of objects that exist passes every rewritten cut. */
  lemma ExistenceMeans(lens: Lens, ev: Event, ph: Physics, cs: Colls, c: CollectionId, bound: nat)
    requires WellFormed(cs) && c < |cs| && cs[c].Combination? && LensFits(lens, ev, ph, cs)
    ensures forall t | t in BoundedTuples(cs[c].combo, bound) :: |t| == |cs[c].combo.parts|
    ensures var k := cs[c].combo; var slots := MaterializeAll(ph, cs, k.parts, c);
      Sat(FOr(Existence(lens, k, bound)), OverSide, View(lens.table, ev)) <==>
        || (exists i :: 0 <= i < |slots| && |slots[i]| > bound)
        || (exists t :: Passable(lens, ev, k, slots, bound, t))
  {
    hide FOr, View, TupleCuts, LargerThan, Materialize, MaterializeAll, Project, Existence, BoundedTuples, CutsKeep, LensFits, Picks;
    BoundedLength(cs[c].combo, bound);
    var k := cs[c].combo;
    var parts, v, slots := Existence(lens, k, bound), View(lens.table, ev), MaterializeAll(ph, cs, k.parts, c);
    FOrMeans(parts, OverSide, v);
    SlotsLength(ph, cs, c);
    if j :| 0 <= j < |parts| && Sat(parts[j], OverSide, v) { ListedMeans(lens, ev, ph, cs, c, bound, j); }
    if i :| 0 <= i < |slots| && |slots[i]| > bound {
      LargePartHolds(lens, ev, ph, cs, c, i, bound);
      LargerListed(lens, k, bound, i);
    }
    if t :| Passable(lens, ev, k, slots, bound, t) {
      TupleCutsMean(lens, ev, ph, cs, c, t);
      TupleListed(lens, k, bound, t);
    }
  }

  lemma SlotsLength(ph: Physics, cs: Colls, c: CollectionId)
    requires WellFormed(cs) && c < |cs| && cs[c].Combination?
    ensures |MaterializeAll(ph, cs, cs[c].combo.parts, c)| == |cs[c].combo.parts|
  {
  }

  /** What a member of the expansion says when it holds. */
  lemma ListedMeans(lens: Lens, ev: Event, ph: Physics, cs: Colls, c: CollectionId, bound: nat, j: nat)
    requires WellFormed(cs) && c < |cs| && cs[c].Combination? && LensFits(lens, ev, ph, cs)
    requires forall t | t in BoundedTuples(cs[c].combo, bound) :: |t| == |cs[c].combo.parts|
    requires j < |Existence(lens, cs[c].combo, bound)|
    requires Sat(Existence(lens, cs[c].combo, bound)[j], OverSide, View(lens.table, ev))
    ensures var k := cs[c].combo; var slots := MaterializeAll(ph, cs, k.parts, c);
      || (exists i :: 0 <= i < |slots| && |slots[i]| > bound)
      || (exists t :: Passable(lens, ev, k, slots, bound, t))
  {
    hide View, TupleCuts, LargerThan, Materialize, Project, CutsKeep, Picks, TuplesOf, CutsFit;
    var k := cs[c].combo;
    var ts, slots := BoundedTuples(k, bound), MaterializeAll(ph, cs, k.parts, c);
    if j < |ts| {
      var t := ts[j];
      assert t in ts;
      TupleCutsMean(lens, ev, ph, cs, c, t);
      TuplesExact(seq(|k.parts|, _ => bound), k.disjoint && SameSource(k.parts));
      assert Passable(lens, ev, k, slots, bound, t);
    } else {
      var i := j - |ts|;
      SlotsLength(ph, cs, c);
      assert Existence(lens, k, bound)[j] == LargerThan(lens, k.parts[i], bound);
      assert k.parts[i] in k.parts;
      LargerHolds(lens, ev, k.parts[i], bound, |slots[i]|);
    }
  }

  /** The expanded cut, side by side: the under-projection is the plain comparison
      of the number of objects; the over-projection is that comparison together with
      a part larger than the bound or a passable index tuple. */
  lemma CombExistenceMeans(lens: Lens, ev: Event, ph: Physics, cs: Colls, c: CollectionId, rel: Rel, k: real, bound: nat)
    requires WellFormed(cs) && c < |cs| && LensFits(lens, ev, ph, cs)
    requires CombExistence(lens, cs, c, rel, k, bound).Some?
    ensures var f, v, n := CombExistence(lens, cs, c, rel, k, bound).value, View(lens.table, ev), |Materialize(ph, cs, c)|;
      var source := if cs[c].CombProject? then cs[c].parent else c;
      var combo := cs[source].combo; var slots := MaterializeAll(ph, cs, combo.parts, source);
      && (Sat(f, UnderSide, v) <==> RelEval(rel, n as real, k))
      && (Sat(f, OverSide, v) <==>
        && RelEval(rel, n as real, k)
        && ((exists i :: 0 <= i < |slots| && |slots[i]| > bound) || exists t :: Passable(lens, ev, combo, slots, bound, t)))
  {
    hide FOr, FAnd, View, AtomOf, Materialize, Existence, BoundedTuples, CutsFit, MaterializeAll, Passable, Project;
    var v, n := View(lens.table, ev), |Materialize(ph, cs, c)|;
    var source := if cs[c].CombProject? then cs[c].parent else c;
    var terms := [Term(1.0, lens.sizeOf(c))];
    SoleDot(lens.sizeOf(c), v);
    AtomOfMeans(lens.sizes, terms, rel, k, OverSide, v);
    AtomOfMeans(lens.sizes, terms, rel, k, UnderSide, v);
    BoundedLength(cs[source].combo, bound);
    ExistenceMeans(lens, ev, ph, cs, source, bound);
    var atom, some := AtomOf(lens.sizes, terms, rel, k), FOr(Existence(lens, cs[source].combo, bound));
    PairJudges(atom, some, OverSide, v);
    if atom == False { FalseFails(v); } else { DualSides(FAnd([atom, some]), atom, v); }
  }

  lemma FalseFails(v: Valuation)
    ensures forall p: Polarity :: !Sat(False, p, v)
  {
  }

  lemma DualSides(plus: Formula, minus: Formula, v: Valuation)
    ensures Sat(Dual(plus, minus, 0), OverSide, v) <==> Sat(plus, OverSide, v)
    ensures Sat(Dual(plus, minus, 0), UnderSide, v) <==> Sat(minus, UnderSide, v)
  {
  }
}
