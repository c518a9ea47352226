/** Object collections derived from an event, and what derivation does to sizes
    and to the pT order. */
module Collections {
  import opened Saturation
  import opened Tuples

  type PropId = nat
  type CollectionId = nat

  /** An object: the properties it carries. */
  type Object = map<PropId, real>

  datatype Combo = Combo(parts: seq<CollectionId>, disjoint: bool, cuts: seq<nat>, candidate: Option<nat>)

  datatype Collection =
    | Base(name: nat)
    | Filtered(parent: CollectionId, pred: nat)
    | UnionOf(parts: seq<CollectionId>)
    | Sorted(parent: CollectionId, key: Option<PropId>, descend: bool)
    | Slice(parent: CollectionId, start: nat, end: Option<nat>)
    | Combination(combo: Combo)
    | CombProject(parent: CollectionId, slot: Option<nat>)

  /** The collection table: a definition refers to earlier entries only. */
  type Colls = seq<Collection>

  predicate WellFormed(cs: Colls) {
    forall c :: 0 <= c < |cs| ==>
      match cs[c]
      case Base(_) => true
      case Filtered(p, _) => p < c
      case UnionOf(parts) => forall p | p in parts :: p < c
      case Sorted(p, _, _) => p < c
      case Slice(p, _, _) => p < c
      case Combination(k) => forall p | p in k.parts :: p < c
      case CombProject(p, _) => p < c && cs[p].Combination?
  }

  /** An event's object lists, and the interpreter's verdicts on the predicates
      and candidate vectors that the table refers to. */
  datatype Physics = Physics(
    base: nat -> seq<Object>,
    passes: (nat, Object) -> bool,
    admits: (nat, seq<Object>) -> bool,
    makes: (nat, seq<Object>) -> Option<Object>,
    alike: (Object, Object) -> bool)

  // ----- materialisation -----

  function Kept(objs: seq<Object>, pass: Object -> bool): seq<Object> {
    if objs == [] then []
    else
      var n := |objs| - 1;
      if pass(objs[n]) then Kept(objs[..n], pass) + [objs[n]] else Kept(objs[..n], pass)
  }

  /** The comparator of `sort`: a missing key sorts after every value, and a
      descending sort reverses the whole order. */
  predicate Before(a: Object, b: Object, key: PropId, descend: bool) {
    if key in a && key in b then if descend then b[key] < a[key] else a[key] < b[key]
    else if key in a && key !in b then !descend
    else key !in a && key in b && descend
  }

  /** Insert after the last element that does not come later: a stable sort. */
  function Insert(sorted: seq<Object>, x: Object, key: PropId, descend: bool): seq<Object> {
    if sorted == [] then [x]
    else
      var n := |sorted| - 1;
      if Before(x, sorted[n], key, descend) then Insert(sorted[..n], x, key, descend) + [sorted[n]] else sorted + [x]
  }

  function StableSort(objs: seq<Object>, key: PropId, descend: bool): seq<Object> {
    if objs == [] then []
    else Insert(StableSort(objs[..|objs| - 1], key, descend), objs[|objs| - 1], key, descend)
  }

  function Clamp(x: nat, lo: nat, hi: nat): nat
    requires lo <= hi
  {
    if x < lo then lo else if x > hi then hi else x
  }

  function Sliced(objs: seq<Object>, start: nat, end: Option<nat>): seq<Object> {
    var lo := if start < |objs| then start else |objs|;
    var hi := if end.Some? then Clamp(end.value, lo, |objs|) else |objs|;
    objs[lo..hi]
  }

  function Concatenated(lists: seq<seq<Object>>): seq<Object> {
    if lists == [] then [] else Concatenated(lists[..|lists| - 1]) + lists[|lists| - 1]
  }

  predicate SameSource(parts: seq<CollectionId>) {
    |parts| >= 2 && forall i :: 1 <= i < |parts| ==> parts[i] == parts[0]
  }

  function Picked(slots: seq<seq<Object>>, t: seq<nat>): seq<Object>
    requires |t| == |slots| && forall i :: 0 <= i < |t| ==> t[i] < |slots[i]|
  {
    seq(|t|, i requires 0 <= i < |t| => slots[i][t[i]])
  }

  function Sizes(slots: seq<seq<Object>>): seq<nat> { seq(|slots|, i requires 0 <= i < |slots| => |slots[i]|) }

  /** An index tuple survives: distinct objects where required, a candidate if one
      is declared, and every cut passed. */
  predicate Survives(ph: Physics, k: Combo, objs: seq<Object>) {
    && (k.disjoint ==> forall i, j :: 0 <= i < j < |objs| ==> !ph.alike(objs[i], objs[j]))
    && (k.candidate.Some? ==> ph.makes(k.candidate.value, objs).Some?)
    && (forall c | c in k.cuts :: ph.admits(c, objs))
  }

  /** The index tuples of a combination, before cuts. */
  function ComboTuples(k: Combo, slots: seq<seq<Object>>): seq<Tuple> {
    if k.parts == [] then [] else TuplesOf(Sizes(slots), k.disjoint && SameSource(k.parts))
  }

  predicate Picks(slots: seq<seq<Object>>, t: Tuple) { InBounds(t, Sizes(slots)) }

  /** The tuples that survive, in order of enumeration. */
  function Survivors(ph: Physics, k: Combo, slots: seq<seq<Object>>, tuples: seq<Tuple>): seq<Tuple>
    requires forall t | t in tuples :: Picks(slots, t)
  {
    if tuples == [] then []
    else
      var n := |tuples| - 1;
      var init := Survivors(ph, k, slots, tuples[..n]);
      assert Picks(slots, tuples[n]);
      if Survives(ph, k, Picked(slots, tuples[n])) then init + [tuples[n]] else init
  }

  function CandidateOf(ph: Physics, k: Combo, objs: seq<Object>): Object {
    if k.candidate.None? then map[]
    else match ph.makes(k.candidate.value, objs) case Some(o) => o case None => map[]
  }

  /** A combination lists its candidates; a projection lists one member's objects. */
  function Projected(ph: Physics, k: Combo, slot: Option<nat>, slots: seq<seq<Object>>, tuples: seq<Tuple>): seq<Object>
    requires forall t | t in tuples :: Picks(slots, t)
  {
    seq(|tuples|, i requires 0 <= i < |tuples| =>
      assert Picks(slots, tuples[i]);
      var objs := Picked(slots, tuples[i]);
      if slot.None? then CandidateOf(ph, k, objs)
      else if slot.value < |objs| then objs[slot.value] else map[])
  }

  lemma ComboTuplesPick(k: Combo, slots: seq<seq<Object>>)
    ensures forall t | t in ComboTuples(k, slots) :: Picks(slots, t)
  {
    TuplesExact(Sizes(slots), k.disjoint && SameSource(k.parts));
  }

  /** The objects of a collection on an event. */
  function Materialize(ph: Physics, cs: Colls, c: CollectionId): seq<Object>
    requires WellFormed(cs) && c < |cs|
    decreases c, 0
  {
    match cs[c]
    case Base(name) => ph.base(name)
    case Filtered(p, pred) => Kept(Materialize(ph, cs, p), o => ph.passes(pred, o))
    case UnionOf(parts) => Concatenated(MaterializeAll(ph, cs, parts, c))
    case Sorted(p, key, descend) =>
      if key.Some? then StableSort(Materialize(ph, cs, p), key.value, descend) else Materialize(ph, cs, p)
    case Slice(p, start, end) => Sliced(Materialize(ph, cs, p), start, end)
    case Combination(k) => MaterializeCombo(ph, cs, k, None, c)
    case CombProject(p, slot) => MaterializeCombo(ph, cs, cs[p].combo, slot, p)
  }

  function MaterializeAll(ph: Physics, cs: Colls, parts: seq<CollectionId>, c: CollectionId): seq<seq<Object>>
    requires WellFormed(cs) && c < |cs| && forall p | p in parts :: p < c
    decreases c, 0, |parts|
  {
    seq(|parts|, i requires 0 <= i < |parts| => assert parts[i] in parts; Materialize(ph, cs, parts[i]))
  }

  function MaterializeCombo(ph: Physics, cs: Colls, k: Combo, slot: Option<nat>, c: CollectionId): seq<Object>
    requires WellFormed(cs) && c < |cs| && forall p | p in k.parts :: p < c
    decreases c, 0, |k.parts| + 1
  {
    var slots := MaterializeAll(ph, cs, k.parts, c);
    ComboTuplesPick(k, slots);
    var tuples := Survivors(ph, k, slots, ComboTuples(k, slots));
    assert forall t | t in tuples :: Picks(slots, t) by { SurvivorsPick(ph, k, slots, ComboTuples(k, slots)); }
    Projected(ph, k, slot, slots, tuples)
  }

  lemma {:induction false} SurvivorsPick(ph: Physics, k: Combo, slots: seq<seq<Object>>, tuples: seq<Tuple>)
    requires forall t | t in tuples :: Picks(slots, t)
    ensures forall t :: t in Survivors(ph, k, slots, tuples) <==>
      t in tuples && Picks(slots, t) && Survives(ph, k, Picked(slots, t))
  {
    if tuples != [] {
      SurvivorsPick(ph, k, slots, tuples[..|tuples| - 1]);
    }
  }

  // ----- sizes -----

  lemma {:induction false} KeptAt(objs: seq<Object>, pass: Object -> bool, i: nat)
    requires i < |Kept(objs, pass)|
    ensures exists k :: i <= k < |objs| && Kept(objs, pass)[i] == objs[k] && pass(objs[k])
  {
    var n := |objs| - 1;
    KeptShorter(objs[..n], pass);
    if i < |Kept(objs[..n], pass)| {
      KeptAt(objs[..n], pass, i);
      var k :| i <= k < n && Kept(objs[..n], pass)[i] == objs[..n][k] && pass(objs[..n][k]);
      assert objs[k] == objs[..n][k];
    } else {
      assert Kept(objs, pass)[i] == objs[n];
    }
  }

  lemma {:induction false} KeptShorter(objs: seq<Object>, pass: Object -> bool)
    ensures |Kept(objs, pass)| <= |objs|
  {
    if objs != [] { KeptShorter(objs[..|objs| - 1], pass); }
  }

  function Total(ns: seq<nat>): nat { if ns == [] then 0 else Total(ns[..|ns| - 1]) + ns[|ns| - 1] }

  lemma {:induction false} ConcatenatedSize(lists: seq<seq<Object>>)
    ensures |Concatenated(lists)| == Total(Sizes(lists))
    ensures forall i :: 0 <= i < |lists| ==> |lists[i]| <= |Concatenated(lists)|
  {
    if lists != [] {
      var n := |lists| - 1;
      ConcatenatedSize(lists[..n]);
      assert Sizes(lists)[..n] == Sizes(lists[..n]);
      forall i | 0 <= i < |lists| ensures |lists[i]| <= |Concatenated(lists)| {
        if i < n { assert lists[..n][i] == lists[i]; }
      }
    }
  }

  lemma {:induction false} InsertSize(sorted: seq<Object>, x: Object, key: PropId, descend: bool)
    ensures |Insert(sorted, x, key, descend)| == |sorted| + 1
  {
    if sorted != [] { InsertSize(sorted[..|sorted| - 1], x, key, descend); }
  }

  lemma {:induction false} StableSortSize(objs: seq<Object>, key: PropId, descend: bool)
    ensures |StableSort(objs, key, descend)| == |objs|
  {
    if objs != [] {
      StableSortSize(objs[..|objs| - 1], key, descend);
      InsertSize(StableSort(objs[..|objs| - 1], key, descend), objs[|objs| - 1], key, descend);
    }
  }

  lemma SlicedSize(objs: seq<Object>, start: nat, end: Option<nat>)
    ensures |Sliced(objs, start, end)| <= |objs|
    ensures end.Some? && start <= end.value ==> |Sliced(objs, start, end)| <= end.value - start
  {
  }

  /** A combination, like each of its projections, has one object per survivor. */
  lemma ComboCount(ph: Physics, cs: Colls, k: Combo, slot: Option<nat>, c: CollectionId)
    requires WellFormed(cs) && c < |cs| && forall p | p in k.parts :: p < c
    ensures var slots := MaterializeAll(ph, cs, k.parts, c);
      && (forall t | t in ComboTuples(k, slots) :: Picks(slots, t))
      && |MaterializeCombo(ph, cs, k, slot, c)| == |Survivors(ph, k, slots, ComboTuples(k, slots))|
  {
    var slots := MaterializeAll(ph, cs, k.parts, c);
    ComboTuplesPick(k, slots);
    SurvivorsPick(ph, k, slots, ComboTuples(k, slots));
  }

  lemma EmptyFactor(t: Tuple, sizes: seq<nat>, i: nat)
    requires i < |sizes| && sizes[i] == 0
    ensures !InBounds(t, sizes)
  {
  }

  lemma ShortFactor(t: Tuple, sizes: seq<nat>)
    requires |sizes| >= 2 && sizes[1] < 2
    ensures !(InBounds(t, sizes) && Increasing(t))
  {
    if |t| >= 2 && Increasing(t) { SecondIndex(t); }
  }

  lemma SecondIndex(t: Tuple)
    requires |t| >= 2 && Increasing(t)
    ensures t[1] >= 1
  {
    assert t[0] < t[1];
  }

  /** An empty factor leaves no tuples, and a same-source disjoint product needs
      two objects. */
  lemma NoTuples(k: Combo, slots: seq<seq<Object>>)
    requires |slots| == |k.parts|
    requires (exists i :: 0 <= i < |slots| && slots[i] == [])
      || (k.disjoint && SameSource(k.parts) && forall i :: 0 <= i < |slots| ==> |slots[i]| < 2)
    ensures ComboTuples(k, slots) == []
  {
    var sizes := Sizes(slots);
    if k.parts != [] {
      TuplesExact(sizes, k.disjoint && SameSource(k.parts));
      if i :| 0 <= i < |slots| && slots[i] == [] {
        forall t { EmptyFactor(t, sizes, i); }
      } else {
        forall t { ShortFactor(t, sizes); }
      }
      FirstListed(ComboTuples(k, slots));
    }
  }

  lemma FirstListed(ts: seq<Tuple>)
    ensures ts == [] || exists t :: t in ts
  {
    if ts != [] { assert ts[0] in ts; }
  }

  /** A bare product of non-empty factors has a tuple. */
  lemma SomeTuple(ph: Physics, k: Combo, slots: seq<seq<Object>>)
    requires |slots| == |k.parts| > 0 && !k.disjoint && k.cuts == [] && k.candidate == None
    requires forall i :: 0 <= i < |slots| ==> slots[i] != []
    ensures forall t | t in ComboTuples(k, slots) :: Picks(slots, t)
    ensures Survivors(ph, k, slots, ComboTuples(k, slots)) != []
  {
    var zeros: Tuple := seq(|slots|, i => 0);
    TuplesExact(Sizes(slots), false);
    assert InBounds(zeros, Sizes(slots));
    ComboTuplesPick(k, slots);
    SurvivorsPick(ph, k, slots, ComboTuples(k, slots));
    assert zeros in Survivors(ph, k, slots, ComboTuples(k, slots));
  }

  // ----- the pT order -----

  /** Objects that carry the property come in descending order of it. */
  ghost predicate Descending(objs: seq<Object>, pt: PropId) {
    forall i, j :: 0 <= i < j < |objs| && pt in objs[i] && pt in objs[j] ==> objs[i][pt] >= objs[j][pt]
  }

  ghost predicate MissingFirst(objs: seq<Object>, pt: PropId) {
    forall i, j :: 0 <= i < j < |objs| && pt in objs[i] ==> pt in objs[j]
  }

  lemma {:induction false} InsertFrom(sorted: seq<Object>, x: Object, key: PropId, descend: bool, o: Object)
    requires o in Insert(sorted, x, key, descend)
    ensures o == x || o in sorted
  {
    if sorted != [] && Before(x, sorted[|sorted| - 1], key, descend) && o != sorted[|sorted| - 1] {
      InsertFrom(sorted[..|sorted| - 1], x, key, descend, o);
    }
  }

  lemma {:induction false} InsertDescending(sorted: seq<Object>, x: Object, pt: PropId)
    requires Descending(sorted, pt) && MissingFirst(sorted, pt)
    ensures Descending(Insert(sorted, x, pt, true), pt) && MissingFirst(Insert(sorted, x, pt, true), pt)
  {
    if sorted != [] {
      var n := |sorted| - 1;
      var last, init := sorted[n], sorted[..n];
      if Before(x, last, pt, true) {
        InsertDescending(init, x, pt);
        var r := Insert(init, x, pt, true);
        forall i | 0 <= i < |r| ensures pt in r[i] ==> pt in last && r[i][pt] >= last[pt] {
          InsertFrom(init, x, pt, true, r[i]);
        }
      }
    }
  }

  lemma {:induction false} StableSortDescending(objs: seq<Object>, pt: PropId)
    ensures Descending(StableSort(objs, pt, true), pt) && MissingFirst(StableSort(objs, pt, true), pt)
  {
    if objs != [] {
      StableSortDescending(objs[..|objs| - 1], pt);
      InsertDescending(StableSort(objs[..|objs| - 1], pt, true), objs[|objs| - 1], pt);
    }
  }

  lemma {:induction false} KeptDescending(objs: seq<Object>, pass: Object -> bool, pt: PropId)
    requires Descending(objs, pt)
    ensures Descending(Kept(objs, pass), pt)
  {
    if objs != [] {
      var n := |objs| - 1;
      KeptDescending(objs[..n], pass, pt);
      var init := Kept(objs[..n], pass);
      forall i | 0 <= i < |init| && pt in init[i] && pt in objs[n] ensures init[i][pt] >= objs[n][pt] {
        KeptAt(objs[..n], pass, i);
      }
    }
  }

  /** Collections the table calls pT-ordered. */
  predicate PtOrdered(cs: Colls, c: CollectionId, pt: PropId)
    requires WellFormed(cs) && c < |cs|
  {
    match cs[c]
    case Base(_) => true
    case Filtered(p, _) => PtOrdered(cs, p, pt)
    case Slice(p, _, _) => PtOrdered(cs, p, pt)
    case Sorted(p, key, descend) => descend && key == Some(pt) && PtOrdered(cs, p, pt)
    case _ => false
  }

  /** Events arrive with every base list in descending pT. */
  ghost predicate ValidPhysics(ph: Physics, pt: PropId) { forall name: nat :: Descending(ph.base(name), pt) }

  /** What the table calls pT-ordered is, on every event. */
  lemma {:induction false} PtOrderedSound(ph: Physics, cs: Colls, c: CollectionId, pt: PropId)
    requires WellFormed(cs) && c < |cs| && ValidPhysics(ph, pt) && PtOrdered(cs, c, pt)
    ensures Descending(Materialize(ph, cs, c), pt)
  {
    match cs[c]
    case Base(_) =>
    case Filtered(p, pred) =>
      PtOrderedSound(ph, cs, p, pt);
      KeptDescending(Materialize(ph, cs, p), o => ph.passes(pred, o), pt);
    case Slice(p, _, _) => PtOrderedSound(ph, cs, p, pt);
    case Sorted(p, _, _) => StableSortDescending(Materialize(ph, cs, p), pt);
  }

  /** The steps that keep the order: filters, slices, and sorting by pT downwards. */
  predicate KeepsOrder(d: Collection, parent: CollectionId, pt: PropId) {
    && (d.Filtered? || d.Slice? || (d.Sorted? && d.key == Some(pt) && d.descend))
    && d.parent == parent
  }

  /** A way down to a base list, by steps that keep the order. */
  ghost predicate OrderedFrom(cs: Colls, way: seq<CollectionId>, pt: PropId) {
    && way != [] && (forall i :: 0 <= i < |way| ==> way[i] < |cs|) && cs[way[|way| - 1]].Base?
    && forall i :: 0 <= i < |way| - 1 ==> KeepsOrder(cs[way[i]], way[i + 1], pt)
  }

  /** The table calls a collection pT-ordered just when such a way leads to a base. */
  lemma {:induction false} PtOrderedExactly(cs: Colls, c: CollectionId, pt: PropId)
    requires WellFormed(cs) && c < |cs|
    ensures PtOrdered(cs, c, pt) <==> exists way :: OrderedFrom(cs, way, pt) && way[0] == c
    decreases c
  {
    if way :| OrderedFrom(cs, way, pt) && way[0] == c {
      if |way| > 1 {
        assert KeepsOrder(cs[way[0]], way[1], pt);
        assert OrderedFrom(cs, way[1..], pt) && way[1..][0] == way[1];
        PtOrderedExactly(cs, way[1], pt);
      }
    }
    if PtOrdered(cs, c, pt) {
      if cs[c].Base? {
        assert OrderedFrom(cs, [c], pt);
      } else {
        PtOrderedExactly(cs, cs[c].parent, pt);
        var way :| OrderedFrom(cs, way, pt) && way[0] == cs[c].parent;
        var longer := [c] + way;
        assert forall i :: 0 <= i < |longer| - 1 ==> KeepsOrder(cs[longer[i]], longer[i + 1], pt) by {
          forall i | 0 <= i < |longer| - 1 ensures KeepsOrder(cs[longer[i]], longer[i + 1], pt) {
            if i > 0 { assert KeepsOrder(cs[way[i - 1]], way[i], pt); }
          }
        }
        assert OrderedFrom(cs, longer, pt);
      }
    }
  }
}
