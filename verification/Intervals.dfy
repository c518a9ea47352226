/** The interval fast path: per-quantity bounds read off the conjunctive spine
    of a region's over-projections. */
module Intervals {
  import opened Linear
  import opened Formulas
  import opened Saturation

  type Name = string

  /** One side of an interval, with the assert and the atom that set it. */
  datatype Bound = Bound(value: real, strict: bool, src: Name, atom: LinAtom)

  /** A possibly open interval; an absent bound is infinite. */
  datatype Iv = Iv(lo: Option<Bound>, hi: Option<Bound>)

  function TightenLo(iv: Iv, b: Bound): Iv {
    if iv.lo.None? || b.value > iv.lo.value.value || (b.value == iv.lo.value.value && b.strict && !iv.lo.value.strict)
    then iv.(lo := Some(b)) else iv
  }

  function TightenHi(iv: Iv, b: Bound): Iv {
    if iv.hi.None? || b.value < iv.hi.value.value || (b.value == iv.hi.value.value && b.strict && !iv.hi.value.strict)
    then iv.(hi := Some(b)) else iv
  }

  function Tightest(a: Option<Bound>, b: Option<Bound>, lower: bool): Option<Bound> {
    if a.None? then b
    else if b.None? then a
    else
      var tighter := if lower then a.value.value > b.value.value else a.value.value < b.value.value;
      if tighter || (a.value.value == b.value.value && a.value.strict && !b.value.strict) then a else b
  }

  /** The tightest opposing bounds, when they exclude each other. */
  function Refutation(a: Iv, b: Iv): Option<(Bound, Bound)> {
    var lo, hi := Tightest(a.lo, b.lo, true), Tightest(a.hi, b.hi, false);
    if lo.None? || hi.None? then None
    else if lo.value.value > hi.value.value || (lo.value.value == hi.value.value && (lo.value.strict || hi.value.strict))
    then Some((lo.value, hi.value))
    else None
  }

  predicate Inside(x: real, iv: Iv) {
    && (iv.lo.Some? ==> if iv.lo.value.strict then iv.lo.value.value < x else iv.lo.value.value <= x)
    && (iv.hi.Some? ==> if iv.hi.value.strict then x < iv.hi.value.value else x <= iv.hi.value.value)
  }

  /** A refutation is reported exactly when no value lies in both intervals. */
  lemma RefutationExact(a: Iv, b: Iv)
    ensures Refutation(a, b).Some? <==> forall x: real :: !(Inside(x, a) && Inside(x, b))
  {
    var lo, hi := Tightest(a.lo, b.lo, true), Tightest(a.hi, b.hi, false);
    if Refutation(a, b).None? {
      var x := if lo.None? && hi.None? then 0.0
               else if lo.None? then hi.value.value - 1.0
               else if hi.None? then lo.value.value + 1.0
               else (lo.value.value + hi.value.value) / 2.0;
      assert Inside(x, a) && Inside(x, b);
    }
  }

  // ----- the interval map -----

  datatype Entry = Entry(q: QuantityId, iv: Iv)

  /** Contents of an interval map, keys ascending. */
  datatype Summary = Summary(entries: seq<Entry>, falsified: Option<Name>)

  /** What one single-quantity atom does to the interval of its quantity. */
  function Apply(iv: Iv, rel: Rel, value: real, src: Name, atom: LinAtom): Iv {
    match rel
    case Lt => TightenHi(iv, Bound(value, true, src, atom))
    case Le => TightenHi(iv, Bound(value, false, src, atom))
    case Gt => TightenLo(iv, Bound(value, true, src, atom))
    case Ge => TightenLo(iv, Bound(value, false, src, atom))
    case Eq => TightenHi(TightenLo(iv, Bound(value, false, src, atom)), Bound(value, false, src, atom))
    case Ne => iv
  }

  /** Find-or-insert the interval of `q`, then apply the atom to it. */
  function Insert(m: seq<Entry>, q: QuantityId, rel: Rel, value: real, src: Name, atom: LinAtom): seq<Entry> {
    if m == [] || q < m[0].q then [Entry(q, Apply(Iv(None, None), rel, value, src, atom))] + m
    else if m[0].q == q then [Entry(q, Apply(m[0].iv, rel, value, src, atom))] + m[1..]
    else [m[0]] + Insert(m[1..], q, rel, value, src, atom)
  }

  /** The atom speaks about one quantity only. */
  predicate SingleQuantity(a: LinAtom) { |a.terms| == 1 && a.terms[0].coeff != 0.0 }

  function SingleRel(a: LinAtom): Rel
    requires SingleQuantity(a)
  {
    if a.terms[0].coeff < 0.0 then RelFlipped(a.rel) else a.rel
  }

  function SingleValue(a: LinAtom): real
    requires SingleQuantity(a)
  {
    a.constant / a.terms[0].coeff
  }

  function AddSpine(st: Summary, src: Name, f: QFormula): Summary
    decreases f, 1
  {
    match f
    case QTrue => st
    case QFalse => if st.falsified.None? then st.(falsified := Some(src)) else st
    case QAnd(items) => AddSpines(st, src, items)
    case QOr(_) => st
    case QAtom(a) =>
      if SingleQuantity(a) then st.(entries := Insert(st.entries, a.terms[0].q, SingleRel(a), SingleValue(a), src, a)) else st
  }

  function AddSpines(st: Summary, src: Name, fs: seq<QFormula>): Summary
    decreases fs, 0
  {
    if fs == [] then st else AddSpines(AddSpine(st, src, fs[0]), src, fs[1..])
  }

  class IntervalMap {
    var entries: seq<Entry>
    var falsified: Option<Name>

    constructor ()
      ensures Contents() == Summary([], None)
    {
      entries, falsified := [], None;
    }

    function Contents(): Summary
      reads this
    {
      Summary(entries, falsified)
    }

    /** Fold the conjunctive spine of an over-projection into the map. */
    method AddOver(src: Name, f: QFormula)
      modifies this
      ensures Contents() == AddSpine(old(Contents()), src, f)
      decreases f
    {
      match f {
        case QTrue =>
        case QFalse =>
          if falsified.None? { falsified := Some(src); }
        case QAnd(items) =>
          assert items[0..] == items;
          for i := 0 to |items|
            invariant AddSpines(Contents(), src, items[i..]) == AddSpines(old(Contents()), src, items)
          {
            assert items[i..][1..] == items[i + 1..];
            AddOver(src, items[i]);
          }
        case QOr(_) =>
        case QAtom(a) =>
          if SingleQuantity(a) {
            entries := Insert(entries, a.terms[0].q, SingleRel(a), SingleValue(a), src, a);
          }
      }
    }
  }

  // ----- meaning of the map -----

  /** The valuation lies in every interval of the map. */
  ghost predicate Describes(m: seq<Entry>, v: Valuation) {
    forall e | e in m :: Inside(v(e.q), e.iv)
  }

  /** Every single-quantity atom of the spine holds (disequalities set no bound). */
  ghost predicate SpineHolds(f: QFormula, v: Valuation) {
    match f
    case QAnd(items) => forall x | x in items :: SpineHolds(x, v)
    case QAtom(a) => SingleQuantity(a) && a.rel != Ne ==> AtomHolds(a, v)
    case _ => true
  }

  lemma ApplyMeaning(iv: Iv, rel: Rel, value: real, src: Name, atom: LinAtom, x: real)
    ensures Inside(x, Apply(iv, rel, value, src, atom)) <==> Inside(x, iv) && (rel != Ne ==> RelEval(rel, x, value))
  {
  }

  lemma {:induction false} InsertMeaning(m: seq<Entry>, q: QuantityId, rel: Rel, value: real, src: Name, atom: LinAtom, v: Valuation)
    ensures Describes(Insert(m, q, rel, value, src, atom), v) <==>
            Describes(m, v) && (rel != Ne ==> RelEval(rel, v(q), value))
  {
    hide Apply, Inside;
    ApplyMeaning(Iv(None, None), rel, value, src, atom, v(q));
    if m == [] || q < m[0].q {
      Unbounded(v(q));
      DescribesCons(Entry(q, Apply(Iv(None, None), rel, value, src, atom)), m, v);
    } else {
      assert m == [m[0]] + m[1..];
      DescribesCons(m[0], m[1..], v);
      if m[0].q == q {
        ApplyMeaning(m[0].iv, rel, value, src, atom, v(q));
        DescribesCons(Entry(q, Apply(m[0].iv, rel, value, src, atom)), m[1..], v);
      } else {
        InsertMeaning(m[1..], q, rel, value, src, atom, v);
        DescribesCons(m[0], Insert(m[1..], q, rel, value, src, atom), v);
      }
    }
  }

  lemma Unbounded(x: real)
    ensures Inside(x, Iv(None, None))
  {
  }

  lemma DescribesCons(e: Entry, m: seq<Entry>, v: Valuation)
    ensures Describes([e] + m, v) <==> Inside(v(e.q), e.iv) && Describes(m, v)
  {
    assert e in [e] + m;
  }

  /** A single-quantity atom is its bound: dividing by the coefficient flips the
      relation exactly when the coefficient is negative. */
  lemma SingleMeaning(a: LinAtom, v: Valuation)
    requires SingleQuantity(a)
    ensures AtomHolds(a, v) <==> RelEval(SingleRel(a), v(a.terms[0].q), SingleValue(a))
  {
    var c, x := a.terms[0].coeff, v(a.terms[0].q);
    assert a.terms == [a.terms[0]] && a.terms[1..] == [];
    assert Dot(a.terms, v) == c * x;
    DivideRel(c, x, a.constant);
  }

  lemma DivideRel(c: real, x: real, k: real)
    requires c != 0.0
    ensures c > 0.0 ==> (c * x < k <==> x < k / c) && (c * x == k <==> x == k / c)
    ensures c < 0.0 ==> (c * x < k <==> x > k / c) && (c * x == k <==> x == k / c)
  {
    var t := k / c;
    assert c * t == k;
    if x < t { TimesStrict(c, x, t); }
    if x > t { TimesStrict(c, t, x); }
  }

  lemma TimesStrict(c: real, x: real, y: real)
    requires x < y
    ensures c > 0.0 ==> c * x < c * y
    ensures c < 0.0 ==> c * x > c * y
  {
  }

  /** The map describes exactly the valuations that satisfy the single-quantity
      atoms of the spine: nothing is lost and nothing is invented. */
  lemma {:induction false} AddSpineMeaning(st: Summary, src: Name, f: QFormula, v: Valuation)
    ensures Describes(AddSpine(st, src, f).entries, v) <==> Describes(st.entries, v) && SpineHolds(f, v)
    decreases f, 1
  {
    match f
    case QAnd(items) => AddSpinesMeaning(st, src, items, v);
    case QAtom(a) =>
      if SingleQuantity(a) {
        InsertMeaning(st.entries, a.terms[0].q, SingleRel(a), SingleValue(a), src, a, v);
        SingleMeaning(a, v);
      }
    case _ =>
  }

  lemma {:induction false} AddSpinesMeaning(st: Summary, src: Name, fs: seq<QFormula>, v: Valuation)
    ensures Describes(AddSpines(st, src, fs).entries, v) <==>
            Describes(st.entries, v) && forall x | x in fs :: SpineHolds(x, v)
    decreases fs, 0
  {
    if fs != [] {
      AddSpineMeaning(st, src, fs[0], v);
      AddSpinesMeaning(AddSpine(st, src, fs[0]), src, fs[1..], v);
      assert fs == [fs[0]] + fs[1..];
    }
  }

  lemma {:induction false} HoldsImpliesSpine(f: QFormula, v: Valuation)
    requires Holds(f, v)
    ensures SpineHolds(f, v)
  {
    if f.QAnd? {
      forall x | x in f.items { HoldsImpliesSpine(x, v); }
    }
  }

  // ----- where the bounds come from -----

  type Overs = seq<(Name, QFormula)>

  ghost predicate AtomInSpine(f: QFormula, a: LinAtom) {
    match f
    case QAnd(items) => exists x | x in items :: AtomInSpine(x, a)
    case QAtom(b) => a == b
    case _ => false
  }

  /** The bound is the one that its atom expresses. */
  ghost predicate SetBy(b: Bound, q: QuantityId, lower: bool) {
    && SingleQuantity(b.atom) && b.atom.terms[0].q == q && b.value == SingleValue(b.atom)
    && var r := SingleRel(b.atom);
       if lower then (if b.strict then r == Gt else r == Ge || r == Eq)
       else (if b.strict then r == Lt else r == Le || r == Eq)
  }

  /** The bound's atom stands on the spine of the formula its source names. */
  ghost predicate Traced(b: Bound, overs: Overs) {
    exists k :: 0 <= k < |overs| && overs[k].0 == b.src && AtomInSpine(overs[k].1, b.atom)
  }

  ghost predicate IvTraced(iv: Iv, q: QuantityId, overs: Overs) {
    && (iv.lo.Some? ==> SetBy(iv.lo.value, q, true) && Traced(iv.lo.value, overs))
    && (iv.hi.Some? ==> SetBy(iv.hi.value, q, false) && Traced(iv.hi.value, overs))
  }

  ghost predicate NamesFalse(overs: Overs, name: Name) {
    exists k :: 0 <= k < |overs| && overs[k].0 == name && FalseInSpine(overs[k].1)
  }

  ghost predicate SummaryTraced(st: Summary, overs: Overs) {
    && (forall e :: e in st.entries ==> IvTraced(e.iv, e.q, overs))
    && (st.falsified.Some? ==> NamesFalse(overs, st.falsified.value))
  }

  lemma {:induction false} InsertTraced(m: seq<Entry>, a: LinAtom, src: Name, overs: Overs)
    requires SingleQuantity(a) && forall e :: e in m ==> IvTraced(e.iv, e.q, overs)
    requires exists k :: 0 <= k < |overs| && overs[k].0 == src && AtomInSpine(overs[k].1, a)
    ensures forall e :: e in Insert(m, a.terms[0].q, SingleRel(a), SingleValue(a), src, a) ==> IvTraced(e.iv, e.q, overs)
  {
    hide AtomInSpine;
    if m != [] && m[0].q < a.terms[0].q {
      InsertTraced(m[1..], a, src, overs);
    }
  }

  /** Everything in the map can be traced to the formula it was read off. */
  lemma {:induction false} AddSpineTraced(st: Summary, f: QFormula, overs: Overs, k: nat)
    requires SummaryTraced(st, overs) && k < |overs|
    requires forall a :: AtomInSpine(f, a) ==> AtomInSpine(overs[k].1, a)
    requires FalseInSpine(f) ==> FalseInSpine(overs[k].1)
    ensures SummaryTraced(AddSpine(st, overs[k].0, f), overs)
    decreases f, 1
  {
    match f
    case QAnd(items) =>
      forall x, a | x in items && AtomInSpine(x, a) ensures AtomInSpine(overs[k].1, a) {
        assert AtomInSpine(f, a);
      }
      AddSpinesTraced(st, items, overs, k);
    case QAtom(a) =>
      assert AtomInSpine(f, a);
      if SingleQuantity(a) { InsertTraced(st.entries, a, overs[k].0, overs); }
    case _ =>
  }

  lemma {:induction false} AddSpinesTraced(st: Summary, fs: seq<QFormula>, overs: Overs, k: nat)
    requires SummaryTraced(st, overs) && k < |overs|
    requires forall x, a :: x in fs && AtomInSpine(x, a) ==> AtomInSpine(overs[k].1, a)
    requires forall x :: x in fs && FalseInSpine(x) ==> FalseInSpine(overs[k].1)
    ensures SummaryTraced(AddSpines(st, overs[k].0, fs), overs)
    decreases fs, 0
  {
    if fs != [] {
      assert fs[0] in fs;
      AddSpineTraced(st, fs[0], overs, k);
      AddSpinesTraced(AddSpine(st, overs[k].0, fs[0]), fs[1..], overs, k);
    }
  }

  lemma {:induction false} AddSpineFalsified(st: Summary, src: Name, f: QFormula)
    ensures AddSpine(st, src, f).falsified.Some? <==> st.falsified.Some? || FalseInSpine(f)
    decreases f, 1
  {
    if f.QAnd? { AddSpinesFalsified(st, src, f.items); }
  }

  lemma {:induction false} AddSpinesFalsified(st: Summary, src: Name, fs: seq<QFormula>)
    ensures AddSpines(st, src, fs).falsified.Some? <==> st.falsified.Some? || AnyFalse(fs)
    decreases fs, 0
  {
    if fs != [] {
      AddSpineFalsified(st, src, fs[0]);
      AddSpinesFalsified(AddSpine(st, src, fs[0]), src, fs[1..]);
      assert fs == [fs[0]] + fs[1..];
    }
  }

  // ----- the summary of a region -----

  function SummaryOf(overs: Overs, n: nat): Summary
    requires n <= |overs|
  {
    if n == 0 then Summary([], None) else AddSpine(SummaryOf(overs, n - 1), overs[n - 1].0, overs[n - 1].1)
  }

  /** Build a region's interval map from its named over-projections. */
  method BuildContext(overs: Overs) returns (m: IntervalMap)
    ensures fresh(m) && m.Contents() == SummaryOf(overs, |overs|)
  {
    m := new IntervalMap();
    for i := 0 to |overs|
      invariant fresh(m) && m.Contents() == SummaryOf(overs, i)
    {
      m.AddOver(overs[i].0, overs[i].1);
    }
  }

  ghost predicate AllHold(overs: Overs, v: Valuation) {
    forall k :: 0 <= k < |overs| ==> Holds(overs[k].1, v)
  }

  /** A valuation in the region lies in every interval, and no cut of a
      satisfiable region is constant-false. */
  lemma {:induction false} SummarySound(overs: Overs, n: nat, v: Valuation)
    requires n <= |overs| && AllHold(overs, v)
    ensures Describes(SummaryOf(overs, n).entries, v)
    ensures SummaryOf(overs, n).falsified.None?
  {
    if n != 0 {
      var (src, f) := overs[n - 1];
      SummarySound(overs, n - 1, v);
      AddSpineMeaning(SummaryOf(overs, n - 1), src, f, v);
      AddSpineFalsified(SummaryOf(overs, n - 1), src, f);
      HoldsImpliesSpine(f, v);
      SpineMeaning(f, v);
    }
  }

  lemma {:induction false} SummaryOfTraced(overs: Overs, n: nat)
    requires n <= |overs|
    ensures SummaryTraced(SummaryOf(overs, n), overs)
  {
    if n != 0 {
      SummaryOfTraced(overs, n - 1);
      AddSpineTraced(SummaryOf(overs, n - 1), overs[n - 1].1, overs, n - 1);
    }
  }

  // ----- the two claims of the interval layer -----

  datatype Presence = Total | Indicator(q: QuantityId) | Unpinned

  datatype Disjointness = Disjointness(q: QuantityId, a: Iv, b: Iv, lo: Bound, hi: Bound)

  function Find(m: seq<Entry>, q: QuantityId): (r: Option<Iv>)
    ensures r.Some? ==> Entry(q, r.value) in m
  {
    if m == [] then None else if m[0].q == q then Some(m[0].iv) else Find(m[1..], q)
  }

  function PinsPresent(m: seq<Entry>, present: QuantityId): bool {
    var iv := Find(m, present);
    iv.Some? && iv.value.lo.Some? && iv.value.lo.value.value >= 1.0
  }

  predicate Admissible(p: Presence, a: seq<Entry>, b: seq<Entry>) {
    match p
    case Total => true
    case Indicator(q) => PinsPresent(a, q) && PinsPresent(b, q)
    case Unpinned => false
  }

  ghost predicate KeysAscend(m: seq<Entry>) { forall i, j :: 0 <= i < j < |m| ==> m[i].q < m[j].q }

  lemma {:induction false} InsertAscends(m: seq<Entry>, q: QuantityId, rel: Rel, value: real, src: Name, atom: LinAtom)
    requires KeysAscend(m)
    ensures KeysAscend(Insert(m, q, rel, value, src, atom))
    ensures forall e :: e in Insert(m, q, rel, value, src, atom) ==> e.q == q || exists d :: d in m && d.q == e.q
  {
    hide Apply;
    if m != [] && q > m[0].q {
      assert forall i :: 0 <= i < |m| - 1 ==> m[1..][i] == m[i + 1];
      InsertAscends(m[1..], q, rel, value, src, atom);
      var rest := Insert(m[1..], q, rel, value, src, atom);
      forall j | 0 <= j < |rest| ensures m[0].q < rest[j].q {
        assert rest[j] in rest;
        if rest[j].q != q {
          var d :| d in m[1..] && d.q == rest[j].q;
          var k :| 0 <= k < |m| - 1 && m[1..][k] == d;
          assert m[k + 1] == d;
        }
      }
    }
  }

  lemma {:induction false} SpineAscends(st: Summary, src: Name, f: QFormula)
    requires KeysAscend(st.entries)
    ensures KeysAscend(AddSpine(st, src, f).entries)
    decreases f, 1
  {
    hide KeysAscend, Insert;
    match f
    case QAnd(items) => SpinesAscend(st, src, items);
    case QAtom(a) =>
      if SingleQuantity(a) { InsertAscends(st.entries, a.terms[0].q, SingleRel(a), SingleValue(a), src, a); }
    case _ =>
  }

  lemma {:induction false} SpinesAscend(st: Summary, src: Name, fs: seq<QFormula>)
    requires KeysAscend(st.entries)
    ensures KeysAscend(AddSpines(st, src, fs).entries)
    decreases fs, 0
  {
    hide KeysAscend, AddSpine;
    if fs != [] {
      SpineAscends(st, src, fs[0]);
      SpinesAscend(AddSpine(st, src, fs[0]), src, fs[1..]);
    }
  }

  /** The map of a region has one interval for each quantity. */
  lemma {:induction false} SummaryAscends(overs: Overs, n: nat)
    requires n <= |overs|
    ensures KeysAscend(SummaryOf(overs, n).entries)
  {
    hide AddSpine;
    if n != 0 {
      SummaryAscends(overs, n - 1);
      SpineAscends(SummaryOf(overs, n - 1), overs[n - 1].0, overs[n - 1].1);
    }
  }

  lemma {:induction false} FoundIsOnly(m: seq<Entry>, q: QuantityId, e: Entry)
    requires KeysAscend(m) && e in m && e.q == q
    ensures Find(m, q) == Some(e.iv)
  {
    var k :| 0 <= k < |m| && m[k] == e;
    if k > 0 {
      assert m[1..][k - 1] == e;
      FoundIsOnly(m[1..], q, e);
    }
  }

  /** A quantity of a satisfiable map that is not pinned can be less than one. */
  lemma Unpinning(m: seq<Entry>, q: QuantityId, v: Valuation) returns (w: Valuation)
    requires KeysAscend(m) && Describes(m, v) && !PinsPresent(m, q)
    ensures Describes(m, w) && w(q) < 1.0
  {
    var iv := Find(m, q);
    if iv.None? {
      w := (k: QuantityId) => if k == q then 0.0 else v(k);
      forall e | e in m ensures e.q != q { if e.q == q { FoundIsOnly(m, q, e); } }
      return;
    }
    var lo, hi := iv.value.lo, iv.value.hi;
    var x := if v(q) < 1.0 then v(q) else if lo.Some? then (lo.value.value + 1.0) / 2.0 else 0.0;
    assert Inside(v(q), iv.value);
    w := (k: QuantityId) => if k == q then x else v(k);
    forall e | e in m ensures Inside(w(e.q), e.iv) {
      if e.q == q { FoundIsOnly(m, q, e); }
    }
  }

  /** A presence condition holds exactly when everything in either map is where
      the indicator is one. */
  lemma AdmissibleExactly(p: Presence, a: seq<Entry>, b: seq<Entry>, v: Valuation, w: Valuation)
    requires KeysAscend(a) && KeysAscend(b) && Describes(a, v) && Describes(b, w)
    ensures Admissible(p, a, b) <==>
      (p.Total? || (p.Indicator? && forall u: Valuation :: Describes(a, u) || Describes(b, u) ==> u(p.q) >= 1.0))
  {
    hide KeysAscend, Inside;
    if p.Indicator? {
      if !PinsPresent(a, p.q) { var u := Unpinning(a, p.q, v); }
      if !PinsPresent(b, p.q) { var u := Unpinning(b, p.q, w); }
      if Admissible(p, a, b) {
        PinnedAtLeastOne(a, p.q);
        PinnedAtLeastOne(b, p.q);
      }
    }
  }

  lemma PinnedAtLeastOne(m: seq<Entry>, q: QuantityId)
    requires PinsPresent(m, q)
    ensures forall u: Valuation :: Describes(m, u) ==> u(q) >= 1.0
  {
    forall u: Valuation | Describes(m, u) ensures u(q) >= 1.0 {
      assert Inside(u(q), Find(m, q).value);
    }
  }

  /** The entry is refuted by the other map, and presence does not stand in the way. */
  predicate Reports(e: Entry, a: seq<Entry>, b: seq<Entry>, p: Presence) {
    Find(b, e.q).Some? && Admissible(p, a, b) && Refutation(e.iv, Find(b, e.q).value).Some?
  }

  predicate FirstReport(k: nat, a: seq<Entry>, b: seq<Entry>, presence: QuantityId -> Presence)
    requires k < |a|
  {
    && Reports(a[k], a, b, presence(a[k].q))
    && forall j :: 0 <= j < k ==> !Reports(a[j], a, b, presence(a[j].q))
  }

  /** The first quantity on which the two regions' spines cannot intersect. */
  method DisjointWith(a: IntervalMap, b: IntervalMap, presence: QuantityId -> Presence) returns (r: Option<Disjointness>)
    ensures r.Some? ==> var d := r.value;
      && Entry(d.q, d.a) in a.entries && Entry(d.q, d.b) in b.entries
      && Refutation(d.a, d.b) == Some((d.lo, d.hi)) && Admissible(presence(d.q), a.entries, b.entries)
    ensures r.Some? ==> exists k :: 0 <= k < |a.entries| && FirstReport(k, a.entries, b.entries, presence)
                                    && a.entries[k] == Entry(r.value.q, r.value.a)
    ensures r.None? ==> forall e | e in a.entries :: !Reports(e, a.entries, b.entries, presence(e.q))
  {
    for i := 0 to |a.entries|
      invariant forall k | 0 <= k < i :: !Reports(a.entries[k], a.entries, b.entries, presence(a.entries[k].q))
    {
      var e := a.entries[i];
      var other := Find(b.entries, e.q);
      if other.Some? {
        var ref := Refutation(e.iv, other.value);
        if ref.Some? && Admissible(presence(e.q), a.entries, b.entries) {
          return Some(Disjointness(e.q, e.iv, other.value, ref.value.0, ref.value.1));
        }
      }
    }
    r := None;
  }

  /** A constant-false cut, or an interval that no number lies in. */
  predicate VisiblyEmpty(st: Summary) {
    st.falsified.Some? || exists k :: 0 <= k < |st.entries| && Refutation(st.entries[k].iv, st.entries[k].iv).Some?
  }

  /** Some shared quantity is refuted, and presence does not stand in the way. */
  predicate VisiblyApart(a: seq<Entry>, b: seq<Entry>, presence: QuantityId -> Presence) {
    exists k :: 0 <= k < |a| && Reports(a[k], a, b, presence(a[k].q))
  }

  datatype SelfEmptiness = ConstFalse(name: Name) | EmptyInterval(q: QuantityId, iv: Iv)

  /** Why the region's own spine is unsatisfiable, if it visibly is. */
  method SelfEmpty(m: IntervalMap) returns (r: Option<SelfEmptiness>)
    ensures m.falsified.Some? <==> r.Some? && r.value.ConstFalse?
    ensures m.falsified.Some? ==> r.value.name == m.falsified.value
    ensures r.Some? && r.value.EmptyInterval? ==>
      Entry(r.value.q, r.value.iv) in m.entries && Refutation(r.value.iv, r.value.iv).Some?
    ensures r.None? ==> forall e :: e in m.entries ==> Refutation(e.iv, e.iv).None?
    ensures r.Some? <==> VisiblyEmpty(m.Contents())
  {
    if m.falsified.Some? { return Some(ConstFalse(m.falsified.value)); }
    for i := 0 to |m.entries|
      invariant forall k :: 0 <= k < i ==> Refutation(m.entries[k].iv, m.entries[k].iv).None?
    {
      if Refutation(m.entries[i].iv, m.entries[i].iv).Some? {
        return Some(EmptyInterval(m.entries[i].q, m.entries[i].iv));
      }
    }
    r := None;
  }

  // ----- the layer misses nothing that one quantity decides -----

  /** Every cut's single-quantity atoms hold, and none is constant-false. */
  ghost predicate InSpine(overs: Overs, v: Valuation) {
    forall k :: 0 <= k < |overs| ==> SpineHolds(overs[k].1, v) && !FalseInSpine(overs[k].1)
  }

  lemma {:induction false} SummaryExactly(overs: Overs, n: nat, v: Valuation)
    requires n <= |overs|
    ensures SummaryOf(overs, n).falsified.None? && Describes(SummaryOf(overs, n).entries, v) <==> InSpine(overs[..n], v)
  {
    hide AddSpine, Describes, SpineHolds, FalseInSpine;
    if n == 0 {
      NothingDescribed(v);
    } else {
      SummaryExactly(overs, n - 1, v);
      AddSpineMeaning(SummaryOf(overs, n - 1), overs[n - 1].0, overs[n - 1].1, v);
      AddSpineFalsified(SummaryOf(overs, n - 1), overs[n - 1].0, overs[n - 1].1);
      assert overs[..n] == overs[..n - 1] + [overs[n - 1]];
      assert forall k :: 0 <= k < n - 1 ==> overs[..n][k] == overs[..n - 1][k];
    }
  }

  lemma NothingDescribed(v: Valuation)
    ensures Describes([], v)
  {
  }

  predicate InsideBoth(x: real, a: Option<Iv>, b: Option<Iv>) { (a.Some? ==> Inside(x, a.value)) && (b.Some? ==> Inside(x, b.value)) }

  /** A value in both intervals, if there is one. */
  ghost function Common(a: Option<Iv>, b: Option<Iv>): (x: real)
    ensures (exists y :: InsideBoth(y, a, b)) ==> InsideBoth(x, a, b)
  {
    if y :| InsideBoth(y, a, b) then y else 0.0
  }

  lemma CommonInside(a: Iv, b: Option<Iv>)
    requires Refutation(a, a).None? && (b.Some? ==> Refutation(a, b.value).None?)
    ensures InsideBoth(Common(Some(a), b), Some(a), b)
  {
    hide Inside, Refutation;
    RefutationExact(a, a);
    if b.Some? { RefutationExact(a, b.value); }
    var y: real :| Inside(y, a) && (b.Some? ==> Inside(y, b.value));
    assert InsideBoth(y, Some(a), b);
  }

  lemma InsideSwap(a: Iv, b: Iv)
    requires Refutation(a, b).None?
    ensures Refutation(b, a).None?
  {
  }

  ghost predicate Agree(v: Valuation, w: Valuation, a: seq<Entry>, b: seq<Entry>, presence: QuantityId -> Presence) {
    forall q: QuantityId :: Admissible(presence(q), a, b) ==> v(q) == w(q)
  }

  /** One map's part of a pair of valuations that the layer cannot tell from one. */
  ghost function Chosen(m: seq<Entry>, other: seq<Entry>, admitted: QuantityId -> bool): Valuation {
    (q: QuantityId) => Common(Find(m, q), if admitted(q) then Find(other, q) else None)
  }

  lemma ChosenDescribes(m: seq<Entry>, other: seq<Entry>, admitted: QuantityId -> bool)
    requires KeysAscend(m) && forall e :: e in m ==> Refutation(e.iv, e.iv).None?
    requires forall e :: e in m && admitted(e.q) && Find(other, e.q).Some? ==> Refutation(e.iv, Find(other, e.q).value).None?
    ensures Describes(m, Chosen(m, other, admitted))
  {
    hide Refutation, Inside, KeysAscend;
    forall e | e in m ensures Inside(Chosen(m, other, admitted)(e.q), e.iv) {
      FoundIsOnly(m, e.q, e);
      CommonInside(e.iv, if admitted(e.q) then Find(other, e.q) else None);
    }
  }

  lemma CommonSwap(a: Option<Iv>, b: Option<Iv>)
    requires exists y :: InsideBoth(y, a, b)
    ensures InsideBoth(Common(a, b), b, a)
  {
    hide Inside;
  }

  /** Between two maps that are not empty, nothing is visibly apart just when the
      two regions have points that agree on every quantity whose presence is settled. */
  lemma ApartExactly(a: seq<Entry>, b: seq<Entry>, presence: QuantityId -> Presence)
    requires KeysAscend(a) && KeysAscend(b)
    requires (forall e :: e in a ==> Refutation(e.iv, e.iv).None?) && forall e :: e in b ==> Refutation(e.iv, e.iv).None?
    ensures VisiblyApart(a, b, presence) <==>
      !exists v: Valuation, w: Valuation :: Describes(a, v) && Describes(b, w) && Agree(v, w, a, b, presence)
  {
    hide Refutation, Inside, KeysAscend, Admissible;
    if VisiblyApart(a, b, presence) {
      var k :| 0 <= k < |a| && Reports(a[k], a, b, presence(a[k].q));
      var iv := Find(b, a[k].q).value;
      RefutationExact(a[k].iv, iv);
      forall v: Valuation, w: Valuation | Describes(a, v) && Describes(b, w) ensures !Agree(v, w, a, b, presence) {
        assert Inside(v(a[k].q), a[k].iv) && Inside(w(a[k].q), iv);
      }
    } else {
      NotApart(a, b, presence);
    }
  }

  lemma NotApart(a: seq<Entry>, b: seq<Entry>, presence: QuantityId -> Presence)
    requires KeysAscend(a) && KeysAscend(b) && !VisiblyApart(a, b, presence)
    requires (forall e :: e in a ==> Refutation(e.iv, e.iv).None?) && forall e :: e in b ==> Refutation(e.iv, e.iv).None?
    ensures exists v: Valuation, w: Valuation :: Describes(a, v) && Describes(b, w) && Agree(v, w, a, b, presence)
  {
    hide Refutation, Inside, KeysAscend, Admissible, Describes;
    var admitted := (q: QuantityId) => Admissible(presence(q), a, b);
    forall e | e in a && admitted(e.q) && Find(b, e.q).Some? ensures Refutation(e.iv, Find(b, e.q).value).None? {
      var k :| 0 <= k < |a| && a[k] == e;
      assert !Reports(a[k], a, b, presence(a[k].q));
    }
    forall e | e in b && admitted(e.q) && Find(a, e.q).Some? ensures Refutation(e.iv, Find(a, e.q).value).None? {
      var f := Entry(e.q, Find(a, e.q).value);
      FoundIsOnly(b, e.q, e);
      assert f in a && Find(b, f.q) == Some(e.iv);
      InsideSwap(f.iv, e.iv);
    }
    ChosenDescribes(a, b, admitted);
    ChosenDescribes(b, a, admitted);
    var v, free := Chosen(a, b, admitted), Chosen(b, a, admitted);
    var w: Valuation := (q: QuantityId) => if admitted(q) then v(q) else free(q);
    SharedDescribes(a, b, admitted, w);
    assert Agree(v, w, a, b, presence);
  }

  /** The second region's point may be the first's wherever presence is settled. */
  lemma SharedDescribes(a: seq<Entry>, b: seq<Entry>, admitted: QuantityId -> bool, w: Valuation)
    requires KeysAscend(b) && (forall e :: e in b ==> Refutation(e.iv, e.iv).None?)
    requires forall e :: e in b && admitted(e.q) && Find(a, e.q).Some? ==> Refutation(e.iv, Find(a, e.q).value).None?
    requires forall q: QuantityId :: w(q) == if admitted(q) then Chosen(a, b, admitted)(q) else Chosen(b, a, admitted)(q)
    ensures Describes(b, w)
  {
    hide Refutation, Inside, KeysAscend;
    forall e | e in b ensures Inside(w(e.q), e.iv) {
      FoundIsOnly(b, e.q, e);
      var other := if admitted(e.q) then Find(a, e.q) else None;
      CommonInside(e.iv, other);
      if admitted(e.q) {
        assert InsideBoth(Common(Some(e.iv), other), other, Some(e.iv));
        CommonSwap(other, Some(e.iv));
        assert InsideBoth(Common(other, Some(e.iv)), Some(e.iv), other);
      }
    }
  }

  lemma EmptyExactly(st: Summary)
    requires KeysAscend(st.entries)
    ensures VisiblyEmpty(st) <==> st.falsified.Some? || !exists v: Valuation :: Describes(st.entries, v)
  {
    hide Refutation, Inside, KeysAscend;
    if k :| 0 <= k < |st.entries| && Refutation(st.entries[k].iv, st.entries[k].iv).Some? {
      RefutationExact(st.entries[k].iv, st.entries[k].iv);
      forall v: Valuation ensures !Describes(st.entries, v) { assert st.entries[k] in st.entries; }
    } else {
      ChosenDescribes(st.entries, [], _ => false);
    }
  }
}
