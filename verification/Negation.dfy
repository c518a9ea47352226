/** Why `negate` is right for a partial interpreter: structural facts about the
    encoder's formulas, then the agreement of encoding and three-valued truth. */
module Negation {
  import opened Linear
  import opened Formulas
  import opened Conditions

  // ----- the shape of an encoded condition -----

  predicate IsConst(f: Formula) { f.True? || f.False? }

  /** `p >= 1` for a presence indicator p. */
  predicate Positive(table: Table, f: Formula) {
    IsPresenceAtom(table, f) && f == IndicatorAtom(f.atom.terms[0].q)
  }

  /** `p < 1` for a presence indicator p. */
  predicate Negative(table: Table, f: Formula) {
    IsPresenceAtom(table, f) && f == FNot(IndicatorAtom(f.atom.terms[0].q))
  }

  /** A proper formula in which indicators occur only as guards: `p >= 1` beside
      a proper conjunct, `p < 1` beside a proper disjunct. */
  predicate Clause(table: Table, f: Formula) {
    match f
    case True => false
    case False => false
    case Atom(_) => !IsPresenceAtom(table, f)
    case And(items) =>
      && (forall x | x in items :: Positive(table, x) || Clause(table, x))
      && (exists x | x in items :: Clause(table, x))
    case Or(items) =>
      && (forall x | x in items :: Negative(table, x) || Clause(table, x))
      && (exists x | x in items :: Clause(table, x))
    case Dual(plus, minus, _) => (IsConst(plus) || Clause(table, plus)) && (IsConst(minus) || Clause(table, minus))
    case Unknown(_) => true
  }

  predicate Shaped(table: Table, f: Formula) { IsConst(f) || Clause(table, f) }

  function FNotAll(fs: seq<Formula>): seq<Formula> {
    seq(|fs|, i requires 0 <= i < |fs| => FNot(fs[i]))
  }

  lemma FNotAllMember(fs: seq<Formula>, x: Formula)
    ensures FNot(x) in FNotAll(fs) <==> x in fs
  {
    var n := FNotAll(fs);
    if x in fs {
      var i :| 0 <= i < |fs| && fs[i] == x;
      assert n[i] == FNot(x);
    }
    if FNot(x) in n {
      var i :| 0 <= i < |n| && n[i] == FNot(x);
      FNotInvolutive(x);
      FNotInvolutive(fs[i]);
    }
  }

  lemma {:induction false} OrPartsDual(parts: seq<Formula>)
    ensures OrParts(FNotAll(parts)) == FNotAll(AndParts(parts))
  {
    hide FNot, AndItems, OrItems;
    if parts != [] {
      var init, last := parts[..|parts| - 1], parts[|parts| - 1];
      OrPartsDual(init);
      assert FNotAll(parts)[..|parts| - 1] == FNotAll(init);
      OrItemsDual(last);
      assert FNotAll(AndParts(init) + AndItems(last)) == FNotAll(AndParts(init)) + FNotAll(AndItems(last));
    }
  }

  lemma OrItemsDual(f: Formula)
    ensures OrItems(FNot(f)) == FNotAll(AndItems(f))
  {
  }

  /** De Morgan holds of the simplifying constructors as syntax. */
  lemma FNotOfAnd(parts: seq<Formula>)
    ensures FNot(FAnd(parts)) == FOr(FNotAll(parts))
  {
    OrPartsDual(parts);
    FNotAllMember(parts, False);
  }

  lemma FNotAllTwice(parts: seq<Formula>)
    ensures FNotAll(FNotAll(parts)) == parts
  {
    forall i | 0 <= i < |parts| ensures FNot(FNot(parts[i])) == parts[i] { FNotInvolutive(parts[i]); }
  }

  lemma FNotOfOr(parts: seq<Formula>)
    ensures FNot(FOr(parts)) == FAnd(FNotAll(parts))
  {
    FNotOfAnd(FNotAll(parts));
    FNotAllTwice(parts);
    FNotInvolutive(FAnd(FNotAll(parts)));
  }

  lemma {:induction false} ClauseNot(table: Table, f: Formula)
    requires Clause(table, f)
    ensures Clause(table, FNot(f))
  {
    match f
    case And(items) =>
      ClauseNotItems(table, items);
    case Or(items) =>
      ClauseNotItems(table, items);
    case Dual(plus, minus, _) =>
      if !IsConst(plus) { ClauseNot(table, plus); }
      if !IsConst(minus) { ClauseNot(table, minus); }
    case Unknown(_) =>
    case Atom(_) =>
  }

  lemma {:induction false} ClauseNotItems(table: Table, items: seq<Formula>)
    requires exists x | x in items :: Clause(table, x)
    ensures (forall x | x in items :: Positive(table, x) || Clause(table, x))
      ==> forall y | y in FNotAll(items) :: Negative(table, y) || Clause(table, y)
    ensures (forall x | x in items :: Negative(table, x) || Clause(table, x))
      ==> forall y | y in FNotAll(items) :: Positive(table, y) || Clause(table, y)
    ensures exists y | y in FNotAll(items) :: Clause(table, y)
  {
    forall x | x in items && Clause(table, x) ensures Clause(table, FNot(x)) { ClauseNot(table, x); }
    forall y | y in FNotAll(items) ensures exists x :: x in items && y == FNot(x) {
      var i :| 0 <= i < |items| && FNotAll(items)[i] == y;
      assert items[i] in items;
    }
    var x :| x in items && Clause(table, x);
    FNotAllMember(items, x);
  }

  // ----- the hard quantities of a formula -----

  lemma {:induction false} HardOfNot(table: Table, f: Formula)
    ensures HardQuantities(table, FNot(f)) == HardQuantities(table, f)
  {
    match f
    case And(items) => HardOfNotItems(table, items);
    case Or(items) => HardOfNotItems(table, items);
    case Dual(plus, minus, _) => HardOfNot(table, plus); HardOfNot(table, minus);
    case _ =>
  }

  function HardOfAll(table: Table, fs: seq<Formula>): set<QuantityId> {
    set x, q | x in fs && q in HardQuantities(table, x) :: q
  }

  lemma {:induction false} HardOfNotItems(table: Table, items: seq<Formula>)
    ensures HardOfAll(table, FNotAll(items)) == HardOfAll(table, items)
  {
    forall x | x in items
      ensures HardQuantities(table, FNot(x)) == HardQuantities(table, x) && FNot(x) in FNotAll(items)
    {
      HardOfNot(table, x);
      FNotAllMember(items, x);
    }
    forall y | y in FNotAll(items) ensures exists x :: x in items && y == FNot(x) {
      var i :| 0 <= i < |items| && FNotAll(items)[i] == y;
      assert items[i] in items;
    }
  }

  lemma HardOfAndItems(table: Table, f: Formula)
    ensures HardOfAll(table, AndItems(f)) == HardQuantities(table, f)
  {
  }

  /** Unless a part folds it to false, a conjunction mentions what its parts do. */
  lemma HardOfAnd(table: Table, parts: seq<Formula>)
    requires False !in parts
    ensures HardQuantities(table, FAnd(parts)) == HardOfAll(table, parts)
  {
    var out := AndParts(parts);
    assert HardQuantities(table, AndOf(out)) == HardOfAll(table, out);
    forall x { AndPartsMember(parts, x); }
    forall f | f in parts { HardOfAndItems(table, f); }
    forall q | q in HardOfAll(table, parts) ensures q in HardOfAll(table, out) {
      var f :| f in parts && q in HardQuantities(table, f);
      assert q in HardOfAll(table, AndItems(f));
    }
    forall q | q in HardOfAll(table, out) ensures q in HardOfAll(table, parts) {
      var x :| x in out && q in HardQuantities(table, x);
      var i :| 0 <= i < |parts| && x in AndItems(parts[i]);
      assert q in HardOfAll(table, AndItems(parts[i]));
    }
  }

  lemma HardOfOr(table: Table, parts: seq<Formula>)
    requires True !in parts
    ensures HardQuantities(table, FOr(parts)) == HardOfAll(table, parts)
  {
    FNotAllMember(parts, True);
    HardOfAnd(table, FNotAll(parts));
    HardOfNotItems(table, parts);
    FNotOfOr(parts);
    HardOfNot(table, FOr(parts));
  }

  // ----- the forced quantities of a formula -----

  /** The quantities of hard absence that every way of being false must read. */
  function HardForced(table: Table, f: Formula): set<QuantityId> {
    set q | q in ForcedByFalsity(table, f) && table.absence(q) == Hard
  }

  lemma {:induction false} HardForcedIsHard(table: Table, f: Formula, q: QuantityId)
    requires q in ForcedByFalsity(table, f) && table.absence(q) == Hard
    ensures q in HardQuantities(table, f)
  {
    match f
    case Atom(_) =>
    case And(items) =>
      ForcedByAllMember(table, items, q);
      var x :| x in items && !IsPresenceAtom(table, x) && q in ForcedByFalsity(table, x);
      HardForcedIsHard(table, x, q);
    case Or(items) =>
      var x :| x in items && q in ForcedByFalsity(table, x);
      HardForcedIsHard(table, x, q);
    case _ =>
  }

  /** The common part of the forced quantities of the items that are not indicators. */
  lemma {:induction false} ForcedByAllMember(table: Table, items: seq<Formula>, q: QuantityId)
    ensures ForcedByAll(table, items).Some? <==> exists x :: x in items && !IsPresenceAtom(table, x)
    ensures q in ForcedByFalsity(table, And(items)) <==>
      && (exists x :: x in items && !IsPresenceAtom(table, x))
      && (forall x :: x in items && !IsPresenceAtom(table, x) ==> q in ForcedByFalsity(table, x))
  {
    if items != [] {
      ForcedByAllMember(table, items[1..], q);
      assert forall x :: x in items <==> x == items[0] || x in items[1..];
    }
  }

  /** What a conjunction's falsity forces, the falsity of each proper conjunct forces. */
  lemma ForcedOfAnd(table: Table, parts: seq<Formula>, i: nat, q: QuantityId)
    requires i < |parts| && Clause(table, parts[i])
    requires q in ForcedByFalsity(table, FAnd(parts))
    ensures q in ForcedByFalsity(table, parts[i])
  {
    var out := AndParts(parts);
    forall x | x in AndItems(parts[i]) ensures x in out { AndPartsMember(parts, x); }
    ForcedOfAndOf(table, out, q);
    if parts[i].And? { ForcedByAllMember(table, parts[i].items, q); }
  }

  lemma ForcedOfAndOf(table: Table, out: seq<Formula>, q: QuantityId)
    requires q in ForcedByFalsity(table, AndOf(out))
    ensures forall x :: x in out && !IsPresenceAtom(table, x) ==> q in ForcedByFalsity(table, x)
  {
    if |out| > 1 { ForcedByAllMember(table, out, q); }
  }

  /** What a disjunction's falsity forces, the falsity of some disjunct forces. */
  lemma ForcedOfOr(table: Table, parts: seq<Formula>, q: QuantityId)
    requires q in ForcedByFalsity(table, FOr(parts))
    ensures exists i :: 0 <= i < |parts| && q in ForcedByFalsity(table, parts[i])
  {
    hide ForcedByFalsity, OrItems, OrParts;
    var out := OrParts(parts);
    ForcedOfConst(table);
    ForcedOfOrOf(table, out, q);
    var x :| x in out && q in ForcedByFalsity(table, x);
    OrPartsMember(parts, x);
    var i :| 0 <= i < |parts| && x in OrItems(parts[i]);
    ForcedOfOrItems(table, parts[i], x, q);
  }

  lemma ForcedOfConst(table: Table)
    ensures ForcedByFalsity(table, True) == {} && ForcedByFalsity(table, False) == {}
  {
  }

  lemma ForcedOfOrOf(table: Table, out: seq<Formula>, q: QuantityId)
    requires q in ForcedByFalsity(table, OrOf(out))
    ensures exists x :: x in out && q in ForcedByFalsity(table, x)
  {
    if |out| == 1 { assert out[0] in out; }
  }

  lemma ForcedOfOrItems(table: Table, f: Formula, x: Formula, q: QuantityId)
    requires x in OrItems(f) && q in ForcedByFalsity(table, x)
    ensures q in ForcedByFalsity(table, f)
  {
  }

  // ----- the simplifying constructors keep the shape -----

  predicate Conjunct(table: Table, f: Formula) { Positive(table, f) || Shaped(table, f) }

  ghost predicate AllConjuncts(table: Table, out: seq<Formula>) {
    forall x | x in out :: Positive(table, x) || Clause(table, x)
  }

  ghost predicate SomeClause(table: Table, out: seq<Formula>) {
    exists x | x in out :: Clause(table, x)
  }

  lemma AndItemsConjuncts(table: Table, f: Formula)
    requires Conjunct(table, f) && f != False
    ensures AllConjuncts(table, AndItems(f))
    ensures Clause(table, f) ==> SomeClause(table, AndItems(f))
  {
    if Clause(table, f) && !f.And? { assert f in AndItems(f); }
  }

  lemma ClauseOfAnd(table: Table, parts: seq<Formula>)
    requires forall i :: 0 <= i < |parts| ==> Conjunct(table, parts[i])
    requires exists i :: 0 <= i < |parts| && Clause(table, parts[i])
    requires False !in parts
    ensures Clause(table, FAnd(parts))
  {
    hide Clause, Conjunct, AndItems, AndParts;
    var out := AndParts(parts);
    forall x { AndPartsMember(parts, x); }
    forall i | 0 <= i < |parts| { AndItemsConjuncts(table, parts[i]); }
    assert AllConjuncts(table, out);
    var i :| 0 <= i < |parts| && Clause(table, parts[i]);
    var x :| x in AndItems(parts[i]) && Clause(table, x);
    assert x in out;
    ClauseOfAndOf(table, out);
  }

  lemma ClauseOfAndOf(table: Table, out: seq<Formula>)
    requires AllConjuncts(table, out) && SomeClause(table, out)
    ensures Clause(table, AndOf(out))
  {
  }

  lemma ShapedAnd(table: Table, parts: seq<Formula>)
    requires forall i :: 0 <= i < |parts| ==> Shaped(table, parts[i])
    ensures Shaped(table, FAnd(parts))
  {
    if False !in parts {
      if exists i :: 0 <= i < |parts| && Clause(table, parts[i]) {
        ClauseOfAnd(table, parts);
      } else {
        AllTrueParts(parts);
      }
    }
  }

  lemma {:induction false} AllTrueParts(parts: seq<Formula>)
    requires forall i :: 0 <= i < |parts| ==> parts[i] == True
    ensures AndParts(parts) == []
  {
    if parts != [] { AllTrueParts(parts[..|parts| - 1]); }
  }

  lemma ShapedNot(table: Table, f: Formula)
    requires Shaped(table, f)
    ensures Shaped(table, FNot(f))
  {
    if !IsConst(f) { ClauseNot(table, f); }
  }

  lemma ShapedOr(table: Table, parts: seq<Formula>)
    requires forall i :: 0 <= i < |parts| ==> Shaped(table, parts[i])
    ensures Shaped(table, FOr(parts))
  {
    forall i | 0 <= i < |parts| { ShapedNot(table, parts[i]); }
    ShapedAnd(table, FNotAll(parts));
    FNotOfOr(parts);
    ShapedNot(table, FNot(FOr(parts)));
    FNotInvolutive(FOr(parts));
  }

  lemma ClauseOfOr(table: Table, parts: seq<Formula>)
    requires forall i :: 0 <= i < |parts| ==> Negative(table, parts[i]) || Shaped(table, parts[i])
    requires exists i :: 0 <= i < |parts| && Clause(table, parts[i])
    requires True !in parts
    ensures Clause(table, FOr(parts))
  {
    var n := FNotAll(parts);
    forall i | 0 <= i < |parts| ensures Conjunct(table, n[i]) && (Clause(table, parts[i]) ==> Clause(table, n[i])) {
      if Negative(table, parts[i]) { FNotInvolutive(IndicatorAtom(parts[i].atom.terms[0].q)); }
      else { ShapedNot(table, parts[i]); }
    }
    FNotAllMember(parts, True);
    var i :| 0 <= i < |parts| && Clause(table, parts[i]);
    assert Clause(table, n[i]);
    ClauseOfAnd(table, n);
    FNotOfOr(parts);
    ClauseNot(table, FNot(FOr(parts)));
    FNotInvolutive(FOr(parts));
  }

  // ----- dropping disjuncts that cannot hold -----

  function DropAll(fs: seq<Formula>, present: set<QuantityId>): seq<Formula> {
    seq(|fs|, i requires 0 <= i < |fs| => DropAbsent(fs[i], present))
  }

  ghost predicate AllRead(ids: set<QuantityId>, v: Valuation) { forall p | p in ids :: v(p) >= 1.0 }

  /** When the given indicators read 1, dropping changes nothing. */
  lemma {:induction false} DropMeans(f: Formula, present: set<QuantityId>, p: Polarity, v: Valuation)
    requires AllRead(present, v)
    ensures Sat(DropAbsent(f, present), p, v) <==> Sat(f, p, v)
  {
    match f
    case Atom(a) =>
      if SaysAbsent(f, present) {
        assert a == Single(a.terms[0].q, Lt, 1.0);
        SingleIsMake(a.terms[0].q, Lt, 1.0);
      }
    case And(items) =>
      forall x | x in items { DropMeans(x, present, p, v); }
      var parts := DropAll(items, present);
      FAndMeans(parts, p, v);
      ProjectedItems(items, p);
      forall i | 0 <= i < |items| ensures Sat(parts[i], p, v) <==> Sat(items[i], p, v) {
        assert items[i] in items;
      }
      if x :| x in items && !Sat(x, p, v) {
        var i :| 0 <= i < |items| && items[i] == x;
        assert !Sat(parts[i], p, v);
      }
    case Or(items) =>
      forall x | x in items { DropMeans(x, present, p, v); }
      var parts := DropAll(items, present);
      FOrMeans(parts, p, v);
      ProjectedItems(items, p);
      forall i | 0 <= i < |items| ensures Sat(parts[i], p, v) <==> Sat(items[i], p, v) {
        assert items[i] in items;
      }
      if x :| x in items && Sat(x, p, v) {
        var i :| 0 <= i < |items| && items[i] == x;
        assert Sat(parts[i], p, v);
      }
    case Dual(plus, minus, _) =>
      DropMeans(plus, present, p, v);
      DropMeans(minus, present, p, v);
    case _ =>
  }

  /** Dropping keeps a clause a clause, with the same hard quantities. */
  lemma {:induction false} DropKeeps(table: Table, f: Formula, present: set<QuantityId>)
    requires table.Valid() && Clause(table, f)
    requires forall p | p in present :: table.innerOf(p).Some?
    ensures Clause(table, DropAbsent(f, present))
    ensures HardQuantities(table, DropAbsent(f, present)) == HardQuantities(table, f)
    decreases f, 1
  {
    match f
    case Atom(a) =>
    case And(items) =>
      DropKeepsItems(table, items, present);
      var parts := DropAll(items, present);
      ClauseOfAnd(table, parts);
      HardOfAnd(table, parts);
    case Or(items) =>
      DropKeepsItems(table, items, present);
      var parts := DropAll(items, present);
      ClauseOfOr(table, parts);
      HardOfOr(table, parts);
    case Dual(plus, minus, _) =>
      if !IsConst(plus) { DropKeeps(table, plus, present); }
      if !IsConst(minus) { DropKeeps(table, minus, present); }
    case Unknown(_) =>
  }

  lemma {:induction false} DropKeepsItems(table: Table, items: seq<Formula>, present: set<QuantityId>)
    requires table.Valid()
    requires forall p | p in present :: table.innerOf(p).Some?
    requires forall x | x in items :: Positive(table, x) || Negative(table, x) || Clause(table, x)
    requires exists x | x in items :: Clause(table, x)
    ensures forall i :: 0 <= i < |items| && Positive(table, items[i]) ==> DropAll(items, present)[i] == items[i]
    ensures forall i :: 0 <= i < |items| && Negative(table, items[i]) ==> DropAll(items, present)[i] in {items[i], False}
    ensures forall i :: 0 <= i < |items| && Clause(table, items[i]) ==> Clause(table, DropAll(items, present)[i])
    ensures exists i :: 0 <= i < |items| && Clause(table, DropAll(items, present)[i])
    ensures HardOfAll(table, DropAll(items, present)) == HardOfAll(table, items)
    decreases items, 0
  {
    var parts := DropAll(items, present);
    forall i | 0 <= i < |items|
      ensures Clause(table, items[i]) ==> Clause(table, parts[i])
      ensures HardQuantities(table, parts[i]) == HardQuantities(table, items[i])
    {
      assert items[i] in items;
      if Clause(table, items[i]) { DropKeeps(table, items[i], present); }
      else { assert table.IsIndicator(items[i].atom.terms[0].q); }
    }
    assert HardOfAll(table, parts) == HardOfAll(table, items) by {
      forall q | q in HardOfAll(table, parts) ensures q in HardOfAll(table, items) {
        var i :| 0 <= i < |items| && q in HardQuantities(table, parts[i]);
        assert items[i] in items;
      }
      forall q | q in HardOfAll(table, items) ensures q in HardOfAll(table, parts) {
        var x :| x in items && q in HardQuantities(table, x);
        var i :| 0 <= i < |items| && items[i] == x;
        assert parts[i] in parts;
      }
    }
    var x :| x in items && Clause(table, x);
    var i :| 0 <= i < |items| && items[i] == x;
    assert Clause(table, parts[i]);
  }

  /** Dropping never makes falsity force more. */
  lemma {:induction false} DropForces(table: Table, f: Formula, present: set<QuantityId>, q: QuantityId)
    requires table.Valid() && Clause(table, f)
    requires forall p | p in present :: table.innerOf(p).Some?
    requires q in ForcedByFalsity(table, DropAbsent(f, present)) && table.absence(q) == Hard
    ensures q in ForcedByFalsity(table, f)
  {
    match f
    case Atom(a) =>
    case And(items) =>
      DropKeepsItems(table, items, present);
      var parts := DropAll(items, present);
      forall x | x in items && !IsPresenceAtom(table, x) ensures q in ForcedByFalsity(table, x) {
        var i :| 0 <= i < |items| && items[i] == x;
        ForcedOfAnd(table, parts, i, q);
        DropForces(table, x, present, q);
      }
      ForcedByAllMember(table, items, q);
    case Or(items) =>
      var parts := DropAll(items, present);
      ForcedOfOr(table, parts, q);
      var i :| 0 <= i < |parts| && q in ForcedByFalsity(table, parts[i]);
      assert items[i] in items;
      if Clause(table, items[i]) { DropForces(table, items[i], present, q); }
    case Dual(plus, minus, _) =>
    case Unknown(_) =>
  }
}
