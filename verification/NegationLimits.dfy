/** Where negation over partial events stops being exact: the precise condition
    on a comparison, the precise condition on a ternary, and concrete failures. */
module NegationLimits {
  import opened Linear
  import opened Formulas
  import opened Saturation
  import opened Conditions
  import opened Negation
  import opened PartialTruth

  /** Negating f is right for a condition with this truth value on this event. */
  ghost predicate NegationSound(table: Table, ev: Event, f: Formula, t: Tri) {
    && (t == F ==> Sat(Negate(table, f), OverSide, View(table, ev)))
    && (Sat(Negate(table, f), UnderSide, View(table, ev)) ==> t == F)
  }

  function Guards(table: Table, quants: set<QuantityId>, floors: seq<Floor>, inner: Formula): Formula {
    GuardExistence(floors, GuardPresence(table, quants, inner))
  }

  /** Negation is right for the comparison on every event. */
  ghost predicate LeafNegatable(table: Table, quants: set<QuantityId>, floors: seq<Floor>, inner: Formula) {
    forall ev: Event, id: nat ::
      ValidEvent(table, ev) && FloorsMet(table, ev, quants, floors) ==>
        NegationSound(table, ev, Guards(table, quants, floors, inner), LeafTruth(table, ev, id, quants, inner))
  }

  // ----- an event datum that the atoms do not show -----

  function Lacking(absent: set<QuantityId>): Event { Event(_ => 0.0, q => q !in absent, _ => F) }

  lemma HiddenDatum(table: Table, quants: set<QuantityId>, floors: seq<Floor>, inner: Formula, h: QuantityId)
    requires table.Valid() && LeafCompiled(table, quants, floors, inner)
    requires h in quants && table.absence(h) == Hard && h !in HardQuantities(table, inner)
    ensures ValidEvent(table, Lacking({h})) && FloorsMet(table, Lacking({h}), quants, floors)
    ensures LeafTruth(table, Lacking({h}), 0, quants, inner) == U
    ensures !NegationSound(table, Lacking({h}), Guards(table, quants, floors, inner), U)
  {
    hide GuardExistence, GuardPresence, HardQuantities, HardForced, Project, Negate, LeafCompiled;
    var ev := Lacking({h});
    assert !Known(ev, quants);
    LeafGuards(table, ev, quants, floors, inner);
    NegateMeans(table, ev, Guards(table, quants, floors, inner));
  }

  // ----- an event datum that falsity forces, beside an element property -----

  ghost predicate AllForce(table: Table, items: seq<Formula>, q: QuantityId) {
    && (exists x :: x in items && !IsPresenceAtom(table, x))
    && (forall x :: x in items && !IsPresenceAtom(table, x) ==> q in ForcedByFalsity(table, x))
  }

  lemma ClauseForces(table: Table, f: Formula, q: QuantityId)
    requires Clause(table, f) && q in ForcedByFalsity(table, f)
    ensures AllForce(table, AndItems(f), q)
  {
    if f.And? { ForcedByAllMember(table, f.items, q); } else { assert f in AndItems(f); }
  }

  lemma AndOfForces(table: Table, out: seq<Formula>, q: QuantityId)
    requires AllForce(table, out, q)
    ensures q in ForcedByFalsity(table, AndOf(out))
  {
    if |out| > 1 { ForcedByAllMember(table, out, q); }
  }

  /** A guard does not weaken what a clause's falsity forces. */
  lemma GuardForces(table: Table, ids: seq<QuantityId>, f: Formula, q: QuantityId)
    requires forall i :: 0 <= i < |ids| ==> table.innerOf(ids[i]).Some?
    requires Clause(table, f) && q in ForcedByFalsity(table, f)
    ensures q in ForcedByFalsity(table, FAnd(IndicatorAtoms(ids) + [f]))
  {
    hide Clause, ForcedByFalsity, IsPresenceAtom, AndItems, AndParts, AndOf;
    var parts := IndicatorAtoms(ids) + [f];
    var out := AndParts(parts);
    assert parts[|ids|] == f;
    ConstNotClause(table);
    ClauseForces(table, f, q);
    forall x { AndPartsMember(parts, x); }
    forall i | 0 <= i < |ids| { IndicatorItem(table, ids[i]); }
    var x :| x in AndItems(f) && !IsPresenceAtom(table, x);
    assert x in out;
    assert False !in parts;
    AndOfForces(table, out, q);
  }

  lemma IndicatorItem(table: Table, p: QuantityId)
    requires table.innerOf(p).Some?
    ensures AndItems(IndicatorAtom(p)) == [IndicatorAtom(p)] && IsPresenceAtom(table, IndicatorAtom(p))
  {
  }

  lemma GuardsForce(table: Table, quants: set<QuantityId>, inner: Formula, q: QuantityId)
    requires table.Valid() && IsExact(inner) && Shaped(table, inner) && q in HardForced(table, inner)
    ensures q in HardForced(table, Guards(table, quants, [], inner))
  {
    hide FAnd, HardQuantities, Clause, ForcedByFalsity;
    var order := Ascending(set q | q in quants && table.MayBeAbsent(q));
    var ids := seq(|order|, i requires 0 <= i < |order| => table.presentOf(order[i]));
    forall i | 0 <= i < |ids| ensures table.innerOf(ids[i]).Some? { assert table.IsIndicator(ids[i]); }
    ForcedOfConst(table);
    GuardForces(table, ids, inner, q);
  }

  lemma ForcedDatum(table: Table, quants: set<QuantityId>, inner: Formula, s: QuantityId, h: QuantityId)
    requires table.Valid() && LeafCompiled(table, quants, [], inner)
    requires s in quants && table.absence(s) == Soft && h in HardForced(table, inner)
    ensures ValidEvent(table, Lacking({s, h})) && FloorsMet(table, Lacking({s, h}), quants, [])
    ensures LeafTruth(table, Lacking({s, h}), 0, quants, inner) == F
    ensures !NegationSound(table, Lacking({s, h}), Guards(table, quants, [], inner), F)
  {
    hide FAnd, HardQuantities, Project, Negate, Clause, ForcedByFalsity, Truth;
    assert table.MayBeAbsent(s);
    GuardsForce(table, quants, inner, h);
    NegateMeans(table, Lacking({s, h}), Guards(table, quants, [], inner));
  }

  /** Negating a comparison is right on every event if and only if its atoms show
      every event datum that it reads and, when it also reads an element property
      without a size guard, no event datum is forced by its falsity. */
  lemma LeafNegationExact(table: Table, quants: set<QuantityId>, floors: seq<Floor>, inner: Formula)
    requires table.Valid() && LeafCompiled(table, quants, floors, inner)
    ensures LeafNegatable(table, quants, floors, inner) <==> LeafTransparent(table, quants, floors, inner)
  {
    hide GuardExistence, GuardPresence, HardQuantities, HardForced, Project, Negate, LeafCompiled, LeafTruth, FloorsMet,
      ValidEvent, Agrees;
    if LeafTransparent(table, quants, floors, inner) {
      forall ev: Event, id: nat | ValidEvent(table, ev) && FloorsMet(table, ev, quants, floors)
        ensures NegationSound(table, ev, Guards(table, quants, floors, inner), LeafTruth(table, ev, id, quants, inner))
      {
        LeafAgrees(table, ev, id, quants, floors, inner);
        AgreementNegates(table, ev, Guards(table, quants, floors, inner), LeafTruth(table, ev, id, quants, inner));
      }
    } else if h :| h in quants && table.absence(h) == Hard && h !in HardQuantities(table, inner) {
      HiddenDatum(table, quants, floors, inner, h);
    } else {
      var s :| s in quants && table.absence(s) == Soft;
      var h :| h in HardForced(table, inner);
      ForcedDatum(table, quants, inner, s, h);
    }
  }

  lemma AgreementNegates(table: Table, ev: Event, f: Formula, t: Tri)
    requires table.Valid() && Agrees(table, ev, f, t)
    ensures NegationSound(table, ev, f, t)
  {
    NegateAgrees(table, ev, f, t);
  }

  // ----- ternaries -----

  lemma UndecidedTernary(table: Table, ev: Event, g: Cond, t: Cond, e: Cond)
    requires Sat(Encode(table, t), OverSide, View(table, ev)) && Sat(Encode(table, e), OverSide, View(table, ev))
    ensures Sat(Encode(table, Ternary(g, t, e)), OverSide, View(table, ev)) <==>
      Sat(Encode(table, g), OverSide, View(table, ev)) || Sat(Negate(table, Encode(table, g)), OverSide, View(table, ev))
  {
    hide FAnd, FOr, Negate, Project, GuardPresence, GuardExistence;
    var v, eg, et, ee := View(table, ev), Encode(table, g), Encode(table, t), Encode(table, e);
    var thn, els := FAnd([eg, et]), FAnd([Negate(table, eg), ee]);
    FAndMeans([eg, et], OverSide, v);
    FAndMeans([Negate(table, eg), ee], OverSide, v);
    FOrMeans([thn, els], OverSide, v);
    PairSat(eg, et, v);
    PairSat(Negate(table, eg), ee, v);
    PairSat(thn, els, v);
  }

  lemma DecidedTernary(table: Table, ev: Event, g: Cond, t: Cond, e: Cond)
    requires table.Valid() && ValidEvent(table, ev)
    requires Compiled(table, g) && Compiled(table, t) && Compiled(table, e)
    requires Fits(table, ev, g) && Fits(table, ev, t) && Fits(table, ev, e)
    requires !Undecided(table, ev, g, t, e) && Truth(table, ev, Ternary(g, t, e)) == T
    ensures Sat(Encode(table, Ternary(g, t, e)), OverSide, View(table, ev))
  {
    hide Encode, Truth, Project;
    EncodeAgrees(table, ev, Ternary(g, t, e));
  }

  /** A ternary's over-projection holds whenever the interpreter says True if and
      only if the guard is readable, or a branch is not True, or what the guard's
      falsity forces is known, or the guard's own over-projection holds. */
  lemma TernaryExact(table: Table, ev: Event, g: Cond, t: Cond, e: Cond)
    requires table.Valid() && ValidEvent(table, ev)
    requires Compiled(table, g) && Compiled(table, t) && Compiled(table, e)
    requires Fits(table, ev, g) && Fits(table, ev, t) && Fits(table, ev, e)
    ensures (Truth(table, ev, Ternary(g, t, e)) == T
        ==> Sat(Encode(table, Ternary(g, t, e)), OverSide, View(table, ev)))
      <==> (Undecided(table, ev, g, t, e) ==>
        Known(ev, HardForced(table, Encode(table, g))) || Sat(Encode(table, g), OverSide, View(table, ev)))
  {
    hide Encode, Negate, Project, Compiled, Fits, LeafTruth, HardForced;
    if Undecided(table, ev, g, t, e) {
      EncodeAgrees(table, ev, g);
      NegateMeans(table, ev, Encode(table, g));
      EncodeAgrees(table, ev, t);
      EncodeAgrees(table, ev, e);
      UndecidedTernary(table, ev, g, t, e);
    } else if Truth(table, ev, Ternary(g, t, e)) == T {
      DecidedTernary(table, ev, g, t, e);
    }
  }

  /** Wherever a ternary stands, under negations and connectives, its encoding
      agrees with the interpreter if and only if it survives being undecided. */
  lemma TernaryAgreesExact(table: Table, ev: Event, g: Cond, t: Cond, e: Cond)
    requires table.Valid() && ValidEvent(table, ev)
    requires Compiled(table, g) && Compiled(table, t) && Compiled(table, e)
    requires Fits(table, ev, g) && Fits(table, ev, t) && Fits(table, ev, e)
    ensures var c := Ternary(g, t, e);
      Agrees(table, ev, Encode(table, c), Truth(table, ev, c))
      <==> (Undecided(table, ev, g, t, e) ==> Retained(table, ev, Encode(table, c)))
  {
    hide Agrees, Compiled, Fits, LeafTruth, GuardPresence, GuardExistence, FOr, FAnd, Negate, Retained;
    EncodeAgrees(table, ev, g);
    EncodeAgrees(table, ev, t);
    EncodeAgrees(table, ev, e);
    TernaryAgrees(table, ev, Encode(table, g), Encode(table, t), Encode(table, e),
      Truth(table, ev, g), Truth(table, ev, t), Truth(table, ev, e));
    if Undecided(table, ev, g, t, e) { SurvivorAgrees(table, ev, Encode(table, Ternary(g, t, e))); }
  }

  lemma PairSat(a: Formula, b: Formula, v: Valuation)
    ensures (forall i :: 0 <= i < 2 ==> Sat([a, b][i], OverSide, v)) <==> Sat(a, OverSide, v) && Sat(b, OverSide, v)
    ensures (exists i :: 0 <= i < 2 && Sat([a, b][i], OverSide, v)) <==> Sat(a, OverSide, v) || Sat(b, OverSide, v)
  {
    var s := [a, b];
    assert s[0] == a && s[1] == b;
  }

  // ----- concrete failures -----

  /** Odd ids are data: 1, 5, 9 and so on external functions' values, 3, 7 and so
      on event scalars. The indicator of q is 2q + 2. */
  const SAMPLE := Table(
    q => if q % 2 == 0 then Never else if q % 4 == 1 then Soft else Hard,
    q => 2 * q + 2,
    p => if p % 2 == 0 && p >= 2 then Some((p - 2) / 2) else None)

  lemma SampleInverse(q: QuantityId)
    ensures SAMPLE.innerOf(SAMPLE.presentOf(q)) == Some(q)
  {
    var p := 2 * q + 2;
    assert p % 2 == 0 && (p - 2) / 2 == q;
  }

  lemma SampleIndicator(p: QuantityId)
    ensures SAMPLE.IsIndicator(p)
  {
  }

  lemma SampleValid()
    ensures SAMPLE.Valid()
  {
    forall q: QuantityId { SampleInverse(q); }
    forall p: QuantityId { SampleIndicator(p); }
  }

  /** `min` of two guarded arguments, both compared from above. */
  function Either(p: QuantityId, a: Formula, r: QuantityId, b: Formula): Formula {
    Or([And([IndicatorAtom(p), a]), And([IndicatorAtom(r), b])])
  }

  lemma GuardedArgument(table: Table, p: QuantityId, a: Formula, q: QuantityId)
    requires table.Valid() && table.innerOf(p).Some? && Clause(table, a) && IsExact(a)
    ensures Clause(table, And([IndicatorAtom(p), a])) && IsExact(And([IndicatorAtom(p), a]))
    ensures HardQuantities(table, And([IndicatorAtom(p), a])) == HardQuantities(table, a)
    ensures q in ForcedByFalsity(table, a) ==> q in ForcedByFalsity(table, And([IndicatorAtom(p), a]))
  {
    var items := [IndicatorAtom(p), a];
    assert items[0] == IndicatorAtom(p) && items[1] == a && a in items;
    assert table.IsIndicator(p);
    assert HardQuantities(table, items[0]) == {};
    ForcedByAllMember(table, items, q);
  }

  lemma EitherCompiled(table: Table, p: QuantityId, a: Formula, r: QuantityId, b: Formula, q: QuantityId)
    requires table.Valid() && table.innerOf(p).Some? && table.innerOf(r).Some?
    requires Clause(table, a) && Clause(table, b) && IsExact(a) && IsExact(b)
    requires q in ForcedByFalsity(table, b)
    ensures Clause(table, Either(p, a, r, b)) && IsExact(Either(p, a, r, b))
    ensures HardQuantities(table, Either(p, a, r, b)) <= HardQuantities(table, a) + HardQuantities(table, b)
    ensures q in ForcedByFalsity(table, Either(p, a, r, b))
  {
    GuardedArgument(table, p, a, q);
    GuardedArgument(table, r, b, q);
    EitherOf(table, And([IndicatorAtom(p), a]), And([IndicatorAtom(r), b]), q);
  }

  lemma EitherOf(table: Table, l: Formula, r: Formula, q: QuantityId)
    requires Clause(table, l) && Clause(table, r) && IsExact(l) && IsExact(r) && q in ForcedByFalsity(table, r)
    ensures Clause(table, Or([l, r])) && IsExact(Or([l, r])) && q in ForcedByFalsity(table, Or([l, r]))
    ensures HardQuantities(table, Or([l, r])) <= HardQuantities(table, l) + HardQuantities(table, r)
  {
    var items := [l, r];
    assert items[0] == l && items[1] == r && l in items && r in items;
  }

  function Below(q: QuantityId, bound: real): Formula { Atom(Single(q, Lt, bound)) }

  lemma BelowPlain(table: Table, q: QuantityId, bound: real)
    requires table.innerOf(q) == None
    ensures Clause(table, Below(q, bound)) && IsExact(Below(q, bound)) && HardQuantities(table, Below(q, bound)) <= {q}
    ensures table.absence(q) == Hard ==> q in ForcedByFalsity(table, Below(q, bound))
  {
    assert Term(1.0, q) in Below(q, bound).atom.terms;
  }

  /** `min(f, s) < 5` over an external function f and an event scalar s. */
  function Minimum(): Formula { Either(4, Below(1, 5.0), 8, Below(3, 5.0)) }

  /** Rejecting `min(f, s) < 5` keeps the event where neither has a value, and
      the negated encoding loses it. */
  lemma MinimumLosesEvent()
    ensures SAMPLE.Valid() && ValidEvent(SAMPLE, Lacking({1, 3}))
    ensures Truth(SAMPLE, Lacking({1, 3}), Leaf(0, {1, 3}, [], Minimum())) == F
    ensures !Sat(Encode(SAMPLE, Not(Leaf(0, {1, 3}, [], Minimum()))), OverSide, View(SAMPLE, Lacking({1, 3})))
  {
    SampleValid();
    BelowPlain(SAMPLE, 1, 5.0);
    BelowPlain(SAMPLE, 3, 5.0);
    EitherCompiled(SAMPLE, 4, Below(1, 5.0), 8, Below(3, 5.0), 3);
    SoftBesideForced(SAMPLE, {1, 3}, Minimum(), 1, 3);
  }

  lemma SoftBesideForced(table: Table, quants: set<QuantityId>, inner: Formula, s: QuantityId, h: QuantityId)
    requires table.Valid() && LeafCompiled(table, quants, [], inner)
    requires s in quants && table.absence(s) == Soft && h in HardForced(table, inner)
    ensures ValidEvent(table, Lacking({s, h}))
    ensures Truth(table, Lacking({s, h}), Leaf(0, quants, [], inner)) == F
    ensures !Sat(Encode(table, Not(Leaf(0, quants, [], inner))), OverSide, View(table, Lacking({s, h})))
  {
    hide LeafCompiled, LeafTruth, Project, Negate, GuardPresence, GuardExistence, HardForced, ValidEvent;
    ForcedDatum(table, quants, inner, s, h);
  }

  /** `s - s < 1` over an event scalar s: its coefficient cancels, so the atom
      mentions nothing and the negation is claimed of an event that leaves the
      comparison unreadable. */
  lemma CancelledClaimsEvent()
    ensures SAMPLE.Valid() && ValidEvent(SAMPLE, Lacking({3}))
    ensures Truth(SAMPLE, Lacking({3}), Leaf(0, {3}, [], Atom(LinAtom([], Lt, 1.0)))) == U
    ensures Sat(Encode(SAMPLE, Not(Leaf(0, {3}, [], Atom(LinAtom([], Lt, 1.0))))), UnderSide, View(SAMPLE, Lacking({3})))
  {
    SampleValid();
    ConstantAtom(SAMPLE);
    HiddenBesideAtoms(SAMPLE, {3}, Atom(LinAtom([], Lt, 1.0)), 3);
  }

  lemma ConstantAtom(table: Table)
    ensures Clause(table, Atom(LinAtom([], Lt, 1.0))) && HardQuantities(table, Atom(LinAtom([], Lt, 1.0))) == {}
    ensures IsExact(Atom(LinAtom([], Lt, 1.0)))
  {
  }

  lemma HiddenBesideAtoms(table: Table, quants: set<QuantityId>, inner: Formula, h: QuantityId)
    requires table.Valid() && LeafCompiled(table, quants, [], inner)
    requires h in quants && table.absence(h) == Hard && h !in HardQuantities(table, inner)
    ensures ValidEvent(table, Lacking({h}))
    ensures Truth(table, Lacking({h}), Leaf(0, quants, [], inner)) == U
    ensures Sat(Encode(table, Not(Leaf(0, quants, [], inner))), UnderSide, View(table, Lacking({h})))
  {
    hide LeafCompiled, LeafTruth, Project, Negate, GuardPresence, GuardExistence, HardQuantities, ValidEvent;
    HiddenDatum(table, quants, [], inner, h);
  }

  /** `s < 5 ? true : true` over a missing event scalar s: the interpreter says
      True, and the encoding's over-projection fails. */
  lemma TernaryLosesEvent()
    ensures SAMPLE.Valid() && ValidEvent(SAMPLE, Lacking({3}))
    ensures Truth(SAMPLE, Lacking({3}), Ternary(Leaf(0, {3}, [], Below(3, 5.0)), Const(true), Const(true))) == T
    ensures !Sat(Encode(SAMPLE, Ternary(Leaf(0, {3}, [], Below(3, 5.0)), Const(true), Const(true))), OverSide,
      View(SAMPLE, Lacking({3})))
  {
    SampleValid();
    BelowPlain(SAMPLE, 3, 5.0);
    UnreadableGuard(SAMPLE, {3}, Below(3, 5.0), 3);
  }

  lemma UnreadableGuard(table: Table, quants: set<QuantityId>, inner: Formula, h: QuantityId)
    requires table.Valid() && LeafCompiled(table, quants, [], inner) && !HasSoft(table, quants)
    requires h in quants && h in HardForced(table, inner) && Clause(table, inner)
    ensures ValidEvent(table, Lacking({h}))
    ensures Truth(table, Lacking({h}), Ternary(Leaf(0, quants, [], inner), Const(true), Const(true))) == T
    ensures !Sat(Encode(table, Ternary(Leaf(0, quants, [], inner), Const(true), Const(true))), OverSide,
      View(table, Lacking({h})))
  {
    hide FAnd, HardQuantities, Project, Negate, Clause, ForcedByFalsity;
    var ev, g := Lacking({h}), Leaf(0, quants, [], inner);
    assert table.absence(h) == Hard;
    LeafGuards(table, ev, quants, [], inner);
    GuardsForce(table, quants, inner, h);
    NegateMeans(table, ev, Encode(table, g));
    assert Sat(True, OverSide, View(table, ev)) by { TrueHolds(View(table, ev)); }
    UndecidedTernary(table, ev, g, Const(true), Const(true));
  }

  lemma TrueHolds(v: Valuation)
    ensures Sat(True, OverSide, v)
  {
  }
}
