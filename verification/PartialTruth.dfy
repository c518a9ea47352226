/** The encoding of a condition agrees with the partial interpreter on every
    event, whatever is absent, under arbitrarily nested negation. */
module PartialTruth {
  import opened Linear
  import opened Formulas
  import opened Saturation
  import opened Conditions
  import opened Negation

  ghost predicate Known(ev: Event, qs: set<QuantityId>) { forall q | q in qs :: ev.has(q) }

  /** A formula agrees with a truth value on an event: the over-projection holds
      of every True, only a True satisfies the under-projection, and with all
      hard data present a failing over-projection means False. The last two
      clauses say that False (True) was decided by reading every forced datum. */
  ghost predicate Agrees(table: Table, ev: Event, f: Formula, t: Tri) {
    var v := View(table, ev);
    && Shaped(table, f)
    && (t == T ==> Sat(f, OverSide, v))
    && (Sat(f, UnderSide, v) ==> t == T)
    && (Known(ev, HardQuantities(table, f)) && !Sat(f, OverSide, v) ==> t == F)
    && (t == F ==> Known(ev, HardForced(table, f)))
    && (t == T ==> Known(ev, HardForced(table, FNot(f))))
  }

  ghost predicate AllAgree(table: Table, ev: Event, fs: seq<Formula>, ts: seq<Tri>) {
    |fs| == |ts| && forall i :: 0 <= i < |fs| ==> Agrees(table, ev, fs[i], ts[i])
  }

  // ----- conjunction and disjunction -----

  lemma AndForcesKnown(table: Table, ev: Event, fs: seq<Formula>, ts: seq<Tri>, i: nat, q: QuantityId)
    requires AllAgree(table, ev, fs, ts)
    requires i < |fs| && ts[i] == F && q in HardForced(table, FAnd(fs))
    ensures ev.has(q)
  {
    if fs[i] == False {
      assert fs[i] in fs;
      assert FAnd(fs) == False;
    } else {
      assert Sat(True, UnderSide, View(table, ev));
      ForcedOfAnd(table, fs, i, q);
    }
  }

  lemma OrForcesKnown(table: Table, ev: Event, fs: seq<Formula>, ts: seq<Tri>, q: QuantityId)
    requires AllAgree(table, ev, fs, ts)
    requires (forall i :: 0 <= i < |ts| ==> ts[i] == F) && q in HardForced(table, FOr(fs))
    ensures ev.has(q)
  {
    ForcedOfOr(table, fs, q);
    var i :| 0 <= i < |fs| && q in ForcedByFalsity(table, fs[i]);
    assert ts[i] == F && q in HardForced(table, fs[i]);
  }

  lemma AndFails(table: Table, ev: Event, fs: seq<Formula>, ts: seq<Tri>)
    requires AllAgree(table, ev, fs, ts)
    requires Known(ev, HardQuantities(table, FAnd(fs)))
    requires !Sat(FAnd(fs), OverSide, View(table, ev))
    ensures exists i :: 0 <= i < |ts| && ts[i] == F
  {
    hide FAnd, HardQuantities, FNot, Shaped, HardForced;
    var v := View(table, ev);
    FAndMeans(fs, OverSide, v);
    if i :| 0 <= i < |fs| && fs[i] == False {
      assert Agrees(table, ev, fs[i], ts[i]);
      NothingHard(table);
      assert ts[i] == F;
    } else {
      HardOfAnd(table, fs);
      var i :| 0 <= i < |fs| && !Sat(fs[i], OverSide, v);
      assert fs[i] in fs;
      assert HardQuantities(table, fs[i]) <= HardOfAll(table, fs);
      assert Agrees(table, ev, fs[i], ts[i]);
      assert ts[i] == F;
    }
  }

  lemma NothingHard(table: Table)
    ensures HardQuantities(table, True) == {} && HardQuantities(table, False) == {}
  {
  }

  lemma OrFails(table: Table, ev: Event, fs: seq<Formula>, ts: seq<Tri>)
    requires AllAgree(table, ev, fs, ts)
    requires Known(ev, HardQuantities(table, FOr(fs)))
    requires !Sat(FOr(fs), OverSide, View(table, ev))
    ensures forall i :: 0 <= i < |ts| ==> ts[i] == F
  {
    hide FOr, HardQuantities, FNot, Shaped, HardForced;
    var v := View(table, ev);
    FOrMeans(fs, OverSide, v);
    assert Sat(True, OverSide, v);
    HardOfOr(table, fs);
    forall i | 0 <= i < |ts| ensures ts[i] == F {
      assert fs[i] in fs;
      assert HardQuantities(table, fs[i]) <= HardOfAll(table, fs);
      assert Agrees(table, ev, fs[i], ts[i]);
    }
  }

  lemma AllNotForced(table: Table, ev: Event, fs: seq<Formula>, ts: seq<Tri>, q: QuantityId)
    requires AllAgree(table, ev, fs, ts)
    requires forall i :: 0 <= i < |ts| ==> ts[i] == T
    requires q in HardForced(table, FNot(FAnd(fs)))
    ensures ev.has(q)
  {
    FNotOfAnd(fs);
    ForcedOfOr(table, FNotAll(fs), q);
    var i :| 0 <= i < |fs| && q in ForcedByFalsity(table, FNot(fs[i]));
    assert ts[i] == T && q in HardForced(table, FNot(fs[i]));
  }

  lemma SomeNotForced(table: Table, ev: Event, fs: seq<Formula>, ts: seq<Tri>, i: nat, q: QuantityId)
    requires AllAgree(table, ev, fs, ts)
    requires i < |fs| && ts[i] == T && q in HardForced(table, FNot(FOr(fs)))
    ensures ev.has(q)
  {
    if fs[i] == True {
      assert fs[i] in fs;
      assert FOr(fs) == True;
    } else {
      assert !Sat(False, OverSide, View(table, ev));
      ClauseNot(table, fs[i]);
      FNotOfOr(fs);
      ForcedOfAnd(table, FNotAll(fs), i, q);
      assert q in HardForced(table, FNot(fs[i]));
    }
  }

  /** Kleene conjunction of agreeing parts. */
  lemma AndAgrees(table: Table, ev: Event, fs: seq<Formula>, ts: seq<Tri>, t: Tri)
    requires AllAgree(table, ev, fs, ts)
    requires t == F <==> exists i :: 0 <= i < |ts| && ts[i] == F
    requires t == T <==> forall i :: 0 <= i < |ts| ==> ts[i] == T
    ensures Agrees(table, ev, FAnd(fs), t)
  {
    hide FAnd, HardQuantities, FNot, Shaped, HardForced, Project;
    var v := View(table, ev);
    ShapedAnd(table, fs);
    FAndMeans(fs, OverSide, v);
    FAndMeans(fs, UnderSide, v);
    if Known(ev, HardQuantities(table, FAnd(fs))) && !Sat(FAnd(fs), OverSide, v) {
      AndFails(table, ev, fs, ts);
    }
    forall q | t == F && q in HardForced(table, FAnd(fs)) ensures ev.has(q) {
      var i :| 0 <= i < |ts| && ts[i] == F;
      AndForcesKnown(table, ev, fs, ts, i, q);
    }
    forall q | t == T && q in HardForced(table, FNot(FAnd(fs))) ensures ev.has(q) {
      AllNotForced(table, ev, fs, ts, q);
    }
  }

  /** Kleene disjunction of agreeing parts. */
  lemma OrAgrees(table: Table, ev: Event, fs: seq<Formula>, ts: seq<Tri>, t: Tri)
    requires AllAgree(table, ev, fs, ts)
    requires t == T <==> exists i :: 0 <= i < |ts| && ts[i] == T
    requires t == F <==> forall i :: 0 <= i < |ts| ==> ts[i] == F
    ensures Agrees(table, ev, FOr(fs), t)
  {
    hide FOr, HardQuantities, FNot, Shaped, HardForced, Project;
    var v := View(table, ev);
    ShapedOr(table, fs);
    FOrMeans(fs, OverSide, v);
    FOrMeans(fs, UnderSide, v);
    if Known(ev, HardQuantities(table, FOr(fs))) && !Sat(FOr(fs), OverSide, v) {
      OrFails(table, ev, fs, ts);
    }
    forall q | t == F && q in HardForced(table, FOr(fs)) ensures ev.has(q) {
      OrForcesKnown(table, ev, fs, ts, q);
    }
    forall q | t == T && q in HardForced(table, FNot(FOr(fs))) ensures ev.has(q) {
      var i :| 0 <= i < |ts| && ts[i] == T;
      SomeNotForced(table, ev, fs, ts, i, q);
    }
  }

  // ----- guards -----

  ghost predicate EachRead(ids: seq<QuantityId>, v: Valuation) { forall i :: 0 <= i < |ids| ==> v(ids[i]) >= 1.0 }

  /** A conjunction behind indicators holds when they all read 1 and it holds. */
  lemma GuardMeans(ids: seq<QuantityId>, f: Formula, p: Polarity, v: Valuation)
    ensures Sat(FAnd(IndicatorAtoms(ids) + [f]), p, v) <==> EachRead(ids, v) && Sat(f, p, v)
  {
    hide FAnd;
    var parts := IndicatorAtoms(ids) + [f];
    FAndMeans(parts, p, v);
    forall i | 0 <= i < |ids| ensures Sat(parts[i], p, v) <==> v(ids[i]) >= 1.0 {
      SingleIsMake(ids[i], Ge, 1.0);
    }
    assert parts[|ids|] == f;
  }

  lemma IndicatorReads(table: Table, ev: Event, q: QuantityId)
    requires table.Valid()
    ensures View(table, ev)(table.presentOf(q)) >= 1.0 <==> ev.has(q)
  {
    assert table.IsIndicator(table.presentOf(q));
  }

  lemma ReadMeansKnown(table: Table, ev: Event, qs: set<QuantityId>)
    requires table.Valid()
    ensures AllRead(PresentIds(table, qs), View(table, ev)) <==> Known(ev, qs)
  {
    forall q { IndicatorReads(table, ev, q); }
    if AllRead(PresentIds(table, qs), View(table, ev)) {
      forall q | q in qs ensures ev.has(q) { assert table.presentOf(q) in PresentIds(table, qs); }
    }
  }

  lemma GuardedMeans(table: Table, ev: Event, qs: set<QuantityId>, n: Formula, p: Polarity)
    requires table.Valid()
    ensures Sat(Guarded(PresentIds(table, qs), n), p, View(table, ev)) <==> Known(ev, qs) && Sat(n, p, View(table, ev))
  {
    hide FAnd, View, DropAbsent;
    var ids, v := PresentIds(table, qs), View(table, ev);
    ReadMeansKnown(table, ev, qs);
    GuardMeans(Ascending(ids), DropAbsent(n, ids), p, v);
    assert EachRead(Ascending(ids), v) <==> AllRead(ids, v) by {
      if EachRead(Ascending(ids), v) {
        forall x | x in ids ensures v(x) >= 1.0 {
          assert x in Ascending(ids);
        }
      }
    }
    if AllRead(ids, v) { DropMeans(n, ids, p, v); }
  }

  lemma PositiveIndicator(table: Table, p: QuantityId)
    requires table.innerOf(p).Some?
    ensures Positive(table, IndicatorAtom(p))
  {
  }

  /** Guards are invisible to the hard and forced quantities, and keep the shape. */
  lemma GuardKeeps(table: Table, ids: seq<QuantityId>, f: Formula)
    requires table.Valid() && Clause(table, f)
    requires forall i :: 0 <= i < |ids| ==> table.innerOf(ids[i]).Some?
    ensures Clause(table, FAnd(IndicatorAtoms(ids) + [f]))
    ensures HardQuantities(table, FAnd(IndicatorAtoms(ids) + [f])) == HardQuantities(table, f)
    ensures HardForced(table, FAnd(IndicatorAtoms(ids) + [f])) <= HardForced(table, f)
    ensures HardForced(table, FNot(FAnd(IndicatorAtoms(ids) + [f]))) <= HardForced(table, FNot(f))
  {
    hide FAnd, Clause, FNot, Positive;
    var parts := IndicatorAtoms(ids) + [f];
    assert parts[|ids|] == f;
    assert f != False && f != True by { ConstNotClause(table); }
    forall i | 0 <= i < |ids| ensures Conjunct(table, parts[i]) && HardQuantities(table, parts[i]) == {} {
      PositiveIndicator(table, ids[i]);
      assert table.IsIndicator(ids[i]);
    }
    ClauseOfAnd(table, parts);
    HardOfAnd(table, parts);
    assert HardOfAll(table, parts) == HardQuantities(table, f);
    forall q | q in HardForced(table, FAnd(parts)) ensures q in HardForced(table, f) {
      ForcedOfAnd(table, parts, |ids|, q);
    }
    forall q | q in HardForced(table, FNot(FAnd(parts))) ensures q in HardForced(table, FNot(f)) {
      FNotOfAnd(parts);
      ForcedOfOr(table, FNotAll(parts), q);
      var i :| 0 <= i < |parts| && q in ForcedByFalsity(table, FNot(parts[i]));
      if i < |ids| { NotForcedByIndicator(table, ids[i], q); }
    }
  }

  lemma ConstNotClause(table: Table)
    ensures !Clause(table, True) && !Clause(table, False)
  {
  }

  lemma NotForcedByIndicator(table: Table, p: QuantityId, q: QuantityId)
    requires table.Valid() && table.innerOf(p).Some? && q in ForcedByFalsity(table, FNot(IndicatorAtom(p)))
    ensures table.absence(q) != Hard
  {
    assert table.IsIndicator(p);
  }

  // ----- negation -----

  lemma SatNot(f: Formula, p: Polarity, v: Valuation)
    ensures Sat(FNot(f), p, v) <==> !Sat(f, Opposite(p), v)
  {
    NegationSwapsPolarity(f, p);
    QNotFlips(Project(f, Opposite(p)), v);
  }

  lemma PlainNotAgrees(table: Table, ev: Event, f: Formula, t: Tri)
    requires Agrees(table, ev, f, t) && HardQuantities(table, f) == {}
    ensures Agrees(table, ev, FNot(f), TriNot(t))
  {
    hide FNot, HardQuantities, Shaped, ForcedByFalsity, Project;
    var v := View(table, ev);
    ShapedNot(table, f);
    SatNot(f, OverSide, v);
    SatNot(f, UnderSide, v);
    HardOfNot(table, f);
    FNotInvolutive(f);
    forall q | q in HardForced(table, f) ensures false { HardForcedIsHard(table, f, q); }
    forall q | q in HardForced(table, FNot(f)) ensures false { HardForcedIsHard(table, FNot(f), q); }
  }

  /** What guarding a clause's negation leaves to read. */
  lemma GuardedKeeps(table: Table, qs: set<QuantityId>, n: Formula)
    requires table.Valid() && Clause(table, n)
    ensures Clause(table, Guarded(PresentIds(table, qs), n))
    ensures HardQuantities(table, Guarded(PresentIds(table, qs), n)) == HardQuantities(table, n)
    ensures HardForced(table, Guarded(PresentIds(table, qs), n)) <= HardForced(table, n)
  {
    hide FAnd, Clause, DropAbsent, ForcedByFalsity, HardQuantities, FNot;
    var ids := PresentIds(table, qs);
    DropKeeps(table, n, ids);
    GuardKeeps(table, Ascending(ids), DropAbsent(n, ids));
    forall q | q in HardForced(table, DropAbsent(n, ids)) ensures q in HardForced(table, n) {
      DropForces(table, n, ids, q);
    }
  }

  lemma SamePresentIds(table: Table, a: set<QuantityId>, b: set<QuantityId>)
    requires table.Valid() && PresentIds(table, a) == PresentIds(table, b)
    ensures a == b
  {
    forall q | q in a ensures q in b {
      assert table.presentOf(q) in PresentIds(table, b);
      var r :| r in b && table.presentOf(r) == table.presentOf(q);
      assert table.innerOf(table.presentOf(r)) == Some(r) && table.innerOf(table.presentOf(q)) == Some(q);
    }
    forall q | q in b ensures q in a {
      assert table.presentOf(q) in PresentIds(table, a);
      var r :| r in a && table.presentOf(r) == table.presentOf(q);
      assert table.innerOf(table.presentOf(r)) == Some(r) && table.innerOf(table.presentOf(q)) == Some(q);
    }
  }

  lemma HardHasClause(table: Table, f: Formula)
    requires Shaped(table, f) && HardQuantities(table, f) != {}
    ensures Clause(table, f)
  {
  }

  lemma DualUnforced(table: Table, plus: Formula, minus: Formula)
    ensures HardForced(table, Dual(plus, minus, 0)) == {} && HardForced(table, FNot(Dual(plus, minus, 0))) == {}
  {
  }

  /** Negation with every false-route reading the same data. */
  lemma ExactNotAgrees(table: Table, ev: Event, f: Formula, t: Tri, hard: set<QuantityId>)
    requires table.Valid() && Agrees(table, ev, f, t)
    requires hard == HardQuantities(table, f) == HardForced(table, f) != {}
    ensures Agrees(table, ev, Guarded(PresentIds(table, hard), FNot(f)), TriNot(t))
  {
    hide FNot, HardQuantities, Clause, ForcedByFalsity, Project, Guarded;
    var v, n, g := View(table, ev), FNot(f), Guarded(PresentIds(table, hard), FNot(f));
    HardHasClause(table, f);
    ClauseNot(table, f);
    HardOfNot(table, f);
    GuardedKeeps(table, hard, n);
    GuardedMeans(table, ev, hard, n, OverSide);
    GuardedMeans(table, ev, hard, n, UnderSide);
    SatNot(f, OverSide, v);
    SatNot(f, UnderSide, v);
    HardOfNot(table, g);
    forall q | q in HardForced(table, FNot(g)) ensures q in hard { HardForcedIsHard(table, FNot(g), q); }
  }

  /** Negation that can only be bracketed. */
  lemma BracketNotAgrees(table: Table, ev: Event, f: Formula, t: Tri, forced: set<QuantityId>, hard: set<QuantityId>)
    requires table.Valid() && Agrees(table, ev, f, t)
    requires forced == HardForced(table, f) && hard == HardQuantities(table, f) != {}
    ensures Agrees(table, ev,
      Dual(Guarded(PresentIds(table, forced), FNot(f)), Guarded(PresentIds(table, hard), FNot(f)), 0), TriNot(t))
  {
    hide FNot, HardQuantities, Clause, ForcedByFalsity, Project, Guarded, HardForced;
    var v, n := View(table, ev), FNot(f);
    var plus, minus := Guarded(PresentIds(table, forced), n), Guarded(PresentIds(table, hard), n);
    HardHasClause(table, f);
    ClauseNot(table, f);
    HardOfNot(table, f);
    GuardedKeeps(table, forced, n);
    GuardedKeeps(table, hard, n);
    GuardedMeans(table, ev, forced, n, OverSide);
    GuardedMeans(table, ev, hard, n, UnderSide);
    SatNot(f, OverSide, v);
    SatNot(f, UnderSide, v);
    DualUnforced(table, plus, minus);
    DualParts(table, plus, minus, v);
    forall q | q in forced ensures q in hard { ForcedSubset(table, f, q); }
  }

  lemma ForcedSubset(table: Table, f: Formula, q: QuantityId)
    requires q in HardForced(table, f)
    ensures q in HardQuantities(table, f)
  {
    HardForcedIsHard(table, f, q);
  }

  lemma DualParts(table: Table, plus: Formula, minus: Formula, v: Valuation)
    ensures Sat(Dual(plus, minus, 0), OverSide, v) == Sat(plus, OverSide, v)
    ensures Sat(Dual(plus, minus, 0), UnderSide, v) == Sat(minus, UnderSide, v)
    ensures HardQuantities(table, Dual(plus, minus, 0)) == HardQuantities(table, plus) + HardQuantities(table, minus)
    ensures Clause(table, plus) && Clause(table, minus) ==> Clause(table, Dual(plus, minus, 0))
  {
  }

  /** The hard quantities among those that falsity forces, as `negate` filters them. */
  lemma ForcedTimesHard(table: Table, f: Formula)
    ensures ForcedByFalsity(table, f) * HardQuantities(table, f) == HardForced(table, f)
  {
    forall q | q in ForcedByFalsity(table, f) && table.absence(q) == Hard { HardForcedIsHard(table, f, q); }
    forall q | q in HardQuantities(table, f) ensures table.absence(q) == Hard { HardIsHard(table, f, q); }
  }

  lemma {:induction false} HardIsHard(table: Table, f: Formula, q: QuantityId)
    requires q in HardQuantities(table, f)
    ensures table.absence(q) == Hard
  {
    match f
    case And(items) =>
      var x :| x in items && q in HardQuantities(table, x);
      HardIsHard(table, x, q);
    case Or(items) =>
      var x :| x in items && q in HardQuantities(table, x);
      HardIsHard(table, x, q);
    case Dual(plus, minus, _) =>
      if q in HardQuantities(table, plus) { HardIsHard(table, plus, q); } else { HardIsHard(table, minus, q); }
    case _ =>
  }

  /** `negate` turns agreement with a truth value into agreement with its negation. */
  lemma NegateAgrees(table: Table, ev: Event, f: Formula, t: Tri)
    requires table.Valid() && Agrees(table, ev, f, t)
    ensures Agrees(table, ev, Negate(table, f), TriNot(t))
  {
    hide FNot, HardQuantities, Clause, ForcedByFalsity, Project, Guarded, HardForced, Agrees;
    var hard := HardQuantities(table, f);
    if hard == {} {
      PlainNotAgrees(table, ev, f, t);
    } else {
      ForcedTimesHard(table, f);
      var forced := HardForced(table, f);
      if PresentIds(table, forced) == PresentIds(table, hard) {
        SamePresentIds(table, forced, hard);
        ExactNotAgrees(table, ev, f, t, hard);
      } else {
        BracketNotAgrees(table, ev, f, t, forced, hard);
      }
    }
  }

  // ----- comparisons -----

  ghost predicate HasSoft(table: Table, quants: set<QuantityId>) { exists q | q in quants :: table.absence(q) == Soft }

  ghost predicate NeverAbsent(table: Table, quants: set<QuantityId>) { forall q | q in quants :: !table.MayBeAbsent(q) }

  ghost predicate FloorsPlain(table: Table, floors: seq<Floor>) {
    forall i :: 0 <= i < |floors| ==> !table.MayBeAbsent(floors[i].size) && table.innerOf(floors[i].size) == None
  }

  ghost predicate FloorsHold(floors: seq<Floor>, v: Valuation) {
    forall i :: 0 <= i < |floors| ==> AtomHolds(floors[i].AsAtom(), v)
  }

  /** A compiled comparison: exact, with size guards over plain sizes, mentioning
      no event datum that it does not read, and guarded only if not constant. */
  ghost predicate LeafCompiled(table: Table, quants: set<QuantityId>, floors: seq<Floor>, inner: Formula) {
    && IsExact(inner) && Shaped(table, inner)
    && (IsConst(inner) ==> floors == [] && NeverAbsent(table, quants))
    && HardQuantities(table, inner) <= quants
    && FloorsPlain(table, floors)
  }

  /** Every event datum that the comparison reads shows in its atoms, and if it
      also reads element properties, no event datum is forced by its falsity. */
  ghost predicate LeafTransparent(table: Table, quants: set<QuantityId>, floors: seq<Floor>, inner: Formula) {
    && (forall q | q in quants && table.absence(q) == Hard :: q in HardQuantities(table, inner))
    && (HasSoft(table, quants) && floors == [] ==> HardForced(table, inner) == {})
  }

  lemma {:induction false} ExactParts(parts: seq<Formula>)
    requires forall i :: 0 <= i < |parts| ==> IsExact(parts[i])
    ensures IsExact(FAnd(parts))
  {
    forall x | x in AndParts(parts) ensures IsExact(x) {
      AndPartsMember(parts, x);
    }
  }

  /** Presence guards on an exact formula ask for every quantity they guard. */
  lemma GuardPresenceMeans(table: Table, ev: Event, quants: set<QuantityId>, f: Formula, p: Polarity)
    requires table.Valid() && ValidEvent(table, ev)
    ensures Sat(GuardPresence(table, quants, f), p, View(table, ev)) <==>
      (IsExact(f) ==> Known(ev, quants)) && Sat(f, p, View(table, ev))
  {
    hide FAnd, Project;
    var v, needed := View(table, ev), set q | q in quants && table.MayBeAbsent(q);
    var order := Ascending(needed);
    var ids := seq(|order|, i requires 0 <= i < |order| => table.presentOf(order[i]));
    GuardMeans(ids, f, p, v);
    assert EachRead(ids, v) <==> Known(ev, quants) by {
      forall i | 0 <= i < |order| ensures v(ids[i]) >= 1.0 <==> ev.has(order[i]) { IndicatorReads(table, ev, order[i]); }
      if EachRead(ids, v) {
        forall q | q in quants ensures ev.has(q) {
          if q in needed { assert q in order; }
        }
      }
      if Known(ev, quants) {
        forall i | 0 <= i < |ids| ensures v(ids[i]) >= 1.0 { assert order[i] in needed; }
      }
    }
  }

  /** What presence guards do to a comparison's shape and quantities. */
  lemma PresenceGuard(table: Table, quants: set<QuantityId>, f: Formula)
    requires table.Valid()
    requires IsExact(f) && Shaped(table, f) && (IsConst(f) ==> NeverAbsent(table, quants))
    ensures var g := GuardPresence(table, quants, f);
      && IsExact(g) && Shaped(table, g) && (IsConst(g) ==> g == f)
      && HardQuantities(table, g) == HardQuantities(table, f)
      && HardForced(table, g) <= HardForced(table, f)
      && HardForced(table, FNot(g)) <= HardForced(table, FNot(f))
  {
    hide FAnd, FNot, HardQuantities, HardForced, Clause;
    var order := Ascending(set q | q in quants && table.MayBeAbsent(q));
    if order != [] {
      var ids := seq(|order|, i requires 0 <= i < |order| => table.presentOf(order[i]));
      assert order[0] in quants;
      forall i | 0 <= i < |ids| ensures table.innerOf(ids[i]).Some? { assert table.IsIndicator(ids[i]); }
      GuardKeeps(table, ids, f);
      GuardIsExact(ids, f);
      ConstNotClause(table);
    }
  }

  lemma GuardIsExact(ids: seq<QuantityId>, f: Formula)
    requires IsExact(f)
    ensures IsExact(FAnd(IndicatorAtoms(ids) + [f]))
  {
    ExactParts(IndicatorAtoms(ids) + [f]);
  }

  lemma GuardPresenceExact(table: Table, quants: set<QuantityId>, f: Formula)
    requires IsExact(f)
    ensures IsExact(GuardPresence(table, quants, f))
  {
    var order := Ascending(set p | p in quants && table.MayBeAbsent(p));
    GuardIsExact(seq(|order|, i requires 0 <= i < |order| => table.presentOf(order[i])), f);
  }

  lemma FloorAtom(table: Table, floor: Floor)
    requires !table.MayBeAbsent(floor.size) && table.innerOf(floor.size) == None
    ensures Clause(table, Atom(floor.AsAtom())) && HardQuantities(table, Atom(floor.AsAtom())) == {}
    ensures HardForced(table, Atom(floor.AsAtom())) == {} && HardForced(table, FNot(Atom(floor.AsAtom()))) == {}
  {
  }

  /** What size guards do, once presence implies them. */
  lemma ExistenceGuard(table: Table, v: Valuation, floors: seq<Floor>, f: Formula)
    requires table.Valid() && FloorsPlain(table, floors) && floors != []
    requires IsExact(f) && Clause(table, f)
    ensures var g := GuardExistence(floors, f);
      && Clause(table, g)
      && (forall p: Polarity :: Sat(g, p, v) <==> FloorsHold(floors, v) && Sat(f, p, v))
      && HardQuantities(table, g) == HardQuantities(table, f)
      && HardForced(table, g) == {}
      && HardForced(table, FNot(g)) <= HardForced(table, FNot(f))
  {
    hide FAnd, FNot, HardQuantities, Clause, Project, ForcedByFalsity;
    var guards := seq(|floors|, i requires 0 <= i < |floors| => Atom(floors[i].AsAtom()));
    var parts := guards + [f];
    var g := FAnd(parts);
    forall i | 0 <= i < |floors|
      ensures Conjunct(table, parts[i]) && HardQuantities(table, parts[i]) == {} && HardForced(table, parts[i]) == {}
      ensures HardForced(table, FNot(parts[i])) == {}
    {
      FloorAtom(table, floors[i]);
    }
    assert parts[|floors|] == f;
    ConstNotClause(table);
    FloorAtom(table, floors[0]);
    ClauseOfAnd(table, parts);
    HardOfAnd(table, parts);
    assert HardOfAll(table, parts) == HardQuantities(table, f);
    forall q | q in HardForced(table, g) ensures q in HardForced(table, parts[0]) {
      ForcedOfAnd(table, parts, 0, q);
    }
    forall q | q in HardForced(table, FNot(g)) ensures q in HardForced(table, FNot(f)) {
      FNotOfAnd(parts);
      ForcedOfOr(table, FNotAll(parts), q);
      var i :| 0 <= i < |parts| && q in ForcedByFalsity(table, FNot(parts[i]));
      assert q in HardForced(table, FNot(parts[i]));
    }
    forall p: Polarity ensures Sat(g, p, v) <==> FloorsHold(floors, v) && Sat(f, p, v) {
      FloorsMean(floors, f, p, v);
    }
  }

  lemma FloorsMean(floors: seq<Floor>, f: Formula, p: Polarity, v: Valuation)
    ensures Sat(FAnd(seq(|floors|, i requires 0 <= i < |floors| => Atom(floors[i].AsAtom())) + [f]), p, v)
      <==> FloorsHold(floors, v) && Sat(f, p, v)
  {
    hide FAnd;
    var parts := seq(|floors|, i requires 0 <= i < |floors| => Atom(floors[i].AsAtom())) + [f];
    FAndMeans(parts, p, v);
    assert parts[|floors|] == f;
    assert forall i :: 0 <= i < |floors| ==> parts[i] == Atom(floors[i].AsAtom());
  }

  /** Presence of an indexed property implies its size guard. */
  ghost predicate FloorsMet(table: Table, ev: Event, quants: set<QuantityId>, floors: seq<Floor>) {
    Known(ev, quants) ==> FloorsHold(floors, View(table, ev))
  }

  /** All guards of a comparison together. */
  lemma LeafGuards(table: Table, ev: Event, quants: set<QuantityId>, floors: seq<Floor>, inner: Formula)
    requires table.Valid() && ValidEvent(table, ev)
    requires LeafCompiled(table, quants, floors, inner) && FloorsMet(table, ev, quants, floors)
    ensures var f := GuardExistence(floors, GuardPresence(table, quants, inner));
      && Shaped(table, f)
      && (forall p: Polarity :: Sat(f, p, View(table, ev)) <==> Known(ev, quants) && Sat(inner, p, View(table, ev)))
      && HardQuantities(table, f) == HardQuantities(table, inner)
      && HardForced(table, f) <= HardForced(table, inner)
      && (floors != [] ==> HardForced(table, f) == {})
      && HardForced(table, FNot(f)) <= HardForced(table, FNot(inner))
  {
    hide FAnd, FNot, HardQuantities, HardForced, Clause, Project, GuardPresence;
    PresenceGuard(table, quants, inner);
    forall p: Polarity { GuardPresenceMeans(table, ev, quants, inner, p); }
    if floors != [] {
      ConstNotClause(table);
      ExistenceGuard(table, View(table, ev), floors, GuardPresence(table, quants, inner));
    }
  }

  /** A guarded comparison agrees with the interpreter's reading of it. */
  lemma LeafAgrees(table: Table, ev: Event, id: nat, quants: set<QuantityId>, floors: seq<Floor>, inner: Formula)
    requires table.Valid() && ValidEvent(table, ev)
    requires LeafCompiled(table, quants, floors, inner) && LeafTransparent(table, quants, floors, inner)
    requires FloorsMet(table, ev, quants, floors)
    ensures Agrees(table, ev, GuardExistence(floors, GuardPresence(table, quants, inner)),
      LeafTruth(table, ev, id, quants, inner))
  {
    hide FAnd, FNot, HardQuantities, HardForced, Clause, Project, GuardPresence, GuardExistence;
    var f, v := GuardExistence(floors, GuardPresence(table, quants, inner)), View(table, ev);
    LeafGuards(table, ev, quants, floors, inner);
    ExactProjectionsAgree(inner);
    HardOfNot(table, inner);
    forall q | q in HardForced(table, inner) { ForcedSubset(table, inner, q); }
    forall q | q in HardForced(table, FNot(inner)) { ForcedSubset(table, FNot(inner), q); }
    MissingMeansUnknown(table, ev, quants);
  }

  lemma MissingMeansUnknown(table: Table, ev: Event, quants: set<QuantityId>)
    requires ValidEvent(table, ev)
    ensures Known(ev, quants) <==> !Missing(table, ev, quants, Soft) && !Missing(table, ev, quants, Hard)
  {
    if !Known(ev, quants) {
      var q :| q in quants && !ev.has(q);
      assert table.MayBeAbsent(q);
    }
  }

  // ----- whole conditions -----

  /** Every comparison in the condition is compiled transparently. */
  ghost predicate Compiled(table: Table, c: Cond) {
    match c
    case Leaf(_, quants, floors, inner) =>
      LeafCompiled(table, quants, floors, inner) && LeafTransparent(table, quants, floors, inner)
    case Between(upper, lower, _) => Compiled(table, upper) && Compiled(table, lower)
    case All(parts) => forall x | x in parts :: Compiled(table, x)
    case Any(parts) => forall x | x in parts :: Compiled(table, x)
    case Not(arg) => Compiled(table, arg)
    case Ternary(g, t, e) => Compiled(table, g) && Compiled(table, t) && Compiled(table, e)
    case _ => true
  }

  /** The interpreter falls back on two true branches of an unreadable guard. */
  predicate Undecided(table: Table, ev: Event, g: Cond, t: Cond, e: Cond) {
    Truth(table, ev, g) == U && Truth(table, ev, t) == T && Truth(table, ev, e) == T
  }

  /** A bracket's reading lies between those of its two sides. */
  predicate Bracketed(upper: Tri, lower: Tri, reading: Tri) {
    && (reading == T ==> upper == T)
    && (lower == T ==> reading == T)
    && (upper == F ==> reading == F)
  }

  /** The encoding of an undecided ternary keeps the event, and what its truth
      would force is known. */
  ghost predicate Retained(table: Table, ev: Event, f: Formula) {
    Sat(f, OverSide, View(table, ev)) && Known(ev, HardForced(table, FNot(f)))
  }

  /** What the event must grant the condition: indexed properties come with
      their elements, comparisons are read as they are encoded, brackets bracket,
      and undecided ternaries survive. */
  ghost predicate Fits(table: Table, ev: Event, c: Cond) {
    match c
    case Leaf(_, quants, floors, _) => FloorsMet(table, ev, quants, floors)
    case Comparison(id, f) => Agrees(table, ev, f, ev.reading(id))
    case Between(upper, lower, id) =>
      && Fits(table, ev, upper) && Fits(table, ev, lower)
      && Bracketed(Truth(table, ev, upper), Truth(table, ev, lower), ev.reading(id))
    case All(parts) => forall x | x in parts :: Fits(table, ev, x)
    case Any(parts) => forall x | x in parts :: Fits(table, ev, x)
    case Not(arg) => Fits(table, ev, arg)
    case Ternary(g, t, e) =>
      && Fits(table, ev, g) && Fits(table, ev, t) && Fits(table, ev, e)
      && (Undecided(table, ev, g, t, e) ==> Retained(table, ev, Encode(table, c)))
    case _ => true
  }

  function EncodeAll(table: Table, cs: seq<Cond>): seq<Formula> {
    seq(|cs|, i requires 0 <= i < |cs| => Encode(table, cs[i]))
  }

  function TruthAll(table: Table, ev: Event, cs: seq<Cond>): seq<Tri> {
    seq(|cs|, i requires 0 <= i < |cs| => Truth(table, ev, cs[i]))
  }

  lemma BracketAgrees(table: Table, ev: Event, plus: Formula, minus: Formula, d: nat, upper: Tri, lower: Tri, t: Tri)
    requires Agrees(table, ev, plus, upper) && Agrees(table, ev, minus, lower) && Bracketed(upper, lower, t)
    ensures Agrees(table, ev, Dual(plus, minus, d), t)
  {
  }

  lemma PairAnd(table: Table, ev: Event, a: Formula, b: Formula, s: Tri, t: Tri, r: Tri)
    requires Agrees(table, ev, a, s) && Agrees(table, ev, b, t)
    requires (r == F <==> s == F || t == F) && (r == T <==> s == T && t == T)
    ensures Agrees(table, ev, FAnd([a, b]), r)
  {
    hide Agrees, FAnd;
    var ts := [s, t];
    assert s == ts[0] && t == ts[1];
    AndAgrees(table, ev, [a, b], ts, r);
  }

  lemma PairOr(table: Table, ev: Event, a: Formula, b: Formula, s: Tri, t: Tri, r: Tri)
    requires Agrees(table, ev, a, s) && Agrees(table, ev, b, t)
    requires (r == T <==> s == T || t == T) && (r == F <==> s == F && t == F)
    ensures Agrees(table, ev, FOr([a, b]), r)
  {
    hide Agrees, FOr;
    var ts := [s, t];
    assert s == ts[0] && t == ts[1];
    OrAgrees(table, ev, [a, b], ts, r);
  }

  function TriAnd(a: Tri, b: Tri): Tri { if a == F || b == F then F else if a == U || b == U then U else T }

  function TriOr(a: Tri, b: Tri): Tri { if a == T || b == T then T else if a == U || b == U then U else F }

  lemma TernaryAgrees(table: Table, ev: Event, g: Formula, t: Formula, e: Formula, tg: Tri, tt: Tri, te: Tri)
    requires table.Valid()
    requires Agrees(table, ev, g, tg) && Agrees(table, ev, t, tt) && Agrees(table, ev, e, te)
    ensures Agrees(table, ev, FOr([FAnd([g, t]), FAnd([Negate(table, g), e])]),
      TriOr(TriAnd(tg, tt), TriAnd(TriNot(tg), te)))
  {
    hide Agrees, FOr, FAnd, Negate;
    NegateAgrees(table, ev, g, tg);
    PairAnd(table, ev, g, t, tg, tt, TriAnd(tg, tt));
    PairAnd(table, ev, Negate(table, g), e, TriNot(tg), te, TriAnd(TriNot(tg), te));
    PairOr(table, ev, FAnd([g, t]), FAnd([Negate(table, g), e]), TriAnd(tg, tt), TriAnd(TriNot(tg), te),
      TriOr(TriAnd(tg, tt), TriAnd(TriNot(tg), te)));
  }

  /** The encoding of a condition agrees with the interpreter on every event
      that fits it, however deeply negations nest and whatever is absent. */
  lemma {:induction false} EncodeAgrees(table: Table, ev: Event, c: Cond)
    requires table.Valid() && ValidEvent(table, ev)
    requires Compiled(table, c) && Fits(table, ev, c)
    ensures Agrees(table, ev, Encode(table, c), Truth(table, ev, c))
    decreases c
  {
    hide Agrees, FAnd, FOr, Negate, LeafTruth, GuardExistence, GuardPresence, LeafCompiled, LeafTransparent;
    match c
    case Const(b) => ConstAgrees(table, ev, b);
    case Leaf(id, quants, floors, inner) => LeafAgrees(table, ev, id, quants, floors, inner);
    case Comparison(_, _) =>
    case Outside(id) => UnknownAgrees(table, ev, id, ev.reading(id));
    case Between(upper, lower, id) =>
      EncodeAgrees(table, ev, upper);
      EncodeAgrees(table, ev, lower);
      BracketAgrees(table, ev, Encode(table, upper), Encode(table, lower), id,
        Truth(table, ev, upper), Truth(table, ev, lower), ev.reading(id));
    case All(parts) =>
      PartsAgree(table, ev, parts);
      TruthAllMember(table, ev, parts, F);
      TruthAllMember(table, ev, parts, U);
      AndAgrees(table, ev, EncodeAll(table, parts), TruthAll(table, ev, parts), Truth(table, ev, c));
    case Any(parts) =>
      PartsAgree(table, ev, parts);
      TruthAllMember(table, ev, parts, T);
      TruthAllMember(table, ev, parts, U);
      OrAgrees(table, ev, EncodeAll(table, parts), TruthAll(table, ev, parts), Truth(table, ev, c));
    case Not(arg) =>
      if arg.Not? {
        EncodeAgrees(table, ev, arg.arg);
      } else {
        EncodeAgrees(table, ev, arg);
        NegateAgrees(table, ev, Encode(table, arg), Truth(table, ev, arg));
      }
    case Ternary(g, t, e) =>
      EncodeAgrees(table, ev, g);
      EncodeAgrees(table, ev, t);
      EncodeAgrees(table, ev, e);
      TernaryAgrees(table, ev, Encode(table, g), Encode(table, t), Encode(table, e),
        Truth(table, ev, g), Truth(table, ev, t), Truth(table, ev, e));
      if Undecided(table, ev, g, t, e) { SurvivorAgrees(table, ev, Encode(table, c)); }
  }

  /** A formula that agrees with Unknown agrees with True if and only if it
      survives. */
  lemma SurvivorAgrees(table: Table, ev: Event, f: Formula)
    requires Agrees(table, ev, f, U)
    ensures Agrees(table, ev, f, T) <==> Retained(table, ev, f)
  {
  }

  lemma ConstAgrees(table: Table, ev: Event, b: bool)
    ensures Agrees(table, ev, if b then True else False, if b then T else F)
  {
  }

  lemma UnknownAgrees(table: Table, ev: Event, id: nat, t: Tri)
    ensures Agrees(table, ev, Unknown(id), t)
  {
  }

  lemma TruthAllMember(table: Table, ev: Event, parts: seq<Cond>, t: Tri)
    ensures (exists x | x in parts :: Truth(table, ev, x) == t)
      <==> exists i :: 0 <= i < |parts| && TruthAll(table, ev, parts)[i] == t
  {
    hide Truth;
    var ts := TruthAll(table, ev, parts);
    if x :| x in parts && Truth(table, ev, x) == t {
      var i :| 0 <= i < |parts| && parts[i] == x;
      assert ts[i] == t;
    }
    if i :| 0 <= i < |parts| && ts[i] == t { assert parts[i] in parts; }
  }

  lemma {:induction false} PartsAgree(table: Table, ev: Event, parts: seq<Cond>)
    requires table.Valid() && ValidEvent(table, ev)
    requires forall x | x in parts :: Compiled(table, x) && Fits(table, ev, x)
    ensures AllAgree(table, ev, EncodeAll(table, parts), TruthAll(table, ev, parts))
    decreases parts
  {
    hide Agrees, Encode, Truth;
    forall i | 0 <= i < |parts|
      ensures Agrees(table, ev, EncodeAll(table, parts)[i], TruthAll(table, ev, parts)[i])
    {
      EncodeAgrees(table, ev, parts[i]);
    }
  }

  // ----- what it means for regions -----

  /** `negate` by what it denotes: its over-projection asks for the data that
      every way of being false reads, its under-projection for all of it. */
  lemma NegateMeans(table: Table, ev: Event, f: Formula)
    requires table.Valid()
    ensures Sat(Negate(table, f), OverSide, View(table, ev))
      <==> Known(ev, HardForced(table, f)) && !Sat(f, UnderSide, View(table, ev))
    ensures Sat(Negate(table, f), UnderSide, View(table, ev))
      <==> Known(ev, HardQuantities(table, f)) && !Sat(f, OverSide, View(table, ev))
  {
    hide FNot, HardQuantities, ForcedByFalsity, Project, Guarded;
    var v, hard, forced := View(table, ev), HardQuantities(table, f), HardForced(table, f);
    SatNot(f, OverSide, v);
    SatNot(f, UnderSide, v);
    ForcedTimesHard(table, f);
    if hard != {} {
      GuardedMeans(table, ev, forced, FNot(f), OverSide);
      GuardedMeans(table, ev, hard, FNot(f), UnderSide);
      DualParts(table, Guarded(PresentIds(table, forced), FNot(f)), Guarded(PresentIds(table, hard), FNot(f)), v);
      if PresentIds(table, forced) == PresentIds(table, hard) { SamePresentIds(table, forced, hard); }
    }
  }

  /** A `reject` never loses an event of the region, nor claims one it lacks:
      the negated encoding holds of every event on which the condition is False,
      and its under-projection holds of no other. */
  lemma RejectSound(table: Table, ev: Event, c: Cond)
    requires table.Valid() && ValidEvent(table, ev)
    requires Compiled(table, c) && Fits(table, ev, c)
    ensures Truth(table, ev, c) == F ==> Sat(Negate(table, Encode(table, c)), OverSide, View(table, ev))
    ensures Sat(Negate(table, Encode(table, c)), UnderSide, View(table, ev)) ==> Truth(table, ev, c) == F
  {
    EncodeAgrees(table, ev, c);
    NegateAgrees(table, ev, Encode(table, c), Truth(table, ev, c));
  }
}
