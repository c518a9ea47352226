/** What the encoding of a condition says on an event, construct by construct, and
    that nothing is given away where the data are present. */
module Exactness {
  import opened Linear
  import opened Formulas
  import opened Conditions
  import opened Negation
  import opened PartialTruth

  // ----- construct by construct -----

  /** The encoding reads the event like this in either projection: conjunctions and
      disjunctions hold part by part; a negation denies the opposite projection of
      what it negates, over the data that its falsity forces or over all of them;
      a ternary takes its guard with the one branch or the denied guard with the
      other. */
  lemma EncodeMeans(table: Table, ev: Event, c: Cond, p: Polarity)
    requires table.Valid() && ValidEvent(table, ev)
    ensures var v := View(table, ev);
      match c
      case Const(b) => Sat(Encode(table, c), p, v) <==> b
      case Comparison(_, f) => Sat(Encode(table, c), p, v) <==> Sat(f, p, v)
      case Leaf(_, quants, floors, inner) =>
        Sat(Encode(table, c), p, v) <==>
          && (IsExact(inner) ==> Known(ev, quants) && forall i :: 0 <= i < |floors| ==> v(floors[i].size) > floors[i].bound as real)
          && Sat(inner, p, v)
      case Outside(_) => Sat(Encode(table, c), p, v) <==> p == OverSide
      case Between(upper, lower, _) =>
        Sat(Encode(table, c), p, v) <==> Sat(Encode(table, if p == OverSide then upper else lower), p, v)
      case All(parts) =>
        Sat(Encode(table, c), p, v) <==> forall i :: 0 <= i < |parts| ==> Sat(Encode(table, parts[i]), p, v)
      case Any(parts) =>
        Sat(Encode(table, c), p, v) <==> exists i :: 0 <= i < |parts| && Sat(Encode(table, parts[i]), p, v)
      case Not(arg) =>
        Sat(Encode(table, c), p, v) <==>
          if arg.Not? then Sat(Encode(table, arg.arg), p, v) else Denied(table, ev, Encode(table, arg), p)
      case Ternary(g, t, e) =>
        Sat(Encode(table, c), p, v) <==>
          || (Sat(Encode(table, g), p, v) && Sat(Encode(table, t), p, v))
          || (Denied(table, ev, Encode(table, g), p) && Sat(Encode(table, e), p, v))
  {
    hide FAnd, FOr, Negate, Project, GuardPresence, GuardExistence, HardQuantities, HardForced;
    var v := View(table, ev);
    match c
    case Const(b) => ConstSat(p, v);
    case Comparison(_, _) =>
    case Leaf(_, quants, floors, inner) => LeafMeans(table, ev, quants, floors, inner, p);
    case Outside(id) => UnknownMeans(id, p, v);
    case Between(upper, lower, id) => DualMeans(Encode(table, upper), Encode(table, lower), id, p, v);
    case All(parts) => PartsMean(table, parts, p, v);
    case Any(parts) => PartsMean(table, parts, p, v);
    case Not(arg) => if !arg.Not? { NegateMeans(table, ev, Encode(table, arg)); }
    case Ternary(g, t, e) =>
      var eg, et, ee := Encode(table, g), Encode(table, t), Encode(table, e);
      var thn, els := [eg, et], [Negate(table, eg), ee];
      NegateMeans(table, ev, eg);
      FAndMeans(thn, p, v);
      FAndMeans(els, p, v);
      assert thn[0] == eg && thn[1] == et && els[0] == Negate(table, eg) && els[1] == ee;
      var both := [FAnd(thn), FAnd(els)];
      FOrMeans(both, p, v);
      assert both[0] == FAnd(thn) && both[1] == FAnd(els);
  }

  lemma PartsMean(table: Table, parts: seq<Cond>, p: Polarity, v: Valuation)
    ensures Sat(Encode(table, All(parts)), p, v) <==> forall i :: 0 <= i < |parts| ==> Sat(Encode(table, parts[i]), p, v)
    ensures Sat(Encode(table, Any(parts)), p, v) <==> exists i :: 0 <= i < |parts| && Sat(Encode(table, parts[i]), p, v)
  {
    hide FAnd, FOr, Project;
    var fs := EncodeAll(table, parts);
    assert forall i :: 0 <= i < |parts| ==> fs[i] == Encode(table, parts[i]);
    FAndMeans(fs, p, v);
    FOrMeans(fs, p, v);
  }

  /** A formula is denied: the opposite projection fails, and the data are known
      that its falsity forces, or for a claim all the data that it shows. */
  ghost predicate Denied(table: Table, ev: Event, f: Formula, p: Polarity) {
    if p == OverSide then Known(ev, HardForced(table, f)) && !Sat(f, UnderSide, View(table, ev))
    else Known(ev, HardQuantities(table, f)) && !Sat(f, OverSide, View(table, ev))
  }

  lemma ConstSat(p: Polarity, v: Valuation)
    ensures Sat(True, p, v) && !Sat(False, p, v)
  {
  }

  lemma UnknownMeans(d: nat, p: Polarity, v: Valuation)
    ensures Sat(Unknown(d), p, v) <==> p == OverSide
  {
  }

  lemma DualMeans(plus: Formula, minus: Formula, d: nat, p: Polarity, v: Valuation)
    ensures Sat(Dual(plus, minus, d), p, v) <==> Sat(if p == OverSide then plus else minus, p, v)
  {
  }

  lemma LeafMeans(table: Table, ev: Event, quants: set<QuantityId>, floors: seq<Floor>, inner: Formula, p: Polarity)
    requires table.Valid() && ValidEvent(table, ev)
    ensures var v := View(table, ev);
      Sat(GuardExistence(floors, GuardPresence(table, quants, inner)), p, v) <==>
        && (IsExact(inner) ==> Known(ev, quants) && forall i :: 0 <= i < |floors| ==> v(floors[i].size) > floors[i].bound as real)
        && Sat(inner, p, v)
  {
    hide FAnd, Project, GuardPresence, View;
    var g := GuardPresence(table, quants, inner);
    GuardPresenceMeans(table, ev, quants, inner, p);
    FloorsMean(floors, g, p, View(table, ev));
    FloorsSay(floors, View(table, ev));
    if IsExact(inner) { GuardPresenceExact(table, quants, inner); } else { InexactUnguarded(table, quants, inner); }
  }

  lemma FloorsSay(floors: seq<Floor>, v: Valuation)
    ensures FloorsHold(floors, v) <==> forall i :: 0 <= i < |floors| ==> v(floors[i].size) > floors[i].bound as real
  {
    forall i | 0 <= i < |floors| ensures AtomHolds(floors[i].AsAtom(), v) <==> v(floors[i].size) > floors[i].bound as real {
      SingleIsMake(floors[i].size, Gt, floors[i].bound as real);
    }
  }

  lemma InexactUnguarded(table: Table, quants: set<QuantityId>, f: Formula)
    requires !IsExact(f)
    ensures GuardPresence(table, quants, f) == f
  {
  }

  // ----- conditions without brackets -----

  /** Constants and exact comparisons under conjunction, disjunction, negation and
      ternaries; a comparison's formula shows no datum that it does not read. */
  ghost predicate Bracketless(table: Table, c: Cond) {
    match c
    case Const(_) => true
    case Leaf(_, quants, floors, inner) => IsExact(inner) && FloorsPlain(table, floors) && HardQuantities(table, inner) <= quants
    case All(parts) => forall x | x in parts :: Bracketless(table, x)
    case Any(parts) => forall x | x in parts :: Bracketless(table, x)
    case Not(arg) => Bracketless(table, arg)
    case Ternary(g, t, e) => Bracketless(table, g) && Bracketless(table, t) && Bracketless(table, e)
    case _ => false
  }

  /** The quantities that the condition's comparisons read. */
  function ReadBy(c: Cond): set<QuantityId> {
    match c
    case Leaf(_, quants, _, _) => quants
    case Between(upper, lower, _) => ReadBy(upper) + ReadBy(lower)
    case All(parts) => set x, q | x in parts && q in ReadBy(x) :: q
    case Any(parts) => set x, q | x in parts && q in ReadBy(x) :: q
    case Not(arg) => ReadBy(arg)
    case Ternary(g, t, e) => ReadBy(g) + ReadBy(t) + ReadBy(e)
    case _ => {}
  }

  /** Indexed properties come with their elements. */
  ghost predicate Indexed(table: Table, ev: Event, c: Cond) {
    match c
    case Leaf(_, quants, floors, _) => FloorsMet(table, ev, quants, floors)
    case All(parts) => forall x | x in parts :: Indexed(table, ev, x)
    case Any(parts) => forall x | x in parts :: Indexed(table, ev, x)
    case Not(arg) => Indexed(table, ev, arg)
    case Ternary(g, t, e) => Indexed(table, ev, g) && Indexed(table, ev, t) && Indexed(table, ev, e)
    case _ => true
  }

  /** No event datum among the quantities is missing. */
  ghost predicate DataThere(table: Table, ev: Event, qs: set<QuantityId>) {
    forall q | q in qs && table.absence(q) == Hard :: ev.has(q)
  }

  // ----- what an encoding shows -----

  lemma AndShows(table: Table, parts: seq<Formula>, qs: set<QuantityId>)
    requires forall i :: 0 <= i < |parts| ==> HardQuantities(table, parts[i]) <= qs
    ensures HardQuantities(table, FAnd(parts)) <= qs && HardQuantities(table, FOr(parts)) <= qs
  {
    hide HardQuantities, FAnd, FOr, AndOf, AndParts, OrOf, OrParts;
    NothingHard(table);
    if False in parts { FoldsFalse(parts); } else { HardOfAnd(table, parts); }
    if True in parts { FoldsTrue(parts); } else { HardOfOr(table, parts); }
    forall q | q in HardOfAll(table, parts) ensures q in qs {
      var x :| x in parts && q in HardQuantities(table, x);
      var i :| 0 <= i < |parts| && parts[i] == x;
    }
  }

  lemma FoldsFalse(parts: seq<Formula>)
    requires False in parts
    ensures FAnd(parts) == False
  {
  }

  lemma FoldsTrue(parts: seq<Formula>)
    requires True in parts
    ensures FOr(parts) == True
  {
  }

  lemma {:induction false} DropShows(table: Table, f: Formula, present: set<QuantityId>, qs: set<QuantityId>)
    requires HardQuantities(table, f) <= qs
    ensures HardQuantities(table, DropAbsent(f, present)) <= qs
  {
    hide FAnd, FOr;
    NothingHard(table);
    match f
    case And(items) =>
      forall i | 0 <= i < |items| ensures HardQuantities(table, DropAll(items, present)[i]) <= qs {
        assert items[i] in items;
        DropShows(table, items[i], present, qs);
      }
      AndShows(table, DropAll(items, present), qs);
    case Or(items) =>
      forall i | 0 <= i < |items| ensures HardQuantities(table, DropAll(items, present)[i]) <= qs {
        assert items[i] in items;
        DropShows(table, items[i], present, qs);
      }
      AndShows(table, DropAll(items, present), qs);
    case Dual(plus, minus, _) =>
      DropShows(table, plus, present, qs);
      DropShows(table, minus, present, qs);
    case _ =>
  }

  lemma GuardShowsNothing(table: Table, ids: seq<QuantityId>, f: Formula, qs: set<QuantityId>)
    requires table.Valid() && HardQuantities(table, f) <= qs
    requires forall i :: 0 <= i < |ids| ==> table.innerOf(ids[i]).Some?
    ensures HardQuantities(table, FAnd(IndicatorAtoms(ids) + [f])) <= qs
  {
    hide FAnd;
    forall i | 0 <= i < |ids| ensures HardQuantities(table, IndicatorAtoms(ids)[i]) == {} { assert table.IsIndicator(ids[i]); }
    AndShows(table, IndicatorAtoms(ids) + [f], qs);
  }

  lemma NegateShows(table: Table, f: Formula, qs: set<QuantityId>)
    requires table.Valid() && HardQuantities(table, f) <= qs
    ensures HardQuantities(table, Negate(table, f)) <= qs
  {
    hide FAnd, FNot, HardQuantities, DropAbsent, ForcedByFalsity;
    HardOfNot(table, f);
    forall data: set<QuantityId> ensures HardQuantities(table, Guarded(PresentIds(table, data), FNot(f))) <= qs {
      var ids := PresentIds(table, data);
      forall i | 0 <= i < |Ascending(ids)| ensures table.innerOf(Ascending(ids)[i]).Some? {
        assert Ascending(ids)[i] in Ascending(ids);
      }
      DropShows(table, FNot(f), ids, qs);
      GuardShowsNothing(table, Ascending(ids), DropAbsent(FNot(f), ids), qs);
    }
    var hard := HardQuantities(table, f);
    var forced := ForcedByFalsity(table, f) * hard;
    DualShows(table, Guarded(PresentIds(table, forced), FNot(f)), Guarded(PresentIds(table, hard), FNot(f)));
  }

  lemma DualShows(table: Table, plus: Formula, minus: Formula)
    ensures HardQuantities(table, Dual(plus, minus, 0)) == HardQuantities(table, plus) + HardQuantities(table, minus)
  {
  }

  lemma LeafShows(table: Table, quants: set<QuantityId>, floors: seq<Floor>, inner: Formula)
    requires table.Valid() && FloorsPlain(table, floors) && HardQuantities(table, inner) <= quants
    ensures HardQuantities(table, GuardExistence(floors, GuardPresence(table, quants, inner))) <= quants
  {
    hide FAnd, HardQuantities;
    var order := Ascending(set q | q in quants && table.MayBeAbsent(q));
    var ids := seq(|order|, i requires 0 <= i < |order| => table.presentOf(order[i]));
    GuardShowsNothing(table, ids, inner, quants);
    var g := GuardPresence(table, quants, inner);
    var parts := seq(|floors|, i requires 0 <= i < |floors| => Atom(floors[i].AsAtom())) + [g];
    forall i | 0 <= i < |parts| ensures HardQuantities(table, parts[i]) <= quants {
      if i < |floors| { FloorAtom(table, floors[i]); }
    }
    AndShows(table, parts, quants);
  }

  /** An encoding shows no datum that its condition does not read. */
  lemma {:induction false} EncodeShows(table: Table, c: Cond)
    requires table.Valid() && Bracketless(table, c)
    ensures HardQuantities(table, Encode(table, c)) <= ReadBy(c)
  {
    hide FAnd, FOr, Negate, HardQuantities, GuardPresence, GuardExistence;
    NothingHard(table);
    match c
    case Const(_) =>
    case Leaf(_, quants, floors, inner) => LeafShows(table, quants, floors, inner);
    case All(parts) =>
      forall i | 0 <= i < |parts| ensures HardQuantities(table, EncodeAll(table, parts)[i]) <= ReadBy(c) {
        assert parts[i] in parts;
        EncodeShows(table, parts[i]);
      }
      AndShows(table, EncodeAll(table, parts), ReadBy(c));
    case Any(parts) =>
      forall i | 0 <= i < |parts| ensures HardQuantities(table, EncodeAll(table, parts)[i]) <= ReadBy(c) {
        assert parts[i] in parts;
        EncodeShows(table, parts[i]);
      }
      AndShows(table, EncodeAll(table, parts), ReadBy(c));
    case Not(arg) =>
      EncodeShows(table, arg);
      if arg.Not? { EncodeShows(table, arg.arg); } else { NegateShows(table, Encode(table, arg), ReadBy(c)); }
    case Ternary(g, t, e) =>
      EncodeShows(table, g);
      EncodeShows(table, t);
      EncodeShows(table, e);
      NegateShows(table, Encode(table, g), ReadBy(c));
      var thn, els := [Encode(table, g), Encode(table, t)], [Negate(table, Encode(table, g)), Encode(table, e)];
      AndShows(table, thn, ReadBy(c));
      AndShows(table, els, ReadBy(c));
      AndShows(table, [FAnd(thn), FAnd(els)], ReadBy(c));
  }

  // ----- exactness -----

  lemma ForcedKnown(table: Table, ev: Event, f: Formula, qs: set<QuantityId>)
    requires HardQuantities(table, f) <= qs && DataThere(table, ev, qs)
    ensures Known(ev, HardQuantities(table, f)) && Known(ev, HardForced(table, f))
  {
    forall q | q in HardQuantities(table, f) ensures ev.has(q) { HardIsHard(table, f, q); }
    forall q | q in HardForced(table, f) ensures ev.has(q) { ForcedSubset(table, f, q); }
  }

  lemma FloorsKnown(table: Table, ev: Event, quants: set<QuantityId>, floors: seq<Floor>)
    requires FloorsMet(table, ev, quants, floors)
    ensures Known(ev, quants) ==> FloorsHold(floors, View(table, ev))
  {
  }

  lemma LeafDefinite(table: Table, ev: Event, id: nat, quants: set<QuantityId>, inner: Formula, p: Polarity)
    requires ValidEvent(table, ev) && DataThere(table, ev, quants) && IsExact(inner)
    ensures LeafTruth(table, ev, id, quants, inner) == if Known(ev, quants) && Sat(inner, p, View(table, ev)) then T else F
  {
    hide Project;
    MissingMeansUnknown(table, ev, quants);
    ExactProjectionsAgree(inner);
  }

  /** Where no event datum of a bracketless condition is missing its encoding is
      exact: both projections hold on the event if and only if the interpreter says
      True, and it never says Unknown. */
  lemma {:induction false} EncodeExact(table: Table, ev: Event, c: Cond, p: Polarity)
    requires table.Valid() && ValidEvent(table, ev)
    requires Bracketless(table, c) && Indexed(table, ev, c) && DataThere(table, ev, ReadBy(c))
    ensures Sat(Encode(table, c), p, View(table, ev)) <==> Truth(table, ev, c) == T
    ensures Truth(table, ev, c) != U
    decreases c, 1
  {
    hide Encode, Project, LeafTruth, HardQuantities, HardForced, FloorsMet;
    EncodeMeans(table, ev, c, p);
    match c
    case Const(_) =>
    case Leaf(id, quants, floors, inner) =>
      LeafDefinite(table, ev, id, quants, inner, p);
      FloorsSay(floors, View(table, ev));
      FloorsKnown(table, ev, quants, floors);
    case All(parts) => ExactEach(table, ev, parts, p);
    case Any(parts) => ExactEach(table, ev, parts, p);
    case Not(arg) =>
      EncodeExact(table, ev, arg, p);
      if arg.Not? {
        EncodeExact(table, ev, arg.arg, p);
      } else {
        EncodeExact(table, ev, arg, Opposite(p));
        EncodeShows(table, arg);
        ForcedKnown(table, ev, Encode(table, arg), ReadBy(c));
      }
    case Ternary(g, t, e) =>
      EncodeExact(table, ev, g, p);
      EncodeExact(table, ev, g, Opposite(p));
      EncodeExact(table, ev, t, p);
      EncodeExact(table, ev, e, p);
      EncodeShows(table, g);
      ForcedKnown(table, ev, Encode(table, g), ReadBy(c));
  }

  lemma {:induction false} ExactEach(table: Table, ev: Event, parts: seq<Cond>, p: Polarity)
    requires table.Valid() && ValidEvent(table, ev)
    requires forall x | x in parts :: Bracketless(table, x) && Indexed(table, ev, x) && DataThere(table, ev, ReadBy(x))
    ensures forall i :: 0 <= i < |parts| ==> (Sat(Encode(table, parts[i]), p, View(table, ev)) <==> Truth(table, ev, parts[i]) == T)
    ensures forall x | x in parts :: Truth(table, ev, x) != U
    decreases parts, 0
  {
    hide Encode, Truth, Project;
    forall x | x in parts
      ensures (Sat(Encode(table, x), p, View(table, ev)) <==> Truth(table, ev, x) == T) && Truth(table, ev, x) != U
    {
      EncodeExact(table, ev, x, p);
    }
    forall i | 0 <= i < |parts| ensures Sat(Encode(table, parts[i]), p, View(table, ev)) <==> Truth(table, ev, parts[i]) == T {
      assert parts[i] in parts;
    }
  }
}
