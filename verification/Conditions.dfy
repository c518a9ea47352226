/** Region conditions over partial events, their three-valued meaning, and their
    encoding into polarity-typed formulas with presence guards. */
module Conditions {
  import opened Linear
  import opened Formulas
  import opened Saturation

  /** Whether a quantity can lack a value, and what that does to a comparison. */
  datatype Absence = Never | Soft | Hard

  /** The quantity table, with every presence indicator interned. */
  datatype Table = Table(
    absence: QuantityId -> Absence,
    presentOf: QuantityId -> QuantityId,
    innerOf: QuantityId -> Option<QuantityId>)
  {
    ghost predicate Valid() {
      && (forall q: QuantityId :: innerOf(presentOf(q)) == Some(q))
      && (forall p: QuantityId :: IsIndicator(p))
    }

    predicate IsIndicator(p: QuantityId) {
      match innerOf(p)
      case None => true
      case Some(q) => absence(p) == Never && presentOf(q) == p
    }

    predicate MayBeAbsent(q: QuantityId) { absence(q) != Never }
  }

  datatype Tri = T | F | U

  /** An event: a value for every quantity that has one (and an arbitrary number
      for the others), and the interpreter's reading of the nodes that the
      encoder does not express. */
  datatype Event = Event(value: Valuation, has: QuantityId -> bool, reading: nat -> Tri)

  ghost predicate ValidEvent(table: Table, ev: Event) {
    forall q: QuantityId :: !table.MayBeAbsent(q) ==> ev.has(q)
  }

  /** The total valuation a prover reasons over: indicators tell presence. */
  function View(table: Table, ev: Event): Valuation {
    (p: QuantityId) =>
      match table.innerOf(p)
      case Some(q) => if ev.has(q) then 1.0 else 0.0
      case None => ev.value(p)
  }

  /** A size guard `size > bound` that an indexed element property brings with it. */
  datatype Floor = Floor(size: QuantityId, bound: nat) {
    function AsAtom(): LinAtom { Single(size, Gt, bound as real) }
  }

  /** A region condition. A `Leaf` is one comparison taken apart: the quantities
      it reads, the size guards they need, and the formula its arithmetic compiles
      to; a `Comparison` is one as a whole, with the formula that the encoder makes
      of it. `Outside` is a node the encoder rejects, and `Between` one that it only
      brackets. What the interpreter says of a node is part of the event. */
  datatype Cond =
    | Const(b: bool)
    | Leaf(id: nat, quants: set<QuantityId>, floors: seq<Floor>, inner: Formula)
    | Comparison(id: nat, formula: Formula)
    | Outside(id: nat)
    | Between(upper: Cond, lower: Cond, id: nat)
    | All(parts: seq<Cond>)
    | Any(parts: seq<Cond>)
    | Not(arg: Cond)
    | Ternary(guard: Cond, thn: Cond, els: Cond)

  // ----- the interpreter's reading -----

  function TriNot(t: Tri): Tri {
    match t case T => F case F => T case U => U
  }

  predicate Missing(table: Table, ev: Event, quants: set<QuantityId>, kind: Absence) {
    exists q | q in quants :: table.absence(q) == kind && !ev.has(q)
  }

  /** A comparison: a missing soft quantity makes it false, a missing hard one
      blocks it, otherwise its formula decides. With both missing the first
      usually wins, but `min` and `max` report what they meet first. */
  function LeafTruth(table: Table, ev: Event, id: nat, quants: set<QuantityId>, inner: Formula): Tri {
    if Missing(table, ev, quants, Soft) then
      if Missing(table, ev, quants, Hard) && ev.reading(id) == U then U else F
    else if Missing(table, ev, quants, Hard) then U
    else if Sat(inner, OverSide, View(table, ev)) then T else F
  }

  /** Three-valued truth of a condition on an event. */
  function Truth(table: Table, ev: Event, c: Cond): Tri {
    match c
    case Const(b) => if b then T else F
    case Leaf(id, quants, _, inner) => LeafTruth(table, ev, id, quants, inner)
    case Comparison(id, _) => ev.reading(id)
    case Outside(id) => ev.reading(id)
    case Between(_, _, id) => ev.reading(id)
    case All(parts) =>
      if exists x | x in parts :: Truth(table, ev, x) == F then F
      else if exists x | x in parts :: Truth(table, ev, x) == U then U else T
    case Any(parts) =>
      if exists x | x in parts :: Truth(table, ev, x) == T then T
      else if exists x | x in parts :: Truth(table, ev, x) == U then U else F
    case Not(arg) => TriNot(Truth(table, ev, arg))
    case Ternary(g, t, e) =>
      match Truth(table, ev, g)
      case T => Truth(table, ev, t)
      case F => Truth(table, ev, e)
      case U =>
        if Truth(table, ev, t) == F && Truth(table, ev, e) == F then F
        else if Truth(table, ev, t) == T && Truth(table, ev, e) == T then T
        else U
  }

  // ----- the encoder -----

  predicate IsLeast(s: set<nat>, m: nat) {
    m in s && forall x | x in s :: m <= x
  }

  lemma {:induction false} LeastExists(s: set<nat>, k: nat)
    requires k in s
    ensures exists m: nat :: IsLeast(s, m)
  {
    if y :| y in s && y < k {
      LeastExists(s, y);
    } else {
      assert IsLeast(s, k);
    }
  }

  /** The elements of a set in the order `std::set` iterates them. */
  function Ascending(s: set<nat>): (r: seq<nat>)
    ensures forall x: nat :: x in r <==> x in s
  {
    if s == {} then []
    else
      assert exists m: nat :: IsLeast(s, m) by {
        var k :| k in s;
        LeastExists(s, k);
      }
      var m: nat :| IsLeast(s, m);
      [m] + Ascending(s - {m})
  }

  /** `id >= 1`, the positive form of a presence indicator. */
  function IndicatorAtom(id: QuantityId): Formula { Atom(Single(id, Ge, 1.0)) }

  function IndicatorAtoms(ids: seq<QuantityId>): seq<Formula> {
    seq(|ids|, i requires 0 <= i < |ids| => IndicatorAtom(ids[i]))
  }

  function PresentIds(table: Table, qs: set<QuantityId>): set<QuantityId> {
    set q | q in qs :: table.presentOf(q)
  }

  /** Conjoin `defined(q) >= 1` for every quantity that may be absent. */
  function GuardPresence(table: Table, quants: set<QuantityId>, inner: Formula): Formula {
    var needed := Ascending(set q | q in quants && table.MayBeAbsent(q));
    if !IsExact(inner) || needed == [] then inner
    else FAnd(IndicatorAtoms(seq(|needed|, i requires 0 <= i < |needed| => table.presentOf(needed[i]))) + [inner])
  }

  /** Conjoin the size guards. */
  function GuardExistence(floors: seq<Floor>, inner: Formula): Formula {
    if !IsExact(inner) || floors == [] then inner
    else FAnd(seq(|floors|, i requires 0 <= i < |floors| => Atom(floors[i].AsAtom())) + [inner])
  }

  /** The quantities of hard absence that a formula's atoms mention. */
  function HardQuantities(table: Table, f: Formula): set<QuantityId> {
    match f
    case Atom(a) => set t | t in a.terms && table.absence(t.q) == Hard :: t.q
    case And(items) => set x, q | x in items && q in HardQuantities(table, x) :: q
    case Or(items) => set x, q | x in items && q in HardQuantities(table, x) :: q
    case Dual(plus, minus, _) => HardQuantities(table, plus) + HardQuantities(table, minus)
    case _ => {}
  }

  predicate IsPresenceAtom(table: Table, f: Formula) {
    f.Atom? && |f.atom.terms| == 1 && table.innerOf(f.atom.terms[0].q).Some?
  }

  /** `id < 1` for one of the given indicators. */
  predicate SaysAbsent(f: Formula, present: set<QuantityId>) {
    f.Atom? && |f.atom.terms| == 1 && f.atom.terms[0].q in present && f.atom.rel == Lt
    && f.atom.terms[0].coeff == 1.0 && f.atom.constant == 1.0
  }

  /** Fold away the disjuncts that say a quantity known to be present is absent. */
  function DropAbsent(f: Formula, present: set<QuantityId>): Formula {
    match f
    case Atom(_) => if SaysAbsent(f, present) then False else f
    case And(items) => FAnd(seq(|items|, i requires 0 <= i < |items| => DropAbsent(items[i], present)))
    case Or(items) => FOr(seq(|items|, i requires 0 <= i < |items| => DropAbsent(items[i], present)))
    case Dual(plus, minus, d) => Dual(DropAbsent(plus, present), DropAbsent(minus, present), d)
    case _ => f
  }

  /** The quantities that every way of the formula being false must read. */
  function ForcedByFalsity(table: Table, f: Formula): set<QuantityId>
    decreases f, 1
  {
    match f
    case Atom(a) =>
      if exists t | t in a.terms :: table.absence(t.q) == Soft then {} else set t | t in a.terms :: t.q
    case Or(items) => set x, q | x in items && q in ForcedByFalsity(table, x) :: q
    case And(items) =>
      (match ForcedByAll(table, items)
       case None => {}
       case Some(s) => s)
    case _ => {}
  }

  /** The common forced quantities of the items that are not indicators. */
  function ForcedByAll(table: Table, items: seq<Formula>): Option<set<QuantityId>>
    decreases items, 0
  {
    if items == [] then None
    else
      var rest := ForcedByAll(table, items[1..]);
      if IsPresenceAtom(table, items[0]) then rest
      else
        var s := ForcedByFalsity(table, items[0]);
        match rest
        case None => Some(s)
        case Some(r) => Some(s * r)
  }

  function Guarded(ids: set<QuantityId>, n: Formula): Formula {
    FAnd(IndicatorAtoms(Ascending(ids)) + [DropAbsent(n, ids)])
  }

  /** Negation that knows about data the interpreter may never read. */
  function Negate(table: Table, f: Formula): Formula {
    var hard := HardQuantities(table, f);
    if hard == {} then FNot(f)
    else
      var forced := ForcedByFalsity(table, f) * hard;
      var n := FNot(f);
      var both, all := PresentIds(table, forced), PresentIds(table, hard);
      if both == all then Guarded(both, n) else Dual(Guarded(both, n), Guarded(all, n), 0)
  }

  function Encode(table: Table, c: Cond): Formula {
    match c
    case Const(b) => if b then True else False
    case Leaf(_, quants, floors, inner) => GuardExistence(floors, GuardPresence(table, quants, inner))
    case Comparison(_, f) => f
    case Outside(id) => Unknown(id)
    case Between(upper, lower, id) => Dual(Encode(table, upper), Encode(table, lower), id)
    case All(parts) => FAnd(seq(|parts|, i requires 0 <= i < |parts| => Encode(table, parts[i])))
    case Any(parts) => FOr(seq(|parts|, i requires 0 <= i < |parts| => Encode(table, parts[i])))
    case Not(arg) => if arg.Not? then Encode(table, arg.arg) else Negate(table, Encode(table, arg))
    case Ternary(g, t, e) =>
      var eg := Encode(table, g);
      FOr([FAnd([eg, Encode(table, t)]), FAnd([Negate(table, eg), Encode(table, e)])])
  }
}
