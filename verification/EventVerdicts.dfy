/** From region statements to verdicts about events: the whole pipeline. */
module EventVerdicts {
  import opened Linear
  import opened Formulas
  import opened Saturation
  import opened Conditions
  import opened Negation
  import opened PartialTruth
  import opened Regions
  import opened Intervals
  import opened IntervalAgreement
  import opened Solving
  import opened Numerals
  import opened Verdicts

  // ----- atoms stay in normal form -----

  ghost predicate NormalFormula(f: Formula) {
    match f
    case Atom(a) => Normal(a.terms)
    case And(items) => forall x | x in items :: NormalFormula(x)
    case Or(items) => forall x | x in items :: NormalFormula(x)
    case Dual(plus, minus, _) => NormalFormula(plus) && NormalFormula(minus)
    case _ => true
  }

  ghost predicate NormalFormulas(fs: seq<Formula>) { forall i :: 0 <= i < |fs| ==> NormalFormula(fs[i]) }

  lemma {:induction false} ProjectNormal(f: Formula, p: Polarity)
    requires NormalFormula(f)
    ensures NormalAtoms(Project(f, p))
  {
    match f
    case And(items) => forall x | x in items { ProjectNormal(x, p); }
    case Or(items) => forall x | x in items { ProjectNormal(x, p); }
    case Dual(plus, minus, _) => ProjectNormal(plus, p); ProjectNormal(minus, p);
    case _ =>
  }

  lemma {:induction false} NotNormal(f: Formula)
    requires NormalFormula(f)
    ensures NormalFormula(FNot(f))
  {
    match f
    case And(items) => forall x | x in items { NotNormal(x); }
    case Or(items) => forall x | x in items { NotNormal(x); }
    case Dual(plus, minus, _) => NotNormal(plus); NotNormal(minus);
    case _ =>
  }

  lemma AndNormal(parts: seq<Formula>)
    requires NormalFormulas(parts)
    ensures NormalFormula(FAnd(parts))
  {
    forall x | x in AndParts(parts) ensures NormalFormula(x) {
      AndPartsMember(parts, x);
    }
  }

  lemma OrNormal(parts: seq<Formula>)
    requires NormalFormulas(parts)
    ensures NormalFormula(FOr(parts))
  {
    forall x | x in OrParts(parts) ensures NormalFormula(x) {
      OrPartsMember(parts, x);
    }
  }

  lemma {:induction false} DropNormal(f: Formula, present: set<QuantityId>)
    requires NormalFormula(f)
    ensures NormalFormula(DropAbsent(f, present))
  {
    match f
    case And(items) =>
      forall x | x in items { DropNormal(x, present); }
      AndNormal(DropAll(items, present));
    case Or(items) =>
      forall x | x in items { DropNormal(x, present); }
      OrNormal(DropAll(items, present));
    case Dual(plus, minus, _) => DropNormal(plus, present); DropNormal(minus, present);
    case _ =>
  }

  lemma GuardNormal(ids: seq<QuantityId>, f: Formula)
    requires NormalFormula(f)
    ensures NormalFormula(FAnd(IndicatorAtoms(ids) + [f]))
  {
    var parts := IndicatorAtoms(ids) + [f];
    forall i | 0 <= i < |parts| ensures NormalFormula(parts[i]) {
      if i < |ids| { SingleIsMake(ids[i], Ge, 1.0); }
    }
    AndNormal(parts);
  }

  lemma NegateNormal(table: Table, f: Formula)
    requires NormalFormula(f)
    ensures NormalFormula(Negate(table, f))
  {
    hide FAnd, DropAbsent, FNot, HardQuantities, ForcedByFalsity;
    var n, hard := FNot(f), HardQuantities(table, f);
    var forced := ForcedByFalsity(table, f) * hard;
    NotNormal(f);
    GuardedNormal(PresentIds(table, forced), n);
    GuardedNormal(PresentIds(table, hard), n);
  }

  lemma GuardedNormal(ids: set<QuantityId>, n: Formula)
    requires NormalFormula(n)
    ensures NormalFormula(Guarded(ids, n))
  {
    DropNormal(n, ids);
    GuardNormal(Ascending(ids), DropAbsent(n, ids));
  }

  /** Every comparison was compiled to atoms in normal form. */
  ghost predicate NormalCond(c: Cond) {
    match c
    case Leaf(_, _, _, inner) => NormalFormula(inner)
    case Comparison(_, f) => NormalFormula(f)
    case Between(upper, lower, _) => NormalCond(upper) && NormalCond(lower)
    case All(parts) => forall x | x in parts :: NormalCond(x)
    case Any(parts) => forall x | x in parts :: NormalCond(x)
    case Not(arg) => NormalCond(arg)
    case Ternary(g, t, e) => NormalCond(g) && NormalCond(t) && NormalCond(e)
    case _ => true
  }

  lemma LeafNormal(table: Table, quants: set<QuantityId>, floors: seq<Floor>, inner: Formula)
    requires NormalFormula(inner)
    ensures NormalFormula(GuardExistence(floors, GuardPresence(table, quants, inner)))
  {
    hide FAnd, NormalFormula;
    var needed := Ascending(set q | q in quants && table.MayBeAbsent(q));
    GuardNormal(seq(|needed|, i requires 0 <= i < |needed| => table.presentOf(needed[i])), inner);
    var g := GuardPresence(table, quants, inner);
    FloorsNormal(floors, g);
  }

  lemma FloorsNormal(floors: seq<Floor>, f: Formula)
    requires NormalFormula(f)
    ensures NormalFormula(GuardExistence(floors, f))
  {
    var parts := seq(|floors|, i requires 0 <= i < |floors| => Atom(floors[i].AsAtom())) + [f];
    forall i | 0 <= i < |parts| ensures NormalFormula(parts[i]) {
      if i < |floors| { SingleIsMake(floors[i].size, Gt, floors[i].bound as real); }
    }
    AndNormal(parts);
  }

  lemma {:induction false} EncodeNormal(table: Table, c: Cond)
    requires NormalCond(c)
    ensures NormalFormula(Encode(table, c))
  {
    hide FAnd, FOr, Negate, GuardExistence, GuardPresence;
    match c
    case Leaf(_, quants, floors, inner) => LeafNormal(table, quants, floors, inner);
    case Between(upper, lower, _) => EncodeNormal(table, upper); EncodeNormal(table, lower);
    case All(parts) =>
      forall x | x in parts { EncodeNormal(table, x); }
      AndNormal(EncodeAll(table, parts));
    case Any(parts) =>
      forall x | x in parts { EncodeNormal(table, x); }
      OrNormal(EncodeAll(table, parts));
    case Not(arg) =>
      if arg.Not? { EncodeNormal(table, arg.arg); }
      else { EncodeNormal(table, arg); NegateNormal(table, Encode(table, arg)); }
    case Ternary(g, t, e) =>
      EncodeNormal(table, g);
      EncodeNormal(table, t);
      EncodeNormal(table, e);
      NegateNormal(table, Encode(table, g));
      var thn, els := [Encode(table, g), Encode(table, t)], [Negate(table, Encode(table, g)), Encode(table, e)];
      AndNormal(thn);
      AndNormal(els);
      OrNormal([FAnd(thn), FAnd(els)]);
    case _ =>
  }

  // ----- statement names -----

  /** The name of statement i of region r. */
  function StmtName(r: nat, i: nat): Name { "R" + Digits(r) + "S" + Digits(i) }

  /** The only `S` of the region part is the one that ends it. */
  lemma BeforeS(r: nat, i: nat)
    ensures var x, n := StmtName(r, i), |Digits(r)| + 1;
      n < |x| && x[n] == 'S' && forall k :: 0 <= k < n ==> x[k] != 'S'
  {
    hide Digits;
    DigitsAreDigits(r);
    var x, d := StmtName(r, i), Digits(r);
    forall k | 0 <= k < |d| + 1 ensures x[k] != 'S' {
      if k > 0 { assert x[k] == d[k - 1] && d[k - 1] in d; }
    }
  }

  lemma StmtNameInjective(r: nat, i: nat, s: nat, j: nat)
    requires StmtName(r, i) == StmtName(s, j)
    ensures r == s && i == j
  {
    hide Digits;
    var a, b := Digits(r), Digits(s);
    var x := StmtName(r, i);
    BeforeS(r, i);
    BeforeS(s, j);
    assert |a| == |b|;
    assert x[1..1 + |a|] == a && x[1..1 + |b|] == b;
    assert x[2 + |a|..] == Digits(i) && x[2 + |b|..] == Digits(j);
    DigitsInjective(r, s);
    DigitsInjective(i, j);
  }

  // ----- region contexts -----

  function CtxOf(name: string, r: nat, parts: seq<Formula>): RegionCtx {
    RegionCtx(name,
      seq(|parts|, i requires 0 <= i < |parts| => (StmtName(r, i), Over(parts[i]))),
      seq(|parts|, i requires 0 <= i < |parts| => Under(parts[i])))
  }

  lemma CtxMeans(name: string, r: nat, parts: seq<Formula>, v: Valuation)
    ensures AllHold(CtxOf(name, r, parts).overs, v) <==> AllSat(parts, OverSide, v)
    ensures HoldsAll(CtxOf(name, r, parts).unders, v) <==> AllSat(parts, UnderSide, v)
  {
    hide Holds, Project, StmtName;
    var c := CtxOf(name, r, parts);
    assert forall i :: 0 <= i < |parts| ==> c.overs[i].1 == Project(parts[i], OverSide);
    assert forall i :: 0 <= i < |parts| ==> c.unders[i] == Project(parts[i], UnderSide);
    if HoldsAll(c.unders, v) {
      forall i | 0 <= i < |parts| ensures Sat(parts[i], UnderSide, v) { assert c.unders[i] in c.unders; }
    }
  }

  lemma CtxNormal(name: string, r: nat, parts: seq<Formula>)
    requires NormalFormulas(parts)
    ensures NormalCtx(CtxOf(name, r, parts))
  {
    hide NormalAtoms, Project, NormalFormula, StmtName;
    var c := CtxOf(name, r, parts);
    forall i | 0 <= i < |parts| ensures NormalAtoms(c.overs[i].1) && NormalAtoms(c.unders[i]) {
      ProjectNormal(parts[i], OverSide);
      ProjectNormal(parts[i], UnderSide);
    }
  }

  lemma CtxNamesAgree(nameA: string, a: nat, partsA: seq<Formula>, nameB: string, b: nat, partsB: seq<Formula>)
    requires a != b
    ensures NamesAgree(CtxOf(nameA, a, partsA).overs + CtxOf(nameB, b, partsB).overs)
  {
    hide StmtName, Project;
    var all, m := CtxOf(nameA, a, partsA).overs + CtxOf(nameB, b, partsB).overs, |partsA|;
    forall i, j | 0 <= i < |all| && 0 <= j < |all| && all[i].0 == all[j].0 ensures all[i].1 == all[j].1 {
      StmtNameInjective(if i < m then a else b, if i < m then i else i - m, if j < m then a else b, if j < m then j else j - m);
    }
  }

  // ----- the normal form of a flattened region -----

  ghost predicate NormalStmts(stmts: seq<Stmt>) {
    forall i :: 0 <= i < |stmts| && HasCond(stmts[i]) ==> NormalCond(stmts[i].cond)
  }

  ghost predicate NormalUnit(regions: Unit) { forall r :: 0 <= r < |regions| ==> NormalStmts(regions[r]) }

  lemma {:induction false} InheritedNormal(stmts: seq<Stmt>)
    requires NormalStmts(stmts)
    ensures NormalStmts(Inherited(stmts))
  {
    if stmts != [] { InheritedNormal(stmts[..|stmts| - 1]); }
  }

  lemma {:induction false} FlattenedNormal(regions: Unit, stmts: seq<Stmt>, stack: seq<nat>)
    requires NormalUnit(regions) && NormalStmts(stmts)
    ensures NormalStmts(Flattened(regions, stmts, stack))
    decreases |Fresh(regions, stack)|, |stmts|
  {
    hide NormalCond;
    if stmts != [] {
      var s := stmts[|stmts| - 1];
      FlattenedNormal(regions, stmts[..|stmts| - 1], stack);
      if s.Inherit? && s.region < |regions| && s.region !in stack {
        PushShrinks(regions, stack, s.region);
        InheritedNormal(regions[s.region]);
        FlattenedNormal(regions, Inherited(regions[s.region]), stack + [s.region]);
      }
    }
  }

  lemma {:induction false} FlatNormal(table: Table, stmts: seq<Stmt>)
    requires Plain(stmts) && NormalStmts(stmts)
    ensures NormalFormulas(FlatFormulas(table, stmts))
  {
    hide NormalFormula, FAnd, Encode, NormalCond;
    if stmts != [] {
      var n := |stmts| - 1;
      assert Plain(stmts[..n]);
      FlatNormal(table, stmts[..n]);
      OwnNormal(table, stmts[n]);
      match OwnFormula(table, stmts[n])
      case None =>
      case Some(f) => AndNormal([f]);
    }
  }

  lemma OwnNormal(table: Table, s: Stmt)
    requires !s.Inherit? && (HasCond(s) ==> NormalCond(s.cond))
    ensures OwnFormula(table, s).Some? ==> NormalFormula(OwnFormula(table, s).value)
  {
    hide Encode;
    match s
    case Select(c) => EncodeNormal(table, c);
    case Trigger(c) => EncodeNormal(table, c);
    case Reject(c) => EncodeNormal(table, Not(c));
    case _ =>
  }

  // ----- events -----

  /** An event that the model admits and that the background is true of. */
  ghost predicate Admitted(table: Table, regions: Unit, bg: Background, ev: Event) {
    ValidEvent(table, ev) && UnitFits(table, ev, regions) && BackgroundHolds(bg, View(table, ev))
  }

  /** Why a claim may be believed of this event: a certificate was checked, or the
      solver is honest and the event's collection sizes are integers. */
  ghost predicate Trusted(table: Table, certify: bool, oracle: Oracle, sorts: Sorts, ev: Event) {
    certify || (Honest(oracle, sorts) && WellSorted(sorts, View(table, ev)))
  }

  predicate In(table: Table, ev: Event, regions: Unit, r: nat) { RegionTruth(table, ev, regions, r) == T }

  ghost predicate CtxFor(table: Table, regions: Unit, r: nat, c: RegionCtx)
    requires r < |regions|
  {
    var stmts := Flattened(regions, regions[r], [r]);
    Plain(stmts) && c == CtxOf(c.name, r, FlatFormulas(table, stmts))
  }

  /** The region's context bounds its events from both sides. */
  lemma CtxBounds(table: Table, regions: Unit, bg: Background, r: nat, c: RegionCtx, ev: Event)
    requires table.Valid() && r < |regions| && CtxFor(table, regions, r, c)
    requires Admitted(table, regions, bg, ev)
    ensures In(table, ev, regions, r) ==> AllHold(c.overs, View(table, ev))
    ensures HoldsAll(c.unders, View(table, ev)) ==> In(table, ev, regions, r)
  {
    hide Flattened, FlatFormulas, RegionTruth, AllHold, HoldsAll, AllSat, View, BackgroundHolds, UnitFits;
    var parts := FlatFormulas(table, Flattened(regions, regions[r], [r]));
    RegionSound(table, ev, regions, r);
    CtxMeans(c.name, r, parts, View(table, ev));
  }

  /** What a pair report says about events. */
  ghost predicate PairSound(table: Table, regions: Unit, bg: Background, certify: bool, oracle: Oracle, sorts: Sorts,
      i: nat, j: nat, kind: PairKind) {
    forall ev: Event | Admitted(table, regions, bg, ev) && Trusted(table, certify, oracle, sorts, ev) ::
      match kind
      case ByInterval(_) => !(In(table, ev, regions, i) && In(table, ev, regions, j))
      case ByCore(_) => !(In(table, ev, regions, i) && In(table, ev, regions, j))
      case CandidateDisjoint(_) => true
      case NotDisjoint(aInB, bInA) =>
        && (aInB && In(table, ev, regions, i) ==> In(table, ev, regions, j))
        && (bInA && In(table, ev, regions, j) ==> In(table, ev, regions, i))
  }

  lemma ApartOnEvents(table: Table, regions: Unit, bg: Background, certify: bool, oracle: Oracle, sorts: Sorts,
      i: nat, j: nat, a: RegionCtx, b: RegionCtx, ev: Event)
    requires table.Valid() && i < |regions| && j < |regions|
    requires CtxFor(table, regions, i, a) && CtxFor(table, regions, j, b)
    requires Apart(a, b, bg, certify, oracle, sorts) || forall v: Valuation :: !(AllHold(a.overs, v) && AllHold(b.overs, v))
    requires Admitted(table, regions, bg, ev) && Trusted(table, certify, oracle, sorts, ev)
    ensures !(In(table, ev, regions, i) && In(table, ev, regions, j))
  {
    hide CtxFor, RegionTruth, AllHold, View, BackgroundHolds, UnitFits, WellSorted, Honest;
    CtxBounds(table, regions, bg, i, a, ev);
    CtxBounds(table, regions, bg, j, b, ev);
  }

  lemma WithinOnEvents(table: Table, regions: Unit, bg: Background, certify: bool, oracle: Oracle, sorts: Sorts,
      i: nat, j: nat, a: RegionCtx, b: RegionCtx, ev: Event)
    requires table.Valid() && i < |regions| && j < |regions|
    requires CtxFor(table, regions, i, a) && CtxFor(table, regions, j, b)
    requires Within(a.overs, b.unders, bg, certify, oracle, sorts)
    requires Admitted(table, regions, bg, ev) && Trusted(table, certify, oracle, sorts, ev)
    ensures In(table, ev, regions, i) ==> In(table, ev, regions, j)
  {
    hide CtxFor, RegionTruth, AllHold, View, BackgroundHolds, UnitFits, WellSorted, Honest;
    CtxBounds(table, regions, bg, i, a, ev);
    CtxBounds(table, regions, bg, j, b, ev);
  }

  /** The contexts of every region, as `encode_unit` and `build_ctx` make them. */
  method BuildContexts(table: Table, regions: Unit, names: seq<string>) returns (ctxs: seq<RegionCtx>)
    requires |names| == |regions| && NormalUnit(regions)
    ensures |ctxs| == |regions|
    ensures forall r :: 0 <= r < |regions| ==>
      ctxs[r].name == names[r] && CtxFor(table, regions, r, ctxs[r]) && NormalCtx(ctxs[r])
  {
    hide Flattened, FlatFormulas, NormalCtx, NormalStmts, NormalFormulas, StmtName, Project;
    ctxs := [];
    for r := 0 to |regions|
      invariant |ctxs| == r
      invariant forall k :: 0 <= k < r ==>
        ctxs[k].name == names[k] && CtxFor(table, regions, k, ctxs[k]) && NormalCtx(ctxs[k])
    {
      var stmts, parts := EncodeUnitRegion(table, regions, r);
      FlattenedNormal(regions, regions[r], [r]);
      FlatNormal(table, stmts);
      CtxNormal(names[r], r, parts);
      ctxs := ctxs + [CtxOf(names[r], r, parts)];
    }
  }

  datatype PairReport = PairReport(a: nat, b: nat, kind: PairKind)

  ghost predicate Reported(reports: seq<PairReport>, a: nat, b: nat) {
    exists k :: 0 <= k < |reports| && reports[k].a == a && reports[k].b == b
  }

  /** Every pair that precedes (i, j) has its report. */
  ghost predicate InOrder(reports: seq<PairReport>, n: nat, i: nat, j: nat) {
    && (forall a: nat, b: nat :: a < b < n && (a < i || (a == i && b < j)) ==> Reported(reports, a, b))
    && (forall k :: 0 <= k < |reports| ==> reports[k].a < reports[k].b < n)
  }

  /** Analyse every pair of regions. Whatever the solver answers, each report is
      true of every admitted event, and every pair gets one. */
  method AnalyzePairs(table: Table, regions: Unit, names: seq<string>, solver: Solver?, certify: bool, bg: Background,
      presence: QuantityId -> Presence) returns (reports: seq<PairReport>)
    requires table.Valid() && |names| == |regions| && NormalUnit(regions) && NormalBackground(bg)
    requires solver != null ==> Grounded(solver, bg)
    modifies solver
    ensures solver != null ==> Grounded(solver, bg)
    ensures InOrder(reports, |regions|, |regions|, 0)
    ensures forall k :: 0 <= k < |reports| ==>
      PairSound(table, regions, bg, certify, OracleOf(solver), SortsOf(solver), reports[k].a, reports[k].b, reports[k].kind)
    ensures forall k :: 0 <= k < |reports| ==> Answered(reports[k], table, regions, names, presence, certify, bg, OracleOf(solver))
  {
    hide Answered, PairAnswers, CtxFor, PairSound, NormalCtx, NormalUnit, NormalBackground, AllHold, OracleOf, SortsOf, Grounded, Apart, Within;
    var ctxs := BuildContexts(table, regions, names);
    reports := [];
    for i := 0 to |regions|
      invariant solver != null ==> Grounded(solver, bg)
      invariant InOrder(reports, |regions|, i, 0)
      invariant forall k :: 0 <= k < |reports| ==> Answered(reports[k], table, regions, names, presence, certify, bg, OracleOf(solver))
      invariant forall k :: 0 <= k < |reports| ==>
        PairSound(table, regions, bg, certify, OracleOf(solver), SortsOf(solver), reports[k].a, reports[k].b, reports[k].kind)
    {
      for j := i + 1 to |regions|
        invariant solver != null ==> Grounded(solver, bg)
        invariant InOrder(reports, |regions|, i, j)
        invariant forall k :: 0 <= k < |reports| ==> Answered(reports[k], table, regions, names, presence, certify, bg, OracleOf(solver))
        invariant forall k :: 0 <= k < |reports| ==>
          PairSound(table, regions, bg, certify, OracleOf(solver), SortsOf(solver), reports[k].a, reports[k].b, reports[k].kind)
      {
        ghost var n := AskedOf(solver);
        var kind := AnalyzePair(table, regions, i, j, ctxs[i], ctxs[j], solver, certify, bg, presence);
        ghost var before := reports;
        IsAnswered(PairReport(i, j, kind), table, regions, names, presence, certify, bg, OracleOf(solver), ctxs[i], ctxs[j], n);
        reports := reports + [PairReport(i, j, kind)];
        AppendInOrder(before, |regions|, i, j, kind);
      }
    }
  }

  /** The report follows what the layer and the solver say of the two regions. */
  ghost predicate Answered(r: PairReport, table: Table, regions: Unit, names: seq<string>, presence: QuantityId -> Presence,
      certify: bool, bg: Background, oracle: Oracle) {
    && r.a < |regions| && r.b < |regions| && |names| == |regions|
    && exists a: RegionCtx, b: RegionCtx, n: nat ::
      CtxFor(table, regions, r.a, a) && a.name == names[r.a] && CtxFor(table, regions, r.b, b) && b.name == names[r.b]
      && PairAnswers(r.kind, a, b, presence, certify, bg, oracle, n)
  }

  lemma IsAnswered(r: PairReport, table: Table, regions: Unit, names: seq<string>, presence: QuantityId -> Presence,
      certify: bool, bg: Background, oracle: Oracle, a: RegionCtx, b: RegionCtx, n: nat)
    requires r.a < |regions| && r.b < |regions| && |names| == |regions|
    requires CtxFor(table, regions, r.a, a) && a.name == names[r.a] && CtxFor(table, regions, r.b, b) && b.name == names[r.b]
    requires PairAnswers(r.kind, a, b, presence, certify, bg, oracle, n)
    ensures Answered(r, table, regions, names, presence, certify, bg, oracle)
  {
    hide CtxFor, PairAnswers;
  }

  lemma AppendInOrder(reports: seq<PairReport>, n: nat, i: nat, j: nat, kind: PairKind)
    requires InOrder(reports, n, i, j) && i < j < n
    ensures InOrder(reports + [PairReport(i, j, kind)], n, i, j + 1)
  {
    var more := reports + [PairReport(i, j, kind)];
    assert more[|reports|] == PairReport(i, j, kind);
    forall a: nat, b: nat | a < b < n && (a < i || (a == i && b < j + 1)) ensures Reported(more, a, b) {
      if a == i && b == j {
        assert more[|reports|].a == a;
      } else {
        assert Reported(reports, a, b);
        var k :| 0 <= k < |reports| && reports[k].a == a && reports[k].b == b;
        assert more[k] == reports[k];
      }
    }
  }

  method AnalyzePair(table: Table, regions: Unit, i: nat, j: nat, a: RegionCtx, b: RegionCtx, solver: Solver?, certify: bool,
      bg: Background, presence: QuantityId -> Presence) returns (kind: PairKind)
    requires table.Valid() && i < j < |regions| && NormalBackground(bg)
    requires CtxFor(table, regions, i, a) && CtxFor(table, regions, j, b) && NormalCtx(a) && NormalCtx(b)
    requires solver != null ==> Grounded(solver, bg)
    modifies solver
    ensures solver != null ==> Grounded(solver, bg)
    ensures PairSound(table, regions, bg, certify, OracleOf(solver), SortsOf(solver), i, j, kind)
    ensures PairAnswers(kind, a, b, presence, certify, bg, OracleOf(solver), old(AskedOf(solver)))
  {
    hide PairAnswers, CtxFor, NormalCtx, NormalBackground, AllHold, Apart, Within, NamesAgree, Trusted, Admitted, In, Grounded;
    PairNames(table, regions, i, j, a, b);
    kind := PairVerdict(solver, certify, a, b, bg, presence);
    forall ev: Event | Admitted(table, regions, bg, ev) && Trusted(table, certify, OracleOf(solver), SortsOf(solver), ev)
      ensures match kind
        case ByInterval(_) => !(In(table, ev, regions, i) && In(table, ev, regions, j))
        case ByCore(_) => !(In(table, ev, regions, i) && In(table, ev, regions, j))
        case CandidateDisjoint(_) => true
        case NotDisjoint(aInB, bInA) =>
          && (aInB && In(table, ev, regions, i) ==> In(table, ev, regions, j))
          && (bInA && In(table, ev, regions, j) ==> In(table, ev, regions, i))
    {
      match kind {
        case ByInterval(_) =>
          ApartOnEvents(table, regions, bg, certify, OracleOf(solver), SortsOf(solver), i, j, a, b, ev);
        case ByCore(_) =>
          ApartOnEvents(table, regions, bg, certify, OracleOf(solver), SortsOf(solver), i, j, a, b, ev);
        case CandidateDisjoint(_) =>
        case NotDisjoint(aInB, bInA) =>
          if aInB { WithinOnEvents(table, regions, bg, certify, OracleOf(solver), SortsOf(solver), i, j, a, b, ev); }
          if bInA { WithinOnEvents(table, regions, bg, certify, OracleOf(solver), SortsOf(solver), j, i, b, a, ev); }
      }
    }
  }

  lemma PairNames(table: Table, regions: Unit, i: nat, j: nat, a: RegionCtx, b: RegionCtx)
    requires i < j < |regions| && CtxFor(table, regions, i, a) && CtxFor(table, regions, j, b)
    ensures NamesAgree(a.overs + b.overs)
  {
    hide FlatFormulas, Flattened, NamesAgree;
    CtxNamesAgree(a.name, i, FlatFormulas(table, Flattened(regions, regions[i], [i])),
      b.name, j, FlatFormulas(table, Flattened(regions, regions[j], [j])));
  }

  // ----- empty regions and bins, on events -----

  /** A region proven empty selects no event. */
  lemma EmptyOnEvents(table: Table, regions: Unit, bg: Background, certify: bool, oracle: Oracle, sorts: Sorts,
      r: nat, c: RegionCtx, ev: Event)
    requires table.Valid() && r < |regions| && CtxFor(table, regions, r, c)
    requires SelectsNothing(c.overs, bg, certify, oracle, sorts) || forall v: Valuation :: !AllHold(c.overs, v)
    requires Admitted(table, regions, bg, ev) && Trusted(table, certify, oracle, sorts, ev)
    ensures !In(table, ev, regions, r)
  {
    hide CtxFor, RegionTruth, AllHold, View, BackgroundHolds, UnitFits, WellSorted, Honest;
    CtxBounds(table, regions, bg, r, c, ev);
  }

  function BinOvers(table: Table, bins: seq<Cond>): seq<QFormula> {
    seq(|bins|, i requires 0 <= i < |bins| => Over(Encode(table, bins[i])))
  }

  function BinUnders(table: Table, bins: seq<Cond>): seq<QFormula> {
    seq(|bins|, i requires 0 <= i < |bins| => Under(Encode(table, bins[i])))
  }

  predicate InBin(table: Table, ev: Event, bins: seq<Cond>, i: nat)
    requires i < |bins|
  {
    Truth(table, ev, bins[i]) == T
  }

  predicate OnlyBin(table: Table, ev: Event, bins: seq<Cond>, i: nat)
    requires i < |bins|
  {
    InBin(table, ev, bins, i) && forall j | 0 <= j < |bins| :: InBin(table, ev, bins, j) ==> j == i
  }

  /** When every pair of bins was proven disjoint and the bins were proven to
      cover the region, each of its events lies in exactly one bin. */
  lemma BinsPartition(table: Table, regions: Unit, bg: Background, certify: bool, oracle: Oracle, sorts: Sorts,
      r: nat, c: RegionCtx, bins: seq<Cond>, ev: Event)
    requires table.Valid() && r < |regions| && CtxFor(table, regions, r, c)
    requires PairsApart(c.overs, BinOvers(table, bins), |bins|, 0, bg, certify, oracle, sorts)
    requires Covers(c.overs, BinUnders(table, bins), bg, certify, oracle, sorts)
    requires Admitted(table, regions, bg, ev) && Trusted(table, certify, oracle, sorts, ev)
    requires forall i :: 0 <= i < |bins| ==> CondFits(table, ev, bins[i])
    requires In(table, ev, regions, r)
    ensures exists i :: 0 <= i < |bins| && OnlyBin(table, ev, bins, i)
  {
    hide CtxFor, RegionTruth, AllHold, View, BackgroundHolds, UnitFits, WellSorted, Honest, Encode, Truth, Holds, Project;
    var v, overs, unders := View(table, ev), BinOvers(table, bins), BinUnders(table, bins);
    CtxBounds(table, regions, bg, r, c, ev);
    forall i | 0 <= i < |bins|
      ensures InBin(table, ev, bins, i) ==> Holds(overs[i], v)
      ensures Holds(unders[i], v) ==> InBin(table, ev, bins, i)
    {
      EncodeAgrees(table, ev, bins[i]);
    }
    assert SomeHolds(unders, v);
    var i :| 0 <= i < |unders| && Holds(unders[i], v);
    forall k, l | 0 <= k < l < |bins| ensures !(InBin(table, ev, bins, k) && InBin(table, ev, bins, l)) {
      assert BinsApart(c.overs, overs[k], overs[l], bg, certify, oracle, sorts);
    }
    assert OnlyBin(table, ev, bins, i);
  }
}
