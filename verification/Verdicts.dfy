/** Region verdicts from an untrusted solver: what each claim means, and that a
    lying solver cannot produce a false one once certification is on. */
module Verdicts {
  import opened Linear
  import opened Formulas
  import opened Saturation
  import opened Certificates
  import opened Search
  import opened Intervals
  import opened IntervalAgreement
  import opened Solving
  import opened Numerals

  /** What the analysis keeps of a region. */
  datatype RegionCtx = RegionCtx(name: string, overs: Overs, unders: seq<QFormula>)

  ghost predicate NormalCtx(c: RegionCtx) { AllNormalNamed(c.overs) && AllNormal(c.unders) }

  /** The solver holds the background in its base frame, and nothing else. */
  ghost predicate Grounded(solver: Solver, bg: Background)
    reads solver
  {
    solver.frames == [Available([], bg)]
  }

  /** No valuation meets the query: none at all once a certificate was checked,
      none that is integral on collection sizes if the solver is honest. */
  ghost predicate Excluded(named: Assertions, bg: Background, certify: bool, oracle: Oracle, sorts: Sorts) {
    && (certify ==> Incompatible(named, bg))
    && (Honest(oracle, sorts) ==>
      forall v: Valuation :: WellSorted(sorts, v) ==> !(AllHold(named, v) && BackgroundHolds(bg, v)))
  }

  lemma AllHoldConcat(a: Assertions, b: Assertions, v: Valuation)
    ensures AllHold(a + b, v) <==> AllHold(a, v) && AllHold(b, v)
  {
    if AllHold(a + b, v) {
      forall k | 0 <= k < |a| ensures Holds(a[k].1, v) { assert (a + b)[k] == a[k]; }
      forall k | 0 <= k < |b| ensures Holds(b[k].1, v) { assert (a + b)[|a| + k] == b[k]; }
    }
  }

  lemma HonestExcludes(named: Assertions, bg: Background, oracle: Oracle, sorts: Sorts, n: nat)
    requires Honest(oracle, sorts) && oracle(n, [Available([], bg)] + [named]).result == Unsat
    ensures forall v: Valuation :: WellSorted(sorts, v) ==> !(AllHold(named, v) && BackgroundHolds(bg, v))
  {
    hide Available;
    var base := Available([], bg);
    var frames := [base] + [named];
    assert frames[..1] == [base] && [base][..0] == [] && Flat([]) == [];
    assert Flat([base]) == Flat([]) + base == base;
    assert Flat(frames) == base + named;
    forall v: Valuation | WellSorted(sorts, v) ensures !(AllHold(named, v) && BackgroundHolds(bg, v)) {
      assert !AllHold(Flat(frames), v);
      AllHoldConcat(base, named, v);
      AvailableHolds([], bg, v);
    }
  }

  datatype QueryResult = QueryResult(answer: SatResult, cert: Certification)

  /** A refuted query that certification did not turn down. */
  predicate Claims(r: QueryResult) { r.answer == Unsat && !r.cert.No? }

  /** What the solver says of a query on top of the background. */
  ghost function Reply(oracle: Oracle, n: nat, named: Assertions, bg: Background): Answer {
    oracle(n, [Available([], bg)] + [named])
  }

  /** A refutation, with a core that certification can check if it has to. */
  ghost predicate Convinces(a: Answer, certify: bool, named: Assertions, bg: Background) {
    a.result == Unsat && (certify ==> Provable(a.core, named, bg))
  }

  /** A claim rests on a refutation, and every convincing one is claimed. */
  ghost predicate Answers(claim: bool, oracle: Oracle, n: nat, certify: bool, named: Assertions, bg: Background) {
    && (claim ==> Reply(oracle, n, named, bg).result == Unsat)
    && (Convinces(Reply(oracle, n, named, bg), certify, named, bg) ==> claim)
  }

  /** One query in its own frame: push, assert under names, check, pop, certify. */
  method Query(solver: Solver, certify: bool, named: Assertions, bg: Background) returns (r: QueryResult)
    requires Grounded(solver, bg) && AllNormalNamed(named) && NormalBackground(bg)
    modifies solver
    ensures Grounded(solver, bg)
    ensures Claims(r) ==> Excluded(named, bg, certify, solver.oracle, solver.sorts)
    ensures r.cert.No? ==> certify
    ensures r.answer == Unsat && certify ==> !r.cert.Off?
    ensures solver.asked == old(solver.asked) + 1
    ensures r.answer == Reply(solver.oracle, old(solver.asked), named, bg).result
    ensures Answers(Claims(r), solver.oracle, old(solver.asked), certify, named, bg)
    ensures r.answer == Unsat ==> Certifies(r.cert, certify, Reply(solver.oracle, old(solver.asked), named, bg).core, named, bg)
  {
    hide Certifies, Available, BackgroundHolds, WellSorted, Replay, AllHold, WithinBudget, Satisfiable, ByName, CoreFormulas, NormalAtoms,
      Provable;
    solver.Push();
    solver.AssertAll(named);
    assert [] + named == named;
    assert solver.frames == [Available([], bg)] + [named];
    ghost var n := solver.asked;
    var answer := solver.CheckUnsat();
    var core: Option<seq<Name>> := None;
    if answer == Unsat {
      core := solver.UnsatCore();
    }
    solver.Pop();
    assert solver.frames == [Available([], bg)];
    r := QueryResult(answer, Off);
    if answer == Unsat {
      var cert := CertifyNamedFormulas(certify, core, named, bg);
      r := QueryResult(answer, cert);
      if Honest(solver.oracle, solver.sorts) { HonestExcludes(named, bg, solver.oracle, solver.sorts, n); }
    }
  }

  // ----- disjointness -----

  ghost predicate Apart(a: RegionCtx, b: RegionCtx, bg: Background, certify: bool, oracle: Oracle, sorts: Sorts) {
    && (certify ==> forall v: Valuation :: BackgroundHolds(bg, v) ==> !(AllHold(a.overs, v) && AllHold(b.overs, v)))
    && (Honest(oracle, sorts) ==> forall v: Valuation ::
      WellSorted(sorts, v) && BackgroundHolds(bg, v) ==> !(AllHold(a.overs, v) && AllHold(b.overs, v)))
  }

  lemma ExcludedApart(a: RegionCtx, b: RegionCtx, named: Assertions, bg: Background, certify: bool, oracle: Oracle, sorts: Sorts)
    requires named == a.overs + b.overs || named == b.overs + a.overs
    requires Excluded(named, bg, certify, oracle, sorts)
    ensures Apart(a, b, bg, certify, oracle, sorts)
  {
    hide BackgroundHolds, WellSorted, AllHold, Honest;
    forall v: Valuation ensures AllHold(named, v) <==> AllHold(a.overs, v) && AllHold(b.overs, v) {
      AllHoldConcat(a.overs, b.overs, v);
      AllHoldConcat(b.overs, a.overs, v);
    }
  }

  // ----- inclusion -----

  /** The exact negation of the conjunction of the under-projections. */
  function NegatedUnder(unders: seq<QFormula>): QFormula {
    QOr(seq(|unders|, i requires 0 <= i < |unders| => QNot(unders[i])))
  }

  lemma NegatedUnderFlips(unders: seq<QFormula>, v: Valuation)
    ensures Holds(NegatedUnder(unders), v) <==> !HoldsAll(unders, v)
  {
    var items := NegatedUnder(unders).items;
    forall i | 0 <= i < |unders| ensures Holds(items[i], v) <==> !Holds(unders[i], v) { QNotFlips(unders[i], v); }
    if f :| f in unders && !Holds(f, v) {
      var i :| 0 <= i < |unders| && unders[i] == f;
      assert items[i] in items;
    }
  }

  lemma {:induction false} QNotNormal(f: QFormula)
    requires NormalAtoms(f)
    ensures NormalAtoms(QNot(f))
  {
    match f
    case QAnd(items) => forall x | x in items { QNotNormal(x); }
    case QOr(items) => forall x | x in items { QNotNormal(x); }
    case _ =>
  }

  lemma NegatedUnderNormal(unders: seq<QFormula>)
    requires AllNormal(unders)
    ensures NormalAtoms(NegatedUnder(unders))
  {
    forall f | f in unders { QNotNormal(f); }
  }

  /** The named query of an inclusion: the overs of one side and the negated
      under-projection of the other. */
  function SubsetQuery(overs: Overs, unders: seq<QFormula>): Assertions {
    seq(|overs|, k requires 0 <= k < |overs| => ("QSUB" + Digits(k), overs[k].1)) + [("QSUBNEG", NegatedUnder(unders))]
  }

  ghost predicate Within(overs: Overs, unders: seq<QFormula>, bg: Background, certify: bool, oracle: Oracle, sorts: Sorts) {
    && (certify ==> forall v: Valuation :: BackgroundHolds(bg, v) && AllHold(overs, v) ==> HoldsAll(unders, v))
    && (Honest(oracle, sorts) ==> forall v: Valuation ::
      WellSorted(sorts, v) && BackgroundHolds(bg, v) && AllHold(overs, v) ==> HoldsAll(unders, v))
  }

  lemma SubsetQueryHolds(overs: Overs, unders: seq<QFormula>, v: Valuation)
    ensures AllHold(SubsetQuery(overs, unders), v) <==> AllHold(overs, v) && !HoldsAll(unders, v)
  {
    hide Digits, NegatedUnder, Holds;
    var q := SubsetQuery(overs, unders);
    NegatedUnderFlips(unders, v);
    assert q[|overs|].1 == NegatedUnder(unders);
    assert forall k :: 0 <= k < |overs| ==> q[k].1 == overs[k].1;
  }

  /** The subset claim `sub within sup`. */
  method RegionSubset(solver: Solver, certify: bool, overs: Overs, unders: seq<QFormula>, bg: Background) returns (r: bool)
    requires Grounded(solver, bg) && AllNormalNamed(overs) && AllNormal(unders) && NormalBackground(bg)
    modifies solver
    ensures Grounded(solver, bg)
    ensures r ==> Within(overs, unders, bg, certify, solver.oracle, solver.sorts)
    ensures solver.asked == old(solver.asked) + 1
    ensures Answers(r, solver.oracle, old(solver.asked), certify, SubsetQuery(overs, unders), bg)
  {
    hide Digits, NegatedUnder, Honest, WellSorted, BackgroundHolds, AllHold, HoldsAll, NormalAtoms, Answers;
    NegatedUnderNormal(unders);
    var named: Assertions := [];
    for k := 0 to |overs|
      invariant |named| == k && forall j :: 0 <= j < k ==> named[j] == ("QSUB" + Digits(j), overs[j].1)
    {
      named := named + [("QSUB" + Digits(k), overs[k].1)];
    }
    named := named + [("QSUBNEG", NegatedUnder(unders))];
    assert named == SubsetQuery(overs, unders);
    var q := Query(solver, certify, named, bg);
    r := Claims(q);
    forall v: Valuation { SubsetQueryHolds(overs, unders, v); }
  }

  // ----- the pair verdict -----

  datatype PairKind =
    | ByInterval(bounds: IntervalCert)
    | ByCore(cert: Certification)
    | CandidateDisjoint(why: Refusal)
    | NotDisjoint(aInB: bool, bInA: bool)

  /** Lexicographic order on report names, which fixes the order of the queries. */
  function Precedes(a: string, b: string): bool {
    if a == "" then true
    else if b == "" then false
    else if a[0] != b[0] then a[0] < b[0]
    else Precedes(a[1..], b[1..])
  }

  lemma {:induction false} PrecedesExactly(a: string, b: string)
    ensures Precedes(a, b) <==> a <= b || exists i :: 0 <= i < |a| && i < |b| && a[..i] == b[..i] && a[i] < b[i]
  {
    if a != "" && b != "" && a[0] == b[0] {
      PrecedesExactly(a[1..], b[1..]);
      assert a == [a[0]] + a[1..] && b == [b[0]] + b[1..];
      if i :| 0 <= i < |a| && i < |b| && a[..i] == b[..i] && a[i] < b[i] {
        assert a[1..][..i - 1] == a[..i][1..] && b[1..][..i - 1] == b[..i][1..];
        assert a[1..][i - 1] < b[1..][i - 1];
      }
      if i :| 0 <= i < |a[1..]| && i < |b[1..]| && a[1..][..i] == b[1..][..i] && a[1..][i] < b[1..][i] {
        assert a[..i + 1] == [a[0]] + a[1..][..i] && b[..i + 1] == [b[0]] + b[1..][..i];
        assert a[i + 1] < b[i + 1];
      }
    } else if a != "" && b != "" {
      assert a[..0] == b[..0];
    }
  }

  /** The query of the pair itself, in the order of the report names. */
  function PairQuery(a: RegionCtx, b: RegionCtx): Assertions {
    if Precedes(a.name, b.name) then a.overs + b.overs else b.overs + a.overs
  }

  /** The report follows the interval layer, then the solver's answers to the
      pair and to the two inclusions, asked in the order of the report names. */
  ghost predicate PairAnswers(r: PairKind, a: RegionCtx, b: RegionCtx, presence: QuantityId -> Presence, certify: bool,
      bg: Background, oracle: Oracle, n: nat) {
    var answer := Reply(oracle, n, PairQuery(a, b), bg);
    && (r.ByInterval? <==> LayerRefutes(a.overs, b.overs, presence))
    && (!r.ByInterval? ==> Answers(r.ByCore?, oracle, n, certify, PairQuery(a, b), bg))
    && (!r.ByInterval? ==> (r.NotDisjoint? <==> answer.result != Unsat))
    && (r.NotDisjoint? ==>
      var later := if Precedes(a.name, b.name) then 1 else 2;
      && Answers(r.aInB, oracle, n + later, certify, SubsetQuery(a.overs, b.unders), bg)
      && Answers(r.bInA, oracle, n + 3 - later, certify, SubsetQuery(b.overs, a.unders), bg))
  }

  /** Disjointness of a pair of regions, then inclusion both ways: interval layer
      first, solver second. Every claim is true of the background's valuations. */
  method PairVerdict(solver: Solver?, certify: bool, a: RegionCtx, b: RegionCtx, bg: Background,
      presence: QuantityId -> Presence) returns (r: PairKind)
    requires NamesAgree(a.overs + b.overs)
    requires NormalCtx(a) && NormalCtx(b) && NormalBackground(bg)
    requires solver != null ==> Grounded(solver, bg)
    modifies solver
    ensures solver != null ==> Grounded(solver, bg)
    ensures r.ByInterval? ==> r.bounds.Accepted? && forall v: Valuation :: !(AllHold(a.overs, v) && AllHold(b.overs, v))
    ensures r.ByCore? ==> solver != null && !r.cert.No? && Apart(a, b, bg, certify, solver.oracle, solver.sorts)
    ensures r.CandidateDisjoint? ==> certify
    ensures r.NotDisjoint? && r.aInB ==>
      solver != null && Within(a.overs, b.unders, bg, certify, solver.oracle, solver.sorts)
    ensures r.NotDisjoint? && r.bInA ==>
      solver != null && Within(b.overs, a.unders, bg, certify, solver.oracle, solver.sorts)
    ensures PairAnswers(r, a, b, presence, certify, bg, OracleOf(solver), old(AskedOf(solver)))
    ensures var core := Reply(OracleOf(solver), old(AskedOf(solver)), PairQuery(a, b), bg).core;
      && (r.ByCore? ==> Certifies(r.cert, certify, core, PairQuery(a, b), bg))
      && (r.CandidateDisjoint? ==> Certifies(No(r.why), certify, core, PairQuery(a, b), bg))
  {
    hide Certifies, Provable, SubsetQuery, LayerRefutes, AllHold, BackgroundHolds, WellSorted, Honest, Available, Within, Apart, NormalAtoms,
      SummaryOf, NamesAgree;
    var layer := IntervalPair(a.overs, b.overs, presence);
    if layer.ProvenDisjoint? { return ByInterval(layer.cert); }
    if solver == null { return NotDisjoint(false, false); }
    var aFirst := Precedes(a.name, b.name);
    var c1, c2 := if aFirst then a else b, if aFirst then b else a;
    var named := c1.overs + c2.overs;
    var q := Query(solver, certify, named, bg);
    if q.answer == Unsat {
      if Claims(q) {
        ExcludedApart(a, b, named, bg, certify, solver.oracle, solver.sorts);
        return ByCore(q.cert);
      }
      return CandidateDisjoint(q.cert.why);
    }
    var oneInTwo := RegionSubset(solver, certify, c1.overs, c2.unders, bg);
    var twoInOne := RegionSubset(solver, certify, c2.overs, c1.unders, bg);
    r := if aFirst then NotDisjoint(oneInTwo, twoInOne) else NotDisjoint(twoInOne, oneInTwo);
  }

  // ----- emptiness -----

  datatype EmptyStatus = ProvenEmpty | CandidateEmpty | NotEmpty | EmptyUnknown

  ghost predicate SelectsNothing(overs: Overs, bg: Background, certify: bool, oracle: Oracle, sorts: Sorts) {
    && (certify ==> forall v: Valuation :: BackgroundHolds(bg, v) ==> !AllHold(overs, v))
    && (Honest(oracle, sorts) ==> forall v: Valuation :: WellSorted(sorts, v) && BackgroundHolds(bg, v) ==> !AllHold(overs, v))
  }

  method RegionEmptiness(solver: Solver?, certify: bool, a: RegionCtx, bg: Background) returns (status: EmptyStatus)
    requires NormalCtx(a) && NormalBackground(bg)
    requires solver != null ==> Grounded(solver, bg)
    modifies solver
    ensures solver != null ==> Grounded(solver, bg)
    ensures status == ProvenEmpty ==>
      || (forall v: Valuation :: !AllHold(a.overs, v))
      || (solver != null && SelectsNothing(a.overs, bg, certify, solver.oracle, solver.sorts))
    ensures VisiblyEmpty(SummaryOf(a.overs, |a.overs|)) ==> status == ProvenEmpty
    ensures !VisiblyEmpty(SummaryOf(a.overs, |a.overs|)) ==>
      var answer := Reply(OracleOf(solver), old(AskedOf(solver)), a.overs, bg);
      && Answers(status == ProvenEmpty, OracleOf(solver), old(AskedOf(solver)), certify, a.overs, bg)
      && (status == NotEmpty <==> answer.result == SomeModel) && (status == EmptyUnknown <==> answer.result.Unsure?)
  {
    hide Provable, VisiblyEmpty, AllHold, BackgroundHolds, WellSorted, Honest, Available, NormalAtoms, SummaryOf;
    var m := BuildContext(a.overs);
    SummaryOfTraced(a.overs, |a.overs|);
    assert m.Contents() == SummaryOf(a.overs, |a.overs|);
    var empty := SelfEmpty(m);
    if empty.Some? {
      SelfEmptySound(empty.value, a.overs);
      return ProvenEmpty;
    }
    if solver == null { return EmptyUnknown; }
    var q := Query(solver, certify, a.overs, bg);
    status := match q.answer
      case Unsat => if q.cert.No? then CandidateEmpty else ProvenEmpty
      case SomeModel => NotEmpty
      case Unsure(_) => EmptyUnknown;
  }

  // ----- bins -----

  /** No valuation of the region lies in both bins. */
  ghost predicate BinsApart(overs: Overs, x: QFormula, y: QFormula, bg: Background, certify: bool, oracle: Oracle, sorts: Sorts) {
    && (certify ==> forall v: Valuation :: BackgroundHolds(bg, v) && AllHold(overs, v) ==> !(Holds(x, v) && Holds(y, v)))
    && (Honest(oracle, sorts) ==> forall v: Valuation ::
      WellSorted(sorts, v) && BackgroundHolds(bg, v) && AllHold(overs, v) ==> !(Holds(x, v) && Holds(y, v)))
  }

  lemma BinQueryHolds(overs: Overs, x: QFormula, y: QFormula, v: Valuation)
    ensures AllHold(overs + [("QBINI", x), ("QBINJ", y)], v) <==> AllHold(overs, v) && Holds(x, v) && Holds(y, v)
  {
    var q: Overs := [("QBINI", x), ("QBINJ", y)];
    AllHoldConcat(overs, q, v);
    assert q[0].1 == x && q[1].1 == y;
  }

  function BinQuery(overs: Overs, x: QFormula, y: QFormula): Assertions { overs + [("QBINI", x), ("QBINJ", y)] }

  method BinsDisjoint(solver: Solver, certify: bool, overs: Overs, x: QFormula, y: QFormula, bg: Background) returns (r: bool)
    requires Grounded(solver, bg) && NormalBackground(bg)
    requires AllNormalNamed(overs) && NormalAtoms(x) && NormalAtoms(y)
    modifies solver
    ensures Grounded(solver, bg)
    ensures r ==> BinsApart(overs, x, y, bg, certify, solver.oracle, solver.sorts)
    ensures solver.asked == old(solver.asked) + 1
    ensures Answers(r, solver.oracle, old(solver.asked), certify, BinQuery(overs, x, y), bg)
  {
    hide Answers, AllHold, BackgroundHolds, WellSorted, Honest, Available, NormalAtoms, Holds;
    var named := overs + [("QBINI", x), ("QBINJ", y)];
    var q := Query(solver, certify, named, bg);
    r := Claims(q);
    forall v: Valuation { BinQueryHolds(overs, x, y, v); }
  }

  lemma OneMoreHolds(overs: Overs, name: Name, f: QFormula, v: Valuation)
    ensures AllHold(overs + [(name, f)], v) <==> AllHold(overs, v) && Holds(f, v)
  {
    AllHoldConcat(overs, [(name, f)], v);
    assert [(name, f)][0].1 == f;
  }

  /** The solverless check of two bins, over the region's intervals extended by
      each bin in turn. */
  method BinsDisjointByInterval(overs: Overs, x: QFormula, y: QFormula) returns (r: bool)
    ensures r ==> forall v: Valuation :: AllHold(overs, v) ==> !(Holds(x, v) && Holds(y, v))
    ensures r <==> LayerRefutes(overs + [("QBINI", x)], overs + [("QBINJ", y)], _ => Total)
  {
    hide Reports, VisiblyEmpty, AllHold, SummaryOf, Holds, Inside, Refutation;
    var xs, ys := overs + [("QBINI", x)], overs + [("QBINJ", y)];
    forall v: Valuation { OneMoreHolds(overs, "QBINI", x, v); }
    forall v: Valuation { OneMoreHolds(overs, "QBINJ", y, v); }
    var a := BuildContext(xs);
    var b := BuildContext(ys);
    assert a.Contents() == SummaryOf(xs, |xs|) && b.Contents() == SummaryOf(ys, |ys|);
    var ea := SelfEmpty(a);
    if ea.Some? {
      SelfEmptySound(ea.value, xs);
      return true;
    }
    var eb := SelfEmpty(b);
    if eb.Some? {
      SelfEmptySound(eb.value, ys);
      return true;
    }
    var d := DisjointWith(a, b, _ => Total);
    if d.Some? {
      RefutationExact(d.value.a, d.value.b);
      forall v: Valuation ensures !(AllHold(xs, v) && AllHold(ys, v)) {
        if AllHold(xs, v) && AllHold(ys, v) {
          RegionInside(xs, d.value.q, d.value.a, v);
          RegionInside(ys, d.value.q, d.value.b, v);
        }
      }
      return true;
    }
    r := false;
  }

  datatype CoverageStatus = Covered | NotCovered | CoverageUnknown

  ghost predicate SomeHolds(fs: seq<QFormula>, v: Valuation) { exists k :: 0 <= k < |fs| && Holds(fs[k], v) }

  /** Every valuation of the region lies in some bin's under-projection. */
  ghost predicate Covers(overs: Overs, unders: seq<QFormula>, bg: Background, certify: bool, oracle: Oracle, sorts: Sorts) {
    && (certify ==> forall v: Valuation :: BackgroundHolds(bg, v) && AllHold(overs, v) ==> SomeHolds(unders, v))
    && (Honest(oracle, sorts) ==> forall v: Valuation ::
      WellSorted(sorts, v) && BackgroundHolds(bg, v) && AllHold(overs, v) ==> SomeHolds(unders, v))
  }

  function NegatedBins(unders: seq<QFormula>, n: nat): Assertions
    requires n <= |unders|
  {
    if n == 0 then [] else NegatedBins(unders, n - 1) + [("QBINNEG" + Digits(n - 1), QNot(unders[n - 1]))]
  }

  lemma {:induction false} NegatedBinsHold(overs: Overs, unders: seq<QFormula>, n: nat, v: Valuation)
    requires n <= |unders|
    ensures AllHold(overs + NegatedBins(unders, n), v) <==>
      AllHold(overs, v) && forall k :: 0 <= k < n ==> !Holds(unders[k], v)
  {
    hide AllHold, Holds, Digits, QNot;
    if n == 0 {
      assert overs + NegatedBins(unders, 0) == overs;
    } else {
      var rest, name := overs + NegatedBins(unders, n - 1), "QBINNEG" + Digits(n - 1);
      NegatedBinsHold(overs, unders, n - 1, v);
      assert overs + NegatedBins(unders, n) == rest + [(name, QNot(unders[n - 1]))];
      OneMoreHolds(rest, name, QNot(unders[n - 1]), v);
      QNotFlips(unders[n - 1], v);
    }
  }

  method BinCoverage(solver: Solver?, certify: bool, overs: Overs, unders: seq<QFormula>, bg: Background)
    returns (status: CoverageStatus)
    requires solver != null ==> Grounded(solver, bg)
    requires AllNormalNamed(overs) && AllNormal(unders) && NormalBackground(bg)
    modifies solver
    ensures solver != null ==> Grounded(solver, bg)
    ensures status == Covered ==> solver != null && Covers(overs, unders, bg, certify, solver.oracle, solver.sorts)
    ensures var query := overs + NegatedBins(unders, |unders|);
      && Answers(status == Covered, OracleOf(solver), old(AskedOf(solver)), certify, query, bg)
      && (status == CoverageUnknown <==> Reply(OracleOf(solver), old(AskedOf(solver)), query, bg).result.Unsure?)
  {
    hide Provable, AllHold, BackgroundHolds, WellSorted, Honest, Available, NormalAtoms, Holds, Digits, QNot;
    if solver == null { return CoverageUnknown; }
    var named := overs;
    for k := 0 to |unders|
      invariant Grounded(solver, bg) && solver.asked == old(solver.asked)
      invariant named == overs + NegatedBins(unders, k) && AllNormalNamed(named)
    {
      QNotNormal(unders[k]);
      named := named + [("QBINNEG" + Digits(k), QNot(unders[k]))];
    }
    var q := Query(solver, certify, named, bg);
    status := match q.answer
      case Unsat => if q.cert.No? then NotCovered else Covered
      case SomeModel => NotCovered
      case Unsure(_) => CoverageUnknown;
    forall v: Valuation { NegatedBinsHold(overs, unders, |unders|, v); }
  }

  datatype BinReport = BinReport(proven: nat, total: nat, coverage: CoverageStatus)

  ghost predicate PairsApart(overs: Overs, bins: seq<QFormula>, i: nat, j: nat, bg: Background, certify: bool,
      oracle: Oracle, sorts: Sorts) {
    && (forall k, l :: 0 <= k < i && k < l < |bins| && k < |bins| ==>
      BinsApart(overs, bins[k], bins[l], bg, certify, oracle, sorts))
    && (forall l :: i < l < j && l < |bins| ==> i < |bins| && BinsApart(overs, bins[i], bins[l], bg, certify, oracle, sorts))
  }

  function AskedOf(solver: Solver?): nat
    reads solver
  {
    if solver == null then 0 else solver.asked
  }

  /** With no solver there is nobody to trust: the silent oracle is honest. */
  function OracleOf(solver: Solver?): Oracle {
    if solver == null then (n: nat, frames: seq<Assertions>) => Answer(Unsure("no solver"), None) else solver.oracle
  }

  function SortsOf(solver: Solver?): Sorts { if solver == null then q => false else solver.sorts }

  /** The pair is decided by whoever is asked, whenever that is. */
  ghost predicate PairSettled(solver: Solver?, certify: bool, overs: Overs, x: QFormula, y: QFormula, bg: Background) {
    if solver == null then LayerRefutes(overs + [("QBINI", x)], overs + [("QBINJ", y)], _ => Total)
    else forall n: nat :: Convinces(Reply(solver.oracle, n, BinQuery(overs, x, y), bg), certify, BinQuery(overs, x, y), bg)
  }

  ghost predicate AllSettled(solver: Solver?, certify: bool, overs: Overs, bins: seq<QFormula>, bg: Background) {
    forall i, j :: 0 <= i < j < |bins| ==> PairSettled(solver, certify, overs, bins[i], bins[j], bg)
  }

  /** The pairs that come before (i, j), in the order in which they are checked. */
  function PairsUpTo(n: nat, i: nat, j: nat): seq<(nat, nat)>
    requires i <= n && j <= n
    decreases i, j
  {
    if i < n && j > i + 1 then PairsUpTo(n, i, j - 1) + [(i, j - 1)]
    else if i > 0 then PairsUpTo(n, i - 1, n)
    else []
  }

  function AllPairs(n: nat): seq<(nat, nat)> { PairsUpTo(n, n, 0) }

  function CountTrue(claims: seq<bool>): nat {
    if claims == [] then 0 else CountTrue(claims[..|claims| - 1]) + if claims[|claims| - 1] then 1 else 0
  }

  /** The claim about a pair follows whoever is asked: the interval layer exactly,
      or the solver's n-th answer. */
  ghost predicate PairClaimed(claim: bool, solver: bool, oracle: Oracle, n: nat, certify: bool, overs: Overs, x: QFormula, y: QFormula,
      bg: Background) {
    if solver then Answers(claim, oracle, n, certify, BinQuery(overs, x, y), bg)
    else claim <==> LayerRefutes(overs + [("QBINI", x)], overs + [("QBINJ", y)], _ => Total)
  }

  /** One claim for every pair so far, each following its answer and each true. */
  ghost predicate Claimed(claims: seq<bool>, pairs: seq<(nat, nat)>, solver: bool, oracle: Oracle, sorts: Sorts, first: nat,
      certify: bool, overs: Overs, bins: seq<QFormula>, bg: Background) {
    && |claims| == |pairs|
    && forall k :: 0 <= k < |pairs| ==>
      && pairs[k].0 < |bins| && pairs[k].1 < |bins|
      && PairClaimed(claims[k], solver, oracle, first + k, certify, overs, bins[pairs[k].0], bins[pairs[k].1], bg)
      && (claims[k] ==> BinsApart(overs, bins[pairs[k].0], bins[pairs[k].1], bg, certify, oracle, sorts))
  }

  ghost predicate Tallied(proven: nat, pairs: seq<(nat, nat)>, solver: bool, oracle: Oracle, sorts: Sorts, first: nat, certify: bool,
      overs: Overs, bins: seq<QFormula>, bg: Background) {
    exists claims: seq<bool> ::
      Claimed(claims, pairs, solver, oracle, sorts, first, certify, overs, bins, bg) && proven == CountTrue(claims)
  }

  /** The interval layer does not care whose turn it is. */
  lemma AnyTurn(claim: bool, oracle: Oracle, m: nat, n: nat, certify: bool, overs: Overs, x: QFormula, y: QFormula, bg: Background)
    requires PairClaimed(claim, false, oracle, m, certify, overs, x, y, bg)
    ensures PairClaimed(claim, false, oracle, n, certify, overs, x, y, bg)
  {
    hide BinQuery, LayerRefutes;
  }

  lemma ClaimOneMore(claims: seq<bool>, pairs: seq<(nat, nat)>, claim: bool, i: nat, j: nat, solver: bool, oracle: Oracle, sorts: Sorts,
      first: nat, certify: bool, overs: Overs, bins: seq<QFormula>, bg: Background)
    requires Claimed(claims, pairs, solver, oracle, sorts, first, certify, overs, bins, bg) && i < |bins| && j < |bins|
    requires PairClaimed(claim, solver, oracle, first + |pairs|, certify, overs, bins[i], bins[j], bg)
    requires claim ==> BinsApart(overs, bins[i], bins[j], bg, certify, oracle, sorts)
    ensures Claimed(claims + [claim], pairs + [(i, j)], solver, oracle, sorts, first, certify, overs, bins, bg)
    ensures CountTrue(claims + [claim]) == CountTrue(claims) + if claim then 1 else 0
  {
    hide PairClaimed, BinsApart;
    assert (claims + [claim])[..|claims|] == claims;
  }

  lemma NothingClaimed(solver: bool, oracle: Oracle, sorts: Sorts, first: nat, certify: bool, overs: Overs, bins: seq<QFormula>,
      bg: Background)
    ensures Claimed([], [], solver, oracle, sorts, first, certify, overs, bins, bg) && CountTrue([]) == 0
  {
  }

  method BinPair(solver: Solver?, certify: bool, overs: Overs, x: QFormula, y: QFormula, bg: Background) returns (r: bool)
    requires solver != null ==> Grounded(solver, bg)
    requires NormalBackground(bg) && AllNormalNamed(overs) && NormalAtoms(x) && NormalAtoms(y)
    modifies solver
    ensures solver != null ==> Grounded(solver, bg)
    ensures r ==> BinsApart(overs, x, y, bg, certify, OracleOf(solver), SortsOf(solver))
    ensures solver != null ==> solver.asked == old(solver.asked) + 1
    ensures PairSettled(solver, certify, overs, x, y, bg) ==> r
    ensures PairClaimed(r, solver != null, OracleOf(solver), old(AskedOf(solver)), certify, overs, x, y, bg)
  {
    hide BinQuery, LayerRefutes, Convinces;
    if solver != null {
      r := BinsDisjoint(solver, certify, overs, x, y, bg);
    } else {
      r := BinsDisjointByInterval(overs, x, y);
    }
  }

  lemma PairsStep(n: nat, i: nat, j: nat)
    requires i < n
    ensures i < j < n ==> PairsUpTo(n, i, j + 1) == PairsUpTo(n, i, j) + [(i, j)]
    ensures PairsUpTo(n, i, i + 1) == PairsUpTo(n, i, 0) && PairsUpTo(n, i + 1, 0) == PairsUpTo(n, i, n)
  {
  }

  lemma ApartStep(overs: Overs, bins: seq<QFormula>, i: nat, j: nat, bg: Background, certify: bool, oracle: Oracle, sorts: Sorts)
    requires PairsApart(overs, bins, i, j, bg, certify, oracle, sorts) && i < j < |bins|
    requires BinsApart(overs, bins[i], bins[j], bg, certify, oracle, sorts)
    ensures PairsApart(overs, bins, i, j + 1, bg, certify, oracle, sorts)
  {
    hide BinsApart;
  }

  lemma ApartRow(overs: Overs, bins: seq<QFormula>, i: nat, bg: Background, certify: bool, oracle: Oracle, sorts: Sorts)
    requires i < |bins|
    ensures PairsApart(overs, bins, i, 0, bg, certify, oracle, sorts) ==> PairsApart(overs, bins, i, i + 1, bg, certify, oracle, sorts)
    ensures PairsApart(overs, bins, i, |bins|, bg, certify, oracle, sorts) ==> PairsApart(overs, bins, i + 1, 0, bg, certify, oracle, sorts)
  {
    hide BinsApart;
  }

  lemma NoneToApart(overs: Overs, bins: seq<QFormula>, bg: Background, certify: bool, oracle: Oracle, sorts: Sorts)
    ensures PairsApart(overs, bins, 0, 0, bg, certify, oracle, sorts) && PairsUpTo(|bins|, 0, 0) == []
  {
    hide BinsApart;
  }

  lemma Settles(solver: Solver?, certify: bool, overs: Overs, bins: seq<QFormula>, bg: Background, i: nat, j: nat)
    requires i < j < |bins|
    ensures AllSettled(solver, certify, overs, bins, bg) ==> PairSettled(solver, certify, overs, bins[i], bins[j], bg)
  {
    hide PairSettled;
  }

  /** All pairs of bins and their coverage. The count is that of the pairs claimed
      apart, each claim following its answer and each true; when every pair was
      proven the bins are pairwise disjoint within the region. */
  method BinCheck(solver: Solver?, certify: bool, overs: Overs, bins: seq<QFormula>, unders: seq<QFormula>, bg: Background)
    returns (r: BinReport)
    requires solver != null ==> Grounded(solver, bg)
    requires AllNormalNamed(overs) && AllNormal(bins) && AllNormal(unders) && NormalBackground(bg)
    modifies solver
    ensures solver != null ==> Grounded(solver, bg)
    ensures r.total == |bins| * (if |bins| > 0 then |bins| - 1 else 0) / 2 && r.proven <= r.total
    ensures Tallied(r.proven, AllPairs(|bins|), solver != null, OracleOf(solver), SortsOf(solver), old(AskedOf(solver)), certify, overs,
      bins, bg)
    ensures r.proven == r.total ==> PairsApart(overs, bins, |bins|, 0, bg, certify, OracleOf(solver), SortsOf(solver))
    ensures AllSettled(solver, certify, overs, bins, bg) ==> r.proven == r.total
    ensures solver != null ==> Answers(r.coverage == Covered, solver.oracle, old(solver.asked) + r.total, certify,
      overs + NegatedBins(unders, |unders|), bg)
    ensures r.coverage == Covered ==> Covers(overs, unders, bg, certify, OracleOf(solver), SortsOf(solver))
  {
    hide AllHold, BackgroundHolds, WellSorted, Honest, Available, NormalAtoms, BinsApart, Covers, PairSettled, Answers, Reply, PairClaimed,
      Claimed, CountTrue, PairsApart, PairsUpTo, AllSettled;
    var n := |bins|;
    var proven := 0;
    ghost var asked := 0;
    ghost var claims: seq<bool> := [];
    ghost var first := AskedOf(solver);
    NoneToApart(overs, bins, bg, certify, OracleOf(solver), SortsOf(solver));
    NothingClaimed(solver != null, OracleOf(solver), SortsOf(solver), first, certify, overs, bins, bg);
    for i := 0 to n
      invariant solver != null ==> Grounded(solver, bg)
      invariant 2 * asked == i * (2 * n - i - 1) && proven <= asked
      invariant solver != null ==> solver.asked == old(solver.asked) + asked
      invariant AllSettled(solver, certify, overs, bins, bg) ==> proven == asked
      invariant proven == asked ==> PairsApart(overs, bins, i, 0, bg, certify, OracleOf(solver), SortsOf(solver))
      invariant proven == CountTrue(claims) && asked == |PairsUpTo(n, i, 0)|
      invariant Claimed(claims, PairsUpTo(n, i, 0), solver != null, OracleOf(solver), SortsOf(solver), first, certify, overs, bins, bg)
    {
      ghost var before := asked;
      PairsStep(n, i, i);
      ApartRow(overs, bins, i, bg, certify, OracleOf(solver), SortsOf(solver));
      for j := i + 1 to n
        invariant solver != null ==> Grounded(solver, bg)
        invariant asked == before + j - i - 1 && proven <= asked
        invariant solver != null ==> solver.asked == old(solver.asked) + asked
        invariant AllSettled(solver, certify, overs, bins, bg) ==> proven == asked
        invariant proven == asked ==> PairsApart(overs, bins, i, j, bg, certify, OracleOf(solver), SortsOf(solver))
        invariant proven == CountTrue(claims) && asked == |PairsUpTo(n, i, j)|
        invariant Claimed(claims, PairsUpTo(n, i, j), solver != null, OracleOf(solver), SortsOf(solver), first, certify, overs, bins, bg)
      {
        assert bins[i] in bins && bins[j] in bins;
        var apart := BinPair(solver, certify, overs, bins[i], bins[j], bg);
        if solver == null { AnyTurn(apart, OracleOf(solver), 0, first + asked, certify, overs, bins[i], bins[j], bg); }
        ClaimOneMore(claims, PairsUpTo(n, i, j), apart, i, j, solver != null, OracleOf(solver), SortsOf(solver), first, certify, overs,
          bins, bg);
        claims := claims + [apart];
        PairsStep(n, i, j);
        Settles(solver, certify, overs, bins, bg, i, j);
        if apart && proven == asked { ApartStep(overs, bins, i, j, bg, certify, OracleOf(solver), SortsOf(solver)); }
        asked := asked + 1;
        if apart { proven := proven + 1; }
      }
      assert (i + 1) * (2 * n - (i + 1) - 1) == i * (2 * n - i - 1) + 2 * (n - i - 1);
    }
    var coverage := BinCoverage(solver, certify, overs, unders, bg);
    r := BinReport(proven, n * (if n > 0 then n - 1 else 0) / 2, coverage);
  }
}
