/** The untrusted solver as an arbitrary oracle behind an assertion stack, and the
    certification of the cores it reports. */
module Solving {
  import opened Linear
  import opened Formulas
  import opened Saturation
  import opened Certificates
  import opened Search
  import opened Intervals
  import opened Numerals

  /** A named assertion list, as the verdict layer keeps it. */
  type Assertions = Overs

  datatype SatResult = SomeModel | Unsat | Unsure(reason: string)

  datatype Answer = Answer(result: SatResult, core: Option<seq<Name>>)

  /** What a solver process may say: any answer at all, depending on how often it
      was asked and on everything asserted. */
  type Oracle = (nat, seq<Assertions>) -> Answer

  function Flat(frames: seq<Assertions>): Assertions {
    if frames == [] then [] else Flat(frames[..|frames| - 1]) + frames[|frames| - 1]
  }

  /** Which quantities are collection sizes, declared as integers. */
  type Sorts = QuantityId -> bool

  ghost predicate WellSorted(sorts: Sorts, v: Valuation) {
    forall q: QuantityId :: sorts(q) ==> v(q) == v(q).Floor as real
  }

  /** A solver whose refutations are true of all well-sorted valuations. */
  ghost predicate Honest(oracle: Oracle, sorts: Sorts) {
    forall n: nat, frames: seq<Assertions> :: oracle(n, frames).result == Unsat ==>
      forall v: Valuation :: WellSorted(sorts, v) ==> !AllHold(Flat(frames), v)
  }

  class Solver {
    const oracle: Oracle
    const sorts: Sorts
    var frames: seq<Assertions>
    var asked: nat
    var last: Option<Answer>

    constructor (oracle: Oracle, sorts: Sorts)
      ensures this.oracle == oracle && this.sorts == sorts && frames == [[]] && asked == 0 && last == None
    {
      this.oracle := oracle;
      this.sorts := sorts;
      frames := [[]];
      asked := 0;
      last := None;
    }

    method Push()
      modifies this
      ensures frames == old(frames) + [[]]
      ensures asked == old(asked) && last == old(last)
    {
      frames := frames + [[]];
    }

    method Pop()
      requires |frames| > 1
      modifies this
      ensures frames == old(frames)[..|old(frames)| - 1]
      ensures asked == old(asked) && last == old(last)
    {
      frames := frames[..|frames| - 1];
    }

    method AssertFormula(f: QFormula, name: Name)
      requires frames != []
      modifies this
      ensures frames == old(frames)[..|old(frames)| - 1] + [old(frames)[|old(frames)| - 1] + [(name, f)]]
      ensures asked == old(asked) && last == old(last)
    {
      frames := frames[|frames| - 1 := frames[|frames| - 1] + [(name, f)]];
    }

    method CheckUnsat() returns (r: SatResult)
      modifies this
      ensures frames == old(frames) && asked == old(asked) + 1
      ensures last == Some(oracle(old(asked), frames)) && r == last.value.result
    {
      var answer := oracle(asked, frames);
      asked := asked + 1;
      last := Some(answer);
      r := answer.result;
    }

    method UnsatCore() returns (core: Option<seq<Name>>)
      ensures core == if last.Some? then last.value.core else None
    {
      core := if last.Some? then last.value.core else None;
    }

    /** Assert every formula of the list in the top frame. */
    method AssertAll(named: Assertions)
      requires frames != []
      modifies this
      ensures frames == old(frames)[..|old(frames)| - 1] + [old(frames)[|old(frames)| - 1] + named]
      ensures asked == old(asked) && last == old(last)
    {
      ghost var below, top := frames[..|frames| - 1], frames[|frames| - 1];
      assert frames == below + [top] && top == top + named[..0];
      for i := 0 to |named|
        invariant frames == below + [top + named[..i]]
        invariant asked == old(asked) && last == old(last)
      {
        AssertFormula(named[i].1, named[i].0);
        assert top + named[..i + 1] == top + named[..i] + [named[i]];
      }
      assert named[..|named|] == named;
    }
  }

  // ----- certifying a reported core -----

  function AxiomName(i: nat): Name { "AX" + Digits(i) }

  /** What is known besides the query: the emitted axioms and the derived facts. */
  datatype Background = Background(axioms: seq<QFormula>, facts: Assertions)

  ghost predicate BackgroundHolds(bg: Background, v: Valuation) {
    HoldsAll(bg.axioms, v) && AllHold(bg.facts, v)
  }

  /** Why a core was not certified. */
  datatype Refusal = NoCore | UnknownName(name: Name) | SearchFailed(why: Outcome) | ReplayFailed

  /** `Off` when certification is disabled, `Yes` with the core it rests on. */
  datatype Certification = Off | Yes(asserts: Assertions, cert: CertNode) | No(why: Refusal)

  const DEFAULT_BUDGET := Budget(100000, 128)

  ghost predicate AllNormalNamed(named: Assertions) { forall k :: 0 <= k < |named| ==> NormalAtoms(named[k].1) }

  ghost predicate NormalBackground(bg: Background) { AllNormal(bg.axioms) && AllNormalNamed(bg.facts) }

  function NamedAxioms(axioms: seq<QFormula>): Assertions {
    seq(|axioms|, i requires 0 <= i < |axioms| => (AxiomName(i), axioms[i]))
  }

  /** Everything a core may name, later entries overriding earlier ones. */
  function Available(extra: Assertions, bg: Background): Assertions { extra + NamedAxioms(bg.axioms) + bg.facts }

  function ByName(named: Assertions): map<Name, QFormula> {
    if named == [] then map[]
    else
      var last := named[|named| - 1];
      ByName(named[..|named| - 1])[last.0 := last.1]
  }

  /** The formulas a core names, or the first name that stands for none. */
  function CoreFormulas(core: seq<Name>, fmap: map<Name, QFormula>): (r: seq<QFormula>)
    requires forall n | n in core :: n in fmap
  {
    seq(|core|, i requires 0 <= i < |core| => fmap[core[i]])
  }

  lemma ByNameStep(all: Assertions, i: nat)
    requires i < |all|
    ensures ByName(all[..i + 1]) == ByName(all[..i])[all[i].0 := all[i].1]
  {
    assert all[..i + 1][..i] == all[..i];
  }

  method NameFormulas(extra: Assertions, bg: Background) returns (fmap: map<Name, QFormula>)
    ensures fmap == ByName(Available(extra, bg))
  {
    hide AxiomName, ByName;
    ghost var all := Available(extra, bg);
    ghost var m, n := |extra|, |extra| + |bg.axioms|;
    fmap := map[];
    assert ByName([]) == map[] by { ByNameEmpty(); }
    for i := 0 to |extra|
      invariant fmap == ByName(all[..i])
    {
      ByNameStep(all, i);
      fmap := fmap[extra[i].0 := extra[i].1];
    }
    for i := 0 to |bg.axioms|
      invariant fmap == ByName(all[..m + i])
    {
      ByNameStep(all, m + i);
      assert all[m + i] == (AxiomName(i), bg.axioms[i]);
      fmap := fmap[AxiomName(i) := bg.axioms[i]];
    }
    for i := 0 to |bg.facts|
      invariant fmap == ByName(all[..n + i])
    {
      ByNameStep(all, n + i);
      assert all[n + i] == bg.facts[i];
      fmap := fmap[bg.facts[i].0 := bg.facts[i].1];
    }
    assert all[..n + |bg.facts|] == all;
  }

  lemma ByNameEmpty()
    ensures ByName([]) == map[]
  {
  }

  /** The query and the background have no common model. */
  ghost predicate Incompatible(extra: Assertions, bg: Background) {
    forall v: Valuation :: !(AllHold(extra, v) && BackgroundHolds(bg, v))
  }

  function FormulasOf(named: Assertions): seq<QFormula> { seq(|named|, i requires 0 <= i < |named| => named[i].1) }

  ghost predicate AllNamed(core: seq<Name>, extra: Assertions, bg: Background) {
    forall n | n in core :: n in ByName(Available(extra, bg))
  }

  /** A core that names asserted formulas which have no model, and which the
      search can refute within its budget. */
  ghost predicate Provable(core: Option<seq<Name>>, extra: Assertions, bg: Background) {
    && core.Some? && core.value != [] && AllNamed(core.value, extra, bg)
    && var fs := CoreFormulas(core.value, ByName(Available(extra, bg)));
       !Satisfiable(fs) && WithinBudget(fs, DEFAULT_BUDGET) && FillIn(fs) <= FillCap(DEFAULT_BUDGET)
  }

  /** The core under its own names, in its own order. */
  ghost predicate AsNamed(asserts: Assertions, core: seq<Name>, fmap: map<Name, QFormula>) {
    |asserts| == |core| && forall k :: 0 <= k < |core| ==> core[k] in fmap && asserts[k] == (core[k], fmap[core[k]])
  }

  ghost predicate FirstUnknown(n: Name, core: seq<Name>, extra: Assertions, bg: Background) {
    exists i :: 0 <= i < |core| && core[i] == n && n !in ByName(Available(extra, bg)) && AllNamed(core[..i], extra, bg)
  }

  /** What came of certifying a core, and why: the checks in their order, then
      the search. */
  ghost predicate Certifies(r: Certification, certify: bool, core: Option<seq<Name>>, extra: Assertions, bg: Background) {
    var fmap := ByName(Available(extra, bg));
    if !certify then r == Off
    else if core.None? || core.value == [] then r == No(NoCore)
    else if !AllNamed(core.value, extra, bg) then r.No? && r.why.UnknownName? && FirstUnknown(r.why.name, core.value, extra, bg)
    else if r.Yes? then AsNamed(r.asserts, core.value, fmap) && Replay(r.cert, FormulasOf(r.asserts))
    else r.No? && r.why.SearchFailed? && GivesUp(r.why.why, CoreFormulas(core.value, fmap), DEFAULT_BUDGET)
  }

  /** Certify a reported core, whoever reported it. A `Yes` is a replayed
      refutation of formulas that were really asserted, so no valuation satisfies
      the query and the background. A core that names only asserted formulas and
      fits the budget is certified if and only if it is one, unless elimination
      fills in. */
  method CertifyNamedFormulas(certify: bool, core: Option<seq<Name>>, extra: Assertions, bg: Background)
    returns (r: Certification)
    requires AllNormalNamed(extra) && NormalBackground(bg)
    ensures r.Off? <==> !certify
    ensures r.Yes? ==> Incompatible(extra, bg) && Replay(r.cert, FormulasOf(r.asserts))
    ensures r == No(NoCore) <==> certify && (core.None? || core.value == [])
    ensures r.No? && r.why.UnknownName? <==> certify && core.Some? && core.value != [] && !AllNamed(core.value, extra, bg)
    ensures r != No(ReplayFailed)
    ensures Certifies(r, certify, core, extra, bg)
    ensures certify && Provable(core, extra, bg) ==> r.Yes?
    ensures certify && core.Some? && core.value != [] && AllNamed(core.value, extra, bg)
      && WithinBudget(CoreFormulas(core.value, ByName(Available(extra, bg))), DEFAULT_BUDGET)
      && r != No(SearchFailed(FillInExceeded))
      ==> (r.Yes? <==> !Satisfiable(CoreFormulas(core.value, ByName(Available(extra, bg)))))
  {
    hide Replay, Digits, ByName, Available, NormalAtoms, WithinBudget, Satisfiable, BackgroundHolds, FillIn, FillCap, GivesUp;
    if !certify { return Off; }
    if core.None? || core.value == [] { return No(NoCore); }
    var fmap := NameFormulas(extra, bg);
    var named: Assertions := [];
    for i := 0 to |core.value|
      invariant |named| == i
      invariant forall k :: 0 <= k < i ==> core.value[k] in fmap && named[k] == (core.value[k], fmap[core.value[k]])
    {
      var n := core.value[i];
      if n !in fmap {
        assert AllNamed(core.value[..i], extra, bg);
        return No(UnknownName(n));
      }
      named := named + [(n, fmap[n])];
    }
    var formulas := FormulasOf(named);
    assert formulas == CoreFormulas(core.value, fmap);
    CoreNormal(core.value, extra, bg);
    var found := CertifyUnsat(formulas, DEFAULT_BUDGET);
    match found {
      case Certified(cert) =>
        CoreIncompatible(core.value, extra, bg);
        r := Yes(named, cert);
      case Uncertified(why) => r := No(SearchFailed(why));
      case SelfReplayFailed => r := No(ReplayFailed);
    }
  }

  lemma {:induction false} ByNameMember(named: Assertions, n: Name)
    requires n in ByName(named)
    ensures exists k :: 0 <= k < |named| && named[k].1 == ByName(named)[n]
  {
    var init, last := named[..|named| - 1], named[|named| - 1];
    if last.0 != n {
      ByNameMember(init, n);
      var k :| 0 <= k < |init| && init[k].1 == ByName(init)[n];
      assert named[k] == init[k];
    }
  }

  lemma CoreNormal(core: seq<Name>, extra: Assertions, bg: Background)
    requires AllNormalNamed(extra) && NormalBackground(bg) && AllNamed(core, extra, bg)
    ensures AllNormal(CoreFormulas(core, ByName(Available(extra, bg))))
  {
    hide NormalAtoms, ByName, Digits;
    forall f | f in CoreFormulas(core, ByName(Available(extra, bg))) ensures NormalAtoms(f) {
      var i :| 0 <= i < |core| && f == ByName(Available(extra, bg))[core[i]];
      ByNameMember(Available(extra, bg), core[i]);
    }
  }

  lemma AvailableHolds(extra: Assertions, bg: Background, v: Valuation)
    ensures AllHold(Available(extra, bg), v) <==> AllHold(extra, v) && BackgroundHolds(bg, v)
  {
    hide Digits, Holds;
    var all, m := Available(extra, bg), |extra| + |bg.axioms|;
    assert forall k :: 0 <= k < |extra| ==> all[k] == extra[k];
    assert forall k :: 0 <= k < |bg.axioms| ==> all[|extra| + k].1 == bg.axioms[k];
    assert forall k :: 0 <= k < |bg.facts| ==> all[m + k] == bg.facts[k];
  }

  lemma CoreHolds(core: seq<Name>, extra: Assertions, bg: Background, v: Valuation)
    requires AllNamed(core, extra, bg)
    ensures AllHold(extra, v) && BackgroundHolds(bg, v) ==> HoldsAll(CoreFormulas(core, ByName(Available(extra, bg))), v)
  {
    hide Holds, ByName, Digits, BackgroundHolds;
    AvailableHolds(extra, bg, v);
    forall n | n in core { ByNameMember(Available(extra, bg), n); }
  }

  /** Formulas that were all asserted, and have no model, leave none to the query. */
  lemma CoreIncompatible(core: seq<Name>, extra: Assertions, bg: Background)
    requires AllNamed(core, extra, bg)
    requires !Satisfiable(CoreFormulas(core, ByName(Available(extra, bg))))
    ensures Incompatible(extra, bg)
  {
    forall v: Valuation { CoreHolds(core, extra, bg, v); }
  }
}
