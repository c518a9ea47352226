/** The portable certificate bundle of a disjoint pair, and its independent
    replay: no solver, no search. */
module Bundles {
  import opened Linear
  import opened Formulas
  import opened Saturation
  import opened Certificates
  import opened Numerals
  import Conditions

  // ----- the parts of a bundle -----

  datatype BundleTerm = BundleTerm(coeff: QRat, q: nat)

  datatype BundleFormula =
    | BTrue
    | BFalse
    | BAtom(terms: seq<BundleTerm>, rel: Rel, k: QRat)
    | BAnd(args: seq<BundleFormula>)
    | BOr(args: seq<BundleFormula>)

  datatype AssertSource =
    | Cut(region: string, line: nat, text: string, whole: bool)
    | Axiom(id: string, statement: string, assumption: string)
    | Derived(fact: string)
    | Query(role: string)
    | Unattributed

  datatype BundleAssert = BundleAssert(name: string, source: AssertSource, formula: BundleFormula)

  /** A certificate with its multipliers as exact rationals. */
  datatype CertTree =
    | Contradictory
    | Multipliers(multipliers: seq<QRat>)
    | Branches(branches: seq<CertTree>)

  datatype Derivation = Derivation(claim: string, premises: seq<BundleAssert>, certificate: CertTree)

  datatype DerivedFact =
    DerivedFact(name: string, axiom: string, statement: string, formula: BundleFormula, derivations: seq<Derivation>)

  datatype Producer = Producer(tool: string, version: string, history: seq<string>)

  datatype BundleInput = BundleInput(name: string, sha256: string)

  /** One entry of the quantity dictionary. */
  datatype Label = Label(q: nat, text: string)

  /** The dictionary is in ascending order of its quantities. */
  datatype CombineBundle = CombineBundle(
    schema: string, producer: Producer, inputs: seq<BundleInput>, regionA: string, regionB: string,
    verdict: string, note: string, quantities: seq<Label>,
    asserts: seq<BundleAssert>, facts: seq<DerivedFact>, certificate: CertTree)

  const BUNDLE_SCHEMA: string := "smash2-combine/2"
  const BUNDLE_VERDICT: string := "PROVEN DISJOINT"
  /** Stands for the fixed text about the scope of a replay that every bundle carries. */
  const SCOPE_NOTE: string := "the listed formulas are unsatisfiable together; that they encode the regions is not replayed"

  // ----- formulas with numerals instead of numbers -----

  ghost predicate Rational(x: real) { exists r: QRat :: Value(r) == x }

  ghost function RatOf(x: real): (r: QRat)
    requires Rational(x)
    ensures Value(r) == x
  {
    var r: QRat :| Value(r) == x;
    r
  }

  ghost predicate RationalTerms(ts: seq<Term>) { forall i | 0 <= i < |ts| :: Rational(ts[i].coeff) }

  ghost predicate RationalFormula(f: QFormula) {
    match f
    case QAtom(a) => RationalTerms(a.terms) && Rational(a.constant)
    case QAnd(items) => forall x | x in items :: RationalFormula(x)
    case QOr(items) => forall x | x in items :: RationalFormula(x)
    case _ => true
  }

  ghost function FromTerms(ts: seq<Term>): seq<BundleTerm>
    requires RationalTerms(ts)
  {
    seq(|ts|, i requires 0 <= i < |ts| => BundleTerm(RatOf(ts[i].coeff), ts[i].q))
  }

  ghost function FromQFormula(f: QFormula): BundleFormula
    requires RationalFormula(f)
  {
    match f
    case QTrue => BTrue
    case QFalse => BFalse
    case QAtom(a) => BAtom(FromTerms(a.terms), a.rel, RatOf(a.constant))
    case QAnd(items) => BAnd(seq(|items|, i requires 0 <= i < |items| => FromQFormula(items[i])))
    case QOr(items) => BOr(seq(|items|, i requires 0 <= i < |items| => FromQFormula(items[i])))
  }

  function ToTerms(ts: seq<BundleTerm>): seq<Term> {
    seq(|ts|, i requires 0 <= i < |ts| => Term(Value(ts[i].coeff), ts[i].q))
  }

  function ToQFormula(f: BundleFormula): QFormula {
    match f
    case BTrue => QTrue
    case BFalse => QFalse
    case BAtom(terms, rel, k) => QAtom(MakeAtom(ToTerms(terms), rel, Value(k)))
    case BAnd(args) => QAnd(seq(|args|, i requires 0 <= i < |args| => ToQFormula(args[i])))
    case BOr(args) => QOr(seq(|args|, i requires 0 <= i < |args| => ToQFormula(args[i])))
  }

  /** A formula survives the bundle, exactly when its atoms are in normal form;
      its meaning always does. */
  lemma {:induction false} FormulaRoundTrip(f: QFormula)
    requires RationalFormula(f)
    ensures ToQFormula(FromQFormula(f)) == f <==> NormalAtoms(f)
    ensures forall v: Valuation :: Holds(ToQFormula(FromQFormula(f)), v) <==> Holds(f, v)
  {
    match f
    case QAtom(a) =>
      assert ToTerms(FromTerms(a.terms)) == a.terms;
      NormalizeSound(a.terms);
      if Normal(a.terms) { NormalUnique(Normalize(a.terms), a.terms); }
    case QAnd(items) => ItemsRoundTrip(f, items);
    case QOr(items) => ItemsRoundTrip(f, items);
    case _ =>
  }

  lemma {:induction false} ItemsRoundTrip(f: QFormula, items: seq<QFormula>)
    requires (f == QAnd(items) || f == QOr(items)) && RationalFormula(f)
    ensures ToQFormula(FromQFormula(f)) == f <==> NormalAtoms(f)
    ensures forall v: Valuation :: Holds(ToQFormula(FromQFormula(f)), v) <==> Holds(f, v)
    decreases items
  {
    hide Holds, NormalAtoms;
    forall i | 0 <= i < |items|
      ensures ToQFormula(FromQFormula(items[i])) == items[i] <==> NormalAtoms(items[i])
      ensures forall v: Valuation :: Holds(ToQFormula(FromQFormula(items[i])), v) <==> Holds(items[i], v)
    {
      FormulaRoundTrip(items[i]);
    }
    var back := seq(|items|, i requires 0 <= i < |items| => ToQFormula(FromQFormula(items[i])));
    assert ToQFormula(FromQFormula(f)) == if f.QAnd? then QAnd(back) else QOr(back);
    NormalItems(f, items);
    assert back == items <==> forall i :: 0 <= i < |items| ==> back[i] == items[i];
    forall v: Valuation ensures Holds(ToQFormula(FromQFormula(f)), v) <==> Holds(f, v) {
      SameItems(back, items, v);
    }
  }

  lemma NormalItems(f: QFormula, items: seq<QFormula>)
    requires f == QAnd(items) || f == QOr(items)
    ensures NormalAtoms(f) <==> forall i :: 0 <= i < |items| ==> NormalAtoms(items[i])
  {
    if forall i :: 0 <= i < |items| ==> NormalAtoms(items[i]) {
      forall x | x in items ensures NormalAtoms(x) {
        var i :| 0 <= i < |items| && items[i] == x;
      }
    }
  }

  lemma HoldsItems(items: seq<QFormula>, v: Valuation)
    ensures Holds(QAnd(items), v) <==> forall i :: 0 <= i < |items| ==> Holds(items[i], v)
    ensures Holds(QOr(items), v) <==> exists i :: 0 <= i < |items| && Holds(items[i], v)
  {
  }

  lemma SameItems(a: seq<QFormula>, b: seq<QFormula>, v: Valuation)
    requires |a| == |b| && forall i :: 0 <= i < |a| ==> (Holds(a[i], v) <==> Holds(b[i], v))
    ensures Holds(QAnd(a), v) <==> Holds(QAnd(b), v)
    ensures Holds(QOr(a), v) <==> Holds(QOr(b), v)
  {
    hide Holds;
    HoldsItems(a, v);
    HoldsItems(b, v);
  }

  // ----- replay -----

  function CertOf(c: CertTree): CertNode {
    match c
    case Contradictory => Contradiction
    case Multipliers(ms) => Farkas(seq(|ms|, i requires 0 <= i < |ms| => Value(ms[i])))
    case Branches(bs) => Split(seq(|bs|, i requires 0 <= i < |bs| => CertOf(bs[i])))
  }

  function FormulasOf(asserts: seq<BundleAssert>): seq<QFormula> {
    seq(|asserts|, i requires 0 <= i < |asserts| => ToQFormula(asserts[i].formula))
  }

  predicate DerivationReplays(d: Derivation) { Replay(CertOf(d.certificate), FormulasOf(d.premises)) }

  /** A fact stands on at least one derivation, and all of them replay. */
  predicate FactReplays(f: DerivedFact) {
    f.derivations != [] && forall i | 0 <= i < |f.derivations| :: DerivationReplays(f.derivations[i])
  }

  function Ids(f: BundleFormula): set<nat> {
    match f
    case BAtom(terms, _, _) => set i | 0 <= i < |terms| :: terms[i].q
    case BAnd(args) => set i, q | 0 <= i < |args| && q in Ids(args[i]) :: q
    case BOr(args) => set i, q | 0 <= i < |args| && q in Ids(args[i]) :: q
    case _ => {}
  }

  function AssertIds(asserts: seq<BundleAssert>): set<nat> {
    set i, q | 0 <= i < |asserts| && q in Ids(asserts[i].formula) :: q
  }

  function FactIds(f: DerivedFact): set<nat> {
    Ids(f.formula) + set i, q | 0 <= i < |f.derivations| && q in AssertIds(f.derivations[i].premises) :: q
  }

  /** Every quantity that the bundle mentions. */
  function AllIds(asserts: seq<BundleAssert>, facts: seq<DerivedFact>): set<nat> {
    AssertIds(asserts) + set i, q | 0 <= i < |facts| && q in FactIds(facts[i]) :: q
  }

  function Labelled(ls: seq<Label>): set<nat> { set i | 0 <= i < |ls| :: ls[i].q }

  predicate NamesReconciled(name: string) { |name| >= 2 && name[..2] == "XR" }

  /** A derived assertion repeats the fact it names; no other one is named as a
      reconciliation fact. */
  predicate Linked(a: BundleAssert, facts: seq<DerivedFact>) {
    if a.source.Derived? then exists k :: 0 <= k < |facts| && facts[k].name == a.source.fact && facts[k].formula == a.formula
    else !NamesReconciled(a.name)
  }

  predicate DistinctNames(facts: seq<DerivedFact>) {
    forall i, j :: 0 <= i < j < |facts| ==> facts[i].name != facts[j].name
  }

  /** What a bundle owes beside its fixed texts and its dictionary. */
  predicate Sound(asserts: seq<BundleAssert>, facts: seq<DerivedFact>, certificate: CertTree) {
    && DistinctNames(facts)
    && (forall i | 0 <= i < |asserts| :: Linked(asserts[i], facts))
    && (forall i | 0 <= i < |facts| :: FactReplays(facts[i]))
    && Replay(CertOf(certificate), FormulasOf(asserts))
  }

  predicate Replays(b: CombineBundle) {
    && b.schema == BUNDLE_SCHEMA && b.verdict == BUNDLE_VERDICT && b.note == SCOPE_NOTE
    && AllIds(b.asserts, b.facts) <= Labelled(b.quantities)
    && Sound(b.asserts, b.facts, b.certificate)
  }

  method ReplayFact(f: DerivedFact) returns (ok: bool)
    ensures ok == FactReplays(f)
  {
    if f.derivations == [] { return false; }
    for i := 0 to |f.derivations|
      invariant forall k :: 0 <= k < i ==> DerivationReplays(f.derivations[k])
    {
      if !DerivationReplays(f.derivations[i]) { return false; }
    }
    ok := true;
  }

  /** The independent check of a whole bundle. */
  method ReplayBundle(b: CombineBundle) returns (ok: bool)
    ensures ok == Replays(b)
  {
    hide AllIds, FactReplays, FormulasOf, CertOf;
    if b.schema != BUNDLE_SCHEMA || b.verdict != BUNDLE_VERDICT || b.note != SCOPE_NOTE { return false; }
    if !(AllIds(b.asserts, b.facts) <= Labelled(b.quantities)) { return false; }

    var facts: map<string, nat> := map[];
    for i := 0 to |b.facts|
      invariant forall k :: 0 <= k < i ==> b.facts[k].name in facts && facts[b.facts[k].name] == k
      invariant forall n :: n in facts ==> facts[n] < i && b.facts[facts[n]].name == n
      invariant DistinctNames(b.facts[..i])
    {
      if b.facts[i].name in facts {
        assert b.facts[facts[b.facts[i].name]].name == b.facts[i].name;
        return false;
      }
      facts := facts[b.facts[i].name := i];
    }
    assert b.facts[..|b.facts|] == b.facts;

    for i := 0 to |b.asserts|
      invariant forall k :: 0 <= k < i ==> Linked(b.asserts[k], b.facts)
    {
      var a := b.asserts[i];
      if a.source.Derived? {
        if a.source.fact !in facts || b.facts[facts[a.source.fact]].formula != a.formula { return false; }
      } else if |a.name| >= 2 && a.name[..2] == "XR" {
        return false;
      }
    }

    for i := 0 to |b.facts|
      invariant forall k :: 0 <= k < i ==> FactReplays(b.facts[k])
    {
      var stands := ReplayFact(b.facts[i]);
      if !stands { return false; }
    }
    ok := Replay(CertOf(b.certificate), FormulasOf(b.asserts));
  }

  lemma AtomIds(terms: seq<BundleTerm>, rel: Rel, k: QRat)
    ensures Mentions(ToQFormula(BAtom(terms, rel, k))) <= Ids(BAtom(terms, rel, k))
  {
    var ts := seq(|terms|, i requires 0 <= i < |terms| => Term(Value(terms[i].coeff), terms[i].q));
    forall t | t in Normalize(ts) ensures t.q in Ids(BAtom(terms, rel, k)) {
      DropZerosMember(Merge([], ts), t);
      MergeKeys([], ts, t);
      var u :| u in [] + ts && u.q == t.q;
      var i :| 0 <= i < |ts| && ts[i] == u;
      assert terms[i].q == t.q;
    }
  }

  /** Every quantity that a formula constrains is among its ids. */
  lemma {:induction false} MentionsAreIds(f: BundleFormula)
    ensures Mentions(ToQFormula(f)) <= Ids(f)
  {
    match f
    case BAtom(terms, rel, k) => AtomIds(terms, rel, k);
    case BAnd(args) => ItemsAreIds(f, args);
    case BOr(args) => ItemsAreIds(f, args);
    case _ =>
  }

  lemma {:induction false} ItemsAreIds(f: BundleFormula, args: seq<BundleFormula>)
    requires f == BAnd(args) || f == BOr(args)
    ensures Mentions(ToQFormula(f)) <= Ids(f)
    decreases args
  {
    var items := seq(|args|, i requires 0 <= i < |args| => ToQFormula(args[i]));
    forall q | q in Mentions(ToQFormula(f)) ensures q in Ids(f) {
      var x :| x in items && q in Mentions(x);
      var i :| 0 <= i < |items| && items[i] == x;
      MentionsAreIds(args[i]);
    }
  }

  predicate HasLabel(ls: seq<Label>, q: nat) { exists i :: 0 <= i < |ls| && ls[i].q == q }

  /** What a replayed bundle proves, whoever made it. It carries the texts of the
      schema, and a label for every quantity that its asserts, facts and premises
      constrain. No valuation satisfies the listed formulas. Facts have names of
      their own. A derived assert repeats a listed fact of that name, and no other
      assert is named like one. A fact has derivations, and every one of them starts
      from contradictory premises. */
  lemma ReplayedBundleSound(b: CombineBundle)
    requires Replays(b)
    ensures b.schema == "smash2-combine/2" && b.verdict == "PROVEN DISJOINT" && b.note == SCOPE_NOTE
    ensures forall i, q | 0 <= i < |b.asserts| && q in Mentions(ToQFormula(b.asserts[i].formula)) :: HasLabel(b.quantities, q)
    ensures forall k, q | 0 <= k < |b.facts| && q in Mentions(ToQFormula(b.facts[k].formula)) :: HasLabel(b.quantities, q)
    ensures forall k, j, i, q | 0 <= k < |b.facts| && 0 <= j < |b.facts[k].derivations|
      && 0 <= i < |b.facts[k].derivations[j].premises| && q in Mentions(ToQFormula(b.facts[k].derivations[j].premises[i].formula)) ::
      HasLabel(b.quantities, q)
    ensures !Satisfiable(FormulasOf(b.asserts))
    ensures forall i, j | 0 <= i < j < |b.facts| :: b.facts[i].name != b.facts[j].name
    ensures forall i | 0 <= i < |b.asserts| && b.asserts[i].source.Derived? ::
      exists k :: 0 <= k < |b.facts| && b.facts[k].name == b.asserts[i].source.fact && b.facts[k].formula == b.asserts[i].formula
    ensures forall i | 0 <= i < |b.asserts| && "XR" <= b.asserts[i].name :: b.asserts[i].source.Derived?
    ensures forall k | 0 <= k < |b.facts| :: b.facts[k].derivations != []
    ensures forall k, j | 0 <= k < |b.facts| && 0 <= j < |b.facts[k].derivations| ::
      !Satisfiable(FormulasOf(b.facts[k].derivations[j].premises))
  {
    hide Satisfiable, FormulasOf, CertOf, ReplayNode, AllIds, Mentions, ToQFormula, Ids;
    ReplaySound(CertOf(b.certificate), FormulasOf(b.asserts), 0);
    forall i | 0 <= i < |b.asserts| && b.asserts[i].source.Derived?
      ensures exists k :: 0 <= k < |b.facts| && b.facts[k].name == b.asserts[i].source.fact && b.facts[k].formula == b.asserts[i].formula
    {
      assert Linked(b.asserts[i], b.facts);
    }
    forall i | 0 <= i < |b.asserts| && "XR" <= b.asserts[i].name ensures b.asserts[i].source.Derived? {
      assert Linked(b.asserts[i], b.facts);
    }
    forall k | 0 <= k < |b.facts| ensures b.facts[k].derivations != [] { assert FactReplays(b.facts[k]); }
    forall k, j | 0 <= k < |b.facts| && 0 <= j < |b.facts[k].derivations|
      ensures !Satisfiable(FormulasOf(b.facts[k].derivations[j].premises))
    {
      var d := b.facts[k].derivations[j];
      assert FactReplays(b.facts[k]) && DerivationReplays(d);
      ReplaySound(CertOf(d.certificate), FormulasOf(d.premises), 0);
    }
    LabelsCover(b);
  }

  lemma LabelsCover(b: CombineBundle)
    requires AllIds(b.asserts, b.facts) <= Labelled(b.quantities)
    ensures forall i, q | 0 <= i < |b.asserts| && q in Mentions(ToQFormula(b.asserts[i].formula)) :: HasLabel(b.quantities, q)
    ensures forall k, q | 0 <= k < |b.facts| && q in Mentions(ToQFormula(b.facts[k].formula)) :: HasLabel(b.quantities, q)
    ensures forall k, j, i, q | 0 <= k < |b.facts| && 0 <= j < |b.facts[k].derivations|
      && 0 <= i < |b.facts[k].derivations[j].premises| && q in Mentions(ToQFormula(b.facts[k].derivations[j].premises[i].formula)) ::
      HasLabel(b.quantities, q)
  {
    hide Mentions, ToQFormula, Ids;
    forall q | q in AllIds(b.asserts, b.facts) ensures HasLabel(b.quantities, q) { assert q in Labelled(b.quantities); }
    forall i, q | 0 <= i < |b.asserts| && q in Mentions(ToQFormula(b.asserts[i].formula)) ensures q in AllIds(b.asserts, b.facts) {
      MentionsAreIds(b.asserts[i].formula);
      assert q in AssertIds(b.asserts);
    }
    forall k, q | 0 <= k < |b.facts| && q in Mentions(ToQFormula(b.facts[k].formula)) ensures q in AllIds(b.asserts, b.facts) {
      MentionsAreIds(b.facts[k].formula);
      assert q in FactIds(b.facts[k]);
    }
    forall k, j, i, q | 0 <= k < |b.facts| && 0 <= j < |b.facts[k].derivations|
      && 0 <= i < |b.facts[k].derivations[j].premises| && q in Mentions(ToQFormula(b.facts[k].derivations[j].premises[i].formula))
      ensures q in AllIds(b.asserts, b.facts)
    {
      MentionsAreIds(b.facts[k].derivations[j].premises[i].formula);
      assert q in AssertIds(b.facts[k].derivations[j].premises);
      assert q in FactIds(b.facts[k]);
    }
  }

  lemma IdIsUsed(b: CombineBundle, q: nat)
    requires q in AllIds(b.asserts, b.facts)
    ensures
      || (exists i | 0 <= i < |b.asserts| :: q in Ids(b.asserts[i].formula))
      || (exists k | 0 <= k < |b.facts| :: q in Ids(b.facts[k].formula))
      || (exists k, j, i | 0 <= k < |b.facts| && 0 <= j < |b.facts[k].derivations| && 0 <= i < |b.facts[k].derivations[j].premises| ::
            q in Ids(b.facts[k].derivations[j].premises[i].formula))
  {
    hide Ids;
    if q !in AssertIds(b.asserts) {
      var k :| 0 <= k < |b.facts| && q in FactIds(b.facts[k]);
      if q !in Ids(b.facts[k].formula) {
        var j :| 0 <= j < |b.facts[k].derivations| && q in AssertIds(b.facts[k].derivations[j].premises);
        var i :| 0 <= i < |b.facts[k].derivations[j].premises| && q in Ids(b.facts[k].derivations[j].premises[i].formula);
      }
    }
  }

  /** A bundle is refused for no other reason: one of the texts, a term without a
      label, two facts of one name, a derived assert without its fact, an assert
      named like a fact, a fact without derivations, or a certificate that fails. */
  lemma RefusedForCause(b: CombineBundle)
    requires !Replays(b)
    ensures
      || b.schema != "smash2-combine/2" || b.verdict != "PROVEN DISJOINT" || b.note != SCOPE_NOTE
      || (exists i, q | 0 <= i < |b.asserts| && q in Ids(b.asserts[i].formula) :: !HasLabel(b.quantities, q))
      || (exists k, q | 0 <= k < |b.facts| && q in Ids(b.facts[k].formula) :: !HasLabel(b.quantities, q))
      || (exists k, j, i, q | 0 <= k < |b.facts| && 0 <= j < |b.facts[k].derivations|
            && 0 <= i < |b.facts[k].derivations[j].premises| && q in Ids(b.facts[k].derivations[j].premises[i].formula) ::
            !HasLabel(b.quantities, q))
      || (exists i, j :: 0 <= i < j < |b.facts| && b.facts[i].name == b.facts[j].name)
      || (exists i | 0 <= i < |b.asserts| && b.asserts[i].source.Derived? ::
            forall k :: 0 <= k < |b.facts| ==> b.facts[k].name != b.asserts[i].source.fact || b.facts[k].formula != b.asserts[i].formula)
      || (exists i :: 0 <= i < |b.asserts| && !b.asserts[i].source.Derived? && "XR" <= b.asserts[i].name)
      || (exists k :: 0 <= k < |b.facts| && b.facts[k].derivations == [])
      || (exists k, j | 0 <= k < |b.facts| && 0 <= j < |b.facts[k].derivations| ::
            !Replay(CertOf(b.facts[k].derivations[j].certificate), FormulasOf(b.facts[k].derivations[j].premises)))
      || !Replay(CertOf(b.certificate), FormulasOf(b.asserts))
  {
    hide AllIds, Replay, CertOf, FormulasOf, Ids;
    if !(AllIds(b.asserts, b.facts) <= Labelled(b.quantities)) {
      var q :| q in AllIds(b.asserts, b.facts) && q !in Labelled(b.quantities);
      assert !HasLabel(b.quantities, q);
      IdIsUsed(b, q);
    } else if i :| 0 <= i < |b.asserts| && !Linked(b.asserts[i], b.facts) {
    } else if k :| 0 <= k < |b.facts| && !FactReplays(b.facts[k]) {
      if b.facts[k].derivations != [] {
        var j :| 0 <= j < |b.facts[k].derivations| && !DerivationReplays(b.facts[k].derivations[j]);
      }
    }
  }

  // ----- packaging -----

  /** The schema's history is given by its versions. */
  const PRODUCER: Producer := Producer("smash2_cpp", "0.1.0", ["smash2-combine/1", "smash2-combine/2"])

  predicate AscendingLabels(ls: seq<Label>) { forall i, j :: 0 <= i < j < |ls| ==> ls[i].q < ls[j].q }

  predicate Sorted(r: seq<nat>) { forall i, j :: 0 <= i < j < |r| ==> r[i] < r[j] }

  lemma SortedCons(m: nat, r: seq<nat>)
    requires Sorted(r) && forall x :: x in r ==> m < x
    ensures Sorted([m] + r)
  {
    forall j | 0 <= j < |r| ensures m < r[j] { assert r[j] in r; }
  }

  lemma AscendingHead(s: set<nat>) returns (m: nat)
    requires s != {}
    ensures Conditions.IsLeast(s, m) && Conditions.Ascending(s) == [m] + Conditions.Ascending(s - {m})
  {
    m := Conditions.Ascending(s)[0];
  }

  lemma {:induction false} AscendingSorted(s: set<nat>)
    ensures Sorted(Conditions.Ascending(s))
    decreases |s|
  {
    if s != {} {
      var m := AscendingHead(s);
      AscendingSorted(s - {m});
      SortedCons(m, Conditions.Ascending(s - {m}));
    }
  }

  /** Package a certified pair, with a label for every quantity mentioned. */
  method Make(regionA: string, regionB: string, asserts: seq<BundleAssert>, facts: seq<DerivedFact>,
      certificate: CertTree, labelOf: nat -> string) returns (b: CombineBundle)
    ensures AscendingLabels(b.quantities) && Labelled(b.quantities) == AllIds(asserts, facts)
    ensures forall i :: 0 <= i < |b.quantities| ==> b.quantities[i].text == labelOf(b.quantities[i].q)
    ensures b.regionA == regionA && b.regionB == regionB
    ensures b.asserts == asserts && b.facts == facts && b.certificate == certificate
    ensures Replays(b) <==> Sound(asserts, facts, certificate)
  {
    hide AllIds, Sound;
    var ids := AllIds(asserts, facts);
    var order, labels := Conditions.Ascending(ids), [];
    AscendingSorted(ids);
    for i := 0 to |order|
      invariant |labels| == i && forall k :: 0 <= k < i ==> labels[k] == Label(order[k], labelOf(order[k]))
    {
      labels := labels + [Label(order[i], labelOf(order[i]))];
    }
    assert Labelled(labels) == ids by {
      forall q | q in ids ensures q in Labelled(labels) {
        var k :| 0 <= k < |order| && order[k] == q;
        assert labels[k].q == q;
      }
      forall q | q in Labelled(labels) ensures q in ids { assert q in order; }
    }
    assert AscendingLabels(labels);
    b := CombineBundle(BUNDLE_SCHEMA, PRODUCER, [], regionA, regionB, BUNDLE_VERDICT, SCOPE_NOTE, labels, asserts, facts, certificate);
  }
}
