/** Emission of the axioms: the loops over quantities and pairs, and the rounds to
    a fixpoint. */
module AxiomEmission {
  import opened Linear
  import opened Formulas
  import opened Conditions
  import opened Collections
  import opened Axioms
  import opened AxiomStrength

  class Emit {
    const g: Catalog
    var out: seq<QFormula>

    constructor (g: Catalog)
      ensures this.g == g && out == []
    {
      this.g := g;
      out := [];
    }

    /** Append what every quantity brings on its own. */
    method PerQuantity(qs: seq<QuantityId>)
      requires WellFormed(g.cs)
      modifies this
      ensures forall f :: f in out <==> f in old(out) || OwnDue(g, qs, f)
    {
      hide AxiomsOf;
      for i := 0 to |qs|
        invariant forall f :: f in out <==> f in old(out) || OwnDue(g, qs[..i], f)
      {
        assert qs[..i + 1] == qs[..i] + [qs[i]];
        out := out + AxiomsOf(g, g.quantityOf(qs[i]));
      }
      assert qs[..|qs|] == qs;
    }

    /** Append the order axioms of every pair. */
    method Ord(qs: seq<QuantityId>)
      requires WellFormed(g.cs)
      modifies this
      ensures forall f :: f in out <==> f in old(out) || PairDue(g, qs, qs, f)
    {
      hide OrdOf;
      for i := 0 to |qs|
        invariant forall f :: f in out <==> f in old(out) || PairDue(g, qs[..i], qs, f)
      {
        for j := 0 to |qs|
          invariant forall f :: f in out <==> f in old(out) || PairDue(g, qs[..i], qs, f) || PairDue(g, [qs[i]], qs[..j], f)
        {
          assert qs[..j + 1] == qs[..j] + [qs[j]];
          out := out + OrdOf(g, g.quantityOf(qs[i]), g.quantityOf(qs[j]));
        }
        assert qs[..i + 1] == qs[..i] + [qs[i]] && qs[..|qs|] == qs;
      }
      assert qs[..|qs|] == qs;
    }
  }

  /** A filter's axiom about an element that one of the quantities names. */
  ghost predicate FilterDue(g: Catalog, qs: seq<QuantityId>, f: QFormula) {
    exists q | q in qs :: f in EpredOf(g, g.quantityOf(q))
  }

  /** What an instance is true of: every event, or for a filter's axiom every event
      whose elements have what the filters mention. */
  ghost predicate Warranted(g: Catalog, qs: seq<QuantityId>, f: QFormula)
    requires WellFormed(g.cs)
  {
    TrueWhereCarried(f, g) && (TrueOfEvents(f, g) || FilterDue(g, qs, f))
  }

  lemma TrueIsCarried(f: QFormula, g: Catalog)
    requires WellFormed(g.cs) && TrueOfEvents(f, g)
    ensures TrueWhereCarried(f, g)
  {
    hide EventOf, ElementsCarry, Holds;
  }

  lemma DueIsTrue(g: Catalog, qs: seq<QuantityId>, f: QFormula)
    requires CatalogValid(g) && Due(g, qs, f)
    ensures Warranted(g, qs, f)
  {
    hide TrueOfEvents, TrueWhereCarried, SizeAxioms, IdomOf, OrdOf, EpredOf, EpresOf, PresOf, PdefOf;
    if OwnDue(g, qs, f) {
      var q :| q in qs && f in AxiomsOf(g, g.quantityOf(q));
      var quantity := g.quantityOf(q);
      if quantity.SizeOf? && quantity.c < |g.cs| { SizeAxiomsTrue(g, quantity.c); }
      if quantity.PropPresent? && quantity.c < |g.cs| { PresenceTrue(g, quantity); }
      IdomTrue(g, quantity);
      EpredTrue(g, quantity);
      EpresTrue(g, quantity);
    } else {
      var p, q :| p in qs && q in qs && f in OrdOf(g, g.quantityOf(p), g.quantityOf(q));
      OrdTrue(g, g.quantityOf(p), g.quantityOf(q));
    }
    if TrueOfEvents(f, g) { TrueIsCarried(f, g); }
  }

  const ROUNDS := 32

  ghost predicate Distinct(fs: seq<QFormula>) { forall i, j :: 0 <= i < j < |fs| ==> fs[i] != fs[j] }

  ghost predicate MentionsWithin(fs: seq<QFormula>, qs: set<QuantityId>) { forall f | f in fs :: Mentions(f) <= qs }

  function MentionedBy(fs: seq<QFormula>): set<QuantityId> { set f, q | f in fs && q in Mentions(f) :: q }

  /** Everything due is among the instances. */
  ghost predicate Saturated(g: Catalog, qs: seq<QuantityId>, fs: seq<QFormula>)
    requires WellFormed(g.cs)
  {
    forall f :: Due(g, qs, f) ==> f in fs
  }

  /** Nothing else is. */
  ghost predicate OnlyDue(g: Catalog, qs: seq<QuantityId>, fs: seq<QFormula>)
    requires WellFormed(g.cs)
  {
    forall f | f in fs :: Due(g, qs, f)
  }

  /** Keep what a round brought for the first time, and the quantities it mentions. */
  method Absorb(round: seq<QFormula>, known: seq<QFormula>, before: set<QuantityId>)
    returns (instances: seq<QFormula>, qs: set<QuantityId>, grew: bool)
    requires Distinct(known) && MentionsWithin(known, before)
    ensures Distinct(instances) && MentionsWithin(instances, qs) && before <= qs
    ensures forall f :: f in instances <==> f in known || f in round
    ensures if grew then |instances| > |known| else qs == before && instances == known
    ensures qs <= before + MentionedBy(instances)
  {
    hide Mentions, MentionedBy;
    instances, qs, grew := known, before, false;
    for i := 0 to |round|
      invariant Distinct(instances) && MentionsWithin(instances, qs) && before <= qs
      invariant forall f :: f in instances <==> f in known || f in round[..i]
      invariant if grew then |instances| > |known| else qs == before && instances == known
      invariant qs <= before + MentionedBy(instances)
    {
      assert round[..i + 1] == round[..i] + [round[i]];
      if round[i] !in instances {
        MentionedSnoc(instances, round[i]);
        qs := qs + Mentions(round[i]);
        grew := true;
        instances := instances + [round[i]];
      }
    }
    assert round[..|round|] == round;
  }

  /** Emission to a fixpoint: rounds over a growing set of quantities until a round
      brings nothing new. Every instance is true of events, none is repeated,
      all that is due for the initial quantities is among them, and the final
      quantities are those and what the instances mention. Unless every round
      brought something new the instances are exactly what is due for the final
      quantities, closed under mention. */
  method EmitAxioms(g: Catalog, initial: set<QuantityId>) returns (instances: seq<QFormula>, qs: set<QuantityId>, closed: bool)
    requires CatalogValid(g)
    ensures Distinct(instances) && forall f | f in instances :: Warranted(g, Ascending(qs), f)
    ensures initial <= qs && MentionsWithin(instances, qs)
    ensures OnlyDue(g, Ascending(qs), instances)
    ensures qs == initial + MentionedBy(instances)
    ensures Saturated(g, Ascending(initial), instances)
    ensures forall v: Valuation :: HoldsAll(instances, v) ==> Forces(g, initial, v)
    ensures closed ==> forall v: Valuation :: HoldsAll(instances, v) <==> Forces(g, qs, v)
    ensures if closed then Saturated(g, Ascending(qs), instances) else |instances| >= ROUNDS
  {
    hide Forces, Warranted, Due, Mentions, Ascending, Distinct, MentionsWithin, MentionedBy;
    instances, qs, closed := [], initial, false;
    assert Distinct([]) && MentionsWithin([], initial) by { NothingMentions(initial); }
    for round := 0 to ROUNDS
      invariant Distinct(instances) && forall f | f in instances :: Warranted(g, Ascending(qs), f)
      invariant initial <= qs && MentionsWithin(instances, qs)
      invariant OnlyDue(g, Ascending(qs), instances)
      invariant qs <= initial + MentionedBy(instances) && |instances| >= round
      invariant if round == 0 then qs == initial else Saturated(g, Ascending(initial), instances)
    {
      var snap := Ascending(qs);
      var out := EmitRound(g, snap);
      ghost var start, known := qs, instances;
      var grew;
      instances, qs, grew := Absorb(out, instances, qs);
      MentionedGrows(known, instances);
      forall f | f in instances ensures Due(g, Ascending(qs), f) && Warranted(g, Ascending(qs), f) {
        assert Due(g, snap, f);
        DueGrows(g, start, qs, f);
        DueIsTrue(g, Ascending(qs), f);
      }
      if !grew {
        MentionedWithin(instances, qs);
        forall v: Valuation { InstancesForce(g, initial, instances, v); }
        forall v: Valuation { InstancesMean(g, qs, instances, v); }
        return instances, qs, true;
      }
    }
    MentionedWithin(instances, qs);
    forall v: Valuation { InstancesForce(g, initial, instances, v); }
  }

  /** Whatever satisfies the instances keeps the facts about the quantities that
      they were due for. */
  lemma InstancesForce(g: Catalog, all: set<QuantityId>, instances: seq<QFormula>, v: Valuation)
    requires CatalogValid(g) && Saturated(g, Ascending(all), instances)
    ensures HoldsAll(instances, v) ==> Forces(g, all, v)
  {
    hide Due, Forces, Holds;
    DueMeans(g, Ascending(all), all, v);
  }

  lemma InstancesMean(g: Catalog, all: set<QuantityId>, instances: seq<QFormula>, v: Valuation)
    requires CatalogValid(g) && Saturated(g, Ascending(all), instances) && OnlyDue(g, Ascending(all), instances)
    ensures HoldsAll(instances, v) <==> Forces(g, all, v)
  {
    hide Due, Forces, Holds;
    DueMeans(g, Ascending(all), all, v);
  }

  lemma MentionedSnoc(fs: seq<QFormula>, f: QFormula)
    ensures MentionedBy(fs + [f]) == MentionedBy(fs) + Mentions(f)
  {
    hide Mentions;
  }

  lemma MentionedGrows(a: seq<QFormula>, b: seq<QFormula>)
    requires forall f :: f in a ==> f in b
    ensures MentionedBy(a) <= MentionedBy(b)
  {
    hide Mentions;
  }

  lemma MentionedWithin(fs: seq<QFormula>, qs: set<QuantityId>)
    requires MentionsWithin(fs, qs)
    ensures MentionedBy(fs) <= qs
  {
    hide Mentions;
  }

  lemma NothingMentions(qs: set<QuantityId>)
    ensures Distinct([]) && MentionsWithin([], qs)
  {
  }

  method EmitRound(g: Catalog, snap: seq<QuantityId>) returns (out: seq<QFormula>)
    requires WellFormed(g.cs)
    ensures forall f :: f in out <==> Due(g, snap, f)
  {
    var em := new Emit(g);
    em.Ord(snap);
    em.PerQuantity(snap);
    out := em.out;
  }

  lemma DueGrows(g: Catalog, a: set<QuantityId>, b: set<QuantityId>, f: QFormula)
    requires WellFormed(g.cs) && a <= b && Due(g, Ascending(a), f)
    ensures Due(g, Ascending(b), f)
  {
    hide AxiomsOf, OrdOf;
    assert forall q :: q in Ascending(a) ==> q in Ascending(b);
  }
}
