/** Refutation certificates and the trusted replay kernel. */
module Certificates {
  import opened Linear
  import opened Formulas
  import opened Constraints
  import opened Saturation

  /** Hard cap on case-split nesting. */
  const MAX_DEPTH: nat := 1024

  datatype CertNode =
    | Contradiction
    | Farkas(multipliers: seq<real>)
    | Split(branches: seq<CertNode>)

  /** The kernel: replays a certificate against a conjunction, without search. */
  predicate ReplayNode(cert: CertNode, conj: seq<QFormula>, depth: nat)
    decreases cert
  {
    && depth <= MAX_DEPTH
    && var sat := SaturateSpec(conj);
       if sat.hasFalse then cert.Contradiction?
       else match LeftmostOr(sat.items)
         case None =>
           cert.Farkas? && FarkasRefutes(CollectConstraints(sat.items), cert.multipliers)
         case Some(j) =>
           && cert.Split?
           && var ds := sat.items[j].items;
              && |cert.branches| == |ds|
              && forall i | 0 <= i < |ds| :: ReplayNode(cert.branches[i], BuildChild(sat.items, j, ds[i]), depth + 1)
  }

  predicate Replay(cert: CertNode, formulas: seq<QFormula>) {
    ReplayNode(cert, formulas, 0)
  }

  lemma SaturatedLeaf(conj: seq<QFormula>)
    requires LeftmostOr(SaturateSpec(conj).items).None?
    ensures LeafItems(SaturateSpec(conj).items)
  {
    forall x | x in SpineAll(conj) { SpineAllShape(conj, x); }
  }

  /** Soundness of the kernel: a conjunction whose certificate replays has no
      model at all. */
  lemma {:induction false} ReplaySound(cert: CertNode, conj: seq<QFormula>, depth: nat)
    requires ReplayNode(cert, conj, depth)
    ensures !Satisfiable(conj)
    decreases cert
  {
    var sat := SaturateSpec(conj);
    forall v: Valuation ensures !HoldsAll(conj, v) {
      SaturateMeaning(conj, v);
      if !sat.hasFalse {
        match LeftmostOr(sat.items)
        case None =>
          SaturatedLeaf(conj);
          LeafMeaning(sat.items, v);
          FarkasSound(CollectConstraints(sat.items), cert.multipliers);
        case Some(j) =>
          SplitMeaning(sat.items, j, v);
          var ds := sat.items[j].items;
          forall d | d in ds ensures !HoldsAll(BuildChild(sat.items, j, d), v) {
            var i :| 0 <= i < |ds| && ds[i] == d;
            ReplaySound(cert.branches[i], BuildChild(sat.items, j, d), depth + 1);
          }
      }
    }
  }
}
