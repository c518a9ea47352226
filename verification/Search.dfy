/** The budgeted DPLL(Farkas) search. It is untrusted: its certificates are
    replayed before anyone relies on them. */
module Search {
  import opened Linear
  import opened Formulas
  import opened Constraints
  import opened Saturation
  import opened Certificates
  import FourierMotzkin

  const SIZE_MAX: nat := 0xFFFF_FFFF_FFFF_FFFF

  function SaturatingMul(a: nat, b: nat): (r: nat)
    ensures r == if a * b <= SIZE_MAX then a * b else SIZE_MAX
  {
    if a != 0 && b > SIZE_MAX / a then
      DivisionBound(a, b); SIZE_MAX
    else
      if a == 0 then 0 else (ProductBound(a, b); a * b)
  }

  lemma DivisionBound(a: nat, b: nat)
    requires a != 0 && b > SIZE_MAX / a
    ensures a * b > SIZE_MAX
  {
    var d := SIZE_MAX / a;
    Quotient(SIZE_MAX, a);
    Monotone(a, d + 1, b);
  }

  lemma Quotient(n: nat, a: nat)
    requires a != 0
    ensures a * (n / a) <= n < a * (n / a + 1)
  {
  }

  lemma Monotone(a: nat, x: nat, y: nat)
    requires x <= y
    ensures a * x <= a * y
  {
  }

  lemma ProductBound(a: nat, b: nat)
    requires a != 0 && b <= SIZE_MAX / a
    ensures a * b <= SIZE_MAX
  {
    Quotient(SIZE_MAX, a);
    Monotone(a, b, SIZE_MAX / a);
  }

  function SaturatingAdd(a: nat, b: nat): nat {
    if a + b > SIZE_MAX then SIZE_MAX else a + b
  }

  datatype Budget = Budget(maxBranches: nat, maxAtoms: nat)

  datatype Outcome =
    | Found(cert: CertNode)
    | DepthExceeded
    | LeafTooWide
    | BranchesExceeded
    | FillInExceeded
    | BranchSatisfiable

  // ----- how much work a conjunction can take -----

  function MaxNat(a: nat, b: nat): nat { if a < b then b else a }

  /** The deepest nesting of case splits. */
  function SplitDepth(f: QFormula): nat
    decreases f, 1
  {
    match f
    case QAnd(items) => SplitDepthAll(items)
    case QOr(items) => 1 + SplitDepthAny(items)
    case QAtom(a) => if a.rel == Ne then 1 else 0
    case _ => 0
  }

  function SplitDepthAll(fs: seq<QFormula>): nat
    decreases fs, 0
  {
    if fs == [] then 0 else SplitDepth(fs[0]) + SplitDepthAll(fs[1..])
  }

  function SplitDepthAny(fs: seq<QFormula>): nat
    decreases fs, 0
  {
    if fs == [] then 0 else MaxNat(SplitDepth(fs[0]), SplitDepthAny(fs[1..]))
  }

  /** The widest leaf: how many constraints one branch can collect. */
  function LeafWidth(f: QFormula): nat
    decreases f, 1
  {
    match f
    case QAnd(items) => LeafWidthAll(items)
    case QOr(items) => LeafWidthAny(items)
    case QAtom(a) => if a.rel == Eq then 2 else 1
    case _ => 0
  }

  function LeafWidthAll(fs: seq<QFormula>): nat
    decreases fs, 0
  {
    if fs == [] then 0 else LeafWidth(fs[0]) + LeafWidthAll(fs[1..])
  }

  function LeafWidthAny(fs: seq<QFormula>): nat
    decreases fs, 0
  {
    if fs == [] then 0 else MaxNat(LeafWidth(fs[0]), LeafWidthAny(fs[1..]))
  }

  lemma {:induction false} SplitDepthConcat(a: seq<QFormula>, b: seq<QFormula>)
    ensures SplitDepthAll(a + b) == SplitDepthAll(a) + SplitDepthAll(b)
  {
    if a == [] { assert a + b == b; }
    else { assert (a + b)[1..] == a[1..] + b; SplitDepthConcat(a[1..], b); }
  }

  lemma {:induction false} LeafWidthConcat(a: seq<QFormula>, b: seq<QFormula>)
    ensures LeafWidthAll(a + b) == LeafWidthAll(a) + LeafWidthAll(b)
  {
    if a == [] { assert a + b == b; }
    else { assert (a + b)[1..] == a[1..] + b; LeafWidthConcat(a[1..], b); }
  }

  lemma {:induction false} MemberBounds(fs: seq<QFormula>, d: QFormula)
    requires d in fs
    ensures SplitDepth(d) <= SplitDepthAny(fs) && LeafWidth(d) <= LeafWidthAny(fs)
  {
    if d != fs[0] { MemberBounds(fs[1..], d); }
  }

  lemma {:induction false} SpineMeasures(f: QFormula)
    ensures SplitDepthAll(Spine(f)) == SplitDepth(f) && LeafWidthAll(Spine(f)) == LeafWidth(f)
    decreases f, 1
  {
    match f
    case QTrue =>
    case QFalse =>
    case QAnd(items) => SpineAllMeasures(items);
    case QOr(_) => SingleMeasures(f);
    case QAtom(a) =>
      if a.rel == Eq {
        var l, g := QAtom(Retagged(a, Le)), QAtom(Retagged(a, Ge));
        SingleMeasures(l);
        SingleMeasures(g);
        assert Spine(f) == [l] + [g];
        SplitDepthConcat([l], [g]);
        LeafWidthConcat([l], [g]);
      } else if a.rel == Ne {
        var l, g := QAtom(Retagged(a, Lt)), QAtom(Retagged(a, Gt));
        SingleMeasures(l);
        SingleMeasures(g);
        PairMeasures(l, g);
        SingleMeasures(QOr([l, g]));
      } else {
        SingleMeasures(f);
      }
  }

  lemma SingleMeasures(f: QFormula)
    ensures SplitDepthAll([f]) == SplitDepth(f) && LeafWidthAll([f]) == LeafWidth(f)
  {
    assert [f][1..] == [];
  }

  lemma PairMeasures(l: QFormula, g: QFormula)
    ensures SplitDepthAny([l, g]) == MaxNat(SplitDepth(l), SplitDepth(g))
    ensures LeafWidthAny([l, g]) == MaxNat(LeafWidth(l), LeafWidth(g))
  {
    assert [l, g][1..] == [g];
    assert [g][1..] == [];
    assert SplitDepthAny([g]) == MaxNat(SplitDepth(g), 0);
    assert LeafWidthAny([g]) == MaxNat(LeafWidth(g), 0);
  }

  /** Saturation changes neither measure. */
  lemma {:induction false} SpineAllMeasures(fs: seq<QFormula>)
    ensures SplitDepthAll(SpineAll(fs)) == SplitDepthAll(fs) && LeafWidthAll(SpineAll(fs)) == LeafWidthAll(fs)
    decreases fs, 0
  {
    if fs != [] {
      SpineMeasures(fs[0]);
      SpineAllMeasures(fs[1..]);
      SplitDepthConcat(Spine(fs[0]), SpineAll(fs[1..]));
      LeafWidthConcat(Spine(fs[0]), SpineAll(fs[1..]));
    }
  }

  /** A child of a split is strictly shallower and never wider than its parent. */
  lemma ChildMeasures(items: seq<QFormula>, j: nat, d: QFormula)
    requires j < |items| && items[j].QOr? && d in items[j].items
    ensures SplitDepthAll(BuildChild(items, j, d)) < SplitDepthAll(items)
    ensures LeafWidthAll(BuildChild(items, j, d)) <= LeafWidthAll(items)
  {
    var l, r := items[..j], items[j + 1..];
    assert items == (l + [items[j]]) + r;
    assert BuildChild(items, j, d) == (l + r) + [d];
    SplitDepthConcat(l + [items[j]], r);
    SplitDepthConcat(l, [items[j]]);
    SplitDepthConcat(l + r, [d]);
    SplitDepthConcat(l, r);
    LeafWidthConcat(l + [items[j]], r);
    LeafWidthConcat(l, [items[j]]);
    LeafWidthConcat(l + r, [d]);
    LeafWidthConcat(l, r);
    SingleMeasures(items[j]);
    SingleMeasures(d);
    MemberBounds(items[j].items, d);
  }

  lemma {:induction false} LeafCount(items: seq<QFormula>)
    requires LeafItems(items)
    ensures |items| == LeafWidthAll(items)
  {
    if items != [] {
      assert items[0] in items;
      LeafCount(items[1..]);
    }
  }

  // ----- how much elimination can fill in -----

  function AllMentions(fs: seq<QFormula>): set<QuantityId> { set f, q | f in fs && q in Mentions(f) :: q }

  /** A bound on the rows that eliminating a leaf of the conjunction can make. */
  ghost function FillIn(fs: seq<QFormula>): nat { FourierMotzkin.Growth(LeafWidthAll(fs), |AllMentions(fs)|) }

  lemma FillInMonotone(a: seq<QFormula>, b: seq<QFormula>)
    requires LeafWidthAll(a) <= LeafWidthAll(b) && AllMentions(a) <= AllMentions(b)
    ensures FillIn(a) <= FillIn(b)
  {
    hide LeafWidthAll, AllMentions, FourierMotzkin.Growth;
    FourierMotzkin.SubsetSize(AllMentions(a), AllMentions(b));
    FourierMotzkin.GrowthMonotone(LeafWidthAll(a), |AllMentions(a)|, LeafWidthAll(b), |AllMentions(b)|);
  }

  lemma MentionsConcat(a: seq<QFormula>, b: seq<QFormula>)
    ensures AllMentions(a + b) == AllMentions(a) + AllMentions(b)
  {
    hide Mentions;
  }

  lemma RetaggedMentions(a: LinAtom, rel: Rel)
    ensures Mentions(QAtom(Retagged(a, rel))) <= Mentions(QAtom(a))
  {
    forall q | q in Mentions(QAtom(Retagged(a, rel))) ensures q in Mentions(QAtom(a)) {
      var t :| t in Normalize(a.terms) && t.q == q;
      DropZerosMember(Merge([], a.terms), t);
      MergeKeys([], a.terms, t);
    }
  }

  lemma {:induction false} SpineMentions(f: QFormula)
    ensures AllMentions(Spine(f)) <= Mentions(f)
    decreases f, 1
  {
    match f
    case QAnd(items) =>
      SpineAllMentions(items);
    case QAtom(a) =>
      RetaggedMentions(a, Le);
      RetaggedMentions(a, Ge);
      RetaggedMentions(a, Lt);
      RetaggedMentions(a, Gt);
    case _ =>
  }

  /** Saturation mentions nothing new. */
  lemma {:induction false} SpineAllMentions(fs: seq<QFormula>)
    ensures AllMentions(SpineAll(fs)) <= AllMentions(fs)
    decreases fs, 0
  {
    if fs != [] {
      SpineMentions(fs[0]);
      SpineAllMentions(fs[1..]);
      MentionsConcat(Spine(fs[0]), SpineAll(fs[1..]));
      MentionsConcat([fs[0]], fs[1..]);
      assert fs == [fs[0]] + fs[1..];
    }
  }

  /** A child of a split mentions nothing new. */
  lemma ChildMentions(items: seq<QFormula>, j: nat, d: QFormula)
    requires j < |items| && items[j].QOr? && d in items[j].items
    ensures AllMentions(BuildChild(items, j, d)) <= AllMentions(items)
  {
    forall f, q | f in BuildChild(items, j, d) && q in Mentions(f) ensures q in AllMentions(items) {
      if f == d { assert items[j] in items && q in Mentions(items[j]); } else { assert f in items; }
    }
  }

  lemma CanonicalMentions(a: LinAtom)
    ensures FourierMotzkin.ConstraintVars([Canonicalize(a)]) <= Mentions(QAtom(a))
  {
    forall t | t in Canonicalize(a).coeffs ensures t.q in Mentions(QAtom(a)) {
      if t !in a.terms { ScaledKeys(-1.0, a.terms, t); }
    }
  }

  lemma VarsConcat(a: seq<Constraint>, b: seq<Constraint>)
    ensures FourierMotzkin.ConstraintVars(a + b) == FourierMotzkin.ConstraintVars(a) + FourierMotzkin.ConstraintVars(b)
  {
  }

  lemma {:induction false} LeafMentions(items: seq<QFormula>)
    requires LeafItems(items)
    ensures FourierMotzkin.ConstraintVars(CollectConstraints(items)) <= AllMentions(items)
  {
    hide FourierMotzkin.ConstraintVars, Canonicalize, Mentions;
    if items == [] {
      NoVars();
    } else {
      assert items[0] in items && forall x | x in items[1..] :: x in items;
      LeafMentions(items[1..]);
      CanonicalMentions(items[0].atom);
      VarsConcat([Canonicalize(items[0].atom)], CollectConstraints(items[1..]));
      MentionsConcat([items[0]], items[1..]);
      assert items == [items[0]] + items[1..];
      forall q | q in Mentions(items[0]) ensures q in AllMentions([items[0]]) { assert items[0] in [items[0]]; }
    }
  }

  lemma NoVars()
    ensures FourierMotzkin.ConstraintVars([]) == {}
  {
  }

  lemma ScaledKeys(c: real, ts: seq<Term>, t: Term)
    requires t in Scale(c, ts)
    ensures exists u :: u in ts && u.q == t.q
  {
    var i :| 0 <= i < |Scale(c, ts)| && Scale(c, ts)[i] == t;
    if ts != [] { ScaleAt(c, ts, 0); }
    ScaleAt(c, ts, i);
  }

  lemma ChildNormal(items: seq<QFormula>, j: nat, d: QFormula)
    requires AllNormal(items) && j < |items| && items[j].QOr? && d in items[j].items
    ensures AllNormal(BuildChild(items, j, d))
  {
    assert items[j] in items && NormalAtoms(items[j]);
  }

  /** How many ways there are through the disjunctions. */
  function Paths(f: QFormula): (n: nat)
    ensures n >= 1
    decreases f, 1
  {
    match f
    case QAnd(items) => PathsAll(items)
    case QOr(items) => if items == [] then 1 else PathsSum(items)
    case QAtom(a) => if a.rel == Ne then 2 else 1
    case _ => 1
  }

  function PathsAll(fs: seq<QFormula>): (n: nat)
    ensures n >= 1
    decreases fs, 0
  {
    if fs == [] then 1 else Product(Paths(fs[0]), PathsAll(fs[1..]))
  }

  function PathsSum(fs: seq<QFormula>): (n: nat)
    ensures fs != [] ==> n >= 1
    decreases fs, 0
  {
    if fs == [] then 0 else Paths(fs[0]) + PathsSum(fs[1..])
  }

  function Product(a: nat, b: nat): (n: nat)
    ensures a >= 1 && b >= 1 ==> n >= 1
  {
    a * b
  }

  lemma ProductLaws(a: nat, b: nat, c: nat)
    ensures Product(a, b) == Product(b, a)
    ensures Product(Product(a, b), c) == Product(a, Product(b, c))
    ensures Product(a, b + c) == Product(a, b) + Product(a, c)
    ensures Product(a, 1) == a == Product(1, a)
    ensures Product(a, 0) == 0
  {
  }

  lemma ProductMonotone(a: nat, b: nat, c: nat, d: nat)
    requires a <= c && b <= d
    ensures Product(a, b) <= Product(c, d)
  {
    hide Product;
    ProductLaws(a, b, d - b);
    ProductLaws(d, a, c - a);
    ProductLaws(d, c, 0);
  }

  lemma {:induction false} PathsConcat(a: seq<QFormula>, b: seq<QFormula>)
    ensures PathsAll(a + b) == Product(PathsAll(a), PathsAll(b))
  {
    hide Product;
    if a == [] {
      assert a + b == b;
      ProductLaws(PathsAll(b), 0, 0);
    } else {
      assert (a + b)[1..] == a[1..] + b;
      PathsConcat(a[1..], b);
      ProductLaws(Paths(a[0]), PathsAll(a[1..]), PathsAll(b));
    }
  }

  lemma SinglePaths(f: QFormula)
    ensures PathsAll([f]) == Paths(f) == PathsSum([f])
  {
    assert [f][1..] == [];
    ProductLaws(Paths(f), 0, 0);
  }

  lemma {:induction false} SumConcat(a: seq<QFormula>, b: seq<QFormula>)
    ensures PathsSum(a + b) == PathsSum(a) + PathsSum(b)
  {
    if a == [] { assert a + b == b; }
    else { assert (a + b)[1..] == a[1..] + b; SumConcat(a[1..], b); }
  }

  lemma {:induction false} SpinePaths(f: QFormula)
    ensures PathsAll(Spine(f)) == Paths(f)
    decreases f, 1
  {
    match f
    case QTrue =>
    case QFalse =>
    case QAnd(items) => SpineAllPaths(items);
    case QOr(_) => SinglePaths(f);
    case QAtom(a) =>
      if a.rel == Eq {
        var l, g := QAtom(Retagged(a, Le)), QAtom(Retagged(a, Ge));
        assert Spine(f) == [l] + [g];
        PathsConcat([l], [g]);
        SinglePaths(l);
        SinglePaths(g);
      } else if a.rel == Ne {
        var l, g := QAtom(Retagged(a, Lt)), QAtom(Retagged(a, Gt));
        assert [l, g] == [l] + [g];
        SumConcat([l], [g]);
        SinglePaths(l);
        SinglePaths(g);
        SinglePaths(QOr([l, g]));
      } else {
        SinglePaths(f);
      }
  }

  lemma {:induction false} SpineAllPaths(fs: seq<QFormula>)
    ensures PathsAll(SpineAll(fs)) == PathsAll(fs)
    decreases fs, 0
  {
    if fs != [] {
      SpinePaths(fs[0]);
      SpineAllPaths(fs[1..]);
      PathsConcat(Spine(fs[0]), SpineAll(fs[1..]));
    }
  }

  /** A bound on the number of branches that refuting a conjunction visits. */
  function Visits(fs: seq<QFormula>): nat { Product(SplitDepthAll(fs), PathsAll(fs)) }

  /** The paths through everything but item j. */
  function OtherPaths(items: seq<QFormula>, j: nat): nat
    requires j < |items|
  {
    PathsAll(items[..j] + items[j + 1..])
  }

  /** One branch of a split, counted with everything below it. */
  lemma ChildVisits(items: seq<QFormula>, j: nat, d: QFormula)
    requires j < |items| && items[j].QOr? && d in items[j].items
    ensures 1 + Visits(BuildChild(items, j, d)) <= Product(SplitDepthAll(items), Product(OtherPaths(items, j), Paths(d)))
  {
    hide Product;
    var child := BuildChild(items, j, d);
    ChildMeasures(items, j, d);
    PathsConcat(items[..j] + items[j + 1..], [d]);
    SinglePaths(d);
    var x := PathsAll(child);
    assert x == Product(OtherPaths(items, j), Paths(d));
    ProductMonotone(SplitDepthAll(child) + 1, x, SplitDepthAll(items), x);
    ProductLaws(x, SplitDepthAll(child), 1);
    ProductLaws(SplitDepthAll(child), x, 0);
    ProductLaws(SplitDepthAll(child) + 1, x, 0);
  }

  /** All branches of a split together stay within the bound of the parent. */
  lemma SplitVisits(items: seq<QFormula>, j: nat)
    requires j < |items| && items[j].QOr?
    ensures Product(SplitDepthAll(items), Product(OtherPaths(items, j), PathsSum(items[j].items))) <= Visits(items)
  {
    hide Product;
    var l, r := items[..j], items[j + 1..];
    assert items == (l + [items[j]]) + r;
    PathsConcat(l + [items[j]], r);
    PathsConcat(l, [items[j]]);
    PathsConcat(l, r);
    SinglePaths(items[j]);
    var p := Paths(items[j]);
    ProductLaws(PathsAll(l), p, PathsAll(r));
    ProductLaws(p, PathsAll(r), 0);
    ProductLaws(PathsAll(l), PathsAll(r), p);
    assert PathsAll(items) == Product(OtherPaths(items, j), p);
    ProductMonotone(OtherPaths(items, j), PathsSum(items[j].items), OtherPaths(items, j), p);
    ProductMonotone(SplitDepthAll(items), Product(OtherPaths(items, j), PathsSum(items[j].items)), SplitDepthAll(items), PathsAll(items));
  }

  // ----- what a certificate has cost -----

  /** The case splits that a certificate spends, which is what the branch counter counts. */
  function Spent(cert: CertNode): nat
    decreases cert, 0
  {
    match cert
    case Split(nodes) => |nodes| + SpentAll(nodes)
    case _ => 0
  }

  function SpentAll(nodes: seq<CertNode>): nat
    decreases nodes, 1
  {
    if nodes == [] then 0 else SpentAll(nodes[..|nodes| - 1]) + Spent(nodes[|nodes| - 1])
  }

  /** No leaf weighs more than that many atoms. */
  predicate LeavesWithin(cert: CertNode, maxAtoms: nat) {
    match cert
    case Contradiction => true
    case Farkas(multipliers) => |multipliers| <= maxAtoms
    case Split(nodes) => forall node | node in nodes :: LeavesWithin(node, maxAtoms)
  }

  /** The certificate fits the budget: its splits were counted, within the cap, and its leaves are no wider than allowed. */
  predicate Affordable(cert: CertNode, budget: Budget, before: nat, after: nat) {
    && after == before + Spent(cert)
    && (Spent(cert) > 0 ==> after <= budget.maxBranches)
    && LeavesWithin(cert, budget.maxAtoms)
  }

  lemma SpendOneMore(nodes: seq<CertNode>, node: CertNode)
    ensures SpentAll(nodes + [node]) == SpentAll(nodes) + Spent(node)
  {
    assert (nodes + [node])[..|nodes|] == nodes;
  }

  lemma SplitCosts(nodes: seq<CertNode>, maxAtoms: nat)
    ensures SpentAll([]) == 0 && Spent(Split(nodes)) == |nodes| + SpentAll(nodes)
    ensures LeavesWithin(Split(nodes), maxAtoms) <==> forall node :: node in nodes ==> LeavesWithin(node, maxAtoms)
  {
  }

  // ----- where a search stops -----

  /** The way to a branch: at each split the certificates of the branches before it. */
  datatype Path = Here | Down(done: seq<CertNode>, next: Path)

  /** The branches before the path are refuted by the certificates it carries. */
  ghost predicate Explored(path: Path, conj: seq<QFormula>, depth: nat) {
    match path
    case Here => true
    case Down(done, next) =>
      && depth <= MAX_DEPTH && !AnyFalse(conj)
      && var items := SpineAll(conj);
         match LeftmostOr(items)
         case None => false
         case Some(j) =>
           && |done| < |items[j].items|
           && (forall k :: 0 <= k < |done| ==> ReplayNode(done[k], BuildChild(items, j, items[j].items[k]), depth + 1))
           && Explored(next, BuildChild(items, j, items[j].items[|done|]), depth + 1)
  }

  /** The branches counted on the way. */
  function Cost(path: Path): nat { match path case Here => 0 case Down(done, next) => |done| + SpentAll(done) + 1 + Cost(next) }

  /** The conjunction at which the search gives up has that reason. */
  ghost predicate StopsAt(why: Outcome, conj: seq<QFormula>, depth: nat, branches: nat, budget: Budget, fillCap: nat) {
    match why
    case Found(_) => false
    case DepthExceeded => depth > MAX_DEPTH
    case BranchesExceeded => branches > budget.maxBranches
    case _ =>
      && depth <= MAX_DEPTH && !AnyFalse(conj) && LeftmostOr(SpineAll(conj)).None?
      && var cons := CollectConstraints(SpineAll(conj));
         if |cons| > budget.maxAtoms then why.LeafTooWide?
         else if why.FillInExceeded? then FourierMotzkin.Overfills(cons, fillCap)
         else why.BranchSatisfiable? && Feasible(cons)
  }

  /** The path leads to where the search stops. */
  ghost predicate LeadsTo(path: Path, why: Outcome, conj: seq<QFormula>, depth: nat, branches: nat, budget: Budget, fillCap: nat)
    requires Explored(path, conj, depth)
  {
    match path
    case Here => StopsAt(why, conj, depth, branches, budget, fillCap)
    case Down(done, next) =>
      var items := SpineAll(conj);
      var j := LeftmostOr(items).value;
      LeadsTo(next, why, BuildChild(items, j, items[j].items[|done|]), depth + 1, branches, budget, fillCap)
  }

  ghost predicate StopsOn(path: Path, why: Outcome, conj: seq<QFormula>, depth: nat, before: nat, branches: nat, budget: Budget,
      fillCap: nat) {
    Explored(path, conj, depth) && branches == before + Cost(path) && LeadsTo(path, why, conj, depth, branches, budget, fillCap)
  }

  /** The search stops at the first branch, from the left, that it cannot refute. */
  ghost predicate Stops(why: Outcome, conj: seq<QFormula>, depth: nat, before: nat, branches: nat, budget: Budget, fillCap: nat) {
    exists path :: StopsOn(path, why, conj, depth, before, branches, budget, fillCap)
  }

  lemma StopsHere(why: Outcome, conj: seq<QFormula>, depth: nat, branches: nat, budget: Budget, fillCap: nat)
    requires StopsAt(why, conj, depth, branches, budget, fillCap)
    ensures Stops(why, conj, depth, branches, branches, budget, fillCap)
  {
    hide StopsAt;
    assert StopsOn(Here, why, conj, depth, branches, branches, budget, fillCap);
  }

  lemma StopsBelow(why: Outcome, conj: seq<QFormula>, j: nat, depth: nat, done: seq<CertNode>, before: nat, branches: nat, budget: Budget,
      fillCap: nat)
    requires depth <= MAX_DEPTH && !AnyFalse(conj) && LeftmostOr(SpineAll(conj)) == Some(j) && |done| < |SpineAll(conj)[j].items|
    requires forall k :: 0 <= k < |done| ==> ReplayNode(done[k], BuildChild(SpineAll(conj), j, SpineAll(conj)[j].items[k]), depth + 1)
    requires Stops(why, BuildChild(SpineAll(conj), j, SpineAll(conj)[j].items[|done|]), depth + 1, before + |done| + SpentAll(done) + 1,
      branches, budget, fillCap)
    ensures Stops(why, conj, depth, before, branches, budget, fillCap)
  {
    hide StopsAt, AnyFalse, SpineAll, BuildChild, ReplayNode;
    var path :| StopsOn(path, why, BuildChild(SpineAll(conj), j, SpineAll(conj)[j].items[|done|]), depth + 1,
      before + |done| + SpentAll(done) + 1, branches, budget, fillCap);
    assert StopsOn(Down(done, path), why, conj, depth, before, branches, budget, fillCap);
  }

  // ----- the search -----

  class Searcher {
    const budget: Budget
    const fillCap: nat
    var branches: nat

    constructor (budget: Budget)
      ensures this.budget == budget && branches == 0
      ensures fillCap == SaturatingAdd(SaturatingMul(budget.maxAtoms, budget.maxAtoms), 64)
    {
      this.budget := budget;
      fillCap := SaturatingAdd(SaturatingMul(budget.maxAtoms, budget.maxAtoms), 64);
      branches := 0;
    }

    /** Refute a conjunction, or say why not. Every certificate it builds
        replays, `BranchSatisfiable` means that the conjunction has a model, and
        each budget is reported exceeded only when the conjunction is that large. */
    method Refute(conj: seq<QFormula>, depth: nat) returns (r: Outcome)
      requires AllNormal(conj)
      modifies this`branches
      ensures r.Found? ==> ReplayNode(r.cert, conj, depth)
      ensures r.BranchSatisfiable? ==> Satisfiable(conj)
      ensures r.DepthExceeded? ==> depth + SplitDepthAll(conj) > MAX_DEPTH
      ensures r.LeafTooWide? ==> LeafWidthAll(conj) > budget.maxAtoms
      ensures r.BranchesExceeded? ==> branches > budget.maxBranches
      ensures r.FillInExceeded? ==> FillIn(conj) > fillCap
      ensures old(branches) <= branches <= old(branches) + Visits(conj)
      ensures r.Found? ==> Affordable(r.cert, budget, old(branches), branches)
      ensures !r.Found? ==> Stops(r, conj, depth, old(branches), branches, budget, fillCap)
      ensures old(branches) <= budget.maxBranches ==> (r.BranchesExceeded? <==> branches > budget.maxBranches)
      decreases if depth > MAX_DEPTH then 0 else MAX_DEPTH + 1 - depth, 1
    {
      if depth > MAX_DEPTH {
        StopsHere(DepthExceeded, conj, depth, branches, budget, fillCap);
        return DepthExceeded;
      }
      var sat := Saturate(conj);
      if sat.hasFalse { return Found(Contradiction); }
      SpineAllNormal(conj);
      SpineAllMeasures(conj);
      SpineAllPaths(conj);
      SpineAllMentions(conj);
      FillInMonotone(sat.items, conj);
      match LeftmostOr(sat.items) {
        case None =>
          r := RefuteLeaf(conj, sat.items);
          if !r.Found? { StopsHere(r, conj, depth, branches, budget, fillCap); }
        case Some(j) =>
          r := RefuteSplit(conj, sat.items, j, depth);
      }
    }

    /** Refute every branch of the leftmost disjunction. */
    method RefuteSplit(ghost conj: seq<QFormula>, items: seq<QFormula>, j: nat, depth: nat) returns (r: Outcome)
      requires depth <= MAX_DEPTH && j < |items| && items[j].QOr? && AllNormal(items)
      requires items == SpineAll(conj) && !AnyFalse(conj) && LeftmostOr(items) == Some(j)
      modifies this`branches
      ensures r.Found? ==> r.cert.Split? && |r.cert.branches| == |items[j].items|
      ensures r.Found? ==> forall k :: 0 <= k < |items[j].items| ==>
        ReplayNode(r.cert.branches[k], BuildChild(items, j, items[j].items[k]), depth + 1)
      ensures r.BranchSatisfiable? ==> Satisfiable(conj)
      ensures r.DepthExceeded? ==> depth + SplitDepthAll(items) > MAX_DEPTH
      ensures r.LeafTooWide? ==> LeafWidthAll(items) > budget.maxAtoms
      ensures r.BranchesExceeded? ==> branches > budget.maxBranches
      ensures r.FillInExceeded? ==> FillIn(items) > fillCap
      ensures old(branches) <= branches <= old(branches) + Visits(items)
      ensures r.Found? ==> Affordable(r.cert, budget, old(branches), branches)
      ensures !r.Found? ==> Stops(r, conj, depth, old(branches), branches, budget, fillCap)
      ensures old(branches) <= budget.maxBranches ==> (r.BranchesExceeded? <==> branches > budget.maxBranches)
      decreases MAX_DEPTH + 1 - depth, 0
    {
      hide Product, ReplayNode, Satisfiable, AnyFalse, SpineAll, AllNormal, SplitDepthAll, LeafWidthAll, PathsAll, Visits,
        BuildChild, AllMentions, FillIn, Stops, Spent, SpentAll, LeavesWithin;
      var ds := items[j].items;
      var nodes: seq<CertNode> := [];
      ghost var d, o := SplitDepthAll(items), OtherPaths(items, j);
      SplitCosts(nodes, budget.maxAtoms);
      SplitVisits(items, j);
      SumPrefix(ds, 0);
      ProductLaws(o, 0, 0);
      ProductLaws(d, 0, 0);
      for i := 0 to |ds|
        invariant |nodes| == i
        invariant forall k :: 0 <= k < i ==> ReplayNode(nodes[k], BuildChild(items, j, ds[k]), depth + 1)
        invariant old(branches) <= branches <= old(branches) + Product(d, Product(o, PathsSum(ds[..i])))
        invariant branches == old(branches) + i + SpentAll(nodes) && (i > 0 ==> branches <= budget.maxBranches)
        invariant forall node :: node in nodes ==> LeavesWithin(node, budget.maxAtoms)
      {
        ChildNormal(items, j, ds[i]);
        ChildMeasures(items, j, ds[i]);
        ChildMentions(items, j, ds[i]);
        FillInMonotone(BuildChild(items, j, ds[i]), items);
        ChildVisits(items, j, ds[i]);
        SumPrefix(ds, i);
        ProductLaws(o, PathsSum(ds[..i]), Paths(ds[i]));
        ProductLaws(d, Product(o, PathsSum(ds[..i])), Product(o, Paths(ds[i])));
        PrefixVisits(items, j, i + 1);
        branches := branches + 1;
        if branches > budget.maxBranches {
          StopsHere(BranchesExceeded, BuildChild(items, j, ds[i]), depth + 1, branches, budget, fillCap);
          StopsBelow(BranchesExceeded, conj, j, depth, nodes, old(branches), branches, budget, fillCap);
          return BranchesExceeded;
        }
        var sub := Refute(BuildChild(items, j, ds[i]), depth + 1);
        if !sub.Found? {
          if sub.BranchSatisfiable? { ChildSatisfiable(conj, j, ds[i]); }
          StopsBelow(sub, conj, j, depth, nodes, old(branches), branches, budget, fillCap);
          return sub;
        }
        SpendOneMore(nodes, sub.cert);
        nodes := nodes + [sub.cert];
      }
      assert ds[..|ds|] == ds;
      SplitCosts(nodes, budget.maxAtoms);
      r := Found(Split(nodes));
    }

    /** A leaf has no disjunction left: decide it by Fourier-Motzkin. */
    method RefuteLeaf(ghost conj: seq<QFormula>, items: seq<QFormula>) returns (r: Outcome)
      requires items == SpineAll(conj) && !AnyFalse(conj) && AllNormal(items) && LeftmostOr(items).None?
      requires LeafWidthAll(items) == LeafWidthAll(conj)
      ensures r.Found? || r.BranchSatisfiable? || r.LeafTooWide? || r.FillInExceeded?
      ensures r.Found? ==> r.cert.Farkas? && FarkasRefutes(CollectConstraints(items), r.cert.multipliers)
      ensures r.Found? ==> |r.cert.multipliers| <= budget.maxAtoms
      ensures !r.Found? ==> forall depth: nat, branches: nat | depth <= MAX_DEPTH :: StopsAt(r, conj, depth, branches, budget, fillCap)
      ensures r.BranchSatisfiable? ==> Satisfiable(conj)
      ensures r.LeafTooWide? ==> LeafWidthAll(conj) > budget.maxAtoms
      ensures r.FillInExceeded? ==> FillIn(items) > fillCap
    {
      SaturatedLeaf(conj);
      LeafMentions(items);
      LeafFillIn(items);
      LeafMeaning(items, _ => 0.0);
      LeafCount(items);
      var cons := CollectConstraints(items);
      if |cons| > budget.maxAtoms { return LeafTooWide; }
      forall c | c in cons { LeafNormal(items, c); }
      var leaf := FourierMotzkin.SolveLeaf(cons, fillCap);
      match leaf {
        case Refuted(lam) =>
          r := Found(Farkas(lam));
        case Fits =>
          ghost var v: Valuation :| MeetsAll(cons, v);
          LeafMeaning(items, v);
          SaturateMeaning(conj, v);
          r := BranchSatisfiable;
        case TooBig =>
          r := FillInExceeded;
      }
    }
  }

  lemma LeafFillIn(items: seq<QFormula>)
    requires LeafItems(items)
    ensures var cons := CollectConstraints(items);
      FourierMotzkin.Growth(|cons|, |FourierMotzkin.ConstraintVars(cons)|) <= FillIn(items)
  {
    hide AllMentions, FourierMotzkin.ConstraintVars, FourierMotzkin.Growth, LeafWidthAll;
    var cons := CollectConstraints(items);
    LeafMeaning(items, _ => 0.0);
    LeafCount(items);
    LeafMentions(items);
    FourierMotzkin.SubsetSize(FourierMotzkin.ConstraintVars(cons), AllMentions(items));
    FourierMotzkin.GrowthMonotone(|cons|, |FourierMotzkin.ConstraintVars(cons)|, LeafWidthAll(items), |AllMentions(items)|);
  }

  lemma ChildSatisfiable(conj: seq<QFormula>, j: nat, d: QFormula)
    requires !AnyFalse(conj)
    requires j < |SpineAll(conj)| && SpineAll(conj)[j].QOr? && d in SpineAll(conj)[j].items
    requires Satisfiable(BuildChild(SpineAll(conj), j, d))
    ensures Satisfiable(conj)
  {
    var v: Valuation :| HoldsAll(BuildChild(SpineAll(conj), j, d), v);
    SplitMeaning(SpineAll(conj), j, v);
    SaturateMeaning(conj, v);
  }

  lemma SumPrefix(ds: seq<QFormula>, i: nat)
    ensures PathsSum(ds[..0]) == 0
    ensures i < |ds| ==> PathsSum(ds[..i + 1]) == PathsSum(ds[..i]) + Paths(ds[i])
  {
    if i < |ds| {
      assert ds[..i + 1] == ds[..i] + [ds[i]];
      SumConcat(ds[..i], [ds[i]]);
      SinglePaths(ds[i]);
    }
  }

  lemma PrefixVisits(items: seq<QFormula>, j: nat, i: nat)
    requires j < |items| && items[j].QOr? && i <= |items[j].items|
    ensures Product(SplitDepthAll(items), Product(OtherPaths(items, j), PathsSum(items[j].items[..i]))) <= Visits(items)
  {
    hide Product;
    var ds := items[j].items;
    assert ds == ds[..i] + ds[i..];
    SumConcat(ds[..i], ds[i..]);
    var o := OtherPaths(items, j);
    ProductMonotone(o, PathsSum(ds[..i]), o, PathsSum(ds));
    ProductMonotone(SplitDepthAll(items), Product(o, PathsSum(ds[..i])), SplitDepthAll(items), Product(o, PathsSum(ds)));
    SplitVisits(items, j);
  }

  // ----- the entry point -----

  datatype CertifyResult = Certified(cert: CertNode) | Uncertified(why: Outcome) | SelfReplayFailed

  /** The conjunction fits the budget, whatever the search will meet. */
  predicate WithinBudget(formulas: seq<QFormula>, budget: Budget) {
    SplitDepthAll(formulas) <= MAX_DEPTH && LeafWidthAll(formulas) <= budget.maxAtoms && Visits(formulas) <= budget.maxBranches
  }

  function FillCap(budget: Budget): nat { SaturatingAdd(SaturatingMul(budget.maxAtoms, budget.maxAtoms), 64) }

  /** The search from the start stops there, after some number of branches. */
  ghost predicate GivesUp(why: Outcome, formulas: seq<QFormula>, budget: Budget) {
    exists branches: nat :: Stops(why, formulas, 0, 0, branches, budget, FillCap(budget))
  }

  lemma GivesUpAfter(why: Outcome, formulas: seq<QFormula>, budget: Budget, branches: nat)
    requires Stops(why, formulas, 0, 0, branches, budget, FillCap(budget))
    ensures GivesUp(why, formulas, budget)
  {
    hide Stops, FillCap;
  }

  /** Certify that a conjunction has no model. A certificate always replays, so
      the self-replay check never fails; and within the budget the answer is
      exact unless Fourier-Motzkin fills in, which it does only on conjunctions
      whose leaves can. */
  method CertifyUnsat(formulas: seq<QFormula>, budget: Budget) returns (r: CertifyResult)
    requires AllNormal(formulas)
    ensures r.Certified? ==> Replay(r.cert, formulas) && !Satisfiable(formulas)
    ensures r.Certified? ==> Spent(r.cert) <= budget.maxBranches && LeavesWithin(r.cert, budget.maxAtoms)
    ensures !r.SelfReplayFailed?
    ensures r.Uncertified? ==> GivesUp(r.why, formulas, budget)
    ensures r.Uncertified? && r.why.BranchSatisfiable? ==> Satisfiable(formulas)
    ensures r.Uncertified? && r.why.FillInExceeded? ==> FillIn(formulas) > FillCap(budget)
    ensures WithinBudget(formulas, budget) && !(r.Uncertified? && r.why.FillInExceeded?) ==>
      (r.Certified? <==> !Satisfiable(formulas))
  {
    hide Stops, GivesUp, Spent, LeavesWithin, ReplayNode, SplitDepthAll, LeafWidthAll, Visits, FillIn, AllNormal, Satisfiable,
      SaturatingAdd, SaturatingMul;
    var searcher := new Searcher(budget);
    var found := searcher.Refute(formulas, 0);
    match found {
      case Found(cert) =>
        ReplaySound(cert, formulas, 0);
        r := if Replay(cert, formulas) then Certified(cert) else SelfReplayFailed;
      case _ =>
        GivesUpAfter(found, formulas, budget, searcher.branches);
        r := Uncertified(found);
    }
  }
}
