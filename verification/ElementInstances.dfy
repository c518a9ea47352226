/** Filter predicates instantiated at one element of a collection: the instance
    says of the element's quantities what the predicate says of the element. */
module ElementInstances {
  import opened Linear
  import opened Formulas
  import opened Saturation
  import opened Conditions
  import opened LinearForms
  import opened ElementPredicates

  type Renaming = QuantityId -> QuantityId

  function RenameExpr(e: Expr, f: Renaming): Expr {
    match e
    case Num(r) => Num(r)
    case Quant(q) => Quant(f(q))
    case Neg(a) => Neg(RenameExpr(a, f))
    case Abs(a) => Abs(RenameExpr(a, f))
    case Bin(op, l, r) => Bin(op, RenameExpr(l, f), RenameExpr(r, f))
    case Extremum(least, args) => Extremum(least, seq(|args|, i requires 0 <= i < |args| => RenameExpr(args[i], f)))
  }

  function RenameAll(args: seq<Expr>, f: Renaming): seq<Expr> {
    seq(|args|, i requires 0 <= i < |args| => RenameExpr(args[i], f))
  }

  function Rename(p: Pred, f: Renaming): Pred {
    match p
    case PBool(b) => PBool(b)
    case PAnd(items) => PAnd(seq(|items|, i requires 0 <= i < |items| => Rename(items[i], f)))
    case POr(items) => POr(seq(|items|, i requires 0 <= i < |items| => Rename(items[i], f)))
    case PNot(q) => PNot(Rename(q, f))
    case PCmp(rel, l, r) => PCmp(rel, RenameExpr(l, f), RenameExpr(r, f))
    case PBand(inside, e, lo, hi) => PBand(inside, RenameExpr(e, f), lo, hi)
    case Foreign(id) => Foreign(id)
  }

  // ----- values -----

  /** One reader reads the renamed quantities as the other reads the originals. */
  ghost predicate ReadsAs(r: Reader, f: Renaming, read: Reader, qs: set<QuantityId>) { forall q | q in qs :: r(f(q)) == read(q) }

  lemma {:induction false} RenamedValue(e: Expr, f: Renaming, r: Reader, read: Reader)
    requires ReadsAs(r, f, read, Quants(e))
    ensures Eval(r, RenameExpr(e, f)) == Eval(read, e)
    decreases e, 1
  {
    match e
    case Num(_) =>
    case Quant(q) =>
    case Neg(a) => RenamedValue(a, f, r, read);
    case Abs(a) => RenamedValue(a, f, r, read);
    case Bin(_, x, y) => RenamedValue(x, f, r, read); RenamedValue(y, f, r, read);
    case Extremum(least, args) => if args != [] { RenamedExtremum(least, args, f, r, read); }
  }

  lemma {:induction false} RenamedExtremum(least: bool, args: seq<Expr>, f: Renaming, r: Reader, read: Reader)
    requires args != [] && forall a | a in args :: ReadsAs(r, f, read, Quants(a))
    ensures EvalExtremum(r, least, RenameAll(args, f)) == EvalExtremum(read, least, args)
    decreases args, 0
  {
    var n := |args| - 1;
    RenamedValue(args[n], f, r, read);
    if n > 0 {
      RenamedExtremum(least, args[..n], f, r, read);
      assert RenameAll(args, f)[..n] == RenameAll(args[..n], f);
    }
  }

  // ----- truth -----

  lemma {:induction false} RenamedTruth(p: Pred, f: Renaming, r: Reader, read: Reader, foreign: Foreigns)
    requires ReadsAs(r, f, read, PQuants(p))
    ensures PTruth(r, foreign, Rename(p, f)) == PTruth(read, foreign, p)
    decreases p, 1
  {
    hide Eval;
    match p
    case PBool(_) =>
    case PAnd(items) => RenamedItems(items, f, r, read, foreign, F); RenamedItems(items, f, r, read, foreign, U);
    case POr(items) => RenamedItems(items, f, r, read, foreign, T); RenamedItems(items, f, r, read, foreign, U);
    case PNot(q) => RenamedTruth(q, f, r, read, foreign);
    case PCmp(_, x, y) => RenamedValue(x, f, r, read); RenamedValue(y, f, r, read);
    case PBand(_, e, _, _) => RenamedValue(e, f, r, read);
    case Foreign(_) =>
  }

  function RenamePreds(items: seq<Pred>, f: Renaming): seq<Pred> {
    seq(|items|, i requires 0 <= i < |items| => Rename(items[i], f))
  }

  lemma {:induction false} RenamedItems(items: seq<Pred>, f: Renaming, r: Reader, read: Reader, foreign: Foreigns, t: Tri)
    requires forall x | x in items :: ReadsAs(r, f, read, PQuants(x))
    ensures (exists x | x in RenamePreds(items, f) :: PTruth(r, foreign, x) == t)
      <==> (exists x | x in items :: PTruth(read, foreign, x) == t)
    decreases items, 0
  {
    hide PTruth, PQuants;
    var renamed := RenamePreds(items, f);
    forall i | 0 <= i < |items| ensures PTruth(r, foreign, renamed[i]) == PTruth(read, foreign, items[i]) {
      RenamedTruth(items[i], f, r, read, foreign);
    }
    if x :| x in renamed && PTruth(r, foreign, x) == t {
      var i :| 0 <= i < |renamed| && renamed[i] == x;
      assert items[i] in items;
    }
    if x :| x in items && PTruth(read, foreign, x) == t {
      var i :| 0 <= i < |items| && items[i] == x;
      assert renamed[i] in renamed;
    }
  }

  // ----- settled operands -----

  /** Renaming keeps whether an expression has a form, whether it is a constant,
      and which. */
  lemma {:induction false} RenamedForm(e: Expr, f: Renaming)
    ensures var a, b := LinPred(RenameExpr(e, f)), LinPred(e);
      && (a.Some? <==> b.Some?)
      && (a.Some? ==> a.value.k == b.value.k && (a.value.terms == [] <==> b.value.terms == []))
  {
    match e
    case Neg(x) =>
      RenamedForm(x, f);
      FormScaled(LinPred(x));
      FormScaled(LinPred(RenameExpr(x, f)));
    case Bin(op, l, r) =>
      RenamedForm(l, f);
      RenamedForm(r, f);
      if LinPred(l).Some? && LinPred(r).Some? {
        var a, b := LinPred(l).value, LinPred(r).value;
        var c, d := LinPred(RenameExpr(l, f)).value, LinPred(RenameExpr(r, f)).value;
        if LinPredBinary(op, a, b).Some? { BinaryTerms(op, a, b); }
        if LinPredBinary(op, c, d).Some? { BinaryTerms(op, c, d); }
      }
    case _ =>
  }

  lemma FormScaled(f: Option<LinExpr>)
    ensures f.Some? ==> (ScaledBy(f.value, -1.0).terms == [] <==> f.value.terms == [])
  {
    if f.Some? { ScaleLength(-1.0, f.value.terms); }
  }

  lemma {:induction false} RenamedSettled(p: Pred, f: Renaming, r: Reader, read: Reader)
    requires ReadsAs(r, f, read, PQuants(p)) && Settled(read, p)
    ensures Settled(r, Rename(p, f))
  {
    hide Eval, LinPred;
    match p
    case PAnd(items) => forall x | x in items { RenamedSettled(x, f, r, read); }
    case POr(items) => forall x | x in items { RenamedSettled(x, f, r, read); }
    case PNot(q) => RenamedSettled(q, f, r, read);
    case PCmp(rel, x, y) =>
      RenamedForm(x, f);
      RenamedForm(y, f);
      RenamedValue(x, f, r, read);
      RenamedValue(y, f, r, read);
      if x.Abs? { RenamedValue(x.e, f, r, read); }
      if y.Abs? { RenamedValue(y.e, f, r, read); }
    case _ =>
  }

  /** A reader that finds every quantity, at its value. */
  function Everywhere(v: Valuation): Reader { (q: QuantityId) => Val(v(q)) }

  /** The instance's axiom is true of an element that passes the filter and has
      what it mentions, under any valuation that reads the element. */
  lemma InstanceHolds(p: Pred, f: Renaming, read: Reader, foreign: Foreigns, v: Valuation)
    requires PTruth(read, foreign, p) == T && Settled(read, p) && ReadsAs(Everywhere(v), f, read, PQuants(p))
    requires EncodeElemPred(Rename(p, f)).Some?
    ensures Holds(EncodeElemPred(Rename(p, f)).value, v)
  {
    hide PTruth, Settled, PQuants, EncodeElemPred;
    var all := Everywhere(v);
    RenamedTruth(p, f, all, read, foreign);
    RenamedSettled(p, f, all, read);
    ElementAxiomHolds(Rename(p, f), all, foreign, v);
  }
}
