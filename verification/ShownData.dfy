/** Which data a compiled comparison's atoms show, and which its falsity forces. */
module ShownData {
  import opened Linear
  import opened Formulas
  import opened Saturation
  import opened Conditions
  import opened Negation
  import opened PartialTruth
  import opened LinearForms
  import opened Comparisons
  import opened ComparisonTruth

  // ----- the quantities that a form names -----

  function Named(ts: seq<Term>): set<QuantityId> { set t | t in ts :: t.q }

  lemma {:induction false} NamedAdd(m: seq<Term>, q: QuantityId, c: real)
    ensures Named(AddTerm(m, q, c)) == Named(m) + {q}
  {
    if m != [] {
      NamedCons(m[0], m[1..]);
      assert m == [m[0]] + m[1..];
      if m[0].q < q {
        NamedAdd(m[1..], q, c);
        NamedCons(m[0], AddTerm(m[1..], q, c));
      } else if m[0].q == q {
        NamedCons(Term(m[0].coeff + c, q), m[1..]);
      } else {
        NamedCons(Term(c, q), m);
      }
    } else {
      NamedCons(Term(c, q), []);
    }
  }

  lemma NamedCons(t: Term, ts: seq<Term>)
    ensures Named([t] + ts) == {t.q} + Named(ts)
  {
    var all := [t] + ts;
    assert all[0] == t;
    assert forall x :: x in all <==> x == t || x in ts;
  }

  lemma {:induction false} NamedMerge(m: seq<Term>, ts: seq<Term>)
    ensures Named(Merge(m, ts)) == Named(m) + Named(ts)
    decreases |ts|
  {
    if ts != [] {
      var init, e := ts[..|ts| - 1], ts[|ts| - 1];
      NamedMerge(m, init);
      NamedAdd(Merge(m, init), e.q, e.coeff);
      assert forall x :: x in ts <==> x in init || x == e;
    }
  }

  lemma {:induction false} NamedScale(c: real, ts: seq<Term>)
    ensures Named(Scale(c, ts)) == Named(ts)
  {
    if ts != [] {
      NamedScale(c, ts[1..]);
      NamedCons(ts[0], ts[1..]);
      NamedCons(Term(c * ts[0].coeff, ts[0].q), Scale(c, ts[1..]));
      assert ts == [ts[0]] + ts[1..];
    }
  }

  /** A form whose terms and whose record both name these quantities. */
  ghost predicate Names(f: LinExpr, qs: set<QuantityId>) { f.mentioned == qs && Named(f.terms) == qs }

  lemma PlusNames(a: LinExpr, b: LinExpr, c: real)
    ensures Named(ScaledBy(a, c).terms) == Named(a.terms)
    ensures Named(Plus(a, b).terms) == Named(a.terms) + Named(b.terms)
    ensures Named(Minus(a, ScaledBy(b, c)).terms) == Named(a.terms) + Named(b.terms)
    ensures Named(Minus(a, b).terms) == Named(a.terms) + Named(b.terms)
  {
    NamedScale(c, a.terms);
    NamedScale(c, b.terms);
    NamedScale(-1.0, b.terms);
    NamedScale(-1.0, ScaledBy(b, c).terms);
    NamedMerge(a.terms, b.terms);
    NamedMerge(a.terms, Scale(-1.0, b.terms));
    NamedMerge(a.terms, Scale(-1.0, ScaledBy(b, c).terms));
  }

  /** A linear form names exactly the quantities of its expression: cancelling and
      multiplying by zero erase none. */
  lemma {:induction false} FormNames(e: Expr)
    requires Lin(e).Form?
    ensures Names(Lin(e).form, Quants(e))
  {
    if IsConstTree(e) {
      ConstReadsNothing(e);
    } else {
      match e
      case Quant(q) => NamedCons(Term(1.0, q), []);
      case Neg(a) =>
        FormNames(a);
        NamedScale(-1.0, Lin(a).form.terms);
      case Bin(op, l, r) =>
        FormNames(l);
        FormNames(r);
        var a, b := Lin(l).form, Lin(r).form;
        PlusNames(a, b, 1.0);
        NamedScale(a.k, b.terms);
        NamedScale(b.k, a.terms);
        if op == Div { NamedScale(1.0 / b.k, a.terms); }
    }
  }

  lemma {:induction false} ConstReadsNothing(e: Expr)
    requires IsConstTree(e)
    ensures Quants(e) == {}
  {
    match e
    case Neg(a) => ConstReadsNothing(a);
    case Abs(a) => ConstReadsNothing(a);
    case Bin(_, l, r) => ConstReadsNothing(l); ConstReadsNothing(r);
    case Extremum(_, args) => forall a | a in args { ConstReadsNothing(a); }
    case _ =>
  }

  // ----- what an atom shows -----

  /** The quantities whose coefficients do not cancel. */
  function Kept(ts: seq<Term>): set<QuantityId> { set q | q in Named(ts) && Coeff(ts, q) != 0.0 }

  lemma MakeAtomNamed(ts: seq<Term>, rel: Rel, k: real)
    ensures Named(MakeAtom(ts, rel, k).terms) == Kept(ts)
  {
    var n := Normalize(ts);
    NormalizeSound(ts);
    forall q ensures q in Named(n) <==> q in Kept(ts) {
      if q in Named(n) {
        var t :| t in n && t.q == q;
        var i :| 0 <= i < |n| && n[i] == t;
        CoeffOfEntry(n, i);
      } else {
        CoeffAbsent(n, q);
      }
      if q !in Named(ts) { CoeffAbsent(ts, q); }
    }
  }

  function Hards(table: Table, qs: set<QuantityId>): set<QuantityId> { set q | q in qs && table.absence(q) == Hard }

  lemma AtomShows(table: Table, ts: seq<Term>, rel: Rel, k: real)
    ensures var f := Atom(MakeAtom(ts, rel, k));
      && HardQuantities(table, f) == Hards(table, Kept(ts))
      && HardForced(table, f) == if HasSoft(table, Kept(ts)) then {} else Hards(table, Kept(ts))
  {
    hide MakeAtom;
    MakeAtomNamed(ts, rel, k);
    var terms := MakeAtom(ts, rel, k).terms;
    forall q ensures q in Kept(ts) <==> exists t :: t in terms && t.q == q { assert q in Named(terms) <==> q in Kept(ts); }
    if HasSoft(table, Kept(ts)) {
      var q :| q in Kept(ts) && table.absence(q) == Soft;
      assert exists t :: t in terms && t.q == q;
    }
  }

  lemma AtomIsClause(table: Table, ts: seq<Term>, rel: Rel, k: real)
    requires forall q | q in Named(ts) :: table.innerOf(q) == None
    ensures Clause(table, Atom(MakeAtom(ts, rel, k)))
  {
    hide MakeAtom;
    MakeAtomNamed(ts, rel, k);
    var terms := MakeAtom(ts, rel, k).terms;
    if |terms| == 1 {
      assert terms[0] in terms;
      assert terms[0].q in Named(terms);
    }
  }

  lemma NothingForced(table: Table)
    ensures HardForced(table, True) == {} && HardForced(table, False) == {}
  {
  }

  /** An atom folds to a constant only when it names nothing, or only sizes. */
  lemma AtomOfShape(env: Env, ts: seq<Term>, rel: Rel, k: real)
    requires SizesValid(env) && forall q | q in Named(ts) :: env.table.innerOf(q) == None
    ensures var f := AtomOf(env.sizes, ts, rel, k);
      && Shaped(env.table, f)
      && (IsConst(f) ==> NeverAbsent(env.table, Named(ts)) && forall q | q in Named(ts) :: env.floors(q) == [])
      && HardQuantities(env.table, f) == Hards(env.table, Kept(ts))
      && HardForced(env.table, f) == if HasSoft(env.table, Kept(ts)) then {} else Hards(env.table, Kept(ts))
  {
    hide MakeAtom, Clause, HardQuantities, HardForced, Coeff;
    NothingHard(env.table);
    NothingForced(env.table);
    if ts != [] {
      AtomIsClause(env.table, ts, rel, k);
      AtomShows(env.table, ts, rel, k);
      if IntegerValued(env.sizes, ts) {
        forall q | q in Named(ts) ensures env.sizes(q) {
          var t :| t in ts && t.q == q;
          assert env.sizes(t.q);
        }
        AtomIsClause(env.table, ts, Le, k.Floor as real);
        AtomIsClause(env.table, ts, Ge, Ceiling(k));
        AtomShows(env.table, ts, Le, k.Floor as real);
        AtomShows(env.table, ts, Ge, Ceiling(k));
      }
    }
  }
}
