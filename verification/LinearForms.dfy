/** Arithmetic over a partial event, and its compilation to linear forms. */
module LinearForms {
  import opened Linear
  import opened Conditions

  datatype ArithOp = Add | Sub | Mul | Div

  /** Exact-valued numeric expressions without powers. */
  datatype Expr =
    | Num(value: real)
    | Quant(q: QuantityId)
    | Neg(e: Expr)
    | Abs(e: Expr)
    | Bin(op: ArithOp, l: Expr, r: Expr)
    | Extremum(least: bool, args: seq<Expr>)

  /** A number, a soft non-value, or a blocking error. */
  datatype Num3 = Val(x: real) | NonValue | Blocked

  function AbsOf(x: real): real { if x < 0.0 then -x else x }

  function Arith(op: ArithOp, x: real, y: real): Num3 {
    match op
    case Add => Val(x + y)
    case Sub => Val(x - y)
    case Mul => Val(Times(x, y))
    case Div => if y == 0.0 then NonValue else Val(x / y)
  }

  /** What the interpreter makes of an expression, given what it makes of the
      quantities. A soft non-value absorbs; min and max stop at the first
      argument without a value. */
  function Eval(read: QuantityId -> Num3, e: Expr): Num3
    decreases e, 1
  {
    match e
    case Num(r) => Val(r)
    case Quant(q) => read(q)
    case Neg(a) => (match Eval(read, a) case Val(x) => Val(-x) case n => n)
    case Abs(a) => (match Eval(read, a) case Val(x) => Val(AbsOf(x)) case n => n)
    case Bin(op, l, r) =>
      var a, b := Eval(read, l), Eval(read, r);
      if a.NonValue? || b.NonValue? then NonValue
      else if a.Blocked? || b.Blocked? then Blocked
      else Arith(op, a.x, b.x)
    case Extremum(least, args) => if args == [] then NonValue else EvalExtremum(read, least, args)
  }

  function EvalExtremum(read: QuantityId -> Num3, least: bool, args: seq<Expr>): Num3
    requires args != []
    decreases args, 0
  {
    var n := |args| - 1;
    if n == 0 then Eval(read, args[0])
    else
      match EvalExtremum(read, least, args[..n])
      case Val(x) => (match Eval(read, args[n]) case Val(y) => Val(Better(least, x, y)) case other => other)
      case other => other
  }

  function Better(least: bool, x: real, y: real): real { if (x <= y) == least then x else y }

  /** Reading a quantity of an event. */
  function Reading(table: Table, ev: Event): QuantityId -> Num3 {
    (q: QuantityId) => if ev.has(q) then Val(ev.value(q)) else if table.absence(q) == Soft then NonValue else Blocked
  }

  function Quants(e: Expr): set<QuantityId> {
    match e
    case Num(_) => {}
    case Quant(q) => {q}
    case Neg(a) => Quants(a)
    case Abs(a) => Quants(a)
    case Bin(_, l, r) => Quants(l) + Quants(r)
    case Extremum(_, args) => set a, q | a in args && q in Quants(a) :: q
  }

  predicate IsConstTree(e: Expr) {
    match e
    case Num(_) => true
    case Quant(_) => false
    case Neg(a) => IsConstTree(a)
    case Abs(a) => IsConstTree(a)
    case Bin(_, l, r) => IsConstTree(l) && IsConstTree(r)
    case Extremum(_, args) => forall a | a in args :: IsConstTree(a)
  }

  /** A constant tree's value: no quantity is ever read. */
  function ConstValue(e: Expr): Num3 { Eval(_ => Blocked, e) }

  lemma {:induction false} ConstEval(read: QuantityId -> Num3, e: Expr)
    requires IsConstTree(e)
    ensures Eval(read, e) == ConstValue(e)
    decreases e, 1
  {
    match e
    case Num(_) =>
    case Neg(a) => ConstEval(read, a);
    case Abs(a) => ConstEval(read, a);
    case Bin(_, l, r) => ConstEval(read, l); ConstEval(read, r);
    case Extremum(least, args) => if args != [] { ConstExtremum(read, least, args); }
  }

  lemma {:induction false} ConstExtremum(read: QuantityId -> Num3, least: bool, args: seq<Expr>)
    requires args != [] && forall a | a in args :: IsConstTree(a)
    ensures EvalExtremum(read, least, args) == EvalExtremum(_ => Blocked, least, args)
    decreases args, 0
  {
    var n := |args| - 1;
    ConstEval(read, args[n]);
    if n > 0 { ConstExtremum(read, least, args[..n]); }
  }

  // ----- linear forms -----

  /** A sparse linear form that keeps zero coefficients, so its terms name every
      quantity that was mentioned. */
  datatype LinExpr = LinExpr(terms: seq<Term>, k: real, mentioned: set<QuantityId>)

  datatype LinResult = Form(form: LinExpr) | NonLinear | NonFinite

  function ConstForm(r: real): LinExpr { LinExpr([], r, {}) }

  function Plus(a: LinExpr, b: LinExpr): LinExpr {
    LinExpr(Merge(a.terms, b.terms), a.k + b.k, a.mentioned + b.mentioned)
  }

  function ScaledBy(a: LinExpr, c: real): LinExpr { LinExpr(Scale(c, a.terms), Times(c, a.k), a.mentioned) }

  function Minus(a: LinExpr, b: LinExpr): LinExpr { Plus(a, ScaledBy(b, -1.0)) }

  function Lin(e: Expr): LinResult {
    if IsConstTree(e) then
      match ConstValue(e)
      case Val(r) => Form(ConstForm(r))
      case _ => NonFinite
    else
      match e
      case Num(r) => Form(ConstForm(r))
      case Quant(q) => Form(LinExpr([Term(1.0, q)], 0.0, {q}))
      case Neg(a) => (match Lin(a) case Form(f) => Form(ScaledBy(f, -1.0)) case other => other)
      case Abs(_) => NonLinear
      case Extremum(_, _) => NonLinear
      case Bin(op, l, r) =>
        if op == Div then
          match Lin(r)
          case Form(d) =>
            if d.terms != [] then NonLinear
            else if d.k == 0.0 then NonFinite
            else (match Lin(l) case Form(n) => Form(ScaledBy(n, 1.0 / d.k)) case other => other)
          case other => other
        else
          match Lin(l)
          case Form(a) =>
            (match Lin(r)
             case Form(b) => LinBinary(op, a, b)
             case other => other)
          case other => other
  }

  function LinBinary(op: ArithOp, a: LinExpr, b: LinExpr): LinResult
    requires op != Div
  {
    match op
    case Add => Form(Plus(a, b))
    case Sub => Form(Minus(a, b))
    case Mul =>
      if a.terms == [] then Form(ScaledBy(b, a.k))
      else if b.terms == [] then Form(ScaledBy(a, b.k))
      else NonLinear
  }

  function FormValue(f: LinExpr, v: Valuation): real { Dot(f.terms, v) + f.k }

  // ----- the forms mean what they should -----

  lemma DotMerge(m: seq<Term>, ts: seq<Term>, v: Valuation)
    ensures Dot(Merge(m, ts), v) == Dot(m, v) + Dot(ts, v)
  {
    forall q ensures Coeff(Merge(m, ts), q) == Coeff(m + ts, q) {
      MergeCoeff(m, ts, q);
      CoeffConcat(m, ts, q);
    }
    SameCoeffsSameDot(Merge(m, ts), m + ts, v);
    DotConcat(m, ts, v);
  }

  lemma PlusValue(a: LinExpr, b: LinExpr, v: Valuation)
    ensures FormValue(Plus(a, b), v) == FormValue(a, v) + FormValue(b, v)
  {
    DotMerge(a.terms, b.terms, v);
  }

  lemma ScaledValue(a: LinExpr, c: real, v: Valuation)
    ensures FormValue(ScaledBy(a, c), v) == Times(c, FormValue(a, v))
  {
    DotScale(c, a.terms, v);
  }

  lemma MinusValue(a: LinExpr, b: LinExpr, v: Valuation)
    ensures FormValue(Minus(a, b), v) == FormValue(a, v) - FormValue(b, v)
  {
    ScaledValue(b, -1.0, v);
    PlusValue(a, ScaledBy(b, -1.0), v);
  }

  /** No terms means nothing mentioned, and conversely. */
  ghost predicate Closed(f: LinExpr) { f.terms == [] <==> f.mentioned == {} }

  lemma MergeNonEmpty(m: seq<Term>, ts: seq<Term>)
    ensures Merge(m, ts) == [] <==> m == [] && ts == []
    decreases |ts|
  {
    if ts != [] { MergeNonEmpty(m, ts[..|ts| - 1]); }
  }

  lemma LinBinaryClosed(op: ArithOp, a: LinExpr, b: LinExpr)
    requires op != Div && Closed(a) && Closed(b) && LinBinary(op, a, b).Form?
    ensures Closed(LinBinary(op, a, b).form)
  {
    ScaleLength(-1.0, b.terms);
    ScaleLength(a.k, b.terms);
    ScaleLength(b.k, a.terms);
    MergeNonEmpty(a.terms, b.terms);
    MergeNonEmpty(a.terms, Scale(-1.0, b.terms));
  }

  lemma {:induction false} LinClosed(e: Expr)
    requires Lin(e).Form?
    ensures Closed(Lin(e).form)
  {
    if !IsConstTree(e) {
      match e
      case Quant(_) =>
      case Neg(a) =>
        LinClosed(a);
        ScaleLength(-1.0, Lin(a).form.terms);
      case Bin(op, l, r) =>
        LinClosed(l);
        LinClosed(r);
        if op == Div { ScaleLength(1.0 / Lin(r).form.k, Lin(l).form.terms); }
        else { LinBinaryClosed(op, Lin(l).form, Lin(r).form); }
    }
  }

  /** A constant that is zero, or has no value at all. */
  predicate Vanishes(e: Expr) { IsConstTree(e) && ConstValue(e) == Val(0.0) }

  /** Linear in its quantities: constants that have a value, products with a
      constant side, quotients by a constant other than zero. */
  predicate Straight(e: Expr) {
    if IsConstTree(e) then ConstValue(e).Val?
    else
      match e
      case Quant(_) => true
      case Neg(a) => Straight(a)
      case Bin(op, l, r) =>
        && Straight(l) && Straight(r)
        && (op == Mul ==> IsConstTree(l) || IsConstTree(r))
        && (op == Div ==> IsConstTree(r) && !Vanishes(r))
      case _ => false
  }

  /** Without a value whatever is read: some constant has none, or divides by zero,
      before anything that is not linear is met; a divisor is met first. */
  predicate Infinite(e: Expr) {
    if IsConstTree(e) then !ConstValue(e).Val?
    else
      match e
      case Neg(a) => Infinite(a)
      case Bin(op, l, r) =>
        if op == Div then Infinite(r) || Vanishes(r) || (Straight(r) && IsConstTree(r) && Infinite(l))
        else Infinite(l) || (Straight(l) && Infinite(r))
      case _ => false
  }

  /** An expression has a form just when it is linear, and the form has no terms
      just when nothing is read; it is dismissed just when it has no value. */
  lemma {:induction false} LinExactly(e: Expr)
    ensures Lin(e).Form? <==> Straight(e)
    ensures Lin(e).NonFinite? <==> Infinite(e)
    ensures Lin(e).Form? ==> (Lin(e).form.terms == [] <==> IsConstTree(e))
    ensures Lin(e).Form? && IsConstTree(e) ==> ConstValue(e) == Val(Lin(e).form.k)
  {
    if !IsConstTree(e) {
      match e
      case Neg(a) =>
        LinExactly(a);
        if Lin(a).Form? { ScaleLength(-1.0, Lin(a).form.terms); }
      case Bin(op, l, r) =>
        LinExactly(l);
        LinExactly(r);
        if Lin(l).Form? && Lin(r).Form? { FormTerms(op, Lin(l).form, Lin(r).form); }
      case _ =>
    }
  }

  lemma FormTerms(op: ArithOp, a: LinExpr, b: LinExpr)
    ensures op != Div && LinBinary(op, a, b).Form? ==>
      (LinBinary(op, a, b).form.terms == [] <==> a.terms == [] && b.terms == [])
    ensures b.k != 0.0 ==> (ScaledBy(a, 1.0 / b.k).terms == [] <==> a.terms == [])
  {
    ScaleLength(-1.0, b.terms);
    ScaleLength(a.k, b.terms);
    ScaleLength(b.k, a.terms);
    if b.k != 0.0 { ScaleLength(1.0 / b.k, a.terms); }
    MergeNonEmpty(a.terms, b.terms);
    MergeNonEmpty(a.terms, Scale(-1.0, b.terms));
  }

  ghost predicate Known3(read: QuantityId -> Num3, qs: set<QuantityId>) { forall q | q in qs :: read(q).Val? }

  /** The total valuation agrees with what can be read. */
  ghost predicate Extends(v: Valuation, read: QuantityId -> Num3, qs: set<QuantityId>) {
    forall q | q in qs && read(q).Val? :: v(q) == read(q).x
  }

  /** What the analysis of an expression promises: a form has a value exactly when
      everything it mentions can be read, and a non-finite expression has none. */
  ghost predicate LinMeans(e: Expr, read: QuantityId -> Num3, v: Valuation) {
    match Lin(e)
    case Form(f) =>
      && f.mentioned <= Quants(e)
      && (Eval(read, e).Val? <==> Known3(read, f.mentioned))
      && (Eval(read, e).Val? ==> Eval(read, e).x == FormValue(f, v))
    case NonFinite => !Eval(read, e).Val?
    case NonLinear => true
  }

  lemma ConstMeans(e: Expr, read: QuantityId -> Num3, v: Valuation)
    requires IsConstTree(e)
    ensures LinMeans(e, read, v)
  {
    ConstEval(read, e);
  }

  lemma ClosedValue(f: LinExpr, v: Valuation)
    requires Closed(f) && f.terms == []
    ensures FormValue(f, v) == f.k && f.mentioned == {}
  {
  }

  lemma BinaryMeans(op: ArithOp, l: Expr, r: Expr, read: QuantityId -> Num3, v: Valuation)
    requires op != Div && !IsConstTree(Bin(op, l, r))
    requires LinMeans(l, read, v) && LinMeans(r, read, v)
    requires Lin(l).Form? ==> Closed(Lin(l).form)
    requires Lin(r).Form? ==> Closed(Lin(r).form)
    ensures LinMeans(Bin(op, l, r), read, v)
  {
    hide Dot, FormValue, Merge, Scale, Eval, Quants;
    EvalBin(op, l, r, read);
    if Lin(l).Form? && Lin(r).Form? {
      var a, b := Lin(l).form, Lin(r).form;
      PlusValue(a, b, v);
      MinusValue(a, b, v);
      ScaledValue(b, a.k, v);
      ScaledValue(a, b.k, v);
      if a.terms == [] { ClosedValue(a, v); }
      if b.terms == [] { ClosedValue(b, v); }
      TimesSwap(FormValue(a, v), FormValue(b, v));
    }
  }

  lemma TimesSwap(x: real, y: real)
    ensures Times(x, y) == Times(y, x)
  {
  }

  lemma EvalBin(op: ArithOp, l: Expr, r: Expr, read: QuantityId -> Num3)
    ensures Quants(Bin(op, l, r)) == Quants(l) + Quants(r)
    ensures var a, b := Eval(read, l), Eval(read, r);
      && (a.Val? && b.Val? ==> Eval(read, Bin(op, l, r)) == Arith(op, a.x, b.x))
      && (!a.Val? || !b.Val? ==> !Eval(read, Bin(op, l, r)).Val?)
  {
  }

  lemma QuotientMeans(l: Expr, r: Expr, read: QuantityId -> Num3, v: Valuation)
    requires !IsConstTree(Bin(Div, l, r))
    requires LinMeans(l, read, v) && LinMeans(r, read, v)
    requires Lin(r).Form? ==> Closed(Lin(r).form)
    ensures LinMeans(Bin(Div, l, r), read, v)
  {
    hide Dot, FormValue, Merge, Scale, Eval, Quants;
    EvalBin(Div, l, r, read);
    if Lin(r).Form? && Lin(r).form.terms == [] {
      var d := Lin(r).form;
      ClosedValue(d, v);
      if Lin(l).Form? && d.k != 0.0 {
        ScaledValue(Lin(l).form, 1.0 / d.k, v);
        QuotientIsProduct(FormValue(Lin(l).form, v), d.k);
      }
    }
  }

  lemma QuotientIsProduct(x: real, d: real)
    requires d != 0.0
    ensures Times(1.0 / d, x) == x / d
  {
  }

  /** Linear analysis is sound on every partial event. */
  lemma {:induction false} LinSound(e: Expr, read: QuantityId -> Num3, v: Valuation)
    requires Extends(v, read, Quants(e))
    ensures LinMeans(e, read, v)
  {
    hide Dot, FormValue, Merge, Scale;
    if IsConstTree(e) {
      ConstMeans(e, read, v);
    } else {
      match e
      case Quant(q) => SingleFormValue(q, v);
      case Neg(a) =>
        LinSound(a, read, v);
        if Lin(a).Form? { ScaledValue(Lin(a).form, -1.0, v); }
      case Abs(_) =>
      case Extremum(_, _) =>
      case Bin(op, l, r) =>
        LinSound(l, read, v);
        LinSound(r, read, v);
        if Lin(l).Form? { LinClosed(l); }
        if Lin(r).Form? { LinClosed(r); }
        if op == Div { QuotientMeans(l, r, read, v); } else { BinaryMeans(op, l, r, read, v); }
    }
  }

  lemma SingleFormValue(q: QuantityId, v: Valuation)
    ensures FormValue(LinExpr([Term(1.0, q)], 0.0, {q}), v) == v(q)
  {
    var ts := [Term(1.0, q)];
    assert ts[1..] == [];
    assert Dot(ts, v) == ts[0].coeff * v(ts[0].q) + Dot(ts[1..], v);
  }
}
