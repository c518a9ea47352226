/** Compilation of comparisons to linear atoms: integer tightening, ratios,
    absolute values, bands, and min/max. */
module Comparisons {
  import opened Linear
  import opened Formulas
  import opened Conditions
  import opened LinearForms

  /** The quantity table as the encoder uses it: which quantities are collection
      sizes, the expressions interned as opaque scalars and their ids, and the
      size guards that each indexed property brings. */
  datatype Env = Env(
    table: Table,
    sizes: QuantityId -> bool,
    interned: set<Expr>,
    opaqueOf: Expr -> QuantityId,
    floors: QuantityId -> seq<Floor>)

  ghost predicate IsGreatest(s: set<nat>, m: nat) { m in s && forall x | x in s :: x <= m }

  lemma {:induction false} GreatestExists(s: set<nat>)
    requires s != {}
    ensures exists m: nat :: IsGreatest(s, m)
    decreases |s|
  {
    var k :| k in s;
    if s == {k} {
      assert IsGreatest(s, k);
    } else {
      var rest := s - {k};
      assert s == rest + {k};
      assert rest != {};
      GreatestExists(rest);
      var m: nat :| IsGreatest(rest, m);
      assert IsGreatest(s, if m < k then k else m);
    }
  }

  function Greatest(s: set<nat>): (m: nat)
    ensures s != {} ==> IsGreatest(s, m)
  {
    if s == {} then 0
    else
      assert exists m: nat :: IsGreatest(s, m) by { GreatestExists(s); }
      var m: nat :| m in s && forall x | x in s :: x <= m;
      m
  }

  /** The size guards that reading some quantities needs: for each collection,
      the greatest index. */
  function FloorsOf(env: Env, qs: set<QuantityId>): seq<Floor> {
    var needs := set q, f | q in qs && f in env.floors(q) :: f;
    var sizes := Ascending(set f | f in needs :: f.size);
    seq(|sizes|, i requires 0 <= i < |sizes| => Floor(sizes[i], Greatest(set f | f in needs && f.size == sizes[i] :: f.bound)))
  }

  /** Each of them comes from one of the quantities. */
  lemma FloorsOfMember(env: Env, qs: set<QuantityId>, i: nat)
    requires i < |FloorsOf(env, qs)|
    ensures exists q :: q in qs && FloorsOf(env, qs)[i] in env.floors(q)
  {
    hide Greatest, Ascending;
    var needs := set q, f | q in qs && f in env.floors(q) :: f;
    var sizes := Ascending(set f | f in needs :: f.size);
    assert sizes[i] in sizes;
    var bounds := set f | f in needs && f.size == sizes[i] :: f.bound;
    var f :| f in needs && f.size == sizes[i];
    assert f.bound in bounds;
    assert IsGreatest(bounds, Greatest(bounds));
    var g :| g in needs && g.size == sizes[i] && g.bound == Greatest(bounds);
    assert g == FloorsOf(env, qs)[i];
  }

  lemma NoFloors(env: Env, qs: set<QuantityId>)
    requires forall q | q in qs :: env.floors(q) == []
    ensures FloorsOf(env, qs) == []
  {
    hide FloorsOf;
    if FloorsOf(env, qs) != [] { FloorsOfMember(env, qs, 0); }
  }

  predicate IsInteger(x: real) { x == x.Floor as real }

  function Ceiling(x: real): real { if IsInteger(x) then x else (x.Floor + 1) as real }

  predicate IntegerValued(sizes: QuantityId -> bool, terms: seq<Term>) {
    forall t | t in terms :: sizes(t.q) && IsInteger(t.coeff)
  }

  /** `terms rel k`, tightened when the left side can only be an integer. */
  function AtomOf(sizes: QuantityId -> bool, terms: seq<Term>, rel: Rel, k: real): Formula {
    if terms == [] then if RelEval(rel, 0.0, k) then True else False
    else if IntegerValued(sizes, terms) && !IsInteger(k) then
      match rel
      case Lt => Atom(MakeAtom(terms, Le, k.Floor as real))
      case Le => Atom(MakeAtom(terms, Le, k.Floor as real))
      case Gt => Atom(MakeAtom(terms, Ge, Ceiling(k)))
      case Ge => Atom(MakeAtom(terms, Ge, Ceiling(k)))
      case Eq => False
      case Ne => True
    else Atom(MakeAtom(terms, rel, k))
  }

  /** Collection sizes are integers. */
  ghost predicate SizesIntegral(sizes: QuantityId -> bool, v: Valuation) { forall q: QuantityId :: sizes(q) ==> IsInteger(v(q)) }

  lemma IntegerTimes(x: real, y: real)
    requires IsInteger(x) && IsInteger(y)
    ensures IsInteger(Times(x, y))
  {
    var m, n := x.Floor, y.Floor;
    assert Times(x, y) == (m * n) as real;
    AnInteger(m * n);
  }

  lemma AnInteger(n: int)
    ensures IsInteger(n as real)
  {
  }

  lemma {:induction false} IntegerDot(sizes: QuantityId -> bool, terms: seq<Term>, v: Valuation)
    requires SizesIntegral(sizes, v) && IntegerValued(sizes, terms)
    ensures IsInteger(Dot(terms, v))
  {
    if terms != [] {
      IntegerDot(sizes, terms[1..], v);
      assert terms[0] in terms && IsInteger(v(terms[0].q));
      IntegerTimes(terms[0].coeff, v(terms[0].q));
      IntegerSum(Times(terms[0].coeff, v(terms[0].q)), Dot(terms[1..], v));
      assert Dot(terms, v) == Times(terms[0].coeff, v(terms[0].q)) + Dot(terms[1..], v);
    } else {
      AnInteger(0);
    }
  }

  lemma IntegerSum(x: real, y: real)
    requires IsInteger(x) && IsInteger(y)
    ensures IsInteger(x + y)
  {
    assert x + y == (x.Floor + y.Floor) as real;
  }

  /** Tightening against a bound between two integers loses nothing. */
  lemma AtomOfMeans(sizes: QuantityId -> bool, terms: seq<Term>, rel: Rel, k: real, p: Polarity, v: Valuation)
    requires SizesIntegral(sizes, v)
    ensures Sat(AtomOf(sizes, terms, rel, k), p, v) <==> RelEval(rel, Dot(terms, v), k)
    ensures IsExact(AtomOf(sizes, terms, rel, k))
  {
    hide Dot, Normalize, MakeAtom, IsInteger, IntegerValued, Ceiling;
    if terms == [] {
      NoTermsDot(v);
    } else if IntegerValued(sizes, terms) && !IsInteger(k) {
      IntegerDot(sizes, terms, v);
      TightenedRel(Dot(terms, v), k);
      MakeAtomMeans(terms, Le, k.Floor as real, v);
      MakeAtomMeans(terms, Ge, Ceiling(k), v);
    } else {
      MakeAtomMeans(terms, rel, k, v);
    }
  }

  /** What the atom says of valuations that are not integral as well: a bound
      between two integers moves to the nearer one that an integer can meet. */
  lemma AtomOfTightens(sizes: QuantityId -> bool, terms: seq<Term>, rel: Rel, k: real, p: Polarity, v: Valuation)
    ensures var x := Dot(terms, v); Sat(AtomOf(sizes, terms, rel, k), p, v) <==>
      if terms == [] || !IntegerValued(sizes, terms) || k == k.Floor as real then RelEval(rel, x, k)
      else match rel
        case Lt => x <= k.Floor as real
        case Le => x <= k.Floor as real
        case Gt => x >= (k.Floor + 1) as real
        case Ge => x >= (k.Floor + 1) as real
        case Eq => false
        case Ne => true
  {
    hide Dot, Normalize, MakeAtom, IntegerValued;
    if terms == [] {
      NoTermsDot(v);
    } else {
      MakeAtomMeans(terms, Le, k.Floor as real, v);
      MakeAtomMeans(terms, Ge, Ceiling(k), v);
      MakeAtomMeans(terms, rel, k, v);
    }
  }

  lemma NoTermsDot(v: Valuation)
    ensures Dot([], v) == 0.0
  {
  }

  lemma TightenedRel(x: real, k: real)
    requires IsInteger(x) && !IsInteger(k)
    ensures x != k && (x < k <==> x <= k.Floor as real) && (x <= k <==> x <= k.Floor as real)
    ensures (x > k <==> x >= Ceiling(k)) && (x >= k <==> x >= Ceiling(k))
  {
    hide IsInteger;
    Fraction(x, k);
    BelowFraction(x.Floor, k);
  }

  lemma Fraction(x: real, k: real)
    requires IsInteger(x) && !IsInteger(k)
    ensures x == x.Floor as real && k != k.Floor as real
  {
  }

  lemma BelowFraction(m: int, k: real)
    requires k != k.Floor as real
    ensures (m as real) < k <==> m <= k.Floor
    ensures m as real > k <==> m >= k.Floor + 1
  {
    assert (k.Floor as real) < k && k < (k.Floor + 1) as real;
    if m <= k.Floor { assert m as real <= k.Floor as real; } else { assert m as real >= (k.Floor + 1) as real; }
  }

  // ----- the compilation -----

  function LinOrOpaque(env: Env, e: Expr): LinResult {
    match Lin(e)
    case NonLinear => Form(LinExpr([Term(1.0, env.opaqueOf(e))], 0.0, {env.opaqueOf(e)}))
    case other => other
  }

  function OpaqueAtom(env: Env, e: Expr, rel: Rel, c: real): Formula {
    var q := env.opaqueOf(e);
    GuardPresence(env.table, {q}, AtomOf(env.sizes, [Term(1.0, q)], rel, c))
  }

  /** `num / den rel c`, cleared of its denominator by the denominator's sign. */
  function Ratio(env: Env, num: Expr, den: Expr, rel: Rel, c: real): Formula {
    match LinOrOpaque(env, num)
    case NonFinite => False
    case NonLinear => Unknown(0)
    case Form(l) =>
      match LinOrOpaque(env, den)
      case NonFinite => False
      case NonLinear => Unknown(0)
      case Form(d) =>
        var e := Minus(l, ScaledBy(d, c));
        if d.terms == [] then
          if d.k == 0.0 then False
          else
            GuardPresence(env.table, l.mentioned + d.mentioned,
              AtomOf(env.sizes, e.terms, if d.k < 0.0 then RelFlipped(rel) else rel, -e.k))
        else
          GuardPresence(env.table, l.mentioned + d.mentioned,
            FOr([
              FAnd([AtomOf(env.sizes, d.terms, Gt, -d.k), AtomOf(env.sizes, e.terms, rel, -e.k)]),
              FAnd([AtomOf(env.sizes, d.terms, Lt, -d.k), AtomOf(env.sizes, e.terms, RelFlipped(rel), -e.k)])]))
  }

  /** `|inner| rel c`. */
  function AbsCompare(env: Env, inner: Expr, rel: Rel, c: real): Formula {
    if c < 0.0 then
      GuardPresence(env.table, Quants(inner), if rel == Lt || rel == Le || rel == Eq then False else True)
    else
      match Lin(inner)
      case NonLinear => OpaqueAtom(env, Abs(inner), rel, c)
      case NonFinite => False
      case Form(f) => GuardPresence(env.table, f.mentioned, AbsExpansion(env, f, rel, c))
  }

  function AbsExpansion(env: Env, f: LinExpr, rel: Rel, c: real): Formula {
    var hi, lo := c - f.k, -c - f.k;
    match rel
    case Lt => FAnd([AtomOf(env.sizes, f.terms, Lt, hi), AtomOf(env.sizes, f.terms, Gt, lo)])
    case Le => FAnd([AtomOf(env.sizes, f.terms, Le, hi), AtomOf(env.sizes, f.terms, Ge, lo)])
    case Gt => FOr([AtomOf(env.sizes, f.terms, Gt, hi), AtomOf(env.sizes, f.terms, Lt, lo)])
    case Ge => FOr([AtomOf(env.sizes, f.terms, Ge, hi), AtomOf(env.sizes, f.terms, Le, lo)])
    case Eq => FOr([AtomOf(env.sizes, f.terms, Eq, hi), AtomOf(env.sizes, f.terms, Eq, lo)])
    case Ne => FAnd([AtomOf(env.sizes, f.terms, Ne, hi), AtomOf(env.sizes, f.terms, Ne, lo)])
  }

  predicate IsUpward(rel: Rel) { rel == Gt || rel == Ge }

  predicate IsDownward(rel: Rel) { rel == Lt || rel == Le }

  /** `min` below a bound, or `max` above one: some argument decides. */
  predicate SomeDecides(least: bool, rel: Rel) { if least then IsDownward(rel) else IsUpward(rel) }

  /** `min` above a bound, or `max` below one: every argument must comply. */
  predicate EachComplies(least: bool, rel: Rel) { if least then IsUpward(rel) else IsDownward(rel) }

  function FloorAtoms(floors: seq<Floor>): seq<Formula> {
    seq(|floors|, i requires 0 <= i < |floors| => Atom(floors[i].AsAtom()))
  }

  function ExactQuants(args: seq<Expr>, parts: seq<Formula>): set<QuantityId>
    requires |args| == |parts|
  {
    set i, q | 0 <= i < |args| && IsExact(parts[i]) && q in Quants(args[i]) :: q
  }

  function OpaqueMarks(parts: seq<Formula>): seq<Formula> {
    if parts == [] then []
    else OpaqueMarks(parts[..|parts| - 1]) + if IsExact(parts[|parts| - 1]) then [] else [Unknown(0)]
  }

  function ExtremumCompare(env: Env, least: bool, args: seq<Expr>, rel: Rel, parts: seq<Formula>): Formula
    requires |args| == |parts|
  {
    var present := ExactQuants(args, parts);
    var combined := if SomeDecides(least, rel) then FOr(parts) else FAnd(parts);
    GuardPresence(env.table, present, FAnd(FloorAtoms(FloorsOf(env, present)) + OpaqueMarks(parts) + [combined]))
  }

  /** The nonlinear shapes that can be expanded against a constant. */
  function Pattern(env: Env, e: Expr, rel: Rel, c: real): Formula
    decreases e, 0
  {
    match e
    case Abs(a) => AbsCompare(env, a, rel, c)
    case Extremum(least, args) =>
      if SomeDecides(least, rel) || EachComplies(least, rel) then
        ExtremumCompare(env, least, args, rel, seq(|args|, i requires 0 <= i < |args| => ArgCompare(env, args[i], rel, c)))
      else Unknown(0)
    case Bin(op, l, r) => if op == Div then Ratio(env, l, r, rel, c) else OpaqueAtom(env, e, rel, c)
    case _ => OpaqueAtom(env, e, rel, c)
  }

  /** An expression against a constant. */
  function ArgCompare(env: Env, e: Expr, rel: Rel, c: real): Formula
    decreases e, 1
  {
    match Lin(e)
    case Form(f) => GuardPresence(env.table, f.mentioned, AtomOf(env.sizes, f.terms, rel, c - f.k))
    case NonFinite => False
    case NonLinear => Pattern(env, e, rel, c)
  }

  /** `l rel r`. */
  function Compare(env: Env, rel: Rel, l: Expr, r: Expr): Formula {
    match (Lin(l), Lin(r))
    case (Form(a), Form(b)) =>
      var d := Minus(a, b);
      GuardPresence(env.table, d.mentioned, AtomOf(env.sizes, d.terms, rel, -d.k))
    case (NonFinite, _) => False
    case (_, NonFinite) => False
    case (NonLinear, Form(b)) => if b.terms == [] then Pattern(env, l, rel, b.k) else Unknown(0)
    case (Form(a), NonLinear) => if a.terms == [] then Pattern(env, r, RelFlipped(rel), a.k) else Unknown(0)
    case (NonLinear, NonLinear) => Unknown(0)
  }

  /** `lo <= e <= hi`, or `e` on or beyond one of the edges. */
  function Band(env: Env, inside: bool, e: Expr, lo: real, hi: real): Formula {
    match Lin(e)
    case Form(f) =>
      var parts := [
        AtomOf(env.sizes, f.terms, if inside then Ge else Le, lo - f.k),
        AtomOf(env.sizes, f.terms, if inside then Le else Ge, hi - f.k)];
      GuardPresence(env.table, f.mentioned, if inside then FAnd(parts) else FOr(parts))
    case NonLinear =>
      var parts := [Pattern(env, e, if inside then Ge else Le, lo), Pattern(env, e, if inside then Le else Ge, hi)];
      GuardPresence(env.table, Quants(e), if inside then FAnd(parts) else FOr(parts))
    case NonFinite => False
  }
}
