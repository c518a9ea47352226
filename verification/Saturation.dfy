/** Boolean saturation of a conjunction, shared by the search and the replay. */
module Saturation {
  import opened Linear
  import opened Formulas
  import opened Constraints

  datatype Option<+T> = None | Some(value: T)

  datatype Saturated = Saturated(hasFalse: bool, items: seq<QFormula>)

  function Retagged(atom: LinAtom, rel: Rel): LinAtom { MakeAtom(atom.terms, rel, atom.constant) }

  /** The items that one formula contributes, left to right. */
  function Spine(f: QFormula): seq<QFormula>
    decreases f, 1
  {
    match f
    case QTrue => []
    case QFalse => []
    case QAnd(items) => SpineAll(items)
    case QOr(_) => [f]
    case QAtom(a) =>
      if a.rel == Eq then [QAtom(Retagged(a, Le)), QAtom(Retagged(a, Ge))]
      else if a.rel == Ne then [QOr([QAtom(Retagged(a, Lt)), QAtom(Retagged(a, Gt))])]
      else [f]
  }

  function SpineAll(fs: seq<QFormula>): seq<QFormula>
    decreases fs, 0
  {
    if fs == [] then [] else Spine(fs[0]) + SpineAll(fs[1..])
  }

  /** A constant false is reachable without crossing a disjunction. */
  predicate FalseInSpine(f: QFormula) {
    match f
    case QFalse => true
    case QAnd(items) => exists x | x in items :: FalseInSpine(x)
    case _ => false
  }

  predicate AnyFalse(fs: seq<QFormula>) { exists f | f in fs :: FalseInSpine(f) }

  function SaturateSpec(conj: seq<QFormula>): Saturated {
    Saturated(AnyFalse(conj), SpineAll(conj))
  }

  function Size(f: QFormula): nat
    decreases f, 1
  {
    match f
    case QAnd(items) => 1 + SizeAll(items)
    case QOr(items) => 1 + SizeAll(items)
    case _ => 1
  }

  function SizeAll(fs: seq<QFormula>): nat
    decreases fs, 0
  {
    if fs == [] then 0 else Size(fs[0]) + SizeAll(fs[1..])
  }

  lemma {:induction false} SpineAllConcat(a: seq<QFormula>, b: seq<QFormula>)
    ensures SpineAll(a + b) == SpineAll(a) + SpineAll(b)
  {
    if a == [] {
      assert a + b == b;
    } else {
      assert (a + b)[1..] == a[1..] + b;
      SpineAllConcat(a[1..], b);
    }
  }

  lemma {:induction false} SizeAllConcat(a: seq<QFormula>, b: seq<QFormula>)
    ensures SizeAll(a + b) == SizeAll(a) + SizeAll(b)
  {
    if a == [] {
      assert a + b == b;
    } else {
      assert (a + b)[1..] == a[1..] + b;
      SizeAllConcat(a[1..], b);
    }
  }

  ghost predicate Mirrored(stack: seq<QFormula>, todo: seq<QFormula>) {
    |stack| == |todo| && forall i :: 0 <= i < |stack| ==> stack[i] == todo[|todo| - 1 - i]
  }

  /** What is collected so far, followed by what is still to do, is the whole spine. */
  ghost predicate Progress(items: seq<QFormula>, hasFalse: bool, todo: seq<QFormula>, conj: seq<QFormula>) {
    && items + SpineAll(todo) == SpineAll(conj)
    && (hasFalse || AnyFalse(todo) <==> AnyFalse(conj))
  }

  lemma PopProgress(items: seq<QFormula>, hasFalse: bool, f: QFormula, rest: seq<QFormula>, conj: seq<QFormula>)
    requires Progress(items, hasFalse, [f] + rest, conj)
    ensures SizeAll([f] + rest) == Size(f) + SizeAll(rest)
    ensures f.QAnd? ==> Progress(items, hasFalse, f.items + rest, conj) && SizeAll(f.items + rest) < SizeAll([f] + rest)
    ensures !f.QAnd? ==> Progress(items + Spine(f), hasFalse || f == QFalse, rest, conj)
  {
    assert ([f] + rest)[1..] == rest;
    assert AnyFalse([f] + rest) <==> FalseInSpine(f) || AnyFalse(rest);
    assert items + (Spine(f) + SpineAll(rest)) == (items + Spine(f)) + SpineAll(rest);
    if f.QAnd? {
      SpineAllConcat(f.items, rest);
      SizeAllConcat(f.items, rest);
      assert AnyFalse(f.items + rest) <==> AnyFalse(f.items) || AnyFalse(rest);
    }
  }

  /** Saturation as the program runs it: a worklist on a stack, whose items are
      pushed in reverse so that they come off left to right. */
  method Saturate(conj: seq<QFormula>) returns (out: Saturated)
    ensures out == SaturateSpec(conj)
    ensures forall v: Valuation :: HoldsAll(conj, v) <==> !out.hasFalse && HoldsAll(out.items, v)
    ensures forall x :: x in out.items ==> x.QOr? || (x.QAtom? && x.atom.rel != Eq && x.atom.rel != Ne)
  {
    hide HoldsAll, FalseInSpine;
    var stack := PushReversed([], [], conj);
    ghost var todo := conj + [];
    assert todo == conj;
    var items: seq<QFormula>, hasFalse := [], false;
    while stack != []
      invariant Mirrored(stack, todo)
      invariant Progress(items, hasFalse, todo, conj)
      decreases SizeAll(todo)
    {
      var f := stack[|stack| - 1];
      ghost var rest := todo[1..];
      assert todo == [f] + rest;
      PopProgress(items, hasFalse, f, rest, conj);
      stack := stack[..|stack| - 1];
      todo := rest;
      match f {
        case QTrue =>
        case QFalse =>
          hasFalse := true;
        case QAnd(args) =>
          stack := PushReversed(stack, rest, args);
          todo := args + rest;
        case QOr(_) =>
          items := items + [f];
        case QAtom(a) =>
          if a.rel == Eq {
            items := items + [QAtom(Retagged(a, Le)), QAtom(Retagged(a, Ge))];
          } else if a.rel == Ne {
            items := items + [QOr([QAtom(Retagged(a, Lt)), QAtom(Retagged(a, Gt))])];
          } else {
            items := items + [f];
          }
      }
      assert f.QTrue? || f.QFalse? ==> items + [] == items;
    }
    out := Saturated(hasFalse, items);
    forall v: Valuation { SaturateMeaning(conj, v); }
    forall x | x in items { SpineAllShape(conj, x); }
  }

  method PushReversed(stack: seq<QFormula>, ghost todo: seq<QFormula>, items: seq<QFormula>) returns (r: seq<QFormula>)
    requires Mirrored(stack, todo)
    ensures Mirrored(r, items + todo)
  {
    r := stack;
    for i := |items| downto 0
      invariant Mirrored(r, items[i..] + todo)
    {
      r := r + [items[i]];
      assert items[i..] + todo == [items[i]] + (items[i + 1..] + todo);
    }
    assert items[0..] == items;
  }

  // ----- what saturation preserves -----

  lemma RetaggedMeans(a: LinAtom, rel: Rel, v: Valuation)
    ensures AtomHolds(Retagged(a, rel), v) <==> RelEval(rel, Dot(a.terms, v), a.constant)
  {
    NormalizeSound(a.terms);
  }

  lemma {:induction false} SpineMeaning(f: QFormula, v: Valuation)
    ensures Holds(f, v) <==> !FalseInSpine(f) && HoldsAll(Spine(f), v)
    decreases f, 1
  {
    match f
    case QTrue =>
    case QFalse =>
    case QAnd(items) =>
      SaturateMeaning(items, v);
    case QOr(_) =>
    case QAtom(a) =>
      RetaggedMeans(a, Le, v);
      RetaggedMeans(a, Ge, v);
      RetaggedMeans(a, Lt, v);
      RetaggedMeans(a, Gt, v);
      if a.rel == Ne {
        var l, g := QAtom(Retagged(a, Lt)), QAtom(Retagged(a, Gt));
        assert Holds(QOr([l, g]), v) <==> Holds(l, v) || Holds(g, v) by {
          assert l in [l, g] && g in [l, g];
        }
        assert Spine(f)[0] == QOr([l, g]);
      } else if a.rel == Eq {
        assert Spine(f)[0] in Spine(f) && Spine(f)[1] in Spine(f);
      } else {
        assert Spine(f)[0] == f;
      }
  }

  /** Saturation preserves meaning: the conjunction holds exactly when no
      constant false was met and all the items hold. */
  lemma {:induction false} SaturateMeaning(conj: seq<QFormula>, v: Valuation)
    ensures HoldsAll(conj, v) <==> !SaturateSpec(conj).hasFalse && HoldsAll(SaturateSpec(conj).items, v)
    decreases conj, 0
  {
    if conj != [] {
      SpineMeaning(conj[0], v);
      SaturateMeaning(conj[1..], v);
      assert conj == [conj[0]] + conj[1..];
      assert HoldsAll(SpineAll(conj), v) <==> HoldsAll(Spine(conj[0]), v) && HoldsAll(SpineAll(conj[1..]), v) by {
        assert SpineAll(conj) == Spine(conj[0]) + SpineAll(conj[1..]);
      }
    }
  }

  /** No equality, disequality, conjunction or constant is left as an item. */
  lemma {:induction false} SpineAllShape(fs: seq<QFormula>, x: QFormula)
    requires x in SpineAll(fs)
    ensures x.QOr? || (x.QAtom? && x.atom.rel != Eq && x.atom.rel != Ne)
    decreases fs, 0
  {
    if x in Spine(fs[0]) {
      SpineShape(fs[0], x);
    } else {
      SpineAllShape(fs[1..], x);
    }
  }

  lemma {:induction false} SpineShape(f: QFormula, x: QFormula)
    requires x in Spine(f)
    ensures x.QOr? || (x.QAtom? && x.atom.rel != Eq && x.atom.rel != Ne)
    decreases f, 1
  {
    if f.QAnd? { SpineAllShape(f.items, x); }
  }

  /** Every atom is in the normal form that the atom constructor establishes. */
  ghost predicate NormalAtoms(f: QFormula) {
    match f
    case QAtom(a) => Normal(a.terms)
    case QAnd(items) => forall x | x in items :: NormalAtoms(x)
    case QOr(items) => forall x | x in items :: NormalAtoms(x)
    case _ => true
  }

  ghost predicate AllNormal(fs: seq<QFormula>) { forall f | f in fs :: NormalAtoms(f) }

  lemma {:induction false} SpineNormal(f: QFormula)
    requires NormalAtoms(f)
    ensures AllNormal(Spine(f))
    decreases f, 1
  {
    match f
    case QAnd(items) => SpineAllNormal(items);
    case QAtom(a) => NormalizeSound(a.terms);
    case _ =>
  }

  lemma {:induction false} SpineAllNormal(fs: seq<QFormula>)
    requires AllNormal(fs)
    ensures AllNormal(SpineAll(fs))
    decreases fs, 0
  {
    if fs != [] {
      SpineNormal(fs[0]);
      SpineAllNormal(fs[1..]);
    }
  }

  // ----- leaves and case splits -----

  function LeftmostOr(items: seq<QFormula>): (r: Option<nat>)
    ensures r.Some? ==> r.value < |items| && items[r.value].QOr?
    ensures r.Some? ==> forall i :: 0 <= i < r.value ==> !items[i].QOr?
    ensures r.None? ==> forall x :: x in items ==> !x.QOr?
  {
    if items == [] then None
    else if items[0].QOr? then Some(0)
    else
      match LeftmostOr(items[1..])
      case None => None
      case Some(j) => Some(j + 1)
  }

  function CollectConstraints(items: seq<QFormula>): seq<Constraint> {
    if items == [] then []
    else (if items[0].QAtom? then [Canonicalize(items[0].atom)] else []) + CollectConstraints(items[1..])
  }

  function BuildChild(items: seq<QFormula>, j: nat, chosen: QFormula): seq<QFormula>
    requires j < |items|
  {
    items[..j] + items[j + 1..] + [chosen]
  }

  ghost predicate LeafItems(items: seq<QFormula>) {
    forall x | x in items :: x.QAtom? && x.atom.rel != Eq && x.atom.rel != Ne
  }

  /** A saturated leaf and its canonical constraints have the same solutions. */
  lemma {:induction false} LeafMeaning(items: seq<QFormula>, v: Valuation)
    requires LeafItems(items)
    ensures HoldsAll(items, v) <==> MeetsAll(CollectConstraints(items), v)
    ensures |CollectConstraints(items)| == |items|
  {
    if items != [] {
      LeafMeaning(items[1..], v);
      CanonicalizeFaithful(items[0].atom, v);
      var c, rest := Canonicalize(items[0].atom), CollectConstraints(items[1..]);
      assert CollectConstraints(items) == [c] + rest;
      assert MeetsAll([c] + rest, v) <==> Meets(c, v) && MeetsAll(rest, v) by {
        assert c in [c] + rest;
      }
      assert items == [items[0]] + items[1..];
      assert HoldsAll(items, v) <==> Holds(items[0], v) && HoldsAll(items[1..], v);
    }
  }

  lemma {:induction false} LeafNormal(items: seq<QFormula>, c: Constraint)
    requires AllNormal(items) && c in CollectConstraints(items)
    ensures Normal(c.coeffs)
  {
    if c in CollectConstraints(items[1..]) {
      LeafNormal(items[1..], c);
    } else {
      assert NormalAtoms(items[0]);
      CanonicalizeNormal(items[0].atom);
    }
  }

  /** A split covers its parent: the parent holds exactly when some child does. */
  lemma SplitMeaning(items: seq<QFormula>, j: nat, v: Valuation)
    requires j < |items| && items[j].QOr?
    ensures HoldsAll(items, v) <==> exists d | d in items[j].items :: HoldsAll(BuildChild(items, j, d), v)
  {
    assert items == items[..j] + [items[j]] + items[j + 1..];
    if d :| d in items[j].items && HoldsAll(BuildChild(items, j, d), v) {
      assert d in BuildChild(items, j, d);
      forall x | x in items ensures Holds(x, v) {
        if x != items[j] { assert x in BuildChild(items, j, d); }
      }
    }
    if HoldsAll(items, v) {
      assert items[j] in items && Holds(items[j], v);
      var d :| d in items[j].items && Holds(d, v);
      assert HoldsAll(BuildChild(items, j, d), v);
    }
  }
}
