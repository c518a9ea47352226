/** Bounded expansion of quantifiers over a collection: `any`, `all` and the
    unresolved reading of an unindexed cut. */
module Quantifiers {
  import opened Linear
  import opened Formulas
  import opened Saturation
  import opened Conditions
  import opened PartialTruth

  const OPEN1_BOUND := 3
  const MAX_STATIC_SLICE_REDUCE := 1024
  const MAX_SOURCE_ELEM_INDEX := 0xFFFF_FFFE
  const UINT32_SIZE := 0x1_0000_0000

  datatype DualKind = Open1 | AnyOf | AllOf

  /** A cut on element i of a collection, for every i. */
  type Body = nat -> Cond

  function SizeAtom(size: QuantityId, rel: Rel, k: nat): Formula { Atom(Single(size, rel, k as real)) }

  /** The comparison `size rel k`. */
  function SizeCond(size: QuantityId, rel: Rel, k: nat): Cond { Leaf(0, {size}, [], SizeAtom(size, rel, k)) }

  function Instances(body: Body, n: nat): seq<Cond> { seq(n, i requires 0 <= i < n => body(i)) }

  // ----- what the expansion says, as a condition -----

  function WithinAll(size: QuantityId, body: Body, bound: nat): Cond {
    All(seq(bound, i requires 0 <= i < bound => Any([SizeCond(size, Le, i), body(i)])))
  }

  function Upper(kind: DualKind, size: QuantityId, body: Body, bound: nat): Cond {
    match kind
    case Open1 => Any([SizeCond(size, Eq, 0)] + Instances(body, bound) + [SizeCond(size, Gt, bound)])
    case AnyOf => Any(Instances(body, bound) + [SizeCond(size, Gt, bound)])
    case AllOf => WithinAll(size, body, bound)
  }

  function Lower(kind: DualKind, size: QuantityId, body: Body, bound: nat): Cond {
    match kind
    case Open1 => All([SizeCond(size, Ge, 1), SizeCond(size, Le, bound), WithinAll(size, body, bound)])
    case AnyOf => Any(seq(bound, i requires 0 <= i < bound => All([SizeCond(size, Gt, i), body(i)])))
    case AllOf =>
      Any([SizeCond(size, Eq, 0), All([SizeCond(size, Ge, 1), SizeCond(size, Le, bound), WithinAll(size, body, bound)])])
  }

  // ----- the encoder's loops -----

  function WithinParts(size: QuantityId, instances: seq<Formula>): seq<Formula> {
    seq(|instances|, i requires 0 <= i < |instances| => FOr([SizeAtom(size, Le, i), instances[i]]))
  }

  function BeyondParts(size: QuantityId, instances: seq<Formula>): seq<Formula> {
    seq(|instances|, i requires 0 <= i < |instances| => FAnd([SizeAtom(size, Gt, i), instances[i]]))
  }

  method AllWithin(size: QuantityId, instances: seq<Formula>) returns (f: Formula)
    ensures f == FAnd(WithinParts(size, instances))
  {
    hide FAnd, FOr;
    var parts := [];
    for i := 0 to |instances|
      invariant parts == WithinParts(size, instances[..i])
    {
      parts := parts + [FOr([SizeAtom(size, Le, i), instances[i]])];
    }
    assert instances[..|instances|] == instances;
    f := FAnd(parts);
  }

  /** `build_dual`: the bracket around a quantifier, from its first instances. */
  method BuildDual(table: Table, kind: DualKind, size: QuantityId, body: Body, instances: seq<Formula>, why: nat)
    returns (f: Formula)
    requires !table.MayBeAbsent(size)
    requires instances == EncodeAll(table, Instances(body, OPEN1_BOUND))
    ensures f == Encode(table, Between(Upper(kind, size, body, OPEN1_BOUND), Lower(kind, size, body, OPEN1_BOUND), why))
  {
    hide FAnd, FOr, Encode;
    var plus, minus;
    match kind {
      case Open1 =>
        plus := FOr([SizeAtom(size, Eq, 0)] + instances + [SizeAtom(size, Gt, OPEN1_BOUND)]);
        var within := AllWithin(size, instances);
        minus := FAnd([SizeAtom(size, Ge, 1), SizeAtom(size, Le, OPEN1_BOUND), within]);
      case AnyOf =>
        plus := FOr(instances + [SizeAtom(size, Gt, OPEN1_BOUND)]);
        var parts := [];
        for i := 0 to |instances|
          invariant parts == BeyondParts(size, instances[..i])
        {
          parts := parts + [FAnd([SizeAtom(size, Gt, i), instances[i]])];
        }
        assert instances[..|instances|] == instances;
        minus := FOr(parts);
      case AllOf =>
        plus := AllWithin(size, instances);
        var within := AllWithin(size, instances);
        var bounded := FAnd([SizeAtom(size, Ge, 1), SizeAtom(size, Le, OPEN1_BOUND), within]);
        minus := FOr([SizeAtom(size, Eq, 0), bounded]);
    }
    UpperEncodes(table, kind, size, body, OPEN1_BOUND);
    LowerEncodes(table, kind, size, body, OPEN1_BOUND);
    BetweenEncodes(table, Upper(kind, size, body, OPEN1_BOUND), Lower(kind, size, body, OPEN1_BOUND), why);
    f := Dual(plus, minus, why);
  }

  lemma BetweenEncodes(table: Table, upper: Cond, lower: Cond, why: nat)
    ensures Encode(table, Between(upper, lower, why)) == Dual(Encode(table, upper), Encode(table, lower), why)
  {
  }

  lemma AscendingEmpty()
    ensures Ascending({}) == []
  {
  }

  lemma SizeEncodes(table: Table, size: QuantityId, rel: Rel, k: nat)
    requires !table.MayBeAbsent(size)
    ensures Encode(table, SizeCond(size, rel, k)) == SizeAtom(size, rel, k)
  {
    assert (set q | q in {size} && table.MayBeAbsent(q)) == {};
    AscendingEmpty();
  }

  lemma AnyEncodes(table: Table, parts: seq<Cond>)
    ensures Encode(table, Any(parts)) == FOr(EncodeAll(table, parts))
    ensures Encode(table, All(parts)) == FAnd(EncodeAll(table, parts))
  {
  }

  lemma PairEncodes(table: Table, a: Cond, b: Cond)
    ensures EncodeAll(table, [a, b]) == [Encode(table, a), Encode(table, b)]
  {
    hide Encode;
  }

  lemma WithinEncodes(table: Table, size: QuantityId, body: Body, n: nat)
    requires !table.MayBeAbsent(size)
    ensures Encode(table, WithinAll(size, body, n)) == FAnd(WithinParts(size, EncodeAll(table, Instances(body, n))))
  {
    hide Encode, FAnd, FOr;
    var conds := seq(n, i requires 0 <= i < n => Any([SizeCond(size, Le, i), body(i)]));
    var parts := WithinParts(size, EncodeAll(table, Instances(body, n)));
    AnyEncodes(table, conds);
    forall i | 0 <= i < n ensures Encode(table, conds[i]) == parts[i] {
      AnyEncodes(table, [SizeCond(size, Le, i), body(i)]);
      PairEncodes(table, SizeCond(size, Le, i), body(i));
      SizeEncodes(table, size, Le, i);
    }
    assert EncodeAll(table, conds) == parts;
  }

  lemma BeyondEncodes(table: Table, size: QuantityId, body: Body, n: nat)
    requires !table.MayBeAbsent(size)
    ensures Encode(table, Lower(AnyOf, size, body, n)) == FOr(BeyondParts(size, EncodeAll(table, Instances(body, n))))
  {
    hide Encode, FAnd, FOr;
    var conds := seq(n, i requires 0 <= i < n => All([SizeCond(size, Gt, i), body(i)]));
    var parts := BeyondParts(size, EncodeAll(table, Instances(body, n)));
    AnyEncodes(table, conds);
    forall i | 0 <= i < n ensures Encode(table, conds[i]) == parts[i] {
      AnyEncodes(table, [SizeCond(size, Gt, i), body(i)]);
      PairEncodes(table, SizeCond(size, Gt, i), body(i));
      SizeEncodes(table, size, Gt, i);
    }
    assert EncodeAll(table, conds) == parts;
  }

  lemma UpperEncodes(table: Table, kind: DualKind, size: QuantityId, body: Body, n: nat)
    requires !table.MayBeAbsent(size)
    ensures var instances := EncodeAll(table, Instances(body, n));
      Encode(table, Upper(kind, size, body, n)) ==
        match kind
        case Open1 => FOr([SizeAtom(size, Eq, 0)] + instances + [SizeAtom(size, Gt, n)])
        case AnyOf => FOr(instances + [SizeAtom(size, Gt, n)])
        case AllOf => FAnd(WithinParts(size, instances))
  {
    hide Encode, FAnd, FOr;
    var conds, instances := Instances(body, n), EncodeAll(table, Instances(body, n));
    SizeEncodes(table, size, Eq, 0);
    SizeEncodes(table, size, Gt, n);
    WithinEncodes(table, size, body, n);
    AnyEncodes(table, conds + [SizeCond(size, Gt, n)]);
    AnyEncodes(table, [SizeCond(size, Eq, 0)] + conds + [SizeCond(size, Gt, n)]);
    assert EncodeAll(table, conds + [SizeCond(size, Gt, n)]) == instances + [SizeAtom(size, Gt, n)];
    assert EncodeAll(table, [SizeCond(size, Eq, 0)] + conds + [SizeCond(size, Gt, n)])
      == [SizeAtom(size, Eq, 0)] + instances + [SizeAtom(size, Gt, n)];
  }

  lemma LowerEncodes(table: Table, kind: DualKind, size: QuantityId, body: Body, n: nat)
    requires !table.MayBeAbsent(size)
    ensures var instances := EncodeAll(table, Instances(body, n));
      var bounded := FAnd([SizeAtom(size, Ge, 1), SizeAtom(size, Le, n), FAnd(WithinParts(size, instances))]);
      Encode(table, Lower(kind, size, body, n)) ==
        match kind
        case Open1 => bounded
        case AnyOf => FOr(BeyondParts(size, instances))
        case AllOf => FOr([SizeAtom(size, Eq, 0), bounded])
  {
    hide Encode, FAnd, FOr;
    SizeEncodes(table, size, Eq, 0);
    SizeEncodes(table, size, Ge, 1);
    SizeEncodes(table, size, Le, n);
    WithinEncodes(table, size, body, n);
    BeyondEncodes(table, size, body, n);
    var within := WithinAll(size, body, n);
    var bounded := [SizeCond(size, Ge, 1), SizeCond(size, Le, n), within];
    AnyEncodes(table, bounded);
    assert EncodeAll(table, bounded) == [SizeAtom(size, Ge, 1), SizeAtom(size, Le, n), Encode(table, within)];
    AnyEncodes(table, [SizeCond(size, Eq, 0), All(bounded)]);
    PairEncodes(table, SizeCond(size, Eq, 0), All(bounded));
  }

  // ----- the interpreter's readings -----

  /** Kleene disjunction over the elements of a collection of n elements. */
  function AnyReading(table: Table, ev: Event, body: Body, n: nat): Tri {
    if exists i: nat | i < n :: Truth(table, ev, body(i)) == T then T
    else if exists i: nat | i < n :: Truth(table, ev, body(i)) == U then U else F
  }

  /** Kleene conjunction over the elements. */
  function AllReading(table: Table, ev: Event, body: Body, n: nat): Tri {
    if exists i: nat | i < n :: Truth(table, ev, body(i)) == F then F
    else if exists i: nat | i < n :: Truth(table, ev, body(i)) == U then U else T
  }

  /** An unindexed cut may be read either way (OPEN-1). */
  predicate Reads(kind: DualKind, table: Table, ev: Event, body: Body, n: nat, t: Tri) {
    match kind
    case AnyOf => t == AnyReading(table, ev, body, n)
    case AllOf => t == AllReading(table, ev, body, n)
    case Open1 => t == AnyReading(table, ev, body, n) || t == AllReading(table, ev, body, n)
  }

  ghost predicate HasSize(table: Table, ev: Event, size: QuantityId, n: nat) {
    !table.MayBeAbsent(size) && table.innerOf(size) == None && ev.value(size) == n as real
  }

  lemma SizeTruth(table: Table, ev: Event, size: QuantityId, n: nat, rel: Rel, k: nat)
    requires ValidEvent(table, ev) && HasSize(table, ev, size, n)
    ensures Truth(table, ev, SizeCond(size, rel, k)) == if RelEval(rel, n as real, k as real) then T else F
  {
    SingleIsMake(size, rel, k as real);
    assert !Missing(table, ev, {size}, Soft) && !Missing(table, ev, {size}, Hard);
    assert View(table, ev)(size) == n as real;
  }

  lemma PairTruth(table: Table, ev: Event, a: Cond, b: Cond)
    ensures Truth(table, ev, Any([a, b])) == TriOr(Truth(table, ev, a), Truth(table, ev, b))
    ensures Truth(table, ev, All([a, b])) == TriAnd(Truth(table, ev, a), Truth(table, ev, b))
  {
    hide Truth;
    var s := [a, b];
    assert s[0] == a && s[1] == b;
    SeqTruth(table, ev, s);
  }

  lemma SeqTruth(table: Table, ev: Event, parts: seq<Cond>)
    ensures Truth(table, ev, Any(parts)) == T <==> exists i :: 0 <= i < |parts| && Truth(table, ev, parts[i]) == T
    ensures Truth(table, ev, Any(parts)) == F <==> forall i :: 0 <= i < |parts| ==> Truth(table, ev, parts[i]) == F
    ensures Truth(table, ev, All(parts)) == F <==> exists i :: 0 <= i < |parts| && Truth(table, ev, parts[i]) == F
    ensures Truth(table, ev, All(parts)) == T <==> forall i :: 0 <= i < |parts| ==> Truth(table, ev, parts[i]) == T
  {
    hide LeafTruth;
  }

  /** The all-within expansion, over a collection of n elements. */
  lemma WithinTruth(table: Table, ev: Event, size: QuantityId, body: Body, bound: nat, n: nat)
    requires ValidEvent(table, ev) && HasSize(table, ev, size, n)
    ensures Truth(table, ev, WithinAll(size, body, bound)) == F
      <==> exists i: nat :: i < bound && i < n && Truth(table, ev, body(i)) == F
    ensures Truth(table, ev, WithinAll(size, body, bound)) == T
      <==> forall i: nat :: i < bound && i < n ==> Truth(table, ev, body(i)) == T
  {
    hide Truth;
    var parts := seq(bound, i requires 0 <= i < bound => Any([SizeCond(size, Le, i), body(i)]));
    SeqTruth(table, ev, parts);
    forall i: nat | i < bound
      ensures Truth(table, ev, parts[i]) == if i < n then Truth(table, ev, body(i)) else T
    {
      PairTruth(table, ev, SizeCond(size, Le, i), body(i));
      SizeTruth(table, ev, size, n, Le, i);
    }
    if i: nat :| i < bound && i < n && Truth(table, ev, body(i)) == F {
      assert Truth(table, ev, parts[i]) == F;
    }
    if forall i: nat :: i < bound && i < n ==> Truth(table, ev, body(i)) == T {
      assert forall i :: 0 <= i < |parts| ==> Truth(table, ev, parts[i]) == T;
    }
  }

  lemma InstancesTruth(table: Table, ev: Event, body: Body, bound: nat, pre: seq<Cond>, post: Cond)
    ensures var parts := pre + Instances(body, bound) + [post];
      && (Truth(table, ev, Any(parts)) == T <==>
        || (exists i :: 0 <= i < |pre| && Truth(table, ev, pre[i]) == T)
        || (exists i: nat :: i < bound && Truth(table, ev, body(i)) == T)
        || Truth(table, ev, post) == T)
      && (Truth(table, ev, Any(parts)) == F <==>
        && (forall i :: 0 <= i < |pre| ==> Truth(table, ev, pre[i]) == F)
        && (forall i: nat :: i < bound ==> Truth(table, ev, body(i)) == F)
        && Truth(table, ev, post) == F)
  {
    hide Truth;
    var parts, m := pre + Instances(body, bound) + [post], |pre|;
    SeqTruth(table, ev, parts);
    assert parts[m + bound] == post;
    assert forall i :: 0 <= i < m ==> parts[i] == pre[i];
    assert forall i: nat :: i < bound ==> parts[m + i] == body(i);
    forall i | 0 <= i < |parts| ensures i < m || i == m + bound || (m <= i < m + bound && parts[i] == body(i - m)) {}
  }

  lemma BoundedTruth(table: Table, ev: Event, size: QuantityId, body: Body, bound: nat, n: nat)
    requires ValidEvent(table, ev) && HasSize(table, ev, size, n)
    ensures Truth(table, ev, All([SizeCond(size, Ge, 1), SizeCond(size, Le, bound), WithinAll(size, body, bound)])) == T
      <==> 1 <= n <= bound && Truth(table, ev, WithinAll(size, body, bound)) == T
  {
    hide Truth;
    var parts := [SizeCond(size, Ge, 1), SizeCond(size, Le, bound), WithinAll(size, body, bound)];
    SeqTruth(table, ev, parts);
    SizeTruth(table, ev, size, n, Ge, 1);
    SizeTruth(table, ev, size, n, Le, bound);
    assert parts[0] == SizeCond(size, Ge, 1) && parts[1] == SizeCond(size, Le, bound);
    assert parts[2] == WithinAll(size, body, bound);
  }

  lemma AnyBrackets(table: Table, ev: Event, size: QuantityId, body: Body, bound: nat, n: nat)
    requires ValidEvent(table, ev) && HasSize(table, ev, size, n)
    ensures Bracketed(Truth(table, ev, Upper(AnyOf, size, body, bound)), Truth(table, ev, Lower(AnyOf, size, body, bound)),
      AnyReading(table, ev, body, n))
  {
    hide Truth;
    SizeTruth(table, ev, size, n, Gt, bound);
    assert [] + Instances(body, bound) == Instances(body, bound);
    InstancesTruth(table, ev, body, bound, [], SizeCond(size, Gt, bound));
    var parts := seq(bound, i requires 0 <= i < bound => All([SizeCond(size, Gt, i), body(i)]));
    SeqTruth(table, ev, parts);
    forall i: nat | i < bound ensures Truth(table, ev, parts[i]) == T <==> i < n && Truth(table, ev, body(i)) == T {
      PairTruth(table, ev, SizeCond(size, Gt, i), body(i));
      SizeTruth(table, ev, size, n, Gt, i);
    }
  }

  lemma AllBrackets(table: Table, ev: Event, size: QuantityId, body: Body, bound: nat, n: nat)
    requires ValidEvent(table, ev) && HasSize(table, ev, size, n)
    ensures Bracketed(Truth(table, ev, Upper(AllOf, size, body, bound)), Truth(table, ev, Lower(AllOf, size, body, bound)),
      AllReading(table, ev, body, n))
  {
    hide Truth;
    WithinTruth(table, ev, size, body, bound, n);
    BoundedTruth(table, ev, size, body, bound, n);
    SizeTruth(table, ev, size, n, Eq, 0);
    PairTruth(table, ev, SizeCond(size, Eq, 0),
      All([SizeCond(size, Ge, 1), SizeCond(size, Le, bound), WithinAll(size, body, bound)]));
  }

  lemma OpenBrackets(table: Table, ev: Event, size: QuantityId, body: Body, bound: nat, n: nat)
    requires ValidEvent(table, ev) && HasSize(table, ev, size, n)
    ensures Bracketed(Truth(table, ev, Upper(Open1, size, body, bound)), Truth(table, ev, Lower(Open1, size, body, bound)),
      AnyReading(table, ev, body, n))
    ensures Bracketed(Truth(table, ev, Upper(Open1, size, body, bound)), Truth(table, ev, Lower(Open1, size, body, bound)),
      AllReading(table, ev, body, n))
  {
    hide Truth;
    SizeTruth(table, ev, size, n, Eq, 0);
    SizeTruth(table, ev, size, n, Gt, bound);
    assert [SizeCond(size, Eq, 0)][0] == SizeCond(size, Eq, 0);
    InstancesTruth(table, ev, body, bound, [SizeCond(size, Eq, 0)], SizeCond(size, Gt, bound));
    WithinTruth(table, ev, size, body, bound, n);
    BoundedTruth(table, ev, size, body, bound, n);
    if n > 0 { assert Truth(table, ev, body(0)) == T || Truth(table, ev, body(0)) == U || Truth(table, ev, body(0)) == F; }
  }

  /** The bounded expansion brackets the quantifier's reading whatever the size of
      the collection; that of an unindexed cut brackets both of its readings. */
  lemma ExpansionBrackets(kind: DualKind, table: Table, ev: Event, size: QuantityId, body: Body, bound: nat, n: nat, t: Tri)
    requires ValidEvent(table, ev) && HasSize(table, ev, size, n) && Reads(kind, table, ev, body, n, t)
    ensures Bracketed(Truth(table, ev, Upper(kind, size, body, bound)), Truth(table, ev, Lower(kind, size, body, bound)), t)
  {
    hide Truth, Bracketed, Upper, Lower, AnyReading, AllReading;
    match kind
    case AnyOf => AnyBrackets(table, ev, size, body, bound, n);
    case AllOf => AllBrackets(table, ev, size, body, bound, n);
    case Open1 => OpenBrackets(table, ev, size, body, bound, n);
  }

  // ----- how tight the brackets are -----

  ghost predicate SomeElement(table: Table, ev: Event, body: Body, n: nat, t: Tri) {
    exists i: nat :: i < n && Truth(table, ev, body(i)) == t
  }

  ghost predicate EachElement(table: Table, ev: Event, body: Body, n: nat, t: Tri) {
    forall i: nat :: i < n ==> Truth(table, ev, body(i)) == t
  }

  function Fewer(a: nat, b: nat): nat { if a < b then a else b }

  /** When exactly each side is True or False, in terms of the size and of the
      first elements. Of an `any`, the lower side looks at the elements that exist,
      the upper side at every instance; of an `all` the upper side does the former;
      the lower sides of `all` and of an unindexed cut also ask for a size within
      the bound. */
  ghost predicate SidesAre(kind: DualKind, table: Table, ev: Event, body: Body, bound: nat, n: nat, upper: Tri, lower: Tri) {
    var m := Fewer(n, bound);
    match kind
    case AnyOf =>
      && (lower == T <==> SomeElement(table, ev, body, m, T))
      && (lower == F <==> EachElement(table, ev, body, m, F))
      && (upper == T <==> n > bound || SomeElement(table, ev, body, bound, T))
      && (upper == F <==> n <= bound && EachElement(table, ev, body, bound, F))
    case AllOf =>
      && (upper == T <==> EachElement(table, ev, body, m, T))
      && (upper == F <==> SomeElement(table, ev, body, m, F))
      && (lower == T <==> n <= bound && EachElement(table, ev, body, n, T))
      && (lower == F <==> n > 0 && (n > bound || SomeElement(table, ev, body, n, F)))
    case Open1 =>
      && (upper == T <==> n == 0 || n > bound || SomeElement(table, ev, body, bound, T))
      && (upper == F <==> 0 < n <= bound && EachElement(table, ev, body, bound, F))
      && (lower == T <==> 0 < n <= bound && EachElement(table, ev, body, n, T))
      && (lower == F <==> n == 0 || n > bound || SomeElement(table, ev, body, n, F))
  }

  lemma ExpansionSides(kind: DualKind, table: Table, ev: Event, size: QuantityId, body: Body, bound: nat, n: nat)
    requires ValidEvent(table, ev) && HasSize(table, ev, size, n)
    ensures SidesAre(kind, table, ev, body, bound, n,
      Truth(table, ev, Upper(kind, size, body, bound)), Truth(table, ev, Lower(kind, size, body, bound)))
  {
    hide Truth, SidesAre;
    match kind
    case AnyOf => AnySides(table, ev, size, body, bound, n);
    case AllOf => AllSides(table, ev, size, body, bound, n);
    case Open1 => OpenSides(table, ev, size, body, bound, n);
  }

  lemma AnySides(table: Table, ev: Event, size: QuantityId, body: Body, bound: nat, n: nat)
    requires ValidEvent(table, ev) && HasSize(table, ev, size, n)
    ensures SidesAre(AnyOf, table, ev, body, bound, n,
      Truth(table, ev, Upper(AnyOf, size, body, bound)), Truth(table, ev, Lower(AnyOf, size, body, bound)))
  {
    hide Truth;
    SizeTruth(table, ev, size, n, Gt, bound);
    assert [] + Instances(body, bound) == Instances(body, bound);
    InstancesTruth(table, ev, body, bound, [], SizeCond(size, Gt, bound));
    var parts := seq(bound, i requires 0 <= i < bound => All([SizeCond(size, Gt, i), body(i)]));
    SeqTruth(table, ev, parts);
    forall i: nat | i < bound ensures Truth(table, ev, parts[i]) == if i < n then Truth(table, ev, body(i)) else F {
      PairTruth(table, ev, SizeCond(size, Gt, i), body(i));
      SizeTruth(table, ev, size, n, Gt, i);
    }
    if i: nat :| i < Fewer(n, bound) && Truth(table, ev, body(i)) == T { assert Truth(table, ev, parts[i]) == T; }
    if forall i :: 0 <= i < |parts| ==> Truth(table, ev, parts[i]) == F {
      forall i: nat | i < Fewer(n, bound) ensures Truth(table, ev, body(i)) == F { assert Truth(table, ev, parts[i]) == F; }
    }
  }

  /** The bounded conjunction of the lower sides. */
  lemma BoundedSides(table: Table, ev: Event, size: QuantityId, body: Body, bound: nat, n: nat)
    requires ValidEvent(table, ev) && HasSize(table, ev, size, n)
    ensures var t := Truth(table, ev, All([SizeCond(size, Ge, 1), SizeCond(size, Le, bound), WithinAll(size, body, bound)]));
      && (t == T <==> 0 < n <= bound && EachElement(table, ev, body, n, T))
      && (t == F <==> n == 0 || n > bound || SomeElement(table, ev, body, n, F))
  {
    hide Truth;
    var parts := [SizeCond(size, Ge, 1), SizeCond(size, Le, bound), WithinAll(size, body, bound)];
    SeqTruth(table, ev, parts);
    SizeTruth(table, ev, size, n, Ge, 1);
    SizeTruth(table, ev, size, n, Le, bound);
    WithinTruth(table, ev, size, body, bound, n);
    assert parts[0] == SizeCond(size, Ge, 1) && parts[1] == SizeCond(size, Le, bound);
    assert parts[2] == WithinAll(size, body, bound);
    assert (exists i :: 0 <= i < |parts| && Truth(table, ev, parts[i]) == F)
      <==> Truth(table, ev, parts[0]) == F || Truth(table, ev, parts[1]) == F || Truth(table, ev, parts[2]) == F;
  }

  lemma AllSides(table: Table, ev: Event, size: QuantityId, body: Body, bound: nat, n: nat)
    requires ValidEvent(table, ev) && HasSize(table, ev, size, n)
    ensures SidesAre(AllOf, table, ev, body, bound, n,
      Truth(table, ev, Upper(AllOf, size, body, bound)), Truth(table, ev, Lower(AllOf, size, body, bound)))
  {
    hide Truth;
    WithinTruth(table, ev, size, body, bound, n);
    BoundedSides(table, ev, size, body, bound, n);
    SizeTruth(table, ev, size, n, Eq, 0);
    PairTruth(table, ev, SizeCond(size, Eq, 0),
      All([SizeCond(size, Ge, 1), SizeCond(size, Le, bound), WithinAll(size, body, bound)]));
  }

  lemma OpenSides(table: Table, ev: Event, size: QuantityId, body: Body, bound: nat, n: nat)
    requires ValidEvent(table, ev) && HasSize(table, ev, size, n)
    ensures SidesAre(Open1, table, ev, body, bound, n,
      Truth(table, ev, Upper(Open1, size, body, bound)), Truth(table, ev, Lower(Open1, size, body, bound)))
  {
    hide Truth;
    SizeTruth(table, ev, size, n, Eq, 0);
    SizeTruth(table, ev, size, n, Gt, bound);
    assert [SizeCond(size, Eq, 0)][0] == SizeCond(size, Eq, 0);
    InstancesTruth(table, ev, body, bound, [SizeCond(size, Eq, 0)], SizeCond(size, Gt, bound));
    BoundedSides(table, ev, size, body, bound, n);
  }

  /** Instances past the last element read as False. */
  ghost predicate NothingBeyond(table: Table, ev: Event, body: Body, bound: nat, n: nat) {
    forall i: nat :: n <= i < bound ==> Truth(table, ev, body(i)) == F
  }

  lemma Readings(table: Table, ev: Event, body: Body, n: nat)
    ensures AnyReading(table, ev, body, n) == T <==> SomeElement(table, ev, body, n, T)
    ensures AnyReading(table, ev, body, n) == F <==> EachElement(table, ev, body, n, F)
    ensures AllReading(table, ev, body, n) == T <==> EachElement(table, ev, body, n, T)
    ensures AllReading(table, ev, body, n) == F <==> SomeElement(table, ev, body, n, F)
  {
    hide Truth;
  }

  /** Within the bound nothing is given away. An `any` is claimed exactly when it is
      True, and rejected exactly when it is False and no instance past the last
      element reads otherwise; an `all` is claimed and rejected exactly as it reads;
      an unindexed cut over at least one element is claimed exactly when all of them
      pass, and rejected exactly when none does, with the same proviso. */
  lemma ExpansionTight(kind: DualKind, table: Table, ev: Event, size: QuantityId, body: Body, bound: nat, n: nat)
    requires ValidEvent(table, ev) && HasSize(table, ev, size, n) && n <= bound
    ensures var upper, lower := Truth(table, ev, Upper(kind, size, body, bound)), Truth(table, ev, Lower(kind, size, body, bound));
      match kind
      case AnyOf =>
        && lower == AnyReading(table, ev, body, n)
        && (upper == F <==> AnyReading(table, ev, body, n) == F && NothingBeyond(table, ev, body, bound, n))
      case AllOf => upper == lower == AllReading(table, ev, body, n)
      case Open1 =>
        && (n > 0 ==> lower == AllReading(table, ev, body, n))
        && (n > 0 ==> (upper == F <==> AnyReading(table, ev, body, n) == F && NothingBeyond(table, ev, body, bound, n)))
        && (n == 0 ==> upper == T && lower == F)
  {
    hide Truth, Upper, Lower, AnyReading, AllReading;
    ExpansionSides(kind, table, ev, size, body, bound, n);
    Readings(table, ev, body, n);
    assert EachElement(table, ev, body, bound, F) <==> EachElement(table, ev, body, n, F) && NothingBeyond(table, ev, body, bound, n);
  }

  // ----- static slices -----

  /** The parent's element that the j-th instance reads, in 32-bit arithmetic. */
  function SliceIndex(start: nat, j: nat): nat {
    var abs := (start + j) % UINT32_SIZE;
    if abs > MAX_SOURCE_ELEM_INDEX then MAX_SOURCE_ELEM_INDEX else abs
  }

  function SlicePart(existential: bool, size: QuantityId, body: Body, i: nat): Cond {
    if existential then All([SizeCond(size, Gt, i), body(i)]) else Any([SizeCond(size, Le, i), body(i)])
  }

  function SliceParts(existential: bool, size: QuantityId, body: Body, start: nat, n: nat): seq<Cond> {
    seq(n, j requires 0 <= j < n => SlicePart(existential, size, body, SliceIndex(start, j)))
  }

  /** A boolean reducer over a slice with both ends, as a condition. */
  function SliceCond(existential: bool, size: QuantityId, body: Body, start: nat, n: nat): Cond {
    if existential then Any(SliceParts(existential, size, body, start, n)) else All(SliceParts(existential, size, body, start, n))
  }

  datatype Reduced = Expanded(f: Formula) | TooWide

  /** `encode_reduce` on a slice with both ends: one instance per element. */
  method EncodeStaticSlice(table: Table, existential: bool, size: QuantityId, body: Body, start: nat, end: nat)
    returns (r: Reduced)
    requires !table.MayBeAbsent(size)
    requires start < UINT32_SIZE && end < UINT32_SIZE
    ensures r.TooWide? <==> end > start && end - start > MAX_STATIC_SLICE_REDUCE
    ensures r.Expanded? ==>
      r.f == Encode(table, SliceCond(existential, size, body, start, if end > start then end - start else 0))
  {
    hide Encode, FAnd, FOr, SliceIndex;
    var n := if end > start then end - start else 0;
    if n > MAX_STATIC_SLICE_REDUCE { return TooWide; }
    var parts := [];
    for j := 0 to n
      invariant parts == EncodeAll(table, SliceParts(existential, size, body, start, j))
    {
      var i := SliceIndex(start, j);
      var p := Encode(table, body(i));
      SliceEncodes(table, existential, size, body, i);
      if existential {
        parts := parts + [FAnd([SizeAtom(size, Gt, i), p])];
      } else {
        parts := parts + [FOr([SizeAtom(size, Le, i), p])];
      }
      assert SliceParts(existential, size, body, start, j + 1)
        == SliceParts(existential, size, body, start, j) + [SlicePart(existential, size, body, i)];
    }
    AnyEncodes(table, SliceParts(existential, size, body, start, n));
    r := Expanded(if existential then FOr(parts) else FAnd(parts));
  }

  lemma SliceEncodes(table: Table, existential: bool, size: QuantityId, body: Body, i: nat)
    requires !table.MayBeAbsent(size)
    ensures Encode(table, SlicePart(existential, size, body, i)) ==
      if existential then FAnd([SizeAtom(size, Gt, i), Encode(table, body(i))])
      else FOr([SizeAtom(size, Le, i), Encode(table, body(i))])
  {
    hide Encode, FAnd, FOr;
    AnyEncodes(table, [SizeCond(size, Gt, i), body(i)]);
    AnyEncodes(table, [SizeCond(size, Le, i), body(i)]);
    PairEncodes(table, SizeCond(size, Gt, i), body(i));
    PairEncodes(table, SizeCond(size, Le, i), body(i));
    SizeEncodes(table, size, Gt, i);
    SizeEncodes(table, size, Le, i);
  }

  /** The elements of the slice: the parent's elements from `start`, short of `end`. */
  function SliceBody(body: Body, start: nat): Body { (i: nat) => body(start + i) }

  function SliceLength(start: nat, end: nat, n: nat): nat {
    var stop := if end < n then end else n;
    if stop > start then stop - start else 0
  }

  lemma SlicePartTruth(table: Table, ev: Event, existential: bool, size: QuantityId, body: Body, n: nat, i: nat)
    requires ValidEvent(table, ev) && HasSize(table, ev, size, n)
    ensures Truth(table, ev, SlicePart(existential, size, body, i)) ==
      if i < n then Truth(table, ev, body(i)) else if existential then F else T
  {
    hide Truth;
    PairTruth(table, ev, SizeCond(size, Gt, i), body(i));
    PairTruth(table, ev, SizeCond(size, Le, i), body(i));
    SizeTruth(table, ev, size, n, Gt, i);
    SizeTruth(table, ev, size, n, Le, i);
  }

  lemma SliceIndexPlain(start: nat, j: nat, end: nat)
    requires start + j < end < UINT32_SIZE
    ensures SliceIndex(start, j) == start + j
  {
  }

  /** Static expansion is exact on every event: neither the 32-bit sum nor the
      index cap can bite for a slice whose ends are 32-bit numbers. */
  lemma StaticSliceExact(table: Table, ev: Event, existential: bool, size: QuantityId, body: Body, start: nat, end: nat, n: nat)
    requires ValidEvent(table, ev) && HasSize(table, ev, size, n)
    requires start < UINT32_SIZE && end < UINT32_SIZE
    ensures Truth(table, ev, SliceCond(existential, size, body, start, if end > start then end - start else 0)) ==
      if existential then AnyReading(table, ev, SliceBody(body, start), SliceLength(start, end, n))
      else AllReading(table, ev, SliceBody(body, start), SliceLength(start, end, n))
  {
    hide Truth, SliceIndex;
    var width := if end > start then end - start else 0;
    var parts, len := SliceParts(existential, size, body, start, width), SliceLength(start, end, n);
    SeqTruth(table, ev, parts);
    forall j: nat | j < width
      ensures Truth(table, ev, parts[j]) == if j < len then Truth(table, ev, SliceBody(body, start)(j)) else if existential then F else T
    {
      SliceIndexPlain(start, j, end);
      SlicePartTruth(table, ev, existential, size, body, n, start + j);
    }
    forall j: nat | j < len ensures Truth(table, ev, parts[j]) == Truth(table, ev, SliceBody(body, start)(j)) {}
  }
}
