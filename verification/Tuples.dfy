/** Enumeration of index tuples, as the interpreter runs it over collection sizes
    and the encoder over its expansion bound. */
module Tuples {

  type Tuple = seq<nat>

  function Row(t: Tuple, n: nat): seq<Tuple> { seq(n, i requires 0 <= i < n => t + [i]) }

  function ExtendAll(ts: seq<Tuple>, n: nat): seq<Tuple> {
    if ts == [] then [] else ExtendAll(ts[..|ts| - 1], n) + Row(ts[|ts| - 1], n)
  }

  function Product(sizes: seq<nat>): seq<Tuple> {
    if sizes == [] then [[]] else ExtendAll(Product(sizes[..|sizes| - 1]), sizes[|sizes| - 1])
  }

  predicate Increasing(t: Tuple) { forall i :: 0 < i < |t| ==> t[i - 1] < t[i] }

  function OnlyIncreasing(ts: seq<Tuple>): seq<Tuple> {
    if ts == [] then []
    else
      var init := OnlyIncreasing(ts[..|ts| - 1]);
      if Increasing(ts[|ts| - 1]) then init + [ts[|ts| - 1]] else init
  }

  function TuplesOf(sizes: seq<nat>, increasing: bool): seq<Tuple> {
    if increasing then OnlyIncreasing(Product(sizes)) else Product(sizes)
  }

  // ----- the loops -----

  method Extend(ts: seq<Tuple>, n: nat) returns (next: seq<Tuple>)
    ensures next == ExtendAll(ts, n)
  {
    next := [];
    for k := 0 to |ts|
      invariant next == ExtendAll(ts[..k], n)
    {
      assert ts[..k + 1][..k] == ts[..k];
      ghost var before := next;
      for i := 0 to n
        invariant next == before + Row(ts[k], i)
      {
        next := next + [ts[k] + [i]];
        assert Row(ts[k], i + 1) == Row(ts[k], i) + [ts[k] + [i]];
      }
    }
    assert ts[..|ts|] == ts;
  }

  method IsIncreasing(t: Tuple) returns (ok: bool)
    ensures ok <==> Increasing(t)
  {
    ok := true;
    var i := 1;
    while i < |t|
      invariant 1 <= i
      invariant ok <==> forall j :: 0 < j < i && j < |t| ==> t[j - 1] < t[j]
    {
      if !(t[i - 1] < t[i]) { ok := false; }
      i := i + 1;
    }
  }

  method IndexTuples(sizes: seq<nat>, increasing: bool) returns (tuples: seq<Tuple>)
    ensures tuples == TuplesOf(sizes, increasing)
  {
    tuples := [[]];
    for p := 0 to |sizes|
      invariant tuples == Product(sizes[..p])
    {
      assert sizes[..p + 1][..p] == sizes[..p];
      tuples := Extend(tuples, sizes[p]);
    }
    assert sizes[..|sizes|] == sizes;
    if increasing {
      var kept: seq<Tuple> := [];
      for k := 0 to |tuples|
        invariant kept == OnlyIncreasing(tuples[..k])
      {
        assert tuples[..k + 1][..k] == tuples[..k];
        var ok := IsIncreasing(tuples[k]);
        if ok { kept := kept + [tuples[k]]; }
      }
      assert tuples[..|tuples|] == tuples;
      tuples := kept;
    }
  }

  // ----- what they list -----

  /** One index below its size in every slot. */
  predicate InBounds(t: Tuple, sizes: seq<nat>) {
    |t| == |sizes| && forall i :: 0 <= i < |t| ==> t[i] < sizes[i]
  }

  ghost predicate NoDuplicates(ts: seq<Tuple>) { forall i, j :: 0 <= i < j < |ts| ==> ts[i] != ts[j] }

  lemma {:induction false} ExtendMember(ts: seq<Tuple>, n: nat, u: Tuple)
    ensures u in ExtendAll(ts, n) <==> |u| > 0 && u[..|u| - 1] in ts && u[|u| - 1] < n
  {
    if ts != [] {
      var last, row := ts[|ts| - 1], Row(ts[|ts| - 1], n);
      ExtendMember(ts[..|ts| - 1], n, u);
      assert u in row <==> |u| > 0 && u[..|u| - 1] == last && u[|u| - 1] < n by {
        if |u| > 0 && u[..|u| - 1] == last && u[|u| - 1] < n {
          assert row[u[|u| - 1]] == u;
        }
      }
    }
  }

  lemma {:induction false} ExtendDistinct(ts: seq<Tuple>, n: nat)
    requires NoDuplicates(ts)
    ensures NoDuplicates(ExtendAll(ts, n))
  {
    if ts != [] {
      var k := |ts| - 1;
      var init, row := ExtendAll(ts[..k], n), Row(ts[k], n);
      ExtendDistinct(ts[..k], n);
      forall i | 0 <= i < n ensures row[i] !in init && row[i][|row[i]| - 1] == i {
        ExtendMember(ts[..k], n, row[i]);
        assert row[i][..|row[i]| - 1] == ts[k];
      }
    }
  }

  lemma BoundsLast(t: Tuple, sizes: seq<nat>)
    requires sizes != [] && |t| > 0
    ensures InBounds(t, sizes) <==> InBounds(t[..|t| - 1], sizes[..|sizes| - 1]) && t[|t| - 1] < sizes[|sizes| - 1]
  {
    var n := |sizes| - 1;
    if InBounds(t[..|t| - 1], sizes[..n]) && t[|t| - 1] < sizes[n] {
      forall i | 0 <= i < |t| ensures t[i] < sizes[i] {
        if i < n { assert t[..|t| - 1][i] < sizes[..n][i]; }
      }
    }
    if InBounds(t, sizes) {
      forall i | 0 <= i < n ensures t[..|t| - 1][i] < sizes[..n][i] { assert t[i] < sizes[i]; }
    }
  }

  lemma {:induction false} ProductExact(sizes: seq<nat>)
    ensures NoDuplicates(Product(sizes))
    ensures forall t :: t in Product(sizes) <==> InBounds(t, sizes)
  {
    hide ExtendAll, NoDuplicates;
    if sizes == [] {
      assert NoDuplicates([[]]) by { SingleDistinct(); }
    } else {
      var n := |sizes| - 1;
      ProductExact(sizes[..n]);
      ExtendDistinct(Product(sizes[..n]), sizes[n]);
      forall t ensures t in Product(sizes) <==> InBounds(t, sizes) {
        ExtendMember(Product(sizes[..n]), sizes[n], t);
        if |t| > 0 { BoundsLast(t, sizes); }
      }
    }
  }

  lemma SingleDistinct()
    ensures NoDuplicates([[]])
  {
  }

  lemma {:induction false} FilterExact(ts: seq<Tuple>, t: Tuple)
    ensures t in OnlyIncreasing(ts) <==> t in ts && Increasing(t)
    ensures NoDuplicates(ts) ==> NoDuplicates(OnlyIncreasing(ts))
  {
    if ts != [] {
      var k := |ts| - 1;
      FilterExact(ts[..k], t);
      FilterExact(ts[..k], ts[k]);
    }
  }

  /** The enumeration lists exactly the tuples below the sizes, restricted on
      request to the strictly increasing ones, each once. */
  lemma TuplesExact(sizes: seq<nat>, increasing: bool)
    ensures NoDuplicates(TuplesOf(sizes, increasing))
    ensures forall t :: t in TuplesOf(sizes, increasing) <==> InBounds(t, sizes) && (increasing ==> Increasing(t))
  {
    ProductExact(sizes);
    forall t { FilterExact(Product(sizes), t); }
    FilterExact(Product(sizes), []);
  }
}
