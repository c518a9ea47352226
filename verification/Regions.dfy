/** Region statements, inheritance, and the flattening of inherited statements. */
module Regions {
  import opened Linear
  import opened Formulas
  import opened Saturation
  import opened Conditions
  import opened PartialTruth

  datatype Stmt =
    | Select(cond: Cond)
    | Reject(cond: Cond)
    | Trigger(cond: Cond)
    | Inherit(region: nat)
    | Bin(cond: Cond)
    | BinCond(cond: Cond)
    | NonMembership(inFragment: bool)

  /** Every region as the list of its own statements. */
  type Unit = seq<seq<Stmt>>

  /** What a statement other than `inherit` contributes to its region. */
  function OwnFormula(table: Table, s: Stmt): Option<Formula>
    requires !s.Inherit?
  {
    match s
    case Select(c) => Some(Encode(table, c))
    case Trigger(c) => Some(Encode(table, c))
    case Reject(c) => Some(Encode(table, Not(c)))
    case Bin(_) => None
    case BinCond(_) => None
    case NonMembership(inFragment) => if inFragment then None else Some(Unknown(0))
  }

  /** The regions that are not being encoded yet: the termination measure of
      every recursion through `inherit`. */
  function Fresh(regions: Unit, stack: seq<nat>): set<nat> {
    set i | 0 <= i < |regions| && i !in stack
  }

  lemma PushShrinks(regions: Unit, stack: seq<nat>, r: nat)
    requires r < |regions| && r !in stack
    ensures |Fresh(regions, stack + [r])| < |Fresh(regions, stack)|
  {
    assert Fresh(regions, stack + [r]) == Fresh(regions, stack) - {r};
  }

  // ----- the recursive encoding -----

  function EncodeRegion(table: Table, regions: Unit, r: nat, stack: seq<nat>): Formula
    decreases |Fresh(regions, stack)|, 0
  {
    if r >= |regions| || r in stack then Unknown(0)
    else
      PushShrinks(regions, stack, r);
      FAnd(EncodeStmts(table, regions, regions[r], stack + [r]))
  }

  function EncodeStmts(table: Table, regions: Unit, stmts: seq<Stmt>, stack: seq<nat>): seq<Formula>
    decreases |Fresh(regions, stack)|, |stmts|
  {
    if stmts == [] then []
    else
      EncodeStmts(table, regions, stmts[..|stmts| - 1], stack)
      + EncodeStmt(table, regions, stmts[|stmts| - 1], stack)
  }

  function EncodeStmt(table: Table, regions: Unit, s: Stmt, stack: seq<nat>): seq<Formula>
    decreases |Fresh(regions, stack)|, 1, 0
  {
    match s
    case Inherit(r) => [EncodeRegion(table, regions, r, stack)]
    case _ =>
      match OwnFormula(table, s)
      case None => []
      case Some(f) => [f]
  }

  // ----- flattening -----

  const OPAQUE := NonMembership(false)

  predicate IsBin(s: Stmt) { s.Bin? || s.BinCond? }

  /** Bins belong to the region that declares them and are not inherited. */
  function Inherited(stmts: seq<Stmt>): seq<Stmt> {
    if stmts == [] then []
    else
      var init := Inherited(stmts[..|stmts| - 1]);
      if IsBin(stmts[|stmts| - 1]) then init else init + [stmts[|stmts| - 1]]
  }

  function Flattened(regions: Unit, stmts: seq<Stmt>, stack: seq<nat>): seq<Stmt>
    decreases |Fresh(regions, stack)|, |stmts|
  {
    if stmts == [] then []
    else
      Flattened(regions, stmts[..|stmts| - 1], stack) + FlattenedStmt(regions, stmts[|stmts| - 1], stack)
  }

  function FlattenedStmt(regions: Unit, s: Stmt, stack: seq<nat>): seq<Stmt>
    decreases |Fresh(regions, stack)|, 1, 0
  {
    if !s.Inherit? then [s]
    else if s.region >= |regions| || s.region in stack then [OPAQUE]
    else
      PushShrinks(regions, stack, s.region);
      Flattened(regions, Inherited(regions[s.region]), stack + [s.region])
  }

  /** The working state of `flatten_inherits`: the regions being expanded and the
      statements emitted so far. */
  class Flattener {
    const regions: Unit
    var stack: seq<nat>
    var out: seq<Stmt>

    constructor (regions: Unit, root: nat)
      ensures this.regions == regions && stack == [root] && out == []
    {
      this.regions := regions;
      stack := [root];
      out := [];
    }

    method Flatten(stmts: seq<Stmt>)
      modifies this
      ensures stack == old(stack)
      ensures out == old(out) + Flattened(regions, stmts, old(stack))
      decreases |Fresh(regions, stack)|, |stmts|
    {
      for i := 0 to |stmts|
        invariant stack == old(stack)
        invariant out == old(out) + Flattened(regions, stmts[..i], old(stack))
      {
        assert stmts[..i + 1][..i] == stmts[..i];
        var stmt := stmts[i];
        if !stmt.Inherit? {
          out := out + [stmt];
        } else if stmt.region >= |regions| {
          out := out + [OPAQUE];
        } else if stmt.region in stack {
          out := out + [OPAQUE];
        } else {
          var inherited := DropBins(regions[stmt.region]);
          PushShrinks(regions, stack, stmt.region);
          stack := stack + [stmt.region];
          Flatten(inherited);
          stack := stack[..|stack| - 1];
        }
      }
      assert stmts[..|stmts|] == stmts;
    }
  }

  method DropBins(stmts: seq<Stmt>) returns (inherited: seq<Stmt>)
    ensures inherited == Inherited(stmts)
  {
    inherited := [];
    for i := 0 to |stmts|
      invariant inherited == Inherited(stmts[..i])
    {
      assert stmts[..i + 1][..i] == stmts[..i];
      if !IsBin(stmts[i]) { inherited := inherited + [stmts[i]]; }
    }
    assert stmts[..|stmts|] == stmts;
  }

  /** `encode_unit` on one region: flatten, then encode statement by statement. */
  method EncodeUnitRegion(table: Table, regions: Unit, r: nat) returns (stmts: seq<Stmt>, parts: seq<Formula>)
    requires r < |regions|
    ensures stmts == Flattened(regions, regions[r], [r]) && Plain(stmts)
    ensures parts == FlatFormulas(table, stmts)
  {
    hide Encode, FAnd;
    var flattener := new Flattener(regions, r);
    flattener.Flatten(regions[r]);
    stmts := flattener.out;
    parts := [];
    FlattenedHasNoInherit(regions, regions[r], [r]);
    for i := 0 to |stmts|
      invariant Plain(stmts[..i])
      invariant parts == FlatFormulas(table, stmts[..i])
    {
      assert stmts[..i + 1][..i] == stmts[..i];
      match OwnFormula(table, stmts[i]) {
        case None =>
        case Some(f) => parts := parts + [FAnd([f])];
      }
    }
    assert stmts[..|stmts|] == stmts;
  }

  ghost predicate Plain(stmts: seq<Stmt>) { forall i :: 0 <= i < |stmts| ==> !stmts[i].Inherit? }

  lemma {:induction false} FlattenedHasNoInherit(regions: Unit, stmts: seq<Stmt>, stack: seq<nat>)
    ensures Plain(Flattened(regions, stmts, stack))
    decreases |Fresh(regions, stack)|, |stmts|
  {
    if stmts != [] {
      var n := |stmts| - 1;
      FlattenedHasNoInherit(regions, stmts[..n], stack);
      var s := stmts[n];
      if s.Inherit? && s.region < |regions| && s.region !in stack {
        PushShrinks(regions, stack, s.region);
        FlattenedHasNoInherit(regions, Inherited(regions[s.region]), stack + [s.region]);
      }
    }
  }

  /** The formulas of the flattened membership statements, each encoded alone. */
  function FlatFormulas(table: Table, stmts: seq<Stmt>): seq<Formula>
    requires Plain(stmts)
  {
    if stmts == [] then []
    else
      var n := |stmts| - 1;
      assert Plain(stmts[..n]);
      match OwnFormula(table, stmts[n])
      case None => FlatFormulas(table, stmts[..n])
      case Some(f) => FlatFormulas(table, stmts[..n]) + [FAnd([f])]
  }

  // ----- flattening refines the recursive encoding -----

  lemma {:induction false} FlatConcat(table: Table, a: seq<Stmt>, b: seq<Stmt>)
    requires Plain(a) && Plain(b)
    ensures Plain(a + b) && FlatFormulas(table, a + b) == FlatFormulas(table, a) + FlatFormulas(table, b)
  {
    hide OwnFormula;
    if b == [] {
      assert a + b == a;
    } else {
      var n := |b| - 1;
      assert Plain(b[..n]);
      FlatConcat(table, a, b[..n]);
      assert (a + b)[..|a + b| - 1] == a + b[..n];
    }
  }

  lemma SingleAnd(f: Formula, p: Polarity, v: Valuation)
    ensures Sat(FAnd([f]), p, v) <==> Sat(f, p, v)
  {
    FAndMeans([f], p, v);
    assert [f][0] == f;
  }

  lemma {:induction false} InheritedFormulas(table: Table, regions: Unit, stmts: seq<Stmt>, stack: seq<nat>)
    ensures EncodeStmts(table, regions, Inherited(stmts), stack) == EncodeStmts(table, regions, stmts, stack)
  {
    hide EncodeRegion;
    if stmts != [] {
      var n := |stmts| - 1;
      InheritedFormulas(table, regions, stmts[..n], stack);
      if !IsBin(stmts[n]) {
        assert Inherited(stmts)[..|Inherited(stmts)| - 1] == Inherited(stmts[..n]);
      }
    }
  }

  lemma FlattenedSingle(regions: Unit, s: Stmt, stack: seq<nat>)
    ensures Plain(FlattenedStmt(regions, s, stack))
  {
    if s.Inherit? && s.region < |regions| && s.region !in stack {
      FlattenedHasNoInherit(regions, Inherited(regions[s.region]), stack + [s.region]);
    }
  }

  lemma {:induction false} StmtRefines(table: Table, regions: Unit, s: Stmt, stack: seq<nat>, p: Polarity, v: Valuation)
    ensures Plain(FlattenedStmt(regions, s, stack))
    ensures AllSat(FlatFormulas(table, FlattenedStmt(regions, s, stack)), p, v)
      <==> AllSat(EncodeStmt(table, regions, s, stack), p, v)
    decreases |Fresh(regions, stack)|, 1, 0
  {
    hide Encode, FAnd, Project;
    FlattenedSingle(regions, s, stack);
    if s.Inherit? && s.region < |regions| && s.region !in stack {
      var inner, deeper := regions[s.region], stack + [s.region];
      PushShrinks(regions, stack, s.region);
      StmtsRefine(table, regions, Inherited(inner), deeper, p, v);
      InheritedFormulas(table, regions, inner, deeper);
      FAndMeans(EncodeStmts(table, regions, inner, deeper), p, v);
      assert EncodeStmt(table, regions, s, stack)[0] == FAnd(EncodeStmts(table, regions, inner, deeper));
    } else {
      PlainStmtRefines(table, regions, s, stack, p, v);
    }
  }

  lemma PlainStmtRefines(table: Table, regions: Unit, s: Stmt, stack: seq<nat>, p: Polarity, v: Valuation)
    requires s.Inherit? ==> s.region >= |regions| || s.region in stack
    ensures Plain(FlattenedStmt(regions, s, stack))
    ensures AllSat(FlatFormulas(table, FlattenedStmt(regions, s, stack)), p, v)
      <==> AllSat(EncodeStmt(table, regions, s, stack), p, v)
  {
    hide Encode, FAnd, Project;
    var flat := if s.Inherit? then OPAQUE else s;
    assert FlattenedStmt(regions, s, stack) == [flat];
    assert [flat][..0] == [] && FlatFormulas(table, []) == [];
    match OwnFormula(table, flat)
    case None =>
    case Some(f) =>
      SingleAnd(f, p, v);
      var one := FlatFormulas(table, [flat]);
      assert one == [FAnd([f])];
      assert one[0] == FAnd([f]);
      assert EncodeStmt(table, regions, s, stack) == [f];
      assert [f][0] == f;
  }

  lemma {:induction false} StmtsRefine(table: Table, regions: Unit, stmts: seq<Stmt>, stack: seq<nat>, p: Polarity, v: Valuation)
    ensures Plain(Flattened(regions, stmts, stack))
    ensures AllSat(FlatFormulas(table, Flattened(regions, stmts, stack)), p, v)
      <==> AllSat(EncodeStmts(table, regions, stmts, stack), p, v)
    decreases |Fresh(regions, stack)|, |stmts|
  {
    hide Encode, FAnd, Project, FlattenedStmt, EncodeStmt, OwnFormula;
    FlattenedHasNoInherit(regions, stmts, stack);
    if stmts != [] {
      var n := |stmts| - 1;
      var init, last := Flattened(regions, stmts[..n], stack), FlattenedStmt(regions, stmts[n], stack);
      StmtsRefine(table, regions, stmts[..n], stack, p, v);
      StmtRefines(table, regions, stmts[n], stack, p, v);
      FlatConcat(table, init, last);
      AllSatConcat(FlatFormulas(table, init), FlatFormulas(table, last), p, v);
      AllSatConcat(EncodeStmts(table, regions, stmts[..n], stack), EncodeStmt(table, regions, stmts[n], stack), p, v);
    } else {
      assert FlatFormulas(table, []) == [];
    }
  }

  /** Encoding the flattened statements one by one says, in either projection,
      exactly what encoding the region recursively says. */
  lemma FlatteningRefines(table: Table, regions: Unit, r: nat, p: Polarity, v: Valuation)
    requires r < |regions|
    ensures Plain(Flattened(regions, regions[r], [r]))
    ensures AllSat(FlatFormulas(table, Flattened(regions, regions[r], [r])), p, v)
      <==> Sat(EncodeRegion(table, regions, r, []), p, v)
  {
    hide FAnd, Project;
    StmtsRefine(table, regions, regions[r], [r], p, v);
    assert [] + [r] == [r];
    FAndMeans(EncodeStmts(table, regions, regions[r], [r]), p, v);
  }

  // ----- the interpreter's reading of a region -----

  /** The condition that a region's membership statements state, as the
      interpreter folds it: Kleene conjunction, with `reject` negating. */
  function RegionCond(regions: Unit, r: nat, stack: seq<nat>): Cond
    decreases |Fresh(regions, stack)|, 0
  {
    if r >= |regions| || r in stack then Outside(0)
    else
      PushShrinks(regions, stack, r);
      All(StmtConds(regions, regions[r], stack + [r]))
  }

  function StmtConds(regions: Unit, stmts: seq<Stmt>, stack: seq<nat>): seq<Cond>
    decreases |Fresh(regions, stack)|, |stmts|
  {
    if stmts == [] then []
    else StmtConds(regions, stmts[..|stmts| - 1], stack) + StmtCond(regions, stmts[|stmts| - 1], stack)
  }

  function StmtCond(regions: Unit, s: Stmt, stack: seq<nat>): seq<Cond>
    decreases |Fresh(regions, stack)|, 1, 0
  {
    match s
    case Select(c) => [c]
    case Trigger(c) => [c]
    case Reject(c) => [Not(c)]
    case Inherit(r) => [RegionCond(regions, r, stack)]
    case Bin(_) => []
    case BinCond(_) => []
    case NonMembership(inFragment) => if inFragment then [] else [Outside(0)]
  }

  function RegionTruth(table: Table, ev: Event, regions: Unit, r: nat): Tri {
    Truth(table, ev, RegionCond(regions, r, []))
  }

  lemma EncodeAllConcat(table: Table, a: seq<Cond>, b: seq<Cond>)
    ensures EncodeAll(table, a + b) == EncodeAll(table, a) + EncodeAll(table, b)
  {
  }

  /** The recursive region encoding is the encoding of the region's condition. */
  lemma {:induction false} RegionIsCond(table: Table, regions: Unit, r: nat, stack: seq<nat>)
    ensures EncodeRegion(table, regions, r, stack) == Encode(table, RegionCond(regions, r, stack))
    decreases |Fresh(regions, stack)|, 0
  {
    hide FAnd;
    if r < |regions| && r !in stack {
      PushShrinks(regions, stack, r);
      StmtsAreConds(table, regions, regions[r], stack + [r]);
    }
  }

  lemma {:induction false} StmtsAreConds(table: Table, regions: Unit, stmts: seq<Stmt>, stack: seq<nat>)
    ensures EncodeStmts(table, regions, stmts, stack) == EncodeAll(table, StmtConds(regions, stmts, stack))
    decreases |Fresh(regions, stack)|, |stmts|
  {
    hide Encode, EncodeRegion, RegionCond;
    if stmts != [] {
      var n := |stmts| - 1;
      StmtsAreConds(table, regions, stmts[..n], stack);
      EncodeAllConcat(table, StmtConds(regions, stmts[..n], stack), StmtCond(regions, stmts[n], stack));
      if stmts[n].Inherit? { RegionIsCond(table, regions, stmts[n].region, stack); }
      NonMembershipUnknown(table);
    }
  }

  lemma NonMembershipUnknown(table: Table)
    ensures Encode(table, Outside(0)) == Unknown(0)
  {
  }

  predicate HasCond(s: Stmt) { s.Select? || s.Reject? || s.Trigger? }

  /** Every condition of every region is compiled, and the event fits it. */
  ghost predicate UnitFits(table: Table, ev: Event, regions: Unit) {
    forall r, i :: 0 <= r < |regions| && 0 <= i < |regions[r]| && HasCond(regions[r][i]) ==>
      Compiled(table, regions[r][i].cond) && Fits(table, ev, regions[r][i].cond)
  }

  ghost predicate StmtsFit(table: Table, ev: Event, stmts: seq<Stmt>) {
    forall i :: 0 <= i < |stmts| && HasCond(stmts[i]) ==> Compiled(table, stmts[i].cond) && Fits(table, ev, stmts[i].cond)
  }

  ghost predicate CondFits(table: Table, ev: Event, c: Cond) { Compiled(table, c) && Fits(table, ev, c) }

  lemma {:induction false} RegionCondFits(table: Table, ev: Event, regions: Unit, r: nat, stack: seq<nat>)
    requires UnitFits(table, ev, regions)
    ensures CondFits(table, ev, RegionCond(regions, r, stack))
    decreases |Fresh(regions, stack)|, 0
  {
    if r < |regions| && r !in stack {
      PushShrinks(regions, stack, r);
      StmtCondsFit(table, ev, regions, regions[r], stack + [r]);
    }
  }

  lemma {:induction false} StmtCondsFit(table: Table, ev: Event, regions: Unit, stmts: seq<Stmt>, stack: seq<nat>)
    requires UnitFits(table, ev, regions) && StmtsFit(table, ev, stmts)
    ensures forall c | c in StmtConds(regions, stmts, stack) :: CondFits(table, ev, c)
    decreases |Fresh(regions, stack)|, |stmts|
  {
    hide Truth, RegionCond;
    if stmts != [] {
      var n := |stmts| - 1;
      StmtCondsFit(table, ev, regions, stmts[..n], stack);
      if stmts[n].Inherit? { RegionCondFits(table, ev, regions, stmts[n].region, stack); }
    }
  }

  /** What the analysis asserts of a region bounds its events from both sides:
      an event in the region satisfies the over-projection of every flattened
      statement, and one that satisfies every under-projection is in it. */
  lemma RegionSound(table: Table, ev: Event, regions: Unit, r: nat)
    requires table.Valid() && ValidEvent(table, ev) && UnitFits(table, ev, regions)
    requires r < |regions|
    ensures Plain(Flattened(regions, regions[r], [r]))
    ensures RegionTruth(table, ev, regions, r) == T
      ==> AllSat(FlatFormulas(table, Flattened(regions, regions[r], [r])), OverSide, View(table, ev))
    ensures AllSat(FlatFormulas(table, Flattened(regions, regions[r], [r])), UnderSide, View(table, ev))
      ==> RegionTruth(table, ev, regions, r) == T
  {
    hide Encode, Truth, FAnd, Project, EncodeRegion, RegionCond, Flattened, FlatFormulas;
    var v := View(table, ev);
    FlatteningRefines(table, regions, r, OverSide, v);
    FlatteningRefines(table, regions, r, UnderSide, v);
    RegionIsCond(table, regions, r, []);
    RegionCondFits(table, ev, regions, r, []);
    EncodeAgrees(table, ev, RegionCond(regions, r, []));
  }
}
