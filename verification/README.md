# Region cuts, proved

The analyzer decides relations between the event regions of a physics analysis: two regions are disjoint, one lies
inside the other, a region is empty, bins partition a region. This project models the C++ port under `cpp/libs` and
proves that what it claims is true of events, from the first compiled comparison to the last verdict.

How the pieces fit, each in a module of its own:

* `Linear`, `Formulas`: linear atoms in normal form and the polarity-typed formulas with Unknown and Dual leaves.
* `Constraints`, `FourierMotzkin`, `Saturation`, `Certificates`, `Search`, `BoundCertificates`: the certifier. The
  replay kernel is sound, the elimination is a decision procedure for mixed strict and non-strict systems, and the
  search and the kernel never disagree.
* `Intervals`, `IntervalAgreement`: the interval fast path, and that the kernel accepts what it reports.
* `Conditions`, `Negation`, `PartialTruth`, `Exactness`, `NegationLimits`: conditions over partial events with three
  truth values, their encoding, `negate`, what the encoding means construct by construct, and exactly where negation is
  right.
* `LinearForms`, `Comparisons`, `ComparisonTruth`, `ComparisonLimits`: compiled comparisons against the interpreter's
  arithmetic, and that the events they speak of exist.
* `ShownData`, `Cuts`, `CutLeaves`: a comparison with all its guards as a condition, what its atoms show of the data it
  reads, and its agreement with the interpreter where data are missing.
* `Quantifiers`, `Tuples`, `Composite`: bounded expansion of reducers and of object combinations.
* `Regions`, `Solving`, `Verdicts`, `EventVerdicts`: inheritance, an untrusted solver behind an assertion stack, and
  verdicts about events.
* `CutRegions`: regions whose conditions are comparisons, from the interpreter's arithmetic to the verdict.
* `Collections`, `ElementPredicates`, `ElementInstances`, `Axioms`, `AxiomStrength`, `AxiomEmission`, `Reconcile`: derived
  collections, filter predicates, the size, order, presence and filter axioms, that they are true of events, what they
  force of a valuation, the loop that emits them, and certified comparisons of filtered collections.
* `Numerals`, `JsonText`, `JsonParse`, `JsonGrammar`, `Bundles`, `BundleFiles`, `BundleReader`, `BundleFormat`: the
  portable combine bundle, its independent replay, and its JSON file: the parser accepts exactly the JSON grammar, what is
  printed is read back, and every part is found under its name.
* `Calendar`: day numbers, dates and the packed time word.

Exact rationals are `real`. The solver is an arbitrary oracle: it may answer anything at any time, and a claim that
was certified does not depend on it. A claim made with certification off holds for an honest solver only, and says so
in its contract. An event gives every quantity a value, or leaves it absent; an absent datum that the interpreter reads
softly makes a comparison false, one it reads hard makes it Unknown (`reimplementation/README.md:79-85`), and
`and`, `or`, `not` are Kleene's. A formula agrees with a condition when its over-projection keeps every event on which
the condition is not False, and its under-projection claims no event on which it is not True.

## Where the code falls short of its contract

Each of these has the exact condition under which the code is right, and the first six a lemma at a named table and event.

* Negating `min(f, s) < 5` over a hard and a soft datum loses the event where neither has a value, because falsity then
  forces a datum it need not have (`NegationLimits.MinimumLosesEvent`, `NegationLimits.LeafNegationExact`).
* Negating `s - s < 1` claims an event that leaves `s` unreadable, because the folded atom no longer shows the datum
  (`NegationLimits.CancelledClaimsEvent`).
* A ternary whose guard is unreadable and whose branches are both true is True for the interpreter and may be lost by
  the encoding (`NegationLimits.TernaryLosesEvent`, `NegationLimits.TernaryExact`; under negations and connectives
  `NegationLimits.TernaryAgreesExact`).
* An absolute value against a negative bound folds to a guarded constant without looking at the operand:
  `|q / 0| > -1` is claimed though the operand has no value (`ComparisonLimits.AbsoluteOfNothing`,
  `ComparisonTruth.NegativeBoundExact`; in filter predicates `ElementPredicates.ElementAxiomFails`,
  `ElementPredicates.AbsPredExact`).
* `min` and `max` where one argument decides do not look at the others: `min(q, q / 0) < 5` is claimed
  (`ComparisonLimits.MinimumOfNothing`, `ComparisonTruth.ExtremumExact`).
* Rejecting `s * s < 5` claims an event that leaves `s` unreadable: the product is interned as one softly absent value
  (`CutRegions.SquareClaimsEvent`, `CutRegions.CutNegationExact`).
* Packing a date loses information outside 1995 to 2058 (`Calendar.PackInvertible`).
* A bundle with a numeral of more than 4096 digits is printed and then refused by the reader
  (`Numerals.ReprRoundTrip`, `BundleReader.FileRoundTrip`).

## Model

| member | source | states |
|---|---|---|
| `Linear.Make` | cpp/libs/formula/src/lin.cpp:7-21 | the atom constructor ends in the normal form (ascending quantities, no zero coefficient) and holds of exactly the valuations of the terms it was given |
| `Linear.NormalizeSound` | cpp/libs/formula/src/lin.cpp:7-21 | merging and dropping zeros keeps every coefficient and every value |
| `Linear.NormalUnique` | cpp/libs/formula/src/lin.cpp:7-21 | two normal forms with the same coefficients are the same list, so the form is canonical |
| `Formulas.QNotFlips` | cpp/libs/formula/src/formula.cpp:173-195 | negation of an Unknown-free formula is exact |
| `Formulas.FNotInvolutive` | cpp/libs/formula/src/formula.cpp:41-67 | negating twice gives back the same formula, Unknown and Dual leaves included |
| `Formulas.NegationSwapsPolarity` | cpp/libs/formula/src/formula.cpp:41-117 | the over-projection of a negation is literally the negated under-projection, and conversely |
| `Formulas.ExactProjectionsAgree` | cpp/libs/formula/src/formula.cpp:69-117 | an exact formula has one projection |
| `Formulas.ProjectionsAreExtreme` | cpp/libs/formula/src/formula.cpp:88-117 | the over-projection holds iff some resolution of the Unknown and Dual leaves makes the formula true, the under-projection fails iff some resolution makes it false |
| `Formulas.UnderImpliesOver` | cpp/libs/formula/src/formula.cpp:88-117 | with ordered Duals the under-projection implies the over-projection |
| `Formulas.MakeAnd` | cpp/libs/formula/src/formula.cpp:227-241 | the folding, flattening conjunction means conjunction in both projections |
| `Formulas.MakeOr` | cpp/libs/formula/src/formula.cpp:243-257 | the folding, flattening disjunction means disjunction in both projections |
| `Constraints.CanonicalizeFaithful` | cpp/libs/certify/src/constraint.cpp:7-43 | the canonical `<=`/`<` constraint of an atom holds of the same valuations |
| `Constraints.FarkasSound` | cpp/libs/certify/src/constraint.cpp:45-82 | accepted multipliers mean that no valuation meets all the constraints |
| `Constraints.FarkasCancels` | cpp/libs/certify/src/constraint.cpp:45-82 | the accumulated coefficient map is all zero iff every quantity cancels in the weighted sum |
| `Constraints.CheckFarkas` | cpp/libs/certify/src/constraint.cpp:45-82 | the accumulating loop decides acceptance, and accepts only multipliers that leave the constraints without a common solution |
| `FourierMotzkin.SolveLeaf` | cpp/libs/certify/src/fm.cpp:75-161 | elimination terminates; Refuted carries multipliers that the kernel accepts, Fits means the mixed strict/non-strict system has a real solution, rebuilt through every eliminated variable, and it gives up only at a round, eliminating the least quantity again and again, that makes more rows than the cap |
| `FourierMotzkin.CombinationIsCompatibility` | cpp/libs/certify/src/fm.cpp:38-73 | a combined row holds iff the lower bound of one row is compatible with the upper bound of the other |
| `FourierMotzkin.ExtendSolution` | cpp/libs/certify/src/fm.cpp:75-161 | a solution of the rows after elimination extends to a value of the eliminated variable that meets every row |
| `Saturation.Saturate` | cpp/libs/certify/src/saturate.cpp:15-67 | the worklist loop equals left-to-right flattening of the conjunctive spine, with false recorded and `==` and `!=` split |
| `Saturation.SaturateMeaning` | cpp/libs/certify/src/saturate.cpp:15-67 | flattening keeps the meaning of the conjunction |
| `Saturation.SpineAllShape` | cpp/libs/certify/src/saturate.cpp:15-67 | nothing is left on the spine but disjunctions and atoms that are neither `==` nor `!=` |
| `Saturation.LeafMeaning` | cpp/libs/certify/src/saturate.cpp:84-94 | without disjunctions the collected constraints mean the conjunction |
| `Saturation.SplitMeaning` | cpp/libs/certify/src/saturate.cpp:69-106 | the children of the leftmost disjunction cover the conjunction exactly |
| `Certificates.ReplaySound` | cpp/libs/certify/src/lib.cpp:17-45 | a certificate tree that replays leaves the conjunction without a model |
| `Search.Searcher.constructor` | cpp/libs/certify/src/search.cpp:29-31 | a searcher starts with no branches spent |
| `Search.Searcher.Refute` | cpp/libs/certify/src/search.cpp:33-101 | a found tree replays at its depth, a satisfiable-branch answer means a model exists, a tree fits the budget and the counter has grown by its splits, and any other answer is the state of the first branch from the left that cannot be refuted, all before it refuted |
| `Search.Searcher.RefuteSplit` | cpp/libs/certify/src/search.cpp:84-100 | splitting on the leftmost disjunction refutes every child within the budget or stops at the first that it cannot refute |
| `Search.Searcher.RefuteLeaf` | cpp/libs/certify/src/search.cpp:48-82 | a refuted leaf yields a Farkas node that replays |
| `Search.CertifyUnsat` | cpp/libs/certify/src/lib.cpp:90-103 | the self-replay check never fails; a certificate means no model and keeps to the branch and width budgets; a refusal names the first branch that cannot be refuted and its reason; within the budget the answer is exact unless elimination fills in, which only a conjunction whose leaves can grow past the cap makes it do |
| `BoundCertificates.OpposedRefutes` | cpp/libs/certify/src/direct.cpp:44-89 | the two-multiplier vector of two opposed single-quantity bounds refutes iff the bounds conflict |
| `BoundCertificates.ConstructBounds` | cpp/libs/certify/src/direct.cpp:44-89 | a certificate is found iff there is a constant false, an impossible constraint or a conflicting pair of bounds, and it replays |
| `BoundCertificates.CertifyBounds` | cpp/libs/certify/src/lib.cpp:105-111 | a bound certificate means no model and is returned exactly where the scan finds one: the replay never turns it down |
| `Intervals.RefutationExact` | cpp/libs/analysis/src/interval.cpp:26-56 | two intervals refute each other iff no number lies in both |
| `Intervals.AddSpineMeaning` | cpp/libs/analysis/src/interval.cpp:84-139 | the map describes exactly the valuations of the single-quantity atoms on the spine |
| `Intervals.IntervalMap.AddOver` | cpp/libs/analysis/src/interval.cpp:80-139 | adding a cut updates the map and the falsified mark as the specification does |
| `Intervals.SummarySound` | cpp/libs/analysis/src/interval.cpp:80-139 | every valuation of a region lies in the map built from its cuts |
| `Intervals.DisjointWith` | cpp/libs/analysis/include/adl2/analysis/interval.hpp:174-197 | the first refuted shared quantity whose presence is pinned is reported, with its two bounds, and none is missed |
| `Intervals.SelfEmpty` | cpp/libs/analysis/src/interval.cpp:141-149 | a region is called empty iff a cut is constant-false or an interval is empty, and the reason given is right |
| `Intervals.AdmissibleExactly` | cpp/libs/analysis/src/interval.cpp:151-155 | of two maps that are not empty, an indicator is pinned iff it is at least one at every point of either map |
| `IntervalAgreement.RefutedPairConflicts` | cpp/libs/certify/src/direct.cpp:44-89 | two bounds on which the interval layer refutes are a conflict for the kernel, from their two atoms alone |
| `IntervalAgreement.CertifyIntervalPair` | cpp/libs/analysis/src/certify_bridge.cpp:153-226 | parts produced by the layer are always certified: the "certificate unavailable" branches are dead |
| `IntervalAgreement.IntervalPair` | cpp/libs/analysis/src/engine.cpp:381-426 | an interval verdict is given exactly where the layer refutes, is true of every valuation, and is always certified |
| `IntervalAgreement.LayerExactly` | cpp/libs/analysis/include/adl2/analysis/interval.hpp:174-197 | the layer refutes a pair iff no two points satisfy the regions' single-quantity cuts and agree on every quantity whose presence is settled |
| `Negation.FNotOfAnd` | cpp/libs/formula/src/formula.cpp:41-67 | De Morgan holds of the simplifying constructors as syntax |
| `Negation.ForcedByAllMember` | cpp/libs/formula/src/encode.cpp:609-625 | the data forced by a conjunction are those forced by every conjunct that is not an indicator |
| `Negation.DropMeans` | cpp/libs/formula/src/encode.cpp:564-588 | dropping "is absent" disjuncts changes nothing where the indicators read 1 |
| `Negation.DropKeeps` | cpp/libs/formula/src/encode.cpp:564-588 | dropping keeps a guarded formula a guarded formula with the same event data |
| `Negation.DropForces` | cpp/libs/formula/src/encode.cpp:564-625 | dropping never makes falsity force more data |
| `PartialTruth.NegateMeans` | cpp/libs/formula/src/encode.cpp:630-661 | the negation's over-projection asks for the data every false route reads and denies the under-projection; its under-projection asks for all event data and denies the over-projection |
| `PartialTruth.NegateAgrees` | cpp/libs/formula/src/encode.cpp:630-661 | negation turns agreement with a Kleene value into agreement with its negation |
| `PartialTruth.AndAgrees` | cpp/libs/formula/src/encode.cpp:758-768 | the folding conjunction agrees with Kleene conjunction |
| `PartialTruth.OrAgrees` | cpp/libs/formula/src/encode.cpp:769-773 | the folding disjunction agrees with Kleene disjunction |
| `PartialTruth.LeafAgrees` | cpp/libs/formula/src/encode.cpp:515-534 | a guarded comparison agrees with the partial interpreter whatever is absent |
| `PartialTruth.EncodeAgrees` | cpp/libs/formula/src/encode.cpp:758-812 | the encoding of any condition agrees with three-valued truth on every partial event, under arbitrarily nested negation, brackets and ternaries, undecided ternaries included where they survive |
| `PartialTruth.RejectSound` | cpp/libs/formula/src/encode.cpp:744-746 | rejecting a condition keeps every event on which it is False and claims no other |
| `Exactness.EncodeMeans` | cpp/libs/formula/src/encode.cpp:758-812 | what each projection of the encoding says of an event, construct by construct: conjunction is all of it, disjunction some, a double negation its argument, any other negation the denial, a ternary one of its branches |
| `Exactness.EncodeExact` | cpp/libs/formula/src/encode.cpp:630-812 | of a condition built from constants and exact leaves by conjunction, disjunction, negation and ternaries, on an event that has the event data it reads, either projection holds iff the condition is True |
| `NegationLimits.LeafNegationExact` | cpp/libs/formula/src/encode.cpp:515-661 | negating a guarded comparison is right on every event iff its atoms show every event datum it reads and, beside element properties without a size guard, its falsity forces no event datum |
| `NegationLimits.MinimumLosesEvent` | cpp/libs/formula/src/encode.cpp:1168-1199 | rejecting `min(f, s) < 5` loses the event where neither has a value |
| `NegationLimits.CancelledClaimsEvent` | cpp/libs/formula/src/encode.cpp:118-140 | rejecting `s - s < 1` claims an event that leaves it unreadable |
| `NegationLimits.TernaryExact` | cpp/libs/formula/src/encode.cpp:781-788 | a ternary keeps every True event iff its guard is readable, a branch is not True, the data that the guard's falsity forces are known, or the guard's over-projection holds |
| `NegationLimits.TernaryAgreesExact` | cpp/libs/formula/src/encode.cpp:781-788 | wherever a ternary stands its encoding agrees with the interpreter iff, when undecided, its over-projection keeps the event and what its truth forces is known |
| `NegationLimits.TernaryLosesEvent` | cpp/libs/formula/src/encode.cpp:781-788 | a ternary with an unreadable guard and two true branches loses an event the interpreter accepts |
| `Quantifiers.BuildDual` | cpp/libs/formula/src/encode.cpp:873-915 | the loops build the encoding of the upper and lower readings of the quantifier |
| `Quantifiers.ExpansionBrackets` | cpp/libs/formula/src/encode.cpp:873-944 | for every collection size the bounded expansion brackets the any/all reading, and that of an unindexed cut brackets both readings at once |
| `Quantifiers.ExpansionSides` | cpp/libs/formula/src/encode.cpp:873-944 | exactly when each side of an expansion is True, False or Unknown, for every collection size, in terms of the elements below the bound |
| `Quantifiers.ExpansionTight` | cpp/libs/formula/src/encode.cpp:873-944 | up to the bound the lower side is the any or all reading itself, and the upper side is False iff the reading is and no cut beyond the size could hold |
| `Quantifiers.EncodeStaticSlice` | cpp/libs/formula/src/encode.cpp:917-966 | a slice with two ends expands to one instance per element, up to the width cap |
| `Quantifiers.StaticSliceExact` | cpp/libs/formula/src/encode.cpp:946-966 | the static expansion has exactly the reading over the slice; neither 32-bit wrap-around nor the index cap can bite |
| `LinearForms.LinSound` | cpp/libs/formula/src/encode.cpp:1414-1563 | a linear form has a value exactly when everything it mentions is present, and then the expression's; a non-finite expression has none |
| `LinearForms.LinExactly` | cpp/libs/formula/src/encode.cpp:1414-1563 | an expression has a linear form iff it is linear, products with a constant side and quotients by a nonzero constant included, and is dismissed as non-finite iff a constant in it has no value |
| `Comparisons.AtomOfMeans` | cpp/libs/formula/src/encode.cpp:1349-1381 | floor and ceiling tightening of integer-valued sides against fractional bounds loses nothing |
| `Comparisons.AtomOfTightens` | cpp/libs/formula/src/encode.cpp:1349-1381 | over valuations that are not integral too, a fractional bound on an integer-valued side moves to the nearest integer that can meet it, and equality with it is false |
| `ComparisonTruth.RatioJudges` | cpp/libs/formula/src/encode.cpp:1235-1268 | a cleared ratio is true iff the ratio compares, and false at a zero denominator |
| `ComparisonTruth.AbsJudges` | cpp/libs/formula/src/encode.cpp:1270-1301 | an expanded absolute value is true iff it compares |
| `ComparisonTruth.NegativeBoundExact` | cpp/libs/formula/src/encode.cpp:1270-1277 | against a negative bound the guarded constant is right on an event iff no absolute value complies or present data give the operand a value |
| `ComparisonTruth.ExtremumJudges` | cpp/libs/formula/src/encode.cpp:1168-1199 | a `min`/`max` inequality is true iff it compares |
| `ComparisonTruth.ExtremumExact` | cpp/libs/formula/src/encode.cpp:1168-1199 | where one argument decides, the encoding is right on an event iff no argument without a value hides behind present data |
| `ComparisonTruth.PatternJudges` | cpp/libs/formula/src/encode.cpp:1157-1203 | every nonlinear shape against a constant brackets its comparison |
| `ComparisonTruth.CompareJudges` | cpp/libs/formula/src/encode.cpp:1126-1155 | a compiled comparison brackets the interpreter's verdict on every event with regular operands, and equals it when exact |
| `ComparisonTruth.BandJudges` | cpp/libs/formula/src/encode.cpp:1303-1333 | so does a compiled band |
| `ComparisonTruth.FloorsExactly` | cpp/libs/formula/src/encode.cpp:841-871 | the size guards of a comparison hold iff each collection is longer than every index that the comparison reads in it |
| `ComparisonLimits.EventsExist` | cpp/libs/formula/src/encode.cpp:1396-1412 | whatever the data of an event, there is one with those data whose opaque scalars have the values of their expressions, so the comparison theorems speak of every event |
| `ComparisonLimits.AbsoluteOfNothing` | cpp/libs/formula/src/encode.cpp:1270-1277 | at a given table and event `|q / 0| > -1` is false and its encoding is claimed |
| `ComparisonLimits.MinimumOfNothing` | cpp/libs/formula/src/encode.cpp:1168-1199 | at a given table and event `min(q, q / 0) < 5` is false and its encoding is claimed |
| `Cuts.CutJudges` | cpp/libs/formula/src/encode.cpp:814-871 | a comparison as the encoder leaves it, size guards included, keeps every event on which it is true and claims no other |
| `Cuts.CutWithin` | cpp/libs/formula/src/encode.cpp:536-562 | an encoded comparison, nested shapes included, shows no event datum that the comparison does not read |
| `Cuts.PresentAgrees` | cpp/libs/formula/src/encode.cpp:814-871 | with every event datum of a comparison present its encoding agrees with the interpreter: linear or not, exact or not, whatever element data are absent |
| `CutLeaves.ShownIsLeaf` | cpp/libs/formula/src/encode.cpp:841-871 | an encoded linear cut, ratio, absolute value, band, minimum or maximum is its atoms behind presence guards for all it reads and size guards for all it indexes |
| `CutLeaves.LeafTruthIsCutTruth` | cpp/libs/formula/src/encode.cpp:814-871 | taken apart so, a comparison has the interpreter's three-valued truth on every event |
| `CutLeaves.CutExactly` | cpp/libs/formula/src/encode.cpp:814-871 | either projection of a decided comparison holds iff the interpreter says True; left open are only two nonlinear sides, a nonlinear side against a term, and a minimum or maximum by equality |
| `CutLeaves.LinearCutTruth` | cpp/libs/formula/src/encode.cpp:1126-1138 | a linear cut with its size guards is its guarded leaf, compiled, with the comparison's three-valued truth on every event, a soft absence winning over a hard one |
| `CutLeaves.OverFormsCompiled` | cpp/libs/formula/src/encode.cpp:1126-1333 | linear cuts, cleared ratios, absolute values and their bands show only what they read and fold to a constant only where nothing needs a guard |
| `CutLeaves.SingleFormTransparent` | cpp/libs/formula/src/encode.cpp:1126-1333 | a linear cut, absolute value or band shows all that it reads iff no event datum cancels and element data without size guards leave no event datum forced alone |
| `CutLeaves.RatioTransparent` | cpp/libs/formula/src/encode.cpp:1235-1268 | a cleared ratio does iff every event datum survives in the denominator or in the cleared comparison, and element data without size guards leave none surviving in both alone |
| `CutLeaves.ExtremumTransparent` | cpp/libs/formula/src/encode.cpp:1168-1199 | a minimum or maximum over arguments that do not fold is compiled, and shows all that it reads iff every event datum survives in some argument and none is forced beside unguarded element data |
| `CutLeaves.TransparentAgrees` | cpp/libs/formula/src/encode.cpp:814-871 | a comparison that shows all that it reads agrees with the interpreter on every event, whatever is absent |
| `Tuples.IndexTuples` | cpp/libs/interp/src/eval.cpp:213-245 | the enumeration loops build the product, filtered to increasing tuples on request |
| `Tuples.TuplesExact` | cpp/libs/interp/src/eval.cpp:213-245 | they list exactly the tuples below the sizes, each once |
| `Composite.BinderIndexTuples` | cpp/libs/formula/src/encode.cpp:1604-1635 | exactly the index vectors below the bound, strictly increasing for a same-source disjoint product |
| `Composite.ExistenceHolds` | cpp/libs/formula/src/encode.cpp:1565-1602 | if a combination has a surviving tuple on an event, the expansion holds: the tuple is listed or some part exceeds the bound |
| `Composite.CombExistenceJudges` | cpp/libs/formula/src/encode.cpp:1565-1602 | the expanded count cut brackets the plain one on every event, for combinations and their projections |
| `Composite.TupleCutsMean` | cpp/libs/formula/src/encode.cpp:1637-1659 | a tuple's formula holds iff every index lies within its part and the over-projection of every readable cut holds of the tuple |
| `Composite.ExistenceMeans` | cpp/libs/formula/src/encode.cpp:1565-1609 | the expansion holds iff some part exceeds the bound or some index tuple, increasing where required, passes all readable cuts |
| `Composite.CombExistenceMeans` | cpp/libs/formula/src/encode.cpp:1565-1609 | the expanded count cut claims exactly the events whose count complies, and keeps those of them that have a part beyond the bound or a passing tuple |
| `Regions.Flattener.constructor` | cpp/libs/analysis/src/encode.cpp:325-326 | flattening starts with the region itself on the stack |
| `Regions.Flattener.Flatten` | cpp/libs/analysis/src/encode.cpp:102-135 | flattening appends the specified statements, restores the stack, and terminates on cyclic inheritance by the regions not on it |
| `Regions.EncodeUnitRegion` | cpp/libs/analysis/src/encode.cpp:312-366 | a region becomes its flattened membership statements, each encoded alone |
| `Regions.FlatteningRefines` | cpp/libs/formula/src/encode.cpp:723-756 | encoding the flattened statements one by one is equivalent, in either projection, to the recursive region encoding |
| `Regions.RegionIsCond` | cpp/libs/formula/src/encode.cpp:723-756 | the recursive region encoding is the encoding of one Kleene conjunction |
| `Regions.RegionSound` | cpp/libs/analysis/src/encode.cpp:312-366 | an event in the region satisfies every statement's over-projection, and one that satisfies every under-projection is in the region |
| `Solving.Solver.constructor` | cpp/libs/solver/src/subprocess.cpp:314-314 | a solver starts with one empty frame |
| `Solving.Solver.AssertAll` | cpp/libs/analysis/src/engine.cpp:251-255 | assertions join the top frame in order |
| `Solving.NameFormulas` | cpp/libs/analysis/src/certify_bridge.cpp:240-249 | the name table resolves to the last assertion of each name |
| `Solving.CertifyNamedFormulas` | cpp/libs/analysis/src/certify_bridge.cpp:229-277 | whoever reported the core, a certified flag means no valuation meets the query and the background; a core of asserted names that has no model and fits the budget is always certified, and a refusal names the first unknown name or where the search stopped |
| `Verdicts.Query` | cpp/libs/analysis/src/engine.cpp:439-489 | every query leaves the assertion stack as it found it, whatever the solver answers; a surviving refutation is true, and every convincing one survives |
| `Verdicts.NegatedUnderFlips` | cpp/libs/analysis/src/engine.cpp:267-274 | the disjunction of negated under-projections is the exact negation of their conjunction |
| `Verdicts.RegionSubset` | cpp/libs/analysis/src/engine.cpp:311-340 | a subset claim holds of every valuation of the background (overs of the one imply unders of the other), rests on a refutation, and follows from every convincing one |
| `Verdicts.PairVerdict` | cpp/libs/analysis/src/engine.cpp:381-510 | interval and solver disjointness and both inclusions are true of the background's valuations, independent of the solver once certified, and the verdict follows the layer and the solver's three answers |
| `Verdicts.PrecedesExactly` | cpp/libs/analysis/src/engine.cpp:434-436 | the queries' order is that of the report names: a prefix first, otherwise the first character that differs |
| `Verdicts.RegionEmptiness` | cpp/libs/analysis/src/lib.cpp:176-216 | a region proven empty selects no valuation of the background; the status follows the layer and the solver's answer |
| `Verdicts.BinsDisjoint` | cpp/libs/analysis/src/engine.cpp:1068-1096 | a proven bin pair has no common valuation in the region; every convincing refutation is a proof |
| `Verdicts.BinsDisjointByInterval` | cpp/libs/analysis/src/engine.cpp:1097-1110 | two bins are proven disjoint without a solver exactly where the layer refutes them, and then have no common valuation in the region |
| `Verdicts.BinCoverage` | cpp/libs/analysis/src/engine.cpp:1113-1149 | proven coverage puts every valuation of the region in some bin's under-projection; the status follows the solver's answer |
| `Verdicts.BinCheck` | cpp/libs/analysis/src/engine.cpp:1151-1180 | the count is that of the pairs claimed apart, each claim following its own answer and each true; it is complete if every pair is settled by whoever is asked |
| `EventVerdicts.StmtNameInjective` | cpp/libs/analysis/src/encode.cpp:359-360 | statement names identify their region and position |
| `EventVerdicts.BuildContexts` | cpp/libs/analysis/src/engine.cpp:88-97 | every region gets a context made of its flattened statements' projections |
| `EventVerdicts.AnalyzePair` | cpp/libs/analysis/src/engine.cpp:381-510 | the pair report is true of every admitted event and follows the layer and the solver's answers |
| `EventVerdicts.AnalyzePairs` | cpp/libs/analysis/src/lib.cpp:228-239 | every pair of regions gets one report, each true of every admitted event whatever the solver answers and each following what it answers; the solver ends grounded |
| `EventVerdicts.EmptyOnEvents` | cpp/libs/analysis/src/lib.cpp:176-216 | no event is in a region proven empty |
| `EventVerdicts.BinsPartition` | cpp/libs/analysis/src/engine.cpp:1151-1180 | with all pairs apart and coverage proven, every event of the region lies in exactly one bin |
| `CutRegions.CutNegationExact` | cpp/libs/formula/src/encode.cpp:630-661 | negating an exactly encoded comparison is right on an event iff an unreadable verdict shows a missing event datum and a false one has read all that falsity forces |
| `CutRegions.CutRegionSound` | cpp/libs/formula/src/encode.cpp:723-756 | of regions made of comparisons: an event that the interpreter's arithmetic puts in satisfies every flattened over-projection, and one that satisfies every under-projection is put in |
| `CutRegions.InterpretationExists` | cpp/libs/formula/src/encode.cpp:814-871 | every event whose data fit the comparisons has a reading by the interpreter, so these theorems are about all of them |
| `CutRegions.CutPairSound` | cpp/libs/analysis/src/engine.cpp:381-510 | a pair report about regions of comparisons is true of every event that the interpreter reads and the background holds of |
| `CutRegions.UnitOfCutsNormal` | cpp/libs/formula/src/encode.cpp:1126-1381 | every encoded comparison has its atoms in normal form, so the pipeline accepts regions of comparisons as they are |
| `CutRegions.SquareClaimsEvent` | cpp/libs/formula/src/encode.cpp:1205-1214 | rejecting `s * s < 5` claims an event that leaves s unreadable |
| `Collections.PtOrderedSound` | cpp/libs/sema/src/quantity.cpp:268-287 | what the table calls pT-ordered is in descending pT on every event |
| `Collections.PtOrderedExactly` | cpp/libs/sema/src/quantity.cpp:268-287 | a collection is called pT-ordered iff filters, slices and descending sorts by pT lead from a base list to it |
| `Collections.StableSortDescending` | cpp/libs/interp/src/eval.cpp:1400-1419 | a descending stable sort orders the objects that have the key and puts the others first |
| `Collections.ComboCount` | cpp/libs/interp/src/eval.cpp:1290-1361 | a combination and each of its projections have one object per surviving tuple |
| `Axioms.SubTrue` | cpp/libs/axioms/src/emit.cpp:235-245 | a filtered collection is no larger than its parent, on every event |
| `Axioms.UniTrue` | cpp/libs/axioms/src/emit.cpp:247-270 | a union is at least each part and at most their sum, repeated parts included |
| `Axioms.SzsliceTrue` | cpp/libs/axioms/src/emit.cpp:381-397 | a slice is bounded by its parent and by its width |
| `Axioms.SzpermTrue` | cpp/libs/axioms/src/emit.cpp:399-409 | sorting keeps the size |
| `Axioms.CombSizeTrue` | cpp/libs/axioms/src/emit.cpp:411-466 | the emitted size facts of combinations and projections are true of every event |
| `Axioms.OrdTrue` | cpp/libs/axioms/src/emit.cpp:149-189 | front, back and front-to-back order axioms are true of every event, with their presence and size guards |
| `Axioms.IdomTrue` | cpp/libs/axioms/src/emit.cpp:365-379 | an element of a filtered collection is dominated by its parent's element of the same index |
| `AxiomEmission.Emit.Ord` | cpp/libs/axioms/src/emit.cpp:149-189 | appends exactly the order axioms due for the pairs of the list |
| `Axioms.EpredTrue` | cpp/libs/axioms/src/emit.cpp:468-491 | on every event whose elements have what the filters mention, if a filtered collection is longer than i its i-th object satisfies the filter's encodable conjuncts |
| `Axioms.EpresTrue` | cpp/libs/axioms/src/emit.cpp:493-521 | on every event, if a filtered collection is longer than i its i-th object has every property that the filter requires |
| `Axioms.PresenceTrue` | cpp/libs/axioms/src/emit.cpp:191-226 | indicators lie between 0 and 1, and a property that is defined belongs to an element that exists |
| `AxiomStrength.SizesMean` | cpp/libs/axioms/src/emit.cpp:228-466 | a valuation satisfies a collection's size axioms iff a filtered size is at most its parent's, a sorted or projected one equals it, a union lies between each part and the sum, a slice within its width, and a combination is empty with a part |
| `AxiomStrength.OrdMeans` | cpp/libs/axioms/src/emit.cpp:149-189 | the order axioms of two indexed properties hold iff present elements are ordered from the front, from the back, and front to back |
| `AxiomStrength.IdomMeans` | cpp/libs/axioms/src/emit.cpp:365-379 | the domination axioms hold iff a present filtered element is at most its parent's of the same index |
| `AxiomStrength.FiltersMean` | cpp/libs/axioms/src/emit.cpp:468-521 | a filter's instances hold iff, where the collection is longer than the index, its encodable conjuncts hold and its required properties are present |
| `AxiomStrength.PresenceMeans` | cpp/libs/axioms/src/emit.cpp:191-226 | presence axioms hold iff the indicator lies between 0 and 1 and presence needs an element that exists |
| `AxiomStrength.DueMeans` | cpp/libs/axioms/src/emit.cpp:586-623 | all that is due for some quantities holds iff every one of these demands is met for them |
| `AxiomEmission.Emit.PerQuantity` | cpp/libs/axioms/src/emit.cpp:191-521 | appends exactly the axioms each quantity brings |
| `AxiomEmission.EmitAxioms` | cpp/libs/axioms/src/emit.cpp:586-623 | every emitted instance is true of every event, or is a filter's axiom and true of every event whose elements have what the filters mention; none is repeated; all that is due for the initial quantities is emitted, the final quantities are those and the mentioned ones, and unless all 32 rounds brought something new a valuation satisfies the instances iff sizes, orders, filters and presence are as the final quantities demand |
| `ElementPredicates.RequiredIsPresent` | cpp/libs/axioms/src/elem_pred.cpp:373-444 | a property that a predicate requires is present on every element that passes it |
| `ElementPredicates.RequiredExactly` | cpp/libs/axioms/src/elem_pred.cpp:382-444 | a property is required iff, whichever alternatives are chosen to pass the predicate, one of the chosen comparisons is plain arithmetic over the element's own properties that reads it |
| `ElementPredicates.LinPredIsLin` | cpp/libs/axioms/src/elem_pred.cpp:164-248 | the predicate encoder's linear forms are the comparison encoder's |
| `ElementPredicates.AbsPredExact` | cpp/libs/axioms/src/elem_pred.cpp:108-144 | an absolute value against a constant is right iff the operand is settled: a value, a non-negative bound, or a relation no absolute value meets |
| `ElementPredicates.CmpPredMeans` | cpp/libs/axioms/src/elem_pred.cpp:283-304 | a comparison's exact encoding is the comparison on elements that have what it mentions, by whichever of the ratio, absolute-value and linear routes |
| `ElementPredicates.CmpReadableExactly` | cpp/libs/axioms/src/elem_pred.cpp:164-304 | a comparison has an exact encoding iff both sides are affine, or it is a quotient by zero or a power of two, or an absolute value against a constant that is negative or bounds an affine operand |
| `ElementPredicates.ExactMeans` | cpp/libs/axioms/src/elem_pred.cpp:250-333 | an exactly encoded predicate has a definite truth value and the encoding tells it |
| `ElementPredicates.ReadableExactly` | cpp/libs/axioms/src/elem_pred.cpp:250-333 | a predicate has an exact encoding iff every comparison in it has one and nothing in it is outside the fragment |
| `ElementPredicates.ElementAxiomHolds` | cpp/libs/axioms/src/elem_pred.cpp:401-414 | the element axiom of a filter is true of every passing element, whatever conjuncts were dropped |
| `ElementPredicates.ElementAxiomMeans` | cpp/libs/axioms/src/elem_pred.cpp:401-414 | an element axiom drops exactly the conjuncts without an exact encoding, and is absent iff none is left |
| `ElementPredicates.ElementAxiomFails` | cpp/libs/axioms/src/elem_pred.cpp:108-123 | `not (|q / 0| > -1)` is true of elements whose axiom is constant-false |
| `ElementInstances.InstanceHolds` | cpp/libs/axioms/src/elem_pred.cpp:164-248 | instantiated at an element, a filter's axiom is true of every valuation that reads the element, where the element passes the filter and has what it mentions |
| `Reconcile.LowerBrackets` | cpp/libs/analysis/src/reconcile.cpp:27-41 | a chain's formula over the generic element brackets passing every filter of the chain |
| `Reconcile.PredBrackets` | cpp/libs/axioms/src/elem_pred.cpp:544-582 | an element predicate's formula, Unknown leaves and negations included, brackets its three-valued truth |
| `Reconcile.LowerSays` | cpp/libs/analysis/src/reconcile.cpp:27-41 | a chain's formula says on either side what all its filters say: comparisons exactly, what cannot be encoded given away, negation changing sides |
| `Reconcile.LowerExact` | cpp/libs/analysis/src/reconcile.cpp:27-41 | when every filter of a chain can be encoded, both sides of its formula are passing all of them |
| `Reconcile.ChainIsConjunction` | cpp/libs/interp/src/eval.cpp:1379-1391 | filtering step by step keeps exactly the objects that pass every filter |
| `Reconcile.SubsetProof` | cpp/libs/analysis/src/engine.cpp:905-931 | a surviving refutation means the one over-projection implies the other under-projection under the background, and every convincing one survives |
| `Reconcile.ImplicationOrdersSizes` | cpp/libs/analysis/src/engine.cpp:905-949 | a proven implication over one generic element orders the filtered sizes of every base sequence |
| `Reconcile.GroundedBackground` | cpp/libs/analysis/src/engine.cpp:905-949 | the background stays true when the generic element is grounded on any object |
| `Reconcile.ApplyReconcile` | cpp/libs/analysis/src/engine.cpp:951-1066 | every derived size fact is true of every event, each proved under the facts before it; the facts are exactly those that the solver's answers bring, candidate by candidate; the solver ends holding exactly axioms and facts |
| `Calendar.CivilSuccessor` | cpp/libs/rootfile/src/datime.cpp:13-24 | day 0 is 1970-01-01, every day number is a valid date, and the date of the next number is the next day of the proleptic Gregorian calendar, before the epoch too |
| `Calendar.YearOfEraBounds` | cpp/libs/rootfile/src/datime.cpp:13-24 | the closed form finds the March-based year whose span holds the day |
| `Calendar.PackInvertible` | cpp/libs/rootfile/src/datime.cpp:7-11 | with in-range fields packing loses nothing iff the year is 1995 to 2058 |
| `Calendar.PackedFields` | cpp/libs/rootfile/src/datime.cpp:7-11 | whatever the year, every other field comes back; an earlier year comes back as 1995, a later one modulo 64 years |
| `Numerals.ReduceLowest` | cpp/libs/sema/src/rat.cpp:348-367 | dividing by the greatest common divisor keeps the number and leaves lowest terms |
| `Numerals.LowestUnique` | cpp/libs/sema/src/rat.cpp:348-367 | the lowest terms of a number are unique, so equal rationals are equal as structures |
| `Numerals.ReprRoundTrip` | cpp/libs/certify/src/lib.cpp:49-82 | a printed rational is read back exactly when both numerals are within the digit limit, and refused otherwise |
| `Numerals.ReprCanonical` | cpp/libs/certify/src/lib.cpp:49-53 | two rationals print alike iff they are the same number |
| `Numerals.StoulDigits` | cpp/libs/certify/src/bundle.cpp:589-602 | the machine's unsigned conversion of printed digits gives the number back iff it fits 64 bits |
| `JsonText.JsonEscape` | cpp/libs/certify/src/bundle.cpp:31-52 | the escaping loop escapes quotes, backslashes and control characters, every other byte passes |
| `JsonText.PutText` | cpp/libs/certify/src/bundle.cpp:54-112 | writing a value appends exactly its text, with its comma, line break and indentation, wherever it goes |
| `JsonText.CloseText` | cpp/libs/certify/src/bundle.cpp:72-88 | closing an object or array makes what was written since it was opened the text of one value |
| `JsonText.Jw.EndObj` | cpp/libs/certify/src/bundle.cpp:72-77 | the closed object is the next value of whatever encloses it |
| `JsonText.Jw.KeyS` | cpp/libs/certify/src/bundle.cpp:94-98 | an escaped key opens the next field of the object |
| `JsonText.Jw.Str` | cpp/libs/certify/src/bundle.cpp:99-102 | an escaped string is the next value of whatever is open |
| `JsonParse.EmplaceFinds` | cpp/libs/certify/src/bundle.cpp:409-409 | insertion into the ordered map keeps an entry already there and finds every other |
| `JsonParse.GetField` | cpp/libs/certify/src/bundle.cpp:329-333 | a key of a parsed object finds the first field printed under it |
| `JsonParse.CharsParse` | cpp/libs/certify/src/bundle.cpp:451-514 | an escaped string, whatever its bytes, is read back up to its closing quote |
| `JsonParse.ValueParses` | cpp/libs/certify/src/bundle.cpp:336-579 | a printed value, standing anywhere in a text, is parsed to what it says, and the cursor is after it |
| `JsonParse.PrintedTextParses` | cpp/libs/certify/src/bundle.cpp:372-378 | parsing undoes printing for every document, strings of arbitrary bytes and any nesting included |
| `JsonGrammar.StringExact` | cpp/libs/certify/src/bundle.cpp:451-514 | a quoted string is accepted with a value iff it is spelt by plain characters, the eight one-letter escapes and four hexadecimal digits, and the value is what they spell, in UTF-8 |
| `JsonGrammar.NumeralParses` | cpp/libs/certify/src/bundle.cpp:544-578 | every numeral of the grammar, sign, fraction and exponent included, is read whole and as it stands |
| `JsonGrammar.TreeParses` | cpp/libs/certify/src/bundle.cpp:336-579 | every derivation of a value, with any space between its parts, is parsed to what it says wherever it stands |
| `JsonGrammar.ParsesExactly` | cpp/libs/certify/src/bundle.cpp:372-378 | a text parses to a value iff the JSON grammar derives the text and the derivation says the value |
| `JsonParse.Parser.Parse` | cpp/libs/certify/src/bundle.cpp:372-378 | the parser succeeds exactly on the texts that are one value and nothing else |
| `JsonParse.Parser.Members` | cpp/libs/certify/src/bundle.cpp:392-423 | the loop over fields recognizes exactly the grammar's field list |
| `JsonParse.Parser.String` | cpp/libs/certify/src/bundle.cpp:451-514 | the loop over characters recognizes exactly the grammar's string |
| `JsonParse.Parser.NumberV` | cpp/libs/certify/src/bundle.cpp:544-578 | the number is the longest numeral of the grammar |
| `Bundles.FormulaRoundTrip` | cpp/libs/certify/src/bundle.cpp:845-906 | a formula survives the bundle iff its atoms are in normal form; its meaning always does |
| `Bundles.ReplayBundle` | cpp/libs/certify/src/bundle.cpp:955-983 | the loops decide exactly the stated conditions: pinned texts, dictionary coverage, distinct and linked facts, replaying certificates |
| `Bundles.ReplayedBundleSound` | cpp/libs/certify/src/bundle.cpp:955-983 | a bundle that replays carries exactly the schema, verdict and scope note, labels every quantity of its formulas, has facts of distinct names, gives the name XR to derived asserts only, each from a listed fact of that name and formula, and lists formulas without a common model, as every derivation's premises are |
| `Bundles.RefusedForCause` | cpp/libs/certify/src/bundle.cpp:955-983 | a bundle is refused only for a named cause: a wrong fixed text, an unlabelled quantity, a repeated fact name, an unlinked or smuggled XR assert, a fact without derivations, or a certificate that does not replay |
| `Bundles.Make` | cpp/libs/certify/src/bundle.cpp:930-946 | a packaged bundle has a complete, ordered dictionary and replays iff its parts do |
| `BundleFiles.WriteFormula` | cpp/libs/certify/src/bundle.cpp:122-176 | writes the document of the formula as the next value |
| `BundleFiles.WriteCertNode` | cpp/libs/certify/src/bundle.cpp:230-262 | writes the document of the certificate tree as the next value |
| `BundleFiles.ToJson` | cpp/libs/certify/src/bundle.cpp:985-1055 | the text is that of the bundle's document |
| `BundleReader.FormulaReads` | cpp/libs/certify/src/bundle.cpp:626-672 | a printed formula is read back iff its numerals are within the limits |
| `BundleReader.CertReads` | cpp/libs/certify/src/bundle.cpp:720-752 | a printed certificate tree is read back iff its numerals are within the limit |
| `BundleReader.LabelsRead` | cpp/libs/certify/src/bundle.cpp:1096-1105 | the dictionary is read back in order, although its keys sort as text while parsed |
| `BundleReader.ParseFormula` | cpp/libs/certify/src/bundle.cpp:626-672 | the loops read exactly the formulas the specification accepts |
| `BundleReader.FromJson` | cpp/libs/certify/src/bundle.cpp:1057-1117 | the reader accepts exactly the well-formed documents and builds what they say |
| `BundleReader.FileRoundTrip` | cpp/libs/certify/src/bundle.cpp:985-1117 | reading a printed bundle gives the bundle back iff its numerals are within the digit limit and its ids within 32 bits |
| `BundleFormat.PrintedBundleSays` | cpp/libs/certify/src/bundle.cpp:122-1055 | the printed bundle parses to a value in which every part, down to each coefficient and multiplier, is found under its name |

## Left out

Parts of the model that say less than the code does:

- Quantifiers.EncodeStaticSlice: the body is substituted element by element before the model sees it (`Body`); the substitution functions themselves are not modelled.
- ComparisonTruth.CompareJudges: operands are regular expressions without powers; angular separations, approximate floating-point edges and the check for unindexed minimum pairs are not modelled, and the count cuts of combinations are modelled apart (`Composite.CombExistenceJudges`).
- CutLeaves.ShownIsLeaf: size guards are listed by the ids of the sizes, where the program lists them by collection.
- CutRegions.CutRegionSound: a comparison folded to a constant behind presence guards, and one of hidden data on events that lack them, are outside its hypotheses, as negation is not right for them (`NegationLimits.LeafNegationExact`, `CutRegions.CutNegationExact`).
- Bundles.Make: the fixed note and the schema's history stand as short texts, no property turns on their wording.
- PartialTruth.EncodeAgrees: a region used as a condition inside another condition is not modelled; inheritance of regions is.
- PartialTruth.LeafAgrees: where a comparison reads both a soft and a hard absent datum the event decides which one the interpreter meets first, so the result covers either order of evaluation.
- AxiomEmission.EmitAxioms: the domain assumptions (non-negativity, tags, triggers, angles, oriented twins) are not part of the fixpoint, and presence axioms are those of element properties. The final ordering of instances by description is not modelled.
- Axioms.EpredTrue: the emitted filter axiom carries no presence guards, so it is stated where the elements have what the filter mentions; `ElementPredicates.ElementAxiomFails` shows an element where operands without a value make it false.
- Regions.Flattener.Flatten: a region that inherits itself has no value in the interpreter, so for a cyclic graph the event says which truth the closing edge has.
- Solving.CertifyNamedFormulas: the payload handed to the combine bundle is not modelled, nor is the table of origins from which a bundle's asserts take their sources; a bundle is modelled from its parts on.
- Verdicts.PairVerdict: verdicts of the satisfiable direction (overlap, witness realization, demotion by sampled events) are not modelled; the model reports which claims survive without them.
- Verdicts.BinsDisjointByInterval: the diagnostics raised when certification of an interval bin pair fails are not modelled, the verdict does not depend on them.
- Reconcile.ApplyReconcile: near misses and the lookup of known base collections only feed the report and are not modelled.
- BundleReader.FileRoundTrip: a character stands for one byte; ids and line numbers are natural numbers, and the 32 bits the program's types give them are part of the condition.
- Bundles.FormulaRoundTrip: coefficients are real numbers in the formulas and exact rationals in a bundle; formulas are required to have rational coefficients, as all of the program's have.
- Calendar.CivilSuccessor: day numbers are unbounded; the 64-bit overflow far outside any calendar date is not modelled.

Not modelled at all:

- Floating point: power, square root, angular separations, edges rounded through doubles, the witness realizer, unit-in-the-last-place probes and model snapping.
- The solver process, SMT script text and the loop that refines its models: the solver is an oracle.
- Malformed numeric literals: literals are numbers.
- Diagnostic ids and texts: every Unknown and Dual carries id 0.
- Interning side effects: tables hold every quantity they are asked for.
- Events whose collections fail to materialize with a hard error; collection sizes are present.
- Report text, report JSON, DOT output, the command line, histogram bridges, ROOT files and profile tables.
- Ingest re-chunking, cutflow counters and hashing: easy beside the prover.
- The legacy parser, driver and constraint encoder, superseded by the port; their encoder is a simpler second instance.
