/** Reading a bundle back from JSON: the reader, and that it undoes the printer. */
module BundleReader {
  import opened Linear
  import opened Saturation
  import opened Numerals
  import opened JsonText
  import opened JsonParse
  import opened Bundles
  import opened BundleFiles

  // ----- what the reader accepts -----

  const UINT32_MAX: nat := 0xFFFF_FFFF

  function AsStr(v: Option<Json>): Option<string> {
    if v.Some? && v.value.Str? then Some(v.value.s) else None
  }

  function AsBool(v: Option<Json>): Option<bool> {
    if v.Some? && v.value.Bool? then Some(v.value.b) else None
  }

  function AsArr(v: Option<Json>): (r: Option<seq<Json>>)
    ensures r.Some? ==> v.Some? && v.value == Arr(r.value)
  {
    if v.Some? && v.value.Arr? then Some(v.value.items) else None
  }

  /** An unsigned number without fraction, exponent or sign. */
  function AsU32(v: Option<Json>): Option<nat> {
    if v.None? || !v.value.Number? then None
    else
      var num := v.value.num;
      if '.' in num || 'e' in num || 'E' in num || '-' in num then None else Narrow(Stoul(num))
  }

  function Narrow(n: Option<nat>): Option<nat> { if n.Some? && n.value <= UINT32_MAX then n else None }

  function AsQRat(v: Option<Json>): Option<QRat> {
    match AsStr(v) case None => None case Some(s) => FromRepr(s)
  }

  function AsRel(v: Option<Json>): Option<Rel> {
    match AsStr(v)
    case None => None
    case Some(s) =>
      if s == "<" then Some(Lt)
      else if s == "<=" then Some(Le)
      else if s == ">" then Some(Gt)
      else if s == ">=" then Some(Ge)
      else if s == "==" then Some(Eq)
      else if s == "!=" then Some(Ne)
      else None
  }

  /** All the parts, unless one is missing. */
  function AllSome<T>(os: seq<Option<T>>): Option<seq<T>> {
    if os == [] then Some([])
    else match AllSome(os[1..])
      case None => None
      case Some(rest) => if os[0].None? then None else Some([os[0].value] + rest)
  }

  function ReadTerm(v: Json): Option<BundleTerm> {
    var coeff, q := AsQRat(Get(v, "coeff")), AsU32(Get(v, "q"));
    if coeff.None? || q.None? then None else Some(BundleTerm(coeff.value, q.value))
  }

  function ReadTerms(items: seq<Json>): seq<Option<BundleTerm>> {
    seq(|items|, i requires 0 <= i < |items| => ReadTerm(items[i]))
  }

  function ReadAtom(v: Json): Option<BundleFormula> {
    var items, rel, k := AsArr(Get(v, "terms")), AsRel(Get(v, "rel")), AsQRat(Get(v, "k"));
    if items.None? || rel.None? || k.None? then None
    else match AllSome(ReadTerms(items.value))
      case None => None
      case Some(terms) => Some(BAtom(terms, rel.value, k.value))
  }

  function ReadFormula(v: Json): Option<BundleFormula>
    decreases v
  {
    match AsStr(Get(v, "op"))
    case None => None
    case Some(op) =>
      if op == "true" then Some(BTrue)
      else if op == "false" then Some(BFalse)
      else if op == "atom" then ReadAtom(v)
      else if op != "and" && op != "or" then None
      else
        var items := AsArr(Get(v, "args"));
        if items.None? then None
        else match AllSome(ReadFormulas(items.value))
          case None => None
          case Some(args) => Some(if op == "and" then BAnd(args) else BOr(args))
  }

  function ReadFormulas(items: seq<Json>): seq<Option<BundleFormula>>
    decreases items
  {
    seq(|items|, i requires 0 <= i < |items| => ReadFormula(items[i]))
  }

  function Bind<A, B>(o: Option<A>, f: A -> Option<B>): Option<B> {
    if o.Some? then f(o.value) else None
  }

  function ReadCut(v: Json): Option<AssertSource> {
    var region, line, text, whole :=
      AsStr(Get(v, "region")), AsU32(Get(v, "line")), AsStr(Get(v, "text")), AsBool(Get(v, "whole"));
    if region.None? || line.None? || text.None? || whole.None? then None
    else Some(Cut(region.value, line.value, text.value, whole.value))
  }

  function ReadAxiom(v: Json): Option<AssertSource> {
    var id, statement, assumption := AsStr(Get(v, "id")), AsStr(Get(v, "statement")), AsStr(Get(v, "assumption"));
    if id.None? || statement.None? || assumption.None? then None
    else Some(Axiom(id.value, statement.value, assumption.value))
  }

  function ReadSource(v: Json): Option<AssertSource> {
    match AsStr(Get(v, "kind"))
    case None => None
    case Some(kind) =>
      if kind == "cut" then ReadCut(v)
      else if kind == "axiom" then ReadAxiom(v)
      else if kind == "derived" then
        match AsStr(Get(v, "fact")) case None => None case Some(fact) => Some(Derived(fact))
      else if kind == "query" then
        match AsStr(Get(v, "role")) case None => None case Some(role) => Some(Query(role))
      else if kind == "unattributed" then Some(Unattributed)
      else None
  }

  function ReadAssert(v: Json): Option<BundleAssert> {
    var name, source, formula :=
      AsStr(Get(v, "name")), Bind(Get(v, "source"), ReadSource), Bind(Get(v, "formula"), ReadFormula);
    if name.None? || source.None? || formula.None? then None
    else Some(BundleAssert(name.value, source.value, formula.value))
  }

  function ReadAsserts(items: seq<Json>): seq<Option<BundleAssert>> {
    seq(|items|, i requires 0 <= i < |items| => ReadAssert(items[i]))
  }

  function ReadRats(items: seq<Json>): seq<Option<QRat>> {
    seq(|items|, i requires 0 <= i < |items| => AsQRat(Some(items[i])))
  }

  function ReadCert(v: Json): Option<CertTree>
    decreases v
  {
    if v.Str? then (if v.s == "Contradiction" then Some(Contradictory) else None)
    else match Get(v, "Farkas")
      case Some(f) =>
        var items := AsArr(Get(f, "multipliers"));
        if items.None? then None
        else (match AllSome(ReadRats(items.value)) case None => None case Some(ms) => Some(Multipliers(ms)))
      case None =>
        match Get(v, "Split")
        case None => None
        case Some(s) =>
          var items := AsArr(Get(s, "branches"));
          if items.None? then None
          else (match AllSome(ReadCerts(items.value)) case None => None case Some(bs) => Some(Branches(bs)))
  }

  function ReadCerts(items: seq<Json>): seq<Option<CertTree>>
    decreases items
  {
    seq(|items|, i requires 0 <= i < |items| => ReadCert(items[i]))
  }

  function ReadCertificate(v: Json): Option<CertTree> { Bind(Get(v, "root"), ReadCert) }

  function ReadDerivation(v: Json): Option<Derivation> {
    var claim, items, cert := AsStr(Get(v, "claim")), AsArr(Get(v, "premises")), Bind(Get(v, "certificate"), ReadCertificate);
    if claim.None? || items.None? || cert.None? then None
    else match AllSome(ReadAsserts(items.value))
      case None => None
      case Some(premises) => Some(Derivation(claim.value, premises, cert.value))
  }

  function ReadDerivations(items: seq<Json>): seq<Option<Derivation>> {
    seq(|items|, i requires 0 <= i < |items| => ReadDerivation(items[i]))
  }

  function ReadFact(v: Json): Option<DerivedFact> {
    var name, axiom, statement := AsStr(Get(v, "name")), AsStr(Get(v, "axiom")), AsStr(Get(v, "statement"));
    var formula, items := Bind(Get(v, "formula"), ReadFormula), AsArr(Get(v, "derivations"));
    if name.None? || axiom.None? || statement.None? || formula.None? || items.None? then None
    else match AllSome(ReadDerivations(items.value))
      case None => None
      case Some(ds) => Some(DerivedFact(name.value, axiom.value, statement.value, formula.value, ds))
  }

  function ReadFacts(items: seq<Json>): seq<Option<DerivedFact>> {
    seq(|items|, i requires 0 <= i < |items| => ReadFact(items[i]))
  }

  function ReadStrings(items: seq<Json>): seq<Option<string>> {
    seq(|items|, i requires 0 <= i < |items| => AsStr(Some(items[i])))
  }

  function ReadProducer(v: Json): Option<Producer> {
    var tool, version, items := AsStr(Get(v, "tool")), AsStr(Get(v, "version")), AsArr(Get(v, "schema_history"));
    if tool.None? || version.None? || items.None? then None
    else match AllSome(ReadStrings(items.value))
      case None => None
      case Some(history) => Some(Producer(tool.value, version.value, history))
  }

  function ReadInput(v: Json): Option<BundleInput> {
    var name, sha := AsStr(Get(v, "name")), AsStr(Get(v, "sha256"));
    if name.None? || sha.None? then None else Some(BundleInput(name.value, sha.value))
  }

  function ReadInputs(items: seq<Json>): seq<Option<BundleInput>> {
    seq(|items|, i requires 0 <= i < |items| => ReadInput(items[i]))
  }

  /** Assignment into the ordered dictionary. */
  function Assign(ls: seq<Label>, q: nat, text: string): seq<Label> {
    if ls == [] || q < ls[0].q then [Label(q, text)] + ls
    else if ls[0].q == q then [Label(q, text)] + ls[1..]
    else [ls[0]] + Assign(ls[1..], q, text)
  }

  /** The entries of the dictionary, in the order of their keys. */
  function ReadLabels(ms: seq<Member>, acc: seq<Label>): Option<seq<Label>>
    decreases |ms|
  {
    if ms == [] then Some(acc)
    else
      var q := Narrow(Stoul(ms[0].key));
      if !ms[0].value.Str? || q.None? then None else ReadLabels(ms[1..], Assign(acc, q.value, ms[0].value.s))
  }

  function ReadBundle(v: Json): Option<CombineBundle> {
    var schema, producer, inputs := AsStr(Get(v, "schema")), Bind(Get(v, "producer"), ReadProducer), AsArr(Get(v, "inputs"));
    var regionA, regionB := AsStr(Get(v, "region_a")), AsStr(Get(v, "region_b"));
    var verdict, note, labels := AsStr(Get(v, "verdict")), AsStr(Get(v, "note")), Get(v, "quantities");
    var asserts, facts := AsArr(Get(v, "asserts")), AsArr(Get(v, "derived_facts"));
    var cert := Bind(Get(v, "certificate"), ReadCertificate);
    if schema.None? || producer.None? || inputs.None? || regionA.None? || regionB.None? || verdict.None? || note.None?
      || labels.None? || !labels.value.Obj? || asserts.None? || facts.None? || cert.None?
    then None
    else
      var ins, ls := AllSome(ReadInputs(inputs.value)), ReadLabels(labels.value.members, []);
      var xs, fs := AllSome(ReadAsserts(asserts.value)), AllSome(ReadFacts(facts.value));
      if ins.None? || ls.None? || xs.None? || fs.None? then None
      else Some(CombineBundle(schema.value, producer.value, ins.value, regionA.value, regionB.value, verdict.value, note.value,
        ls.value, xs.value, fs.value, cert.value))
  }

  // ----- a printed bundle is read back -----

  lemma {:induction false} FirstAt(fields: seq<Field>, i: nat)
    requires i < |fields| && forall j | 0 <= j < i :: fields[j].key != fields[i].key
    ensures First(fields, fields[i].key) == Some(fields[i].value)
  {
    if i > 0 { FirstAt(fields[1..], i - 1); }
  }

  lemma {:induction false} FirstAbsent(fields: seq<Field>, k: string)
    requires forall j | 0 <= j < |fields| :: fields[j].key != k
    ensures First(fields, k) == None
  {
    if fields != [] { FirstAbsent(fields[1..], k); }
  }

  /** Field i of a printed object is found under its key. */
  lemma FieldAt(fields: seq<Field>, i: nat)
    requires i < |fields| && forall j | 0 <= j < i :: fields[j].key != fields[i].key
    ensures Get(JsonOf(DObj(fields)), fields[i].key) == Some(JsonOf(fields[i].value))
  {
    FirstAt(fields, i);
    GetField(fields, fields[i].key);
  }

  lemma {:induction false} JsonsAt(ds: seq<Doc>)
    ensures |JsonsOf(ds)| == |ds| && forall i | 0 <= i < |ds| :: JsonsOf(ds)[i] == JsonOf(ds[i])
  {
    if ds != [] { JsonsAt(ds[1..]); }
  }

  /** A list is read back exactly when each of its parts is. */
  lemma {:induction false} ListReads<T>(os: seq<Option<T>>, xs: seq<T>, legible: seq<bool>)
    requires |os| == |xs| == |legible|
    requires forall i | 0 <= i < |os| :: os[i] == if legible[i] then Some(xs[i]) else None
    ensures AllSome(os) == if forall i | 0 <= i < |legible| :: legible[i] then Some(xs) else None
  {
    if os != [] {
      ListReads(os[1..], xs[1..], legible[1..]);
      assert xs == [xs[0]] + xs[1..];
      assert os[0] == if legible[0] then Some(xs[0]) else None;
      assert (forall i | 0 <= i < |legible| :: legible[i]) <==>
        legible[0] && (forall i | 0 <= i < |legible[1..]| :: legible[1..][i]) by {
        assert forall i :: 0 < i < |legible| ==> legible[i] == legible[1..][i - 1];
      }
    }
  }

  predicate LegibleRat(r: QRat) {
    |Digits(r.num)| <= MAX_NUMERAL_DIGITS && |Digits(r.den)| <= MAX_NUMERAL_DIGITS
  }

  predicate LegibleTerm(t: BundleTerm) { LegibleRat(t.coeff) && t.q <= UINT32_MAX }

  /** Every numeral within the digit limit, every id within 32 bits. */
  predicate LegibleFormula(f: BundleFormula) {
    match f
    case BAtom(terms, _, k) => LegibleRat(k) && forall i | 0 <= i < |terms| :: LegibleTerm(terms[i])
    case BAnd(args) => forall i | 0 <= i < |args| :: LegibleFormula(args[i])
    case BOr(args) => forall i | 0 <= i < |args| :: LegibleFormula(args[i])
    case _ => true
  }

  predicate LegibleSource(s: AssertSource) { s.Cut? ==> s.line <= UINT32_MAX }

  predicate LegibleAssert(a: BundleAssert) { LegibleSource(a.source) && LegibleFormula(a.formula) }

  predicate LegibleAsserts(xs: seq<BundleAssert>) { forall i | 0 <= i < |xs| :: LegibleAssert(xs[i]) }

  predicate LegibleCert(c: CertTree) {
    match c
    case Contradictory => true
    case Multipliers(ms) => forall i | 0 <= i < |ms| :: LegibleRat(ms[i])
    case Branches(bs) => forall i | 0 <= i < |bs| :: LegibleCert(bs[i])
  }

  predicate LegibleDerivation(d: Derivation) { LegibleAsserts(d.premises) && LegibleCert(d.certificate) }

  predicate LegibleFact(f: DerivedFact) {
    LegibleFormula(f.formula) && forall i | 0 <= i < |f.derivations| :: LegibleDerivation(f.derivations[i])
  }

  predicate LegibleFacts(xs: seq<DerivedFact>) { forall i | 0 <= i < |xs| :: LegibleFact(xs[i]) }

  predicate LegibleLabels(ls: seq<Label>) { forall i | 0 <= i < |ls| :: ls[i].q <= UINT32_MAX }

  predicate Legible(b: CombineBundle) {
    LegibleLabels(b.quantities) && LegibleAsserts(b.asserts) && LegibleFacts(b.facts) && LegibleCert(b.certificate)
  }

  lemma RatReads(r: QRat)
    ensures AsQRat(Some(JsonOf(RatDoc(r)))) == if LegibleRat(r) then Some(r) else None
  {
    ReprRoundTrip(r);
  }

  lemma NumReads(n: nat)
    ensures AsU32(Some(JsonOf(DNum(n)))) == if n <= UINT32_MAX then Some(n) else None
  {
    hide Digits, Stoul;
    DigitsAreDigits(n);
    StoulDigits(n);
    forall c | c in Digits(n) ensures IsDigit(c) {
      var i :| 0 <= i < |Digits(n)| && Digits(n)[i] == c;
    }
    assert !IsDigit('.') && !IsDigit('e') && !IsDigit('E') && !IsDigit('-');
  }

  lemma RelReads(r: Rel)
    ensures AsRel(Some(JsonOf(DStr(RelStr(r))))) == Some(r)
  {
  }

  lemma TermReads(t: BundleTerm)
    ensures ReadTerm(JsonOf(TermDoc(t))) == if LegibleTerm(t) then Some(t) else None
  {
    hide LegibleRat, AsQRat, AsU32, Repr, Get;
    var fields := TermDoc(t).fields;
    FieldAt(fields, 0);
    FieldAt(fields, 1);
    RatReads(t.coeff);
    NumReads(t.q);
  }

  lemma TermsRead(ts: seq<BundleTerm>)
    ensures AllSome(ReadTerms(JsonsOf(TermDocs(ts)))) == if forall i | 0 <= i < |ts| :: LegibleTerm(ts[i]) then Some(ts) else None
  {
    hide ReadTerm, LegibleTerm, TermDoc, JsonOf, AllSome;
    JsonsAt(TermDocs(ts));
    forall i | 0 <= i < |ts| { TermReads(ts[i]); }
    ListReads(ReadTerms(JsonsOf(TermDocs(ts))), ts, seq(|ts|, i requires 0 <= i < |ts| => LegibleTerm(ts[i])));
  }

  lemma AtomReads(f: BundleFormula)
    requires f.BAtom?
    ensures ReadAtom(JsonOf(FormulaDoc(f))) == if LegibleFormula(f) then Some(f) else None
  {
    hide LegibleRat, LegibleTerm, AsQRat, Repr, Get, RelStr, TermDocs, ReadTerms, AllSome, AsRel;
    var fields := FormulaDoc(f).fields;
    FieldAt(fields, 1);
    FieldAt(fields, 2);
    FieldAt(fields, 3);
    TermsRead(f.terms);
    RelReads(f.rel);
    RatReads(f.k);
  }

  lemma {:induction false} FormulaReads(f: BundleFormula)
    ensures ReadFormula(JsonOf(FormulaDoc(f))) == if LegibleFormula(f) then Some(f) else None
    decreases f, 1
  {
    hide LegibleRat, LegibleTerm, Repr, Get, RelStr, TermDocs, AllSome, ReadAtom, ReadFormulas;
    var fields := FormulaDoc(f).fields;
    FieldAt(fields, 0);
    match f
    case BAtom(_, _, _) => AtomReads(f);
    case BAnd(args) =>
      FieldAt(fields, 1);
      FormulasRead(args);
    case BOr(args) =>
      FieldAt(fields, 1);
      FormulasRead(args);
    case _ =>
  }

  lemma {:induction false} FormulasRead(fs: seq<BundleFormula>)
    ensures AllSome(ReadFormulas(JsonsOf(FormulaDocs(fs)))) == if forall i | 0 <= i < |fs| :: LegibleFormula(fs[i]) then Some(fs) else None
    decreases fs, 0
  {
    hide ReadFormula, LegibleFormula, FormulaDoc, JsonOf, AllSome;
    JsonsAt(FormulaDocs(fs));
    forall i | 0 <= i < |fs| { FormulaReads(fs[i]); }
    ListReads(ReadFormulas(JsonsOf(FormulaDocs(fs))), fs, seq(|fs|, i requires 0 <= i < |fs| => LegibleFormula(fs[i])));
  }

  lemma CutReads(s: AssertSource)
    requires s.Cut?
    ensures ReadCut(JsonOf(SourceDoc(s))) == if LegibleSource(s) then Some(s) else None
  {
    hide Get, AsU32;
    var fields := SourceDoc(s).fields;
    FieldAt(fields, 1);
    FieldAt(fields, 2);
    FieldAt(fields, 3);
    FieldAt(fields, 4);
    NumReads(s.line);
  }

  lemma AxiomReads(s: AssertSource)
    requires s.Axiom?
    ensures ReadAxiom(JsonOf(SourceDoc(s))) == Some(s)
  {
    hide Get;
    var fields := SourceDoc(s).fields;
    FieldAt(fields, 1);
    FieldAt(fields, 2);
    FieldAt(fields, 3);
  }

  lemma SourceReads(s: AssertSource)
    ensures ReadSource(JsonOf(SourceDoc(s))) == if LegibleSource(s) then Some(s) else None
  {
    hide Get, ReadCut, ReadAxiom;
    var fields := SourceDoc(s).fields;
    FieldAt(fields, 0);
    match s
    case Cut(_, _, _, _) => CutReads(s);
    case Axiom(_, _, _) => AxiomReads(s);
    case Derived(_) => FieldAt(fields, 1);
    case Query(_) => FieldAt(fields, 1);
    case Unattributed =>
  }

  lemma AssertReads(a: BundleAssert)
    ensures ReadAssert(JsonOf(AssertDoc(a))) == if LegibleAssert(a) then Some(a) else None
  {
    hide Get, SourceDoc, FormulaDoc, ReadSource, ReadFormula, LegibleFormula, LegibleSource;
    var fields := AssertDoc(a).fields;
    FieldAt(fields, 0);
    FieldAt(fields, 1);
    FieldAt(fields, 2);
    SourceReads(a.source);
    FormulaReads(a.formula);
  }

  lemma AssertsRead(xs: seq<BundleAssert>)
    ensures AllSome(ReadAsserts(JsonsOf(AssertDocs(xs)))) == if LegibleAsserts(xs) then Some(xs) else None
  {
    hide ReadAssert, LegibleAssert, AssertDoc, JsonOf, AllSome;
    JsonsAt(AssertDocs(xs));
    forall i | 0 <= i < |xs| { AssertReads(xs[i]); }
    ListReads(ReadAsserts(JsonsOf(AssertDocs(xs))), xs, seq(|xs|, i requires 0 <= i < |xs| => LegibleAssert(xs[i])));
  }

  lemma RatsRead(rs: seq<QRat>)
    ensures AllSome(ReadRats(JsonsOf(RatDocs(rs)))) == if forall i | 0 <= i < |rs| :: LegibleRat(rs[i]) then Some(rs) else None
  {
    hide AsQRat, LegibleRat, RatDoc, JsonOf, AllSome;
    JsonsAt(RatDocs(rs));
    forall i | 0 <= i < |rs| { RatReads(rs[i]); }
    ListReads(ReadRats(JsonsOf(RatDocs(rs))), rs, seq(|rs|, i requires 0 <= i < |rs| => LegibleRat(rs[i])));
  }

  lemma {:induction false} CertReads(c: CertTree)
    ensures ReadCert(JsonOf(CertDoc(c))) == if LegibleCert(c) then Some(c) else None
    decreases c, 1
  {
    hide Get, LegibleRat, RatDocs, ReadRats, ReadCerts, CertDocs, AllSome;
    match c
    case Contradictory =>
    case Multipliers(ms) =>
      FieldAt(CertDoc(c).fields, 0);
      FieldAt([Field("multipliers", DArr(RatDocs(ms)))], 0);
      RatsRead(ms);
    case Branches(bs) =>
      FieldAt(CertDoc(c).fields, 0);
      FirstAbsent(CertDoc(c).fields, "Farkas");
      GetField(CertDoc(c).fields, "Farkas");
      FieldAt([Field("branches", DArr(CertDocs(bs)))], 0);
      CertsRead(bs);
  }

  lemma {:induction false} CertsRead(cs: seq<CertTree>)
    ensures AllSome(ReadCerts(JsonsOf(CertDocs(cs)))) == if forall i | 0 <= i < |cs| :: LegibleCert(cs[i]) then Some(cs) else None
    decreases cs, 0
  {
    hide ReadCert, LegibleCert, CertDoc, JsonOf, AllSome;
    JsonsAt(CertDocs(cs));
    forall i | 0 <= i < |cs| { CertReads(cs[i]); }
    ListReads(ReadCerts(JsonsOf(CertDocs(cs))), cs, seq(|cs|, i requires 0 <= i < |cs| => LegibleCert(cs[i])));
  }

  lemma CertificateReads(c: CertTree)
    ensures ReadCertificate(JsonOf(CertificateDoc(c))) == if LegibleCert(c) then Some(c) else None
  {
    hide Get, ReadCert, LegibleCert, CertDoc;
    FieldAt(CertificateDoc(c).fields, 0);
    CertReads(c);
  }

  lemma DerivationReads(d: Derivation)
    ensures ReadDerivation(JsonOf(DerivationDoc(d))) == if LegibleDerivation(d) then Some(d) else None
  {
    hide Get, ReadCertificate, CertificateDoc, AssertDocs, ReadAsserts, AllSome, LegibleCert, LegibleAsserts;
    var fields := DerivationDoc(d).fields;
    FieldAt(fields, 0);
    FieldAt(fields, 1);
    FieldAt(fields, 2);
    AssertsRead(d.premises);
    CertificateReads(d.certificate);
  }

  lemma DerivationsRead(ds: seq<Derivation>)
    ensures AllSome(ReadDerivations(JsonsOf(DerivationDocs(ds)))) ==
      if forall i | 0 <= i < |ds| :: LegibleDerivation(ds[i]) then Some(ds) else None
  {
    hide ReadDerivation, LegibleDerivation, DerivationDoc, JsonOf, AllSome;
    JsonsAt(DerivationDocs(ds));
    forall i | 0 <= i < |ds| { DerivationReads(ds[i]); }
    ListReads(ReadDerivations(JsonsOf(DerivationDocs(ds))), ds, seq(|ds|, i requires 0 <= i < |ds| => LegibleDerivation(ds[i])));
  }

  lemma FactReads(f: DerivedFact)
    ensures ReadFact(JsonOf(FactDoc(f))) == if LegibleFact(f) then Some(f) else None
  {
    hide Get, FormulaDoc, ReadFormula, LegibleFormula, DerivationDocs, ReadDerivations, AllSome, LegibleDerivation;
    var fields := FactDoc(f).fields;
    FieldAt(fields, 0);
    FieldAt(fields, 1);
    FieldAt(fields, 2);
    FieldAt(fields, 3);
    FieldAt(fields, 4);
    FormulaReads(f.formula);
    DerivationsRead(f.derivations);
  }

  lemma FactsRead(xs: seq<DerivedFact>)
    ensures AllSome(ReadFacts(JsonsOf(FactDocs(xs)))) == if LegibleFacts(xs) then Some(xs) else None
  {
    hide ReadFact, LegibleFact, FactDoc, JsonOf, AllSome;
    JsonsAt(FactDocs(xs));
    forall i | 0 <= i < |xs| { FactReads(xs[i]); }
    ListReads(ReadFacts(JsonsOf(FactDocs(xs))), xs, seq(|xs|, i requires 0 <= i < |xs| => LegibleFact(xs[i])));
  }

  lemma StringsRead(xs: seq<string>)
    ensures AllSome(ReadStrings(JsonsOf(StrDocs(xs)))) == Some(xs)
  {
    hide AllSome;
    JsonsAt(StrDocs(xs));
    ListReads(ReadStrings(JsonsOf(StrDocs(xs))), xs, seq(|xs|, _ => true));
  }

  lemma ProducerReads(p: Producer)
    ensures ReadProducer(JsonOf(ProducerDoc(p))) == Some(p)
  {
    hide Get, StrDocs, ReadStrings, AllSome;
    var fields := ProducerDoc(p).fields;
    FieldAt(fields, 0);
    FieldAt(fields, 1);
    FieldAt(fields, 2);
    StringsRead(p.history);
  }

  lemma InputReads(x: BundleInput)
    ensures ReadInput(JsonOf(InputDoc(x))) == Some(x)
  {
    hide Get;
    FieldAt(InputDoc(x).fields, 0);
    FieldAt(InputDoc(x).fields, 1);
  }

  lemma InputsRead(xs: seq<BundleInput>)
    ensures AllSome(ReadInputs(JsonsOf(InputDocs(xs)))) == Some(xs)
  {
    hide ReadInput, InputDoc, JsonOf, AllSome;
    JsonsAt(InputDocs(xs));
    forall i | 0 <= i < |xs| { InputReads(xs[i]); }
    ListReads(ReadInputs(JsonsOf(InputDocs(xs))), xs, seq(|xs|, _ => true));
  }

  // ----- the dictionary -----

  function LabelOf(ls: seq<Label>, q: nat): Option<string> {
    if ls == [] then None else if ls[0].q == q then Some(ls[0].text) else LabelOf(ls[1..], q)
  }

  lemma {:induction false} AssignFinds(ls: seq<Label>, q: nat, text: string, p: nat)
    ensures LabelOf(Assign(ls, q, text), p) == if p == q then Some(text) else LabelOf(ls, p)
  {
    if ls == [] {
    } else if q < ls[0].q {
      assert ([Label(q, text)] + ls)[1..] == ls;
    } else if ls[0].q == q {
      assert ([Label(q, text)] + ls[1..])[1..] == ls[1..];
    } else {
      AssignFinds(ls[1..], q, text, p);
      assert ([ls[0]] + Assign(ls[1..], q, text))[1..] == Assign(ls[1..], q, text);
    }
  }

  lemma {:induction false} AssignAscends(ls: seq<Label>, q: nat, text: string)
    requires AscendingLabels(ls)
    ensures AscendingLabels(Assign(ls, q, text))
    ensures forall i | 0 <= i < |Assign(ls, q, text)| :: Assign(ls, q, text)[i].q == q || (ls != [] && ls[0].q <= Assign(ls, q, text)[i].q)
  {
    if ls != [] && ls[0].q < q {
      AssignAscends(ls[1..], q, text);
      assert ls[1..] != [] ==> ls[0].q < ls[1..][0].q;
    }
  }

  lemma {:induction false} LabelAbsent(ls: seq<Label>, q: nat)
    requires AscendingLabels(ls) && (ls != [] ==> q < ls[0].q)
    ensures LabelOf(ls, q) == None
  {
    if ls != [] {
      assert ls[1..] != [] ==> ls[0].q < ls[1..][0].q;
      LabelAbsent(ls[1..], q);
    }
  }

  /** An ordered dictionary is determined by what it finds. */
  lemma {:induction false} LabelsUnique(a: seq<Label>, b: seq<Label>)
    requires AscendingLabels(a) && AscendingLabels(b)
    requires forall q: nat :: LabelOf(a, q) == LabelOf(b, q)
    ensures a == b
  {
    if a == [] {
      if b != [] { LabelAt(b, 0); }
    } else if b == [] {
      LabelAt(a, 0);
    } else {
      var p, q := a[0].q, b[0].q;
      assert LabelOf(a, p) == LabelOf(b, p) && LabelOf(a, q) == LabelOf(b, q);
      if p < q { LabelAbsent(b, p); }
      if q < p { LabelAbsent(a, q); }
      forall r: nat ensures LabelOf(a[1..], r) == LabelOf(b[1..], r) {
        assert LabelOf(a, r) == LabelOf(b, r);
        if r == p {
          LabelAbsent(a[1..], r);
          LabelAbsent(b[1..], r);
        }
      }
      LabelsUnique(a[1..], b[1..]);
      assert a == [a[0]] + a[1..] && b == [b[0]] + b[1..];
    }
  }

  /** The member is an entry as the printer writes it, with a short id. */
  ghost predicate Entry(m: Member) { m.value.Str? && exists q: nat :: q <= UINT32_MAX && m.key == Digits(q) }

  lemma {:induction false} EntriesRead(ms: seq<Member>, acc: seq<Label>, q: nat)
    requires Ascending(ms) && AscendingLabels(acc) && forall m | m in ms :: Entry(m)
    ensures ReadLabels(ms, acc).Some? && AscendingLabels(ReadLabels(ms, acc).value)
    ensures LabelOf(ReadLabels(ms, acc).value, q) ==
      if Find(ms, Digits(q)).Some? then AsStr(Find(ms, Digits(q))) else LabelOf(acc, q)
    decreases |ms|
  {
    hide Digits, Stoul, Before, Assign;
    if ms != [] {
      assert Entry(ms[0]);
      var p: nat :| p <= UINT32_MAX && ms[0].key == Digits(p);
      StoulDigits(p);
      var next := Assign(acc, p, ms[0].value.s);
      AssignAscends(acc, p, ms[0].value.s);
      AssignFinds(acc, p, ms[0].value.s, q);
      AscendingTail(ms);
      EntriesRead(ms[1..], next, q);
      if p == q {
        FindLater(ms);
      } else if ms[0].key == Digits(q) {
        DigitsInjective(p, q);
      }
    }
  }

  lemma FindLater(ms: seq<Member>)
    requires Ascending(ms) && ms != []
    ensures Find(ms[1..], ms[0].key) == None
  {
    hide Before;
    AscendingTail(ms);
    forall i | 0 <= i < |ms| - 1 ensures ms[1..][i].key != ms[0].key {
      BeforeStrict(ms[0].key, ms[1..][i].key);
    }
  }

  lemma {:induction false} LongIdFails(ms: seq<Member>, acc: seq<Label>, i: nat)
    requires i < |ms| && Narrow(Stoul(ms[i].key)).None?
    ensures ReadLabels(ms, acc) == None
    decreases |ms|
  {
    hide Stoul, Assign;
    if i > 0 && ms[0].value.Str? && Narrow(Stoul(ms[0].key)).Some? {
      LongIdFails(ms[1..], Assign(acc, Narrow(Stoul(ms[0].key)).value, ms[0].value.s), i - 1);
    }
  }

  lemma {:induction false} EmplacedFrom(ms: seq<Member>, fields: seq<Field>, m: Member)
    requires m in EmplaceAll(ms, fields)
    ensures m in ms || exists i :: 0 <= i < |fields| && m == Member(fields[i].key, JsonOf(fields[i].value))
    decreases |fields|
  {
    hide JsonOf;
    if fields != [] {
      var next := Emplace(ms, fields[0].key, JsonOf(fields[0].value));
      EmplacedFrom(next, fields[1..], m);
      if m in next {
        EmplacedOne(ms, fields[0].key, JsonOf(fields[0].value), m);
      } else {
        var i :| 0 <= i < |fields[1..]| && m == Member(fields[1..][i].key, JsonOf(fields[1..][i].value));
        assert fields[1..][i] == fields[i + 1];
      }
    }
  }

  lemma {:induction false} EmplacedOne(ms: seq<Member>, k: string, v: Json, m: Member)
    requires m in Emplace(ms, k, v)
    ensures m == Member(k, v) || m in ms
  {
    if ms != [] && m != ms[0] && !Before(k, ms[0].key) && ms[0].key != k { EmplacedOne(ms[1..], k, v, m); }
  }

  lemma {:induction false} LabelFirst(ls: seq<Label>, q: nat)
    ensures First(LabelFields(ls), Digits(q)) == match LabelOf(ls, q) case None => None case Some(s) => Some(DStr(s))
  {
    hide Digits;
    if ls != [] {
      LabelFirst(ls[1..], q);
      assert LabelFields(ls)[1..] == LabelFields(ls[1..]);
      if Digits(ls[0].q) == Digits(q) { DigitsInjective(ls[0].q, q); }
    }
  }

  /** The dictionary is read back, whatever order its keys sort into as text. */
  lemma LabelsRead(ls: seq<Label>)
    requires AscendingLabels(ls)
    ensures ReadLabels(EmplaceAll([], LabelFields(ls)), []) == if LegibleLabels(ls) then Some(ls) else None
  {
    hide Digits, Stoul, Before, Find, ReadLabels, EmplaceAll, LabelOf, First;
    var fields := LabelFields(ls);
    var ms := EmplaceAll([], fields);
    forall q: nat ensures Find(ms, Digits(q)) == match LabelOf(ls, q) case None => None case Some(s) => Some(Str(s)) {
      EmplaceAllFinds([], fields, Digits(q));
      EmptyFind(Digits(q));
      LabelFirst(ls, q);
    }
    EmplaceAllFinds([], fields, "");
    if LegibleLabels(ls) {
      forall m | m in ms ensures Entry(m) {
        EmplacedFrom([], fields, m);
        var i :| 0 <= i < |fields| && m == Member(fields[i].key, JsonOf(fields[i].value));
        assert fields[i] == Field(Digits(ls[i].q), DStr(ls[i].text));
      }
      EntriesRead(ms, [], 0);
      forall q: nat ensures LabelOf(ReadLabels(ms, []).value, q) == LabelOf(ls, q) {
        EntriesRead(ms, [], q);
        EmptyLabels(q);
      }
      LabelsUnique(ReadLabels(ms, []).value, ls);
    } else {
      var i :| 0 <= i < |ls| && ls[i].q > UINT32_MAX;
      LabelAt(ls, i);
      var k :| 0 <= k < |ms| && ms[k] == Member(Digits(ls[i].q), Find(ms, Digits(ls[i].q)).value);
      StoulDigits(ls[i].q);
      LongIdFails(ms, [], k);
    }
  }

  lemma EmptyFind(k: string)
    ensures Find([], k) == None
  {
  }

  lemma EmptyLabels(q: nat)
    ensures LabelOf([], q) == None
  {
  }

  lemma {:induction false} LabelAt(ls: seq<Label>, i: nat)
    requires i < |ls|
    ensures LabelOf(ls, ls[i].q).Some?
  {
    if i > 0 { LabelAt(ls[1..], i - 1); }
  }

  // ----- whole files -----

  lemma HeadReads(b: CombineBundle)
    ensures var v := JsonOf(DObj(BundleFields(b)));
      && AsStr(Get(v, "schema")) == Some(b.schema) && Get(v, "producer") == Some(JsonOf(ProducerDoc(b.producer)))
      && AsArr(Get(v, "inputs")) == Some(JsonsOf(InputDocs(b.inputs)))
      && AsStr(Get(v, "region_a")) == Some(b.regionA) && AsStr(Get(v, "region_b")) == Some(b.regionB)
      && AsStr(Get(v, "verdict")) == Some(b.verdict)
  {
    hide Get, ProducerDoc, InputDocs, AssertDocs, FactDocs, CertificateDoc, LabelFields, EmplaceAll;
    var fields := BundleFields(b);
    FieldAt(fields, 0);
    FieldAt(fields, 1);
    FieldAt(fields, 2);
    FieldAt(fields, 3);
    FieldAt(fields, 4);
    FieldAt(fields, 5);
  }

  lemma BodyReads(b: CombineBundle)
    ensures var v := JsonOf(DObj(BundleFields(b)));
      && AsStr(Get(v, "note")) == Some(b.note) && Get(v, "quantities") == Some(Obj(EmplaceAll([], LabelFields(b.quantities))))
      && AsArr(Get(v, "asserts")) == Some(JsonsOf(AssertDocs(b.asserts)))
      && AsArr(Get(v, "derived_facts")) == Some(JsonsOf(FactDocs(b.facts)))
      && Get(v, "certificate") == Some(JsonOf(CertificateDoc(b.certificate)))
  {
    hide Get, ProducerDoc, InputDocs, AssertDocs, FactDocs, CertificateDoc, LabelFields, EmplaceAll;
    var fields := BundleFields(b);
    FieldAt(fields, 6);
    FieldAt(fields, 7);
    FieldAt(fields, 8);
    FieldAt(fields, 9);
    FieldAt(fields, 10);
  }

  lemma BundleReads(b: CombineBundle)
    requires AscendingLabels(b.quantities)
    ensures ReadBundle(JsonOf(DObj(BundleFields(b)))) == if Legible(b) then Some(b) else None
  {
    hide Get, ProducerDoc, InputDocs, AssertDocs, FactDocs, CertificateDoc, LabelFields, EmplaceAll, AllSome, ReadLabels,
      ReadProducer, ReadInputs, ReadAsserts, ReadFacts, ReadCertificate, LegibleLabels, LegibleAsserts, LegibleFacts, LegibleCert,
      BundleFields, JsonOf, JsonsOf;
    HeadReads(b);
    BodyReads(b);
    ProducerReads(b.producer);
    InputsRead(b.inputs);
    DictionaryReads(b.quantities);
    AssertsRead(b.asserts);
    FactsRead(b.facts);
    CertificateReads(b.certificate);
  }

  lemma DictionaryReads(ls: seq<Label>)
    requires AscendingLabels(ls)
    ensures ReadLabels(Obj(EmplaceAll([], LabelFields(ls))).members, []) == if LegibleLabels(ls) then Some(ls) else None
  {
    hide EmplaceAll, LabelFields, ReadLabels;
    LabelsRead(ls);
  }

  /** What reading a text gives. */
  function ReadText(text: string): Option<CombineBundle> { Bind(ParseText(text), ReadBundle) }

  /** A printed bundle is read back, exactly when its numerals are within the
      limit; whatever bytes its strings hold, whatever its formulas and
      certificates are. */
  lemma FileRoundTrip(b: CombineBundle)
    requires AscendingLabels(b.quantities)
    ensures ReadText(Text(DObj(BundleFields(b)), 0)) == if Legible(b) then Some(b) else None
  {
    hide Text, JsonOf, BundleFields, ReadBundle, Legible, ParseText;
    PrintedTextParses(DObj(BundleFields(b)));
    BundleReads(b);
  }

  // ----- the reader -----

  function After<T>(done: seq<T>, rest: Option<seq<T>>): Option<seq<T>> {
    if rest.None? then None else Some(done + rest.value)
  }

  lemma CollectStart<T>(os: seq<Option<T>>)
    ensures AllSome(os) == After([], AllSome(os[0..]))
  {
    assert os[0..] == os;
    assert AllSome(os).Some? ==> [] + AllSome(os).value == AllSome(os).value;
  }

  lemma CollectStep<T>(os: seq<Option<T>>, i: nat, done: seq<T>)
    requires i < |os| && AllSome(os) == After(done, AllSome(os[i..]))
    ensures os[i].None? ==> AllSome(os) == None
    ensures os[i].Some? ==> AllSome(os) == After(done + [os[i].value], AllSome(os[i + 1..]))
  {
    Unfolds(os[i..]);
    assert os[i..][1..] == os[i + 1..];
    hide AllSome;
    if os[i].Some? && AllSome(os[i + 1..]).Some? {
      Reassociated(done, [os[i].value], AllSome(os[i + 1..]).value);
    }
  }

  lemma Unfolds<T>(os: seq<Option<T>>)
    requires os != []
    ensures AllSome(os) == if os[0].None? || AllSome(os[1..]).None? then None else Some([os[0].value] + AllSome(os[1..]).value)
  {
  }

  lemma Reassociated<T>(a: seq<T>, b: seq<T>, c: seq<T>)
    ensures a + (b + c) == a + b + c
  {
  }

  lemma CollectEnd<T>(os: seq<Option<T>>, done: seq<T>)
    requires AllSome(os) == After(done, AllSome(os[|os|..]))
    ensures AllSome(os) == Some(done)
  {
    assert os[|os|..] == [] && done + [] == done;
  }

  method ParseAtom(v: Json) returns (r: Option<BundleFormula>)
    ensures r == ReadAtom(v)
  {
    hide Get, AsQRat, AsRel, AllSome, ReadTerm;
    var items := AsArr(Get(v, "terms"));
    if items.None? { return None; }
    var terms := [];
    ghost var os := ReadTerms(items.value);
    CollectStart(os);
    for i := 0 to |items.value|
      invariant AllSome(os) == After(terms, AllSome(os[i..]))
    {
      CollectStep(os, i, terms);
      var t := ReadTerm(items.value[i]);
      if t.None? { return None; }
      terms := terms + [t.value];
    }
    CollectEnd(os, terms);
    var rel, k := AsRel(Get(v, "rel")), AsQRat(Get(v, "k"));
    if rel.None? || k.None? { return None; }
    r := Some(BAtom(terms, rel.value, k.value));
  }

  method ParseFormula(v: Json) returns (r: Option<BundleFormula>)
    ensures r == ReadFormula(v)
    decreases v
  {
    hide Get, AllSome, ReadAtom;
    var op := AsStr(Get(v, "op"));
    if op.None? { return None; }
    if op.value == "true" { return Some(BTrue); }
    if op.value == "false" { return Some(BFalse); }
    if op.value == "atom" {
      r := ParseAtom(v);
      return;
    }
    if op.value != "and" && op.value != "or" { return None; }
    var items := AsArr(Get(v, "args"));
    if items.None? { return None; }
    var args := [];
    ghost var os := ReadFormulas(items.value);
    CollectStart(os);
    for i := 0 to |items.value|
      invariant AllSome(os) == After(args, AllSome(os[i..]))
    {
      CollectStep(os, i, args);
      var inner := ParseFormula(items.value[i]);
      if inner.None? { return None; }
      args := args + [inner.value];
    }
    CollectEnd(os, args);
    r := Some(if op.value == "and" then BAnd(args) else BOr(args));
  }

  method ParseAssert(v: Json) returns (r: Option<BundleAssert>)
    ensures r == ReadAssert(v)
  {
    hide Get, ReadFormula, ReadSource;
    var name, source, inner := AsStr(Get(v, "name")), Bind(Get(v, "source"), ReadSource), Get(v, "formula");
    if name.None? || source.None? || inner.None? { return None; }
    var formula := ParseFormula(inner.value);
    if formula.None? { return None; }
    r := Some(BundleAssert(name.value, source.value, formula.value));
  }

  method ParseAsserts(items: seq<Json>) returns (r: Option<seq<BundleAssert>>)
    ensures r == AllSome(ReadAsserts(items))
  {
    hide AllSome, ReadAssert;
    var out := [];
    ghost var os := ReadAsserts(items);
    CollectStart(os);
    for i := 0 to |items|
      invariant AllSome(os) == After(out, AllSome(os[i..]))
    {
      CollectStep(os, i, out);
      var a := ParseAssert(items[i]);
      if a.None? { return None; }
      out := out + [a.value];
    }
    CollectEnd(os, out);
    r := Some(out);
  }

  method ParseCertNode(v: Json) returns (r: Option<CertTree>)
    ensures r == ReadCert(v)
    decreases v
  {
    hide Get, AllSome, AsQRat;
    if v.Str? { return if v.s == "Contradiction" then Some(Contradictory) else None; }
    var f := Get(v, "Farkas");
    if f.Some? {
      var items := AsArr(Get(f.value, "multipliers"));
      if items.None? { return None; }
      var lam := [];
      ghost var os := ReadRats(items.value);
      CollectStart(os);
      for i := 0 to |items.value|
        invariant AllSome(os) == After(lam, AllSome(os[i..]))
      {
        CollectStep(os, i, lam);
        var q := AsQRat(Some(items.value[i]));
        if q.None? { return None; }
        lam := lam + [q.value];
      }
      CollectEnd(os, lam);
      return Some(Multipliers(lam));
    }
    var s := Get(v, "Split");
    if s.None? { return None; }
    var items := AsArr(Get(s.value, "branches"));
    if items.None? { return None; }
    var branches := [];
    ghost var os := ReadCerts(items.value);
    CollectStart(os);
    for i := 0 to |items.value|
      invariant AllSome(os) == After(branches, AllSome(os[i..]))
    {
      CollectStep(os, i, branches);
      var n := ParseCertNode(items.value[i]);
      if n.None? { return None; }
      branches := branches + [n.value];
    }
    CollectEnd(os, branches);
    r := Some(Branches(branches));
  }

  method ParseCertificate(v: Option<Json>) returns (r: Option<CertTree>)
    ensures r == Bind(v, ReadCertificate)
  {
    hide Get, ReadCert;
    if v.None? { return None; }
    var root := Get(v.value, "root");
    if root.None? { return None; }
    r := ParseCertNode(root.value);
  }

  method ParseDerivation(v: Json) returns (r: Option<Derivation>)
    ensures r == ReadDerivation(v)
  {
    hide Get, AllSome, ReadAsserts, ReadCertificate;
    var claim, items := AsStr(Get(v, "claim")), AsArr(Get(v, "premises"));
    var cert := ParseCertificate(Get(v, "certificate"));
    if claim.None? || items.None? || cert.None? { return None; }
    var premises := ParseAsserts(items.value);
    if premises.None? { return None; }
    r := Some(Derivation(claim.value, premises.value, cert.value));
  }

  method ParseFact(v: Json) returns (r: Option<DerivedFact>)
    ensures r == ReadFact(v)
  {
    hide Get, AllSome, ReadFormula, ReadDerivation;
    var name, axiom, statement := AsStr(Get(v, "name")), AsStr(Get(v, "axiom")), AsStr(Get(v, "statement"));
    var inner, items := Get(v, "formula"), AsArr(Get(v, "derivations"));
    if name.None? || axiom.None? || statement.None? || inner.None? || items.None? { return None; }
    var formula := ParseFormula(inner.value);
    if formula.None? { return None; }
    var derivations := [];
    ghost var os := ReadDerivations(items.value);
    CollectStart(os);
    for i := 0 to |items.value|
      invariant AllSome(os) == After(derivations, AllSome(os[i..]))
    {
      CollectStep(os, i, derivations);
      var d := ParseDerivation(items.value[i]);
      if d.None? { return None; }
      derivations := derivations + [d.value];
    }
    CollectEnd(os, derivations);
    r := Some(DerivedFact(name.value, axiom.value, statement.value, formula.value, derivations));
  }

  method ParseProducer(v: Json) returns (r: Option<Producer>)
    ensures r == ReadProducer(v)
  {
    hide Get, AllSome;
    var tool, version, items := AsStr(Get(v, "tool")), AsStr(Get(v, "version")), AsArr(Get(v, "schema_history"));
    if tool.None? || version.None? || items.None? { return None; }
    var history := [];
    ghost var os := ReadStrings(items.value);
    CollectStart(os);
    for i := 0 to |items.value|
      invariant AllSome(os) == After(history, AllSome(os[i..]))
    {
      CollectStep(os, i, history);
      if !items.value[i].Str? { return None; }
      history := history + [items.value[i].s];
    }
    CollectEnd(os, history);
    r := Some(Producer(tool.value, version.value, history));
  }

  method ParseInputs(items: seq<Json>) returns (r: Option<seq<BundleInput>>)
    ensures r == AllSome(ReadInputs(items))
  {
    hide Get, AllSome, ReadInput;
    var out := [];
    ghost var os := ReadInputs(items);
    CollectStart(os);
    for i := 0 to |items|
      invariant AllSome(os) == After(out, AllSome(os[i..]))
    {
      CollectStep(os, i, out);
      var x := ReadInput(items[i]);
      if x.None? { return None; }
      out := out + [x.value];
    }
    CollectEnd(os, out);
    r := Some(out);
  }

  method ParseLabels(members: seq<Member>) returns (r: Option<seq<Label>>)
    ensures r == ReadLabels(members, [])
  {
    hide Stoul, Assign;
    var labels := [];
    assert members[0..] == members;
    for i := 0 to |members|
      invariant ReadLabels(members, []) == ReadLabels(members[i..], labels)
    {
      assert members[i..][0] == members[i] && members[i..][1..] == members[i + 1..];
      if !members[i].value.Str? { return None; }
      var q := Stoul(members[i].key);
      if q.None? || q.value > UINT32_MAX { return None; }
      labels := Assign(labels, q.value, members[i].value.s);
    }
    r := Some(labels);
  }

  method ParseFacts(items: seq<Json>) returns (r: Option<seq<DerivedFact>>)
    ensures r == AllSome(ReadFacts(items))
  {
    hide AllSome, ReadFact;
    var out := [];
    ghost var os := ReadFacts(items);
    CollectStart(os);
    for i := 0 to |items|
      invariant AllSome(os) == After(out, AllSome(os[i..]))
    {
      CollectStep(os, i, out);
      var f := ParseFact(items[i]);
      if f.None? { return None; }
      out := out + [f.value];
    }
    CollectEnd(os, out);
    r := Some(out);
  }

  /** Read a bundle; nothing is replayed. */
  method FromJson(text: string) returns (r: Option<CombineBundle>)
    ensures r == ReadText(text)
  {
    hide Get, AllSome, ParseText, ReadProducer, ReadInputs, ReadAsserts, ReadFacts, ReadCertificate, ReadLabels;
    var p := new Parser(text);
    var root := p.Parse();
    if !p.ok { return None; }
    var schema, producers, inputs := AsStr(Get(root, "schema")), Get(root, "producer"), AsArr(Get(root, "inputs"));
    var regionA, regionB := AsStr(Get(root, "region_a")), AsStr(Get(root, "region_b"));
    var verdict, note, labels := AsStr(Get(root, "verdict")), AsStr(Get(root, "note")), Get(root, "quantities");
    var asserts, facts := AsArr(Get(root, "asserts")), AsArr(Get(root, "derived_facts"));
    var cert := ParseCertificate(Get(root, "certificate"));
    if schema.None? || producers.None? || inputs.None? || regionA.None? || regionB.None? || verdict.None? || note.None?
      || labels.None? || !labels.value.Obj? || asserts.None? || facts.None? || cert.None? { return None; }
    var producer := ParseProducer(producers.value);
    var ins := ParseInputs(inputs.value);
    var ls := ParseLabels(labels.value.members);
    var xs := ParseAsserts(asserts.value);
    var fs := ParseFacts(facts.value);
    if producer.None? || ins.None? || ls.None? || xs.None? || fs.None? { return None; }
    r := Some(CombineBundle(schema.value, producer.value, ins.value, regionA.value, regionB.value, verdict.value, note.value,
      ls.value, xs.value, fs.value, cert.value));
  }
}
