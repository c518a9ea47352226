/** The bundle file as an independent reader finds it: the fields of every part,
    by name, in the value that the printed text parses to. */
module BundleFormat {
  import opened Linear
  import opened Saturation
  import opened Numerals
  import opened JsonText
  import opened JsonParse
  import opened Bundles
  import opened BundleFiles
  import opened BundleReader

  predicate Has(v: Json, key: string, value: Json) { Get(v, key) == Some(value) }

  /** A list field, entry by entry. */
  predicate HasList(v: Json, key: string, n: nat) { Get(v, key).Some? && Get(v, key).value.Arr? && |Get(v, key).value.items| == n }

  function Items(v: Json, key: string): (r: seq<Json>)
    ensures Get(v, key).Some? && Get(v, key).value.Arr? ==> r == Get(v, key).value.items
  {
    if Get(v, key).Some? && Get(v, key).value.Arr? then Get(v, key).value.items else []
  }

  predicate SaysTerm(t: BundleTerm, v: Json) { Has(v, "coeff", Str(Repr(t.coeff))) && Has(v, "q", Number(Digits(t.q))) }

  function RelText(rel: Rel): string {
    match rel case Lt => "<" case Le => "<=" case Gt => ">" case Ge => ">=" case Eq => "==" case Ne => "!="
  }

  predicate SaysFormula(f: BundleFormula, v: Json)
    decreases f
  {
    match f
    case BTrue => Has(v, "op", Str("true"))
    case BFalse => Has(v, "op", Str("false"))
    case BAtom(terms, rel, k) =>
      && Has(v, "op", Str("atom")) && Has(v, "rel", Str(RelText(rel))) && Has(v, "k", Str(Repr(k)))
      && HasList(v, "terms", |terms|) && forall i | 0 <= i < |terms| :: SaysTerm(terms[i], Items(v, "terms")[i])
    case BAnd(args) =>
      && Has(v, "op", Str("and")) && HasList(v, "args", |args|)
      && forall i | 0 <= i < |args| :: SaysFormula(args[i], Items(v, "args")[i])
    case BOr(args) =>
      && Has(v, "op", Str("or")) && HasList(v, "args", |args|)
      && forall i | 0 <= i < |args| :: SaysFormula(args[i], Items(v, "args")[i])
  }

  predicate SaysSource(s: AssertSource, v: Json) {
    match s
    case Cut(region, line, text, whole) =>
      && Has(v, "kind", Str("cut")) && Has(v, "region", Str(region)) && Has(v, "line", Number(Digits(line)))
      && Has(v, "text", Str(text)) && Has(v, "whole", Bool(whole))
    case Axiom(id, statement, assumption) =>
      && Has(v, "kind", Str("axiom")) && Has(v, "id", Str(id)) && Has(v, "statement", Str(statement))
      && Has(v, "assumption", Str(assumption))
    case Derived(fact) => Has(v, "kind", Str("derived")) && Has(v, "fact", Str(fact))
    case Query(role) => Has(v, "kind", Str("query")) && Has(v, "role", Str(role))
    case Unattributed => Has(v, "kind", Str("unattributed"))
  }

  predicate SaysAssert(a: BundleAssert, v: Json) {
    && Has(v, "name", Str(a.name))
    && Get(v, "source").Some? && SaysSource(a.source, Get(v, "source").value)
    && Get(v, "formula").Some? && SaysFormula(a.formula, Get(v, "formula").value)
  }

  predicate SaysCert(c: CertTree, v: Json)
    decreases c
  {
    match c
    case Contradictory => v == Str("Contradiction")
    case Multipliers(ms) =>
      && Get(v, "Farkas").Some? && HasList(Get(v, "Farkas").value, "multipliers", |ms|)
      && forall i | 0 <= i < |ms| :: Items(Get(v, "Farkas").value, "multipliers")[i] == Str(Repr(ms[i]))
    case Branches(bs) =>
      && Get(v, "Split").Some? && HasList(Get(v, "Split").value, "branches", |bs|)
      && forall i | 0 <= i < |bs| :: SaysCert(bs[i], Items(Get(v, "Split").value, "branches")[i])
  }

  predicate SaysCertificate(c: CertTree, v: Json) { Get(v, "root").Some? && SaysCert(c, Get(v, "root").value) }

  predicate SaysAsserts(xs: seq<BundleAssert>, v: Json, key: string) {
    HasList(v, key, |xs|) && forall i | 0 <= i < |xs| :: SaysAssert(xs[i], Items(v, key)[i])
  }

  predicate SaysDerivation(d: Derivation, v: Json) {
    && Has(v, "claim", Str(d.claim)) && SaysAsserts(d.premises, v, "premises")
    && Get(v, "certificate").Some? && SaysCertificate(d.certificate, Get(v, "certificate").value)
  }

  predicate SaysFact(f: DerivedFact, v: Json) {
    && Has(v, "name", Str(f.name)) && Has(v, "axiom", Str(f.axiom)) && Has(v, "statement", Str(f.statement))
    && Get(v, "formula").Some? && SaysFormula(f.formula, Get(v, "formula").value)
    && HasList(v, "derivations", |f.derivations|)
    && forall i | 0 <= i < |f.derivations| :: SaysDerivation(f.derivations[i], Items(v, "derivations")[i])
  }

  predicate SaysProducer(p: Producer, v: Json) {
    && Has(v, "tool", Str(p.tool)) && Has(v, "version", Str(p.version)) && HasList(v, "schema_history", |p.history|)
    && forall i | 0 <= i < |p.history| :: Items(v, "schema_history")[i] == Str(p.history[i])
  }

  /** The whole bundle; the dictionary is keyed by the quantities' numbers. */
  predicate SaysBundle(b: CombineBundle, v: Json) {
    && Has(v, "schema", Str(b.schema)) && Has(v, "region_a", Str(b.regionA)) && Has(v, "region_b", Str(b.regionB))
    && Has(v, "verdict", Str(b.verdict)) && Has(v, "note", Str(b.note))
    && Get(v, "producer").Some? && SaysProducer(b.producer, Get(v, "producer").value)
    && HasList(v, "inputs", |b.inputs|)
    && (forall i | 0 <= i < |b.inputs| ::
      Has(Items(v, "inputs")[i], "name", Str(b.inputs[i].name)) && Has(Items(v, "inputs")[i], "sha256", Str(b.inputs[i].sha256)))
    && Get(v, "quantities").Some?
    && (forall i | 0 <= i < |b.quantities| && (forall j | 0 <= j < i :: b.quantities[j].q != b.quantities[i].q) ::
      Has(Get(v, "quantities").value, Digits(b.quantities[i].q), Str(b.quantities[i].text)))
    && SaysAsserts(b.asserts, v, "asserts")
    && HasList(v, "derived_facts", |b.facts|)
    && (forall i | 0 <= i < |b.facts| :: SaysFact(b.facts[i], Items(v, "derived_facts")[i]))
    && Get(v, "certificate").Some? && SaysCertificate(b.certificate, Get(v, "certificate").value)
  }

  // ----- what is printed says what it should -----

  lemma ListAt(fields: seq<Field>, i: nat, ds: seq<Doc>)
    requires i < |fields| && (forall j | 0 <= j < i :: fields[j].key != fields[i].key) && fields[i].value == DArr(ds)
    ensures HasList(JsonOf(DObj(fields)), fields[i].key, |ds|)
    ensures forall k | 0 <= k < |ds| :: Items(JsonOf(DObj(fields)), fields[i].key)[k] == JsonOf(ds[k])
  {
    FieldAt(fields, i);
    JsonsAt(ds);
  }

  lemma TermSays(t: BundleTerm)
    ensures SaysTerm(t, JsonOf(TermDoc(t)))
  {
    hide Get, Repr, Digits;
    FieldAt(TermDoc(t).fields, 0);
    FieldAt(TermDoc(t).fields, 1);
  }

  lemma {:induction false} FormulaSays(f: BundleFormula)
    ensures SaysFormula(f, JsonOf(FormulaDoc(f)))
  {
    hide Get, Repr, SaysTerm, TermDoc;
    var fields := FormulaDoc(f).fields;
    FieldAt(fields, 0);
    match f
    case BAtom(terms, rel, k) =>
      ListAt(fields, 1, TermDocs(terms));
      FieldAt(fields, 2);
      FieldAt(fields, 3);
      forall i | 0 <= i < |terms| { TermSays(terms[i]); }
    case BAnd(args) => ArgsSay(args, fields);
    case BOr(args) => ArgsSay(args, fields);
    case _ =>
  }

  lemma {:induction false} ArgsSay(args: seq<BundleFormula>, fields: seq<Field>)
    requires |fields| == 2 && fields[0].key == "op" && fields[1] == Field("args", DArr(FormulaDocs(args)))
    ensures HasList(JsonOf(DObj(fields)), "args", |args|)
    ensures forall i | 0 <= i < |args| :: SaysFormula(args[i], Items(JsonOf(DObj(fields)), "args")[i])
    decreases args
  {
    hide Get, SaysFormula, FormulaDoc;
    ListAt(fields, 1, FormulaDocs(args));
    forall i | 0 <= i < |args| { FormulaSays(args[i]); }
  }

  lemma SourceSays(s: AssertSource)
    ensures SaysSource(s, JsonOf(SourceDoc(s)))
  {
    hide Get, Digits;
    var fields := SourceDoc(s).fields;
    FieldAt(fields, 0);
    if |fields| > 1 { FieldAt(fields, 1); }
    if |fields| > 2 {
      FieldAt(fields, 2);
      FieldAt(fields, 3);
    }
    if |fields| > 4 { FieldAt(fields, 4); }
  }

  lemma AssertSays(a: BundleAssert)
    ensures SaysAssert(a, JsonOf(AssertDoc(a)))
  {
    hide Get, SaysSource, SaysFormula, SourceDoc, FormulaDoc;
    var fields := AssertDoc(a).fields;
    FieldAt(fields, 0);
    FieldAt(fields, 1);
    FieldAt(fields, 2);
    SourceSays(a.source);
    FormulaSays(a.formula);
  }

  lemma AssertsSay(xs: seq<BundleAssert>, fields: seq<Field>, i: nat)
    requires i < |fields| && (forall j | 0 <= j < i :: fields[j].key != fields[i].key) && fields[i].value == DArr(AssertDocs(xs))
    ensures SaysAsserts(xs, JsonOf(DObj(fields)), fields[i].key)
  {
    hide Get, SaysAssert, AssertDoc;
    ListAt(fields, i, AssertDocs(xs));
    forall k | 0 <= k < |xs| { AssertSays(xs[k]); }
  }

  lemma {:induction false} CertSays(c: CertTree)
    ensures SaysCert(c, JsonOf(CertDoc(c)))
    decreases c, 1
  {
    hide Get, Repr;
    match c
    case Contradictory =>
    case Multipliers(ms) =>
      FieldAt(CertDoc(c).fields, 0);
      ListAt([Field("multipliers", DArr(RatDocs(ms)))], 0, RatDocs(ms));
    case Branches(bs) =>
      FieldAt(CertDoc(c).fields, 0);
      BranchesSay(bs);
  }

  lemma {:induction false} BranchesSay(bs: seq<CertTree>)
    ensures var v := JsonOf(DObj([Field("branches", DArr(CertDocs(bs)))]));
      HasList(v, "branches", |bs|) && forall i | 0 <= i < |bs| :: SaysCert(bs[i], Items(v, "branches")[i])
    decreases bs, 0
  {
    hide Get, SaysCert, CertDoc;
    ListAt([Field("branches", DArr(CertDocs(bs)))], 0, CertDocs(bs));
    forall i | 0 <= i < |bs| { CertSays(bs[i]); }
  }

  lemma CertificateSays(c: CertTree)
    ensures SaysCertificate(c, JsonOf(CertificateDoc(c)))
  {
    hide Get, SaysCert, CertDoc;
    FieldAt(CertificateDoc(c).fields, 0);
    CertSays(c);
  }

  lemma DerivationSays(d: Derivation)
    ensures SaysDerivation(d, JsonOf(DerivationDoc(d)))
  {
    hide Get, SaysAsserts, SaysCertificate, AssertDocs, CertificateDoc;
    var fields := DerivationDoc(d).fields;
    FieldAt(fields, 0);
    AssertsSay(d.premises, fields, 1);
    FieldAt(fields, 2);
    CertificateSays(d.certificate);
  }

  lemma FactSays(f: DerivedFact)
    ensures SaysFact(f, JsonOf(FactDoc(f)))
  {
    hide Get, SaysFormula, SaysDerivation, FormulaDoc, DerivationDoc;
    var fields := FactDoc(f).fields;
    FieldAt(fields, 0);
    FieldAt(fields, 1);
    FieldAt(fields, 2);
    FieldAt(fields, 3);
    ListAt(fields, 4, DerivationDocs(f.derivations));
    FormulaSays(f.formula);
    forall i | 0 <= i < |f.derivations| { DerivationSays(f.derivations[i]); }
  }

  lemma ProducerSays(p: Producer)
    ensures SaysProducer(p, JsonOf(ProducerDoc(p)))
  {
    hide Get;
    var fields := ProducerDoc(p).fields;
    FieldAt(fields, 0);
    FieldAt(fields, 1);
    ListAt(fields, 2, StrDocs(p.history));
  }

  lemma InputSays(i: BundleInput)
    ensures Has(JsonOf(InputDoc(i)), "name", Str(i.name)) && Has(JsonOf(InputDoc(i)), "sha256", Str(i.sha256))
  {
    hide Get;
    FieldAt(InputDoc(i).fields, 0);
    FieldAt(InputDoc(i).fields, 1);
  }

  lemma LabelSays(ls: seq<Label>, i: nat)
    requires i < |ls| && forall j | 0 <= j < i :: ls[j].q != ls[i].q
    ensures Has(JsonOf(DObj(LabelFields(ls))), Digits(ls[i].q), Str(ls[i].text))
  {
    hide Get, Digits;
    forall j | 0 <= j < i ensures LabelFields(ls)[j].key != LabelFields(ls)[i].key {
      if Digits(ls[j].q) == Digits(ls[i].q) { DigitsInjective(ls[j].q, ls[i].q); }
    }
    FieldAt(LabelFields(ls), i);
  }

  /** The printed bundle parses to a value that says all of it. */
  lemma PrintedBundleSays(b: CombineBundle)
    ensures ParseText(Text(DObj(BundleFields(b)), 0)) == Some(JsonOf(DObj(BundleFields(b))))
    ensures SaysBundle(b, JsonOf(DObj(BundleFields(b))))
  {
    hide Get, Text, ParseText, JsonOf, SaysProducer, SaysAsserts, SaysFact, SaysCertificate, ProducerDoc, AssertDocs, FactDoc,
      CertificateDoc, InputDoc, Digits, LabelFields;
    var fields := BundleFields(b);
    PrintedTextParses(DObj(fields));
    SayScalars(b);
    SayParts(b);
    ProducerSays(b.producer);
    ListAt(fields, 2, InputDocs(b.inputs));
    forall i | 0 <= i < |b.inputs| { InputSays(b.inputs[i]); }
    forall i | 0 <= i < |b.quantities| && (forall j | 0 <= j < i :: b.quantities[j].q != b.quantities[i].q)
      ensures Has(JsonOf(DObj(LabelFields(b.quantities))), Digits(b.quantities[i].q), Str(b.quantities[i].text))
    {
      LabelSays(b.quantities, i);
    }
    AssertsSay(b.asserts, fields, 8);
    ListAt(fields, 9, FactDocs(b.facts));
    forall i | 0 <= i < |b.facts| { FactSays(b.facts[i]); }
    CertificateSays(b.certificate);
  }

  lemma SayScalars(b: CombineBundle)
    ensures var v := JsonOf(DObj(BundleFields(b)));
      && Has(v, "schema", Str(b.schema)) && Has(v, "region_a", Str(b.regionA)) && Has(v, "region_b", Str(b.regionB))
      && Has(v, "verdict", Str(b.verdict)) && Has(v, "note", Str(b.note))
  {
    hide Get, ProducerDoc, AssertDocs, FactDocs, CertificateDoc, InputDocs, LabelFields;
    var fields := BundleFields(b);
    FieldAt(fields, 0);
    FieldAt(fields, 3);
    FieldAt(fields, 4);
    FieldAt(fields, 5);
    FieldAt(fields, 6);
  }

  lemma SayParts(b: CombineBundle)
    ensures var v := JsonOf(DObj(BundleFields(b)));
      && Has(v, "producer", JsonOf(ProducerDoc(b.producer))) && Has(v, "quantities", JsonOf(DObj(LabelFields(b.quantities))))
      && Has(v, "certificate", JsonOf(CertificateDoc(b.certificate)))
  {
    hide Get, ProducerDoc, AssertDocs, FactDocs, CertificateDoc, InputDocs, LabelFields;
    var fields := BundleFields(b);
    FieldAt(fields, 1);
    FieldAt(fields, 7);
    FieldAt(fields, 10);
  }
}
