/** Bundles as JSON files: the printer, the reader, and that reading a printed
    bundle gives the bundle back. */
module BundleFiles {
  import opened Linear
  import opened Saturation
  import opened Numerals
  import opened JsonText
  import opened Bundles

  // ----- bundles as documents -----

  function RelStr(r: Rel): string {
    match r
    case Lt => "<"
    case Le => "<="
    case Gt => ">"
    case Ge => ">="
    case Eq => "=="
    case Ne => "!="
  }

  function RatDoc(r: QRat): Doc { DStr(Repr(r)) }

  function TermDoc(t: BundleTerm): Doc { DObj([Field("coeff", RatDoc(t.coeff)), Field("q", DNum(t.q))]) }

  function TermDocs(ts: seq<BundleTerm>): seq<Doc> {
    seq(|ts|, i requires 0 <= i < |ts| => TermDoc(ts[i]))
  }

  function FormulaDoc(f: BundleFormula): Doc
    decreases f
  {
    match f
    case BTrue => DObj([Field("op", DStr("true"))])
    case BFalse => DObj([Field("op", DStr("false"))])
    case BAtom(terms, rel, k) =>
      DObj([Field("op", DStr("atom")), Field("terms", DArr(TermDocs(terms))), Field("rel", DStr(RelStr(rel))), Field("k", RatDoc(k))])
    case BAnd(args) => DObj([Field("op", DStr("and")), Field("args", DArr(FormulaDocs(args)))])
    case BOr(args) => DObj([Field("op", DStr("or")), Field("args", DArr(FormulaDocs(args)))])
  }

  function FormulaDocs(fs: seq<BundleFormula>): seq<Doc>
    decreases fs
  {
    seq(|fs|, i requires 0 <= i < |fs| => FormulaDoc(fs[i]))
  }

  function SourceDoc(s: AssertSource): Doc {
    match s
    case Cut(region, line, text, whole) =>
      DObj([Field("kind", DStr("cut")), Field("region", DStr(region)), Field("line", DNum(line)), Field("text", DStr(text)),
        Field("whole", DBool(whole))])
    case Axiom(id, statement, assumption) =>
      DObj([Field("kind", DStr("axiom")), Field("id", DStr(id)), Field("statement", DStr(statement)),
        Field("assumption", DStr(assumption))])
    case Derived(fact) => DObj([Field("kind", DStr("derived")), Field("fact", DStr(fact))])
    case Query(role) => DObj([Field("kind", DStr("query")), Field("role", DStr(role))])
    case Unattributed => DObj([Field("kind", DStr("unattributed"))])
  }

  function AssertDoc(a: BundleAssert): Doc {
    DObj([Field("name", DStr(a.name)), Field("source", SourceDoc(a.source)), Field("formula", FormulaDoc(a.formula))])
  }

  function AssertDocs(xs: seq<BundleAssert>): seq<Doc> {
    seq(|xs|, i requires 0 <= i < |xs| => AssertDoc(xs[i]))
  }

  function RatDocs(rs: seq<QRat>): seq<Doc> {
    seq(|rs|, i requires 0 <= i < |rs| => RatDoc(rs[i]))
  }

  function CertDoc(c: CertTree): Doc
    decreases c
  {
    match c
    case Contradictory => DStr("Contradiction")
    case Multipliers(ms) => DObj([Field("Farkas", DObj([Field("multipliers", DArr(RatDocs(ms)))]))])
    case Branches(bs) => DObj([Field("Split", DObj([Field("branches", DArr(CertDocs(bs)))]))])
  }

  function CertDocs(cs: seq<CertTree>): seq<Doc>
    decreases cs
  {
    seq(|cs|, i requires 0 <= i < |cs| => CertDoc(cs[i]))
  }

  function CertificateDoc(c: CertTree): Doc { DObj([Field("root", CertDoc(c))]) }

  function DerivationDoc(d: Derivation): Doc {
    DObj([Field("claim", DStr(d.claim)), Field("premises", DArr(AssertDocs(d.premises))),
      Field("certificate", CertificateDoc(d.certificate))])
  }

  function FactDoc(f: DerivedFact): Doc {
    DObj([Field("name", DStr(f.name)), Field("axiom", DStr(f.axiom)), Field("statement", DStr(f.statement)),
      Field("formula", FormulaDoc(f.formula)), Field("derivations", DArr(DerivationDocs(f.derivations)))])
  }

  function DerivationDocs(ds: seq<Derivation>): seq<Doc> {
    seq(|ds|, i requires 0 <= i < |ds| => DerivationDoc(ds[i]))
  }

  function FactDocs(xs: seq<DerivedFact>): seq<Doc> {
    seq(|xs|, i requires 0 <= i < |xs| => FactDoc(xs[i]))
  }

  function StrDocs(xs: seq<string>): seq<Doc> {
    seq(|xs|, i requires 0 <= i < |xs| => DStr(xs[i]))
  }

  function ProducerDoc(p: Producer): Doc {
    DObj([Field("tool", DStr(p.tool)), Field("version", DStr(p.version)), Field("schema_history", DArr(StrDocs(p.history)))])
  }

  function InputDoc(i: BundleInput): Doc { DObj([Field("name", DStr(i.name)), Field("sha256", DStr(i.sha256))]) }

  function InputDocs(xs: seq<BundleInput>): seq<Doc> {
    seq(|xs|, i requires 0 <= i < |xs| => InputDoc(xs[i]))
  }

  /** The dictionary is one object, keyed by quantity. */
  function LabelFields(ls: seq<Label>): seq<Field> {
    seq(|ls|, i requires 0 <= i < |ls| => Field(Digits(ls[i].q), DStr(ls[i].text)))
  }

  function BundleFields(b: CombineBundle): seq<Field> {
    [Field("schema", DStr(b.schema)), Field("producer", ProducerDoc(b.producer)), Field("inputs", DArr(InputDocs(b.inputs))),
      Field("region_a", DStr(b.regionA)), Field("region_b", DStr(b.regionB)), Field("verdict", DStr(b.verdict)),
      Field("note", DStr(b.note)), Field("quantities", DObj(LabelFields(b.quantities))),
      Field("asserts", DArr(AssertDocs(b.asserts))), Field("derived_facts", DArr(FactDocs(b.facts))),
      Field("certificate", CertificateDoc(b.certificate))]
  }

  // ----- the printer -----

  predicate Plain(k: string) { forall i | 0 <= i < |k| :: k[i] >= ' ' && k[i] != '"' && k[i] != '\\' }

  lemma {:induction false} PlainKey(k: string)
    requires Plain(k)
    ensures Escape(k) == k
  {
    if k != "" {
      PlainKey(k[1..]);
      assert k == [k[0]] + k[1..];
    }
  }

  // No field name needs escaping.

  lemma FormulaKeys()
    ensures Escape("op") == "op"
    ensures Escape("terms") == "terms"
    ensures Escape("rel") == "rel"
    ensures Escape("k") == "k"
    ensures Escape("args") == "args"
  {
    hide Escape;
    PlainKey("op");
    PlainKey("terms");
    PlainKey("rel");
    PlainKey("k");
    PlainKey("args");
  }

  lemma CutKeys()
    ensures Escape("kind") == "kind"
    ensures Escape("region") == "region"
    ensures Escape("line") == "line"
    ensures Escape("text") == "text"
    ensures Escape("whole") == "whole"
  {
    hide Escape;
    PlainKey("kind");
    PlainKey("region");
    PlainKey("line");
    PlainKey("text");
    PlainKey("whole");
  }

  lemma SourceKeys()
    ensures Escape("kind") == "kind"
    ensures Escape("id") == "id"
    ensures Escape("statement") == "statement"
    ensures Escape("assumption") == "assumption"
    ensures Escape("fact") == "fact"
    ensures Escape("role") == "role"
  {
    hide Escape;
    PlainKey("kind");
    PlainKey("id");
    PlainKey("statement");
    PlainKey("assumption");
    PlainKey("fact");
    PlainKey("role");
  }

  lemma AssertKeys()
    ensures Escape("name") == "name"
    ensures Escape("source") == "source"
    ensures Escape("formula") == "formula"
  {
    hide Escape;
    PlainKey("name");
    PlainKey("source");
    PlainKey("formula");
  }

  lemma CertKeys()
    ensures Escape("Farkas") == "Farkas"
    ensures Escape("multipliers") == "multipliers"
    ensures Escape("Split") == "Split"
    ensures Escape("branches") == "branches"
    ensures Escape("root") == "root"
  {
    hide Escape;
    PlainKey("Farkas");
    PlainKey("multipliers");
    PlainKey("Split");
    PlainKey("branches");
    PlainKey("root");
  }

  lemma DerivationKeys()
    ensures Escape("claim") == "claim"
    ensures Escape("premises") == "premises"
    ensures Escape("certificate") == "certificate"
  {
    hide Escape;
    PlainKey("claim");
    PlainKey("premises");
    PlainKey("certificate");
  }

  lemma FactKeys()
    ensures Escape("name") == "name"
    ensures Escape("axiom") == "axiom"
    ensures Escape("statement") == "statement"
    ensures Escape("formula") == "formula"
    ensures Escape("derivations") == "derivations"
  {
    hide Escape;
    PlainKey("name");
    PlainKey("axiom");
    PlainKey("statement");
    PlainKey("formula");
    PlainKey("derivations");
  }

  lemma ProducerKeys()
    ensures Escape("tool") == "tool"
    ensures Escape("version") == "version"
    ensures Escape("schema_history") == "schema_history"
  {
    hide Escape;
    PlainKey("tool");
    PlainKey("version");
    PlainKey("schema_history");
  }

  lemma TermKeys()
    ensures Escape("coeff") == "coeff"
    ensures Escape("q") == "q"
  {
    hide Escape;
    PlainKey("coeff");
    PlainKey("q");
  }

  lemma InputKeys()
    ensures Escape("name") == "name"
    ensures Escape("sha256") == "sha256"
  {
    hide Escape;
    PlainKey("name");
    PlainKey("sha256");
  }

  lemma HeadKeys()
    ensures Escape("schema") == "schema"
    ensures Escape("producer") == "producer"
    ensures Escape("inputs") == "inputs"
    ensures Escape("region_a") == "region_a"
    ensures Escape("region_b") == "region_b"
    ensures Escape("verdict") == "verdict"
    ensures Escape("note") == "note"
  {
    hide Escape;
    PlainKey("schema");
    PlainKey("producer");
    PlainKey("inputs");
    PlainKey("region_a");
    PlainKey("region_b");
    PlainKey("verdict");
    PlainKey("note");
  }

  lemma BodyKeys()
    ensures Escape("quantities") == "quantities"
    ensures Escape("asserts") == "asserts"
    ensures Escape("derived_facts") == "derived_facts"
    ensures Escape("certificate") == "certificate"
  {
    hide Escape;
    PlainKey("quantities");
    PlainKey("asserts");
    PlainKey("derived_facts");
    PlainKey("certificate");
  }

  method WriteTerm(j: Jw, t: BundleTerm)
    requires j.Ready()
    modifies j
    ensures j.Wrote(old(j.open), TermDoc(t))
  {
    hide Escape, Repr, Jw.Valid;
    TermKeys();
    j.BeginObj();
    j.Key("coeff");
    j.Str(Repr(t.coeff));
    j.Key("q");
    j.U64(t.q);
    assert j.open.fields == TermDoc(t).fields;
    j.EndObj();
  }

  method WriteTerms(j: Jw, ts: seq<BundleTerm>)
    requires j.Ready()
    modifies j
    ensures j.Wrote(old(j.open), DArr(TermDocs(ts)))
  {
    hide TermDoc, Jw.Valid;
    j.BeginArr();
    for i := 0 to |ts|
      invariant j.Valid() && j.open == InArr(old(j.open), TermDocs(ts)[..i], false)
    {
      j.Item();
      WriteTerm(j, ts[i]);
    }
    assert TermDocs(ts)[..|ts|] == TermDocs(ts);
    j.EndArr();
  }

  method WriteFormula(j: Jw, f: BundleFormula)
    requires j.Ready()
    modifies j
    ensures j.Wrote(old(j.open), FormulaDoc(f))
    decreases f
  {
    hide Escape, Repr, TermDocs, FormulaDocs, RelStr, Jw.Valid;
    FormulaKeys();
    j.BeginObj();
    j.Key("op");
    match f {
      case BTrue => j.Str("true");
      case BFalse => j.Str("false");
      case BAtom(terms, rel, k) =>
        j.Str("atom");
        j.Key("terms");
        WriteTerms(j, terms);
        j.Key("rel");
        j.Str(RelStr(rel));
        j.Key("k");
        j.Str(Repr(k));
      case BAnd(args) =>
        j.Str("and");
        j.Key("args");
        WriteFormulas(j, args);
      case BOr(args) =>
        j.Str("or");
        j.Key("args");
        WriteFormulas(j, args);
    }
    assert j.open.fields == FormulaDoc(f).fields;
    j.EndObj();
  }

  method WriteFormulas(j: Jw, fs: seq<BundleFormula>)
    requires j.Ready()
    modifies j
    ensures j.Wrote(old(j.open), DArr(FormulaDocs(fs)))
    decreases fs
  {
    hide FormulaDoc, Jw.Valid;
    j.BeginArr();
    for i := 0 to |fs|
      invariant j.Valid() && j.open == InArr(old(j.open), FormulaDocs(fs)[..i], false)
    {
      j.Item();
      WriteFormula(j, fs[i]);
    }
    assert FormulaDocs(fs)[..|fs|] == FormulaDocs(fs);
    j.EndArr();
  }

  method WriteSource(j: Jw, s: AssertSource)
    requires j.Ready()
    modifies j
    ensures j.Wrote(old(j.open), SourceDoc(s))
  {
    hide Escape, Jw.Valid;
    SourceKeys();
    j.BeginObj();
    j.Key("kind");
    match s {
      case Cut(_, _, _, _) =>
        WriteCut(j, s);
      case Axiom(id, statement, assumption) =>
        j.Str("axiom");
        j.Key("id");
        j.Str(id);
        j.Key("statement");
        j.Str(statement);
        j.Key("assumption");
        j.Str(assumption);
      case Derived(fact) =>
        j.Str("derived");
        j.Key("fact");
        j.Str(fact);
      case Query(role) =>
        j.Str("query");
        j.Key("role");
        j.Str(role);
      case Unattributed =>
        j.Str("unattributed");
    }
    assert j.open.fields == SourceDoc(s).fields;
    j.EndObj();
  }

  /** The fields of a cut, from its kind on. */
  method WriteCut(j: Jw, s: AssertSource)
    requires s.Cut? && j.Ready() && j.open.InObj? && j.open.key == Some("kind") && j.open.fields == []
    modifies j
    ensures j.Valid() && j.open == InObj(old(j.open).below, SourceDoc(s).fields, None)
  {
    hide Escape, Jw.Valid;
    CutKeys();
    j.Str("cut");
    j.Key("region");
    j.Str(s.region);
    j.Key("line");
    j.U64(s.line);
    j.Key("text");
    j.Str(s.text);
    j.Key("whole");
    j.Boolean(s.whole);
    assert j.open.fields == SourceDoc(s).fields;
  }

  method WriteAssert(j: Jw, a: BundleAssert)
    requires j.Ready()
    modifies j
    ensures j.Wrote(old(j.open), AssertDoc(a))
  {
    hide Escape, SourceDoc, FormulaDoc, Jw.Valid;
    AssertKeys();
    j.BeginObj();
    j.Key("name");
    j.Str(a.name);
    j.Key("source");
    WriteSource(j, a.source);
    j.Key("formula");
    WriteFormula(j, a.formula);
    assert j.open.fields == AssertDoc(a).fields;
    j.EndObj();
  }

  method WriteAsserts(j: Jw, xs: seq<BundleAssert>)
    requires j.Ready()
    modifies j
    ensures j.Wrote(old(j.open), DArr(AssertDocs(xs)))
  {
    hide AssertDoc, Jw.Valid;
    j.BeginArr();
    for i := 0 to |xs|
      invariant j.Valid() && j.open == InArr(old(j.open), AssertDocs(xs)[..i], false)
    {
      j.Item();
      WriteAssert(j, xs[i]);
    }
    assert AssertDocs(xs)[..|xs|] == AssertDocs(xs);
    j.EndArr();
  }

  method WriteRats(j: Jw, rs: seq<QRat>)
    requires j.Ready()
    modifies j
    ensures j.Wrote(old(j.open), DArr(RatDocs(rs)))
  {
    hide Repr, Jw.Valid;
    j.BeginArr();
    for i := 0 to |rs|
      invariant j.Valid() && j.open == InArr(old(j.open), RatDocs(rs)[..i], false)
    {
      j.Item();
      j.Str(Repr(rs[i]));
    }
    assert RatDocs(rs)[..|rs|] == RatDocs(rs);
    j.EndArr();
  }

  method WriteCertNode(j: Jw, c: CertTree)
    requires j.Ready()
    modifies j
    ensures j.Wrote(old(j.open), CertDoc(c))
    decreases c
  {
    hide Escape, RatDocs, CertDocs, Jw.Valid;
    CertKeys();
    match c {
      case Contradictory =>
        j.Str("Contradiction");
      case Multipliers(ms) =>
        j.BeginObj();
        j.Key("Farkas");
        j.BeginObj();
        j.Key("multipliers");
        WriteRats(j, ms);
        assert j.open.fields == [Field("multipliers", DArr(RatDocs(ms)))];
        j.EndObj();
        assert j.open.fields == CertDoc(c).fields;
        j.EndObj();
      case Branches(bs) =>
        j.BeginObj();
        j.Key("Split");
        j.BeginObj();
        j.Key("branches");
        WriteCertNodes(j, bs);
        assert j.open.fields == [Field("branches", DArr(CertDocs(bs)))];
        j.EndObj();
        assert j.open.fields == CertDoc(c).fields;
        j.EndObj();
    }
  }

  method WriteCertNodes(j: Jw, cs: seq<CertTree>)
    requires j.Ready()
    modifies j
    ensures j.Wrote(old(j.open), DArr(CertDocs(cs)))
    decreases cs
  {
    hide CertDoc, Jw.Valid;
    j.BeginArr();
    for i := 0 to |cs|
      invariant j.Valid() && j.open == InArr(old(j.open), CertDocs(cs)[..i], false)
    {
      j.Item();
      WriteCertNode(j, cs[i]);
    }
    assert CertDocs(cs)[..|cs|] == CertDocs(cs);
    j.EndArr();
  }

  method WriteCertificate(j: Jw, c: CertTree)
    requires j.Ready()
    modifies j
    ensures j.Wrote(old(j.open), CertificateDoc(c))
  {
    hide Escape, CertDoc, Jw.Valid;
    CertKeys();
    j.BeginObj();
    j.Key("root");
    WriteCertNode(j, c);
    assert j.open.fields == CertificateDoc(c).fields;
    j.EndObj();
  }

  method WriteDerivation(j: Jw, d: Derivation)
    requires j.Ready()
    modifies j
    ensures j.Wrote(old(j.open), DerivationDoc(d))
  {
    hide Escape, AssertDocs, CertificateDoc, Jw.Valid;
    DerivationKeys();
    j.BeginObj();
    j.Key("claim");
    j.Str(d.claim);
    j.Key("premises");
    WriteAsserts(j, d.premises);
    j.Key("certificate");
    WriteCertificate(j, d.certificate);
    assert j.open.fields == DerivationDoc(d).fields;
    j.EndObj();
  }

  method WriteDerivations(j: Jw, ds: seq<Derivation>)
    requires j.Ready()
    modifies j
    ensures j.Wrote(old(j.open), DArr(DerivationDocs(ds)))
  {
    hide DerivationDoc, Jw.Valid;
    j.BeginArr();
    for i := 0 to |ds|
      invariant j.Valid() && j.open == InArr(old(j.open), DerivationDocs(ds)[..i], false)
    {
      j.Item();
      WriteDerivation(j, ds[i]);
    }
    assert DerivationDocs(ds)[..|ds|] == DerivationDocs(ds);
    j.EndArr();
  }

  method WriteFact(j: Jw, f: DerivedFact)
    requires j.Ready()
    modifies j
    ensures j.Wrote(old(j.open), FactDoc(f))
  {
    hide Escape, FormulaDoc, DerivationDocs, Jw.Valid;
    FactKeys();
    j.BeginObj();
    j.Key("name");
    j.Str(f.name);
    j.Key("axiom");
    j.Str(f.axiom);
    j.Key("statement");
    j.Str(f.statement);
    j.Key("formula");
    WriteFormula(j, f.formula);
    j.Key("derivations");
    WriteDerivations(j, f.derivations);
    assert j.open.fields == FactDoc(f).fields;
    j.EndObj();
  }

  method WriteFacts(j: Jw, xs: seq<DerivedFact>)
    requires j.Ready()
    modifies j
    ensures j.Wrote(old(j.open), DArr(FactDocs(xs)))
  {
    hide FactDoc, Jw.Valid;
    j.BeginArr();
    for i := 0 to |xs|
      invariant j.Valid() && j.open == InArr(old(j.open), FactDocs(xs)[..i], false)
    {
      j.Item();
      WriteFact(j, xs[i]);
    }
    assert FactDocs(xs)[..|xs|] == FactDocs(xs);
    j.EndArr();
  }

  method WriteStrings(j: Jw, xs: seq<string>)
    requires j.Ready()
    modifies j
    ensures j.Wrote(old(j.open), DArr(StrDocs(xs)))
  {
    hide Escape, Jw.Valid;
    j.BeginArr();
    for i := 0 to |xs|
      invariant j.Valid() && j.open == InArr(old(j.open), StrDocs(xs)[..i], false)
    {
      j.Item();
      j.Str(xs[i]);
    }
    assert StrDocs(xs)[..|xs|] == StrDocs(xs);
    j.EndArr();
  }

  method WriteProducer(j: Jw, p: Producer)
    requires j.Ready()
    modifies j
    ensures j.Wrote(old(j.open), ProducerDoc(p))
  {
    hide Escape, StrDocs, Jw.Valid;
    ProducerKeys();
    j.BeginObj();
    j.Key("tool");
    j.Str(p.tool);
    j.Key("version");
    j.Str(p.version);
    j.Key("schema_history");
    WriteStrings(j, p.history);
    assert j.open.fields == ProducerDoc(p).fields;
    j.EndObj();
  }

  method WriteInput(j: Jw, x: BundleInput)
    requires j.Ready()
    modifies j
    ensures j.Wrote(old(j.open), InputDoc(x))
  {
    hide Escape, Jw.Valid;
    InputKeys();
    j.BeginObj();
    j.Key("name");
    j.Str(x.name);
    j.Key("sha256");
    j.Str(x.sha256);
    assert j.open.fields == InputDoc(x).fields;
    j.EndObj();
  }

  method WriteInputs(j: Jw, xs: seq<BundleInput>)
    requires j.Ready()
    modifies j
    ensures j.Wrote(old(j.open), DArr(InputDocs(xs)))
  {
    hide InputDoc, Jw.Valid;
    j.BeginArr();
    for i := 0 to |xs|
      invariant j.Valid() && j.open == InArr(old(j.open), InputDocs(xs)[..i], false)
    {
      j.Item();
      WriteInput(j, xs[i]);
    }
    assert InputDocs(xs)[..|xs|] == InputDocs(xs);
    j.EndArr();
  }

  method WriteLabels(j: Jw, ls: seq<Label>)
    requires j.Ready()
    modifies j
    ensures j.Wrote(old(j.open), DObj(LabelFields(ls)))
  {
    hide Escape, Digits, Jw.Valid;
    j.BeginObj();
    for i := 0 to |ls|
      invariant j.Valid() && j.open == InObj(old(j.open), LabelFields(ls)[..i], None)
    {
      j.KeyS(Digits(ls[i].q));
      j.Str(ls[i].text);
    }
    assert LabelFields(ls)[..|ls|] == LabelFields(ls);
    j.EndObj();
  }

  /** The fields of a bundle before its dictionary. */
  method WriteHead(j: Jw, b: CombineBundle)
    requires j.Valid() && j.open.InObj? && j.open.key.None? && j.open.fields == []
    modifies j
    ensures j.Valid() && j.open == old(j.open).(fields := BundleFields(b)[..7])
  {
    hide Escape, ProducerDoc, InputDocs, LabelFields, AssertDocs, FactDocs, CertificateDoc, Jw.Valid;
    HeadKeys();
    j.Key("schema");
    j.Str(b.schema);
    j.Key("producer");
    WriteProducer(j, b.producer);
    j.Key("inputs");
    WriteInputs(j, b.inputs);
    j.Key("region_a");
    j.Str(b.regionA);
    j.Key("region_b");
    j.Str(b.regionB);
    j.Key("verdict");
    j.Str(b.verdict);
    j.Key("note");
    j.Str(b.note);
    assert j.open.fields == BundleFields(b)[..7];
  }

  /** The text of a bundle. */
  method ToJson(b: CombineBundle) returns (text: string)
    ensures text == Text(DObj(BundleFields(b)), 0)
  {
    hide Escape, ProducerDoc, InputDocs, LabelFields, AssertDocs, FactDocs, CertificateDoc, Text, Jw.Valid;
    BodyKeys();
    var j := new Jw();
    j.BeginObj();
    WriteHead(j, b);
    j.Key("quantities");
    WriteLabels(j, b.quantities);
    j.Key("asserts");
    WriteAsserts(j, b.asserts);
    j.Key("derived_facts");
    WriteFacts(j, b.facts);
    j.Key("certificate");
    WriteCertificate(j, b.certificate);
    assert j.open.fields == BundleFields(b);
    j.EndObj();
    j.Finished();
    text := j.out;
  }
}
