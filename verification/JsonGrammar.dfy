/** The texts that the JSON parser accepts, written down as a grammar: every
    text that the grammar derives is parsed to its value, and nothing else is. */
module JsonGrammar {
  import opened Saturation
  import opened Numerals
  import opened JsonText
  import opened JsonParse

  // ----- strings -----

  /** One piece of a string: a character as it stands, an escape of one letter,
      or four hexadecimal digits and the bytes of their code point. */
  datatype Piece = Raw(c: char) | Letter(k: nat) | Code(digits: string, point: nat, bytes: string)

  /** The one-letter escapes of section 7 of RFC 8259, and the code point of each. */
  const ESCAPES: string := "\"\\/bfnrt"
  const ESCAPED: seq<char> := ['"', '\\', '/', 8 as char, 12 as char, '\n', '\r', '\t']

  predicate HexIs(c: char, n: nat) {
    n < 16 && (c == "0123456789abcdef"[n] || c == "0123456789ABCDEF"[n])
  }

  /** The digits, most significant first, say that number. */
  predicate HexText(digits: string, n: nat) {
    if digits == "" then n == 0
    else HexIs(digits[|digits| - 1], n % 16) && HexText(digits[..|digits| - 1], n / 16)
  }

  predicate Continues(c: char) { 0x80 <= c as nat < 0xC0 }

  /** The bytes of a code point in UTF-8, section 3 of RFC 3629, up to three bytes. */
  predicate SpeltInUtf8(bytes: string, point: nat) {
    match |bytes|
    case 1 => bytes[0] as nat == point < 0x80
    case 2 =>
      && 0xC0 <= bytes[0] as nat < 0xE0 && Continues(bytes[1]) && point >= 0x80
      && point == (bytes[0] as nat - 0xC0) * 0x40 + (bytes[1] as nat - 0x80)
    case 3 =>
      && 0xE0 <= bytes[0] as nat < 0xF0 && Continues(bytes[1]) && Continues(bytes[2]) && point >= 0x800
      && point == ((bytes[0] as nat - 0xE0) * 0x40 + (bytes[1] as nat - 0x80)) * 0x40 + (bytes[2] as nat - 0x80)
    case _ => false
  }

  predicate ProperPiece(p: Piece) {
    match p
    case Raw(c) => c != '"' && c != '\\'
    case Letter(k) => k < |ESCAPES|
    case Code(digits, point, bytes) => |digits| == 4 && HexText(digits, point) && SpeltInUtf8(bytes, point)
  }

  function Spelling(p: Piece): string
    requires ProperPiece(p)
  {
    match p case Raw(c) => [c] case Letter(k) => ['\\', ESCAPES[k]] case Code(digits, _, _) => "\\u" + digits
  }

  function Meaning(p: Piece): string
    requires ProperPiece(p)
  {
    match p case Raw(c) => [c] case Letter(k) => [ESCAPED[k]] case Code(_, _, bytes) => bytes
  }

  predicate ProperPieces(ps: seq<Piece>) { forall p | p in ps :: ProperPiece(p) }

  function PiecesText(ps: seq<Piece>): string
    requires ProperPieces(ps)
  {
    if ps == [] then "" else Spelling(ps[0]) + PiecesText(ps[1..])
  }

  function PiecesMeaning(ps: seq<Piece>): string
    requires ProperPieces(ps)
  {
    if ps == [] then "" else Meaning(ps[0]) + PiecesMeaning(ps[1..])
  }

  lemma AtJoined(t: string, i: nat, a: string, b: string)
    requires At(t, i, a) && At(t, i + |a|, b)
    ensures At(t, i, a + b)
  {
    assert t[i..i + |a| + |b|] == t[i..i + |a|] + t[i + |a|..i + |a| + |b|];
  }

  lemma HexValueExact(c: char, n: nat)
    ensures HexIs(c, n) <==> HexValue(c) == Some(n)
  {
    var lower, upper := "0123456789abcdef", "0123456789ABCDEF";
    if n < 10 {
      assert lower[n] == upper[n] == ('0' as nat + n) as char;
    } else if n < 16 {
      assert lower[n] == ('a' as nat + (n - 10)) as char && upper[n] == ('A' as nat + (n - 10)) as char;
    }
  }

  lemma HexStep(front: string, c: char, n: nat)
    ensures HexText(front + [c], n) <==> HexIs(c, n % 16) && HexText(front, n / 16)
    ensures HexText("", n) <==> n == 0
  {
    hide HexIs;
    assert (front + [c])[..|front|] == front;
  }

  lemma FourDigits(n: nat, a: nat, b: nat, c: nat, d: nat)
    requires a < 16 && b < 16 && c < 16 && d < 16
    ensures n == ((a * 16 + b) * 16 + c) * 16 + d <==>
      n % 16 == d && n / 16 % 16 == c && n / 16 / 16 % 16 == b && n / 16 / 16 / 16 % 16 == a && n / 16 / 16 / 16 / 16 == 0
  {
  }

  lemma HexFour(t: string, i: nat, n: nat)
    requires i + 4 <= |t|
    ensures HexText(t[i..i + 4], n) <==> CodePoint(t, i) == Some(n)
  {
    hide HexIs, HexValue, HexText;
    var n1, n2, n3 := n / 16, n / 16 / 16, n / 16 / 16 / 16;
    assert t[i..i + 4] == "" + [t[i]] + [t[i + 1]] + [t[i + 2]] + [t[i + 3]];
    HexStep("" + [t[i]] + [t[i + 1]] + [t[i + 2]], t[i + 3], n);
    HexStep("" + [t[i]] + [t[i + 1]], t[i + 2], n1);
    HexStep("" + [t[i]], t[i + 1], n2);
    HexStep("", t[i], n3);
    HexStep("", t[i], n3 / 16);
    HexValueExact(t[i + 3], n % 16);
    HexValueExact(t[i + 2], n1 % 16);
    HexValueExact(t[i + 1], n2 % 16);
    HexValueExact(t[i], n3 % 16);
    var a, b, c, d := HexValue(t[i]), HexValue(t[i + 1]), HexValue(t[i + 2]), HexValue(t[i + 3]);
    if a.Some? && b.Some? && c.Some? && d.Some? { FourDigits(n, a.value, b.value, c.value, d.value); }
  }

  lemma Utf8Exact(bytes: string, point: nat)
    requires point < 0x10000
    ensures SpeltInUtf8(bytes, point) <==> bytes == Utf8(point)
  {
    if |bytes| == 3 && SpeltInUtf8(bytes, point) {
      var a, b, c := bytes[0] as nat - 0xE0, bytes[1] as nat - 0x80, bytes[2] as nat - 0x80;
      assert point / 0x40 == a * 0x40 + b && point % 0x40 == c;
      assert point / 0x1000 == a && point / 0x40 % 0x40 == b;
    }
  }

  lemma EscapesExact(e: char, c: char)
    ensures Unescape(e) == Some(c) <==> exists k :: 0 <= k < |ESCAPES| && ESCAPES[k] == e && ESCAPED[k] == c
  {
    assert ESCAPES[0] == '"' && ESCAPES[1] == '\\' && ESCAPES[2] == '/' && ESCAPES[3] == 'b';
    assert ESCAPES[4] == 'f' && ESCAPES[5] == 'n' && ESCAPES[6] == 'r' && ESCAPES[7] == 't';
  }

  lemma PieceParses(t: string, i: nat, p: Piece, acc: string)
    requires ProperPiece(p) && At(t, i, Spelling(p))
    ensures ParseChars(t, i, acc) == ParseChars(t, i + |Spelling(p)|, acc + Meaning(p))
  {
    hide HexText, SpeltInUtf8, CodePoint, Utf8, Unescape;
    AtChar(t, i, Spelling(p), 0);
    match p
    case Raw(_) =>
    case Letter(k) =>
      AtChar(t, i, Spelling(p), 1);
      EscapesExact(ESCAPES[k], ESCAPED[k]);
      assert ESCAPES[k] != 'u';
    case Code(digits, point, bytes) =>
      AtChar(t, i, Spelling(p), 1);
      AtParts(t, i, "\\u", digits);
      HexFour(t, i + 2, point);
      Utf8Exact(bytes, point);
  }

  lemma PiecesUnfold(ps: seq<Piece>, acc: string)
    requires ps != [] && ProperPieces(ps)
    ensures ProperPiece(ps[0]) && ProperPieces(ps[1..])
    ensures PiecesText(ps) + "\"" == Spelling(ps[0]) + (PiecesText(ps[1..]) + "\"")
    ensures acc + Meaning(ps[0]) + PiecesMeaning(ps[1..]) == acc + PiecesMeaning(ps)
  {
    hide ProperPiece, Spelling, Meaning;
  }

  lemma {:induction false} PiecesParse(t: string, i: nat, ps: seq<Piece>, acc: string)
    requires ProperPieces(ps) && At(t, i, PiecesText(ps) + "\"")
    ensures ParseChars(t, i, acc) == Got(acc + PiecesMeaning(ps), i + |PiecesText(ps)| + 1)
    decreases |ps|
  {
    hide ProperPieces, PiecesText, PiecesMeaning, ProperPiece, Spelling, Meaning, At, ParseChars;
    if ps == [] {
      NoPieces(t, i, acc);
    } else {
      PiecesUnfold(ps, acc);
      AtParts(t, i, Spelling(ps[0]), PiecesText(ps[1..]) + "\"");
      PieceParses(t, i, ps[0], acc);
      PiecesParse(t, i + |Spelling(ps[0])|, ps[1..], acc + Meaning(ps[0]));
      assert |PiecesText(ps) + "\""| == |Spelling(ps[0])| + |PiecesText(ps[1..]) + "\""|;
    }
  }

  lemma NoPieces(t: string, i: nat, acc: string)
    requires At(t, i, PiecesText([]) + "\"")
    ensures ParseChars(t, i, acc) == Got(acc + PiecesMeaning([]), i + |PiecesText([])| + 1)
  {
    AtChar(t, i, "\"", 0);
    assert acc + "" == acc;
  }

  /** The piece that the parser sees at a position. */
  lemma PieceFound(t: string, i: nat, acc: string) returns (p: Piece)
    requires i < |t| && t[i] != '"' && ParseChars(t, i, acc).Got?
    ensures ProperPiece(p) && At(t, i, Spelling(p)) && Spelling(p) != ""
  {
    hide HexText, SpeltInUtf8, CodePoint, Utf8, Unescape;
    if t[i] != '\\' { return Raw(t[i]); }
    if t[i + 1] == 'u' {
      var point := CodePoint(t, i + 2).value;
      p := Code(t[i + 2..i + 6], point, Utf8(point));
      HexFour(t, i + 2, point);
      Utf8Exact(p.bytes, point);
      assert t[i..i + 6] == "\\u" + t[i + 2..i + 6];
    } else {
      var c := Unescape(t[i + 1]).value;
      EscapesExact(t[i + 1], c);
      var k :| 0 <= k < |ESCAPES| && ESCAPES[k] == t[i + 1] && ESCAPED[k] == c;
      p := Letter(k);
      assert t[i..i + 2] == ['\\', ESCAPES[k]];
    }
  }

  lemma {:induction false} PiecesFound(t: string, i: nat, acc: string) returns (ps: seq<Piece>)
    requires i <= |t| && ParseChars(t, i, acc).Got?
    ensures ProperPieces(ps) && At(t, i, PiecesText(ps) + "\"")
    decreases |t| - i
  {
    hide ProperPiece, Spelling, Meaning, At;
    if t[i] == '"' {
      QuoteAt(t, i);
      return [];
    }
    var p := PieceFound(t, i, acc);
    PieceParses(t, i, p, acc);
    AtBounds(t, i, Spelling(p));
    var more := PiecesFound(t, i + |Spelling(p)|, acc + Meaning(p));
    ps := [p] + more;
    assert ps[1..] == more;
    AtJoined(t, i, Spelling(p), PiecesText(more) + "\"");
    assert PiecesText(ps) + "\"" == Spelling(p) + (PiecesText(more) + "\"");
  }

  lemma QuoteAt(t: string, i: nat)
    requires i < |t| && t[i] == '"'
    ensures At(t, i, PiecesText([]) + "\"")
  {
  }

  lemma AtBounds(t: string, i: nat, s: string)
    requires At(t, i, s)
    ensures i + |s| <= |t|
  {
  }

  /** A quoted string is accepted exactly when it is spelt by proper pieces. */
  lemma StringExact(t: string, i: nat, s: string, next: nat)
    requires i < |t| && t[i] == '"'
    ensures ParseString(t, i) == Got(s, next) <==>
      exists ps :: ProperPieces(ps) && At(t, i, "\"" + PiecesText(ps) + "\"")
        && s == PiecesMeaning(ps) && next == i + |PiecesText(ps)| + 2
  {
    hide ParseChars, At, ProperPieces, PiecesText, PiecesMeaning, SpaceEnd;
    NotSpace(t, i);
    forall ps | ProperPieces(ps) && At(t, i, "\"" + PiecesText(ps) + "\"")
      ensures ParseString(t, i) == Got(PiecesMeaning(ps), i + |PiecesText(ps)| + 2)
    {
      assert "\"" + PiecesText(ps) + "\"" == "\"" + (PiecesText(ps) + "\"");
      AtParts(t, i, "\"", PiecesText(ps) + "\"");
      PiecesParse(t, i + 1, ps, "");
      assert "" + PiecesMeaning(ps) == PiecesMeaning(ps);
    }
    if ParseString(t, i).Got? {
      var ps := PiecesFound(t, i + 1, "");
      FirstAt(t, i);
      AtJoined(t, i, "\"", PiecesText(ps) + "\"");
      assert "\"" + PiecesText(ps) + "\"" == "\"" + (PiecesText(ps) + "\"");
    }
  }

  lemma FirstAt(t: string, i: nat)
    requires i < |t|
    ensures At(t, i, [t[i]])
  {
  }

  // ----- numbers -----

  /** A numeral of section 6 of RFC 8259. */
  datatype Numeral = Numeral(minus: bool, whole: string, fraction: Option<string>, exponent: Option<Power>)

  datatype Power = Power(mark: char, sign: string, digits: string)

  predicate Figures(s: string) { s != "" && AllDigits(s) }

  predicate ProperPower(p: Power) { p.mark in "eE" && (p.sign == "" || p.sign == "+" || p.sign == "-") && Figures(p.digits) }

  predicate ProperNumeral(n: Numeral) {
    && Figures(n.whole) && (n.whole[0] == '0' ==> |n.whole| == 1)
    && (n.fraction.Some? ==> Figures(n.fraction.value))
    && (n.exponent.Some? ==> ProperPower(n.exponent.value))
  }

  function FractionText(f: Option<string>): string { if f.None? then "" else "." + f.value }

  function PowerText(p: Option<Power>): string { if p.None? then "" else [p.value.mark] + (p.value.sign + p.value.digits) }

  function NumeralText(n: Numeral): string {
    (if n.minus then "-" else "") + (n.whole + (FractionText(n.fraction) + PowerText(n.exponent)))
  }

  lemma DigitsAt(t: string, i: nat, digits: string)
    requires At(t, i, digits) && Figures(digits) && (i + |digits| < |t| ==> !IsDigit(t[i + |digits|]))
    ensures DigitAt(t, i) && DigitEnd(t, i) == i + |digits|
    ensures |digits| > 0 && DigitEnd(t, i + 1) == i + |digits|
  {
    AtChar(t, i, digits, 0);
    assert t[i + 1..i + |digits|] == digits[1..];
    DigitEndAt(t, i, i + |digits|);
    DigitEndAt(t, i + 1, i + |digits|);
  }

  lemma PowerParses(t: string, i: nat, p: Option<Power>)
    requires (p.Some? ==> ProperPower(p.value)) && At(t, i, PowerText(p)) && Ends(t, i + |PowerText(p)|)
    ensures ExponentEnd(t, i) == Some(i + |PowerText(p)|)
    ensures i < |t| ==> !IsDigit(t[i]) && t[i] != '.'
  {
    hide DigitEnd, AllDigits, At;
    if p.Some? {
      var x := p.value;
      assert PowerText(p) == [x.mark] + (x.sign + x.digits);
      AtParts(t, i, [x.mark], x.sign + x.digits);
      AtChar(t, i, [x.mark], 0);
      AtParts(t, i + 1, x.sign, x.digits);
      DigitsAt(t, i + 1 + |x.sign|, x.digits);
      if x.sign != "" {
        AtChar(t, i + 1, x.sign, 0);
      } else {
        assert IsDigit(t[i + 1]);
      }
    }
  }

  lemma FractionParses(t: string, i: nat, f: Option<string>)
    requires (f.Some? ==> Figures(f.value)) && At(t, i, FractionText(f))
    requires var e := i + |FractionText(f)|; e < |t| ==> !IsDigit(t[e]) && t[e] != '.'
    ensures FractionEnd(t, i) == Some(i + |FractionText(f)|)
    ensures i < |t| ==> !IsDigit(t[i])
  {
    hide DigitEnd, AllDigits;
    if f.Some? {
      AtChar(t, i, FractionText(f), 0);
      AtParts(t, i, ".", f.value);
      DigitsAt(t, i + 1, f.value);
    }
  }

  lemma NumberParts(t: string, i: nat, a: nat, b: nat, c: nat)
    requires a == (if NextIs(t, i, '-') then i + 1 else i) && DigitAt(t, a)
    requires b == (if t[a] == '0' then a + 1 else DigitEnd(t, a + 1)) && FractionEnd(t, b) == Some(c)
    requires ExponentEnd(t, c).Some?
    ensures ParseNumber(t, i) == Got(Number(t[i..ExponentEnd(t, c).value]), ExponentEnd(t, c).value)
  {
    hide DigitEnd, AllDigits, FractionEnd, ExponentEnd;
  }

  /** Where the parts of a numeral begin. */
  lemma NumeralParts(t: string, i: nat, n: Numeral)
    requires At(t, i, NumeralText(n))
    ensures var a := if n.minus then i + 1 else i; var b := a + |n.whole|; var c := b + |FractionText(n.fraction)|;
      && At(t, a, n.whole) && At(t, b, FractionText(n.fraction)) && At(t, c, PowerText(n.exponent))
      && c + |PowerText(n.exponent)| == i + |NumeralText(n)|
    ensures n.minus ==> NextIs(t, i, '-')
  {
    hide At, PowerText, FractionText;
    var f, p := FractionText(n.fraction), PowerText(n.exponent);
    if n.minus {
      AtParts(t, i, "-", n.whole + (f + p));
      AtChar(t, i, "-", 0);
    } else {
      assert NumeralText(n) == n.whole + (f + p);
    }
    var a := if n.minus then i + 1 else i;
    AtParts(t, a, n.whole, f + p);
    AtParts(t, a + |n.whole|, f, p);
  }

  lemma NumeralParses(t: string, i: nat, n: Numeral)
    requires ProperNumeral(n) && At(t, i, NumeralText(n)) && Ends(t, i + |NumeralText(n)|)
    ensures ParseNumber(t, i) == Got(Number(NumeralText(n)), i + |NumeralText(n)|)
    ensures i < |t| && (t[i] == '-' || IsDigit(t[i]))
  {
    hide DigitEnd, AllDigits, FractionEnd, ExponentEnd, PowerText, FractionText, NumeralText, At, ParseNumber, Ends;
    var a := if n.minus then i + 1 else i;
    var b := a + |n.whole|;
    var c := b + |FractionText(n.fraction)|;
    NumeralParts(t, i, n);
    TextAt(t, i, NumeralText(n));
    PowerParses(t, c, n.exponent);
    FractionParses(t, b, n.fraction);
    DigitsAt(t, a, n.whole);
    AtChar(t, a, n.whole, 0);
    NumberParts(t, i, a, b, c);
  }

  lemma TextAt(t: string, i: nat, s: string)
    requires At(t, i, s)
    ensures i + |s| <= |t| && t[i..i + |s|] == s
  {
  }

  /** A run of digits that ends somewhere ends where the scan does. */
  lemma RunFound(t: string, i: nat)
    requires DigitAt(t, i)
    ensures var e := DigitEnd(t, i + 1); i < e <= |t| && Figures(t[i..e]) && t[i..e][0] == t[i]
  {
    var e := DigitEnd(t, i + 1);
    assert t[i..e] == [t[i]] + t[i + 1..e];
  }

  lemma DigitEndFrom(t: string, i: nat)
    requires DigitAt(t, i)
    ensures DigitEnd(t, i) == DigitEnd(t, i + 1)
  {
  }

  lemma SliceAt(t: string, i: nat, j: nat)
    requires i <= j <= |t|
    ensures At(t, i, t[i..j]) && |t[i..j]| == j - i
  {
  }

  lemma FractionFound(t: string, i: nat) returns (f: Option<string>)
    requires i <= |t| && FractionEnd(t, i).Some?
    ensures f.Some? ==> Figures(f.value)
    ensures At(t, i, FractionText(f)) && FractionEnd(t, i).value == i + |FractionText(f)|
  {
    hide DigitEnd, AllDigits;
    if !NextIs(t, i, '.') { return None; }
    RunFound(t, i + 1);
    DigitEndFrom(t, i + 1);
    var e := DigitEnd(t, i + 1);
    f := Some(t[i + 1..e]);
    FirstAt(t, i);
    SliceAt(t, i + 1, e);
    AtJoined(t, i, ".", f.value);
  }

  lemma PowerFound(t: string, i: nat) returns (p: Option<Power>)
    requires i <= |t| && ExponentEnd(t, i).Some?
    ensures p.Some? ==> ProperPower(p.value)
    ensures At(t, i, PowerText(p)) && ExponentEnd(t, i).value == i + |PowerText(p)|
  {
    hide DigitEnd, AllDigits, At;
    if !NextIs(t, i, 'e') && !NextIs(t, i, 'E') {
      SliceAt(t, i, i);
      return None;
    }
    var j := if NextIs(t, i + 1, '+') || NextIs(t, i + 1, '-') then i + 2 else i + 1;
    RunFound(t, j);
    DigitEndFrom(t, j);
    var e := DigitEnd(t, j);
    p := Some(Power(t[i], if j == i + 1 then "" else [t[i + 1]], t[j..e]));
    assert t[i + 1..j] == p.value.sign;
    FirstAt(t, i);
    SliceAt(t, i + 1, j);
    SliceAt(t, j, e);
    AtJoined(t, i + 1, p.value.sign, p.value.digits);
    AtJoined(t, i, [t[i]], p.value.sign + p.value.digits);
  }

  /** Where the parts of an accepted number end. */
  lemma NumberShape(t: string, i: nat)
    requires i <= |t| && ParseNumber(t, i).Got?
    ensures var a := if NextIs(t, i, '-') then i + 1 else i;
      && DigitAt(t, a)
      && var b := if t[a] == '0' then a + 1 else DigitEnd(t, a + 1);
         FractionEnd(t, b).Some? && ExponentEnd(t, FractionEnd(t, b).value).Some?
  {
    hide DigitEnd, AllDigits, FractionEnd, ExponentEnd;
  }

  lemma NumeralJoined(t: string, i: nat, n: Numeral, a: nat, b: nat, c: nat)
    requires a == (if n.minus then i + 1 else i) && b == a + |n.whole| && c == b + |FractionText(n.fraction)|
    requires n.minus ==> NextIs(t, i, '-')
    requires At(t, a, n.whole) && At(t, b, FractionText(n.fraction)) && At(t, c, PowerText(n.exponent))
    ensures At(t, i, NumeralText(n)) && i + |NumeralText(n)| == c + |PowerText(n.exponent)|
  {
    hide At, FractionText, PowerText;
    var f, p := FractionText(n.fraction), PowerText(n.exponent);
    AtJoined(t, b, f, p);
    AtJoined(t, a, n.whole, f + p);
    if n.minus {
      FirstAt(t, i);
      AtJoined(t, i, "-", n.whole + (f + p));
    } else {
      assert NumeralText(n) == n.whole + (f + p);
    }
  }

  lemma NumeralFound(t: string, i: nat) returns (n: Numeral)
    requires i <= |t| && ParseNumber(t, i).Got?
    ensures ProperNumeral(n) && At(t, i, NumeralText(n)) && ParseNumber(t, i).next == i + |NumeralText(n)|
    ensures ParseNumber(t, i).value == Number(NumeralText(n))
  {
    hide DigitEnd, AllDigits, FractionEnd, ExponentEnd, PowerText, FractionText, NumeralText, At, ParseNumber;
    NumberShape(t, i);
    var a := if NextIs(t, i, '-') then i + 1 else i;
    var b := if t[a] == '0' then a + 1 else DigitEnd(t, a + 1);
    var c := FractionEnd(t, b).value;
    RunFound(t, a);
    if t[a] == '0' { ZeroFigure(t, a); }
    var f := FractionFound(t, b);
    var p := PowerFound(t, c);
    n := Numeral(NextIs(t, i, '-'), t[a..b], f, p);
    SliceAt(t, a, b);
    NumeralJoined(t, i, n, a, b, c);
    NumberParts(t, i, a, b, c);
    TextAt(t, i, NumeralText(n));
  }

  lemma ZeroFigure(t: string, a: nat)
    requires a < |t| && t[a] == '0'
    ensures Figures(t[a..a + 1]) && t[a..a + 1] == "0"
  {
  }

  // ----- values -----

  /** The derivation of a value: words, numerals, strings, and lists and records
      of entries with space around them; an empty one may hold a gap of space. */
  datatype Tree =
    | Word(word: string)
    | Numeric(n: Numeral)
    | Quote(ps: seq<Piece>)
    | List(gap: string, items: seq<Entry>)
    | Record(gap: string, fields: seq<Pair>)

  datatype Entry = Entry(before: string, tree: Tree, after: string)

  datatype Pair = Pair(before: string, key: seq<Piece>, colon: string, entry: Entry)

  /** The six characters that count as space. */
  predicate AllSpace(s: string) { forall c | c in s :: c in [' ', '\t', '\n', 11 as char, 12 as char, '\r'] }

  predicate Proper(tree: Tree)
  {
    match tree
    case Word(word) => word == "true" || word == "false" || word == "null"
    case Numeric(n) => ProperNumeral(n)
    case Quote(ps) => ProperPieces(ps)
    case List(gap, items) => AllSpace(gap) && forall e | e in items :: Proper(e.tree) && Spaced(e)
    case Record(gap, fields) => AllSpace(gap) && forall f | f in fields :: Proper(f.entry.tree) && Keyed(f)
  }

  predicate Spaced(e: Entry) { AllSpace(e.before) && AllSpace(e.after) }

  predicate Keyed(f: Pair) { AllSpace(f.before) && ProperPieces(f.key) && AllSpace(f.colon) && Spaced(f.entry) }

  predicate ProperEntry(e: Entry) { Proper(e.tree) && Spaced(e) }

  predicate ProperPair(f: Pair) { Proper(f.entry.tree) && Keyed(f) }

  function TreeText(tree: Tree): string
    requires Proper(tree)
    decreases tree, 1
  {
    match tree
    case Word(word) => word
    case Numeric(n) => NumeralText(n)
    case Quote(ps) => QuoteText(ps)
    case List(gap, items) => "[" + ((if items == [] then gap else EntriesText(items)) + "]")
    case Record(gap, fields) => "{" + ((if fields == [] then gap else PairsText(fields)) + "}")
  }

  function QuoteText(ps: seq<Piece>): string
    requires ProperPieces(ps)
  {
    "\"" + PiecesText(ps) + "\""
  }

  function EntryText(e: Entry): string
    requires ProperEntry(e)
    decreases e, 2
  {
    e.before + (TreeText(e.tree) + e.after)
  }

  function EntriesText(items: seq<Entry>): string
    requires items != [] && forall e | e in items :: ProperEntry(e)
    decreases items, 3
  {
    if |items| == 1 then EntryText(items[0]) else EntryText(items[0]) + ("," + EntriesText(items[1..]))
  }

  function PairText(f: Pair): string
    requires ProperPair(f)
    decreases f, 3
  {
    f.before + (QuoteText(f.key) + (f.colon + (":" + EntryText(f.entry))))
  }

  function PairsText(fields: seq<Pair>): string
    requires fields != [] && forall f | f in fields :: ProperPair(f)
    decreases fields, 4
  {
    if |fields| == 1 then PairText(fields[0]) else PairText(fields[0]) + ("," + PairsText(fields[1..]))
  }

  /** What a derivation says; of several fields under one key the first counts. */
  function ValueOf(tree: Tree): Json
    requires Proper(tree)
    decreases tree, 1
  {
    match tree
    case Word(word) => if word == "true" then Bool(true) else if word == "false" then Bool(false) else Null
    case Numeric(n) => Number(NumeralText(n))
    case Quote(ps) => Str(PiecesMeaning(ps))
    case List(_, items) => Arr(Values(items))
    case Record(_, fields) => Obj(Entered([], fields))
  }

  function Values(items: seq<Entry>): seq<Json>
    requires forall e | e in items :: ProperEntry(e)
    decreases items, 3
  {
    if items == [] then []
    else
      assert ProperEntry(items[0]);
      [ValueOf(items[0].tree)] + Values(items[1..])
  }

  function Entered(ms: seq<Member>, fields: seq<Pair>): seq<Member>
    requires forall f | f in fields :: ProperPair(f)
    decreases fields, 4
  {
    if fields == [] then ms
    else
      assert ProperPair(fields[0]);
      Entered(Emplace(ms, PiecesMeaning(fields[0].key), ValueOf(fields[0].entry.tree)), fields[1..])
  }

  // ----- every derivation is parsed to what it says -----

  lemma SpaceExact(c: char)
    ensures c in [' ', '\t', '\n', 11 as char, 12 as char, '\r'] <==> IsSpace(c)
  {
  }

  lemma SpaceFirst(s: string)
    requires AllSpace(s) && s != ""
    ensures IsSpace(s[0]) && AllSpace(s[1..]) && s == [s[0]] + s[1..]
  {
    assert s[0] in s;
    SpaceExact(s[0]);
    assert forall c | c in s[1..] :: c in s;
  }

  lemma {:induction false} SpaceSkipped(t: string, i: nat, s: string)
    requires AllSpace(s) && At(t, i, s)
    ensures i + |s| <= |t| && SpaceEnd(t, i) == SpaceEnd(t, i + |s|)
    decreases |s|
  {
    hide AllSpace, At, IsSpace, SpaceEnd;
    AtBounds(t, i, s);
    if s != "" {
      SpaceFirst(s);
      AtParts(t, i, [s[0]], s[1..]);
      AtChar(t, i, [s[0]], 0);
      SpaceSkipped(t, i + 1, s[1..]);
      OneSpace(t, i);
      assert i + 1 + |s[1..]| == i + |s|;
    }
  }

  /** Space, and then something else. */
  lemma SkippedTo(t: string, i: nat, s: string, rest: string)
    requires AllSpace(s) && At(t, i, s + rest) && rest != "" && !IsSpace(rest[0])
    ensures SpaceEnd(t, i) == i + |s| == SpaceEnd(t, i + |s|)
    ensures At(t, i + |s|, rest) && NextIs(t, i + |s|, rest[0])
  {
    hide AllSpace, At, SpaceEnd;
    AtParts(t, i, s, rest);
    AtChar(t, i + |s|, rest, 0);
    SpaceSkipped(t, i, s);
    NotSpace(t, i + |s|);
  }

  lemma TreeStarts(tree: Tree)
    requires Proper(tree)
    ensures TreeText(tree) != "" && !IsSpace(TreeText(tree)[0]) && TreeText(tree)[0] !in "]}"
  {
    hide EntriesText, PairsText, PiecesText, FractionText, PowerText;
    if tree.Numeric? { assert IsDigit(tree.n.whole[0]); }
  }

  lemma ListUnfold(items: seq<Entry>, tail: string)
    requires items != [] && forall e | e in items :: ProperEntry(e)
    ensures ProperEntry(items[0]) && forall e | e in items[1..] :: ProperEntry(e)
    ensures EntriesText(items) + tail == EntryText(items[0]) +
      if |items| == 1 then tail else "," + (EntriesText(items[1..]) + tail)
  {
    hide EntryText, Proper, Spaced;
    if |items| > 1 {
      assert EntriesText(items) == EntryText(items[0]) + ("," + EntriesText(items[1..]));
      Regrouped(EntryText(items[0]), "," + EntriesText(items[1..]), tail);
      Regrouped(",", EntriesText(items[1..]), tail);
    }
  }

  lemma ValuesUnfold(items: seq<Entry>)
    requires items != [] && forall e | e in items :: ProperEntry(e)
    ensures ProperEntry(items[0]) && forall e | e in items[1..] :: ProperEntry(e)
    ensures Values(items) == [ValueOf(items[0].tree)] + Values(items[1..])
  {
    hide ValueOf, Proper, Spaced;
    assert ProperEntry(items[0]);
  }

  lemma RecordUnfold(fields: seq<Pair>, tail: string, ms: seq<Member>)
    requires fields != [] && forall f | f in fields :: ProperPair(f)
    ensures ProperPair(fields[0]) && forall f | f in fields[1..] :: ProperPair(f)
    ensures PairsText(fields) + tail == PairText(fields[0]) +
      if |fields| == 1 then tail else "," + (PairsText(fields[1..]) + tail)
    ensures var next := Emplace(ms, PiecesMeaning(fields[0].key), ValueOf(fields[0].entry.tree));
      Entered(ms, fields) == if |fields| == 1 then next else Entered(next, fields[1..])
  {
    hide PairText, ValueOf, Emplace, PiecesMeaning;
    assert ProperPair(fields[0]);
    if |fields| == 1 { assert fields[1..] == []; }
  }

  /** An entry is read wherever it stands, and the cursor is before what follows it. */
  lemma EntryParses(t: string, p: nat, i: nat, e: Entry, rest: string)
    requires ProperEntry(e) && At(t, i, EntryText(e) + rest) && (rest == "" || rest[0] in ",]}")
    requires p <= |t| && i <= |t| && SpaceEnd(t, p) == SpaceEnd(t, i)
    requires rest == "" ==> |t| == i + |EntryText(e)|
    ensures var c := i + |e.before| + |TreeText(e.tree)|;
      ParseValue(t, p) == Got(ValueOf(e.tree), c) && SpaceEnd(t, c) == i + |EntryText(e)|
    ensures At(t, i + |EntryText(e)|, rest) && (rest != "" ==> NextIs(t, i + |EntryText(e)|, rest[0]))
    decreases e, 2
  {
    hide TreeText, ValueOf, Proper, AllSpace, At, SpaceEnd, ParseValue;
    var j, text := i + |e.before|, TreeText(e.tree);
    assert EntryText(e) + rest == e.before + (text + (e.after + rest));
    TreeStarts(e.tree);
    SkippedTo(t, i, e.before, text + (e.after + rest));
    AtParts(t, j, text, e.after + rest);
    AfterTree(t, j + |text|, e.after, rest);
    TreeParses(t, j, e.tree);
    ValueAfterSpace(t, p, j);
  }

  lemma AfterTree(t: string, c: nat, after: string, rest: string)
    requires AllSpace(after) && At(t, c, after + rest) && (rest == "" || rest[0] in ",]}")
    requires rest == "" ==> |t| == c + |after|
    ensures Ends(t, c) && SpaceEnd(t, c) == c + |after| && At(t, c + |after|, rest)
    ensures rest != "" ==> NextIs(t, c + |after|, rest[0])
  {
    hide At, SpaceEnd;
    AtParts(t, c, after, rest);
    SpaceSkipped(t, c, after);
    if rest != "" {
      AtChar(t, c + |after|, rest, 0);
      NotSpace(t, c + |after|);
    } else {
      AtEnd(t);
    }
    if after != "" { AtChar(t, c, after, 0); SpaceExact(after[0]); assert after[0] in after; }
  }

  lemma AtEnd(t: string)
    ensures SpaceEnd(t, |t|) == |t|
  {
  }

  lemma WordParses(t: string, i: nat, word: string)
    requires (word == "true" || word == "false" || word == "null") && At(t, i, word)
    ensures i < |t| && ParseValue(t, i) == Got(ValueOf(Word(word)), i + |word|)
  {
    hide ParseNumber, ParseString, ParseItems, ParseMembers;
    AtChar(t, i, word, 0);
    NotSpace(t, i);
    if word == "false" && i + 4 <= |t| { assert t[i..i + 4][0] == 'f'; }
  }

  /** Strings and numbers are told by their first character. */
  lemma Begins(t: string, i: nat)
    requires i < |t| && !IsSpace(t[i])
    ensures t[i] == '"' ==> ParseValue(t, i) == match ParseString(t, i) case Fail => Fail case Got(s, next) => Got(Str(s), next)
    ensures t[i] == '-' || IsDigit(t[i]) ==> ParseValue(t, i) == ParseNumber(t, i)
  {
    hide ParseNumber, ParseString, ParseItems, ParseMembers;
    NotSpace(t, i);
  }

  /** Every derivation, wherever its text stands, is parsed to its value. */
  lemma {:induction false} TreeParses(t: string, i: nat, tree: Tree)
    requires Proper(tree) && At(t, i, TreeText(tree)) && Ends(t, i + |TreeText(tree)|)
    ensures i <= |t| && ParseValue(t, i) == Got(ValueOf(tree), i + |TreeText(tree)|)
    decreases tree, 1
  {
    hide PiecesText, NumeralText, EntriesText, PairsText, ParseNumber, ParseString, ParseItems, ParseMembers, ParseValue, At;
    match tree
    case Word(word) => WordParses(t, i, word);
    case Numeric(n) =>
      NumeralParses(t, i, n);
      Begins(t, i);
    case Quote(ps) =>
      QuoteParses(t, i, ps);
      Begins(t, i);
    case List(gap, items) => ListParses(t, i, gap, items);
    case Record(gap, fields) => RecordParses(t, i, gap, fields);
  }

  lemma QuoteParses(t: string, i: nat, ps: seq<Piece>)
    requires ProperPieces(ps) && At(t, i, QuoteText(ps))
    ensures i < |t| && t[i] == '"' && ParseString(t, i) == Got(PiecesMeaning(ps), i + |QuoteText(ps)|)
  {
    hide PiecesText, PiecesMeaning, ParseString, ProperPieces;
    AtChar(t, i, QuoteText(ps), 0);
    StringExact(t, i, PiecesMeaning(ps), i + |QuoteText(ps)|);
  }

  lemma ListParses(t: string, i: nat, gap: string, items: seq<Entry>)
    requires Proper(List(gap, items)) && At(t, i, TreeText(List(gap, items)))
    ensures i < |t| && t[i] == '[' && SpaceEnd(t, i) == i
    ensures ParseValue(t, i) == Got(Arr(Values(items)), i + |TreeText(List(gap, items))|)
    decreases items, 4
  {
    hide EntriesText, Values, ParseValue, ParseItems, SpaceEnd, At, AllSpace;
    var body := if items == [] then gap else EntriesText(items);
    assert TreeText(List(gap, items)) == "[" + (body + "]");
    AtParts(t, i, "[", body + "]");
    AtChar(t, i, "[", 0);
    NotSpace(t, i);
    Opens(t, i);
    if items == [] {
      SkippedTo(t, i + 1, gap, "]");
      NoValues();
    } else {
      var k := SpaceEnd(t, i + 1);
      SpaceEndSettled(t, i + 1);
      ListFirst(t, i + 1, items);
      EntriesParse(t, k, i + 1, items, []);
      assert [] + Values(items) == Values(items);
    }
  }

  lemma NoValues()
    ensures Values([]) == []
  {
  }

  lemma ListFirst(t: string, i: nat, items: seq<Entry>)
    requires items != [] && (forall e | e in items :: ProperEntry(e)) && At(t, i, EntriesText(items) + "]")
    ensures i <= |t| && !NextIs(t, SpaceEnd(t, i), ']')
  {
    hide TreeText, At, SpaceEnd, AllSpace, Proper;
    ListUnfold(items, "]");
    var e := items[0];
    var rest := if |items| == 1 then "]" else "," + (EntriesText(items[1..]) + "]");
    assert EntryText(e) + rest == e.before + (TreeText(e.tree) + (e.after + rest));
    TreeStarts(e.tree);
    SkippedTo(t, i, e.before, TreeText(e.tree) + (e.after + rest));
  }

  lemma {:induction false} EntriesParse(t: string, p: nat, i: nat, items: seq<Entry>, acc: seq<Json>)
    requires items != [] && (forall e | e in items :: ProperEntry(e)) && At(t, i, EntriesText(items) + "]")
    requires p <= |t| && i <= |t| && SpaceEnd(t, p) == SpaceEnd(t, i)
    ensures ParseItems(t, p, acc) == Got(Arr(acc + Values(items)), i + |EntriesText(items)| + 1)
    decreases items, 3
  {
    hide EntriesText, EntryText, TreeText, ValueOf, Values, ParseValue, ParseItems, SpaceEnd, At, AllSpace, Proper;
    ListUnfold(items, "]");
    ValuesUnfold(items);
    var rest := if |items| == 1 then "]" else "," + (EntriesText(items[1..]) + "]");
    var v, d := ValueOf(items[0].tree), i + |EntryText(items[0])|;
    EntryParses(t, p, i, items[0], rest);
    ItemStep(t, p, i + |items[0].before| + |TreeText(items[0].tree)|, d, v, acc);
    if |items| == 1 {
      assert items[1..] == [];
      NoValues();
      assert acc + ([v] + []) == acc + [v];
    } else {
      AtParts(t, d, ",", EntriesText(items[1..]) + "]");
      AtBounds(t, d, ",");
      EntriesParse(t, d + 1, d + 1, items[1..], acc + [v]);
      assert acc + [v] + Values(items[1..]) == acc + ([v] + Values(items[1..]));
    }
    assert |EntriesText(items) + "]"| == |EntryText(items[0]) + rest|;
  }

  /** A field is read, key and value, and the cursor is before what follows it. */
  lemma PairParses(t: string, p: nat, i: nat, f: Pair, rest: string) returns (b: nat, k: nat, c: nat)
    requires ProperPair(f) && At(t, i, PairText(f) + rest) && rest != "" && rest[0] in ",}"
    requires p <= |t| && i <= |t| && SpaceEnd(t, p) == SpaceEnd(t, i)
    ensures NextIs(t, SpaceEnd(t, i), '"') && b <= |t| && c <= |t|
    ensures ParseString(t, p) == Got(PiecesMeaning(f.key), b) && SpaceEnd(t, b) == k && NextIs(t, k, ':')
    ensures ParseValue(t, k + 1) == Got(ValueOf(f.entry.tree), c) && SpaceEnd(t, c) == i + |PairText(f)|
    ensures At(t, i + |PairText(f)|, rest) && NextIs(t, i + |PairText(f)|, rest[0])
    decreases f, 3
  {
    hide PiecesText, PiecesMeaning, QuoteText, EntryText, PairText, TreeText, ValueOf, Proper, AllSpace, At, SpaceEnd, ParseValue,
      ParseString, ProperPieces;
    var j, key, text := i + |f.before|, QuoteText(f.key), EntryText(f.entry);
    b := j + |key|;
    PairUnfold(f, rest);
    QuoteFirst(f.key);
    SkippedTo(t, i, f.before, key + (f.colon + (":" + (text + rest))));
    AtParts(t, j, key, f.colon + (":" + (text + rest)));
    QuoteParses(t, j, f.key);
    StringAfterSpace(t, p, j);
    AtBounds(t, j, key);
    SkippedTo(t, b, f.colon, ":" + (text + rest));
    k := b + |f.colon|;
    AtParts(t, k, ":", text + rest);
    AtBounds(t, k, ":");
    EntryParses(t, k + 1, k + 1, f.entry, rest);
    c := k + 1 + |f.entry.before| + |TreeText(f.entry.tree)|;
  }

  lemma QuoteFirst(ps: seq<Piece>)
    requires ProperPieces(ps)
    ensures QuoteText(ps) != "" && QuoteText(ps)[0] == '"'
  {
    hide PiecesText, ProperPieces;
  }

  lemma PairUnfold(f: Pair, rest: string)
    requires ProperPair(f)
    ensures PairText(f) + rest == f.before + (QuoteText(f.key) + (f.colon + (":" + (EntryText(f.entry) + rest))))
    ensures |PairText(f)| == |f.before| + |QuoteText(f.key)| + |f.colon| + 1 + |EntryText(f.entry)|
  {
    hide QuoteText, EntryText, Proper, ProperPieces, AllSpace;
    var key, text := QuoteText(f.key), EntryText(f.entry);
    Regrouped(f.before, key + (f.colon + (":" + text)), rest);
    Regrouped(key, f.colon + (":" + text), rest);
    Regrouped(f.colon, ":" + text, rest);
    Regrouped(":", text, rest);
  }

  lemma RecordParses(t: string, i: nat, gap: string, fields: seq<Pair>)
    requires Proper(Record(gap, fields)) && At(t, i, TreeText(Record(gap, fields)))
    ensures i < |t| && t[i] == '{' && SpaceEnd(t, i) == i
    ensures ParseValue(t, i) == Got(Obj(Entered([], fields)), i + |TreeText(Record(gap, fields))|)
    decreases fields, 5
  {
    hide PairsText, Entered, ParseValue, ParseMembers, SpaceEnd, At, AllSpace;
    var body := if fields == [] then gap else PairsText(fields);
    assert TreeText(Record(gap, fields)) == "{" + (body + "}");
    AtParts(t, i, "{", body + "}");
    AtChar(t, i, "{", 0);
    NotSpace(t, i);
    Opens(t, i);
    if fields == [] {
      SkippedTo(t, i + 1, gap, "}");
      NothingEntered();
    } else {
      var k := SpaceEnd(t, i + 1);
      SpaceEndSettled(t, i + 1);
      PairsParse(t, k, i + 1, fields, []);
    }
  }

  lemma NothingEntered()
    ensures Entered([], []) == []
  {
  }

  lemma {:induction false} PairsParse(t: string, p: nat, i: nat, fields: seq<Pair>, acc: seq<Member>)
    requires fields != [] && (forall f | f in fields :: ProperPair(f)) && At(t, i, PairsText(fields) + "}")
    requires p <= |t| && i <= |t| && SpaceEnd(t, p) == SpaceEnd(t, i)
    ensures NextIs(t, SpaceEnd(t, i), '"')
    ensures ParseMembers(t, p, acc) == Got(Obj(Entered(acc, fields)), i + |PairsText(fields)| + 1)
    decreases fields, 4
  {
    hide PairsText, PairText, ValueOf, Entered, ParseValue, ParseString, ParseMembers, SpaceEnd, At, AllSpace, Proper,
      PiecesMeaning, QuoteText, Emplace, ProperPieces;
    RecordUnfold(fields, "}", acc);
    var rest := if |fields| == 1 then "}" else "," + (PairsText(fields[1..]) + "}");
    var key, v, d := PiecesMeaning(fields[0].key), ValueOf(fields[0].entry.tree), i + |PairText(fields[0])|;
    var b, k, c := PairParses(t, p, i, fields[0], rest);
    MemberStep(t, p, b, c, d, key, v, acc);
    if |fields| > 1 {
      AtParts(t, d, ",", PairsText(fields[1..]) + "}");
      AtBounds(t, d, ",");
      PairsParse(t, d + 1, d + 1, fields[1..], Emplace(acc, key, v));
    }
    assert |PairsText(fields) + "}"| == |PairText(fields[0]) + rest|;
  }

  // ----- whatever is parsed has a derivation -----

  lemma {:induction false} SpaceFound(t: string, i: nat)
    requires i <= |t|
    ensures AllSpace(t[i..SpaceEnd(t, i)])
    decreases |t| - i
  {
    if i < |t| && IsSpace(t[i]) {
      SpaceFound(t, i + 1);
      SpaceExact(t[i]);
      assert t[i..SpaceEnd(t, i)] == [t[i]] + t[i + 1..SpaceEnd(t, i)];
    }
  }

  lemma ItemsAfterSpace(t: string, p: nat, q: nat, acc: seq<Json>)
    requires p <= |t| && q <= |t| && SpaceEnd(t, p) == SpaceEnd(t, q)
    ensures ParseItems(t, p, acc) == ParseItems(t, q, acc)
  {
    hide ParseValue, SpaceEnd;
    ValueAfterSpace(t, p, q);
  }

  lemma MembersAfterSpace(t: string, p: nat, q: nat, acc: seq<Member>)
    requires p <= |t| && q <= |t| && SpaceEnd(t, p) == SpaceEnd(t, q)
    ensures ParseMembers(t, p, acc) == ParseMembers(t, q, acc)
  {
    hide ParseValue, ParseString, SpaceEnd;
    StringAfterSpace(t, p, q);
  }

  /** The derivation of an accepted value that starts at a position. */
  lemma {:induction false} TreeFound(t: string, i: nat) returns (tree: Tree)
    requires i < |t| && SpaceEnd(t, i) == i && ParseValue(t, i).Got?
    ensures Proper(tree) && At(t, i, TreeText(tree))
    ensures ParseValue(t, i) == Got(ValueOf(tree), i + |TreeText(tree)|)
    decreases |t| - i, 1
  {
    hide PiecesText, NumeralText, EntriesText, PairsText, ParseNumber, ParseString, ParseItems, ParseMembers, SpaceEnd, At, AllSpace;
    if t[i] == '[' {
      tree := ListFound(t, i);
      ListParses(t, i, tree.gap, tree.items);
    } else if t[i] == '{' {
      tree := RecordFound(t, i);
      RecordParses(t, i, tree.gap, tree.fields);
    } else if t[i] == '"' {
      var s := ParseString(t, i);
      StringExact(t, i, s.value, s.next);
      var ps :| ProperPieces(ps) && At(t, i, "\"" + PiecesText(ps) + "\"") && s.value == PiecesMeaning(ps)
        && s.next == i + |PiecesText(ps)| + 2;
      tree := Quote(ps);
    } else if t[i] == '-' || IsDigit(t[i]) {
      var n := NumeralFound(t, i);
      tree := Numeric(n);
    } else {
      tree := WordFound(t, i);
    }
  }

  lemma WordFound(t: string, i: nat) returns (tree: Tree)
    requires i < |t| && SpaceEnd(t, i) == i && ParseValue(t, i).Got? && t[i] in "tfn"
    ensures Proper(tree) && At(t, i, TreeText(tree))
    ensures ParseValue(t, i) == Got(ValueOf(tree), i + |TreeText(tree)|)
  {
    hide ParseNumber, ParseString, ParseItems, ParseMembers, SpaceEnd;
    tree := Word(if LiteralAt(t, i, "true") then "true" else if LiteralAt(t, i, "false") then "false" else "null");
  }

  lemma GapFound(t: string, i: nat, close: char) returns (gap: string)
    requires i <= |t| && NextIs(t, SpaceEnd(t, i), close)
    ensures AllSpace(gap) && At(t, i, gap + [close])
  {
    hide SpaceEnd, AllSpace, At;
    var k := SpaceEnd(t, i);
    SpaceFound(t, i);
    gap := t[i..k];
    SliceAt(t, i, k);
    FirstAt(t, k);
    AtJoined(t, i, gap, [close]);
  }

  lemma ListFound(t: string, i: nat) returns (tree: Tree)
    requires i < |t| && t[i] == '[' && SpaceEnd(t, i) == i && ParseValue(t, i).Got?
    ensures tree.List? && Proper(tree) && At(t, i, TreeText(tree))
    decreases |t| - i, 0
  {
    hide EntriesText, ParseValue, ParseItems, SpaceEnd, At, AllSpace;
    Opens(t, i);
    FirstAt(t, i);
    var k := SpaceEnd(t, i + 1);
    if NextIs(t, k, ']') {
      var gap := GapFound(t, i + 1, ']');
      tree := List(gap, []);
      AtJoined(t, i, "[", gap + "]");
    } else {
      SpaceEndSettled(t, i + 1);
      ItemsAfterSpace(t, k, i + 1, []);
      var items := EntriesFound(t, i + 1, []);
      tree := List("", items);
      NoGap();
      AtJoined(t, i, "[", EntriesText(items) + "]");
    }
  }

  lemma NoGap()
    ensures AllSpace("")
  {
  }

  /** The entry at a position, up to what follows its space. */
  lemma EntryFound(t: string, i: nat) returns (e: Entry)
    requires i <= |t| && ParseValue(t, i).Got?
    ensures ProperEntry(e) && At(t, i, EntryText(e)) && SpaceEnd(t, ParseValue(t, i).next) == i + |EntryText(e)|
    ensures ParseValue(t, i).value == ValueOf(e.tree)
    decreases |t| - i, 2
  {
    hide TreeText, Proper, ValueOf, ParseValue, SpaceEnd, At, AllSpace;
    var j := SpaceEnd(t, i);
    SpaceEndSettled(t, i);
    ValueAfterSpace(t, i, j);
    SpaceFound(t, i);
    NotAtEnd(t, i);
    var tree := TreeFound(t, j);
    var c := j + |TreeText(tree)|;
    var d := SpaceEnd(t, c);
    SpaceFound(t, c);
    e := Entry(t[i..j], tree, t[c..d]);
    SliceAt(t, i, j);
    SliceAt(t, c, d);
    AtJoined(t, j, TreeText(tree), e.after);
    AtJoined(t, i, e.before, TreeText(tree) + e.after);
  }

  lemma NotAtEnd(t: string, i: nat)
    requires i <= |t| && ParseValue(t, i).Got?
    ensures SpaceEnd(t, i) < |t|
  {
    hide SpaceEnd, ParseNumber, ParseString, ParseItems, ParseMembers;
  }

  lemma EntriesFound(t: string, i: nat, acc: seq<Json>) returns (items: seq<Entry>)
    requires i <= |t| && ParseItems(t, i, acc).Got?
    ensures items != [] && (forall e | e in items :: ProperEntry(e)) && At(t, i, EntriesText(items) + "]")
    decreases |t| - i, 3
  {
    hide EntryText, ProperEntry, ParseValue, SpaceEnd, At;
    var v := ParseValue(t, i);
    var e := EntryFound(t, i);
    var d := SpaceEnd(t, v.next);
    FirstAt(t, d);
    if NextIs(t, d, ',') {
      var more := EntriesFound(t, d + 1, acc + [v.value]);
      items := [e] + more;
      assert items[1..] == more;
      AtJoined(t, d, ",", EntriesText(more) + "]");
      AtJoined(t, i, EntryText(e), "," + (EntriesText(more) + "]"));
      Regrouped(",", EntriesText(more), "]");
      Regrouped(EntryText(e), "," + EntriesText(more), "]");
    } else {
      items := [e];
      AtJoined(t, i, EntryText(e), "]");
    }
  }

  lemma RecordFound(t: string, i: nat) returns (tree: Tree)
    requires i < |t| && t[i] == '{' && SpaceEnd(t, i) == i && ParseValue(t, i).Got?
    ensures tree.Record? && Proper(tree) && At(t, i, TreeText(tree))
    decreases |t| - i, 0
  {
    hide PairsText, ParseValue, ParseMembers, SpaceEnd, At, AllSpace;
    Opens(t, i);
    FirstAt(t, i);
    var k := SpaceEnd(t, i + 1);
    if NextIs(t, k, '}') {
      var gap := GapFound(t, i + 1, '}');
      tree := Record(gap, []);
      AtJoined(t, i, "{", gap + "}");
    } else {
      SpaceEndSettled(t, i + 1);
      MembersAfterSpace(t, k, i + 1, []);
      var fields := PairsFound(t, i + 1, []);
      tree := Record("", fields);
      NoGap();
      AtJoined(t, i, "{", PairsText(fields) + "}");
    }
  }

  lemma PairFound(t: string, i: nat) returns (f: Pair)
    requires i <= |t| && ParseString(t, i).Got?
    requires var b := SpaceEnd(t, ParseString(t, i).next); NextIs(t, b, ':') && ParseValue(t, b + 1).Got?
    ensures ProperPair(f) && At(t, i, PairText(f))
    ensures SpaceEnd(t, ParseValue(t, SpaceEnd(t, ParseString(t, i).next) + 1).next) == i + |PairText(f)|
    decreases |t| - i, 3
  {
    hide PiecesText, PiecesMeaning, EntryText, Proper, Spaced, ProperPieces, ParseValue, ParseChars, SpaceEnd, At, AllSpace;
    var j := SpaceEnd(t, i);
    SpaceEndSettled(t, i);
    StringAfterSpace(t, i, j);
    SpaceFound(t, i);
    var s := ParseString(t, j);
    StringExact(t, j, s.value, s.next);
    var ps :| ProperPieces(ps) && At(t, j, "\"" + PiecesText(ps) + "\"") && s.value == PiecesMeaning(ps)
      && s.next == j + |PiecesText(ps)| + 2;
    var b := SpaceEnd(t, s.next);
    SpaceFound(t, s.next);
    var e := EntryFound(t, b + 1);
    f := Pair(t[i..j], ps, t[s.next..b], e);
    SliceAt(t, i, j);
    SliceAt(t, s.next, b);
    FirstAt(t, b);
    AtJoined(t, b, ":", EntryText(e));
    AtJoined(t, s.next, f.colon, ":" + EntryText(e));
    AtJoined(t, j, QuoteText(ps), f.colon + (":" + EntryText(e)));
    AtJoined(t, i, f.before, QuoteText(ps) + (f.colon + (":" + EntryText(e))));
  }

  lemma PairsFound(t: string, i: nat, acc: seq<Member>) returns (fields: seq<Pair>)
    requires i <= |t| && ParseMembers(t, i, acc).Got?
    ensures fields != [] && (forall f | f in fields :: ProperPair(f)) && At(t, i, PairsText(fields) + "}")
    decreases |t| - i, 4
  {
    hide PairText, ProperPair, ParseValue, ParseString, SpaceEnd, At, Emplace;
    var k := ParseString(t, i);
    var v := ParseValue(t, SpaceEnd(t, k.next) + 1);
    var f := PairFound(t, i);
    var d := SpaceEnd(t, v.next);
    FirstAt(t, d);
    if NextIs(t, d, ',') {
      var more := PairsFound(t, d + 1, Emplace(acc, k.value, v.value));
      fields := [f] + more;
      assert fields[1..] == more;
      AtJoined(t, d, ",", PairsText(more) + "}");
      AtJoined(t, i, PairText(f), "," + (PairsText(more) + "}"));
      Regrouped(",", PairsText(more), "}");
      Regrouped(PairText(f), "," + PairsText(more), "}");
    } else {
      fields := [f];
      AtJoined(t, i, PairText(f), "}");
    }
  }

  /** The parser accepts exactly the texts that the grammar derives, each with
      the value that its derivation says. */
  lemma ParsesExactly(t: string, v: Json)
    ensures ParseText(t) == Some(v) <==> exists e: Entry :: ProperEntry(e) && EntryText(e) == t && ValueOf(e.tree) == v
  {
    hide EntryText, TreeText, Proper, ValueOf, ParseValue, SpaceEnd, At, AllSpace;
    forall e: Entry | ProperEntry(e) && EntryText(e) == t ensures ParseText(t) == Some(ValueOf(e.tree)) {
      SliceAt(t, 0, |t|);
      assert t[0..|t|] == t && EntryText(e) + "" == t;
      EntryParses(t, 0, 0, e, "");
    }
    if ParseText(t).Some? {
      var e := EntryFound(t, 0);
      TextAt(t, 0, EntryText(e));
      assert t[0..|t|] == t;
    }
  }
}
