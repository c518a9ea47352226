/** Decimal numerals, rationals in lowest terms, and their text forms. */
module Numerals {
  import opened Saturation

  // ----- naturals -----

  function Digits(n: nat): string {
    if n < 10 then [(n as char) + '0'] else Digits(n / 10) + [((n % 10) as char) + '0']
  }

  predicate IsDigit(c: char) { '0' <= c <= '9' }

  predicate AllDigits(s: string) { forall i | 0 <= i < |s| :: IsDigit(s[i]) }

  /** The number that a run of digits denotes. */
  function Decimal(s: string): nat
    requires AllDigits(s)
  {
    if s == [] then 0 else 10 * Decimal(s[..|s| - 1]) + (s[|s| - 1] as int - '0' as int)
  }

  lemma {:induction false} DigitsAreDigits(n: nat)
    ensures Digits(n) != [] && AllDigits(Digits(n))
  {
    if n >= 10 { DigitsAreDigits(n / 10); }
  }

  lemma {:induction false} DigitsLead(n: nat)
    ensures |Digits(n)| > 0 && (Digits(n)[0] == '0' <==> n == 0)
  {
    if n >= 10 { DigitsLead(n / 10); }
  }

  lemma DigitsLast(n: nat)
    ensures |Digits(n)| > 0 && (n < 10 <==> |Digits(n)| == 1)
    ensures Digits(n)[|Digits(n)| - 1] as int == n % 10 + '0' as int
    ensures n >= 10 ==> Digits(n / 10) == Digits(n)[..|Digits(n)| - 1]
  {
    if n >= 10 { DigitsAreDigits(n / 10); }
  }

  lemma {:induction false} DecimalOfDigits(n: nat)
    ensures AllDigits(Digits(n)) && Decimal(Digits(n)) == n
  {
    DigitsAreDigits(n);
    DigitsLast(n);
    if n >= 10 { DecimalOfDigits(n / 10); }
  }

  lemma DigitsInjective(m: nat, n: nat)
    requires Digits(m) == Digits(n)
    ensures m == n
  {
    DecimalOfDigits(m);
    DecimalOfDigits(n);
  }

  // ----- greatest common divisors -----

  function Gcd(a: nat, b: nat): nat
    decreases b
  {
    if b == 0 then a else Gcd(b, a % b)
  }

  ghost predicate Divides(d: nat, n: nat) { exists k: nat :: n == k * d }

  lemma Multiple(k: nat, d: nat, n: nat)
    requires n == k * d
    ensures Divides(d, n)
  {
  }

  lemma {:induction false} GcdDivides(a: nat, b: nat)
    ensures Divides(Gcd(a, b), a) && Divides(Gcd(a, b), b)
    decreases b
  {
    if b == 0 {
      Multiple(1, a, a);
      Multiple(0, a, b);
    } else {
      GcdDivides(b, a % b);
      DividesSum(Gcd(b, a % b), a / b, b, a % b);
    }
  }

  lemma DividesSum(g: nat, q: nat, b: nat, r: nat)
    requires Divides(g, b) && Divides(g, r)
    ensures Divides(g, q * b + r)
  {
    var k: nat :| b == k * g;
    var l: nat :| r == l * g;
    CommonFactor(q, k, l, g);
    Multiple(q * k + l, g, q * b + r);
  }

  lemma CommonFactor(q: int, k: int, l: int, g: int)
    ensures q * (k * g) + l * g == (q * k + l) * g
  {
  }

  /** The greatest common divisor is a combination of the two numbers. */
  lemma {:induction false} Bezout(a: nat, b: nat) returns (x: int, y: int)
    ensures a * x + b * y == Gcd(a, b)
    decreases b
  {
    if b == 0 {
      x, y := 1, 0;
    } else {
      var u, w := Bezout(b, a % b);
      x, y := w, u - (a / b) * w;
      assert a % b == a - (a / b) * b;
      assert b * u + (a - (a / b) * b) * w == a * w + b * (u - (a / b) * w);
    }
  }

  lemma GcdPositive(a: nat, b: nat)
    requires a > 0 || b > 0
    ensures Gcd(a, b) > 0
    decreases b
  {
  }

  // ----- rationals -----

  /** A sign and two magnitudes, as the program keeps an exact rational. */
  datatype Rat = Rat(neg: bool, num: nat, den: nat)

  /** The form in which every rational is kept. */
  predicate Lowest(r: Rat) {
    r.den > 0 && Gcd(r.num, r.den) == 1 && (r.num == 0 ==> !r.neg)
  }

  type QRat = r: Rat | Lowest(r) witness Rat(false, 0, 1)

  function Value(r: Rat): real
    requires r.den > 0
  {
    (if r.neg then -(r.num as real) else r.num as real) / r.den as real
  }

  function Reduce(neg: bool, n: nat, d: nat): Rat
    requires d > 0
  {
    if n == 0 then Rat(false, 0, 1)
    else
      var g := Gcd(n, d);
      GcdPositive(n, d);
      Rat(neg, n / g, d / g)
  }

  lemma ReduceLowest(neg: bool, n: nat, d: nat)
    requires d > 0
    ensures Lowest(Reduce(neg, n, d))
    ensures Value(Reduce(neg, n, d)) == Value(Rat(neg, n, d))
  {
    if n > 0 {
      var g := Gcd(n, d);
      GcdPositive(n, d);
      GcdDivides(n, d);
      var k: nat :| n == k * g;
      var l: nat :| d == l * g;
      Quotient(k, g);
      Quotient(l, g);
      Coprime(k, l, g);
      SameRatio(k, l, g);
    }
  }

  lemma Quotient(k: nat, g: nat)
    requires g > 0
    ensures (k * g) / g == k && (k * g > 0 ==> k > 0)
  {
    var q := (k * g) / g;
    assert k * g - q * g == (k - q) * g;
    Small(k - q, g);
  }

  lemma Small(k: int, g: int)
    requires 0 <= k * g < g
    ensures k == 0
  {
  }

  lemma Coprime(k: nat, l: nat, g: nat)
    requires g > 0 && l > 0 && Gcd(k * g, l * g) == g
    ensures Gcd(k, l) == 1
  {
    hide Gcd;
    var x, y := Bezout(k * g, l * g);
    Regroup(k, l, x, y, g);
    Cancel(k * x + l * y, 1, g);
    var h := Gcd(k, l);
    GcdDivides(k, l);
    var a: nat :| k == a * h;
    var b: nat :| l == b * h;
    Regroup(a, b, x, y, h);
    UnitFactor(h, a * x + b * y);
  }

  lemma Regroup(k: int, l: int, x: int, y: int, g: int)
    ensures (k * g) * x + (l * g) * y == (k * x + l * y) * g
  {
  }

  lemma Cancel(k: int, l: int, g: int)
    requires g != 0 && k * g == l * g
    ensures k == l
  {
  }

  lemma UnitFactor(h: nat, z: int)
    requires z * h == 1
    ensures h == 1
  {
  }

  lemma SameRatio(k: nat, l: nat, g: nat)
    requires g > 0 && l > 0 && l * g > 0
    ensures (k * g) as real / (l * g) as real == k as real / l as real
    ensures -((k * g) as real) / (l * g) as real == -(k as real) / l as real
  {
  }

  /** The lowest terms of a number are unique. */
  lemma LowestUnique(r: Rat, s: Rat)
    requires Lowest(r) && Lowest(s) && Value(r) == Value(s)
    ensures r == s
  {
    CrossProduct(r, s);
    DividesOther(r.num, r.den, s.num, s.den);
    DividesOther(s.num, s.den, r.num, r.den);
    var k: nat :| s.den == k * r.den;
    var l: nat :| r.den == l * s.den;
    MutualFactors(k, l, r.den, s.den);
    Cancel(r.num, s.num, r.den);
  }

  lemma CrossProduct(r: Rat, s: Rat)
    requires Lowest(r) && Lowest(s) && Value(r) == Value(s)
    ensures r.neg == s.neg && r.num * s.den == s.num * r.den
  {
    var a, b := r.den as real, s.den as real;
    var x := if r.neg then -(r.num as real) else r.num as real;
    var y := if s.neg then -(s.num as real) else s.num as real;
    Cross(x, a, y, b);
    Signs(x, y, a, b);
    assert r.num as real * b == s.num as real * a;
    assert (r.num * s.den) as real == r.num as real * b;
    assert (s.num * r.den) as real == s.num as real * a;
  }

  lemma Cross(x: real, a: real, y: real, b: real)
    requires a > 0.0 && b > 0.0 && x / a == y / b
    ensures x * b == y * a
  {
    var z := x / a;
    assert x == z * a && y == z * b;
    assert z * a * b == z * b * a;
  }

  lemma Signs(x: real, y: real, a: real, b: real)
    requires a > 0.0 && b > 0.0 && x * b == y * a
    ensures (x < 0.0 <==> y < 0.0) && (x > 0.0 <==> y > 0.0)
  {
  }

  lemma DividesOther(n: nat, d: nat, m: nat, e: nat)
    requires d > 0 && Gcd(n, d) == 1 && n * e == m * d
    ensures Divides(d, e)
  {
    hide Gcd;
    var x, y := Bezout(n, d);
    Distribute(n, d, m, e, x, y);
    NonNegativeFactor(m * x + e * y, d, e);
    var k: nat := m * x + e * y;
    assert e == k * d;
  }

  lemma Distribute(n: int, d: int, m: int, e: int, x: int, y: int)
    requires n * x + d * y == 1 && n * e == m * d
    ensures e == (m * x + e * y) * d
  {
    assert e * (n * x + d * y) == (n * e) * x + e * (d * y);
    assert (m * d) * x + e * (d * y) == (m * x + e * y) * d;
  }

  lemma NonNegativeFactor(k: int, d: nat, e: nat)
    requires d > 0 && e == k * d
    ensures k >= 0
  {
  }

  lemma MutualFactors(k: nat, l: nat, d: nat, e: nat)
    requires d > 0 && e > 0 && e == k * d && d == l * e
    ensures d == e
  {
    assert k > 0 && l > 0;
    assert e >= d && d >= e;
  }

  // ----- text forms of rationals -----

  /** Longest run of digits accepted in a numerator or a denominator. */
  const MAX_NUMERAL_DIGITS: nat := 4096

  function Repr(r: Rat): string {
    var core := if r.den == 1 then Digits(r.num) else Digits(r.num) + "/" + Digits(r.den);
    if r.neg then "-" + core else core
  }

  function IndexOf(s: string, c: char): (r: Option<nat>)
    ensures r.Some? ==> r.value < |s| && s[r.value] == c && c !in s[..r.value]
    ensures r.None? ==> c !in s
  {
    if s == [] then None
    else if s[0] == c then Some(0)
    else match IndexOf(s[1..], c)
      case None => None
      case Some(k) =>
        assert s[..k + 1] == [s[0]] + s[1..][..k];
        Some(k + 1)
  }

  lemma {:induction false} IndexAt(s: string, c: char, k: nat)
    requires k < |s| && s[k] == c && c !in s[..k]
    ensures IndexOf(s, c) == Some(k)
  {
    if k > 0 {
      assert s[0] in s[..k] && s[1..][..k - 1] == s[..k][1..];
      IndexAt(s[1..], c, k - 1);
    }
  }

  datatype Parts = Parts(neg: bool, num: string, den: string)

  function PartsOf(s: string): Parts
    requires s != ""
  {
    var neg := s[0] == '-';
    var body := if neg then s[1..] else s;
    match IndexOf(body, '/')
    case None => Parts(neg, body, "1")
    case Some(k) => Parts(neg, body[..k], body[k + 1..])
  }

  function FromParts(p: Parts): Option<QRat> {
    if p.num == "" || !AllDigits(p.num) || p.den == "" || !AllDigits(p.den) || Decimal(p.den) == 0 then None
    else
      ReduceLowest(p.neg && Decimal(p.num) != 0, Decimal(p.num), Decimal(p.den));
      Some(Reduce(p.neg && Decimal(p.num) != 0, Decimal(p.num), Decimal(p.den)))
  }

  function FromRepr(s: string): Option<QRat> {
    if s == "" then None
    else
      var p := PartsOf(s);
      if |p.num| > MAX_NUMERAL_DIGITS || |p.den| > MAX_NUMERAL_DIGITS then None else FromParts(p)
  }

  lemma ReprParts(r: Rat)
    ensures Repr(r) != "" && PartsOf(Repr(r)) == Parts(r.neg, Digits(r.num), Digits(r.den))
  {
    hide Digits, IndexOf;
    DigitsAreDigits(r.num);
    DigitsAreDigits(r.den);
    var n, d := Digits(r.num), Digits(r.den);
    assert IsDigit(n[0]);
    var core := if r.den == 1 then n else n + "/" + d;
    assert r.neg ==> Repr(r)[1..] == core;
    if r.den == 1 {
      DigitOne();
      assert IndexOf(core, '/').None?;
    } else {
      assert core[|n|] == '/' && core[..|n|] == n && core[|n| + 1..] == d;
      IndexAt(core, '/', |n|);
    }
  }

  lemma DigitOne()
    ensures Digits(1) == "1"
  {
  }

  /** Reading a printed rational gives it back, exactly when both numerals are
      within the limit. */
  lemma ReprRoundTrip(r: QRat)
    ensures FromRepr(Repr(r)) ==
      if |Digits(r.num)| <= MAX_NUMERAL_DIGITS && |Digits(r.den)| <= MAX_NUMERAL_DIGITS then Some(r) else None
  {
    hide Digits, Decimal, Repr, PartsOf, Gcd;
    ReprParts(r);
    DecimalOfDigits(r.num);
    DecimalOfDigits(r.den);
    DigitsAreDigits(r.num);
    DigitsAreDigits(r.den);
    ZeroIsLowest(r);
  }

  lemma ZeroIsLowest(r: Rat)
    requires Lowest(r)
    ensures r.num == 0 ==> r.den == 1
    ensures Reduce(r.neg, r.num, r.den) == r
  {
    if r.num == 0 { assert Gcd(r.num, r.den) == Gcd(r.den, 0 % r.den) == r.den; }
  }

  /** Two rationals print alike exactly when they are the same number. */
  lemma ReprCanonical(r: QRat, s: QRat)
    ensures Repr(r) == Repr(s) <==> Value(r) == Value(s)
  {
    hide Digits, Repr, PartsOf, Gcd, Value;
    if Value(r) == Value(s) { LowestUnique(r, s); }
    if Repr(r) == Repr(s) {
      ReprParts(r);
      ReprParts(s);
      DigitsInjective(r.num, s.num);
      DigitsInjective(r.den, s.den);
    }
  }

  // ----- unsigned integers in text -----

  predicate IsSpace(c: char) { c == ' ' || '\t' <= c <= '\r' }

  function SpaceEnd(s: string, i: nat): (e: nat)
    requires i <= |s|
    ensures i <= e <= |s|
    decreases |s| - i
  {
    if i < |s| && IsSpace(s[i]) then SpaceEnd(s, i + 1) else i
  }

  function DigitEnd(s: string, i: nat): (e: nat)
    requires i <= |s|
    ensures i <= e <= |s| && AllDigits(s[i..e])
    decreases |s| - i
  {
    if i < |s| && IsDigit(s[i]) then
      var e := DigitEnd(s, i + 1);
      assert s[i..e] == [s[i]] + s[i + 1..e];
      e
    else i
  }

  lemma {:induction false} DigitEndAt(s: string, i: nat, e: nat)
    requires i <= e <= |s| && AllDigits(s[i..e]) && (e < |s| ==> !IsDigit(s[e]))
    ensures DigitEnd(s, i) == e
    decreases |s| - i
  {
    if i < e {
      assert IsDigit(s[i..e][0]);
      assert s[i + 1..e] == s[i..e][1..];
      DigitEndAt(s, i + 1, e);
    }
  }

  const ULONG_MAX: nat := 0xFFFF_FFFF_FFFF_FFFF

  /** The machine's conversion: leading space, one sign, then digits; what
      follows them is ignored, and a minus sign wraps around. */
  function Stoul(s: string): Option<nat> {
    var i := SpaceEnd(s, 0);
    var j := if i < |s| && (s[i] == '+' || s[i] == '-') then i + 1 else i;
    var e := DigitEnd(s, j);
    if e == j || Decimal(s[j..e]) > ULONG_MAX then None
    else if s[i] == '-' then Some((ULONG_MAX + 1 - Decimal(s[j..e])) % (ULONG_MAX + 1))
    else Some(Decimal(s[j..e]))
  }

  lemma StoulDigits(n: nat)
    ensures Stoul(Digits(n)) == if n <= ULONG_MAX then Some(n) else None
  {
    hide Digits, Decimal;
    var s := Digits(n);
    DigitsAreDigits(n);
    DecimalOfDigits(n);
    assert IsDigit(s[0]);
    assert s[0..|s|] == s;
    DigitEndAt(s, 0, |s|);
  }
}
