/** Days since 1970-01-01 to a proleptic Gregorian date, and the packed
    date-time word. */
module Calendar {

  datatype Date = Date(year: int, month: int, day: int)

  /** Division truncating toward zero, as the machine divides. */
  function Quotient(a: int, b: int): int
    requires b > 0
  {
    if a >= 0 then a / b else -((-a) / b)
  }

  function Era(z: int): int { Quotient(if z >= 0 then z else z - 146096, 146097) }

  /** The year within a 400-year era, counted from March, of a day of the era. */
  function YearOfEra(doe: nat): nat
    requires doe < 146097
  {
    (doe - doe / 1460 + doe / 36524 - doe / 146096) / 365
  }

  /** Days of the era before a March-based year. */
  function DaysBefore(yoe: nat): nat { 365 * yoe + yoe / 4 - yoe / 100 }

  /** Month and day of a day of a March-based year. */
  function MonthDay(doy: nat): (int, int) {
    var mp := (5 * doy + 2) / 153;
    (if mp < 10 then mp + 3 else mp - 9, doy - (153 * mp + 2) / 5 + 1)
  }

  function CivilFromDays(days: int): Date {
    var z := days + 719468;
    var era := Era(z);
    EraBounds(z);
    var doe := z - era * 146097;
    var yoe := YearOfEra(doe);
    YearOfEraBounds(doe);
    var (m, d) := MonthDay(doe - DaysBefore(yoe));
    Date(yoe + era * 400 + (if m <= 2 then 1 else 0), m, d)
  }

  /** The shifted truncating division is the floor, for negative days too. */
  lemma EraBounds(z: int)
    ensures 0 <= z - Era(z) * 146097 < 146097
  {
  }

  lemma EraUnique(z: int, era: int)
    requires 0 <= z - era * 146097 < 146097
    ensures Era(z) == era
  {
    EraBounds(z);
  }

  /** With y = 4q + k, the leap days counted by the closed form are those of the
      Gregorian rule. */
  lemma LeapDays(doe: nat, a: nat, c: nat, e: nat, q: nat, k: nat)
    requires doe < 146097 && k < 4 && c <= 4 && e <= 1
    requires 1460 * a <= doe < 1460 * a + 1460 && 36524 * c <= doe < 36524 * c + 36524
    requires 146096 * e <= doe && (e == 0 ==> doe < 146096)
    requires 365 * (4 * q + k) <= doe - a + c - e < 365 * (4 * q + k) + 365
    ensures 1461 * q + 365 * k - c + e <= doe
    ensures k < 3 ==> doe < 1461 * q + 365 * k + 365 - c + e
    ensures k == 3 ==> doe <= 1461 * q + 1460 - c + e
  {
  }

  /** The closed form finds the year whose span holds the day. */
  lemma YearOfEraBounds(doe: nat)
    requires doe < 146097
    ensures var y := YearOfEra(doe); y < 400 && DaysBefore(y) <= doe
    ensures var y := YearOfEra(doe); doe < DaysBefore(y + 1) || (y == 399 && doe == 146096)
  {
    var a, c, e, y := doe / 1460, doe / 36524, doe / 146096, YearOfEra(doe);
    var q, k := y / 4, y % 4;
    LeapDays(doe, a, c, e, q, k);
    CenturyOf(doe, c, e, q, k);
  }

  lemma CenturyOf(doe: nat, c: nat, e: nat, q: nat, k: nat)
    requires doe < 146097 && k < 4 && c <= 4 && e <= 1
    requires 36524 * c <= doe < 36524 * c + 36524 && 146096 * e <= doe && (e == 0 ==> doe < 146096)
    requires 1461 * q + 365 * k - c + e <= doe
    requires k < 3 ==> doe < 1461 * q + 365 * k + 365 - c + e
    requires k == 3 ==> doe <= 1461 * q + 1460 - c + e
    ensures var y := 4 * q + k;
      y < 400 && DaysBefore(y) <= doe && (doe < DaysBefore(y + 1) || (y == 399 && doe == 146096))
  {
    var y := 4 * q + k;
    assert c < 4 ==> 25 * c <= q < 25 * c + 25;
    assert c == 4 ==> q == 99 && k == 3;
    assert c < 4 ==> y / 100 == c;
    assert y / 4 == q;
    assert DaysBefore(y) == 1461 * q + 365 * k - y / 100;
    assert (y + 1) / 4 == if k == 3 then q + 1 else q;
  }

  /** And only that year's span does. */
  lemma YearUnique(doe: nat, y: nat)
    requires doe < 146097 && y < 400 && DaysBefore(y) <= doe && (doe < DaysBefore(y + 1) || (y == 399 && doe == 146096))
    ensures YearOfEra(doe) == y
  {
    YearOfEraBounds(doe);
    var x := YearOfEra(doe);
    LaterYears(x + 1, y);
    LaterYears(y + 1, x);
  }

  lemma LaterYears(x: nat, y: nat)
    ensures x <= y ==> DaysBefore(x) <= DaysBefore(y)
  {
  }

  // ----- the calendar -----

  predicate IsLeap(year: int) { year % 4 == 0 && (year % 100 != 0 || year % 400 == 0) }

  function DaysIn(year: int, month: int): int {
    if month == 2 then if IsLeap(year) then 29 else 28
    else if month in {4, 6, 9, 11} then 30 else 31
  }

  predicate IsDate(d: Date) { 1 <= d.month <= 12 && 1 <= d.day <= DaysIn(d.year, d.month) }

  /** The day after, by the proleptic Gregorian calendar. */
  function Tomorrow(d: Date): Date {
    if d.day < DaysIn(d.year, d.month) then d.(day := d.day + 1)
    else if d.month < 12 then Date(d.year, d.month + 1, 1)
    else Date(d.year + 1, 1, 1)
  }

  /** Days in the March-based year: the leap day is its last. */
  function YearLength(yoe: nat): nat
    requires yoe < 400
  {
    if yoe == 399 then 366 else DaysBefore(yoe + 1) - DaysBefore(yoe)
  }

  lemma YearLengths(yoe: nat, era: int)
    requires yoe < 400
    ensures YearLength(yoe) == if IsLeap(yoe + era * 400 + 1) then 366 else 365
  {
    LeapPeriod(yoe + 1, era);
    LengthInEra(yoe);
  }

  lemma LeapPeriod(year: int, era: int)
    ensures IsLeap(year + era * 400) <==> IsLeap(year)
  {
    Multiple4(year, 100 * era);
    Multiple100(year, 4 * era);
    Multiple400(year, era);
  }

  lemma Multiple4(a: int, k: int)
    ensures (a + 4 * k) % 4 == a % 4
  {
  }

  lemma Multiple100(a: int, k: int)
    ensures (a + 100 * k) % 100 == a % 100
  {
  }

  lemma Multiple400(a: int, k: int)
    ensures (a + 400 * k) % 400 == a % 400
  {
  }

  lemma LengthInEra(yoe: nat)
    requires yoe < 400
    ensures YearLength(yoe) == if IsLeap(yoe + 1) then 366 else 365
  {
  }

  lemma MonthDayValid(doy: nat, leap: bool)
    requires doy < (if leap then 366 else 365)
    ensures var (m, d) := MonthDay(doy);
      && 1 <= m <= 12 && 1 <= d
      && d <= (if m == 2 then if leap then 29 else 28 else if m in {4, 6, 9, 11} then 30 else 31)
  {
  }

  predicate LastOfMonth(m: int, d: int, leap: bool) {
    d == if m == 2 then if leap then 29 else 28 else if m in {4, 6, 9, 11} then 30 else 31
  }

  /** Within a March-based year the next day is the next of the month, or the
      first of the next month. */
  lemma MonthDayNext(doy: nat, leap: bool)
    requires doy + 1 < (if leap then 366 else 365)
    ensures MonthDay(doy).0 == 2 ==> !LastOfMonth(2, MonthDay(doy).1, leap)
    ensures var (m, d) := MonthDay(doy);
      MonthDay(doy + 1) == if LastOfMonth(m, d, leap) then (if m < 12 then m + 1 else 1, 1) else (m, d + 1)
  {
  }

  lemma MonthDayEnds(leap: bool)
    ensures MonthDay(0) == (3, 1)
    ensures var (m, d) := MonthDay(if leap then 365 else 364); m == 2 && LastOfMonth(m, d, leap)
  {
  }

  function OfYearDay(year: int, doy: nat): Date {
    var (m, d) := MonthDay(doy);
    Date(year + (if m <= 2 then 1 else 0), m, d)
  }

  /** The next day of a March-based year, and the first of the one after. */
  lemma YearDayNext(year: int, doy: nat)
    requires doy < (if IsLeap(year + 1) then 366 else 365)
    ensures IsDate(OfYearDay(year, doy))
    ensures Tomorrow(OfYearDay(year, doy)) ==
      if doy + 1 < (if IsLeap(year + 1) then 366 else 365) then OfYearDay(year, doy + 1) else OfYearDay(year + 1, 0)
  {
    hide MonthDay, IsLeap;
    MonthDayValid(doy, IsLeap(year + 1));
    MonthDayEnds(IsLeap(year + 1));
    if doy + 1 < (if IsLeap(year + 1) then 366 else 365) { MonthDayNext(doy, IsLeap(year + 1)); }
  }

  /** The date as the day of a year of an era. */
  lemma CivilAt(days: int, era: int, yoe: nat, doy: nat)
    requires yoe < 400 && doy < YearLength(yoe) && days + 719468 == era * 146097 + DaysBefore(yoe) + doy
    ensures CivilFromDays(days) == OfYearDay(yoe + era * 400, doy)
  {
    hide MonthDay, YearOfEra;
    LastYear();
    LaterYears(yoe + 1, 399);
    EraUnique(days + 719468, era);
    YearUnique(DaysBefore(yoe) + doy, yoe);
  }

  lemma LastYear()
    ensures DaysBefore(399) == 145731
  {
  }

  lemma DaysDecompose(days: int) returns (era: int, yoe: nat, doy: nat)
    ensures yoe < 400 && doy < YearLength(yoe) && days + 719468 == era * 146097 + DaysBefore(yoe) + doy
  {
    hide YearOfEra;
    EraBounds(days + 719468);
    era := Era(days + 719468);
    var doe := days + 719468 - era * 146097;
    YearOfEraBounds(doe);
    LastYear();
    yoe := YearOfEra(doe);
    doy := doe - DaysBefore(yoe);
  }

  /** Every day number is a valid date, the next number is the next day of the
      proleptic Gregorian calendar, and number 0 is 1970-01-01: so the conversion
      is the calendar, before and after the epoch. */
  lemma CivilSuccessor(days: int)
    ensures IsDate(CivilFromDays(days))
    ensures CivilFromDays(days + 1) == Tomorrow(CivilFromDays(days))
    ensures CivilFromDays(0) == Date(1970, 1, 1)
  {
    hide MonthDay, YearOfEra, IsLeap, DaysBefore, CivilFromDays;
    var era, yoe, doy := DaysDecompose(days);
    YearLengths(yoe, era);
    CivilAt(days, era, yoe, doy);
    YearDayNext(yoe + era * 400, doy);
    Rollover();
    if doy + 1 < YearLength(yoe) {
      CivilAt(days + 1, era, yoe, doy + 1);
    } else if yoe < 399 {
      CivilAt(days + 1, era, yoe + 1, 0);
    } else {
      CivilAt(days + 1, era + 1, 0, 0);
    }
    Epoch();
  }

  lemma Rollover()
    ensures DaysBefore(0) == 0 && DaysBefore(399) + 366 == 146097
    ensures forall yoe: nat :: yoe < 400 ==> YearLength(yoe) >= 365
  {
    forall yoe: nat | yoe < 400 ensures YearLength(yoe) >= 365 { LengthInEra(yoe); }
  }

  lemma Epoch()
    ensures CivilFromDays(0) == Date(1970, 1, 1)
  {
    assert DaysBefore(369) == 134774;
    CivilAt(0, 4, 369, 306);
  }

  // ----- the packed word -----

  datatype Stamp = Stamp(year: bv32, month: bv32, day: bv32, hour: bv32, minute: bv32, second: bv32)

  function Word(y: bv32, mo: bv32, d: bv32, h: bv32, mi: bv32, s: bv32): bv32 {
    (y << 26) | (mo << 22) | (d << 17) | (h << 12) | (mi << 6) | s
  }

  function PackedYear(year: bv32): bv32 { if year >= 1995 then year - 1995 else 0 }

  /** `pack_datime`: 6, 4, 5, 5, 6 and 6 bits from the top; earlier years pack as 1995. */
  function PackDatime(year: bv32, month: bv32, day: bv32, hour: bv32, minute: bv32, second: bv32): bv32 {
    Word(PackedYear(year), month, day, hour, minute, second)
  }

  /** The fields read back from the word. */
  function UnpackDatime(w: bv32): Stamp {
    Stamp(1995 + (w >> 26), (w >> 22) & 0xF, (w >> 17) & 0x1F, (w >> 12) & 0x1F, (w >> 6) & 0x3F, w & 0x3F)
  }

  predicate FieldsInRange(month: bv32, day: bv32, hour: bv32, minute: bv32, second: bv32) {
    1 <= month <= 12 && 1 <= day <= 31 && hour < 24 && minute < 60 && second < 60
  }

  /** Packing loses nothing exactly for the years 1995 to 2058. */
  lemma PackInvertible(year: bv32, month: bv32, day: bv32, hour: bv32, minute: bv32, second: bv32)
    requires FieldsInRange(month, day, hour, minute, second)
    ensures UnpackDatime(PackDatime(year, month, day, hour, minute, second)) == Stamp(year, month, day, hour, minute, second)
      <==> 1995 <= year <= 2058
  {
    hide Word, PackedYear;
    LowFields(PackedYear(year), month, day, hour, minute, second);
    TopField(PackedYear(year), month, day, hour, minute, second);
    YearBits(year);
  }

  /** Whatever the year, the other fields come back; the year comes back as 1995
      when it is earlier, and otherwise 64 years are told apart. */
  lemma PackedFields(year: bv32, month: bv32, day: bv32, hour: bv32, minute: bv32, second: bv32)
    requires FieldsInRange(month, day, hour, minute, second)
    ensures UnpackDatime(PackDatime(year, month, day, hour, minute, second)) ==
      Stamp(if year < 1995 then 1995 else 1995 + (year - 1995) % 64, month, day, hour, minute, second)
  {
    hide Word;
    LowFields(PackedYear(year), month, day, hour, minute, second);
    TopField(PackedYear(year), month, day, hour, minute, second);
    SixBits(PackedYear(year));
  }

  lemma SixBits(y: bv32)
    ensures y & 0x3F == y % 64
  {
  }

  lemma LowFields(y: bv32, mo: bv32, d: bv32, h: bv32, mi: bv32, s: bv32)
    requires mo < 16 && d < 32 && h < 32 && mi < 64 && s < 64
    ensures var w := Word(y, mo, d, h, mi, s);
      && (w >> 22) & 0xF == mo && (w >> 17) & 0x1F == d && (w >> 12) & 0x1F == h
      && (w >> 6) & 0x3F == mi && w & 0x3F == s
  {
  }

  lemma TopField(y: bv32, mo: bv32, d: bv32, h: bv32, mi: bv32, s: bv32)
    requires mo < 16 && d < 32 && h < 32 && mi < 64 && s < 64
    ensures Word(y, mo, d, h, mi, s) >> 26 == y & 0x3F
  {
  }

  lemma YearBits(y: bv32)
    ensures 1995 + (PackedYear(y) & 0x3F) == y <==> 1995 <= y <= 2058
  {
  }
}
