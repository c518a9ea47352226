/** The JSON parser: a cursor over a text, what it recognizes, and that it reads
    back every document the writer prints. */
module JsonParse {
  import opened Saturation
  import opened Numerals
  import opened JsonText

  // ----- parsed values -----

  /** A parsed value; an object is a map, kept in the order of its keys. */
  datatype Json =
    | Null
    | Bool(b: bool)
    | Number(num: string)
    | Str(s: string)
    | Arr(items: seq<Json>)
    | Obj(members: seq<Member>)

  datatype Member = Member(key: string, value: Json)

  /** Lexicographic order of byte strings. */
  predicate Before(a: string, b: string) {
    b != "" && (a == "" || a[0] < b[0] || (a[0] == b[0] && Before(a[1..], b[1..])))
  }

  /** Insertion that keeps an entry already there. */
  function Emplace(ms: seq<Member>, k: string, v: Json): seq<Member> {
    if ms == [] || Before(k, ms[0].key) then [Member(k, v)] + ms
    else if ms[0].key == k then ms
    else [ms[0]] + Emplace(ms[1..], k, v)
  }

  function Find(ms: seq<Member>, k: string): (r: Option<Json>)
    ensures r.Some? ==> exists i :: 0 <= i < |ms| && ms[i] == Member(k, r.value)
    ensures r.None? ==> forall i :: 0 <= i < |ms| ==> ms[i].key != k
  {
    if ms == [] then None
    else if ms[0].key == k then
      assert ms[0] == Member(k, ms[0].value);
      Some(ms[0].value)
    else
      var r := Find(ms[1..], k);
      assert forall i :: 0 <= i < |ms| - 1 ==> ms[1..][i] == ms[i + 1];
      assert forall i :: 0 < i < |ms| ==> ms[i] == ms[1..][i - 1];
      r
  }

  function Get(v: Json, k: string): (r: Option<Json>)
    ensures r.Some? ==> r.value < v
  {
    if v.Obj? then Find(v.members, k) else None
  }

  ghost predicate Ascending(ms: seq<Member>) {
    forall i, j :: 0 <= i < j < |ms| ==> Before(ms[i].key, ms[j].key)
  }

  lemma {:induction false} BeforeStrict(a: string, b: string)
    requires Before(a, b)
    ensures a != b && !Before(b, a)
  {
    if a != "" && a[0] == b[0] { BeforeStrict(a[1..], b[1..]); }
  }

  lemma {:induction false} BeforeTotal(a: string, b: string)
    requires a != b && !Before(a, b)
    ensures Before(b, a)
  {
    if a != "" && b != "" && a[0] == b[0] {
      assert a == [a[0]] + a[1..] && b == [b[0]] + b[1..];
      BeforeTotal(a[1..], b[1..]);
    }
  }

  lemma {:induction false} BeforeTransitive(a: string, b: string, c: string)
    requires Before(a, b) && Before(b, c)
    ensures Before(a, c)
  {
    if a != "" && a[0] == b[0] && b[0] == c[0] { BeforeTransitive(a[1..], b[1..], c[1..]); }
  }

  lemma AscendingTail(ms: seq<Member>)
    requires Ascending(ms) && ms != []
    ensures Ascending(ms[1..]) && forall m :: m in ms[1..] ==> Before(ms[0].key, m.key)
  {
    forall m | m in ms[1..] ensures Before(ms[0].key, m.key) {
      var i :| 0 <= i < |ms| - 1 && ms[1..][i] == m;
      assert ms[i + 1] == m;
    }
  }

  lemma AscendingCons(m: Member, ms: seq<Member>)
    requires Ascending(ms) && (ms != [] ==> Before(m.key, ms[0].key))
    ensures Ascending([m] + ms)
  {
    forall i | 0 <= i < |ms| ensures Before(m.key, ms[i].key) {
      if i > 0 { BeforeTransitive(m.key, ms[0].key, ms[i].key); }
    }
  }

  lemma {:induction false} EmplaceAscends(ms: seq<Member>, k: string, v: Json)
    requires Ascending(ms)
    ensures Ascending(Emplace(ms, k, v))
    ensures var after := Emplace(ms, k, v); after != [] && (after[0].key == k || (ms != [] && after[0] == ms[0]))
  {
    hide Before, Ascending;
    if ms == [] || Before(k, ms[0].key) {
      AscendingCons(Member(k, v), ms);
    } else if ms[0].key != k {
      BeforeTotal(k, ms[0].key);
      AscendingTail(ms);
      EmplaceAscends(ms[1..], k, v);
      assert ms[1..] != [] ==> ms[1..][0] in ms[1..];
      AscendingCons(ms[0], Emplace(ms[1..], k, v));
    }
  }

  lemma {:induction false} EmplaceFinds(ms: seq<Member>, k: string, v: Json, q: string)
    requires Ascending(ms)
    ensures Find(Emplace(ms, k, v), q) == if q == k && Find(ms, q).None? then Some(v) else Find(ms, q)
  {
    hide Before, Ascending;
    if ms == [] {
    } else if Before(k, ms[0].key) {
      AscendingTail(ms);
      forall i | 0 <= i < |ms| ensures ms[i].key != k {
        if i > 0 {
          assert ms[i] == ms[1..][i - 1];
          BeforeTransitive(k, ms[0].key, ms[i].key);
        }
        BeforeStrict(k, ms[i].key);
      }
      assert ([Member(k, v)] + ms)[1..] == ms;
    } else if ms[0].key != k {
      AscendingTail(ms);
      EmplaceFinds(ms[1..], k, v, q);
      assert ([ms[0]] + Emplace(ms[1..], k, v))[1..] == Emplace(ms[1..], k, v);
    }
  }

  // ----- what the printed document parses to -----

  function JsonOf(d: Doc): Json
    decreases d
  {
    match d
    case DStr(s) => Str(s)
    case DNum(n) => Number(Digits(n))
    case DBool(b) => Bool(b)
    case DArr(items) => Arr(JsonsOf(items))
    case DObj(fields) => Obj(EmplaceAll([], fields))
  }

  function JsonsOf(ds: seq<Doc>): seq<Json>
    decreases ds
  {
    if ds == [] then [] else [JsonOf(ds[0])] + JsonsOf(ds[1..])
  }

  function EmplaceAll(ms: seq<Member>, fields: seq<Field>): seq<Member>
    decreases fields
  {
    if fields == [] then ms
    else EmplaceAll(Emplace(ms, fields[0].key, JsonOf(fields[0].value)), fields[1..])
  }

  function First(fields: seq<Field>, k: string): Option<Doc> {
    if fields == [] then None else if fields[0].key == k then Some(fields[0].value) else First(fields[1..], k)
  }

  lemma {:induction false} EmplaceAllFinds(ms: seq<Member>, fields: seq<Field>, q: string)
    requires Ascending(ms)
    ensures Ascending(EmplaceAll(ms, fields))
    ensures Find(EmplaceAll(ms, fields), q) ==
      if Find(ms, q).Some? then Find(ms, q)
      else match First(fields, q) case None => None case Some(d) => Some(JsonOf(d))
    decreases |fields|
  {
    hide Emplace, Find, Ascending, JsonOf;
    if fields != [] {
      EmplaceAscends(ms, fields[0].key, JsonOf(fields[0].value));
      EmplaceFinds(ms, fields[0].key, JsonOf(fields[0].value), q);
      EmplaceAllFinds(Emplace(ms, fields[0].key, JsonOf(fields[0].value)), fields[1..], q);
    }
  }

  /** A key of a printed object finds the first field under it. */
  lemma GetField(fields: seq<Field>, k: string)
    ensures Get(JsonOf(DObj(fields)), k) == match First(fields, k) case None => None case Some(d) => Some(JsonOf(d))
  {
    EmplaceAllFinds([], fields, k);
  }

  // ----- the grammar, as the parser recognizes it -----

  datatype Parsed<+T> = Fail | Got(value: T, next: nat)

  function HexValue(c: char): (r: Option<nat>)
    ensures r.Some? ==> r.value < 16
  {
    if IsDigit(c) then Some(c as int - '0' as int)
    else if 'a' <= c <= 'f' then Some(c as int - 'a' as int + 10)
    else if 'A' <= c <= 'F' then Some(c as int - 'A' as int + 10)
    else None
  }

  /** Four hexadecimal digits. */
  function CodePoint(t: string, i: nat): (r: Option<nat>)
    requires i + 4 <= |t|
    ensures r.Some? ==> r.value < 0x10000
  {
    var a, b, c, d := HexValue(t[i]), HexValue(t[i + 1]), HexValue(t[i + 2]), HexValue(t[i + 3]);
    if a.None? || b.None? || c.None? || d.None? then None
    else Some(((a.value * 16 + b.value) * 16 + c.value) * 16 + d.value)
  }

  function Utf8(cp: nat): string
    requires cp < 0x10000
  {
    if cp < 0x80 then [cp as char]
    else if cp < 0x800 then [(0xC0 + cp / 0x40) as char, (0x80 + cp % 0x40) as char]
    else [(0xE0 + cp / 0x1000) as char, (0x80 + cp / 0x40 % 0x40) as char, (0x80 + cp % 0x40) as char]
  }

  /** The characters that a one-letter escape stands for. */
  function Unescape(e: char): Option<char> {
    match e
    case '"' => Some('"')
    case '\\' => Some('\\')
    case '/' => Some('/')
    case 'b' => Some(8 as char)
    case 'f' => Some(12 as char)
    case 'n' => Some('\n')
    case 'r' => Some('\r')
    case 't' => Some('\t')
    case _ => None
  }

  function ParseChars(t: string, i: nat, acc: string): (p: Parsed<string>)
    requires i <= |t|
    ensures p.Got? ==> i < p.next <= |t|
    decreases |t| - i
  {
    if i == |t| then Fail
    else if t[i] == '"' then Got(acc, i + 1)
    else if t[i] != '\\' then ParseChars(t, i + 1, acc + [t[i]])
    else if i + 1 == |t| then Fail
    else if t[i + 1] == 'u' then
      if i + 6 > |t| || CodePoint(t, i + 2).None? then Fail
      else ParseChars(t, i + 6, acc + Utf8(CodePoint(t, i + 2).value))
    else match Unescape(t[i + 1])
      case None => Fail
      case Some(c) => ParseChars(t, i + 2, acc + [c])
  }

  predicate NextIs(t: string, i: nat, c: char) { i < |t| && t[i] == c }

  function ParseString(t: string, i: nat): (p: Parsed<string>)
    requires i <= |t|
    ensures p.Got? ==> i < p.next <= |t|
  {
    var j := SpaceEnd(t, i);
    if NextIs(t, j, '"') then ParseChars(t, j + 1, "") else Fail
  }

  predicate DigitAt(t: string, i: nat) { i < |t| && IsDigit(t[i]) }

  function FractionEnd(t: string, i: nat): (r: Option<nat>)
    requires i <= |t|
    ensures r.Some? ==> i <= r.value <= |t|
  {
    if !NextIs(t, i, '.') then Some(i) else if DigitAt(t, i + 1) then Some(DigitEnd(t, i + 1)) else None
  }

  function ExponentEnd(t: string, i: nat): (r: Option<nat>)
    requires i <= |t|
    ensures r.Some? ==> i <= r.value <= |t|
  {
    if !NextIs(t, i, 'e') && !NextIs(t, i, 'E') then Some(i)
    else
      var j := if NextIs(t, i + 1, '+') || NextIs(t, i + 1, '-') then i + 2 else i + 1;
      if DigitAt(t, j) then Some(DigitEnd(t, j)) else None
  }

  function ParseNumber(t: string, i: nat): (p: Parsed<Json>)
    requires i <= |t|
    ensures p.Got? ==> i < p.next <= |t|
  {
    var a := if NextIs(t, i, '-') then i + 1 else i;
    if !DigitAt(t, a) then Fail
    else match FractionEnd(t, if t[a] == '0' then a + 1 else DigitEnd(t, a + 1))
      case None => Fail
      case Some(b) =>
        match ExponentEnd(t, b)
        case None => Fail
        case Some(c) => Got(Number(t[i..c]), c)
  }

  predicate LiteralAt(t: string, i: nat, lit: string) { i + |lit| <= |t| && t[i..i + |lit|] == lit }

  function ParseValue(t: string, i: nat): (p: Parsed<Json>)
    requires i <= |t|
    ensures p.Got? ==> i < p.next <= |t|
    decreases |t| - i, 1
  {
    var j := SpaceEnd(t, i);
    if j == |t| then Fail
    else if t[j] == '{' then
      var k := SpaceEnd(t, j + 1);
      if NextIs(t, k, '}') then Got(Obj([]), k + 1) else ParseMembers(t, k, [])
    else if t[j] == '[' then
      var k := SpaceEnd(t, j + 1);
      if NextIs(t, k, ']') then Got(Arr([]), k + 1) else ParseItems(t, k, [])
    else if t[j] == '"' then
      match ParseString(t, j) case Fail => Fail case Got(s, next) => Got(Str(s), next)
    else if t[j] == 't' || t[j] == 'f' then
      if LiteralAt(t, j, "true") then Got(Bool(true), j + 4)
      else if LiteralAt(t, j, "false") then Got(Bool(false), j + 5)
      else Fail
    else if t[j] == 'n' then
      if LiteralAt(t, j, "null") then Got(Null, j + 4) else Fail
    else if t[j] == '-' || IsDigit(t[j]) then ParseNumber(t, j)
    else Fail
  }

  function ParseMembers(t: string, i: nat, acc: seq<Member>): (p: Parsed<Json>)
    requires i <= |t|
    ensures p.Got? ==> i < p.next <= |t|
    decreases |t| - i, 2
  {
    match ParseString(t, i)
    case Fail => Fail
    case Got(key, a) =>
      var b := SpaceEnd(t, a);
      if !NextIs(t, b, ':') then Fail
      else match ParseValue(t, b + 1)
        case Fail => Fail
        case Got(v, c) =>
          var d := SpaceEnd(t, c);
          if NextIs(t, d, ',') then ParseMembers(t, d + 1, Emplace(acc, key, v))
          else if NextIs(t, d, '}') then Got(Obj(Emplace(acc, key, v)), d + 1)
          else Fail
  }

  function ParseItems(t: string, i: nat, acc: seq<Json>): (p: Parsed<Json>)
    requires i <= |t|
    ensures p.Got? ==> i < p.next <= |t|
    decreases |t| - i, 2
  {
    match ParseValue(t, i)
    case Fail => Fail
    case Got(v, c) =>
      var d := SpaceEnd(t, c);
      if NextIs(t, d, ',') then ParseItems(t, d + 1, acc + [v])
      else if NextIs(t, d, ']') then Got(Arr(acc + [v]), d + 1)
      else Fail
  }

  /** A text that is one value and nothing else. */
  function ParseText(t: string): Option<Json> {
    match ParseValue(t, 0)
    case Fail => None
    case Got(v, next) => if SpaceEnd(t, next) == |t| then Some(v) else None
  }

  // ----- what the printer prints is parsed back -----

  predicate At(t: string, i: nat, s: string) { i + |s| <= |t| && t[i..i + |s|] == s }

  lemma AtParts(t: string, i: nat, a: string, b: string)
    requires At(t, i, a + b)
    ensures At(t, i, a) && At(t, i + |a|, b)
  {
    assert t[i..i + |a|] == (a + b)[..|a|];
    assert t[i + |a|..i + |a| + |b|] == (a + b)[|a|..];
  }

  lemma AtChar(t: string, i: nat, s: string, k: nat)
    requires At(t, i, s) && k < |s|
    ensures i + k < |t| && t[i + k] == s[k]
  {
    assert t[i..i + |s|][k] == s[k];
  }

  /** The text that follows cannot continue a number. */
  predicate Ends(t: string, i: nat) {
    i >= |t| || !(IsDigit(t[i]) || t[i] == '.' || t[i] == 'e' || t[i] == 'E')
  }

  lemma {:induction false} SpacesEnd(t: string, i: nat, e: nat)
    requires i <= e <= |t| && (forall k | i <= k < e :: IsSpace(t[k])) && (e < |t| ==> !IsSpace(t[e]))
    ensures SpaceEnd(t, i) == e
    decreases |t| - i
  {
    if i < e { SpacesEnd(t, i + 1, e); }
  }

  lemma LineSkipped(t: string, i: nat, n: nat)
    requires At(t, i, Line(n)) && (i + |Line(n)| < |t| ==> !IsSpace(t[i + |Line(n)|]))
    ensures SpaceEnd(t, i) == i + |Line(n)|
  {
    forall k | i <= k < i + |Line(n)| ensures IsSpace(t[k]) { AtChar(t, i, Line(n), k - i); }
    SpacesEnd(t, i, i + |Line(n)|);
  }

  lemma CharParses(t: string, i: nat, c: char, acc: string)
    requires At(t, i, EscapeChar(c))
    ensures ParseChars(t, i, acc) == ParseChars(t, i + |EscapeChar(c)|, acc + [c])
  {
    var e := EscapeChar(c);
    AtChar(t, i, e, 0);
    if |e| > 1 { AtChar(t, i, e, 1); }
    if |e| > 2 {
      AtChar(t, i, e, 2);
      AtChar(t, i, e, 3);
      AtChar(t, i, e, 4);
      AtChar(t, i, e, 5);
      assert CodePoint(t, i + 2) == Some(c as nat);
    }
  }

  lemma {:induction false} CharsParse(t: string, i: nat, s: string, acc: string)
    requires At(t, i, Escape(s) + "\"")
    ensures ParseChars(t, i, acc) == Got(acc + s, i + |Escape(s)| + 1)
    decreases |s|
  {
    hide EscapeChar, At;
    if s == "" {
      AtChar(t, i, Escape(s) + "\"", 0);
      assert acc + s == acc;
    } else {
      assert Escape(s) + "\"" == EscapeChar(s[0]) + (Escape(s[1..]) + "\"");
      AtParts(t, i, EscapeChar(s[0]), Escape(s[1..]) + "\"");
      CharParses(t, i, s[0], acc);
      CharsParse(t, i + |EscapeChar(s[0])|, s[1..], acc + [s[0]]);
      assert acc + [s[0]] + s[1..] == acc + s;
    }
  }

  lemma StringParses(t: string, i: nat, s: string)
    requires At(t, i, Quoted(s))
    ensures ParseString(t, i) == Got(s, i + |Quoted(s)|)
  {
    hide Escape;
    assert Quoted(s) == "\"" + (Escape(s) + "\"");
    AtParts(t, i, "\"", Escape(s) + "\"");
    AtChar(t, i, "\"", 0);
    CharsParse(t, i + 1, s, "");
    assert "" + s == s;
  }

  lemma NumberParses(t: string, i: nat, n: nat)
    requires At(t, i, Digits(n)) && Ends(t, i + |Digits(n)|)
    ensures i < |t| && IsDigit(t[i]) && ParseNumber(t, i) == Got(Number(Digits(n)), i + |Digits(n)|)
  {
    hide Digits;
    var e := i + |Digits(n)|;
    DigitsAreDigits(n);
    DigitsLead(n);
    DigitZero();
    AtChar(t, i, Digits(n), 0);
    assert IsDigit(t[i]);
    assert t[i + 1..e] == Digits(n)[1..];
    DigitEndAt(t, i + 1, e);
  }

  lemma DigitZero()
    ensures |Digits(0)| == 1
  {
  }

  lemma TextStarts(d: Doc, n: nat)
    ensures |Text(d, n)| > 0 && !IsSpace(Text(d, n)[0]) && Text(d, n)[0] != ']'
  {
    hide Digits, Escape, ItemsText, FieldsText;
    if d.DNum? {
      DigitsAreDigits(d.n);
      assert IsDigit(Digits(d.n)[0]);
    }
  }

  /** A printed value, wherever it stands, is parsed to what it says. */
  lemma {:induction false} ValueParses(t: string, i: nat, d: Doc, n: nat)
    requires At(t, i, Text(d, n)) && Ends(t, i + |Text(d, n)|)
    ensures ParseValue(t, i) == Got(JsonOf(d), i + |Text(d, n)|)
    decreases d, 3
  {
    hide Digits, Escape, Line;
    TextStarts(d, n);
    AtChar(t, i, Text(d, n), 0);
    SpacesEnd(t, i, i);
    match d
    case DStr(s) => StringParses(t, i, s);
    case DNum(k) => NumberParses(t, i, k);
    case DBool(b) =>
    case DArr(items) => ArrayParses(t, i, items, n);
    case DObj(fields) => ObjectParses(t, i, fields, n);
  }

  lemma ValueAfterSpace(t: string, p: nat, q: nat)
    requires p <= |t| && q <= |t| && SpaceEnd(t, p) == SpaceEnd(t, q)
    ensures ParseValue(t, p) == ParseValue(t, q)
  {
    hide ParseString, ParseNumber, ParseItems, ParseMembers;
  }

  lemma NotSpace(t: string, i: nat)
    requires i < |t| && !IsSpace(t[i])
    ensures SpaceEnd(t, i) == i
  {
  }

  lemma Opens(t: string, i: nat)
    requires i < |t| && SpaceEnd(t, i) == i
    ensures t[i] == '[' ==> ParseValue(t, i) == var k := SpaceEnd(t, i + 1);
      if NextIs(t, k, ']') then Got(Arr([]), k + 1) else ParseItems(t, k, [])
    ensures t[i] == '{' ==> ParseValue(t, i) == var k := SpaceEnd(t, i + 1);
      if NextIs(t, k, '}') then Got(Obj([]), k + 1) else ParseMembers(t, k, [])
  {
    hide SpaceEnd, ParseString, ParseNumber, ParseItems, ParseMembers;
  }

  lemma ArrayParses(t: string, i: nat, items: seq<Doc>, n: nat)
    requires At(t, i, Text(DArr(items), n))
    ensures ParseValue(t, i) == Got(Arr(JsonsOf(items)), i + |Text(DArr(items), n)|)
    decreases items, 1
  {
    hide ItemsText, ParseValue, ParseItems, SpaceEnd, At, Line;
    var body, tail := ItemsText(items, n + 1, ""), Closing(items, n) + "]";
    assert Text(DArr(items), n) == "[" + (body + tail);
    AtParts(t, i, "[", body + tail);
    AtChar(t, i, "[", 0);
    NotSpace(t, i);
    Opens(t, i);
    if items == [] {
      EmptyText(n + 1);
      AtChar(t, i + 1, body + tail, 0);
      NotSpace(t, i + 1);
    } else {
      LineFirst(n);
      ItemsUnfold(items, n + 1, tail);
      TailFirst(items[1..], n + 1, tail);
      OnLine(t, i + 1, n + 1, items[0], ItemsText(items[1..], n + 1, ",") + tail);
      TextStarts(items[0], n + 1);
      ItemsParse(t, SpaceEnd(t, i + 1), i + 1, items, n + 1, n, []);
      assert [] + JsonsOf(items) == JsonsOf(items);
    }
  }

  lemma EmptyText(n: nat)
    ensures ItemsText([], n, "") == "" == FieldsText([], n, "")
  {
  }

  lemma ItemsUnfold(items: seq<Doc>, n: nat, tail: string)
    requires items != []
    ensures ItemsText(items, n, "") + tail == Line(n) + (Text(items[0], n) + (ItemsText(items[1..], n, ",") + tail))
  {
    hide Text, Line;
    Nested(Line(n), "", "", Text(items[0], n), ItemsText(items[1..], n, ","), tail);
    assert Line(n) + "" + "" == Line(n);
  }

  lemma ItemsSeparated(items: seq<Doc>, n: nat, tail: string)
    requires items != []
    ensures ItemsText(items, n, ",") + tail == "," + (ItemsText(items, n, "") + tail)
  {
    hide Text, Line;
    var rest := ItemsText(items[1..], n, ",");
    assert ItemsText(items, n, ",") == "," + (Line(n) + Text(items[0], n)) + rest;
    assert ItemsText(items, n, "") == (Line(n) + Text(items[0], n)) + rest;
  }

  lemma LastItems(items: seq<Doc>, n: nat, tail: string)
    requires items == []
    ensures ItemsText(items, n, ",") + tail == tail
  {
  }

  /** An entry on its line, and what follows it. */
  lemma OnLine(t: string, i: nat, n: nat, d: Doc, rest: string)
    requires At(t, i, Line(n) + (Text(d, n) + rest)) && rest != "" && (rest[0] == ',' || rest[0] == '\n')
    ensures At(t, i + |Line(n)|, Text(d, n)) && Ends(t, i + |Line(n)| + |Text(d, n)|)
    ensures At(t, i + |Line(n)| + |Text(d, n)|, rest)
    ensures SpaceEnd(t, i) == i + |Line(n)| == SpaceEnd(t, i + |Line(n)|)
    ensures t[i + |Line(n)|] == Text(d, n)[0]
  {
    hide Text, Line, SpaceEnd, At;
    var x, y := Line(n), Text(d, n);
    AtParts(t, i, x, y + rest);
    AtParts(t, i + |x|, y, rest);
    TextStarts(d, n);
    AtChar(t, i + |x|, y, 0);
    LineSkipped(t, i, n);
    NotSpace(t, i + |x|);
    AtChar(t, i + |x| + |y|, rest, 0);
  }

  lemma CloseSkipped(t: string, c: nat, m: nat, close: char)
    requires At(t, c, Line(m) + [close]) && !IsSpace(close)
    ensures SpaceEnd(t, c) == c + |Line(m)| && NextIs(t, c + |Line(m)|, close)
  {
    hide Line, SpaceEnd, At;
    AtParts(t, c, Line(m), [close]);
    AtChar(t, c + |Line(m)|, [close], 0);
    LineSkipped(t, c, m);
  }

  lemma TailFirst(xs: seq<Doc>, n: nat, tail: string)
    requires tail != "" && tail[0] == '\n'
    ensures var rest := ItemsText(xs, n, ",") + tail; rest != "" && (rest[0] == ',' || rest[0] == '\n')
  {
    hide Text, Line;
  }

  lemma ItemStep(t: string, p: nat, c: nat, d: nat, v: Json, acc: seq<Json>)
    requires p <= |t| && ParseValue(t, p) == Got(v, c) && SpaceEnd(t, c) == d
    ensures NextIs(t, d, ',') ==> ParseItems(t, p, acc) == ParseItems(t, d + 1, acc + [v])
    ensures NextIs(t, d, ']') ==> ParseItems(t, p, acc) == Got(Arr(acc + [v]), d + 1)
  {
    hide ParseValue, SpaceEnd;
  }

  lemma {:induction false} ItemsParse(t: string, p: nat, i: nat, items: seq<Doc>, n: nat, m: nat, acc: seq<Json>)
    requires items != [] && At(t, i, ItemsText(items, n, "") + (Line(m) + "]"))
    requires p <= |t| && SpaceEnd(t, p) == SpaceEnd(t, i)
    ensures ParseItems(t, p, acc) == Got(Arr(acc + JsonsOf(items)), i + |ItemsText(items, n, "")| + |Line(m)| + 1)
    decreases items, 0
  {
    hide Text, Line, ParseValue, ParseItems, SpaceEnd, At, ItemsText, JsonOf, JsonsOf;
    var x, y, tail := Line(n), Text(items[0], n), Line(m) + "]";
    var c, v, more := i + |x| + |y|, JsonOf(items[0]), items[1..];
    LineFirst(m);
    ItemsUnfold(items, n, tail);
    TailFirst(more, n, tail);
    OnLine(t, i, n, items[0], ItemsText(more, n, ",") + tail);
    ValueParses(t, i + |x|, items[0], n);
    ValueAfterSpace(t, p, i + |x|);
    JsonsUnfold(items);
    if more == [] {
      LastItems(more, n, tail);
      CloseSkipped(t, c, m, ']');
      ItemStep(t, p, c, c + |Line(m)|, v, acc);
    } else {
      ItemsSeparated(more, n, tail);
      AtParts(t, c, ",", ItemsText(more, n, "") + tail);
      AtChar(t, c, ",", 0);
      NotSpace(t, c);
      ItemStep(t, p, c, c, v, acc);
      ItemsParse(t, c + 1, c + 1, more, n, m, acc + [v]);
      assert acc + [v] + JsonsOf(more) == acc + ([v] + JsonsOf(more));
    }
  }

  lemma JsonsUnfold(items: seq<Doc>)
    requires items != []
    ensures JsonsOf(items) == [JsonOf(items[0])] + JsonsOf(items[1..])
    ensures items[1..] == [] ==> JsonsOf(items) == [JsonOf(items[0])]
  {
  }

  lemma ObjectParses(t: string, i: nat, fields: seq<Field>, n: nat)
    requires At(t, i, Text(DObj(fields), n))
    ensures ParseValue(t, i) == Got(JsonOf(DObj(fields)), i + |Text(DObj(fields), n)|)
    decreases fields, 2
  {
    hide FieldsText, ParseValue, ParseMembers, SpaceEnd, At, Line;
    var body, tail := FieldsText(fields, n + 1, ""), Closing(fields, n) + "}";
    assert Text(DObj(fields), n) == "{" + (body + tail);
    AtParts(t, i, "{", body + tail);
    AtChar(t, i, "{", 0);
    NotSpace(t, i);
    Opens(t, i);
    if fields == [] {
      EmptyText(n + 1);
      AtChar(t, i + 1, body + tail, 0);
      NotSpace(t, i + 1);
    } else {
      LineFirst(n);
      FieldsUnfold(fields, n + 1, tail);
      MoreFirst(fields[1..], n + 1, tail);
      FieldOnLine(t, i + 1, n + 1, fields[0], FieldsText(fields[1..], n + 1, ",") + tail);
      FieldsParse(t, SpaceEnd(t, i + 1), i + 1, fields, n + 1, n, []);
    }
  }

  lemma FieldsUnfold(fields: seq<Field>, n: nat, tail: string)
    requires fields != []
    ensures FieldsText(fields, n, "") + tail == Line(n) + (Quoted(fields[0].key) + (": " +
      (Text(fields[0].value, n) + (FieldsText(fields[1..], n, ",") + tail))))
  {
    hide Text, Line, Quoted;
    Nested(Line(n), Quoted(fields[0].key), ": ", Text(fields[0].value, n), FieldsText(fields[1..], n, ","), tail);
  }

  lemma Nested(a: string, b: string, c: string, d: string, e: string, f: string)
    ensures "" + ((a + b + c) + d) + e + f == a + (b + (c + (d + (e + f))))
  {
    Regrouped(d, e, f);
    Regrouped(c, d, e + f);
    Regrouped(b, c, d + (e + f));
    Regrouped(a, b, c + (d + (e + f)));
    assert "" + ((a + b + c) + d) == a + b + c + d;
    Regrouped(a, b + c, d + (e + f));
  }

  lemma FieldsSeparated(fields: seq<Field>, n: nat, tail: string)
    requires fields != []
    ensures FieldsText(fields, n, ",") + tail == "," + (FieldsText(fields, n, "") + tail)
  {
    hide Text, Opening;
    var rest, f := FieldsText(fields[1..], n, ","), fields[0];
    assert FieldsText(fields, n, ",") == "," + (Opening(f.key, n) + Text(f.value, n)) + rest;
    assert FieldsText(fields, n, "") == (Opening(f.key, n) + Text(f.value, n)) + rest;
  }

  lemma LastFields(fields: seq<Field>, n: nat, tail: string)
    requires fields == []
    ensures FieldsText(fields, n, ",") + tail == tail
  {
  }

  lemma MoreFirst(fields: seq<Field>, n: nat, tail: string)
    requires tail != "" && tail[0] == '\n'
    ensures var rest := FieldsText(fields, n, ",") + tail; rest != "" && (rest[0] == ',' || rest[0] == '\n')
  {
    hide Text, Opening;
  }

  /** A field on its line, and what follows it. */
  lemma FieldOnLine(t: string, i: nat, n: nat, f: Field, rest: string)
    requires At(t, i, Line(n) + (Quoted(f.key) + (": " + (Text(f.value, n) + rest))))
    requires rest != "" && (rest[0] == ',' || rest[0] == '\n')
    ensures SpaceEnd(t, i) == i + |Line(n)| == SpaceEnd(t, i + |Line(n)|)
    ensures At(t, i + |Line(n)|, Quoted(f.key)) && NextIs(t, i + |Line(n)|, '"')
    ensures var b := i + |Line(n)| + |Quoted(f.key)|;
      && NextIs(t, b, ':') && SpaceEnd(t, b) == b && b + 2 <= |t| && SpaceEnd(t, b + 1) == SpaceEnd(t, b + 2)
      && At(t, b + 2, Text(f.value, n)) && Ends(t, b + 2 + |Text(f.value, n)|)
      && At(t, b + 2 + |Text(f.value, n)|, rest)
  {
    hide Text, Line, Escape, At, SpaceEnd;
    var x, q, y := Line(n), Quoted(f.key), Text(f.value, n);
    var j, b := i + |x|, i + |x| + |q|;
    AtParts(t, i, x, q + (": " + (y + rest)));
    AtParts(t, j, q, ": " + (y + rest));
    AtParts(t, b, ": ", y + rest);
    AtParts(t, b + 2, y, rest);
    AtChar(t, j, q, 0);
    LineSkipped(t, i, n);
    NotSpace(t, j);
    AtChar(t, b, ": ", 0);
    AtChar(t, b, ": ", 1);
    NotSpace(t, b);
    OneSpace(t, b + 1);
    AtChar(t, b + 2 + |y|, rest, 0);
  }

  lemma OneSpace(t: string, i: nat)
    requires i < |t| && IsSpace(t[i])
    ensures SpaceEnd(t, i) == SpaceEnd(t, i + 1)
  {
  }

  lemma StringAfterSpace(t: string, p: nat, q: nat)
    requires p <= |t| && q <= |t| && SpaceEnd(t, p) == SpaceEnd(t, q)
    ensures ParseString(t, p) == ParseString(t, q)
  {
  }

  lemma MemberStep(t: string, p: nat, b: nat, c: nat, d: nat, key: string, v: Json, acc: seq<Member>)
    requires p <= |t| && ParseString(t, p) == Got(key, b) && NextIs(t, SpaceEnd(t, b), ':')
    requires ParseValue(t, SpaceEnd(t, b) + 1) == Got(v, c) && SpaceEnd(t, c) == d
    ensures NextIs(t, d, ',') ==> ParseMembers(t, p, acc) == ParseMembers(t, d + 1, Emplace(acc, key, v))
    ensures NextIs(t, d, '}') ==> ParseMembers(t, p, acc) == Got(Obj(Emplace(acc, key, v)), d + 1)
  {
    hide ParseValue, ParseString, SpaceEnd, Emplace;
  }

  /** The first field of an open object is read, and the cursor is after it. */
  lemma FieldParses(t: string, p: nat, i: nat, fields: seq<Field>, n: nat, tail: string)
    requires fields != [] && At(t, i, FieldsText(fields, n, "") + tail) && tail != "" && tail[0] == '\n'
    requires p <= |t| && SpaceEnd(t, p) == SpaceEnd(t, i)
    ensures var b := i + |Line(n)| + |Quoted(fields[0].key)|; var c := b + 2 + |Text(fields[0].value, n)|;
      && ParseString(t, p) == Got(fields[0].key, b) && SpaceEnd(t, b) == b && NextIs(t, b, ':')
      && ParseValue(t, b + 1) == Got(JsonOf(fields[0].value), c)
      && At(t, c, FieldsText(fields[1..], n, ",") + tail)
      && |FieldsText(fields, n, "")| == c - i + |FieldsText(fields[1..], n, ",")|
    decreases fields, 0
  {
    hide Text, Line, ParseValue, ParseString, SpaceEnd, At, FieldsText, JsonOf, Quoted;
    var j, b := i + |Line(n)|, i + |Line(n)| + |Quoted(fields[0].key)|;
    FieldsUnfold(fields, n, tail);
    MoreFirst(fields[1..], n, tail);
    FieldOnLine(t, i, n, fields[0], FieldsText(fields[1..], n, ",") + tail);
    StringParses(t, j, fields[0].key);
    StringAfterSpace(t, p, j);
    ValueParses(t, b + 2, fields[0].value, n);
    ValueAfterSpace(t, b + 1, b + 2);
  }

  lemma {:induction false} FieldsParse(t: string, p: nat, i: nat, fields: seq<Field>, n: nat, m: nat, acc: seq<Member>)
    requires fields != [] && At(t, i, FieldsText(fields, n, "") + (Line(m) + "}"))
    requires p <= |t| && SpaceEnd(t, p) == SpaceEnd(t, i)
    ensures ParseMembers(t, p, acc) == Got(Obj(EmplaceAll(acc, fields)), i + |FieldsText(fields, n, "")| + |Line(m)| + 1)
    decreases fields, 1
  {
    hide Text, Line, ParseValue, ParseString, ParseMembers, SpaceEnd, At, FieldsText, JsonOf, EmplaceAll, Emplace, Quoted;
    var more, v, tail := fields[1..], JsonOf(fields[0].value), Line(m) + "}";
    var b := i + |Line(n)| + |Quoted(fields[0].key)|;
    var c := b + 2 + |Text(fields[0].value, n)|;
    LineFirst(m);
    FieldParses(t, p, i, fields, n, tail);
    EmplaceUnfold(acc, fields);
    if more == [] {
      LastFields(more, n, tail);
      CloseSkipped(t, c, m, '}');
      MemberStep(t, p, b, c, c + |Line(m)|, fields[0].key, v, acc);
    } else {
      FieldsSeparated(more, n, tail);
      AtParts(t, c, ",", FieldsText(more, n, "") + tail);
      AtChar(t, c, ",", 0);
      NotSpace(t, c);
      MemberStep(t, p, b, c, c, fields[0].key, v, acc);
      FieldsParse(t, c + 1, c + 1, more, n, m, Emplace(acc, fields[0].key, v));
    }
  }

  lemma EmplaceUnfold(acc: seq<Member>, fields: seq<Field>)
    requires fields != []
    ensures var next := Emplace(acc, fields[0].key, JsonOf(fields[0].value));
      EmplaceAll(acc, fields) == EmplaceAll(next, fields[1..]) && (fields[1..] == [] ==> EmplaceAll(acc, fields) == next)
  {
  }

  lemma LineFirst(n: nat)
    ensures Line(n) != "" && Line(n)[0] == '\n'
  {
  }

  /** Parsing undoes printing. */
  lemma PrintedTextParses(d: Doc)
    ensures ParseText(Text(d, 0)) == Some(JsonOf(d))
  {
    hide Text, JsonOf, ParseValue;
    var t := Text(d, 0);
    assert t[0..|t|] == t;
    ValueParses(t, 0, d, 0);
  }

  // ----- the parser -----

  class Parser {
    const t: string
    var i: nat
    var ok: bool

    ghost predicate Valid()
      reads this
    {
      i <= |t|
    }

    /** The parser succeeded exactly as the grammar says, with its value. */
    ghost predicate Follows(p: Parsed<Json>, v: Json)
      reads this
    {
      Valid() && ok == p.Got? && (ok ==> v == p.value && i == p.next)
    }

    constructor (text: string)
      ensures Valid() && t == text && i == 0 && ok
    {
      t, i, ok := text, 0, true;
    }

    method Skip()
      requires Valid()
      modifies `i
      ensures Valid() && i == SpaceEnd(t, old(i))
    {
      while i < |t| && IsSpace(t[i])
        invariant Valid() && SpaceEnd(t, i) == SpaceEnd(t, old(i))
      {
        i := i + 1;
      }
    }

    /** The next character that is not a space; the end of the text reads as NUL. */
    method Peek() returns (c: char)
      requires Valid()
      modifies `i
      ensures Valid() && i == SpaceEnd(t, old(i))
      ensures c == if i < |t| then t[i] else '\0'
    {
      Skip();
      c := if i < |t| then t[i] else '\0';
    }

    method Eat(c: char) returns (eaten: bool)
      requires Valid() && c != '\0'
      modifies `i, `ok
      ensures Valid() && eaten == NextIs(t, SpaceEnd(t, old(i)), c)
      ensures i == SpaceEnd(t, old(i)) + (if eaten then 1 else 0) && ok == (old(ok) && eaten)
    {
      var next := Peek();
      if next != c {
        ok := false;
        return false;
      }
      i := i + 1;
      return true;
    }

    method Starts(lit: string) returns (yes: bool)
      requires Valid()
      modifies `i
      ensures Valid() && i == SpaceEnd(t, old(i)) && yes == LiteralAt(t, i, lit)
    {
      Skip();
      yes := i + |lit| <= |t| && t[i..i + |lit|] == lit;
    }

    method Parse() returns (v: Json)
      requires Valid() && i == 0 && ok
      modifies this
      ensures ok == ParseText(t).Some? && (ok ==> v == ParseText(t).value)
    {
      v := Value();
      Skip();
      if i != |t| { ok := false; }
      if !ok { v := Null; }
    }

    method Value() returns (v: Json)
      requires Valid() && ok
      modifies this
      ensures Follows(ParseValue(t, old(i)), v)
      decreases |t| - i, 1
    {
      hide ParseString, ParseNumber, ParseMembers, ParseItems, SpaceEnd;
      var c := Peek();
      SpaceEndSettled(t, old(i));
      v := Null;
      if c == '{' {
        v := Object();
      } else if c == '[' {
        v := Array();
      } else if c == '"' {
        v := String();
      } else if c == 't' || c == 'f' {
        v := Boolean();
      } else if c == 'n' {
        v := NullV();
      } else if c == '-' || IsDigit(c) {
        v := NumberV();
      } else {
        ok := false;
      }
    }

    method Object() returns (v: Json)
      requires Valid() && ok && NextIs(t, i, '{')
      modifies this
      ensures Follows(ParseValue(t, old(i)), v)
      decreases |t| - i, 0
    {
      hide ParseString, ParseValue, ParseMembers, SpaceEnd;
      NotSpace(t, i);
      Opens(t, i);
      SpaceEndSettled(t, i + 1);
      var eaten := Eat('{');
      Skip();
      var c := Peek();
      if c == '}' {
        i := i + 1;
        return Obj([]);
      }
      v := Members();
    }

    method Members() returns (v: Json)
      requires Valid() && ok
      modifies this
      ensures Follows(ParseMembers(t, old(i), []), v)
      decreases |t| - i, 2
    {
      hide ParseString, ParseValue, ParseMembers, SpaceEnd, Emplace;
      var members := [];
      while ok
        invariant Valid() && (ok ==> i >= old(i))
        invariant ok ==> ParseMembers(t, old(i), []) == ParseMembers(t, i, members)
        invariant !ok ==> ParseMembers(t, old(i), []).Fail?
        decreases ok, |t| - i
      {
        MembersBody(t, i, members);
        var k := String();
        if !ok || !k.Str? {
          ok := false;
          return Obj(members);
        }
        var colon := Eat(':');
        if !colon { return Obj(members); }
        var val := Value();
        if ok { SpaceEndSettled(t, i); }
        members := Emplace(members, k.s, val);
        Skip();
        var c := Peek();
        if c == ',' {
          i := i + 1;
        } else if c == '}' {
          i := i + 1;
          break;
        } else {
          ok := false;
          break;
        }
      }
      return Obj(members);
    }

    method Array() returns (v: Json)
      requires Valid() && ok && NextIs(t, i, '[')
      modifies this
      ensures Follows(ParseValue(t, old(i)), v)
      decreases |t| - i, 0
    {
      hide ParseValue, ParseItems, SpaceEnd;
      NotSpace(t, i);
      Opens(t, i);
      SpaceEndSettled(t, i + 1);
      var eaten := Eat('[');
      Skip();
      var c := Peek();
      if c == ']' {
        i := i + 1;
        return Arr([]);
      }
      v := Items();
    }

    method Items() returns (v: Json)
      requires Valid() && ok
      modifies this
      ensures Follows(ParseItems(t, old(i), []), v)
      decreases |t| - i, 2
    {
      hide ParseValue, ParseItems, SpaceEnd;
      var items := [];
      while ok
        invariant Valid() && (ok ==> i >= old(i))
        invariant ok ==> ParseItems(t, old(i), []) == ParseItems(t, i, items)
        invariant !ok ==> ParseItems(t, old(i), []).Fail?
        decreases ok, |t| - i
      {
        ItemsBody(t, i, items);
        var val := Value();
        if ok { SpaceEndSettled(t, i); }
        items := items + [val];
        Skip();
        var c := Peek();
        if c == ',' {
          i := i + 1;
        } else if c == ']' {
          i := i + 1;
          break;
        } else {
          ok := false;
          break;
        }
      }
      return Arr(items);
    }

    method String() returns (v: Json)
      requires Valid() && ok
      modifies this
      ensures Valid() && ok == ParseString(t, old(i)).Got?
      ensures ok ==> v == Str(ParseString(t, old(i)).value) && i == ParseString(t, old(i)).next
    {
      hide SpaceEnd;
      ghost var start := i;
      var s := "";
      var begun := Eat('"');
      if !begun { return Str(s); }
      while i < |t| && ok
        invariant Valid() && ok && ParseString(t, start) == ParseChars(t, i, s)
      {
        var c := t[i];
        i := i + 1;
        if c == '"' { return Str(s); }
        if c == '\\' {
          if i >= |t| {
            ok := false;
            return Str(s);
          }
          var e := t[i];
          i := i + 1;
          if e == 'u' {
            if i + 4 > |t| {
              ok := false;
              return Str(s);
            }
            var cp := CodePoint(t, i);
            if cp.None? {
              ok := false;
              return Str(s);
            }
            i := i + 4;
            s := s + Utf8(cp.value);
          } else {
            var u := Unescape(e);
            if u.None? {
              ok := false;
              return Str(s);
            }
            s := s + [u.value];
          }
        } else {
          s := s + [c];
        }
      }
      ok := false;
      return Str(s);
    }

    method Boolean() returns (v: Json)
      requires Valid() && ok && i < |t| && (t[i] == 't' || t[i] == 'f')
      modifies this
      ensures Follows(ParseValue(t, old(i)), v)
    {
      NotSpace(t, i);
      var yes := Starts("true");
      if yes {
        i := i + 4;
        return Bool(true);
      }
      var no := Starts("false");
      if no {
        i := i + 5;
        return Bool(false);
      }
      ok := false;
      return Bool(false);
    }

    method NullV() returns (v: Json)
      requires Valid() && ok && NextIs(t, i, 'n')
      modifies this
      ensures Follows(ParseValue(t, old(i)), v)
    {
      NotSpace(t, i);
      var yes := Starts("null");
      if yes { i := i + 4; } else { ok := false; }
      v := Null;
    }

    /** Advance over a run of digits. */
    method Run()
      requires Valid()
      modifies `i
      ensures Valid() && i == DigitEnd(t, old(i))
    {
      while i < |t| && IsDigit(t[i])
        invariant Valid() && DigitEnd(t, i) == DigitEnd(t, old(i))
      {
        i := i + 1;
      }
    }

    method Fraction()
      requires Valid() && ok
      modifies this
      ensures Valid() && ok == FractionEnd(t, old(i)).Some? && (ok ==> i == FractionEnd(t, old(i)).value)
    {
      if i < |t| && t[i] == '.' {
        i := i + 1;
        if i >= |t| || !IsDigit(t[i]) {
          ok := false;
          return;
        }
        Run();
      }
    }

    method Exponent()
      requires Valid() && ok
      modifies this
      ensures Valid() && ok == ExponentEnd(t, old(i)).Some? && (ok ==> i == ExponentEnd(t, old(i)).value)
    {
      if i < |t| && (t[i] == 'e' || t[i] == 'E') {
        i := i + 1;
        if i < |t| && (t[i] == '+' || t[i] == '-') { i := i + 1; }
        if i >= |t| || !IsDigit(t[i]) {
          ok := false;
          return;
        }
        Run();
      }
    }

    method NumberV() returns (v: Json)
      requires Valid() && ok && i < |t| && (t[i] == '-' || IsDigit(t[i]))
      modifies this
      ensures Follows(ParseNumber(t, old(i)), v)
    {
      hide DigitEnd, FractionEnd, ExponentEnd;
      NotSpace(t, i);
      Skip();
      var start := i;
      v := Number("");
      if i < |t| && t[i] == '-' { i := i + 1; }
      if i >= |t| || !IsDigit(t[i]) {
        ok := false;
        return;
      }
      if t[i] == '0' {
        i := i + 1;
      } else {
        i := i + 1;
        Run();
      }
      Fraction();
      if !ok { return; }
      Exponent();
      if !ok { return; }
      v := Number(t[start..i]);
    }
  }

  lemma MembersBody(t: string, i: nat, acc: seq<Member>)
    requires i <= |t|
    ensures ParseMembers(t, i, acc) ==
      match ParseString(t, i)
      case Fail => Fail
      case Got(key, a) =>
        if !NextIs(t, SpaceEnd(t, a), ':') then Fail
        else match ParseValue(t, SpaceEnd(t, a) + 1)
          case Fail => Fail
          case Got(v, c) =>
            var d := SpaceEnd(t, c);
            if NextIs(t, d, ',') then ParseMembers(t, d + 1, Emplace(acc, key, v))
            else if NextIs(t, d, '}') then Got(Obj(Emplace(acc, key, v)), d + 1)
            else Fail
  {
    hide ParseValue, ParseString, SpaceEnd, Emplace;
  }

  lemma ItemsBody(t: string, i: nat, acc: seq<Json>)
    requires i <= |t|
    ensures ParseItems(t, i, acc) ==
      match ParseValue(t, i)
      case Fail => Fail
      case Got(v, c) =>
        var d := SpaceEnd(t, c);
        if NextIs(t, d, ',') then ParseItems(t, d + 1, acc + [v])
        else if NextIs(t, d, ']') then Got(Arr(acc + [v]), d + 1)
        else Fail
  {
    hide ParseValue, SpaceEnd;
  }

  lemma {:induction false} SpaceEndSettled(t: string, i: nat)
    requires i <= |t|
    ensures SpaceEnd(t, SpaceEnd(t, i)) == SpaceEnd(t, i)
    ensures SpaceEnd(t, i) < |t| ==> !IsSpace(t[SpaceEnd(t, i)])
    decreases |t| - i
  {
    if i < |t| && IsSpace(t[i]) { SpaceEndSettled(t, i + 1); }
  }
}
