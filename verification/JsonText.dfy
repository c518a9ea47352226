/** The pretty printer of JSON documents: what it prints, and that the writer
    prints it whatever the nesting. */
module JsonText {
  import opened Saturation
  import opened Numerals

  /** A document as it is printed; the fields of an object keep their order. */
  datatype Doc =
    | DStr(s: string)
    | DNum(n: nat)
    | DBool(b: bool)
    | DArr(items: seq<Doc>)
    | DObj(fields: seq<Field>)

  datatype Field = Field(key: string, value: Doc)

  // ----- the text of a document -----

  function HexDigit(d: nat): char
    requires d < 16
  {
    if d < 10 then '0' + d as char else 'a' + (d - 10) as char
  }

  function EscapeChar(c: char): string {
    if c == '"' then "\\\""
    else if c == '\\' then "\\\\"
    else if c == '\n' then "\\n"
    else if c == '\r' then "\\r"
    else if c == '\t' then "\\t"
    else if c < ' ' then "\\u00" + [HexDigit(c as int / 16), HexDigit(c as int % 16)]
    else [c]
  }

  function Escape(s: string): string {
    if s == "" then "" else EscapeChar(s[0]) + Escape(s[1..])
  }

  function Quoted(s: string): string { "\"" + Escape(s) + "\"" }

  function Line(n: nat): string { "\n" + seq(2 * n, _ => ' ') }

  function Opening(key: string, n: nat): string { Line(n) + Quoted(key) + ": " }

  function Text(d: Doc, n: nat): string {
    match d
    case DStr(s) => Quoted(s)
    case DNum(k) => Digits(k)
    case DBool(b) => if b then "true" else "false"
    case DArr(items) => "[" + ItemsText(items, n + 1, "") + Closing(items, n) + "]"
    case DObj(fields) => "{" + FieldsText(fields, n + 1, "") + Closing(fields, n) + "}"
  }

  /** Entries on lines of their own, the first after `sep`, the others after a comma. */
  function ItemsText(items: seq<Doc>, n: nat, sep: string): string {
    if items == [] then "" else sep + (Line(n) + Text(items[0], n)) + ItemsText(items[1..], n, ",")
  }

  function FieldsText(fields: seq<Field>, n: nat, sep: string): string {
    if fields == [] then ""
    else sep + (Opening(fields[0].key, n) + Text(fields[0].value, n)) + FieldsText(fields[1..], n, ",")
  }

  function Closing<T>(entries: seq<T>, n: nat): string { if |entries| == 0 then "" else Line(n) }

  function Sep<T>(entries: seq<T>): string { if |entries| == 0 then "" else "," }

  lemma {:induction false} ItemAppended(items: seq<Doc>, d: Doc, n: nat, sep: string)
    ensures ItemsText(items + [d], n, sep) ==
      ItemsText(items, n, sep) + ((if items == [] then sep else ",") + (Line(n) + Text(d, n)))
  {
    hide Text, Line;
    var text := Line(n) + Text(d, n);
    if items == [] {
      assert (items + [d])[1..] == [] && (items + [d])[0] == d;
    } else {
      ItemAppended(items[1..], d, n, ",");
      assert (items + [d])[1..] == items[1..] + [d] && (items + [d])[0] == items[0];
      Regrouped(sep + (Line(n) + Text(items[0], n)), ItemsText(items[1..], n, ","), "," + text);
    }
  }

  lemma {:induction false} FieldAppended(fields: seq<Field>, f: Field, n: nat, sep: string)
    ensures FieldsText(fields + [f], n, sep) ==
      FieldsText(fields, n, sep) + ((if fields == [] then sep else ",") + (Opening(f.key, n) + Text(f.value, n)))
  {
    hide Text, Opening;
    var text := Opening(f.key, n) + Text(f.value, n);
    if fields == [] {
      assert (fields + [f])[1..] == [] && (fields + [f])[0] == f;
    } else {
      FieldAppended(fields[1..], f, n, ",");
      assert (fields + [f])[1..] == fields[1..] + [f] && (fields + [f])[0] == fields[0];
      Regrouped(sep + (Opening(fields[0].key, n) + Text(fields[0].value, n)), FieldsText(fields[1..], n, ","), "," + text);
    }
  }

  lemma Regrouped(a: string, b: string, c: string)
    ensures a + (b + c) == a + b + c
  {
  }

  lemma Quotes(a: string, line: string, escaped: string)
    ensures a + line + "\"" + escaped + "\": " == a + (line + ("\"" + escaped + "\"") + ": ")
  {
    assert "\": " == "\"" + ": ";
  }

  // ----- a document under construction -----

  /** What is open around the cursor: nothing, an object (perhaps after a key),
      or an array (perhaps on the line of its next element). */
  datatype Open =
    | Root(doc: Option<Doc>)
    | InObj(below: Open, fields: seq<Field>, key: Option<string>)
    | InArr(below: Open, items: seq<Doc>, started: bool)

  /** The next thing written is a value. */
  predicate Pending(o: Open) {
    match o
    case Root(doc) => doc.None?
    case InObj(_, _, key) => key.Some?
    case InArr(_, _, started) => started
  }

  /** The next entry needs a comma before it. */
  predicate Written(o: Open) {
    match o
    case Root(doc) => doc.Some?
    case InObj(_, fields, key) => fields != [] && key.None?
    case InArr(_, items, started) => items != [] && !started
  }

  /** Whatever is open waits for what was opened inside it. */
  predicate Nested(o: Open) { o.Root? || (Pending(o.below) && Nested(o.below)) }

  function Depth(o: Open): nat { if o.Root? then 0 else Depth(o.below) + 1 }

  /** The innermost open value receives its next part. */
  function Put(o: Open, d: Doc): Open
    requires Pending(o)
  {
    match o
    case Root(_) => Root(Some(d))
    case InObj(below, fields, key) => InObj(below, fields + [Field(key.value, d)], None)
    case InArr(below, items, _) => InArr(below, items + [d], false)
  }

  /** The text written so far. */
  function Render(o: Open): string {
    match o
    case Root(doc) => if doc.Some? then Text(doc.value, 0) else ""
    case InObj(below, fields, key) =>
      Render(below) + ("{" + FieldsText(fields, Depth(o), "")) + KeyText(o, fields, key)
    case InArr(below, items, started) =>
      Render(below) + ("[" + ItemsText(items, Depth(o), "")) + (if started then Sep(items) + Line(Depth(o)) else "")
  }

  function KeyText(o: Open, fields: seq<Field>, key: Option<string>): string {
    if key.Some? then Sep(fields) + Opening(key.value, Depth(o)) else ""
  }

  lemma PutText(o: Open, d: Doc)
    requires Pending(o)
    ensures Render(Put(o, d)) == Render(o) + Text(d, Depth(o))
    ensures Depth(Put(o, d)) == Depth(o) && (Nested(o) ==> Nested(Put(o, d)))
  {
    hide FieldsText, ItemsText, Text, Opening, Line;
    var n := Depth(o);
    match o
    case Root(_) =>
    case InObj(below, fields, key) =>
      FieldAppended(fields, Field(key.value, d), n, "");
      Appended(Render(below), "{", FieldsText(fields, n, ""), Sep(fields), Opening(key.value, n), Text(d, n));
    case InArr(below, items, _) =>
      ItemAppended(items, d, n, "");
      Appended(Render(below), "[", ItemsText(items, n, ""), Sep(items), Line(n), Text(d, n));
  }

  lemma Appended(a: string, b: string, c: string, d: string, e: string, f: string)
    ensures a + (b + (c + (d + (e + f)))) + "" == a + (b + c) + (d + e) + f
  {
    Regrouped(d, e, f);
    Regrouped(b, c, d + e + f);
    Regrouped(a, b + c, d + e + f);
    Regrouped(a + (b + c), d + e, f);
    assert a + (b + (c + (d + (e + f)))) + "" == a + (b + (c + (d + (e + f))));
  }

  /** A closed object or array is a value of what it was opened in. */
  lemma CloseText(o: Open)
    requires Nested(o) && !o.Root? && !Pending(o)
    ensures o.InObj? ==>
      Render(Put(o.below, DObj(o.fields))) == Render(o) + (Closing(o.fields, Depth(o) - 1) + "}")
    ensures o.InArr? ==>
      Render(Put(o.below, DArr(o.items))) == Render(o) + (Closing(o.items, Depth(o) - 1) + "]")
  {
    hide FieldsText, ItemsText, Line;
    match o
    case InObj(below, fields, _) =>
      PutText(below, DObj(fields));
      Closed(Render(below), "{" + FieldsText(fields, Depth(o), ""), Closing(fields, Depth(o) - 1), "}");
    case InArr(below, items, _) =>
      PutText(below, DArr(items));
      Closed(Render(below), "[" + ItemsText(items, Depth(o), ""), Closing(items, Depth(o) - 1), "]");
  }

  lemma Closed(a: string, b: string, c: string, d: string)
    ensures a + (b + c + d) == a + b + "" + (c + d)
  {
    Regrouped(b, c, d);
    Regrouped(a, b, c + d);
    assert a + b + "" == a + b;
  }

  method JsonEscape(s: string) returns (out: string)
    ensures out == Escape(s)
  {
    out := "";
    for i := 0 to |s|
      invariant out + Escape(s[i..]) == Escape(s)
    {
      var piece;
      match s[i] {
        case '"' => piece := "\\\"";
        case '\\' => piece := "\\\\";
        case '\n' => piece := "\\n";
        case '\r' => piece := "\\r";
        case '\t' => piece := "\\t";
        case c =>
          if c < ' ' {
            piece := "\\u00" + [HexDigit(c as int / 16), HexDigit(c as int % 16)];
          } else {
            piece := [c];
          }
      }
      assert s[i..][1..] == s[i + 1..];
      Regrouped(out, piece, Escape(s[i + 1..]));
      out := out + piece;
    }
  }

  // ----- the writer -----

  class Jw {
    var out: string
    var indent: nat
    var needsComma: bool
    ghost var open: Open

    /** What has been written is the text of what is open. */
    ghost predicate Valid()
      reads this
    {
      Nested(open) && indent == Depth(open) && out == Render(open) && needsComma == Written(open)
    }

    ghost predicate Ready()
      reads this
    {
      Valid() && Pending(open)
    }

    /** The written value went where one was due. */
    ghost predicate Wrote(before: Open, d: Doc)
      requires Pending(before)
      reads this
    {
      Valid() && open == Put(before, d)
    }

    constructor ()
      ensures Ready() && open == Root(None)
    {
      out, indent, needsComma, open := "", 0, false, Root(None);
    }

    method Pad()
      modifies `out
      ensures out == old(out) + Line(indent)
    {
      out := out + "\n";
      for i := 0 to indent
        invariant out == old(out) + "\n" + seq(2 * i, _ => ' ')
      {
        out := out + "  ";
      }
    }

    method Comma()
      modifies `out, `needsComma
      ensures out == old(out) + (if old(needsComma) then "," else "") && !needsComma
    {
      if needsComma { out := out + ","; }
      needsComma := false;
    }

    method BeginObj()
      requires Ready()
      modifies this
      ensures Valid() && open == InObj(old(open), [], None)
    {
      hide Text;
      out := out + "{";
      indent := indent + 1;
      needsComma := false;
      open := InObj(open, [], None);
    }

    method EndObj()
      requires Valid() && open.InObj? && open.key.None?
      modifies this
      ensures Wrote(old(open).below, DObj(old(open).fields))
    {
      hide Render, Text, Line;
      CloseText(open);
      PutText(open.below, DObj(open.fields));
      ghost var before, closing := out, Closing(open.fields, indent - 1);
      indent := indent - 1;
      if needsComma { Pad(); }
      assert out == before + closing;
      Regrouped(before, closing, "}");
      out := out + "}";
      needsComma := true;
      open := Put(open.below, DObj(open.fields));
    }

    method BeginArr()
      requires Ready()
      modifies this
      ensures Valid() && open == InArr(old(open), [], false)
    {
      hide Text;
      out := out + "[";
      indent := indent + 1;
      needsComma := false;
      open := InArr(open, [], false);
    }

    method EndArr()
      requires Valid() && open.InArr? && !open.started
      modifies this
      ensures Wrote(old(open).below, DArr(old(open).items))
    {
      hide Render, Text, Line;
      CloseText(open);
      PutText(open.below, DArr(open.items));
      ghost var before, closing := out, Closing(open.items, indent - 1);
      indent := indent - 1;
      if needsComma { Pad(); }
      assert out == before + closing;
      Regrouped(before, closing, "]");
      out := out + "]";
      needsComma := true;
      open := Put(open.below, DArr(open.items));
    }

    /** A key with nothing in it to escape. */
    method Key(k: string)
      requires Valid() && open.InObj? && open.key.None? && Escape(k) == k
      modifies this
      ensures Ready() && open == old(open).(key := Some(k))
    {
      EscapedKey(k, k);
    }

    method KeyS(k: string)
      requires Valid() && open.InObj? && open.key.None?
      modifies this
      ensures Ready() && open == old(open).(key := Some(k))
    {
      var escaped := JsonEscape(k);
      EscapedKey(escaped, k);
    }

    method EscapedKey(escaped: string, ghost k: string)
      requires Valid() && open.InObj? && open.key.None? && escaped == Escape(k)
      modifies this
      ensures Ready() && open == old(open).(key := Some(k))
    {
      hide Text, FieldsText, ItemsText, Escape, Line;
      ghost var before, line, comma := out, Line(indent), Sep(open.fields);
      Comma();
      Pad();
      out := out + "\"" + escaped + "\": ";
      assert out == before + comma + line + "\"" + Escape(k) + "\": ";
      Quotes(before + comma, line, Escape(k));
      Regrouped(before, comma, Opening(k, indent));
      open := open.(key := Some(k));
      assert before + "" == before;
    }

    /** The line of the next array element. */
    method Item()
      requires Valid() && open.InArr? && !open.started
      modifies this
      ensures Ready() && open == old(open).(started := true)
    {
      hide Text, FieldsText, ItemsText, Line;
      ghost var before, line, comma := out, Line(indent), Sep(open.items);
      Comma();
      Pad();
      assert out == before + comma + line;
      Regrouped(before, comma, line);
      open := open.(started := true);
    }

    method Str(s: string)
      requires Ready()
      modifies this
      ensures Wrote(old(open), DStr(s))
    {
      hide Render, Escape;
      PutText(open, DStr(s));
      var escaped := JsonEscape(s);
      out := out + "\"" + escaped + "\"";
      needsComma := true;
      open := Put(open, DStr(s));
    }

    method Boolean(b: bool)
      requires Ready()
      modifies this
      ensures Wrote(old(open), DBool(b))
    {
      hide Render;
      PutText(open, DBool(b));
      out := out + if b then "true" else "false";
      needsComma := true;
      open := Put(open, DBool(b));
    }

    /** A finished document is exactly its text. */
    lemma Finished()
      requires Valid() && open.Root? && open.doc.Some?
      ensures out == Text(open.doc.value, 0)
    {
    }

    method U64(n: nat)
      requires Ready()
      modifies this
      ensures Wrote(old(open), DNum(n))
    {
      hide Render, Digits;
      PutText(open, DNum(n));
      out := out + Digits(n);
      needsComma := true;
      open := Put(open, DNum(n));
    }
  }
}
