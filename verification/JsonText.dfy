/** The serialised text of a JSON value as UTF-8 bytes, a reader that inverts it, and its length. */
module JsonTexts {
  import opened Wrappers
  import opened Texts
  import opened ResponseLimit

  // ---------- Serialising ----------

  const NULL_TEXT: Bytes := [110, 117, 108, 108]
  const TRUE_TEXT: Bytes := [116, 114, 117, 101]
  const FALSE_TEXT: Bytes := [102, 97, 108, 115, 101]

  function HexDigit(n: nat): byte
    requires n < 16
  {
    if n < 10 then (48 + n) as byte else (87 + n) as byte
  }

  // One character of a string literal; JSON.stringify escapes quotes, backslashes and control characters.
  function Escaped(c: char): Bytes {
    if c == '"' then [92, 34]
    else if c == '\\' then [92, 92]
    else if c == '\U{8}' then [92, 98]
    else if c == '\U{9}' then [92, 116]
    else if c == '\U{A}' then [92, 110]
    else if c == '\U{C}' then [92, 102]
    else if c == '\U{D}' then [92, 114]
    else if c < ' ' then [92, 117, 48, 48, HexDigit(c as int / 16), HexDigit(c as int % 16)]
    else Utf8(c)
  }

  function Inside(s: string): Bytes { if s == "" then [] else Escaped(s[0]) + Inside(s[1..]) }

  function Quoted(s: string): Bytes { [34] + Inside(s) + [34] }

  // JSON.stringify, encoded
  function Serialise(v: Json): Bytes {
    match v
    case Null => NULL_TEXT
    case Bool(b) => if b then TRUE_TEXT else FALSE_TEXT
    case Number(text) => text
    case Str(s) => Quoted(s)
    case Arr(items) => [91] + Items(items) + [93]
    case Obj(fields) => [123] + Fields(fields) + [125]
  }

  function Items(items: seq<Json>): Bytes {
    if items == [] then []
    else if |items| == 1 then Serialise(items[0])
    else Serialise(items[0]) + [44] + Items(items[1..])
  }

  function Member(f: Field): Bytes { Quoted(f.key) + [58] + Serialise(f.value) }

  function Fields(fields: seq<Field>): Bytes {
    if fields == [] then []
    else if |fields| == 1 then Member(fields[0])
    else Member(fields[0]) + [44] + Fields(fields[1..])
  }

  // ---------- Its length ----------

  lemma EscapedLength(c: char)
    ensures |Escaped(c)| == CharBytes(c)
  {}

  lemma {:induction false} QuotedLength(s: string)
    ensures |Quoted(s)| == StringBytes(s)
  {
    if s != "" {
      EscapedLength(s[0]);
      QuotedLength(s[1..]);
    }
  }

  /** What responseBytes measures is the length of the serialised text. */
  lemma {:induction false} SizeIsLength(v: Json)
    ensures |Serialise(v)| == Size(v)
    decreases v, 1
  {
    match v
    case Str(s) => QuotedLength(s);
    case Arr(items) => if items != [] { ItemsLength(items); }
    case Obj(fields) => if fields != [] { FieldsLength(fields); }
    case _ =>
  }

  lemma {:induction false} ItemsLength(items: seq<Json>)
    requires items != []
    ensures |Items(items)| + 1 == ItemsSize(items)
    decreases items, 0
  {
    SizeIsLength(items[0]);
    if |items| > 1 { ItemsLength(items[1..]); } else { assert items[1..] == []; }
  }

  lemma {:induction false} FieldsLength(fields: seq<Field>)
    requires fields != []
    ensures |Fields(fields)| + 1 == FieldsSize(fields)
    decreases fields, 0
  {
    QuotedLength(fields[0].key);
    SizeIsLength(fields[0].value);
    if |fields| > 1 { FieldsLength(fields[1..]); } else { assert fields[1..] == []; }
  }

  // ---------- Reading ----------

  function HexValue(b: byte): Option<nat> {
    if 48 <= b <= 57 then Some((b - 48) as nat)
    else if 97 <= b <= 102 then Some((b - 87) as nat)
    else None
  }

  // The character after a backslash and what follows it.
  function ReadEscape(b: Bytes): (r: Option<(char, Bytes)>)
    ensures r.Some? ==> |r.value.1| < |b|
  {
    if b == [] then None
    else if b[0] == 34 then Some(('"', b[1..]))
    else if b[0] == 92 then Some(('\\', b[1..]))
    else if b[0] == 98 then Some(('\U{8}', b[1..]))
    else if b[0] == 116 then Some(('\U{9}', b[1..]))
    else if b[0] == 110 then Some(('\U{A}', b[1..]))
    else if b[0] == 102 then Some(('\U{C}', b[1..]))
    else if b[0] == 114 then Some(('\U{D}', b[1..]))
    else if b[0] == 117 && |b| >= 5 && b[1] == b[2] == 48 && HexValue(b[3]).Some? && HexValue(b[4]).Some? then
      Some(((16 * HexValue(b[3]).value + HexValue(b[4]).value) as char, b[5..]))
    else None
  }

  function ReadChar(b: Bytes): (r: Option<(char, Bytes)>)
    requires b != []
    ensures r.Some? ==> |r.value.1| < |b|
  {
    if b[0] == 92 then ReadEscape(b[1..]) else ReadUtf8(b)
  }

  // The characters up to the closing quote.
  function ReadInside(b: Bytes): (r: Option<(string, Bytes)>)
    ensures r.Some? ==> |r.value.1| < |b|
    decreases |b|
  {
    if b == [] then None
    else if b[0] == 34 then Some(("", b[1..]))
    else
      var c := ReadChar(b);
      if c.None? then None
      else
        var more := ReadInside(c.value.1);
        if more.None? then None else Some(([c.value.0] + more.value.0, more.value.1))
  }

  function NumeralRun(b: Bytes): (n: nat)
    ensures n <= |b|
  {
    if b == [] || !IsNumeral(b[0]) then 0 else 1 + NumeralRun(b[1..])
  }

  function ReadValue(b: Bytes): (r: Option<(Json, Bytes)>)
    ensures r.Some? ==> |r.value.1| < |b|
    decreases |b|, 1
  {
    if b == [] then None
    else if b[0] == 34 then
      var s := ReadInside(b[1..]);
      if s.None? then None else Some((Str(s.value.0), s.value.1))
    else if b[0] == 91 then
      if |b| > 1 && b[1] == 93 then Some((Arr([]), b[2..]))
      else
        var items := ReadItems(b[1..]);
        if items.None? then None else Some((Arr(items.value.0), items.value.1))
    else if b[0] == 123 then
      if |b| > 1 && b[1] == 125 then Some((Obj([]), b[2..]))
      else
        var fields := ReadFields(b[1..]);
        if fields.None? then None else Some((Obj(fields.value.0), fields.value.1))
    else ReadToken(b)
  }

  function ReadToken(b: Bytes): (r: Option<(Json, Bytes)>)
    ensures r.Some? ==> |r.value.1| < |b|
  {
    if NULL_TEXT <= b then Some((Null, b[4..]))
    else if TRUE_TEXT <= b then Some((Bool(true), b[4..]))
    else if FALSE_TEXT <= b then Some((Bool(false), b[5..]))
    else
      var n := NumeralRun(b);
      if n == 0 then None else Some((Number(b[..n]), b[n..]))
  }

  // The items up to the closing bracket.
  function ReadItems(b: Bytes): (r: Option<(seq<Json>, Bytes)>)
    ensures r.Some? ==> |r.value.1| < |b|
    decreases |b|, 2
  {
    var first := ReadValue(b);
    if first.None? || first.value.1 == [] then None
    else if first.value.1[0] == 93 then Some(([first.value.0], first.value.1[1..]))
    else if first.value.1[0] == 44 then
      var more := ReadItems(first.value.1[1..]);
      if more.None? then None else Some(([first.value.0] + more.value.0, more.value.1))
    else None
  }

  function ReadMember(b: Bytes): (r: Option<(Field, Bytes)>)
    ensures r.Some? ==> |r.value.1| < |b|
    decreases |b|, 2
  {
    if b == [] || b[0] != 34 then None
    else
      var key := ReadInside(b[1..]);
      if key.None? || key.value.1 == [] || key.value.1[0] != 58 then None
      else
        var value := ReadValue(key.value.1[1..]);
        if value.None? then None else Some((Field(key.value.0, value.value.0), value.value.1))
  }

  // The members up to the closing brace.
  function ReadFields(b: Bytes): (r: Option<(seq<Field>, Bytes)>)
    ensures r.Some? ==> |r.value.1| < |b|
    decreases |b|, 3
  {
    var first := ReadMember(b);
    if first.None? || first.value.1 == [] then None
    else if first.value.1[0] == 125 then Some(([first.value.0], first.value.1[1..]))
    else if first.value.1[0] == 44 then
      var more := ReadFields(first.value.1[1..]);
      if more.None? then None else Some(([first.value.0] + more.value.0, more.value.1))
    else None
  }

  // ---------- Reading back what was written ----------

  lemma HexReadsBack(n: nat)
    requires n < 16
    ensures HexValue(HexDigit(n)) == Some(n)
  {}

  lemma ControlReadsBack(c: char, rest: Bytes)
    requires c < ' '
    ensures ReadChar(Escaped(c) + rest) == Some((c, rest))
  {
    var b := Escaped(c) + rest;
    HexReadsBack(c as int / 16);
    HexReadsBack(c as int % 16);
    assert b[1..][1..] == Escaped(c)[2..] + rest;
    if |Escaped(c)| == 6 { assert b[1..][5..] == rest; }
  }

  lemma CharReadsBack(c: char, rest: Bytes)
    ensures Escaped(c)[0] != 34 && ReadChar(Escaped(c) + rest) == Some((c, rest))
  {
    var b := Escaped(c) + rest;
    if c < ' ' {
      ControlReadsBack(c, rest);
    } else if c == '"' || c == '\\' {
      assert b[1..][1..] == rest;
    } else {
      Utf8ReadsBack(c, rest);
    }
  }

  lemma InsideStep(b: Bytes, c: char, more: Bytes, s: string, rest: Bytes)
    requires b != [] && b[0] != 34 && ReadChar(b) == Some((c, more)) && ReadInside(more) == Some((s, rest))
    ensures ReadInside(b) == Some(([c] + s, rest))
  {}

  lemma {:induction false} InsideReadsBack(s: string, rest: Bytes)
    ensures ReadInside(Inside(s) + ([34] + rest)) == Some((s, rest))
  {
    if s == "" {
      assert Inside(s) + ([34] + rest) == [34] + rest;
    } else {
      var more := Inside(s[1..]) + ([34] + rest);
      assert Inside(s) + ([34] + rest) == Escaped(s[0]) + more;
      CharReadsBack(s[0], more);
      InsideReadsBack(s[1..], rest);
      InsideStep(Escaped(s[0]) + more, s[0], more, s[1..], rest);
      assert s == [s[0]] + s[1..];
    }
  }

  // What may follow a number.
  ghost predicate Delimits(rest: Bytes) { rest == [] || !IsNumeral(rest[0]) }

  lemma {:induction false} RunReadsBack(text: Bytes, rest: Bytes)
    requires Delimits(rest) && forall k :: 0 <= k < |text| ==> IsNumeral(text[k])
    ensures NumeralRun(text + rest) == |text|
  {
    if text == [] {
      assert text + rest == rest;
    } else {
      assert (text + rest)[1..] == text[1..] + rest;
      RunReadsBack(text[1..], rest);
    }
  }

  lemma TokenReadsBack(v: Json, rest: Bytes)
    requires IsJson(v) && Delimits(rest) && (v.Null? || v.Bool? || v.Number?)
    ensures ReadValue(Serialise(v) + rest) == Some((v, rest))
  {
    var b := Serialise(v) + rest;
    assert b[..|Serialise(v)|] == Serialise(v) && b[|Serialise(v)|..] == rest;
    assert b[0] == Serialise(v)[0];
    if v.Number? {
      assert IsNumeral(b[0]);
      RunReadsBack(v.text, rest);
    }
  }

  // The first byte of a value never closes a list.
  lemma ValueOpens(v: Json)
    requires IsJson(v)
    ensures Serialise(v) != [] && Serialise(v)[0] != 93 && Serialise(v)[0] != 125
  {
    if v.Number? { assert IsNumeral(v.text[0]); }
  }

  lemma QuotedTail(s: string, rest: Bytes)
    ensures var b := Quoted(s) + rest; b[0] == 34 && b[1..] == Inside(s) + ([34] + rest)
  {}

  lemma StringStep(b: Bytes, s: string, rest: Bytes)
    requires b != [] && b[0] == 34 && ReadInside(b[1..]) == Some((s, rest))
    ensures ReadValue(b) == Some((Str(s), rest))
  {}

  lemma StringReadsBack(s: string, rest: Bytes)
    ensures ReadValue(Serialise(Str(s)) + rest) == Some((Str(s), rest))
  {
    QuotedTail(s, rest);
    InsideReadsBack(s, rest);
    StringStep(Quoted(s) + rest, s, rest);
  }

  /** Reading the serialised text of a value gives the value back, whatever follows it. */
  lemma {:induction false} ValueReadsBack(v: Json, rest: Bytes)
    requires IsJson(v) && Delimits(rest)
    ensures ReadValue(Serialise(v) + rest) == Some((v, rest))
    decreases v, 3
  {
    match v
    case Str(s) => StringReadsBack(s, rest);
    case Arr(items) => ArrayReadsBack(items, rest);
    case Obj(fields) => ObjectReadsBack(fields, rest);
    case _ => TokenReadsBack(v, rest);
  }

  lemma {:induction false} ArrayReadsBack(items: seq<Json>, rest: Bytes)
    requires IsJson(Arr(items))
    ensures ReadValue(Serialise(Arr(items)) + rest) == Some((Arr(items), rest))
    decreases items, 2
  {
    var b := Serialise(Arr(items)) + rest;
    assert b[1..] == Items(items) + ([93] + rest);
    if items == [] {
      assert b[2..] == rest;
    } else {
      ValueOpens(items[0]);
      assert Items(items)[0] == Serialise(items[0])[0];
      ItemsReadBack(items, rest);
    }
  }

  lemma LastItem(b: Bytes, v: Json, rest: Bytes)
    requires ReadValue(b) == Some((v, [93] + rest))
    ensures ReadItems(b) == Some(([v], rest))
  {
    assert ([93] + rest)[1..] == rest;
  }

  lemma ItemBefore(b: Bytes, v: Json, more: Bytes, items: seq<Json>, rest: Bytes)
    requires ReadValue(b) == Some((v, [44] + more)) && ReadItems(more) == Some((items, rest))
    ensures ReadItems(b) == Some(([v] + items, rest))
  {
    assert ([44] + more)[1..] == more;
  }

  lemma Regroup(first: Bytes, others: Bytes, end: Bytes)
    ensures first + [44] + others + end == first + ([44] + (others + end))
  {}

  lemma ItemsAreJson(items: seq<Json>)
    requires items != [] && IsJson(Arr(items))
    ensures IsJson(items[0]) && IsJson(Arr(items[1..]))
  {}

  lemma MoreItems(items: seq<Json>)
    requires |items| > 1
    ensures Items(items) == Serialise(items[0]) + [44] + Items(items[1..])
  {}

  lemma {:induction false} ItemsReadBack(items: seq<Json>, rest: Bytes)
    requires items != [] && IsJson(Arr(items))
    ensures ReadItems(Items(items) + ([93] + rest)) == Some((items, rest))
    decreases items, 1
  {
    if |items| == 1 {
      assert items == [items[0]];
      ValueReadsBack(items[0], [93] + rest);
      LastItem(Serialise(items[0]) + ([93] + rest), items[0], rest);
    } else {
      var first, others, more := items[0], items[1..], Items(items[1..]) + ([93] + rest);
      ItemsAreJson(items);
      MoreItems(items);
      Regroup(Serialise(first), Items(others), [93] + rest);
      ValueReadsBack(first, [44] + more);
      ItemsReadBack(others, rest);
      ItemBefore(Serialise(first) + ([44] + more), first, more, others, rest);
      assert items == [first] + others;
    }
  }

  lemma {:induction false} ObjectReadsBack(fields: seq<Field>, rest: Bytes)
    requires IsJson(Obj(fields))
    ensures ReadValue(Serialise(Obj(fields)) + rest) == Some((Obj(fields), rest))
    decreases fields, 2
  {
    var b := Serialise(Obj(fields)) + rest;
    assert b[1..] == Fields(fields) + ([125] + rest);
    if fields == [] {
      assert b[2..] == rest;
    } else {
      assert Fields(fields)[0] == Member(fields[0])[0] == 34;
      FieldsReadBack(fields, rest);
    }
  }

  lemma MemberStep(b: Bytes, f: Field, more: Bytes, rest: Bytes)
    requires b != [] && b[0] == 34 && ReadInside(b[1..]) == Some((f.key, [58] + more))
    requires ReadValue(more) == Some((f.value, rest))
    ensures ReadMember(b) == Some((f, rest))
  {
    assert ([58] + more)[1..] == more;
  }

  lemma MemberTail(key: string, value: Bytes, rest: Bytes)
    ensures var b := Quoted(key) + [58] + value + rest;
      b[0] == 34 && b[1..] == Inside(key) + ([34] + ([58] + (value + rest)))
  {}

  lemma FieldsAreJson(fields: seq<Field>)
    requires fields != [] && IsJson(Obj(fields))
    ensures IsJson(fields[0].value) && IsJson(Obj(fields[1..]))
  {}

  lemma MoreFields(fields: seq<Field>)
    requires |fields| > 1
    ensures Fields(fields) == Member(fields[0]) + [44] + Fields(fields[1..])
  {}

  lemma {:induction false} MemberReadsBack(f: Field, rest: Bytes)
    requires IsJson(f.value) && Delimits(rest)
    ensures ReadMember(Member(f) + rest) == Some((f, rest))
    decreases f, 4
  {
    var more := Serialise(f.value) + rest;
    MemberTail(f.key, Serialise(f.value), rest);
    InsideReadsBack(f.key, [58] + more);
    ValueReadsBack(f.value, rest);
    MemberStep(Member(f) + rest, f, more, rest);
  }

  lemma LastMember(b: Bytes, f: Field, rest: Bytes)
    requires ReadMember(b) == Some((f, [125] + rest))
    ensures ReadFields(b) == Some(([f], rest))
  {
    assert ([125] + rest)[1..] == rest;
  }

  lemma MemberBefore(b: Bytes, f: Field, more: Bytes, fields: seq<Field>, rest: Bytes)
    requires ReadMember(b) == Some((f, [44] + more)) && ReadFields(more) == Some((fields, rest))
    ensures ReadFields(b) == Some(([f] + fields, rest))
  {
    assert ([44] + more)[1..] == more;
  }

  lemma {:induction false} FieldsReadBack(fields: seq<Field>, rest: Bytes)
    requires fields != [] && IsJson(Obj(fields))
    ensures ReadFields(Fields(fields) + ([125] + rest)) == Some((fields, rest))
    decreases fields, 1
  {
    if |fields| == 1 {
      assert fields == [fields[0]];
      MemberReadsBack(fields[0], [125] + rest);
      LastMember(Member(fields[0]) + ([125] + rest), fields[0], rest);
    } else {
      var first, others, more := fields[0], fields[1..], Fields(fields[1..]) + ([125] + rest);
      FieldsAreJson(fields);
      MoreFields(fields);
      Regroup(Member(first), Fields(others), [125] + rest);
      MemberReadsBack(first, [44] + more);
      FieldsReadBack(others, rest);
      MemberBefore(Member(first) + ([44] + more), first, more, others, rest);
      assert fields == [first] + others;
    }
  }
}
