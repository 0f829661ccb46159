/** Bytes, white space, UTF-8 and decimal numerals. */
module Texts {
  import opened Wrappers

  newtype byte = x: int | 0 <= x < 256

  type Bytes = seq<byte>

  // Number.MAX_SAFE_INTEGER
  const MAX_SAFE_INTEGER: nat := 9007199254740991

  predicate IsDigit(b: byte) { 48 <= b <= 57 }

  // The number a run of digits denotes.
  function Decimal(digits: Bytes): nat {
    if digits == [] then 0
    else
      var last := digits[|digits| - 1];
      10 * Decimal(digits[..|digits| - 1]) + if IsDigit(last) then (last - 48) as nat else 0
  }

  // String(n)
  function Digits(n: nat): (d: Bytes)
    ensures d != [] && forall k :: 0 <= k < |d| ==> IsDigit(d[k])
  {
    if n < 10 then [48 + n as byte] else Digits(n / 10) + [48 + (n % 10) as byte]
  }

  lemma {:induction false} DecimalOfDigits(n: nat)
    ensures Decimal(Digits(n)) == n
  {
    var d := Digits(n);
    if n >= 10 {
      DecimalOfDigits(n / 10);
      assert d[..|d| - 1] == Digits(n / 10);
    } else {
      assert d[..|d| - 1] == [];
    }
  }

  // What String.prototype.trim removes.
  predicate IsSpace(c: char) {
    || '\t' <= c <= '\r' || c == ' ' || c == '\U{A0}' || c == '\U{1680}' || '\U{2000}' <= c <= '\U{200A}'
    || c in {'\U{2028}', '\U{2029}', '\U{202F}', '\U{205F}', '\U{3000}', '\U{FEFF}'}
  }

  // s.trim() is empty.
  predicate IsBlank(s: string) { forall k :: 0 <= k < |s| ==> IsSpace(s[k]) }

  // Buffer.byteLength(s)
  function Utf8Length(s: string): (n: nat)
    ensures |s| <= n <= 4 * |s|
  {
    if s == "" then 0
    else
      var width := if s[0] < '\U{80}' then 1 else if s[0] < '\U{800}' then 2 else if s[0] < '\U{10000}' then 3 else 4;
      width + Utf8Length(s[1..])
  }

  // ---------- UTF-8 ----------

  // The bytes of one character, section 3 of RFC 3629.
  function Utf8(c: char): (b: Bytes) {
    var n := c as int;
    if n < 0x80 then [n as byte]
    else if n < 0x800 then [(0xC0 + n / 0x40) as byte, Continuation(n)]
    else if n < 0x10000 then [(0xE0 + n / 0x1000) as byte, Continuation(n / 0x40), Continuation(n)]
    else [(0xF0 + n / 0x40000) as byte, Continuation(n / 0x1000), Continuation(n / 0x40), Continuation(n)]
  }

  function Continuation(n: nat): byte { (0x80 + n % 0x40) as byte }

  function Utf8Text(s: string): Bytes { if s == "" then [] else Utf8(s[0]) + Utf8Text(s[1..]) }

  predicate Continues(b: byte) { 0x80 <= b < 0xC0 }

  // A Unicode scalar value that needs at least `least`.
  function Scalar(n: nat, least: nat, rest: Bytes): Option<(char, Bytes)> {
    if n < least || 0xD800 <= n < 0xE000 || n >= 0x110000 then None else Some((n as char, rest))
  }

  function Low(b: byte): nat
    requires Continues(b)
  {
    (b - 0x80) as nat
  }

  // The first character of a UTF-8 text and what follows it; overlong forms and surrogates are errors.
  function ReadUtf8(b: Bytes): (r: Option<(char, Bytes)>)
    ensures r.Some? ==> |r.value.1| < |b|
  {
    if b == [] then None
    else if b[0] < 0x80 then Some((b[0] as char, b[1..]))
    else if 0xC0 <= b[0] < 0xE0 && |b| >= 2 && Continues(b[1]) then
      Scalar((b[0] - 0xC0) as nat * 0x40 + Low(b[1]), 0x80, b[2..])
    else if 0xE0 <= b[0] < 0xF0 && |b| >= 3 && Continues(b[1]) && Continues(b[2]) then
      Scalar((b[0] - 0xE0) as nat * 0x1000 + Low(b[1]) * 0x40 + Low(b[2]), 0x800, b[3..])
    else if 0xF0 <= b[0] < 0xF8 && |b| >= 4 && Continues(b[1]) && Continues(b[2]) && Continues(b[3]) then
      Scalar((b[0] - 0xF0) as nat * 0x40000 + Low(b[1]) * 0x1000 + Low(b[2]) * 0x40 + Low(b[3]), 0x10000, b[4..])
    else None
  }

  lemma FourParts(n: nat)
    ensures n == n / 0x40000 * 0x40000 + n / 0x1000 % 0x40 * 0x1000 + n / 0x40 % 0x40 * 0x40 + n % 0x40
  {
    var a := n / 0x40;
    var b := a / 0x40;
    assert n == a * 0x40 + n % 0x40 && a == b * 0x40 + a % 0x40;
    assert b == n / 0x1000;
    assert b == b / 0x40 * 0x40 + b % 0x40 && b / 0x40 == n / 0x40000;
  }

  lemma FourBytesReadBack(c: char, rest: Bytes)
    requires '\U{10000}' <= c
    ensures ReadUtf8(Utf8(c) + rest) == Some((c, rest))
  {
    var n, b := c as int, Utf8(c);
    var all := b + rest;
    assert all[4..] == rest && all[0] == b[0] && all[1] == b[1] && all[2] == b[2] && all[3] == b[3];
    FourParts(n);
    assert Low(b[1]) == n / 0x1000 % 0x40 && Low(b[2]) == n / 0x40 % 0x40 && Low(b[3]) == n % 0x40;
  }

  lemma ThreeBytesReadBack(c: char, rest: Bytes)
    requires '\U{800}' <= c < '\U{10000}'
    ensures ReadUtf8(Utf8(c) + rest) == Some((c, rest))
  {
    var n, b := c as int, Utf8(c);
    assert (b + rest)[3..] == rest;
    assert n == n / 0x1000 * 0x1000 + n / 0x40 % 0x40 * 0x40 + n % 0x40;
  }

  lemma Utf8ReadsBack(c: char, rest: Bytes)
    ensures ReadUtf8(Utf8(c) + rest) == Some((c, rest))
  {
    if '\U{10000}' <= c {
      FourBytesReadBack(c, rest);
    } else if '\U{800}' <= c {
      ThreeBytesReadBack(c, rest);
    } else {
      assert (Utf8(c) + rest)[|Utf8(c)|..] == rest;
    }
  }

  /** The length counted is that of the UTF-8 text. */
  lemma {:induction false} Utf8LengthExactly(s: string)
    ensures |Utf8Text(s)| == Utf8Length(s)
  {
    if s != "" { Utf8LengthExactly(s[1..]); }
  }
}
