/** What the scanners of module StdioCodec recognise, stated by positions. */
module StdioLaws {
  import opened Wrappers
  import opened StdioCodec
  import opened Texts
  import Proofs = StdioProofs

  // ---------- Blank lines ----------

  lemma TwoBytes(c: char, rest: Bytes)
    requires '\U{80}' <= c < '\U{800}'
    ensures BlankPrefix(Utf8(c) + rest) == if Texts.IsSpace(c) then 2 else 0
  {
    var n := c as int;
    assert n == n / 0x40 * 0x40 + n % 0x40;
  }

  lemma ThreeBytes(c: char, rest: Bytes)
    requires '\U{800}' <= c < '\U{10000}'
    ensures BlankPrefix(Utf8(c) + rest) == if Texts.IsSpace(c) then 3 else 0
  {
    var n := c as int;
    assert n == n / 0x1000 * 0x1000 + n / 0x40 % 0x40 * 0x40 + n % 0x40;
  }

  lemma OneCharacter(c: char, rest: Bytes)
    ensures BlankPrefix(Utf8(c) + rest) == if Texts.IsSpace(c) then |Utf8(c)| else 0
  {
    if '\U{80}' <= c < '\U{800}' {
      TwoBytes(c, rest);
    } else if '\U{800}' <= c < '\U{10000}' {
      ThreeBytes(c, rest);
    }
  }

  /** The lines that are dropped are exactly those whose text trims to nothing. */
  lemma {:induction false} BlankExactly(s: string)
    ensures Blank(Utf8Text(s)) <==> IsBlank(s)
  {
    if s != "" {
      var rest := Utf8Text(s[1..]);
      OneCharacter(s[0], rest);
      BlankExactly(s[1..]);
      assert (Utf8(s[0]) + rest)[|Utf8(s[0])|..] == rest;
      assert s == [s[0]] + s[1..];
    }
  }

  // ---------- The end of a header block ----------

  ghost predicate BreakAt(s: Bytes, n: nat) { OccursAt(s, CRLF2, n) || OccursAt(s, LF2, n) }

  ghost predicate FirstBreak(s: Bytes, n: nat) { BreakAt(s, n) && forall m: nat :: m < n ==> !BreakAt(s, m) }

  /** A header block ends at its first empty line, whichever kind of line break it uses. */
  lemma HeaderEndExactly(s: Bytes)
    ensures FindHeaderEnd(s).None? <==> forall m: nat :: !BreakAt(s, m)
    ensures FindHeaderEnd(s).Some? ==>
      var end := FindHeaderEnd(s).value;
      FirstBreak(s, end.index) && end.separator == if OccursAt(s, CRLF2, end.index) then 4 else 2
  {
    Proofs.IndexOfFirst(s, CRLF2);
    Proofs.IndexOfFirst(s, LF2);
    var end := FindHeaderEnd(s);
    if end.Some? {
      Apart(s, end.value.index);
      assert BreakAt(s, end.value.index);
    } else {
      forall m: nat ensures !BreakAt(s, m) { assert !OccursAt(s, CRLF2, m) && !OccursAt(s, LF2, m); }
    }
  }

  lemma Apart(s: Bytes, n: nat)
    ensures !(OccursAt(s, CRLF2, n) && OccursAt(s, LF2, n))
  {
    if OccursAt(s, CRLF2, n) { assert s[n..n + 4][0] == s[n] == CR; }
    if OccursAt(s, LF2, n) { assert s[n..n + 2][0] == s[n] == LF; }
  }

  // ---------- The content length ----------

  // toString("ascii")
  function Seven(s: Bytes): (t: Bytes)
    ensures |t| == |s| && forall k :: 0 <= k < |s| ==> t[k] == s[k] % 128
  {
    seq(|s|, k requires 0 <= k < |s| => s[k] % 128)
  }

  ghost predicate AllSpaces(t: Bytes, from: nat, to: nat)
    requires from <= to <= |t|
  {
    forall k :: from <= k < to ==> 9 <= t[k] <= 13 || t[k] == 32
  }

  ghost predicate AllDigits(t: Bytes, from: nat, to: nat)
    requires from <= to <= |t|
  {
    forall k :: from <= k < to ==> 48 <= t[k] <= 57
  }

  // The letters of "content-length:" in either case.
  ghost predicate NameAt(t: Bytes, i: nat) {
    i + 15 <= |t| && forall k :: 0 <= k < 15 ==>
      t[i + k] == HEADER[k] || (97 <= HEADER[k] <= 122 && t[i + k] == HEADER[k] - 32)
  }

  ghost predicate LineEnd(t: Bytes, e: nat) { e == |t| || (e < |t| && (t[e] == LF || t[e] == CR)) }

  // White space up to the end of a line.
  ghost predicate EndsAt(t: Bytes, b: nat, e: nat) { b <= e <= |t| && AllSpaces(t, b, e) && LineEnd(t, e) }

  ghost predicate Ends(t: Bytes, b: nat) { exists e: nat :: EndsAt(t, b, e) }

  // At i the name, white space up to a, digits up to b, and white space up to the end of a line.
  ghost predicate LengthAt(t: Bytes, i: nat, a: nat, b: nat) {
    && NameAt(t, i) && i + 15 <= a < b <= |t| && AllSpaces(t, i + 15, a) && AllDigits(t, a, b)
    && Ends(t, b)
  }

  lemma {:induction false} SpacesSkipped(s: Bytes) returns (n: nat)
    ensures n <= |s| && SkipSpaces(s) == s[n..] && AllSpaces(Seven(s), 0, n)
    ensures n < |s| ==> !AllSpaces(Seven(s), n, n + 1)
  {
    n := 0;
    if s != [] && StdioCodec.IsSpace(Ascii(s[0])) {
      n := SpacesSkipped(s[1..]);
      assert Seven(s[1..]) == Seven(s)[1..];
      n := n + 1;
    }
  }

  lemma DigitAdded(t: Bytes, u: Bytes, k: nat)
    requires t != [] && u == t[1..] && k <= |u| && 48 <= t[0] <= 57
    requires AllDigits(u, 0, k) && (k < |u| ==> !AllDigits(u, k, k + 1))
    ensures AllDigits(t, 0, k + 1) && (k + 1 < |t| ==> !AllDigits(t, k + 1, k + 2))
    ensures [t[0]] + u[..k] == t[..k + 1]
  {
    assert forall n :: 0 <= n < |u| ==> u[n] == t[n + 1];
  }

  lemma {:induction false} DigitsDropped(s: Bytes) returns (n: nat)
    ensures n <= |s| && DropDigits(s) == s[n..] && DigitRun(s) == Seven(s)[..n] && AllDigits(Seven(s), 0, n)
    ensures n < |s| ==> !AllDigits(Seven(s), n, n + 1)
  {
    n := 0;
    if s != [] && IsDigit(Ascii(s[0])) {
      var rest := s[1..];
      var k := DigitsDropped(rest);
      DigitAdded(Seven(s), Seven(rest), k);
      n := k + 1;
      assert rest[k..] == s[n..];
    }
  }

  lemma {:induction false} EndsExactly(s: Bytes)
    ensures EndsLine(s) <==> Ends(Seven(s), 0)
  {
    var t := Seven(s);
    if s == [] || IsBreak(Ascii(s[0])) {
      assert EndsAt(t, 0, 0);
    } else {
      EndsExactly(s[1..]);
      var u := Seven(s[1..]);
      assert u == t[1..];
      if e: nat :| EndsAt(t, 0, e) {
        assert EndsAt(u, 0, e - 1);
      }
      if StdioCodec.IsSpace(Ascii(s[0])) && EndsLine(s[1..]) {
        var e: nat :| EndsAt(u, 0, e);
        assert EndsAt(t, 0, e + 1);
      }
    }
  }

  lemma SevenFrom(s: Bytes, n: nat)
    requires n <= |s|
    ensures Seven(s[n..]) == Seven(s)[n..]
  {}

  // Shifting the end of a line by what lies before it.
  lemma EndsFrom(t: Bytes, b: nat)
    requires b <= |t|
    ensures Ends(t[b..], 0) <==> Ends(t, b)
  {
    if e: nat :| EndsAt(t[b..], 0, e) { assert EndsAt(t, b, e + b); }
    if e: nat :| EndsAt(t, b, e) { assert EndsAt(t[b..], 0, e - b); }
  }

  lemma NameExactly(s: Bytes)
    ensures StartsWithHeader(s) <==> NameAt(Seven(s), 0)
  {
    assert |HEADER| == 15;
    if |s| >= 15 {
      forall k | 0 <= k < 15
        ensures Lower(Ascii(s[k])) == HEADER[k] <==>
          Seven(s)[0 + k] == HEADER[k] || (97 <= HEADER[k] <= 122 && Seven(s)[0 + k] == HEADER[k] - 32)
      {}
    }
  }

  // White space from `from` to a and digits from there to b, both as far as they go.
  ghost predicate Split(t: Bytes, from: nat, a: nat, b: nat) {
    && from <= a <= b <= |t| && AllSpaces(t, from, a) && AllDigits(t, a, b)
    && (a < |t| ==> !AllSpaces(t, a, a + 1)) && (b < |t| ==> !AllDigits(t, b, b + 1))
  }

  lemma SpacesEnd(t: Bytes, from: nat, a: nat, x: nat)
    requires from <= a <= |t| && from <= x < |t| && AllSpaces(t, from, a) && AllSpaces(t, from, x)
    requires (a < |t| ==> !AllSpaces(t, a, a + 1)) && 48 <= t[x] <= 57
    ensures x == a
  {}

  lemma DigitsEnd(t: Bytes, a: nat, b: nat, y: nat)
    requires a <= b <= |t| && a <= y <= |t| && AllDigits(t, a, b) && AllDigits(t, a, y)
    requires (b < |t| ==> !AllDigits(t, b, b + 1)) && (y < |t| ==> !(48 <= t[y] <= 57))
    ensures y == b
  {}

  lemma NoDigitAtEnd(t: Bytes, y: nat)
    requires y <= |t| && Ends(t, y)
    ensures y < |t| ==> !(48 <= t[y] <= 57)
  {}

  // They go to determined places.
  lemma SplitIsUnique(t: Bytes, i: nat, a: nat, b: nat, x: nat, y: nat)
    requires Split(t, i + 15, a, b) && LengthAt(t, i, x, y)
    ensures x == a && y == b
  {
    SpacesEnd(t, i + 15, a, x);
    NoDigitAtEnd(t, y);
    DigitsEnd(t, a, b, y);
  }

  // The runs found in suffixes, seen in the whole.
  lemma SplitWhole(t: Bytes, u: Bytes, v: Bytes, n: nat, m: nat)
    requires 15 + n + m <= |t| && u == t[15..] && v == t[15 + n..]
    requires AllSpaces(u, 0, n) && (n < |u| ==> !AllSpaces(u, n, n + 1))
    requires AllDigits(v, 0, m) && (m < |v| ==> !AllDigits(v, m, m + 1))
    ensures Split(t, 15, 15 + n, 15 + n + m) && v[..m] == t[15 + n..15 + n + m]
  {
    forall k | 15 <= k < 15 + n ensures 9 <= t[k] <= 13 || t[k] == 32 { assert u[k - 15] == t[k]; }
    forall k | 15 + n <= k < 15 + n + m ensures 48 <= t[k] <= 57 { assert v[k - 15 - n] == t[k]; }
    assert n < |u| ==> u[n] == t[15 + n];
    assert m < |v| ==> v[m] == t[15 + n + m];
  }

  lemma EndsWhole(s: Bytes, b: nat)
    requires b <= |s|
    ensures EndsLine(s[b..]) <==> Ends(Seven(s), b)
  {
    SevenFrom(s, b);
    EndsExactly(s[b..]);
    EndsFrom(Seven(s), b);
  }

  // What the scanners of the white space and the digits after the name return.
  ghost predicate Scans(s: Bytes, a: nat, b: nat) {
    && 15 <= a <= b <= |s| && SkipSpaces(s[15..]) == s[a..] && DropDigits(s[a..]) == s[b..]
    && DigitRun(s[a..]) == Seven(s)[a..b]
  }

  lemma Runs(s: Bytes) returns (n: nat, m: nat)
    requires |s| >= 15
    ensures Scans(s, 15 + n, 15 + n + m) && Split(Seven(s), 15, 15 + n, 15 + n + m)
  {
    n := SpacesSkipped(s[15..]);
    SuffixOfSuffix(s, n, 0);
    m := DigitsDropped(s[15 + n..]);
    SuffixOfSuffix(s, n, m);
    SevenFrom(s, 15);
    SevenFrom(s, 15 + n);
    SplitWhole(Seven(s), Seven(s[15..]), Seven(s[15 + n..]), n, m);
  }

  lemma MatchScans(s: Bytes, a: nat, b: nat)
    requires StartsWithHeader(s) && Scans(s, a, b)
    ensures MatchHere(s) == if EndsLine(s[b..]) then Seven(s)[a..b] else []
  {}

  // Where the white space and where the digits after the name end.
  function SpacesTo(s: Bytes): int
    requires |s| >= 15
  {
    |s| - |SkipSpaces(s[15..])|
  }

  function DigitsTo(s: Bytes): int
    requires |s| >= 15
  {
    |s| - |DropDigits(SkipSpaces(s[15..]))|
  }

  lemma ScansTo(s: Bytes, a: nat, b: nat)
    requires Scans(s, a, b)
    ensures SpacesTo(s) == a && DigitsTo(s) == b
  {}

  lemma RunsSplit(s: Bytes)
    requires |s| >= 15
    ensures 0 <= SpacesTo(s) && 0 <= DigitsTo(s) && Split(Seven(s), 15, SpacesTo(s), DigitsTo(s))
  {
    var n, m := Runs(s);
    ScansTo(s, 15 + n, 15 + n + m);
  }

  lemma RunsScan(s: Bytes)
    requires |s| >= 15
    ensures 0 <= SpacesTo(s) && 0 <= DigitsTo(s) && Scans(s, SpacesTo(s), DigitsTo(s))
  {
    var n, m := Runs(s);
    ScansTo(s, 15 + n, 15 + n + m);
  }

  lemma MatchByEnd(s: Bytes, a: nat, b: nat)
    requires StartsWithHeader(s) && a == SpacesTo(s) && b == DigitsTo(s)
    ensures a <= b <= |s| && MatchHere(s) == if EndsLine(s[b..]) then Seven(s)[a..b] else []
  {
    RunsScan(s);
    MatchScans(s, a, b);
  }

  lemma MatchSplits(s: Bytes, a: nat, b: nat)
    requires StartsWithHeader(s) && a == SpacesTo(s) && b == DigitsTo(s)
    ensures a <= b <= |s| && MatchHere(s) == if Ends(Seven(s), b) then Seven(s)[a..b] else []
  {
    MatchByEnd(s, a, b);
    EndsWhole(s, b);
  }

  lemma SuffixOfSuffix(s: Bytes, n: nat, m: nat)
    requires 15 + n + m <= |s|
    ensures s[15..][n..] == s[15 + n..] && s[15 + n..][m..] == s[15 + n + m..]
  {}

  lemma MatchExactly(s: Bytes, a: nat, b: nat)
    ensures LengthAt(Seven(s), 0, a, b) ==> MatchHere(s) == Seven(s)[a..b]
    ensures MatchHere(s) != [] ==> exists x: nat, y: nat :: LengthAt(Seven(s), 0, x, y)
  {
    NameExactly(s);
    var t := Seven(s);
    var i: nat := 0;
    if StartsWithHeader(s) {
      RunsSplit(s);
      var x: nat, y: nat := SpacesTo(s), DigitsTo(s);
      MatchSplits(s, x, y);
      if LengthAt(t, i, a, b) { SplitIsUnique(t, i, x, y, a, b); }
      if MatchHere(s) != [] { assert LengthAt(t, i, x, y); }
    }
  }

  ghost predicate HasLength(t: Bytes, i: nat) { exists a: nat, b: nat :: LengthAt(t, i, a, b) }

  // A line starts at i; `start` says whether the text begins one.
  ghost predicate LineStart(t: Bytes, start: bool, i: nat) {
    if i == 0 then start else i <= |t| && (t[i - 1] == LF || t[i - 1] == CR)
  }

  // The first line that declares a length.
  ghost predicate FirstLength(t: Bytes, start: bool, i: nat, a: nat, b: nat) {
    && LineStart(t, start, i) && LengthAt(t, i, a, b)
    && forall j: nat :: j < i && LineStart(t, start, j) ==> !HasLength(t, j)
  }

  lemma LengthShifts(t: Bytes, u: Bytes, i: nat, a: nat, b: nat, i': nat, a': nat, b': nat)
    requires t != [] && u == t[1..] && i' == i + 1 && a' == a + 1 && b' == b + 1
    ensures LengthAt(u, i, a, b) <==> LengthAt(t, i', a', b')
  {
    assert forall k :: 0 <= k < |u| ==> u[k] == t[k + 1];
    if e: nat :| EndsAt(u, b, e) { assert EndsAt(t, b', e + 1); }
    if e: nat :| EndsAt(t, b', e) { assert EndsAt(u, b, e - 1); }
  }

  lemma HasLengthShifts(t: Bytes, u: Bytes, i: nat, i': nat)
    requires t != [] && u == t[1..] && i' == i + 1
    ensures HasLength(u, i) <==> HasLength(t, i')
  {
    if a: nat, b: nat :| LengthAt(u, i, a, b) { LengthShifts(t, u, i, a, b, i', a + 1, b + 1); }
    if a: nat, b: nat :| LengthAt(t, i', a, b) { LengthShifts(t, u, i, a - 1, b - 1, i', a, b); }
  }

  lemma HereExactly(s: Bytes) returns (a: nat, b: nat)
    ensures if HasLength(Seven(s), 0) then LengthAt(Seven(s), 0, a, b) && MatchHere(s) == Seven(s)[a..b] != []
      else MatchHere(s) == []
  {
    a, b := 0, 0;
    if HasLength(Seven(s), 0) {
      a, b :| LengthAt(Seven(s), 0, a, b);
    }
    MatchExactly(s, a, b);
  }

  ghost predicate NoLength(t: Bytes, start: bool) { forall j: nat :: LineStart(t, start, j) ==> !HasLength(t, j) }

  // What holds of the text after its first byte holds of the text when its first line declares none.
  lemma FirstShifts(t: Bytes, u: Bytes, start: bool, i: nat, a: nat, b: nat)
    requires t != [] && u == t[1..] && (start ==> !HasLength(t, 0))
    ensures FirstLength(u, t[0] == LF || t[0] == CR, i, a, b) ==> FirstLength(t, start, i + 1, a + 1, b + 1)
    ensures NoLength(u, t[0] == LF || t[0] == CR) ==> NoLength(t, start)
  {
    var inner := t[0] == LF || t[0] == CR;
    LengthShifts(t, u, i, a, b, i + 1, a + 1, b + 1);
    forall j: nat ensures j > 0 ==> (LineStart(t, start, j) <==> LineStart(u, inner, j - 1)) {}
    forall j: nat ensures j > 0 ==> (HasLength(t, j) <==> HasLength(u, j - 1)) {
      if j > 0 { HasLengthShifts(t, u, j - 1, j); }
    }
  }

  // `digits` are those of the first length line, or empty without one.
  ghost predicate Found(t: Bytes, start: bool, digits: Bytes, i: nat, a: nat, b: nat) {
    if digits == [] then NoLength(t, start) else FirstLength(t, start, i, a, b) && digits == t[a..b]
  }

  lemma FoundLater(t: Bytes, u: Bytes, start: bool, digits: Bytes, i: nat, a: nat, b: nat)
    requires t != [] && u == t[1..] && (start ==> !HasLength(t, 0))
    requires Found(u, t[0] == LF || t[0] == CR, digits, i, a, b)
    ensures Found(t, start, digits, i + 1, a + 1, b + 1)
  {
    FirstShifts(t, u, start, i, a, b);
    if digits != [] {
      assert a <= b <= |u|;
      assert u[a..b] == t[a + 1..b + 1];
    }
  }

  lemma FoundHere(t: Bytes, a: nat, b: nat)
    requires LengthAt(t, 0, a, b)
    ensures Found(t, true, t[a..b], 0, a, b)
  {}

  lemma FoundNowhere(t: Bytes, start: bool)
    requires t == []
    ensures Found(t, start, [], 0, 0, 0)
  {}

  function BreaksFirst(s: Bytes): bool
    requires s != []
  {
    IsBreak(Ascii(s[0]))
  }

  lemma FindNext(s: Bytes, start: bool)
    requires s != [] && !(start && MatchHere(s) != [])
    ensures FindMatch(s, start) == FindMatch(s[1..], BreaksFirst(s))
  {}

  lemma FindHere(s: Bytes)
    requires MatchHere(s) != []
    ensures FindMatch(s, true) == MatchHere(s)
  {}

  lemma FindNowhere(start: bool)
    ensures FindMatch([], start) == []
  {}

  lemma Later(s: Bytes, start: bool, digits: Bytes, i: nat, a: nat, b: nat)
    requires s != [] && (start ==> !HasLength(Seven(s), 0)) && Found(Seven(s[1..]), BreaksFirst(s), digits, i, a, b)
    ensures Found(Seven(s), start, digits, i + 1, a + 1, b + 1)
  {
    SevenFrom(s, 1);
    FoundLater(Seven(s), Seven(s[1..]), start, digits, i, a, b);
  }

  ghost predicate IsFound(t: Bytes, start: bool, digits: Bytes) {
    exists i: nat, a: nat, b: nat :: Found(t, start, digits, i, a, b)
  }

  lemma {:induction false} FindExactly(s: Bytes, start: bool, digits: Bytes)
    requires digits == FindMatch(s, start)
    ensures IsFound(Seven(s), start, digits)
    decreases |s|
  {
    var x, y := HereExactly(s);
    if start && HasLength(Seven(s), 0) {
      FindHere(s);
      FoundHere(Seven(s), x, y);
    } else if s == [] {
      FindNowhere(start);
      FoundNowhere(Seven(s), start);
    } else {
      FindNext(s, start);
      FindExactly(s[1..], BreaksFirst(s), digits);
      var i: nat, a: nat, b: nat :| Found(Seven(s[1..]), BreaksFirst(s), digits, i, a, b);
      Later(s, start, digits, i, a, b);
    }
  }

  lemma LengthSplits(t: Bytes, i: nat, a: nat, b: nat)
    requires LengthAt(t, i, a, b)
    ensures Split(t, i + 15, a, b)
  {
    NoDigitAtEnd(t, b);
    assert 48 <= t[a] <= 57;
  }

  lemma FirstIsUnique(t: Bytes, start: bool, i: nat, a: nat, b: nat, j: nat, x: nat, y: nat)
    requires FirstLength(t, start, i, a, b) && FirstLength(t, start, j, x, y)
    ensures i == j && a == x && b == y
  {
    assert HasLength(t, i) && HasLength(t, j);
    LengthSplits(t, i, a, b);
    if i == j { SplitIsUnique(t, i, a, b, x, y); }
  }

  lemma LengthOf(header: Bytes, digits: Bytes)
    requires digits == FindMatch(header, true)
    ensures ContentLength(header) ==
      if digits == [] || Decimal(digits) > 9007199254740991 then None else Some(Decimal(digits))
  {}

  ghost predicate Declares(t: Bytes, digits: Bytes) {
    exists i: nat, a: nat, b: nat :: FirstLength(t, true, i, a, b) && digits == t[a..b]
  }

  /** The length of a header block is the number its first length line declares; there is none when no line
      does or the number is no safe integer. */
  lemma ContentLengthExactly(header: Bytes, digits: Bytes)
    ensures Declares(Seven(header), digits) ==>
      ContentLength(header) == if Decimal(digits) <= 9007199254740991 then Some(Decimal(digits)) else None
    ensures NoLength(Seven(header), true) ==> ContentLength(header).None?
    ensures !NoLength(Seven(header), true) ==> exists d :: Declares(Seven(header), d)
  {
    var t, found := Seven(header), FindMatch(header, true);
    FindExactly(header, true, found);
    var j: nat, x: nat, y: nat :| Found(t, true, found, j, x, y);
    LengthOf(header, found);
    if found != [] {
      assert HasLength(t, j) && Declares(t, found);
      if i: nat, a: nat, b: nat :| FirstLength(t, true, i, a, b) && digits == t[a..b] {
        FirstIsUnique(t, true, i, a, b, j, x, y);
      }
    } else if i: nat, a: nat, b: nat :| FirstLength(t, true, i, a, b) {
      assert HasLength(t, i);
    }
  }
}
