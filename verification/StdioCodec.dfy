/**
 The byte stream codec of apps/api/src/cli/stdioTransport.ts: Content-Length framing as in "Base
 Protocol / Header Part" of the Language Server Protocol 3.17, and newline-delimited JSON as in
 "Transports / stdio" of the MCP specification 2024-11-05.  Texts are modelled as their UTF-8 bytes.
 */
module StdioCodec {
  import opened Wrappers
  import opened Texts

  datatype Format = Framed | Line

  datatype Message = Message(format: Format, raw: Bytes)

  const LF: byte := 10
  const CR: byte := 13

  // "content-length:"
  const HEADER: Bytes := [99, 111, 110, 116, 101, 110, 116, 45, 108, 101, 110, 103, 116, 104, 58]

  // ---------- Characters ----------

  // toString("ascii") keeps seven bits.
  function Ascii(b: byte): byte { b % 128 }

  function Lower(b: byte): byte { if 65 <= b <= 90 then b + 32 else b }

  // \s over ASCII text
  predicate IsSpace(b: byte) { 9 <= b <= 13 || b == 32 }

  predicate IsBreak(b: byte) { b == LF || b == CR }

  // The seven-bit, case-insensitive prefix test.
  predicate StartsWithHeader(s: Bytes) {
    |s| >= |HEADER| && forall k :: 0 <= k < |HEADER| ==> Lower(Ascii(s[k])) == HEADER[k]
  }

  // ---------- contentLength ----------

  function SkipSpaces(s: Bytes): (rest: Bytes)
    ensures |rest| <= |s|
  {
    if s != [] && IsSpace(Ascii(s[0])) then SkipSpaces(s[1..]) else s
  }

  function DigitRun(s: Bytes): Bytes {
    if s != [] && IsDigit(Ascii(s[0])) then [Ascii(s[0])] + DigitRun(s[1..]) else []
  }

  function DropDigits(s: Bytes): Bytes {
    if s != [] && IsDigit(Ascii(s[0])) then DropDigits(s[1..]) else s
  }

  // \s*$ in multi-line mode: the white space reaches the end of the text or crosses a line break.
  predicate EndsLine(s: Bytes) {
    s == [] || IsBreak(Ascii(s[0])) || (IsSpace(Ascii(s[0])) && EndsLine(s[1..]))
  }

  // The match of /^Content-Length:\s*(\d+)\s*$/im at the start of a line, as the digits it captures.
  function MatchHere(s: Bytes): Bytes {
    if !StartsWithHeader(s) then []
    else
      var value := SkipSpaces(s[|HEADER|..]);
      if EndsLine(DropDigits(value)) then DigitRun(value) else []
  }

  // Leftmost match over all line starts; `lineStart` says that the text begins a line.
  function FindMatch(s: Bytes, lineStart: bool): Bytes {
    if lineStart && MatchHere(s) != [] then MatchHere(s)
    else if s == [] then []
    else FindMatch(s[1..], IsBreak(Ascii(s[0])))
  }

  // None stands for the two errors thrown: no header line, or a length that is no safe integer.
  function ContentLength(header: Bytes): Option<nat> {
    var digits := FindMatch(header, true);
    if digits == [] || Decimal(digits) > MAX_SAFE_INTEGER then None else Some(Decimal(digits))
  }

  // ---------- Lines ----------

  // Encodings of the characters String.prototype.trim removes.
  function BlankPrefix(s: Bytes): (n: nat)
    ensures n <= |s|
  {
    if s == [] then 0
    else if IsSpace(s[0]) then 1
    else if |s| >= 2 && s[0] == 0xC2 && s[1] == 0xA0 then 2
    else if |s| >= 3 && s[0] == 0xE1 && s[1] == 0x9A && s[2] == 0x80 then 3
    else if |s| >= 3 && s[0] == 0xE2 && s[1] == 0x80 && (0x80 <= s[2] <= 0x8A || s[2] in [0xA8, 0xA9, 0xAF]) then 3
    else if |s| >= 3 && s[0] == 0xE2 && s[1] == 0x81 && s[2] == 0x9F then 3
    else if |s| >= 3 && s[0] == 0xE3 && s[1] == 0x80 && s[2] == 0x80 then 3
    else if |s| >= 3 && s[0] == 0xEF && s[1] == 0xBB && s[2] == 0xBF then 3
    else 0
  }

  predicate Blank(s: Bytes)
    decreases |s|
  {
    s == [] || (BlankPrefix(s) > 0 && Blank(s[BlankPrefix(s)..]))
  }

  function DropTrailingCR(s: Bytes): Bytes {
    if s != [] && s[|s| - 1] == CR then s[..|s| - 1] else s
  }

  function DropBreaks(s: Bytes): (rest: Bytes)
    ensures |rest| <= |s|
  {
    if s != [] && IsBreak(s[0]) then DropBreaks(s[1..]) else s
  }

  // ---------- Searching ----------

  predicate OccursAt(s: Bytes, pattern: Bytes, n: int) {
    0 <= n <= |s| - |pattern| && s[n..n + |pattern|] == pattern
  }

  // Buffer.indexOf: the first occurrence.
  function IndexFrom(s: Bytes, pattern: Bytes, n: nat): (r: Option<nat>)
    ensures r.Some? ==> n <= r.value <= |s| - |pattern|
    decreases |s| - n
  {
    if n > |s| - |pattern| then None
    else if OccursAt(s, pattern, n) then Some(n)
    else IndexFrom(s, pattern, n + 1)
  }

  function IndexOf(s: Bytes, pattern: Bytes): (r: Option<nat>)
    ensures r.Some? ==> r.value <= |s| - |pattern|
  {
    IndexFrom(s, pattern, 0)
  }

  const CRLF2: Bytes := [CR, LF, CR, LF]
  const LF2: Bytes := [LF, LF]

  datatype HeaderEnd = HeaderEnd(index: nat, separator: nat)

  function FindHeaderEnd(s: Bytes): (r: Option<HeaderEnd>)
    ensures r.Some? ==> r.value.index + r.value.separator <= |s| && r.value.separator > 0
  {
    var crlf, lf := IndexOf(s, CRLF2), IndexOf(s, LF2);
    if crlf.Some? && (lf.None? || crlf.value < lf.value) then Some(HeaderEnd(crlf.value, 4))
    else if lf.Some? then Some(HeaderEnd(lf.value, 2))
    else None
  }

  // ---------- One message ----------

  // What one round of the parsing loop does to a buffer.
  datatype Round = Wait | Throw | Took(message: Option<Message>, rest: Bytes)

  function FramedRound(s: Bytes): (r: Round)
    ensures r.Took? ==> |r.rest| < |s|
  {
    match FindHeaderEnd(s)
    case None => Wait
    case Some(end) =>
      match ContentLength(s[..end.index])
      case None => Throw
      case Some(length) =>
        var start := end.index + end.separator;
        if |s| < start + length then Wait
        else Took(Some(Message(Framed, s[start..start + length])), s[start + length..])
  }

  function LineRound(s: Bytes): (r: Round)
    ensures r.Took? ==> |r.rest| < |s|
  {
    match IndexOf(s, [LF])
    case None => Wait
    case Some(n) =>
      var raw := DropTrailingCR(s[..n]);
      Took(if Blank(raw) then None else Some(Message(Line, raw)), s[n + 1..])
  }

  // `s` has no leading line breaks.
  function NextRound(s: Bytes): (r: Round)
    ensures r.Took? ==> |r.rest| < |s|
  {
    if StartsWithHeader(s) then FramedRound(s) else LineRound(s)
  }

  // What a buffer parses to: the messages in order, the buffer left over and whether it threw.
  datatype Parsed = Parsed(messages: seq<Message>, rest: Bytes, threw: bool)

  function Prepend(messages: seq<Message>, p: Parsed): Parsed { p.(messages := messages + p.messages) }

  function Emitted(message: Option<Message>): seq<Message> { if message.Some? then [message.value] else [] }

  function Parse(s: Bytes): (p: Parsed)
    ensures |p.rest| <= |s|
    decreases |s|
  {
    var t := DropBreaks(s);
    if t == [] then Parsed([], [], false)
    else
      match NextRound(t)
      case Wait => Parsed([], t, false)
      case Throw => Parsed([], t, true)
      case Took(message, rest) =>
        Prepend(Emitted(message), Parse(rest))
  }
}
