/** encodeStdioResponse and the parser are inverse to each other, whatever the cuts. */
module StdioRoundTrip {
  import opened Wrappers
  import opened Texts
  import opened StdioCodec
  import Proofs = StdioProofs

  // "Content-Length: "
  const HEADER_TEXT: Bytes := [67, 111, 110, 116, 101, 110, 116, 45, 76, 101, 110, 103, 116, 104, 58, 32]

  // `json` is the serialised response.
  function Encode(json: Bytes, format: Format): Bytes {
    if format.Framed? then HEADER_TEXT + Digits(|json|) + CRLF2 + json else json + [LF]
  }

  function EncodeAll(responses: seq<Message>): Bytes {
    if responses == [] then [] else Encode(responses[0].raw, responses[0].format) + EncodeAll(responses[1..])
  }

  // A body a line can carry: it ends the line nowhere itself, survives trimming its line ending,
  // does not start like a header or with a line break, and is not blank.
  ghost predicate LineSafe(body: Bytes) {
    && LF !in body && !Blank(body) && body[0] != CR && body[|body| - 1] != CR
    && !StartsWithHeader(body)
  }

  ghost predicate Encodable(m: Message) {
    if m.format.Framed? then |m.raw| <= MAX_SAFE_INTEGER else LineSafe(m.raw)
  }

  // What JSON.stringify gives for an object: control characters are escaped and '{' comes first.
  lemma JsonObjectIsLineSafe(body: Bytes)
    requires body != [] && body[0] == 123 && forall k :: 0 <= k < |body| ==> !IsBreak(body[k])
    ensures LineSafe(body)
  {
    assert Lower(Ascii(body[0])) == 123;
    assert BlankPrefix(body) == 0;
  }

  lemma {:induction false} RunOfDigits(d: Bytes)
    requires forall k :: 0 <= k < |d| ==> IsDigit(d[k])
    ensures DigitRun(d) == d && DropDigits(d) == []
  {
    if d != [] {
      assert IsDigit(d[0]) && Ascii(d[0]) == d[0];
      RunOfDigits(d[1..]);
    }
  }

  lemma HeaderLength(n: nat)
    requires n <= MAX_SAFE_INTEGER
    ensures ContentLength(HEADER_TEXT + Digits(n)) == Some(n)
  {
    HeaderMatches(Digits(n));
    DecimalOfDigits(n);
  }

  lemma HeaderMatches(d: Bytes)
    requires d != [] && forall k :: 0 <= k < |d| ==> IsDigit(d[k])
    ensures MatchHere(HEADER_TEXT + d) == d
  {
    var s := HEADER_TEXT + d;
    assert forall k :: 0 <= k < |HEADER| ==> s[k] == HEADER_TEXT[k];
    var value := s[|HEADER|..];
    assert value[0] == s[|HEADER|] == HEADER_TEXT[|HEADER|] == 32;
    assert value[1..] == d;
    assert IsDigit(d[0]) && SkipSpaces(d) == d;
    RunOfDigits(d);
  }

  lemma OccursFirst(s: Bytes, pattern: Bytes, n: nat)
    requires pattern != [] && n < |s|
    ensures OccursAt(s, pattern, n) ==> s[n] == pattern[0]
  {
    if OccursAt(s, pattern, n) { assert s[n..n + |pattern|][0] == s[n]; }
  }

  lemma FirstAt(s: Bytes, pattern: Bytes, n: nat)
    requires forall k: nat :: k < n ==> !OccursAt(s, pattern, k)
    ensures OccursAt(s, pattern, n) ==> IndexOf(s, pattern) == Some(n)
    ensures IndexOf(s, pattern).Some? ==> IndexOf(s, pattern).value >= n
  {
    Proofs.IndexOfFirst(s, pattern);
  }

  lemma HeaderEndAfter(head: Bytes, body: Bytes)
    requires forall k :: 0 <= k < |head| ==> !IsBreak(head[k])
    ensures FindHeaderEnd(head + CRLF2 + body) == Some(HeaderEnd(|head|, 4))
  {
    var s := head + CRLF2 + body;
    assert s[|head|..|head| + 4] == CRLF2;
    forall k: nat | k < |head| ensures !OccursAt(s, CRLF2, k) && !OccursAt(s, LF2, k) {
      assert s[k] == head[k];
      OccursFirst(s, CRLF2, k);
      OccursFirst(s, LF2, k);
    }
    assert !OccursAt(s, LF2, |head|) by {
      assert s[|head|] == CR;
      OccursFirst(s, LF2, |head|);
    }
    FirstAt(s, CRLF2, |head|);
    FirstAt(s, LF2, |head| + 1);
  }

  lemma FramedAt(head: Bytes, body: Bytes, more: Bytes)
    requires forall k :: 0 <= k < |head| ==> !IsBreak(head[k])
    requires ContentLength(head) == Some(|body|)
    ensures FramedRound(head + CRLF2 + (body + more)) == Took(Some(Message(Framed, body)), more)
  {
    var s := head + CRLF2 + (body + more);
    HeaderEndAfter(head, body + more);
    assert s[..|head|] == head;
    var start := |head| + 4;
    assert s[start..] == body + more;
    assert s[start..start + |body|] == body && s[start + |body|..] == more;
  }

  lemma HeaderStarts(tail: Bytes)
    ensures var s := HEADER_TEXT + tail; StartsWithHeader(s) && DropBreaks(s) == s
  {
    HeaderPrefixes(HEADER_TEXT + tail);
  }

  lemma HeaderPrefixes(s: Bytes)
    requires HEADER_TEXT <= s
    ensures StartsWithHeader(s) && DropBreaks(s) == s
  {
    assert forall k :: 0 <= k < |HEADER| ==> s[k] == HEADER_TEXT[k];
    assert s[0] == 67;
  }

  lemma FramedRoundTrip(body: Bytes, more: Bytes)
    requires |body| <= MAX_SAFE_INTEGER
    ensures var s := Encode(body, Framed) + more;
      DropBreaks(s) == s && NextRound(s) == Took(Some(Message(Framed, body)), more)
  {
    var d := Digits(|body|);
    var head := HEADER_TEXT + d;
    var s := Encode(body, Framed) + more;
    assert s == head + CRLF2 + (body + more);
    assert s == HEADER_TEXT + (d + CRLF2 + body + more);
    forall k | 0 <= k < |head| ensures !IsBreak(head[k]) {
      assert k >= |HEADER_TEXT| ==> IsDigit(d[k - |HEADER_TEXT|]);
    }
    HeaderLength(|body|);
    FramedAt(head, body, more);
    HeaderStarts(d + CRLF2 + body + more);
  }

  lemma LineAt(body: Bytes, more: Bytes)
    requires LF !in body
    ensures LineRound(body + [LF] + more) ==
      Took(if Blank(DropTrailingCR(body)) then None else Some(Message(Line, DropTrailingCR(body))), more)
  {
    var s := body + [LF] + more;
    forall k: nat | k < |body| ensures !OccursAt(s, [LF], k) {
      assert s[k] == body[k];
      assert s[k..k + 1] == [s[k]];
    }
    assert s[|body|..|body| + 1] == [LF];
    FirstAt(s, [LF], |body|);
    assert s[..|body|] == body && s[|body| + 1..] == more;
  }

  lemma NoHeaderYet(body: Bytes, more: Bytes)
    ensures StartsWithHeader(body + [LF] + more) <==> StartsWithHeader(body)
  {
    var s := body + [LF] + more;
    if |body| < |HEADER| {
      assert s[|body|] == LF && Lower(Ascii(LF)) != HEADER[|body|];
    } else {
      assert forall k :: 0 <= k < |HEADER| ==> s[k] == body[k];
    }
  }

  lemma LineRoundTrip(body: Bytes, more: Bytes)
    requires LineSafe(body)
    ensures var s := Encode(body, Line) + more;
      DropBreaks(s) == s && NextRound(s) == Took(Some(Message(Line, body)), more)
  {
    LineAt(body, more);
    NoHeaderYet(body, more);
    assert (body + [LF] + more)[0] == body[0];
  }

  lemma OneMore(m: Message, more: Bytes)
    requires Encodable(m)
    ensures Parse(Encode(m.raw, m.format) + more) == Prepend([m], Parse(more))
  {
    var s := Encode(m.raw, m.format) + more;
    assert s != [];
    if m.format.Framed? { FramedRoundTrip(m.raw, more); } else { LineRoundTrip(m.raw, more); }
    Proofs.ParseTook(s, s, more, Some(m));
  }

  /** Round trip: a concatenation of encoded responses parses back to exactly those responses. */
  lemma {:induction false} RoundTrip(responses: seq<Message>)
    requires forall k :: 0 <= k < |responses| ==> Encodable(responses[k])
    ensures Parse(EncodeAll(responses)) == Parsed(responses, [], false)
  {
    if responses == [] {
      assert Parse([]) == Parsed([], [], false);
    } else {
      RoundTrip(responses[1..]);
      assert responses == [responses[0]] + responses[1..];
      RoundTripStep(responses[0], responses[1..], EncodeAll(responses[1..]));
    }
  }

  lemma RoundTripStep(m: Message, rest: seq<Message>, more: Bytes)
    requires Encodable(m) && Parse(more) == Parsed(rest, [], false)
    ensures Parse(Encode(m.raw, m.format) + more) == Parsed([m] + rest, [], false)
  {
    OneMore(m, more);
  }

  /** ... under any chunking. */
  lemma RoundTripInChunks(responses: seq<Message>, chunks: seq<Bytes>)
    requires forall k :: 0 <= k < |responses| ==> Encodable(responses[k])
    requires chunks != [] && Proofs.Flatten(chunks) == EncodeAll(responses)
    ensures Proofs.Feed([], chunks) == Parsed(responses, [], false)
  {
    RoundTrip(responses);
    Proofs.ChunkIndependence(chunks);
  }

  // A line message is shorter than the bytes it came from.
  lemma {:induction false} LineFits(s: Bytes, k: nat)
    requires k < |Parse(s).messages| && Parse(s).messages[k].format.Line?
    ensures |Parse(s).messages[k].raw| < |s|
    decreases |s|
  {
    var t := DropBreaks(s);
    var message, rest := NextRound(t).message, NextRound(t).rest;
    Proofs.ParseTook(s, t, rest, message);
    if message.None? { LineFits(rest, k); } else if k > 0 { LineFits(rest, k - 1); }
  }

  lemma ParsedTook(s: Bytes)
    requires Parse(s).messages != []
    ensures DropBreaks(s) != [] && NextRound(DropBreaks(s)).Took?
  {}

  lemma OneRound(s: Bytes, t: Bytes, message: Option<Message>, rest: Bytes, m: Message)
    requires Parse(s).messages == [m] && m.format.Line? && |rest| <= |m.raw|
    requires DropBreaks(s) == t != [] && NextRound(t) == Took(message, rest)
    ensures message == Some(m)
  {
    Proofs.ParseTook(s, t, rest, message);
    FirstMessage(message, Parse(rest), m);
    if message.None? { LineFits(rest, 0); }
  }

  lemma FirstMessage(message: Option<Message>, p: Parsed, m: Message)
    requires Prepend(Emitted(message), p).messages == [m]
    ensures if message.None? then p.messages == [m] else message == Some(m)
  {
    assert message.Some? ==> Prepend(Emitted(message), p).messages[0] == message.value;
  }

  lemma LineOnly(body: Bytes)
    requires Parse(Encode(body, Line)) == Parsed([Message(Line, body)], [], false)
    ensures LineSafe(body)
  {
    var s := body + [LF];
    ParsedTook(s);
    var t := DropBreaks(s);
    OneRound(s, t, NextRound(t).message, NextRound(t).rest, Message(Line, body));
    LineTaken(t, body);
    assert t == s by { Proofs.DropBreaksSuffix(s); }
    assert s[..|body|] == body && s[0] == body[0];
    NoHeaderYet(body, []);
    assert body + [LF] + [] == s;
  }

  // A line taken from `t` needs its bytes, its line feed, and nothing else to be dropped when
  // `t` has just one byte more than the line.
  lemma LineTaken(t: Bytes, body: Bytes)
    requires NextRound(t).Took? && NextRound(t).message == Some(Message(Line, body)) && |t| <= |body| + 1
    ensures |t| == |body| + 1 && t[..|body|] == body && LF !in body && !StartsWithHeader(t)
    ensures !Blank(body) && body[|body| - 1] != CR
  {
    var n := IndexOf(t, [LF]).value;
    assert n == |body| && t[..n] == body;
    NoBreakBefore(t, n);
  }

  lemma NoBreakBefore(t: Bytes, n: nat)
    requires IndexOf(t, [LF]) == Some(n)
    ensures LF !in t[..n]
  {
    Proofs.IndexOfFirst(t, [LF]);
    forall k: nat | k < n ensures t[k] != LF {
      assert t[k..k + 1] == [t[k]] && !OccursAt(t, [LF], k);
    }
  }

  /** LineSafe is exactly what a line body needs to survive on its own. */
  lemma LineSafeIsNeeded(body: Bytes)
    ensures Parse(Encode(body, Line)) == Parsed([Message(Line, body)], [], false) <==> LineSafe(body)
  {
    var s := body + [LF];
    if LineSafe(body) {
      var one := [Message(Line, body)];
      assert EncodeAll(one) == s + EncodeAll(one[1..]) == s;
      RoundTrip(one);
    } else {
      if Parse(s) == Parsed([Message(Line, body)], [], false) { LineOnly(body); }
    }
  }

  // ---------- A stream that loses a message ----------

  // "Content-Length: x"
  const BAD_HEADER: Bytes := HEADER_TEXT + [120]

  lemma {:induction false} NoLaterLine(s: Bytes)
    requires forall k :: 0 <= k < |s| ==> !IsBreak(Ascii(s[k]))
    ensures FindMatch(s, false) == []
  {
    if s != [] { NoLaterLine(s[1..]); }
  }

  lemma BadHeaderHasNoLength()
    ensures ContentLength(BAD_HEADER).None?
  {
    var value := BAD_HEADER[|HEADER|..];
    assert value == [32, 120] && value[1..] == [120];
    assert SkipSpaces([120]) == [120] && SkipSpaces(value) == [120] && DropDigits([120]) == [120];
    assert !EndsLine([120]);
    assert MatchHere(BAD_HEADER) == [];
    NoLaterLine(BAD_HEADER[1..]);
  }

  lemma ObjectLineParses()
    ensures Parse([123, 125, LF]) == Parsed([Message(Line, [123, 125])], [], false)
  {
    var message := Message(Line, [123, 125]);
    JsonObjectIsLineSafe([123, 125]);
    RoundTrip([message]);
    assert [message][1..] == [] && EncodeAll([]) == [];
    assert EncodeAll([message]) == Encode([123, 125], Line) + EncodeAll([message][1..]) == [123, 125, LF];
  }

  lemma BadHeaderIsMalformed()
    ensures Proofs.StartsMalformed(BAD_HEADER + LF2)
  {
    var tail := BAD_HEADER + LF2;
    HeaderStarts([120] + LF2);
    assert HEADER_TEXT + ([120] + LF2) == tail;
    BadHeaderHasNoLength();
    BadHeaderEnds();
    assert tail[..|BAD_HEADER|] == BAD_HEADER;
  }

  /** The stream "{}" LF "Content-Length: x" LF LF delivers its first message only to some cuts. */
  lemma MalformedHeaderLosesMessage()
    ensures var s := [123, 125, LF] + (BAD_HEADER + LF2); Proofs.MalformedAfterMessage(s) && !Proofs.CutsAgree(s)
  {
    var front, tail := [123, 125, LF], BAD_HEADER + LF2;
    var s := front + tail;
    ObjectLineParses();
    BadHeaderIsMalformed();
    assert s[..3] == front && s[3..] == tail;
    assert Proofs.MalformedAt(s, 3);
    Proofs.CutsAgreeExactly(s);
  }

  lemma BadHeaderEnds()
    ensures FindHeaderEnd(BAD_HEADER + LF2) == Some(HeaderEnd(|BAD_HEADER|, 2))
  {
    var tail, n := BAD_HEADER + LF2, |BAD_HEADER|;
    assert tail[n..n + 2] == LF2;
    forall k: nat | k < n ensures !OccursAt(tail, LF2, k) {
      OccursFirst(tail, LF2, k);
    }
    FirstAt(tail, LF2, n);
    forall k: nat ensures !OccursAt(tail, CRLF2, k) {
      if k < |tail| { OccursFirst(tail, CRLF2, k); }
    }
    Proofs.IndexOfFirst(tail, CRLF2);
  }
}
