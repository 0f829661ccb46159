/** Chunk independence and the round trip of module StdioCodec. */
module StdioProofs {
  import opened Wrappers
  import opened Texts
  import opened StdioCodec

  // ---------- A round only looks at the bytes it consumes ----------

  lemma OccursLonger(s: Bytes, more: Bytes, pattern: Bytes, n: nat)
    requires n + |pattern| <= |s|
    ensures OccursAt(s + more, pattern, n) <==> OccursAt(s, pattern, n)
  {
    assert (s + more)[n..n + |pattern|] == s[n..n + |pattern|];
  }

  lemma {:induction false} IndexFromFirst(s: Bytes, pattern: Bytes, n: nat)
    ensures var r := IndexFrom(s, pattern, n);
      && (r.Some? ==> OccursAt(s, pattern, r.value))
      && forall k: nat :: n <= k && (r.None? || k < r.value) ==> !OccursAt(s, pattern, k)
    decreases |s| - n
  {
    if n <= |s| - |pattern| && !OccursAt(s, pattern, n) { IndexFromFirst(s, pattern, n + 1); }
  }

  // Buffer.indexOf finds the first occurrence.
  lemma IndexOfFirst(s: Bytes, pattern: Bytes)
    ensures var r := IndexOf(s, pattern);
      && (r.Some? ==> OccursAt(s, pattern, r.value))
      && forall k: nat :: (r.None? || k < r.value) ==> !OccursAt(s, pattern, k)
  {
    IndexFromFirst(s, pattern, 0);
  }

  lemma IndexOfLonger(s: Bytes, more: Bytes, pattern: Bytes)
    ensures IndexOf(s, pattern).Some? ==> IndexOf(s + more, pattern) == IndexOf(s, pattern)
    ensures IndexOf(s, pattern).None? && IndexOf(s + more, pattern).Some? ==>
      IndexOf(s + more, pattern).value + |pattern| > |s|
  {
    IndexOfFirst(s, pattern);
    IndexOfFirst(s + more, pattern);
    forall n: nat | n + |pattern| <= |s| ensures OccursAt(s + more, pattern, n) <==> OccursAt(s, pattern, n) {
      OccursLonger(s, more, pattern, n);
    }
  }

  // The separators cannot straddle each other, so the earliest one is stable.
  lemma HeaderEndLonger(s: Bytes, more: Bytes)
    ensures FindHeaderEnd(s).Some? ==> FindHeaderEnd(s + more) == FindHeaderEnd(s)
    ensures FindHeaderEnd(s).None? && FindHeaderEnd(s + more).Some? ==>
      FindHeaderEnd(s + more).value.index + FindHeaderEnd(s + more).value.separator > |s|
  {
    IndexOfLonger(s, more, CRLF2);
    IndexOfLonger(s, more, LF2);
    var t := s + more;
    var crlf, lf := IndexOf(t, CRLF2), IndexOf(t, LF2);
    IndexOfFirst(t, CRLF2);
    IndexOfFirst(t, LF2);
    if crlf.Some? && lf.Some? {
      assert t[crlf.value..crlf.value + 4][1] == t[crlf.value + 1] == LF;
      assert t[crlf.value..crlf.value + 4][2] == t[crlf.value + 2] == CR;
      assert t[lf.value..lf.value + 2][0] == t[lf.value] == LF;
      assert t[lf.value..lf.value + 2][1] == t[lf.value + 1] == LF;
    }
  }

  lemma FramedLonger(s: Bytes, more: Bytes)
    ensures FramedRound(s).Throw? ==> FramedRound(s + more).Throw?
    ensures FramedRound(s).Took? ==> FramedRound(s + more) == Took(FramedRound(s).message, FramedRound(s).rest + more)
  {
    HeaderEndLonger(s, more);
    if FindHeaderEnd(s).Some? {
      var end := FindHeaderEnd(s).value;
      var t := s + more;
      assert t[..end.index] == s[..end.index];
      if ContentLength(s[..end.index]).Some? {
        var start, length := end.index + end.separator, ContentLength(s[..end.index]).value;
        if start + length <= |s| {
          assert t[start..start + length] == s[start..start + length];
          assert t[start + length..] == s[start + length..] + more;
        }
      }
    }
  }

  lemma LineLonger(s: Bytes, more: Bytes)
    ensures LineRound(s).Took? ==> LineRound(s + more) == Took(LineRound(s).message, LineRound(s).rest + more)
  {
    IndexOfLonger(s, more, [LF]);
    if IndexOf(s, [LF]).Some? {
      var n := IndexOf(s, [LF]).value;
      assert (s + more)[..n] == s[..n];
      assert (s + more)[n + 1..] == s[n + 1..] + more;
    }
  }

  // A complete line is never mistaken for the beginning of a header.
  lemma LineIsNoHeader(s: Bytes, more: Bytes)
    requires !StartsWithHeader(s) && LineRound(s).Took?
    ensures !StartsWithHeader(s + more)
  {
    var n := IndexOf(s, [LF]).value;
    IndexOfFirst(s, [LF]);
    assert s[n..n + 1][0] == s[n] == LF;
    if |s| < |HEADER| {
      assert (s + more)[n] == LF && Lower(Ascii(LF)) != HEADER[n];
    } else {
      assert forall k :: 0 <= k < |HEADER| ==> (s + more)[k] == s[k];
    }
  }

  lemma RoundLonger(s: Bytes, more: Bytes)
    ensures NextRound(s).Throw? ==> NextRound(s + more).Throw?
    ensures NextRound(s).Took? ==> NextRound(s + more) == Took(NextRound(s).message, NextRound(s).rest + more)
  {
    if StartsWithHeader(s) {
      assert forall k :: 0 <= k < |HEADER| ==> (s + more)[k] == s[k];
      FramedLonger(s, more);
    } else {
      LineLonger(s, more);
      if LineRound(s).Took? { LineIsNoHeader(s, more); }
    }
  }

  lemma {:induction false} DropBreaksLonger(s: Bytes, more: Bytes)
    ensures DropBreaks(s + more) == if DropBreaks(s) == [] then DropBreaks(more) else DropBreaks(s) + more
  {
    if s == [] {
      assert s + more == more;
    } else if IsBreak(s[0]) {
      assert (s + more)[0] == s[0] && (s + more)[1..] == s[1..] + more;
      DropBreaksLonger(s[1..], more);
    } else {
      assert (s + more)[0] == s[0];
    }
  }

  lemma {:induction false} DropBreaksTwice(s: Bytes)
    ensures DropBreaks(DropBreaks(s)) == DropBreaks(s)
  {
    if s != [] && IsBreak(s[0]) { DropBreaksTwice(s[1..]); }
  }

  // ---------- Parsing in two steps ----------

  lemma SameStart(a: Bytes, b: Bytes)
    requires DropBreaks(a) == DropBreaks(b)
    ensures Parse(a) == Parse(b)
  {}

  lemma ParseTook(s: Bytes, t: Bytes, rest: Bytes, message: Option<Message>)
    requires DropBreaks(s) == t != [] && NextRound(t) == Took(message, rest)
    ensures Parse(s) == Prepend(Emitted(message), Parse(rest))
  {}

  // Carry on with `more` where `p` stopped.
  function Then(p: Parsed, more: Bytes): Parsed {
    if p.threw then p.(rest := p.rest + more) else Prepend(p.messages, Parse(p.rest + more))
  }

  lemma PrependThen(messages: seq<Message>, p: Parsed, more: Bytes)
    ensures Then(Prepend(messages, p), more) == Prepend(messages, Then(p, more))
  {
    if !p.threw {
      assert (messages + p.messages) + Parse(p.rest + more).messages
        == messages + (p.messages + Parse(p.rest + more).messages);
    }
  }

  /** Parsing a longer stream is parsing the first part, then what it left over with the rest. */
  lemma {:induction false} ParseSplit(s: Bytes, more: Bytes)
    ensures Parse(s + more) == Then(Parse(s), more)
    decreases |s|
  {
    var t := DropBreaks(s);
    DropBreaksLonger(s, more);
    DropBreaksTwice(s);
    DropBreaksLonger(t, more);
    if t == [] {
      assert [] + more == more;
      SameStart(s + more, more);
    } else {
      RoundLonger(t, more);
      match NextRound(t)
      case Wait => SameStart(s + more, t + more);
      case Throw =>
      case Took(message, rest) =>
        ParseSplit(rest, more);
        ParseTook(s, t, rest, message);
        ParseTook(s + more, t + more, rest + more, message);
        PrependThen(Emitted(message), Parse(rest), more);
    }
  }

  // ---------- Pushing chunks ----------

  // A push that throws hands nothing to its caller; the buffer keeps what was not consumed.
  function Delivered(p: Parsed): seq<Message> { if p.threw then [] else p.messages }

  // Successive pushes from `buffer`: what they deliver in total, the last buffer, any throw.
  function Feed(buffer: Bytes, chunks: seq<Bytes>): Parsed
    decreases |chunks|
  {
    if chunks == [] then Parsed([], buffer, false)
    else
      var p := Parse(buffer + chunks[0]);
      var q := Feed(p.rest, chunks[1..]);
      Parsed(Delivered(p) + q.messages, q.rest, p.threw || q.threw)
  }

  function Flatten(chunks: seq<Bytes>): Bytes {
    if chunks == [] then [] else chunks[0] + Flatten(chunks[1..])
  }

  // Buffers as a push leaves them.
  ghost predicate Settled(buffer: Bytes) { Parse(buffer).messages == [] && Parse(buffer).rest == buffer }

  lemma {:induction false} RestIsSettled(s: Bytes)
    ensures Settled(Parse(s).rest) && (Parse(s).threw <==> Parse(Parse(s).rest).threw)
    decreases |s|
  {
    var t := DropBreaks(s);
    DropBreaksTwice(s);
    if t != [] && NextRound(t).Took? { RestIsSettled(NextRound(t).rest); }
  }

  ghost predicate Agrees(f: Parsed, p: Parsed) {
    f.rest == p.rest && f.threw == p.threw && (!p.threw ==> f.messages == p.messages) && f.messages <= p.messages
  }

  // After a push that left `p`, feeding the rest agrees with parsing on.
  lemma FeedStep(p: Parsed, f: Parsed, more: Bytes)
    requires Settled(p.rest) && (p.threw <==> Parse(p.rest).threw) && Agrees(f, Parse(p.rest + more))
    ensures Agrees(Parsed(Delivered(p) + f.messages, f.rest, p.threw || f.threw), Then(p, more))
  {
    ParseSplit(p.rest, more);
  }

  lemma {:induction false} FeedIsParse(buffer: Bytes, chunks: seq<Bytes>)
    requires Settled(buffer) && chunks != []
    ensures Agrees(Feed(buffer, chunks), Parse(buffer + Flatten(chunks)))
    decreases |chunks|
  {
    var s, more := buffer + chunks[0], Flatten(chunks[1..]);
    assert buffer + Flatten(chunks) == s + more;
    ParseSplit(s, more);
    RestIsSettled(s);
    var p := Parse(s);
    if chunks[1..] == [] {
      assert s + more == s && p.rest + more == p.rest;
      assert Feed(buffer, chunks).messages == Delivered(p) + [];
    } else {
      FeedIsParse(p.rest, chunks[1..]);
      FeedStep(p, Feed(p.rest, chunks[1..]), more);
    }
  }

  /** Chunk independence: when no header is malformed, every way to cut a stream delivers the same
      messages and leaves the same buffer as one push.  Cuts never change the final buffer nor
      whether some push throws. */
  lemma ChunkIndependence(chunks: seq<Bytes>)
    requires chunks != []
    ensures Agrees(Feed([], chunks), Parse(Flatten(chunks)))
  {
    assert [] + Flatten(chunks) == Flatten(chunks);
    FeedIsParse([], chunks);
  }

  // ---------- Malformed headers ----------

  // A round that leaves `more` untouched would have gone the same way without it.
  lemma RoundShorter(s: Bytes, more: Bytes)
    requires NextRound(s + more).Took? && |NextRound(s + more).rest| >= |more|
    ensures NextRound(s).Took?
  {
    var t := s + more;
    assert forall k :: 0 <= k < |s| ==> t[k] == s[k];
    if StartsWithHeader(t) {
      HeaderEndLonger(s, more);
      var end := FindHeaderEnd(t).value;
      HeaderHasNoBreaks(t, end);
      assert t[..end.index] == s[..end.index];
    } else {
      IndexOfLonger(s, more, [LF]);
    }
  }

  lemma HeaderHasNoBreaks(s: Bytes, end: HeaderEnd)
    requires StartsWithHeader(s) && FindHeaderEnd(s) == Some(end)
    ensures end.index >= |HEADER|
  {
    var n := end.index;
    IndexOfFirst(s, CRLF2);
    IndexOfFirst(s, LF2);
    if OccursAt(s, CRLF2, n) {
      assert s[n..n + 4][0] == s[n] == CR;
    } else {
      assert s[n..n + 2][0] == s[n] == LF;
    }
    if n < |HEADER| { NoBreakInHeader(s, n); }
  }

  lemma NoBreakInHeader(s: Bytes, n: nat)
    requires StartsWithHeader(s) && n < |HEADER|
    ensures !IsBreak(s[n])
  {
    assert Lower(Ascii(s[n])) == HEADER[n];
  }

  lemma {:induction false} DropBreaksSuffix(s: Bytes)
    ensures var t := DropBreaks(s); s == s[..|s| - |t|] + t && DropBreaks(s[..|s| - |t|]) == []
  {
    if s != [] && IsBreak(s[0]) {
      DropBreaksSuffix(s[1..]);
      var t := DropBreaks(s);
      assert s[..|s| - |t|][1..] == s[1..][..|s| - 1 - |t|];
    }
  }

  lemma RoundSuffix(t: Bytes)
    requires NextRound(t).Took?
    ensures var rest := NextRound(t).rest; t == t[..|t| - |rest|] + rest
  {}

  // The consumed part of one round, followed by the consumed part of what came after it.
  lemma ConsumedRound(t: Bytes, head: Bytes, inner: Bytes, last: Bytes)
    requires t != [] && DropBreaks(t) == t && NextRound(t).Took?
    requires NextRound(t).rest == inner + last && t == head + last && |head| >= |inner|
    ensures head != [] && DropBreaks(head) == head && NextRound(head) == Took(NextRound(t).message, inner)
  {
    RoundShorter(head, last);
    RoundLonger(head, last);
    SameFront(NextRound(head).rest, inner, last);
    FirstStays(head, last);
  }

  lemma FrontOf(s: Bytes, breaks: Bytes, t: Bytes, head: Bytes, message: Option<Message>, inner: Bytes)
    requires DropBreaks(breaks) == [] && head != [] && DropBreaks(head) == head
    requires NextRound(head) == Took(message, inner)
    ensures Parse(breaks + head) == Prepend(Emitted(message), Parse(inner))
  {
    DropBreaksLonger(breaks, head);
    ParseTook(breaks + head, head, inner, message);
  }

  // What a parse consumed parses by itself to the same messages.
  lemma {:induction false} Consumed(s: Bytes) returns (front: Bytes)
    ensures s == front + Parse(s).rest && Parse(front) == Parsed(Parse(s).messages, [], false)
    decreases |s|
  {
    var t := DropBreaks(s);
    DropBreaksSuffix(s);
    var breaks := s[..|s| - |t|];
    if t == [] || !NextRound(t).Took? {
      front := breaks;
    } else {
      var inner := Consumed(NextRound(t).rest);
      front := ConsumedFront(s, breaks, t, inner);
    }
  }

  lemma ConsumedFront(s: Bytes, breaks: Bytes, t: Bytes, inner: Bytes) returns (front: Bytes)
    requires DropBreaks(s) == t != [] && s == breaks + t && DropBreaks(breaks) == []
    requires NextRound(t).Took? && NextRound(t).rest == inner + Parse(NextRound(t).rest).rest
    requires Parse(inner) == Parsed(Parse(NextRound(t).rest).messages, [], false)
    ensures s == front + Parse(s).rest && Parse(front) == Parsed(Parse(s).messages, [], false)
  {
    var rest, message := NextRound(t).rest, NextRound(t).message;
    var last := Parse(rest).rest;
    RoundSuffix(t);
    var head := t[..|t| - |rest|] + inner;
    Regroup(t[..|t| - |rest|], inner, last);
    assert t == head + last;
    assert head != [] && DropBreaks(head) == head && NextRound(head) == Took(message, inner) by {
      DropBreaksTwice(s);
      ConsumedRound(t, head, inner, last);
    }
    front := breaks + head;
    Regroup(breaks, head, last);
    FrontOf(s, breaks, t, head, message, inner);
    ParseTook(s, t, rest, message);
  }

  lemma Regroup(a: Bytes, b: Bytes, d: Bytes)
    ensures (a + b) + d == a + (b + d)
  {}

  lemma SameFront(a: Bytes, b: Bytes, more: Bytes)
    requires a + more == b + more
    ensures a == b
  {
    assert |a| == |b|;
    assert forall k :: 0 <= k < |a| ==> a[k] == (a + more)[k] == (b + more)[k] == b[k];
  }

  lemma FirstStays(s: Bytes, more: Bytes)
    requires s != [] && DropBreaks(s + more) == s + more
    ensures DropBreaks(s) == s
  {
    assert (s + more)[0] == s[0];
  }

  // Whether every way of pushing `s` delivers what one push delivers.
  ghost predicate CutsAgree(s: Bytes) {
    forall chunks :: chunks != [] && Flatten(chunks) == s ==> Feed([], chunks).messages == Feed([], [s]).messages
  }

  // The bytes of at least one message and nothing unfinished.
  ghost predicate HoldsMessages(front: Bytes) {
    var p := Parse(front);
    p.messages != [] && p.rest == [] && !p.threw
  }

  // After its line breaks, a complete header block without a usable Content-Length line.
  predicate StartsMalformed(tail: Bytes) {
    var t := DropBreaks(tail);
    StartsWithHeader(t) && FindHeaderEnd(t).Some? && ContentLength(t[..FindHeaderEnd(t).value.index]).None?
  }

  ghost predicate MalformedAfterMessage(s: Bytes) {
    exists n :: 0 <= n <= |s| && MalformedAt(s, n)
  }

  ghost predicate MalformedAt(s: Bytes, n: nat)
    requires n <= |s|
  {
    HoldsMessages(s[..n]) && StartsMalformed(s[n..])
  }

  lemma TookShrinks(s: Bytes)
    ensures var t := DropBreaks(s); t != [] && NextRound(t).Took? ==> |Parse(s).rest| < |s|
  {
  }

  // A buffer that a push leaves behind throws again exactly when it starts with a malformed header.
  lemma SettledThrows(buffer: Bytes)
    requires Settled(buffer)
    ensures Parse(buffer).threw <==> StartsMalformed(buffer)
  {
    TookShrinks(buffer);
  }

  lemma MalformedStops(tail: Bytes)
    requires StartsMalformed(tail)
    ensures Parse(tail) == Parsed([], DropBreaks(tail), true)
  {
  }

  lemma LossIsMalformed(s: Bytes)
    requires Parse(s).threw && Parse(s).messages != []
    ensures MalformedAfterMessage(s)
  {
    var front := Consumed(s);
    RestIsSettled(s);
    SettledThrows(Parse(s).rest);
    assert s[..|front|] == front && s[|front|..] == Parse(s).rest;
    assert MalformedAt(s, |front|);
  }

  lemma MalformedIsLoss(front: Bytes, tail: Bytes)
    requires HoldsMessages(front) && StartsMalformed(tail)
    ensures Parse(front + tail).threw && Parse(front + tail).messages != []
  {
    ParseSplit(front, tail);
    assert [] + tail == tail;
    MalformedStops(tail);
  }

  lemma LossMeansMalformed(s: Bytes)
    ensures Parse(s).threw && Parse(s).messages != [] <==> MalformedAfterMessage(s)
  {
    if Parse(s).threw && Parse(s).messages != [] { LossIsMalformed(s); }
    if MalformedAfterMessage(s) { MalformedMeansLoss(s); }
  }

  lemma MalformedMeansLoss(s: Bytes)
    requires MalformedAfterMessage(s)
    ensures Parse(s).threw && Parse(s).messages != []
  {
    var n :| 0 <= n <= |s| && MalformedAt(s, n);
    MalformedAtIsLoss(s, n);
  }

  lemma MalformedAtIsLoss(s: Bytes, n: nat)
    requires n <= |s| && MalformedAt(s, n)
    ensures Parse(s).threw && Parse(s).messages != []
  {
    var front, tail := s[..n], s[n..];
    assert s == front + tail;
    MalformedIsLoss(front, tail);
  }

  // Cutting before the malformed header delivers what one push loses.
  lemma LossSplits(s: Bytes)
    requires Parse(s).threw && Parse(s).messages != []
    ensures !CutsAgree(s)
  {
    var front := Consumed(s);
    var rest := Parse(s).rest;
    var chunks := [front, rest];
    assert chunks[1..] == [rest] && [rest][1..] == [];
    assert Flatten([rest]) == rest + [];
    assert Flatten(chunks) == front + rest == s;
    assert [] + front == front && [] + s == s;
    assert Flatten([s]) == s + Flatten([s][1..]) == s;
    assert Feed([], chunks).messages != Feed([], [s]).messages;
  }

  lemma NoLossAgrees(s: Bytes)
    requires Parse(s).threw ==> Parse(s).messages == []
    ensures CutsAgree(s)
  {
    assert [] + s == s;
    forall chunks | chunks != [] && Flatten(chunks) == s
      ensures Feed([], chunks).messages == Feed([], [s]).messages
    {
      assert Flatten([s]) == s + Flatten([s][1..]) == s;
      FeedIsParse([], chunks);
      FeedIsParse([], [s]);
    }
  }

  /** A malformed header loses the messages parsed by the same push: two ways of cutting a stream
      deliver different messages exactly when some complete messages are followed by a complete
      header block without a usable Content-Length. */
  lemma CutsAgreeExactly(s: Bytes)
    ensures CutsAgree(s) <==> !MalformedAfterMessage(s)
  {
    LossMeansMalformed(s);
    if MalformedAfterMessage(s) { LossSplits(s); } else { NoLossAgrees(s); }
  }
}
