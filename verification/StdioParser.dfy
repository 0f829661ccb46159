/** The StdioMessageParser class of apps/api/src/cli/stdioTransport.ts, over module StdioCodec. */
module StdioParser {
  import opened Wrappers
  import opened Texts
  import opened StdioCodec
  import Proofs = StdioProofs

  class StdioMessageParser {
    var buffer: Bytes

    constructor ()
      ensures buffer == []
    {
      buffer := [];
    }

    method DropLeadingLineBreaks()
      modifies this
      ensures buffer == DropBreaks(old(buffer))
    {
      while buffer != [] && IsBreak(buffer[0])
        invariant DropBreaks(buffer) == DropBreaks(old(buffer))
        decreases |buffer|
      {
        buffer := buffer[1..];
      }
    }

    // None means that the frame is incomplete; an error leaves the buffer where it is.
    method ReadFramedMessage() returns (r: Result<Option<Message>, ()>)
      modifies this
      ensures match FramedRound(old(buffer))
        case Wait => r == Ok(None) && buffer == old(buffer)
        case Throw => r.Err? && buffer == old(buffer)
        case Took(message, rest) => message.Some? && r == Ok(message) && buffer == rest
    {
      var end := FindHeaderEnd(buffer);
      if end.None? { return Ok(None); }
      var length := ContentLength(buffer[..end.value.index]);
      if length.None? { return Err(()); }
      var bodyStart := end.value.index + end.value.separator;
      var bodyEnd := bodyStart + length.value;
      if |buffer| < bodyEnd { return Ok(None); }
      r := Ok(Some(Message(Framed, buffer[bodyStart..bodyEnd])));
      buffer := buffer[bodyEnd..];
    }

    // The line branch of the loop: None means that no line feed has arrived yet.
    method ReadLine() returns (r: Option<Option<Message>>)
      modifies this
      ensures match LineRound(old(buffer))
        case Took(message, rest) => r == Some(message) && buffer == rest
        case _ => r == None && buffer == old(buffer)
    {
      var newline := IndexOf(buffer, [LF]);
      if newline.None? { return None; }
      var raw := DropTrailingCR(buffer[..newline.value]);
      buffer := buffer[newline.value + 1..];
      r := Some(if Blank(raw) then None else Some(Message(Line, raw)));
    }

    // One iteration of the loop in push.
    method TakeRound() returns (round: Round)
      modifies this
      ensures round == NextRound(DropBreaks(old(buffer)))
      ensures buffer == if round.Took? then round.rest else DropBreaks(old(buffer))
    {
      DropLeadingLineBreaks();
      if StartsWithHeader(buffer) {
        var parsed := ReadFramedMessage();
        if parsed.Err? { return Throw; }
        if parsed.value.None? { return Wait; }
        return Took(parsed.value, buffer);
      }
      var line := ReadLine();
      if line.None? { return Wait; }
      return Took(line.value, buffer);
    }

    // A thrown error drops the messages found so far and keeps the unconsumed bytes.
    method Push(chunk: Bytes) returns (r: Result<seq<Message>, ()>)
      modifies this
      ensures var p := Parse(old(buffer) + chunk);
        buffer == p.rest && r == if p.threw then Err(()) else Ok(p.messages)
    {
      buffer := buffer + chunk;
      ghost var all := buffer;
      var messages: seq<Message> := [];
      while |buffer| > 0
        invariant Parse(all) == Prepend(messages, Parse(buffer))
        decreases |buffer|
      {
        ghost var before := buffer;
        var round := TakeRound();
        if !round.Took? {
          ParseStops(before, buffer);
          if round.Throw? { return Err(()); }
          Proofs.DropBreaksTwice(before);
          Proofs.SameStart(before, buffer);
          break;
        }
        TookSomething(DropBreaks(before));
        Proofs.ParseTook(before, DropBreaks(before), buffer, round.message);
        Append(messages, Emitted(round.message), Parse(buffer));
        messages := messages + Emitted(round.message);
      }
      assert messages + [] == messages;
      r := Ok(messages);
    }
  }

  lemma NothingToTake()
    ensures NextRound([]) == Wait
  {}

  lemma ParseStops(s: Bytes, t: Bytes)
    requires t == DropBreaks(s) && !NextRound(t).Took?
    ensures Parse(s) == Parsed([], t, NextRound(t).Throw?)
  {
    NothingToTake();
  }

  lemma TookSomething(t: Bytes)
    requires NextRound(t).Took?
    ensures t != [] && |NextRound(t).rest| < |t|
  {
    NothingToTake();
  }

  lemma Append(a: seq<Message>, b: seq<Message>, p: Parsed)
    ensures Prepend(a + b, p) == Prepend(a, Prepend(b, p))
  {
    assert (a + b) + p.messages == a + (b + p.messages);
  }
}
