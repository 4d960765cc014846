/** The parser object of the SSE client, whose fields `feed` and `processLine` update in place. */
module SseClientParser {
  import opened SseFormat

  /** One turn of the loop: the first decided line, if there is one, and then the rest. */
  lemma DrainStep(st: State)
    ensures if !HasLine(st.buffer) then Drain(st) == Fed(st, [])
            else
              var i := NextBreak(st.buffer);
              var one := ProcessLine(st.fields, st.buffer[..i]);
              var more := Drain(State(st.buffer[i + BreakLength(st.buffer, i)..], one.fields));
              Drain(st) == Fed(more.state, one.msgs + more.msgs)
  {
    if HasLine(st.buffer) {
      var i := NextBreak(st.buffer);
      var d := DrainLines(st.buffer[i + BreakLength(st.buffer, i)..]);
      assert DrainLines(st.buffer) == Lines([st.buffer[..i]] + d.lines, d.rest);
      FoldFirst(st.fields, st.buffer[..i], d.lines);
    }
  }

  /** Part of a drain done, with its messages in `out`, and the rest ahead. */
  ghost predicate Draining(all: Fed, out: seq<Message>, rest: Fed) {
    all == Fed(rest.state, out + rest.msgs)
  }

  lemma DrainMore(all: Fed, out: seq<Message>, msgs: seq<Message>, rest: Fed)
    requires Draining(all, out, Fed(rest.state, msgs + rest.msgs))
    ensures Draining(all, out + msgs, rest)
  {
    assert out + (msgs + rest.msgs) == out + msgs + rest.msgs;
  }

  lemma FoldFirst(f: Fields, line: string, lines: seq<string>)
    ensures var one := ProcessLine(f, line);
            var more := FoldLines(one.fields, lines);
            FoldLines(f, [line] + lines) == Folded(more.fields, one.msgs + more.msgs)
  {
    assert ([line] + lines)[1..] == lines;
  }

  class SseParser {
    var buffer: string
    var eventType: string
    var dataLines: seq<string>
    var lastEventId: string

    ghost function Value(): State
      reads this
    {
      State(buffer, Fields(eventType, dataLines, lastEventId))
    }

    constructor (lastEventId: string)
      ensures Value() == Initial(lastEventId)
    {
      buffer, eventType, dataLines := "", "", [];
      this.lastEventId := lastEventId;
    }

    /** Every message that the chunk completes, in order. */
    method Feed(chunk: string) returns (out: seq<Message>)
      modifies this
      ensures Value() == FeedState(old(Value()), chunk).state
      ensures out == FeedState(old(Value()), chunk).msgs
    {
      buffer := buffer + chunk;
      out := [];
      ghost var all := Drain(Value());
      while true
        invariant Draining(all, out, Drain(Value()))
        decreases |buffer|
      {
        var i := NextBreak(buffer);
        DrainStep(Value());
        if i == |buffer| {
          break;
        }
        // a lone CR in last position may be the first half of a CRLF
        if buffer[i] == '\r' && i == |buffer| - 1 {
          break;
        }
        var line := buffer[..i];
        ghost var before := out;
        buffer := buffer[i + BreakLength(buffer, i)..];
        var msgs := ProcessOne(line);
        out := out + msgs;
        DrainMore(all, before, msgs, Drain(Value()));
      }
    }

    method ProcessOne(line: string) returns (msgs: seq<Message>)
      modifies `eventType, `dataLines, `lastEventId
      ensures Value().fields == ProcessLine(old(Value().fields), line).fields
      ensures msgs == ProcessLine(old(Value().fields), line).msgs
    {
      msgs := [];
      if line == "" {
        if |dataLines| == 0 {
          eventType := "";
          return;
        }
        var event := if eventType == "" then "message" else eventType;
        msgs := [Message(event, Join(dataLines), lastEventId)];
        eventType := "";
        dataLines := [];
        return;
      }
      if line[0] == ':' {
        return;
      }
      var colon := IndexOf(line, ':');
      var field := line[..colon];
      var value := if colon == |line| then "" else StripSpace(line[colon + 1..]);
      if field == "event" {
        eventType := value;
      } else if field == "data" {
        dataLines := dataLines + [value];
      } else if field == "id" && '\0' !in value {
        lastEventId := value;
      }
    }
  }
}
