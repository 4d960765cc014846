/**
 The text/event-stream format (WHATWG HTML, section 9.2.6) as the SSE client reads it: a line
 splitter that works on a buffer and leaves an undecided tail behind, and the field rules that
 turn lines into messages.  Everything is a value; `SseParser` holds the mutable form.

 The second half is an independent batch reading of the same format, written character by
 character and with the standard's own buffers, and the theorems that connect the two.
 */
module SseFormat {

  datatype Message = Message(event: string, data: string, lastEventId: string)

  /** What the parser remembers between lines. */
  datatype Fields = Fields(eventType: string, dataLines: seq<string>, lastEventId: string)

  datatype Lines = Lines(lines: seq<string>, rest: string)

  datatype Folded = Folded(fields: Fields, msgs: seq<Message>)

  datatype State = State(buffer: string, fields: Fields)

  datatype Fed = Fed(state: State, msgs: seq<Message>)

  // ---------------------------------------------------------------- lines

  predicate IsBreak(c: char) {
    c == '\r' || c == '\n'
  }

  predicate BreakFree(s: string) {
    forall i :: 0 <= i < |s| ==> !IsBreak(s[i])
  }

  /** Index of the leftmost line break, or the length of the text. */
  function NextBreak(s: string): (i: nat)
    ensures i <= |s|
    ensures BreakFree(s[..i])
    ensures i < |s| ==> IsBreak(s[i])
  {
    if s == "" || IsBreak(s[0]) then 0
    else
      var j := NextBreak(s[1..]);
      assert s[..j + 1] == [s[0]] + s[1..][..j];
      j + 1
  }

  /** CRLF is one break of two characters; LF and a lone CR are breaks of one. */
  function BreakLength(s: string, i: nat): (n: nat)
    requires i < |s| && IsBreak(s[i])
    ensures 1 <= n && i + n <= |s|
  {
    if s[i] == '\r' && i + 1 < |s| && s[i + 1] == '\n' then 2 else 1
  }

  /** The buffer holds a line whose end is decided: a CR in last position may be half a CRLF. */
  predicate HasLine(s: string) {
    var i := NextBreak(s);
    i < |s| && !(s[i] == '\r' && i == |s| - 1)
  }

  function DrainLines(s: string): (d: Lines)
    ensures !HasLine(d.rest)
    decreases |s|
  {
    if !HasLine(s) then Lines([], s)
    else
      var i := NextBreak(s);
      var d := DrainLines(s[i + BreakLength(s, i)..]);
      Lines([s[..i]] + d.lines, d.rest)
  }

  // --------------------------------------------------------------- fields

  function IndexOf(s: string, c: char): (i: nat)
    ensures i <= |s|
    ensures c !in s[..i]
    ensures i < |s| ==> s[i] == c
  {
    if s == "" || s[0] == c then 0
    else
      var j := IndexOf(s[1..], c);
      assert s[..j + 1] == [s[0]] + s[1..][..j];
      j + 1
  }

  function StripSpace(s: string): string {
    if s != "" && s[0] == ' ' then s[1..] else s
  }

  function FieldName(line: string): string {
    line[..IndexOf(line, ':')]
  }

  function FieldValue(line: string): string {
    var colon := IndexOf(line, ':');
    if colon == |line| then "" else StripSpace(line[colon + 1..])
  }

  /** `lines.join("\n")`. */
  function Join(lines: seq<string>): string {
    if |lines| == 0 then ""
    else if |lines| == 1 then lines[0]
    else lines[0] + "\n" + Join(lines[1..])
  }

  /** `processLine`: at most one message. */
  function ProcessLine(f: Fields, line: string): Folded {
    if line == "" then
      if |f.dataLines| == 0 then Folded(f.(eventType := ""), [])
      else
        Folded(Fields("", [], f.lastEventId),
               [Message(if f.eventType == "" then "message" else f.eventType,
                        Join(f.dataLines), f.lastEventId)])
    else if line[0] == ':' then Folded(f, [])
    else
      var value := FieldValue(line);
      match FieldName(line)
      case "event" => Folded(f.(eventType := value), [])
      case "data" => Folded(f.(dataLines := f.dataLines + [value]), [])
      case "id" => Folded(if '\0' in value then f else f.(lastEventId := value), [])
      case _ => Folded(f, [])
  }

  function FoldLines(f: Fields, lines: seq<string>): Folded
    decreases |lines|
  {
    if lines == [] then Folded(f, [])
    else
      var one := ProcessLine(f, lines[0]);
      var more := FoldLines(one.fields, lines[1..]);
      Folded(more.fields, one.msgs + more.msgs)
  }

  /** Every decided line of the buffer read. */
  function Drain(st: State): Fed {
    var d := DrainLines(st.buffer);
    var r := FoldLines(st.fields, d.lines);
    Fed(State(d.rest, r.fields), r.msgs)
  }

  /** The effect of `feed(chunk)`. */
  function FeedState(st: State, chunk: string): Fed {
    Drain(st.(buffer := st.buffer + chunk))
  }

  function FeedAll(st: State, chunks: seq<string>): Fed
    decreases |chunks|
  {
    if chunks == [] then Fed(st, [])
    else
      var one := FeedState(st, chunks[0]);
      var more := FeedAll(one.state, chunks[1..]);
      Fed(more.state, one.msgs + more.msgs)
  }

  function Concat(chunks: seq<string>): string {
    if chunks == [] then "" else chunks[0] + Concat(chunks[1..])
  }

  function Initial(lastEventId: string): State {
    State("", Fields("", [], lastEventId))
  }

  // ---------------------------------------------------------- fragmentation

  lemma {:induction false} NextBreakIs(s: string, i: nat)
    requires i <= |s| && BreakFree(s[..i])
    requires i < |s| ==> IsBreak(s[i])
    ensures NextBreak(s) == i
  {
    if i > 0 {
      assert s[0] == s[..i][0];
      assert s[1..][..i - 1] == s[..i][1..];
      NextBreakIs(s[1..], i - 1);
    }
  }

  predicate IsEol(eol: string) {
    eol == "\n" || eol == "\r\n" || eol == "\r"
  }

  /** The break of a line is complete: a lone CR has something other than LF after it. */
  predicate Ends(eol: string, tail: string) {
    IsEol(eol) && (eol == "\r" ==> tail != "" && tail[0] != '\n')
  }

  function Prefixed(lines: seq<string>, d: Lines): Lines {
    Lines(lines + d.lines, d.rest)
  }

  lemma PrefixedTwice(a: seq<string>, b: seq<string>, d: Lines)
    ensures Prefixed(a, Prefixed(b, d)) == Prefixed(a + b, d)
  {
    assert a + (b + d.lines) == a + b + d.lines;
  }

  /** A line, its break and the rest drain as they should. */
  lemma DrainPieces(line: string, eol: string, tail: string)
    requires BreakFree(line) && Ends(eol, tail)
    ensures DrainLines(line + eol + tail) == Prefixed([line], DrainLines(tail))
  {
    var s := line + eol + tail;
    assert s[..|line|] == line && s[|line|] == eol[0];
    NextBreakIs(s, |line|);
    assert |eol| == 2 ==> s[|line| + 1] == eol[1];
    assert |eol| == 1 && tail != "" ==> s[|line| + 1] == tail[0];
    assert BreakLength(s, |line|) == |eol|;
    assert s[|line| + |eol|..] == tail;
  }

  /** The first decided line of a text, its break and what follows. */
  lemma FirstLine(s: string) returns (line: string, eol: string, tail: string)
    requires HasLine(s)
    ensures s == line + eol + tail && |tail| < |s|
    ensures BreakFree(line) && Ends(eol, tail)
  {
    var i := NextBreak(s);
    line, tail := s[..i], s[i + BreakLength(s, i)..];
    eol := if s[i] == '\n' then "\n" else if BreakLength(s, i) == 2 then "\r\n" else "\r";
  }

  lemma AppendTail(a: string, b: string, c: string)
    ensures a + b + c == a + (b + c)
  {
  }

  /** Appending text never changes what a parser has decided. */
  lemma {:induction false} DrainConcat(x: string, y: string)
    ensures DrainLines(x + y) == Prefixed(DrainLines(x).lines, DrainLines(DrainLines(x).rest + y))
    decreases |x|
  {
    if !HasLine(x) {
      var d := DrainLines(x + y);
      assert [] + d.lines == d.lines;
    } else {
      var line, eol, tail := FirstLine(x);
      DrainConcat(tail, y);
      DrainPieces(line, eol, tail);
      AppendTail(line + eol, tail, y);
      DrainPieces(line, eol, tail + y);
      PrefixedTwice([line], DrainLines(tail).lines, DrainLines(DrainLines(tail).rest + y));
    }
  }

  lemma {:induction false} FoldConcat(f: Fields, a: seq<string>, b: seq<string>)
    ensures FoldLines(f, a + b).fields == FoldLines(FoldLines(f, a).fields, b).fields
    ensures FoldLines(f, a + b).msgs == FoldLines(f, a).msgs + FoldLines(FoldLines(f, a).fields, b).msgs
    decreases |a|
  {
    if a == [] {
      assert a + b == b;
      assert [] + FoldLines(f, b).msgs == FoldLines(f, b).msgs;
    } else {
      var one := ProcessLine(f, a[0]);
      assert (a + b)[1..] == a[1..] + b;
      FoldConcat(one.fields, a[1..], b);
      var x, y := FoldLines(one.fields, a[1..]), FoldLines(FoldLines(f, a).fields, b);
      assert one.msgs + (x.msgs + y.msgs) == one.msgs + x.msgs + y.msgs;
    }
  }

  /** Chunking invariance, from every parser state and for every cut. */
  lemma ChunkingInvariance(st: State, a: string, b: string)
    ensures var whole := FeedState(st, a + b);
            var first := FeedState(st, a);
            var second := FeedState(first.state, b);
            whole.state == second.state && whole.msgs == first.msgs + second.msgs
  {
    assert st.buffer + (a + b) == (st.buffer + a) + b;
    DrainConcat(st.buffer + a, b);
    FoldConcat(st.fields, DrainLines(st.buffer + a).lines,
               DrainLines(DrainLines(st.buffer + a).rest + b).lines);
  }

  /** Any fragmentation of a stream gives what one chunk gives; a parser between two calls never
      holds a decided line, which is what the requires says. */
  lemma {:induction false} FragmentationInvariance(st: State, chunks: seq<string>)
    requires !HasLine(st.buffer)
    ensures FeedAll(st, chunks) == FeedState(st, Concat(chunks))
    decreases |chunks|
  {
    if chunks == [] {
      assert st.buffer + "" == st.buffer;
    } else {
      FragmentationInvariance(FeedState(st, chunks[0]).state, chunks[1..]);
      ChunkingInvariance(st, chunks[0], Concat(chunks[1..]));
    }
  }

  /** From a new parser, any fragmentation reads the lines that the whole text splits into. */
  lemma FedIsFolded(lastEventId: string, chunks: seq<string>)
    ensures var d := DrainLines(Concat(chunks));
            var r := FoldLines(Initial(lastEventId).fields, d.lines);
            FeedAll(Initial(lastEventId), chunks) == Fed(State(d.rest, r.fields), r.msgs)
  {
    FragmentationInvariance(Initial(lastEventId), chunks);
    assert "" + Concat(chunks) == Concat(chunks);
  }

  // ------------------------------------------------------ batch reference

  /** A line scanner that never looks ahead: a CR ends a line at once, and an LF straight after
      it is the other half of the same break. */
  datatype Scanner = Scanner(line: string, afterCR: bool)

  datatype Scanned = Scanned(scanner: Scanner, lines: seq<string>)

  function Scan(q: Scanner, s: string): Scanned
    decreases |s|
  {
    if s == "" then Scanned(q, [])
    else if s[0] == '\n' && q.afterCR then Scan(q.(afterCR := false), s[1..])
    else if IsBreak(s[0]) then
      var r := Scan(Scanner("", s[0] == '\r'), s[1..]);
      Scanned(r.scanner, [q.line] + r.lines)
    else Scan(Scanner(q.line + [s[0]], false), s[1..])
  }

  /** The standard's buffers.  `data` collects every value followed by LF; the id buffer becomes
      the last event ID only when a blank line is reached. */
  datatype Buffers = Buffers(data: string, eventType: string, idBuffer: string, lastEventId: string)

  datatype Interpreted = Interpreted(buffers: Buffers, msgs: seq<Message>)

  function InterpretLine(w: Buffers, line: string): Interpreted {
    if line == "" then
      var dispatched := Buffers("", "", w.idBuffer, w.idBuffer);
      if w.data == "" then Interpreted(dispatched, [])
      else
        Interpreted(dispatched,
                    [Message(if w.eventType == "" then "message" else w.eventType,
                             w.data[..|w.data| - 1], w.idBuffer)])
    else if line[0] == ':' then Interpreted(w, [])
    else
      var value := FieldValue(line);
      match FieldName(line)
      case "event" => Interpreted(w.(eventType := value), [])
      case "data" => Interpreted(w.(data := w.data + value + "\n"), [])
      case "id" => Interpreted(if '\0' in value then w else w.(idBuffer := value), [])
      case _ => Interpreted(w, [])
  }

  function InterpretLines(w: Buffers, lines: seq<string>): Interpreted
    decreases |lines|
  {
    if lines == [] then Interpreted(w, [])
    else
      var one := InterpretLine(w, lines[0]);
      var more := InterpretLines(one.buffers, lines[1..]);
      Interpreted(more.buffers, one.msgs + more.msgs)
  }

  /** The batch interpretation of a whole stream: all lines first, then all fields. */
  function Interpret(lastEventId: string, s: string): Interpreted {
    InterpretLines(Buffers("", "", lastEventId, lastEventId), Scan(Scanner("", false), s).lines)
  }

  /** The text without a CR in last position, whose meaning depends on what follows. */
  function Decided(s: string): string {
    if s != "" && s[|s| - 1] == '\r' then s[..|s| - 1] else s
  }

  lemma {:induction false} ScanConcat(q: Scanner, a: string, b: string)
    ensures Scan(q, a + b).scanner == Scan(Scan(q, a).scanner, b).scanner
    ensures Scan(q, a + b).lines == Scan(q, a).lines + Scan(Scan(q, a).scanner, b).lines
    decreases |a|
  {
    if a == "" {
      assert a + b == b;
    } else {
      assert (a + b)[1..] == a[1..] + b;
      if a[0] == '\n' && q.afterCR {
        ScanConcat(q.(afterCR := false), a[1..], b);
      } else if IsBreak(a[0]) {
        ScanConcat(Scanner("", a[0] == '\r'), a[1..], b);
      } else {
        ScanConcat(Scanner(q.line + [a[0]], false), a[1..], b);
      }
    }
  }

  lemma {:induction false} ScanBreakFree(q: Scanner, s: string)
    requires BreakFree(s)
    ensures Scan(q, s).lines == []
    ensures Scan(q, s).scanner == if s == "" then q else Scanner(q.line + s, false)
    decreases |s|
  {
    if s != "" {
      ScanBreakFree(Scanner(q.line + [s[0]], false), s[1..]);
      assert q.line + [s[0]] + s[1..] == q.line + s;
    }
  }

  lemma ScanEol(line: string, eol: string, more: string)
    requires IsEol(eol)
    requires eol == "\r" && more != "" ==> more[0] != '\n'
    ensures var r := Scan(Scanner(line, false), eol + more);
            var t := Scan(Scanner("", false), more);
            r.lines == [line] + t.lines && r.scanner.line == t.scanner.line
  {
    var s := eol + more;
    if eol == "\r\n" {
      assert s[0] == '\r' && s[1..] == "\n" + more;
      assert s[1..][1..] == more;
    } else {
      assert s[1..] == more;
      if eol == "\r" && more != "" {
        assert Scan(Scanner("", true), more) == Scan(Scanner("", false), more);
      }
    }
  }

  /** One line and its break, scanned from the start of a line. */
  lemma ScanLine(line: string, eol: string, more: string)
    requires BreakFree(line) && IsEol(eol)
    requires eol == "\r" && more != "" ==> more[0] != '\n'
    ensures var r := Scan(Scanner("", false), line + (eol + more));
            var t := Scan(Scanner("", false), more);
            r.lines == [line] + t.lines && r.scanner.line == t.scanner.line
  {
    ScanBreakFree(Scanner("", false), line);
    assert Scan(Scanner("", false), line).scanner == Scanner(line, false);
    ScanConcat(Scanner("", false), line, eol + more);
    ScanEol(line, eol, more);
  }

  lemma DecidedTail(a: string, b: string)
    requires b == "" ==> Decided(a) == a
    ensures Decided(a + b) == a + Decided(b)
  {
    if b == "" {
      assert a + b == a;
    } else {
      assert (a + b)[..|a + b| - 1] == a + b[..|b| - 1];
    }
  }

  /** The look-ahead splitter and the no-look-ahead scanner find the same lines, up to an
      undecided CR. */
  lemma {:induction false} SplittersAgree(s: string)
    ensures Scan(Scanner("", false), Decided(s)).lines == DrainLines(s).lines
    ensures Scan(Scanner("", false), Decided(s)).scanner.line == Decided(DrainLines(s).rest)
    decreases |s|
  {
    if !HasLine(s) {
      NoLineNoBreak(s);
      ScanBreakFree(Scanner("", false), Decided(s));
      assert "" + Decided(s) == Decided(s);
    } else {
      var line, eol, tail := FirstLine(s);
      SplittersAgree(tail);
      ScanFirstLine(line, eol, tail);
      DrainPieces(line, eol, tail);
    }
  }

  lemma NoLineNoBreak(s: string)
    requires !HasLine(s)
    ensures BreakFree(Decided(s))
  {
    assert Decided(s) == s[..NextBreak(s)];
  }

  lemma ScanFirstLine(line: string, eol: string, tail: string)
    requires BreakFree(line) && IsEol(eol)
    requires eol == "\r" ==> tail != "" && tail[0] != '\n'
    ensures var r := Scan(Scanner("", false), Decided(line + eol + tail));
            var t := Scan(Scanner("", false), Decided(tail));
            r.lines == [line] + t.lines && r.scanner.line == t.scanner.line
  {
    DecidedTail(line + eol, tail);
    assert line + eol + Decided(tail) == line + (eol + Decided(tail));
    ScanLine(line, eol, Decided(tail));
  }

  /** `data` as the standard keeps it: every value followed by LF. */
  function Terminated(lines: seq<string>): string {
    if lines == [] then "" else lines[0] + "\n" + Terminated(lines[1..])
  }

  lemma {:induction false} TerminatedAppend(lines: seq<string>, last: string)
    ensures Terminated(lines + [last]) == Terminated(lines) + last + "\n"
    decreases |lines|
  {
    if lines == [] {
      assert lines + [last] == [last];
    } else {
      assert (lines + [last])[1..] == lines[1..] + [last];
      TerminatedAppend(lines[1..], last);
    }
  }

  lemma {:induction false} TerminatedIsJoin(lines: seq<string>)
    requires lines != []
    ensures Terminated(lines) == Join(lines) + "\n"
    decreases |lines|
  {
    if |lines| > 1 {
      TerminatedIsJoin(lines[1..]);
    } else {
      assert Terminated(lines[1..]) == "";
    }
  }

  ghost predicate SameBuffers(f: Fields, w: Buffers) {
    && w.data == Terminated(f.dataLines)
    && w.eventType == f.eventType
    && w.idBuffer == f.lastEventId
  }

  lemma {:induction false} FieldRulesAgree(f: Fields, w: Buffers, lines: seq<string>)
    requires SameBuffers(f, w)
    ensures FoldLines(f, lines).msgs == InterpretLines(w, lines).msgs
    ensures SameBuffers(FoldLines(f, lines).fields, InterpretLines(w, lines).buffers)
    decreases |lines|
  {
    if lines != [] {
      if f.dataLines != [] {
        TerminatedIsJoin(f.dataLines);
        assert w.data[..|w.data| - 1] == Join(f.dataLines);
      }
      TerminatedAppend(f.dataLines, FieldValue(lines[0]));
      FieldRulesAgree(ProcessLine(f, lines[0]).fields, InterpretLine(w, lines[0]).buffers, lines[1..]);
    }
  }

  lemma {:induction false} InterpretConcat(w: Buffers, a: seq<string>, b: seq<string>)
    ensures InterpretLines(w, a + b).msgs ==
            InterpretLines(w, a).msgs + InterpretLines(InterpretLines(w, a).buffers, b).msgs
    decreases |a|
  {
    if a == [] {
      assert a + b == b;
    } else {
      assert (a + b)[1..] == a[1..] + b;
      InterpretConcat(InterpretLine(w, a[0]).buffers, a[1..], b);
    }
  }

  /** Main result on parsing.  However a stream is cut into chunks, the messages are those of the
      batch interpretation; the one difference is a CR that is still undecided, and it can hold
      back one message and no more.  The parser's `lastEventId` is the standard's id buffer, not
      its last event ID. */
  lemma IncrementalIsBatch(lastEventId: string, chunks: seq<string>)
    ensures var s := Concat(chunks);
            var fed := FeedAll(Initial(lastEventId), chunks);
            && fed.msgs == Interpret(lastEventId, Decided(s)).msgs
            && fed.state.fields.lastEventId == Interpret(lastEventId, Decided(s)).buffers.idBuffer
            && fed.msgs <= Interpret(lastEventId, s).msgs
            && |Interpret(lastEventId, s).msgs| <= |fed.msgs| + (if Decided(s) == s then 0 else 1)
  {
    var s := Concat(chunks);
    FedIsFolded(lastEventId, chunks);
    SplittersAgree(s);
    FieldRulesAgree(Initial(lastEventId).fields, Buffers("", "", lastEventId, lastEventId),
                    DrainLines(s).lines);
    UndecidedHoldsBackOne(lastEventId, s);
  }

  lemma UndecidedHoldsBackOne(lastEventId: string, s: string)
    ensures Interpret(lastEventId, Decided(s)).msgs <= Interpret(lastEventId, s).msgs
    ensures |Interpret(lastEventId, s).msgs| <=
            |Interpret(lastEventId, Decided(s)).msgs| + (if Decided(s) == s then 0 else 1)
  {
    if Decided(s) != s {
      var start := Scanner("", false);
      var q := Scan(start, Decided(s)).scanner;
      assert s == Decided(s) + "\r";
      ScanConcat(start, Decided(s), "\r");
      assert "\r"[1..] == "";
      assert Scan(q, "\r").lines == [q.line];
      var w := Buffers("", "", lastEventId, lastEventId);
      InterpretConcat(w, Scan(start, Decided(s)).lines, [q.line]);
      OneLineOneMessage(InterpretLines(w, Scan(start, Decided(s)).lines).buffers, q.line);
    }
  }

  lemma OneLineOneMessage(w: Buffers, line: string)
    ensures |InterpretLines(w, [line]).msgs| <= 1
  {
    assert [line][1..] == [];
    assert InterpretLines(InterpretLine(w, line).buffers, []).msgs == [];
  }
}
