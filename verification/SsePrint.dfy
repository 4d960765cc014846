/**
 A printer for messages and the round trip: printing and then parsing returns the messages,
 for every line ending and every fragmentation.
 */
module SsePrint {
  import opened SseFormat

  function Split(s: string): (parts: seq<string>)
    ensures parts != []
    decreases |s|
  {
    var i := IndexOf(s, '\n');
    if i == |s| then [s] else [s[..i]] + Split(s[i + 1..])
  }

  function FieldLine(name: string, value: string): string {
    name + ": " + value
  }

  function DataLines(parts: seq<string>): (lines: seq<string>)
    ensures |lines| == |parts|
    ensures forall i :: 0 <= i < |parts| ==> lines[i] == FieldLine("data", parts[i])
  {
    seq(|parts|, i requires 0 <= i < |parts| => FieldLine("data", parts[i]))
  }

  /** `id` and `event` always, one `data` line for every line of the data, and a blank line. */
  function MessageLines(m: Message): seq<string> {
    [FieldLine("id", m.lastEventId), FieldLine("event", m.event)] + DataLines(Split(m.data)) + [""]
  }

  function AllLines(ms: seq<Message>): seq<string> {
    if ms == [] then [] else MessageLines(ms[0]) + AllLines(ms[1..])
  }

  function Text(lines: seq<string>, eol: string): string {
    if lines == [] then "" else lines[0] + (eol + Text(lines[1..], eol))
  }

  function Print(ms: seq<Message>, eol: string): string {
    Text(AllLines(ms), eol)
  }

  predicate Printable(m: Message) {
    && BreakFree(m.event)
    && BreakFree(m.lastEventId)
    && '\0' !in m.lastEventId
    && '\r' !in m.data
  }

  /** A frame without an event name is read as a "message" event. */
  function Named(m: Message): Message {
    if m.event == "" then m.(event := "message") else m
  }

  function AllNamed(ms: seq<Message>): (rs: seq<Message>)
    ensures |rs| == |ms|
    ensures forall i :: 0 <= i < |ms| ==> rs[i] == Named(ms[i])
  {
    seq(|ms|, i requires 0 <= i < |ms| => Named(ms[i]))
  }

  // ---------------------------------------------------------------- lines

  lemma {:induction false} IndexOfIs(s: string, c: char, i: nat)
    requires i < |s| && s[i] == c && c !in s[..i]
    ensures IndexOf(s, c) == i
  {
    if i > 0 {
      assert s[0] == s[..i][0];
      assert s[1..][..i - 1] == s[..i][1..];
      IndexOfIs(s[1..], c, i - 1);
    }
  }

  lemma FieldLineReads(name: string, value: string)
    requires name != "" && ':' !in name
    ensures var line := FieldLine(name, value);
            line != "" && line[0] != ':' && FieldName(line) == name && FieldValue(line) == value
  {
    var line := FieldLine(name, value);
    assert line[..|name|] == name && line[|name|] == ':';
    IndexOfIs(line, ':', |name|);
    assert line[|name| + 1..] == " " + value;
    assert StripSpace(" " + value) == value;
    assert line[0] == name[0];
  }

  /** The field grammar: a line without a colon is a name with an empty value; otherwise the value
      starts after the first colon, without one leading space. */
  lemma FieldGrammar(name: string, value: string)
    requires ':' !in name
    ensures FieldName(name) == name && FieldValue(name) == ""
    ensures FieldName(name + ":" + value) == name
    ensures FieldValue(name + ": " + value) == value
    ensures value == "" || value[0] != ' ' ==> FieldValue(name + ":" + value) == value
  {
    var bare := name + ":" + value;
    var spaced := name + ": " + value;
    var i := IndexOf(name, ':');
    assert i == |name| && name[..i] == name;
    assert bare[..|name|] == name && bare[|name|] == ':' && bare[|name| + 1..] == value;
    IndexOfIs(bare, ':', |name|);
    assert spaced[..|name|] == name && spaced[|name|] == ':' && spaced[|name| + 1..] == " " + value;
    IndexOfIs(spaced, ':', |name|);
    assert (" " + value)[1..] == value;
  }

  lemma {:induction false} SplitJoins(s: string)
    requires '\r' !in s
    ensures Join(Split(s)) == s
    ensures forall i :: 0 <= i < |Split(s)| ==> BreakFree(Split(s)[i])
    decreases |s|
  {
    var i := IndexOf(s, '\n');
    if i < |s| {
      var rest := s[i + 1..];
      SplitJoins(rest);
      assert s == s[..i] + "\n" + rest;
      SplitFirst(s, i);
    } else {
      assert s[..i] == s;
    }
  }

  lemma SplitFirst(s: string, i: nat)
    requires i == IndexOf(s, '\n') < |s| && '\r' !in s
    ensures Split(s) == [s[..i]] + Split(s[i + 1..]) && Split(s)[1..] == Split(s[i + 1..])
    ensures BreakFree(s[..i])
  {
  }

  /** Scanning a printed list of lines gives the lines back and ends at the start of a line. */
  lemma {:induction false} ScanText(lines: seq<string>, eol: string)
    requires IsEol(eol)
    requires forall i :: 0 <= i < |lines| ==> BreakFree(lines[i])
    ensures Scan(Scanner("", false), Text(lines, eol)).lines == lines
    ensures Scan(Scanner("", false), Text(lines, eol)).scanner.line == ""
    decreases |lines|
  {
    if lines != [] {
      ScanText(lines[1..], eol);
      NoLeadingLF(lines[1..], eol);
      ScanLine(lines[0], eol, Text(lines[1..], eol));
    }
  }

  lemma NoLeadingLF(lines: seq<string>, eol: string)
    requires forall i :: 0 <= i < |lines| ==> BreakFree(lines[i])
    ensures eol == "\r" && Text(lines, eol) != "" ==> Text(lines, eol)[0] != '\n'
  {
    if lines != [] && eol == "\r" && lines[0] != "" {
      assert Text(lines, eol)[0] == lines[0][0];
    }
  }

  lemma {:induction false} LinesBreakFree(ms: seq<Message>)
    requires forall i :: 0 <= i < |ms| ==> Printable(ms[i])
    ensures forall i :: 0 <= i < |AllLines(ms)| ==> BreakFree(AllLines(ms)[i])
    decreases |ms|
  {
    if ms != [] {
      SplitJoins(ms[0].data);
      LinesBreakFree(ms[1..]);
    }
  }

  // --------------------------------------------------------------- fields

  lemma {:induction false} DataLinesRead(f: Fields, parts: seq<string>)
    ensures FoldLines(f, DataLines(parts)) == Folded(f.(dataLines := f.dataLines + parts), [])
    decreases |parts|
  {
    if parts == [] {
      assert f.dataLines + parts == f.dataLines;
    } else {
      FieldLineReads("data", parts[0]);
      var g := f.(dataLines := f.dataLines + [parts[0]]);
      assert ProcessLine(f, DataLines(parts)[0]) == Folded(g, []);
      DataLinesRead(g, parts[1..]);
      assert DataLines(parts)[1..] == DataLines(parts[1..]);
      assert f.dataLines + [parts[0]] + parts[1..] == f.dataLines + parts;
    }
  }

  lemma {:induction false} MessageReads(id: string, m: Message)
    requires Printable(m)
    ensures FoldLines(Fields("", [], id), MessageLines(m)) ==
            Folded(Fields("", [], m.lastEventId), [Named(m)])
  {
    var f := Fields("", [], id);
    var g := Fields(m.event, [], m.lastEventId);
    var parts := Split(m.data);
    var head := [FieldLine("id", m.lastEventId), FieldLine("event", m.event)];
    FieldLineReads("id", m.lastEventId);
    FieldLineReads("event", m.event);
    assert head[1..] == [FieldLine("event", m.event)] && head[1..][1..] == [];
    assert ProcessLine(f, head[0]) == Folded(Fields("", [], m.lastEventId), []);
    assert FoldLines(g, []) == Folded(g, []);
    assert FoldLines(f, head) == Folded(g, []);
    FoldConcat(f, head, DataLines(parts));
    DataLinesRead(g, parts);
    SplitJoins(m.data);
    assert g.dataLines + parts == parts;
    FoldConcat(f, head + DataLines(parts), [""]);
    assert [""][1..] == [];
  }

  lemma {:induction false} MessagesRead(id: string, ms: seq<Message>)
    requires forall i :: 0 <= i < |ms| ==> Printable(ms[i])
    ensures var r := FoldLines(Fields("", [], id), AllLines(ms));
            r.msgs == AllNamed(ms) && r.fields.eventType == "" && r.fields.dataLines == []
    decreases |ms|
  {
    if ms != [] {
      MessageReads(id, ms[0]);
      MessagesRead(ms[0].lastEventId, ms[1..]);
      FoldConcat(Fields("", [], id), MessageLines(ms[0]), AllLines(ms[1..]));
      NamedFirst(ms);
    }
  }

  lemma NamedFirst(ms: seq<Message>)
    requires ms != []
    ensures AllNamed(ms) == [Named(ms[0])] + AllNamed(ms[1..])
  {
  }

  /** The round trip.  With CR endings the last break is undecided until one more character
      arrives, whatever that character is. */
  lemma RoundTrip(id: string, ms: seq<Message>, eol: string, next: char, chunks: seq<string>)
    requires forall i :: 0 <= i < |ms| ==> Printable(ms[i])
    requires IsEol(eol)
    requires Concat(chunks) == Print(ms, eol) + (if eol == "\r" then [next] else "")
    ensures FeedAll(Initial(id), chunks).msgs == AllNamed(ms)
  {
    var s := Concat(chunks);
    FedIsFolded(id, chunks);
    SplittersAgree(s);
    LinesBreakFree(ms);
    TrailingCharacter(AllLines(ms), eol, next, s);
    MessagesRead(id, ms);
    ExtraLine(Fields("", [], id), AllLines(ms));
  }

  /** A blank line after complete messages gives no message. */
  lemma ExtraLine(f: Fields, lines: seq<string>)
    requires FoldLines(f, lines).fields.dataLines == []
    ensures FoldLines(f, lines + [""]).msgs == FoldLines(f, lines).msgs
  {
    FoldConcat(f, lines, [""]);
    assert [""][1..] == [];
  }

  /** Past the printed lines, at most one empty line can be decided. */
  lemma TrailingCharacter(lines: seq<string>, eol: string, next: char, s: string)
    requires forall i :: 0 <= i < |lines| ==> BreakFree(lines[i])
    requires IsEol(eol)
    requires s == Text(lines, eol) + (if eol == "\r" then [next] else "")
    ensures Scan(Scanner("", false), Decided(s)).lines in {lines, lines + [""]}
  {
    var start := Scanner("", false);
    ScanText(lines, eol);
    if eol == "\r" {
      var q := Scan(start, Text(lines, eol)).scanner;
      ScanConcat(start, Text(lines, eol), [next]);
      assert [next][1..] == "";
      assert Scan(q, [next]).lines == [] || Scan(q, [next]).lines == [""];
      assert lines + [] == lines;
      assert Decided(s) in {s, Text(lines, eol)};
    } else {
      EndsInLF(lines, eol);
      assert s == Text(lines, eol);
    }
  }

  lemma {:induction false} EndsInLF(lines: seq<string>, eol: string)
    requires eol == "\n" || eol == "\r\n"
    ensures Decided(Text(lines, eol)) == Text(lines, eol)
    decreases |lines|
  {
    if lines != [] {
      EndsInLF(lines[1..], eol);
      var t := Text(lines[1..], eol);
      assert Text(lines, eol) == lines[0] + eol + t;
      DecidedTail(lines[0] + eol, t);
    }
  }
}
