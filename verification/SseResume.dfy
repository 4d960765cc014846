/**
 Resuming by id over dropped connections.  The server keeps an append-only log of events with
 distinct ids and replays strictly after the id it is given; between log events it may send frames
 without an id.  A connection can be cut after any character.

 The result is exact: which events are delivered, which are lost, and when nothing is lost.
 */
module SseResume {
  import opened Common
  import opened SseFormat
  import opened SsePrint
  import opened SseConnect

  datatype Entry = Entry(id: string, event: string, data: string)

  /** A frame on the wire: an entry of the log, sent with its id, or a frame without one. */
  datatype Frame = Logged(n: nat) | Live(event: string, data: string)

  datatype Connection = Connection(frames: seq<Frame>, chunks: seq<string>)

  ghost predicate LogOk(log: seq<Entry>) {
    && (forall i :: 0 <= i < |log| ==> EntryOk(log[i]))
    && (forall i, j :: 0 <= i < j < |log| ==> log[i].id != log[j].id)
  }

  predicate EntryOk(e: Entry) {
    e.id != "" && BreakFree(e.id) && '\0' !in e.id && BreakFree(e.event) && BreakFree(e.data)
  }

  /** Where the server starts: at the beginning without a resume parameter, and otherwise after the
      entry with that id. */
  function Position(log: seq<Entry>, param: Option<string>): (p: nat) {
    match param
    case None => 0
    case Some(id) => Find(log, id) + 1
  }

  function Find(log: seq<Entry>, id: string): (i: nat)
    ensures i <= |log|
    ensures i < |log| ==> log[i].id == id
    ensures forall j :: 0 <= j < i ==> log[j].id != id
  {
    if log == [] || log[0].id == id then 0 else Find(log[1..], id) + 1
  }

  /** The frames are the log from `p` on, in order and without gaps, with frames that carry no id
      anywhere between. */
  predicate Serves(log: seq<Entry>, p: nat, frames: seq<Frame>)
    decreases |frames|
  {
    frames == [] ||
    match frames[0]
    case Logged(n) => n == p < |log| && Serves(log, p + 1, frames[1..])
    case Live(event, data) => BreakFree(event) && BreakFree(data) && Serves(log, p, frames[1..])
  }

  function Content(log: seq<Entry>, f: Frame): (string, string)
    requires f.Logged? ==> f.n < |log|
  {
    match f
    case Logged(n) => (log[n].event, log[n].data)
    case Live(event, data) => (event, data)
  }

  function FrameLines(log: seq<Entry>, f: Frame): (lines: seq<string>)
    requires f.Logged? ==> f.n < |log|
    ensures |lines| >= 2
  {
    var (event, data) := Content(log, f);
    (if f.Logged? then [FieldLine("id", log[f.n].id)] else [])
    + (if event == "" then [] else [FieldLine("event", event)])
    + [FieldLine("data", data), ""]
  }

  predicate InLog(log: seq<Entry>, frames: seq<Frame>) {
    forall i :: 0 <= i < |frames| && frames[i].Logged? ==> frames[i].n < |log|
  }

  function StreamLines(log: seq<Entry>, frames: seq<Frame>): seq<string>
    requires InLog(log, frames)
    decreases |frames|
  {
    if frames == [] then [] else FrameLines(log, frames[0]) + StreamLines(log, frames[1..])
  }

  /** The message a frame stands for, given the last id sent before it. */
  function FrameMessage(log: seq<Entry>, id: string, f: Frame): Message
    requires f.Logged? ==> f.n < |log|
  {
    var (event, data) := Content(log, f);
    Message(if event == "" then "message" else event, data, IdAfter(log, id, f))
  }

  function IdAfter(log: seq<Entry>, id: string, f: Frame): string
    requires f.Logged? ==> f.n < |log|
  {
    if f.Logged? then log[f.n].id else id
  }

  function FrameMessages(log: seq<Entry>, id: string, frames: seq<Frame>): (ms: seq<Message>)
    requires InLog(log, frames)
    ensures |ms| == |frames|
    decreases |frames|
  {
    if frames == [] then []
    else [FrameMessage(log, id, frames[0])] + FrameMessages(log, IdAfter(log, id, frames[0]), frames[1..])
  }

  function LastId(log: seq<Entry>, id: string, frames: seq<Frame>): string
    requires InLog(log, frames)
    decreases |frames|
  {
    if frames == [] then id else LastId(log, IdAfter(log, id, frames[0]), frames[1..])
  }

  function LoggedCount(frames: seq<Frame>): nat
    decreases |frames|
  {
    if frames == [] then 0 else (if frames[0].Logged? then 1 else 0) + LoggedCount(frames[1..])
  }

  // ------------------------------------------------------------- the cut

  /** How far `m` decided lines reach: `full` whole frames, and whether the id line of the next
      frame is among them without the frame's blank line. */
  datatype Cut = Cut(full: nat, idSeen: bool)

  function CutAt(log: seq<Entry>, frames: seq<Frame>, m: nat): (c: Cut)
    requires InLog(log, frames)
    ensures c.full <= |frames|
    ensures c.idSeen ==> c.full < |frames| && frames[c.full].Logged?
    decreases |frames|
  {
    if frames == [] then Cut(0, false)
    else
      var size := |FrameLines(log, frames[0])|;
      if m < size then Cut(0, m >= 1 && frames[0].Logged?)
      else
        var c := CutAt(log, frames[1..], m - size);
        Cut(c.full + 1, c.idSeen)
  }

  /** The connection is one the server can have sent from position `p`, cut anywhere. */
  predicate Sent(log: seq<Entry>, p: nat, c: Connection) {
    && Serves(log, p, c.frames)
    && InLog(log, c.frames)
    && Concat(c.chunks) <= Text(StreamLines(log, c.frames), "\n")
  }

  function CutOf(log: seq<Entry>, c: Connection): Cut
    requires InLog(log, c.frames)
  {
    CutAt(log, c.frames, |DrainLines(Concat(c.chunks)).lines|)
  }

  lemma {:induction false} ServesInLog(log: seq<Entry>, p: nat, frames: seq<Frame>)
    requires Serves(log, p, frames)
    ensures InLog(log, frames)
    decreases |frames|
  {
    if frames != [] {
      ServesInLog(log, if frames[0].Logged? then p + 1 else p, frames[1..]);
      assert forall i :: 1 <= i < |frames| ==> frames[i] == frames[1..][i - 1];
    }
  }

  lemma {:induction false} StreamLinesBreakFree(log: seq<Entry>, p: nat, frames: seq<Frame>)
    requires LogOk(log) && Serves(log, p, frames) && InLog(log, frames)
    ensures forall i :: 0 <= i < |StreamLines(log, frames)| ==> BreakFree(StreamLines(log, frames)[i])
    decreases |frames|
  {
    if frames != [] {
      ServesInLog(log, if frames[0].Logged? then p + 1 else p, frames[1..]);
      StreamLinesBreakFree(log, if frames[0].Logged? then p + 1 else p, frames[1..]);
    }
  }

  lemma DrainFirst(line: string, tail: string)
    requires BreakFree(line)
    ensures DrainLines(line + ("\n" + tail)).lines == [line] + DrainLines(tail).lines
  {
    assert line + ("\n" + tail) == line + "\n" + tail;
    DrainPieces(line, "\n", tail);
  }

  lemma DrainNone(t: string)
    requires BreakFree(t)
    ensures DrainLines(t).lines == []
  {
    assert t[..|t|] == t;
    NextBreakIs(t, |t|);
  }

  /** A prefix of LF-terminated text decides a prefix of its lines. */
  lemma {:induction false} PrefixLines(lines: seq<string>, t: string)
    requires forall i :: 0 <= i < |lines| ==> BreakFree(lines[i])
    requires t <= Text(lines, "\n")
    ensures DrainLines(t).lines <= lines
    decreases |lines|
  {
    if lines == [] || |t| <= |lines[0]| {
      assert lines != [] ==> t == Text(lines, "\n")[..|t|] == lines[0][..|t|];
      DrainNone(t);
    } else {
      var tail := AfterFirst(lines[0], Text(lines[1..], "\n"), t);
      PrefixLines(lines[1..], tail);
      DrainFirst(lines[0], tail);
    }
  }

  lemma AfterFirst(line: string, rest: string, t: string) returns (tail: string)
    requires t <= line + ("\n" + rest) && |t| > |line|
    ensures t == line + ("\n" + tail) && tail <= rest
  {
    var all := line + ("\n" + rest);
    tail := t[|line| + 1..];
    assert t == all[..|t|];
    assert all[|line| + 1..] == rest;
    assert tail == rest[..|tail|];
  }

  // -------------------------------------------------------- fields of frames

  /** Reading a frame's lines from its start: nothing before the blank line, then its message; the
      id is taken over as soon as the first line is read. */
  lemma FrameReads(log: seq<Entry>, id: string, f: Frame, m: nat)
    requires LogOk(log) && (f.Logged? ==> f.n < |log|)
    requires m <= |FrameLines(log, f)|
    ensures var lines := FrameLines(log, f);
            var r := FoldLines(Fields("", [], id), lines[..m]);
            && (m == |lines| ==> r == Folded(Fields("", [], IdAfter(log, id, f)), [FrameMessage(log, id, f)]))
            && (m < |lines| ==> r.msgs == [] && r.fields.lastEventId == if m == 0 then id else IdAfter(log, id, f))
  {
    var (event, data) := Content(log, f);
    var ids := IdLines(log, f);
    var events := EventLines(event);
    FrameFolds(log, id, f, ids, events, FieldLine("data", data));
    FrameSlices(FrameLines(log, f), ids, events, FieldLine("data", data), m);
  }

  function IdLines(log: seq<Entry>, f: Frame): (lines: seq<string>)
    requires f.Logged? ==> f.n < |log|
    ensures |lines| <= 1
  {
    if f.Logged? then [FieldLine("id", log[f.n].id)] else []
  }

  function EventLines(event: string): (lines: seq<string>)
    ensures |lines| <= 1
  {
    if event == "" then [] else [FieldLine("event", event)]
  }

  /** The fields after each part of a frame: its id, its event name, its data, its blank line. */
  lemma FrameFolds(log: seq<Entry>, id: string, f: Frame, ids: seq<string>, events: seq<string>, data: string)
    requires LogOk(log) && (f.Logged? ==> f.n < |log|)
    requires ids == IdLines(log, f) && events == EventLines(Content(log, f).0)
    requires data == FieldLine("data", Content(log, f).1)
    ensures var f0 := Fields("", [], id);
            var f1 := Fields("", [], IdAfter(log, id, f));
            && FoldLines(f0, []) == Folded(f0, [])
            && FoldLines(f0, ids) == Folded(f1, [])
            && FoldLines(f0, ids + events) == Folded(f1.(eventType := Content(log, f).0), [])
            && FoldLines(f0, ids + events + [data]) ==
               Folded(f1.(eventType := Content(log, f).0, dataLines := [Content(log, f).1]), [])
            && FoldLines(f0, ids + events + [data] + [""]) == Folded(f1, [FrameMessage(log, id, f)])
  {
    IdFolds(log, id, f);
    EventFolds(IdAfter(log, id, f), Content(log, f).0);
    DataFolds(IdAfter(log, id, f), Content(log, f).0, Content(log, f).1);
    var f0 := Fields("", [], id);
    FoldConcat(f0, ids, events);
    FoldConcat(f0, ids + events, [data]);
    FoldConcat(f0, ids + events + [data], [""]);
  }

  lemma IdFolds(log: seq<Entry>, id: string, f: Frame)
    requires LogOk(log) && (f.Logged? ==> f.n < |log|)
    ensures FoldLines(Fields("", [], id), IdLines(log, f)) == Folded(Fields("", [], IdAfter(log, id, f)), [])
  {
    if f.Logged? {
      assert EntryOk(log[f.n]);
      FieldLineReads("id", log[f.n].id);
      OneLine(Fields("", [], id), FieldLine("id", log[f.n].id));
    }
  }

  lemma EventFolds(id: string, event: string)
    ensures FoldLines(Fields("", [], id), EventLines(event)) == Folded(Fields(event, [], id), [])
  {
    if event != "" {
      FieldLineReads("event", event);
      OneLine(Fields("", [], id), FieldLine("event", event));
    }
  }

  lemma DataFolds(id: string, event: string, data: string)
    ensures FoldLines(Fields(event, [], id), [FieldLine("data", data)]) == Folded(Fields(event, [data], id), [])
    ensures FoldLines(Fields(event, [data], id), [""]) ==
            Folded(Fields("", [], id), [Message(if event == "" then "message" else event, data, id)])
  {
    FieldLineReads("data", data);
    OneLine(Fields(event, [], id), FieldLine("data", data));
    OneLine(Fields(event, [data], id), "");
    assert [] + [data] == [data];
  }

  lemma FrameSlices(lines: seq<string>, ids: seq<string>, events: seq<string>, data: string, m: nat)
    requires |ids| <= 1 && |events| <= 1 && lines == ids + events + [data, ""] && m <= |lines|
    ensures lines == ids + events + [data] + [""]
    ensures lines[..m] in {[], ids, ids + events, ids + events + [data], lines}
    ensures m == |lines| ==> lines[..m] == lines
    ensures m < |lines| ==> |lines[..m]| < |lines|
  {
    if m == |lines| {
      assert lines[..m] == lines;
    } else if m == |lines| - 1 {
      assert lines[..m] == ids + events + [data];
    } else if m == |lines| - 2 {
      assert lines[..m] == ids + events;
    } else if m == |ids| {
      assert lines[..m] == ids;
    } else {
      assert lines[..m] == [];
    }
  }

  lemma OneLine(f: Fields, line: string)
    ensures FoldLines(f, [line]) == ProcessLine(f, line)
  {
    var one := ProcessLine(f, line);
    assert [line][1..] == [];
    assert FoldLines(one.fields, []) == Folded(one.fields, []);
    assert one.msgs + [] == one.msgs;
  }

  /** A result `r` that has read as far as the cut: the messages of the whole frames, and the id of the
      cut frame if its id line was read. */
  ghost predicate ReadsTo(log: seq<Entry>, id: string, frames: seq<Frame>, c: Cut, r: Folded)
    requires InLog(log, frames)
  {
    && c.full <= |frames|
    && r.msgs == FrameMessages(log, id, frames[..c.full])
    && (c.idSeen ==> c.full < |frames| && frames[c.full].Logged?)
    && r.fields.lastEventId == if c.idSeen then log[frames[c.full].n].id else LastId(log, id, frames[..c.full])
  }

  /** Reading `m` lines of a stream reads to the cut there. */
  ghost predicate ReadsToCut(log: seq<Entry>, id: string, frames: seq<Frame>, m: nat)
    requires InLog(log, frames)
    requires m <= |StreamLines(log, frames)|
  {
    ReadsTo(log, id, frames, CutAt(log, frames, m),
            FoldLines(Fields("", [], id), StreamLines(log, frames)[..m]))
  }

  /** Main lemma on cuts: reading any number of a stream's lines reads to the cut there. */
  lemma {:induction false} StreamReads(log: seq<Entry>, id: string, frames: seq<Frame>, m: nat)
    requires LogOk(log) && InLog(log, frames)
    requires m <= |StreamLines(log, frames)|
    ensures ReadsToCut(log, id, frames, m)
    decreases |frames|
  {
    if frames == [] {
      assert frames[..0] == [];
    } else {
      var size := |FrameLines(log, frames[0])|;
      if m < size {
        ReadsInFirst(log, id, frames, m);
      } else {
        StreamReads(log, IdAfter(log, id, frames[0]), frames[1..], m - size);
        LinesPastFirst(log, frames, m);
        CutPastFirst(log, frames, m);
        ReadsPastFirst(log, id, frames, m, StreamLines(log, frames[1..])[..m - size],
                       CutAt(log, frames[1..], m - size));
      }
    }
  }

  lemma ReadsInFirst(log: seq<Entry>, id: string, frames: seq<Frame>, m: nat)
    requires LogOk(log) && InLog(log, frames)
    requires frames != [] && m < |FrameLines(log, frames[0])|
    ensures ReadsToCut(log, id, frames, m)
  {
    FrameReads(log, id, frames[0], m);
    assert StreamLines(log, frames)[..m] == FrameLines(log, frames[0])[..m];
    assert frames[..0] == [];
  }

  lemma LinesPastFirst(log: seq<Entry>, frames: seq<Frame>, m: nat)
    requires InLog(log, frames) && frames != []
    requires |FrameLines(log, frames[0])| <= m <= |StreamLines(log, frames)|
    ensures var lines := FrameLines(log, frames[0]);
            StreamLines(log, frames)[..m] == lines + StreamLines(log, frames[1..])[..m - |lines|]
  {
  }

  lemma CutPastFirst(log: seq<Entry>, frames: seq<Frame>, m: nat)
    requires InLog(log, frames) && frames != [] && |FrameLines(log, frames[0])| <= m
    ensures var c := CutAt(log, frames[1..], m - |FrameLines(log, frames[0])|);
            CutAt(log, frames, m) == Cut(c.full + 1, c.idSeen)
  {
  }

  /** From the cut `c` of the later frames, whose lines are `rest`, to the cut of all. */
  lemma ReadsPastFirst(log: seq<Entry>, id: string, frames: seq<Frame>, m: nat, rest: seq<string>, c: Cut)
    requires LogOk(log) && InLog(log, frames) && frames != []
    requires |FrameLines(log, frames[0])| <= m <= |StreamLines(log, frames)|
    requires StreamLines(log, frames)[..m] == FrameLines(log, frames[0]) + rest
    requires CutAt(log, frames, m) == Cut(c.full + 1, c.idSeen)
    requires ReadsTo(log, IdAfter(log, id, frames[0]), frames[1..], c,
                     FoldLines(Fields("", [], IdAfter(log, id, frames[0])), rest))
    ensures ReadsToCut(log, id, frames, m)
  {
    FoldThenRest(log, id, frames, rest, c);
  }

  lemma FoldThenRest(log: seq<Entry>, id: string, frames: seq<Frame>, rest: seq<string>, c: Cut)
    requires LogOk(log) && InLog(log, frames) && frames != []
    requires ReadsTo(log, IdAfter(log, id, frames[0]), frames[1..], c,
                     FoldLines(Fields("", [], IdAfter(log, id, frames[0])), rest))
    ensures ReadsTo(log, id, frames, Cut(c.full + 1, c.idSeen),
                    FoldLines(Fields("", [], id), FrameLines(log, frames[0]) + rest))
  {
    FoldAfterFrame(log, id, frames[0], rest);
    FrameThenRest(log, id, frames, c,
                  FoldLines(Fields("", [], id), FrameLines(log, frames[0]) + rest),
                  FoldLines(Fields("", [], IdAfter(log, id, frames[0])), rest));
  }

  lemma FrameThenRest(log: seq<Entry>, id: string, frames: seq<Frame>, c: Cut, r: Folded, t: Folded)
    requires InLog(log, frames) && frames != []
    requires ReadsTo(log, IdAfter(log, id, frames[0]), frames[1..], c, t)
    requires r.fields == t.fields && r.msgs == [FrameMessage(log, id, frames[0])] + t.msgs
    ensures ReadsTo(log, id, frames, Cut(c.full + 1, c.idSeen), r)
  {
    PrefixOfFrames(log, id, frames, c.full);
  }

  lemma FoldAfterFrame(log: seq<Entry>, id: string, f: Frame, more: seq<string>)
    requires LogOk(log) && (f.Logged? ==> f.n < |log|)
    ensures var r := FoldLines(Fields("", [], id), FrameLines(log, f) + more);
            var t := FoldLines(Fields("", [], IdAfter(log, id, f)), more);
            r.fields == t.fields && r.msgs == [FrameMessage(log, id, f)] + t.msgs
  {
    var lines := FrameLines(log, f);
    FrameReads(log, id, f, |lines|);
    assert lines[..|lines|] == lines;
    FoldConcat(Fields("", [], id), lines, more);
  }

  lemma PrefixOfFrames(log: seq<Entry>, id: string, frames: seq<Frame>, k: nat)
    requires InLog(log, frames) && k < |frames|
    ensures var id' := IdAfter(log, id, frames[0]);
            && FrameMessages(log, id, frames[..k + 1]) ==
               [FrameMessage(log, id, frames[0])] + FrameMessages(log, id', frames[1..][..k])
            && LastId(log, id, frames[..k + 1]) == LastId(log, id', frames[1..][..k])
  {
    assert frames[..k + 1][1..] == frames[1..][..k];
  }

  // --------------------------------------------------- one connection's effect

  /** The resume id stands for position `p`. */
  ghost predicate At(log: seq<Entry>, id: string, p: nat) {
    if id == "" then p == 0 else 0 < p <= |log| && log[p - 1].id == id
  }

  lemma PositionIs(log: seq<Entry>, id: string, p: nat)
    requires LogOk(log) && At(log, id, p)
    ensures Position(log, ResumeParam(true, id)) == p
  {
    if id != "" {
      var i := Find(log, id);
      assert i == p - 1;
    }
  }

  lemma {:induction false} LastIdAt(log: seq<Entry>, id: string, p: nat, frames: seq<Frame>, k: nat)
    requires LogOk(log) && At(log, id, p) && Serves(log, p, frames) && InLog(log, frames)
    requires k <= |frames|
    ensures At(log, LastId(log, id, frames[..k]), p + LoggedCount(frames[..k]))
    ensures k < |frames| && frames[k].Logged? ==> frames[k].n == p + LoggedCount(frames[..k])
    decreases |frames|
  {
    if k == 0 {
      assert frames[..0] == [];
    } else {
      var q := if frames[0].Logged? then p + 1 else p;
      assert frames[..k][1..] == frames[1..][..k - 1];
      assert frames[0].Logged? ==> EntryOk(log[frames[0].n]);
      LastIdAt(log, IdAfter(log, id, frames[0]), q, frames[1..], k - 1);
      assert k < |frames| ==> frames[k] == frames[1..][k - 1];
    }
  }

  lemma {:induction false} MessageIds(log: seq<Entry>, id: string, frames: seq<Frame>, i: nat)
    requires InLog(log, frames) && i < |frames|
    ensures FrameMessages(log, id, frames)[i].lastEventId == LastId(log, id, frames[..i + 1])
    ensures FrameMessages(log, id, frames)[..i + 1] == FrameMessages(log, id, frames[..i + 1])
    decreases |frames|
  {
    var id' := IdAfter(log, id, frames[0]);
    assert frames[..i + 1][1..] == frames[1..][..i];
    if i > 0 {
      MessageIds(log, id', frames[1..], i - 1);
      assert frames[1..][..i] == frames[..i + 1][1..];
    } else {
      assert frames[..1][1..] == [];
      assert LastId(log, id', []) == id';
    }
  }

  /** What the parser has made of the frames up to a cut. */
  ghost predicate Parsed(log: seq<Entry>, id: string, frames: seq<Frame>, cut: Cut, fed: Fed)
    requires InLog(log, frames)
  {
    ReadsTo(log, id, frames, cut, Folded(fed.state.fields, fed.msgs))
  }

  /** The parse of a cut connection, frame by frame. */
  lemma CutReads(log: seq<Entry>, id: string, p: nat, c: Connection)
    requires LogOk(log) && Sent(log, p, c)
    ensures Parsed(log, id, c.frames, CutOf(log, c), FeedAll(Initial(id), c.chunks))
  {
    var s := Concat(c.chunks);
    var lines := StreamLines(log, c.frames);
    FedIsFolded(id, c.chunks);
    StreamLinesBreakFree(log, p, c.frames);
    PrefixLines(lines, s);
    var m := |DrainLines(s).lines|;
    assert DrainLines(s).lines == lines[..m];
    StreamReads(log, id, c.frames, m);
  }

  /** What a client does with one cut connection.  It delivers the whole frames, up to a stop event
      if there is one; its resume point is then just past the last delivered log event, or past the
      next one too when that event's id line arrived and its blank line did not. */
  ghost predicate Effect(log: seq<Entry>, id: string, p: nat, frames: seq<Frame>, cut: Cut, r: Connected)
    requires InLog(log, frames)
  {
    var k := |r.msgs|;
    && k <= cut.full <= |frames|
    && r.msgs == FrameMessages(log, id, frames[..k])
    && (r.stopped ==> At(log, r.lastEventId, p + LoggedCount(frames[..k])))
    && (!r.stopped ==>
          k == cut.full && At(log, r.lastEventId, p + LoggedCount(frames[..k]) + Skipped(cut)))
  }

  /** The events a cut loses: the one whose id line was the last thing of it to arrive. */
  function Skipped(cut: Cut): nat {
    if cut.idSeen then 1 else 0
  }

  lemma ConnectionEffect(log: seq<Entry>, stopEvent: string, id: string, p: nat, c: Connection)
    requires LogOk(log) && At(log, id, p) && Sent(log, p, c)
    ensures Effect(log, id, p, c.frames, CutOf(log, c), Received(id, stopEvent, c.chunks))
  {
    CutReads(log, id, p, c);
    StopEffect(log, stopEvent, id, p, c.frames, CutOf(log, c), FeedAll(Initial(id), c.chunks));
  }

  lemma StopEffect(log: seq<Entry>, stopEvent: string, id: string, p: nat,
                   frames: seq<Frame>, cut: Cut, fed: Fed)
    requires LogOk(log) && At(log, id, p) && Serves(log, p, frames) && InLog(log, frames)
    requires Parsed(log, id, frames, cut, fed)
    ensures Effect(log, id, p, frames, cut, UpToStop(stopEvent, fed))
  {
    var i := FirstStop(stopEvent, fed.msgs);
    if i < |fed.msgs| {
      StoppedEffect(log, id, p, frames, cut, fed.msgs, i);
    } else {
      WholeEffect(log, id, p, frames, cut, fed);
    }
  }

  lemma WholeEffect(log: seq<Entry>, id: string, p: nat, frames: seq<Frame>, cut: Cut, fed: Fed)
    requires LogOk(log) && At(log, id, p) && Serves(log, p, frames) && InLog(log, frames)
    requires Parsed(log, id, frames, cut, fed)
    ensures Effect(log, id, p, frames, cut, Connected(fed.msgs, fed.state.fields.lastEventId, false))
  {
    CutEffect(log, id, p, frames, cut);
  }

  lemma StoppedEffect(log: seq<Entry>, id: string, p: nat, frames: seq<Frame>, cut: Cut,
                      msgs: seq<Message>, i: nat)
    requires LogOk(log) && At(log, id, p) && Serves(log, p, frames) && InLog(log, frames)
    requires i < cut.full <= |frames| && msgs == FrameMessages(log, id, frames[..cut.full])
    ensures Effect(log, id, p, frames, cut, Connected(msgs[..i + 1], msgs[i].lastEventId, true))
  {
    var taken, last := PrefixEffect(log, id, p, frames, cut.full, msgs, i);
    StoppedAt(log, id, p, frames, cut, taken, last);
  }

  lemma StoppedAt(log: seq<Entry>, id: string, p: nat, frames: seq<Frame>, cut: Cut,
                  taken: seq<Message>, lastEventId: string)
    requires InLog(log, frames) && |taken| <= cut.full <= |frames|
    requires taken == FrameMessages(log, id, frames[..|taken|])
    requires At(log, lastEventId, p + LoggedCount(frames[..|taken|]))
    ensures Effect(log, id, p, frames, cut, Connected(taken, lastEventId, true))
  {
  }

  lemma PrefixOfPrefix(frames: seq<Frame>, m: nat, n: nat)
    requires n <= m <= |frames|
    ensures frames[..m][..n] == frames[..n]
  {
  }

  lemma PrefixEffect(log: seq<Entry>, id: string, p: nat, frames: seq<Frame>, full: nat, msgs: seq<Message>, i: nat)
    returns (taken: seq<Message>, lastId: string)
    requires LogOk(log) && At(log, id, p) && Serves(log, p, frames) && InLog(log, frames)
    requires i < full <= |frames| && msgs == FrameMessages(log, id, frames[..full])
    ensures taken == msgs[..i + 1] && lastId == msgs[i].lastEventId && |taken| <= full
    ensures taken == FrameMessages(log, id, frames[..|taken|])
    ensures At(log, lastId, p + LoggedCount(frames[..|taken|]))
  {
    taken, lastId := PrefixIds(log, id, frames, full, msgs, i);
    LastIdAt(log, id, p, frames, |taken|);
  }

  lemma PrefixIds(log: seq<Entry>, id: string, frames: seq<Frame>, full: nat, msgs: seq<Message>, i: nat)
    returns (taken: seq<Message>, lastId: string)
    requires InLog(log, frames)
    requires i < full <= |frames| && msgs == FrameMessages(log, id, frames[..full])
    ensures taken == msgs[..i + 1] && lastId == msgs[i].lastEventId && |taken| <= full
    ensures taken == FrameMessages(log, id, frames[..|taken|])
    ensures lastId == LastId(log, id, frames[..|taken|])
  {
    MessageIds(log, id, frames[..full], i);
    PrefixOfPrefix(frames, full, i + 1);
    taken, lastId := msgs[..i + 1], msgs[i].lastEventId;
  }

  lemma CutEffect(log: seq<Entry>, id: string, p: nat, frames: seq<Frame>, cut: Cut)
    requires LogOk(log) && At(log, id, p) && Serves(log, p, frames) && InLog(log, frames)
    requires cut.full <= |frames|
    requires cut.idSeen ==> cut.full < |frames| && frames[cut.full].Logged?
    ensures var last := if cut.idSeen then log[frames[cut.full].n].id
                        else LastId(log, id, frames[..cut.full]);
            At(log, last, p + LoggedCount(frames[..cut.full]) + Skipped(cut))
  {
    LastIdAt(log, id, p, frames, cut.full);
    assert cut.idSeen ==> EntryOk(log[frames[cut.full].n]);
  }

  // ------------------------------------------------------- which frame stops it

  /** The event name of a frame, "message" when it has none. */
  function EventName(log: seq<Entry>, f: Frame): string
    requires f.Logged? ==> f.n < |log|
  {
    var event := if f.Logged? then log[f.n].event else f.event;
    if event == "" then "message" else event
  }

  lemma {:induction false} MessageEvents(log: seq<Entry>, id: string, frames: seq<Frame>, i: nat)
    requires InLog(log, frames) && i < |frames|
    ensures FrameMessages(log, id, frames)[i].event == EventName(log, frames[i])
    decreases |frames|
  {
    if i > 0 {
      MessageEvents(log, IdAfter(log, id, frames[0]), frames[1..], i - 1);
    }
  }

  /** A connection stops if and only if a stop event is configured and one of its whole frames carries
      it; the first such frame is then the last one delivered. */
  lemma FrameStops(log: seq<Entry>, stopEvent: string, id: string, p: nat, c: Connection)
    requires LogOk(log) && Sent(log, p, c)
    ensures var full := CutOf(log, c).full;
            var r := Received(id, stopEvent, c.chunks);
            && |r.msgs| <= full <= |c.frames|
            && (r.stopped <==>
                  stopEvent != "" && exists i :: 0 <= i < full && EventName(log, c.frames[i]) == stopEvent)
            && (r.stopped ==>
                  && r.msgs != [] && EventName(log, c.frames[|r.msgs| - 1]) == stopEvent
                  && forall j :: 0 <= j < |r.msgs| - 1 ==> EventName(log, c.frames[j]) != stopEvent)
  {
    ParsedEvents(log, id, p, c);
    StopLaw(id, stopEvent, c.chunks);
  }

  lemma ParsedEvents(log: seq<Entry>, id: string, p: nat, c: Connection)
    requires LogOk(log) && Sent(log, p, c)
    ensures var msgs := FeedAll(Initial(id), c.chunks).msgs;
            && |msgs| == CutOf(log, c).full <= |c.frames|
            && forall i :: 0 <= i < |msgs| ==> msgs[i].event == EventName(log, c.frames[i])
  {
    CutReads(log, id, p, c);
    var full := CutOf(log, c).full;
    WholeEvents(log, id, c.frames[..full]);
  }

  lemma WholeEvents(log: seq<Entry>, id: string, frames: seq<Frame>)
    requires InLog(log, frames)
    ensures forall i :: 0 <= i < |frames| ==> FrameMessages(log, id, frames)[i].event == EventName(log, frames[i])
  {
    forall i: nat | i < |frames|
      ensures FrameMessages(log, id, frames)[i].event == EventName(log, frames[i])
    {
      MessageEvents(log, id, frames, i);
    }
  }
}
