/**
 Delivery over a whole session: any number of connections, each cut anywhere and each resuming from
 the id that the previous one left behind.
 */
module SseDelivery {
  import opened SseFormat
  import opened SsePrint
  import opened SseConnect
  import opened SseResume

  /** Every connection is served from the position that its resume parameter names, and a stop event is
      the end.  `resumes` says whether the hook is given a name for that parameter. */
  ghost predicate Session(log: seq<Entry>, resumes: bool, stopEvent: string, id: string, conns: seq<Connection>)
    decreases |conns|
  {
    conns == [] ||
    (&& Sent(log, Position(log, ResumeParam(resumes, id)), conns[0])
     && var r := Received(id, stopEvent, conns[0].chunks);
        if r.stopped then |conns| == 1 else Session(log, resumes, stopEvent, r.lastEventId, conns[1..]))
  }

  /** The numbers from `from` up to but not including `to`. */
  function Range(from: nat, to: nat): seq<nat> {
    seq(if from <= to then to - from else 0, i requires 0 <= i => from + i)
  }

  function Events(frames: seq<Frame>): seq<nat>
    decreases |frames|
  {
    if frames == [] then []
    else (if frames[0].Logged? then [frames[0].n] else []) + Events(frames[1..])
  }

  /** The frames whose messages a connection delivers. */
  function DeliveredFrames(stopEvent: string, id: string, c: Connection): seq<Frame> {
    Prefix(c.frames, |Received(id, stopEvent, c.chunks).msgs|)
  }

  function Prefix(frames: seq<Frame>, k: nat): seq<Frame> {
    if k <= |frames| then frames[..k] else frames
  }

  /** Log events delivered over a session, in the order of delivery. */
  function Delivered(log: seq<Entry>, stopEvent: string, id: string, conns: seq<Connection>): seq<nat>
    decreases |conns|
  {
    if conns == [] then []
    else
      Events(DeliveredFrames(stopEvent, id, conns[0]))
      + Delivered(log, stopEvent, Received(id, stopEvent, conns[0].chunks).lastEventId, conns[1..])
  }

  /** This connection is cut inside an event: its id line has arrived, its blank line has not. */
  predicate CutInsideEvent(log: seq<Entry>, stopEvent: string, id: string, c: Connection) {
    InLog(log, c.frames) && !Received(id, stopEvent, c.chunks).stopped && CutOf(log, c).idSeen
  }

  /** The events that such cuts fall on. */
  function Lost(log: seq<Entry>, stopEvent: string, id: string, conns: seq<Connection>): seq<nat>
    decreases |conns|
  {
    if conns == [] then []
    else
      var c := conns[0];
      (if CutInsideEvent(log, stopEvent, id, c) then [c.frames[CutOf(log, c).full].n] else [])
      + Lost(log, stopEvent, Received(id, stopEvent, c.chunks).lastEventId, conns[1..])
  }

  function FinalId(stopEvent: string, id: string, conns: seq<Connection>): string
    decreases |conns|
  {
    if conns == [] then id
    else FinalId(stopEvent, Received(id, stopEvent, conns[0].chunks).lastEventId, conns[1..])
  }

  lemma {:induction false} EventsAreRange(log: seq<Entry>, p: nat, frames: seq<Frame>, k: nat)
    requires Serves(log, p, frames) && k <= |frames|
    ensures Events(frames[..k]) == Range(p, p + LoggedCount(frames[..k]))
    decreases |frames|
  {
    if k == 0 {
      assert frames[..0] == [];
    } else {
      assert frames[..k][1..] == frames[1..][..k - 1];
      EventsAreRange(log, if frames[0].Logged? then p + 1 else p, frames[1..], k - 1);
    }
  }

  /** One connection: it delivers `p..q` and moves the resume point to `q`, or to `q + 1` when it is
      cut inside event `q`. */
  ghost predicate Steps(log: seq<Entry>, frames: seq<Frame>, cut: Cut, r: Connected, p: nat, q: nat) {
    var lost := !r.stopped && cut.idSeen;
    && p <= q
    && Events(Prefix(frames, |r.msgs|)) == Range(p, q)
    && At(log, r.lastEventId, if lost then q + 1 else q)
    && (lost ==> cut.full < |frames| && frames[cut.full] == Logged(q))
  }

  lemma ConnectionStep(log: seq<Entry>, stopEvent: string, id: string, p: nat, c: Connection)
    returns (q: nat)
    requires LogOk(log) && At(log, id, p) && Sent(log, p, c)
    ensures Steps(log, c.frames, CutOf(log, c), Received(id, stopEvent, c.chunks), p, q)
  {
    ConnectionEffect(log, stopEvent, id, p, c);
    q := EffectSteps(log, id, p, c.frames, CutOf(log, c), Received(id, stopEvent, c.chunks));
  }

  lemma EffectSteps(log: seq<Entry>, id: string, p: nat, frames: seq<Frame>, cut: Cut, r: Connected)
    returns (q: nat)
    requires LogOk(log) && At(log, id, p) && Serves(log, p, frames) && InLog(log, frames)
    requires cut.idSeen ==> cut.full < |frames| && frames[cut.full].Logged?
    requires Effect(log, id, p, frames, cut, r)
    ensures Steps(log, frames, cut, r, p, q)
  {
    var k := |r.msgs|;
    EventsAreRange(log, p, frames, k);
    LastIdAt(log, id, p, frames, k);
    q := p + LoggedCount(frames[..k]);
  }

  ghost predicate Increasing(s: seq<nat>) {
    forall i, j :: 0 <= i < j < |s| ==> s[i] < s[j]
  }

  /** Delivered and lost events account for `p..end`: in order, once each, and without a gap in the
      delivery if and only if nothing is lost. */
  ghost predicate Accounted(d: seq<nat>, l: seq<nat>, p: nat, end: nat) {
    && p <= end
    && Increasing(d)
    && (forall n :: p <= n < end <==> n in d || n in l)
    && (forall n :: !(n in d && n in l))
    && (d == Range(p, end) <==> l == [])
  }

  /** Main result on resuming.  What a session delivers is a strictly increasing list of log events,
      so nothing is delivered twice; the delivered and the lost events together are exactly those up
      to the final resume point; each cut inside an event loses that one event; and the delivery is
      gap-free if and only if there was no such cut. */
  lemma {:induction false} Delivery(log: seq<Entry>, stopEvent: string, id: string, p: nat, conns: seq<Connection>)
    returns (end: nat)
    requires LogOk(log) && At(log, id, p) && Session(log, true, stopEvent, id, conns)
    ensures At(log, FinalId(stopEvent, id, conns), end)
    ensures Accounted(Delivered(log, stopEvent, id, conns), Lost(log, stopEvent, id, conns), p, end)
    decreases |conns|
  {
    if conns == [] {
      end := p;
    } else {
      PositionIs(log, id, p);
      var q := ConnectionStep(log, stopEvent, id, p, conns[0]);
      var next := if CutInsideEvent(log, stopEvent, id, conns[0]) then q + 1 else q;
      var id' := Received(id, stopEvent, conns[0].chunks).lastEventId;
      assert |conns| == 1 ==> conns[1..] == [];
      end := Delivery(log, stopEvent, id', next, conns[1..]);
      JoinStep(p, q, next, end, Delivered(log, stopEvent, id', conns[1..]), Lost(log, stopEvent, id', conns[1..]));
    }
  }

  lemma JoinStep(p: nat, q: nat, next: nat, end: nat, d: seq<nat>, l: seq<nat>)
    requires p <= q <= next <= q + 1
    requires Accounted(d, l, next, end)
    ensures Accounted(Range(p, q) + d, (if next == q then [] else [q]) + l, p, end)
  {
    var lost := if next == q then [] else [q];
    RangeHolds(p, q);
    Members(Range(p, q), d);
    Members(lost, l);
    JoinIncreases(p, q, next, end, d, l);
    JoinGapFree(p, q, next, end, d, l);
  }

  lemma RangeHolds(p: nat, q: nat)
    ensures forall n :: n in Range(p, q) <==> p <= n < q
  {
    forall n: nat | p <= n < q
      ensures n in Range(p, q)
    {
      assert Range(p, q)[n - p] == n;
    }
  }

  lemma Members(a: seq<nat>, b: seq<nat>)
    ensures forall n :: n in a + b <==> n in a || n in b
  {
  }

  lemma JoinIncreases(p: nat, q: nat, next: nat, end: nat, d: seq<nat>, l: seq<nat>)
    requires p <= q <= next && Accounted(d, l, next, end)
    ensures Increasing(Range(p, q) + d)
  {
    assert forall i :: 0 <= i < |d| ==> d[i] in d;
  }

  lemma JoinGapFree(p: nat, q: nat, next: nat, end: nat, d: seq<nat>, l: seq<nat>)
    requires p <= q <= next <= q + 1 && Accounted(d, l, next, end)
    ensures Range(p, q) + d == Range(p, end) <==> next == q && l == []
  {
    if next == q && l == [] {
      assert Range(p, q) + Range(q, end) == Range(p, end);
    } else {
      var n := if next == q then l[0] else q;
      assert next == q ==> n in l;
      RangeHolds(p, end);
      RangeHolds(p, q);
      assert n in Range(p, end) && n !in Range(p, q) + d;
    }
  }

  /** Without a resume parameter every connection starts the log again: what it delivers is the log
      from its first event on, so two connections that deliver anything both deliver event 0. */
  lemma {:induction false} EachStartsAgain(log: seq<Entry>, stopEvent: string, id: string, conns: seq<Connection>, k: nat)
    returns (q: nat)
    requires LogOk(log) && Session(log, false, stopEvent, id, conns) && k < |conns|
    ensures Events(DeliveredFrames(stopEvent, FinalId(stopEvent, id, conns[..k]), conns[k])) == Range(0, q)
    decreases k
  {
    var c := conns[0];
    var r := Received(id, stopEvent, c.chunks);
    if k == 0 {
      assert conns[..0] == [];
      q := DeliversFromStart(log, stopEvent, id, c);
    } else {
      FinalIdStep(stopEvent, id, conns, k);
      q := EachStartsAgain(log, stopEvent, r.lastEventId, conns[1..], k - 1);
    }
  }

  lemma FinalIdStep(stopEvent: string, id: string, conns: seq<Connection>, k: nat)
    requires 0 < k <= |conns|
    ensures FinalId(stopEvent, id, conns[..k]) ==
            FinalId(stopEvent, Received(id, stopEvent, conns[0].chunks).lastEventId, conns[1..][..k - 1])
  {
    assert conns[..k][1..] == conns[1..][..k - 1] && conns[..k][0] == conns[0];
  }

  lemma DeliversFromStart(log: seq<Entry>, stopEvent: string, id: string, c: Connection) returns (q: nat)
    requires LogOk(log) && Sent(log, 0, c)
    ensures Events(DeliveredFrames(stopEvent, id, c)) == Range(0, q)
  {
    AtMostAllFrames(log, stopEvent, id, c);
    var k := |Received(id, stopEvent, c.chunks).msgs|;
    EventsAreRange(log, 0, c.frames, k);
    q := LoggedCount(c.frames[..k]);
  }

  lemma AtMostAllFrames(log: seq<Entry>, stopEvent: string, id: string, c: Connection)
    requires LogOk(log) && Sent(log, 0, c)
    ensures |Received(id, stopEvent, c.chunks).msgs| <= |c.frames|
  {
    CutReads(log, id, 0, c);
    StopsAtMost(stopEvent, FeedAll(Initial(id), c.chunks));
  }

  lemma StopsAtMost(stopEvent: string, fed: Fed)
    ensures |UpToStop(stopEvent, fed).msgs| <= |fed.msgs|
  {
  }

  /** The consumer hook says that a dropped connection neither loses nor repeats events.  Nothing is
      repeated, but whatever the log holds, a first connection cut right after an id line loses the
      event: it is not delivered and will not be asked for again. */
  lemma CutAfterIdLine(log: seq<Entry>, stopEvent: string) returns (c: Connection)
    requires LogOk(log) && log != []
    ensures c.frames == [Logged(0)]
    ensures Session(log, true, stopEvent, "", [c])
    ensures Delivered(log, stopEvent, "", [c]) == [] && Lost(log, stopEvent, "", [c]) == [0]
  {
    c := Connection([Logged(0)], [FieldLine("id", log[0].id) + ("\n" + "")]);
    CutSample(log, c);
    CutFirstEvent(log, stopEvent, "", c);
  }

  lemma CutFirstEvent(log: seq<Entry>, stopEvent: string, id: string, c: Connection)
    requires LogOk(log) && id == "" && Sent(log, 0, c) && c.frames == [Logged(0)]
    requires CutOf(log, c) == Cut(0, true)
    ensures Session(log, true, stopEvent, id, [c])
    ensures Delivered(log, stopEvent, id, [c]) == [] && Lost(log, stopEvent, id, [c]) == [0]
  {
    CutReads(log, id, 0, c);
    assert c.frames[..0] == [];
    var r := Received(id, stopEvent, c.chunks);
    assert r.msgs == [] && !r.stopped;
    assert [c][1..] == [];
    assert DeliveredFrames(stopEvent, id, c) == [];
  }

  lemma CutSample(log: seq<Entry>, c: Connection)
    requires LogOk(log) && log != []
    requires c == Connection([Logged(0)], [FieldLine("id", log[0].id) + ("\n" + "")])
    ensures Sent(log, 0, c) && CutOf(log, c) == Cut(0, true)
  {
    var line := FieldLine("id", log[0].id);
    var lines := FrameLines(log, Logged(0));
    assert c.chunks[1..] == [] && Concat(c.chunks) == line + ("\n" + "");
    assert c.frames[1..] == [];
    assert StreamLines(log, c.frames) == lines && lines[0] == line;
    assert Text(lines, "\n") == line + ("\n" + Text(lines[1..], "\n"));
    DrainFirst(line, "");
  }
}
