/** One connection of the SSE hook: what it asks for, what it delivers, where it leaves the resume point. */
module SseConnect {
  import opened Common
  import opened SseFormat
  import opened SseReconnect
  import SseClientParser

  /** The answer to one fetch.  `chunks` are the decoded pieces that arrive before the connection
      ends, `aborted` says whether it ended through the abort signal. */
  datatype Response =
    | Unreachable(aborted: bool)
    | Refused(status: int, statusText: string, retryAfterMs: Option<int>)
    | Stream(chunks: seq<string>, aborted: bool, healthyMs: int)

  datatype Connected = Connected(msgs: seq<Message>, lastEventId: string, stopped: bool)

  predicate IsStop(stopEvent: string, m: Message) {
    stopEvent != "" && m.event == stopEvent
  }

  /** Index of the first stop event, or the number of messages. */
  function FirstStop(stopEvent: string, msgs: seq<Message>): (i: nat)
    ensures i <= |msgs|
    ensures i < |msgs| ==> IsStop(stopEvent, msgs[i])
  {
    if msgs == [] || IsStop(stopEvent, msgs[0]) then 0 else FirstStop(stopEvent, msgs[1..]) + 1
  }

  /** A stream read from the given resume point: every parsed message up to and including the
      first stop event.  Without a stop event the resume point is the parser's last id field. */
  function Received(lastEventId: string, stopEvent: string, chunks: seq<string>): Connected {
    UpToStop(stopEvent, FeedAll(Initial(lastEventId), chunks))
  }

  function UpToStop(stopEvent: string, fed: Fed): Connected {
    var i := FirstStop(stopEvent, fed.msgs);
    if i < |fed.msgs| then Connected(fed.msgs[..i + 1], fed.msgs[i].lastEventId, true)
    else Connected(fed.msgs, fed.state.fields.lastEventId, false)
  }

  lemma {:induction false} FirstStopAppend(stopEvent: string, a: seq<Message>, b: seq<Message>)
    ensures FirstStop(stopEvent, a + b) ==
            if FirstStop(stopEvent, a) < |a| then FirstStop(stopEvent, a)
            else |a| + FirstStop(stopEvent, b)
    decreases |a|
  {
    if a == [] {
      assert a + b == b;
    } else {
      assert (a + b)[1..] == a[1..] + b;
      FirstStopAppend(stopEvent, a[1..], b);
    }
  }

  /** A stream that parses to `fed`, after `delivered` has been handed over without a stop: the parser
      is in state `st` and has `todo` ahead of it. */
  ghost predicate Reading(stopEvent: string, fed: Fed, delivered: seq<Message>, st: State, todo: seq<string>) {
    var rest := FeedAll(st, todo);
    && fed == Fed(rest.state, delivered + rest.msgs)
    && FirstStop(stopEvent, delivered) == |delivered|
  }

  lemma NothingRead(stopEvent: string, st: State, chunks: seq<string>)
    ensures Reading(stopEvent, FeedAll(st, chunks), [], st, chunks)
  {
    var fed := FeedAll(st, chunks);
    assert [] + fed.msgs == fed.msgs;
  }

  lemma NothingLeft(stopEvent: string, fed: Fed, delivered: seq<Message>, st: State)
    requires Reading(stopEvent, fed, delivered, st, [])
    ensures UpToStop(stopEvent, fed) == Connected(delivered, st.fields.lastEventId, false)
  {
    assert fed == Fed(st, delivered);
  }

  /** One turn of the read loop, over a chunk that parses to `one`: the stream ends at the chunk's stop
      event, or reading goes on. */
  ghost predicate ReadsOn(stopEvent: string, fed: Fed, delivered: seq<Message>, one: Fed, more: seq<string>) {
    var c := UpToStop(stopEvent, one);
    if c.stopped then UpToStop(stopEvent, fed) == Connected(delivered + c.msgs, c.lastEventId, true)
    else c.msgs == one.msgs && Reading(stopEvent, fed, delivered + one.msgs, one.state, more)
  }

  lemma ReadOneChunk(stopEvent: string, fed: Fed, delivered: seq<Message>, st: State, todo: seq<string>)
    requires todo != [] && Reading(stopEvent, fed, delivered, st, todo)
    ensures ReadsOn(stopEvent, fed, delivered, FeedState(st, todo[0]), todo[1..])
  {
    var one := FeedState(st, todo[0]);
    var later := FeedAll(one.state, todo[1..]);
    assert delivered + (one.msgs + later.msgs) == delivered + one.msgs + later.msgs;
    FirstStopAppend(stopEvent, delivered, one.msgs);
    FirstStopAppend(stopEvent, delivered + one.msgs, later.msgs);
    if FirstStop(stopEvent, one.msgs) < |one.msgs| {
      TakeMiddle(delivered, one.msgs, later.msgs, FirstStop(stopEvent, one.msgs));
    }
  }

  lemma TakeMiddle(a: seq<Message>, b: seq<Message>, c: seq<Message>, i: nat)
    requires i < |b|
    ensures (a + b + c)[|a| + i] == b[i] && (a + b + c)[..|a| + i + 1] == a + b[..i + 1]
  {
  }

  /** The resume parameter of a request. */
  function ResumeParam(resumes: bool, lastEventId: string): Option<string> {
    if resumes && lastEventId != "" then Some(lastEventId) else None
  }

  // ------------------------------------------------------------- the stop event

  lemma {:induction false} FirstStopLaw(stopEvent: string, msgs: seq<Message>)
    ensures var i := FirstStop(stopEvent, msgs);
            && (i < |msgs| ==> stopEvent != "" && msgs[i].event == stopEvent)
            && forall j :: 0 <= j < i ==> stopEvent == "" || msgs[j].event != stopEvent
    decreases |msgs|
  {
    if msgs != [] && !IsStop(stopEvent, msgs[0]) {
      FirstStopLaw(stopEvent, msgs[1..]);
      assert forall j :: 1 <= j < |msgs| ==> msgs[j] == msgs[1..][j - 1];
    }
  }

  /** A stream stops if and only if a stop event is configured and some message of the stream has it.
      Then the first such message is the last one delivered, and its id is the resume point; otherwise
      all messages are delivered, and the resume point is the parser's id field. */
  lemma StopLaw(id: string, stopEvent: string, chunks: seq<string>)
    ensures var fed := FeedAll(Initial(id), chunks);
            var r := Received(id, stopEvent, chunks);
            && (r.stopped <==> stopEvent != "" && exists i :: 0 <= i < |fed.msgs| && fed.msgs[i].event == stopEvent)
            && r.msgs <= fed.msgs
            && (r.stopped ==>
                  && r.msgs != [] && r.msgs[|r.msgs| - 1].event == stopEvent
                  && r.lastEventId == r.msgs[|r.msgs| - 1].lastEventId
                  && forall j :: 0 <= j < |r.msgs| - 1 ==> r.msgs[j].event != stopEvent)
            && (!r.stopped ==> r.msgs == fed.msgs && r.lastEventId == fed.state.fields.lastEventId)
  {
    FirstStopLaw(stopEvent, FeedAll(Initial(id), chunks).msgs);
  }

  class SseStream {
    const resumes: bool
    const stopEvent: string
    var lastEventId: string
    var everOpened: bool

    constructor (resumes: bool, stopEvent: string)
      ensures this.resumes == resumes && this.stopEvent == stopEvent
      ensures lastEventId == "" && !everOpened
    {
      this.resumes, this.stopEvent := resumes, stopEvent;
      lastEventId, everOpened := "", false;
    }

    /** One connection.  Besides the outcome: what it delivers, what the open callback is told
        (whether an earlier open came before), and whether the user is signed out. */
    method ConnectOnce(response: Response)
      returns (delivered: seq<Message>, outcome: Outcome, reconnected: Option<bool>, signedOut: bool)
      modifies this
      ensures !response.Stream? ==> delivered == [] && lastEventId == old(lastEventId) && everOpened == old(everOpened)
      ensures reconnected == if response.Stream? then Some(old(everOpened)) else None
      ensures signedOut <==> response.Refused? && response.status == 401
      ensures response.Unreachable? ==> outcome == if response.aborted then Aborted else Retry(0, 0)
      ensures response.Refused? && response.status == 401 ==> outcome == Fatal("401 session expired")
      ensures response.Refused? && response.status in {403, 404} ==>
                outcome == Fatal((if response.status == 403 then "403 " else "404 ")
                                 + (if response.statusText == "" then "not available" else response.statusText))
      ensures response.Refused? && response.status !in {401, 403, 404} ==>
                outcome == Retry(0, if response.retryAfterMs.Some? then response.retryAfterMs.value else 0)
      ensures response.Stream? ==>
                var r := Received(old(lastEventId), stopEvent, response.chunks);
                && delivered == r.msgs
                && lastEventId == r.lastEventId
                && everOpened
                && outcome == if r.stopped then Stopped
                              else if response.aborted then Aborted
                              else Retry(response.healthyMs, 0)
    {
      delivered, reconnected, signedOut := [], None, false;
      match response
      case Unreachable(aborted) =>
        outcome := if aborted then Aborted else Retry(0, 0);
      case Refused(status, statusText, retryAfterMs) =>
        var text := if statusText == "" then "not available" else statusText;
        if status == 401 {
          signedOut := true;
          outcome := Fatal("401 session expired");
        } else if status == 403 {
          outcome := Fatal("403 " + text);
        } else if status == 404 {
          outcome := Fatal("404 " + text);
        } else {
          outcome := Retry(0, if retryAfterMs.Some? then retryAfterMs.value else 0);
        }
      case Stream(chunks, aborted, healthyMs) =>
        reconnected := Some(everOpened);
        everOpened := true;
        var stopped;
        delivered, stopped := ReadStream(chunks);
        outcome := if stopped then Stopped else if aborted then Aborted else Retry(healthyMs, 0);
    }

    method ReadStream(chunks: seq<string>) returns (delivered: seq<Message>, stopped: bool)
      modifies `lastEventId
      ensures Connected(delivered, lastEventId, stopped) == Received(old(lastEventId), stopEvent, chunks)
    {
      delivered, stopped := [], false;
      var parser := new SseClientParser.SseParser(lastEventId);
      ghost var fed := FeedAll(parser.Value(), chunks);
      NothingRead(stopEvent, parser.Value(), chunks);
      var todo := chunks;
      while todo != []
        invariant parser.Value().fields.lastEventId == lastEventId
        invariant Reading(stopEvent, fed, delivered, parser.Value(), todo)
        decreases |todo|
      {
        ReadOneChunk(stopEvent, fed, delivered, parser.Value(), todo);
        var taken;
        taken, stopped := ReadChunk(parser, todo[0]);
        todo := todo[1..];
        delivered := delivered + taken;
        if stopped {
          return;
        }
      }
      NothingLeft(stopEvent, fed, delivered, parser.Value());
    }

    /** One chunk: the messages delivered from it, and the resume point it leaves. */
    method ReadChunk(parser: SseClientParser.SseParser, chunk: string) returns (taken: seq<Message>, stopped: bool)
      modifies `lastEventId, parser
      ensures var one := FeedState(old(parser.Value()), chunk);
              && parser.Value() == one.state
              && Connected(taken, lastEventId, stopped) == UpToStop(stopEvent, one)
    {
      var msgs := parser.Feed(chunk);
      taken, stopped := Deliver(msgs);
      if !stopped {
        lastEventId := parser.lastEventId;
      }
    }

    /** The messages of one chunk, handed over one by one until the stop event. */
    method Deliver(msgs: seq<Message>) returns (taken: seq<Message>, stopped: bool)
      modifies `lastEventId
      ensures var i := FirstStop(stopEvent, msgs);
              && stopped == (i < |msgs|)
              && taken == (if stopped then msgs[..i + 1] else msgs)
              && (stopped ==> lastEventId == msgs[i].lastEventId)
    {
      var i := 0;
      while i < |msgs|
        invariant i <= |msgs| && FirstStop(stopEvent, msgs) == i + FirstStop(stopEvent, msgs[i..])
      {
        assert msgs[i..][1..] == msgs[i + 1..];
        lastEventId := msgs[i].lastEventId;
        if IsStop(stopEvent, msgs[i]) {
          return msgs[..i + 1], true;
        }
        i := i + 1;
      }
      return msgs, false;
    }
  }
}
