/**
 The reconnect loop of the SSE hook: exponential backoff with a cap, a reset after a healthy
 connection, and a server-given minimum wait.  The loop is proved against a closed form of the
 delay, and the closed form gives a bound on how often any run can connect.
 */
module SseReconnect {
  import opened Common

  const BACKOFF_BASE_MS := 1000
  const BACKOFF_CAP_MS := 30000
  const HEALTHY_RESET_MS := 15000
  const WINDOW_MS := 60000

  datatype Outcome =
    | Stopped
    | Aborted
    | Fatal(error: string)
    | Retry(healthyMs: int, waitAtLeastMs: int)

  /** What one turn of the loop meets: how the connection ended, and whether the abort signal
      fires during the sleep that follows a retry. */
  datatype Turn = Turn(outcome: Outcome, abortedAsleep: bool)

  datatype Exit = Closed | Failed(error: string) | Unmounted | Running

  function Pow2(k: nat): nat {
    if k == 0 then 1 else 2 * Pow2(k - 1)
  }

  /** The delay after `k` waits since the last reset. */
  function Backoff(k: nat): int {
    Min(BACKOFF_BASE_MS * Pow2(k), BACKOFF_CAP_MS)
  }

  predicate Healthy(o: Outcome) {
    o.Retry? && o.healthyMs >= HEALTHY_RESET_MS
  }

  /** Waits completed since the last reset when turn `i` goes to sleep. */
  function Streak(turns: seq<Turn>, i: nat): nat
    requires i < |turns|
  {
    if Healthy(turns[i].outcome) || i == 0 then 0 else Streak(turns, i - 1) + 1
  }

  /** The sleep after turn `i`. */
  function Wait(turns: seq<Turn>, i: nat): int
    requires i < |turns| && turns[i].outcome.Retry?
  {
    Max(Backoff(Streak(turns, i)), turns[i].outcome.waitAtLeastMs)
  }

  /** The loop goes round after this turn. */
  predicate GoesOn(t: Turn) {
    t.outcome.Retry? && !t.abortedAsleep
  }

  lemma BackoffDoubles(k: nat)
    ensures Backoff(0) == 1000
    ensures Backoff(k + 1) == Min(Backoff(k) * 2, BACKOFF_CAP_MS)
    ensures BACKOFF_BASE_MS <= Backoff(k) <= BACKOFF_CAP_MS
  {
    Pow2Positive(k);
    assert Pow2(0) == 1;
  }

  /** The streak of turn `i` goes back to the last healthy connection, or to the first one. */
  lemma {:induction false} StreakLaw(turns: seq<Turn>, i: nat)
    requires i < |turns|
    ensures var k := Streak(turns, i);
            && k <= i
            && (k == i || (turns[i - k].outcome.Retry? && turns[i - k].outcome.healthyMs >= 15000))
            && forall j :: i - k < j <= i ==> !(turns[j].outcome.Retry? && turns[j].outcome.healthyMs >= 15000)
    decreases i
  {
    if i > 0 && !Healthy(turns[i].outcome) {
      StreakLaw(turns, i - 1);
    }
  }

  lemma Pow2Positive(k: nat)
    ensures Pow2(k) >= 1
  {
  }

  /** The loop over any finite observation of it: it sleeps once for every retry it meets, for the
      closed-form delay or the server's minimum if that is longer, and leaves at the first turn
      that does not go on. */
  method ReconnectLoop(turns: seq<Turn>) returns (waits: seq<int>, connects: nat, exit: Exit)
    ensures connects <= |turns|
    ensures forall i :: 0 <= i < connects - 1 ==> turns[i].outcome.Retry? && !turns[i].abortedAsleep
    ensures exit == Running ==> connects == |turns|
    ensures exit == Running && connects > 0 ==>
              turns[connects - 1].outcome.Retry? && !turns[connects - 1].abortedAsleep
    ensures exit == Closed <==> connects > 0 && turns[connects - 1].outcome == Stopped
    ensures forall e :: exit == Failed(e) <==> connects > 0 && turns[connects - 1].outcome == Fatal(e)
    ensures exit == Unmounted <==>
              connects > 0 && (turns[connects - 1].outcome == Aborted
                               || (turns[connects - 1].outcome.Retry? && turns[connects - 1].abortedAsleep))
    ensures |waits| == if connects > 0 && turns[connects - 1].outcome.Retry? then connects
                       else Max(connects - 1, 0)
    ensures forall i :: 0 <= i < |waits| ==> turns[i].outcome.Retry? && waits[i] == Wait(turns, i)
    ensures forall i :: 0 <= i < |waits| ==>
              && waits[i] >= turns[i].outcome.waitAtLeastMs && waits[i] >= Backoff(Streak(turns, i))
              && (waits[i] == turns[i].outcome.waitAtLeastMs || waits[i] == Backoff(Streak(turns, i)))
  {
    waits, connects, exit := [], 0, Running;
    var delay := BACKOFF_BASE_MS;
    ghost var k := 0;
    while connects < |turns|
      invariant connects <= |turns| && |waits| == connects && exit == Running
      invariant forall i :: 0 <= i < connects ==> GoesOn(turns[i])
      invariant forall i :: 0 <= i < connects ==> waits[i] == Wait(turns, i)
      invariant k == if connects == 0 then 0 else Streak(turns, connects - 1) + 1
      invariant delay == Backoff(k)
    {
      var turn := turns[connects];
      connects := connects + 1;
      match turn.outcome
      case Aborted =>
        exit := Unmounted;
        return;
      case Stopped =>
        exit := Closed;
        return;
      case Fatal(error) =>
        exit := Failed(error);
        return;
      case Retry(healthyMs, waitAtLeastMs) =>
        if healthyMs >= HEALTHY_RESET_MS {
          delay := BACKOFF_BASE_MS;
          k := 0;
          assert Pow2(0) == 1;
        }
        waits := waits + [Max(delay, waitAtLeastMs)];
        if turn.abortedAsleep {
          exit := Unmounted;
          return;
        }
        BackoffDoubles(k);
        delay := Min(delay * 2, BACKOFF_CAP_MS);
        k := k + 1;
    }
  }

  // ------------------------------------------------------------- rate bound

  /** A run of the loop on a clock that does not go back: `times[i]` is when connection `i` is
      opened.  A turn takes at least its healthy time and then at least its sleep. */
  ghost predicate Run(turns: seq<Turn>, times: seq<int>) {
    && |times| == |turns| + 1
    && forall i :: 0 <= i < |turns| ==> GoesOn(turns[i]) && Gap(turns, times, i)
  }

  ghost predicate Gap(turns: seq<Turn>, times: seq<int>, i: nat)
    requires i < |turns| && i + 1 < |times| && turns[i].outcome.Retry?
  {
    times[i + 1] >= times[i] + Max(0, turns[i].outcome.healthyMs) + Wait(turns, i)
  }

  /** In every run, consecutive connections are apart by the time that the server asked for, and by the
      backoff of the streak. */
  lemma RetryAfterIsKept(turns: seq<Turn>, times: seq<int>, i: nat)
    requires Run(turns, times) && i < |turns|
    ensures times[i + 1] - times[i] >= turns[i].outcome.waitAtLeastMs
    ensures times[i + 1] - times[i] >= Max(0, turns[i].outcome.healthyMs) + Backoff(Streak(turns, i))
  {
    assert Gap(turns, times, i);
  }

  /** Waits since the last reset when connection `i` opens. */
  function Level(turns: seq<Turn>, i: nat): nat
    requires i <= |turns|
  {
    if i == 0 then 0 else Streak(turns, i - 1) + 1
  }

  /** A potential on levels, in thirds of a millisecond: along any run, connections cost 22/3
      seconds each on average, and this is what a stretch of the run can be ahead by. */
  function Potential(level: nat): int {
    match level
    case 0 => 19000
    case 1 => 0
    case 2 => -16000
    case 3 => -26000
    case 4 => -24000
    case _ => 2000
  }

  lemma BackoffTable(k: nat)
    ensures k == 0 ==> Backoff(k) == 1000
    ensures k == 1 ==> Backoff(k) == 2000
    ensures k == 2 ==> Backoff(k) == 4000
    ensures k == 3 ==> Backoff(k) == 8000
    ensures k == 4 ==> Backoff(k) == 16000
    ensures k >= 5 ==> Backoff(k) == 30000
    decreases k
  {
    if k == 0 {
      assert Pow2(0) == 1;
    } else {
      BackoffDoubles(k - 1);
      BackoffTable(k - 1);
    }
  }

  lemma StepCost(turns: seq<Turn>, times: seq<int>, i: nat)
    requires Run(turns, times) && i < |turns|
    ensures 3 * (times[i + 1] - times[i]) >= 22000 + Potential(Level(turns, i + 1)) - Potential(Level(turns, i))
    ensures times[i] <= times[i + 1]
  {
    assert Gap(turns, times, i);
    BackoffTable(Streak(turns, i));
  }

  lemma {:induction false} RunCost(turns: seq<Turn>, times: seq<int>, i: nat, j: nat)
    requires Run(turns, times) && i <= j <= |turns|
    ensures 3 * (times[j] - times[i]) >=
            22000 * (j - i) + Potential(Level(turns, j)) - Potential(Level(turns, i))
    ensures times[i] <= times[j]
    decreases j - i
  {
    if i < j {
      RunCost(turns, times, i, j - 1);
      StepCost(turns, times, j - 1);
    }
  }

  /** Eleven further connections always take a minute; ten do when the first of them is not the
      retry after the very first connection. */
  lemma MinuteBetween(turns: seq<Turn>, times: seq<int>, i: nat, j: nat)
    requires Run(turns, times) && i <= j <= |turns|
    requires j - i >= 11 || (i > 0 && j - i >= 10)
    ensures times[j] - times[i] >= WINDOW_MS
  {
    RunCost(turns, times, i, j);
  }

  ghost function ConnectsIn(times: seq<int>, from: int): set<nat> {
    set i: nat | i < |times| && from <= times[i] < from + WINDOW_MS
  }

  lemma {:induction false} IntervalSize(s: set<nat>, lo: nat, n: nat)
    requires forall i :: i in s ==> lo <= i < lo + n
    ensures |s| <= n
    decreases n
  {
    if n == 0 {
      assert s == {};
    } else {
      IntervalSize(s - {lo + n - 1}, lo, n - 1);
    }
  }

  /** Main result on the rate: no half-open minute of any run holds more than eleven connections,
      and none that leaves out the first connection or its retry holds more than ten. */
  lemma RateBound(turns: seq<Turn>, times: seq<int>, from: int)
    requires Run(turns, times)
    ensures |ConnectsIn(times, from)| <= 11
    ensures !(0 in ConnectsIn(times, from) && 1 in ConnectsIn(times, from)) ==>
              |ConnectsIn(times, from)| <= 10
  {
    var s := ConnectsIn(times, from);
    if s != {} {
      var lo := Least(s);
      var n := if lo > 0 then 10 else 11;
      forall j | j in s
        ensures lo <= j < lo + n
      {
        if j >= lo + n {
          MinuteBetween(turns, times, lo, j);
          assert false;
        }
      }
      IntervalSize(s, lo, n);
      if lo == 0 && 1 !in s {
        forall j | j in s
          ensures j < 1
        {
          if j > 1 {
            RunCost(turns, times, 0, 1);
            RunCost(turns, times, 1, j);
            assert false;
          }
        }
        IntervalSize(s, 0, 1);
      }
    }
  }

  lemma Least(s: set<nat>) returns (lo: nat)
    requires s != {}
    ensures lo in s && forall i :: i in s ==> lo <= i
  {
    lo :| lo in s;
    while exists i :: i in s && i < lo
      invariant lo in s
      decreases lo
    {
      var i :| i in s && i < lo;
      lo := i;
    }
  }

  lemma {:induction false} IntervalFits(s: set<nat>, n: nat)
    requires forall i :: 0 <= i < n ==> i in s
    ensures |s| >= n
    decreases n
  {
    if n > 0 {
      IntervalFits(s - {n - 1}, n - 1);
    }
  }

  /** Ten connections a minute are exceeded, in a given run, if and only if the first eleven
      connections fall in less than a minute. */
  lemma RateExceededIff(turns: seq<Turn>, times: seq<int>)
    requires Run(turns, times)
    ensures (exists from :: |ConnectsIn(times, from)| > 10) <==> |times| >= 11 && times[10] - times[0] < WINDOW_MS
  {
    forall from | |ConnectsIn(times, from)| > 10
      ensures |times| >= 11 && times[10] - times[0] < WINDOW_MS
    {
      var s := ConnectsIn(times, from);
      RateBound(turns, times, from);
      if 10 !in s {
        forall j | j in s
          ensures j < 10
        {
          if j > 10 {
            MinuteBetween(turns, times, 0, j);
            assert false;
          }
        }
        IntervalSize(s, 0, 10);
      }
    }
    if |times| >= 11 && times[10] - times[0] < WINDOW_MS {
      ElevenFit(turns, times);
    }
  }

  lemma ElevenFit(turns: seq<Turn>, times: seq<int>)
    requires Run(turns, times) && |times| >= 11 && times[10] - times[0] < WINDOW_MS
    ensures |ConnectsIn(times, times[0])| == 11
  {
    var s := ConnectsIn(times, times[0]);
    forall i: nat | i < 11
      ensures i in s
    {
      RunCost(turns, times, 0, i);
      RunCost(turns, times, i, 10);
    }
    IntervalFits(s, 11);
    RateBound(turns, times, times[0]);
  }

  /** The least time that the first `n` turns take: how long each connection stayed healthy, and the
      sleep after it. */
  function Span(turns: seq<Turn>, n: nat): int
    requires n <= |turns| && forall i :: 0 <= i < |turns| ==> GoesOn(turns[i])
  {
    if n == 0 then 0
    else Span(turns, n - 1) + Max(0, turns[n - 1].outcome.healthyMs) + Wait(turns, n - 1)
  }

  lemma {:induction false} RunTakesSpan(turns: seq<Turn>, times: seq<int>, n: nat)
    requires Run(turns, times) && n <= |turns|
    ensures times[n] - times[0] >= Span(turns, n)
    decreases n
  {
    if n > 0 {
      RunTakesSpan(turns, times, n - 1);
      assert Gap(turns, times, n - 1);
    }
  }

  /** The timing of the turns in which nothing is slower than it must be. */
  lemma TightRun(turns: seq<Turn>) returns (times: seq<int>)
    requires forall i :: 0 <= i < |turns| ==> GoesOn(turns[i])
    ensures Run(turns, times) && forall n :: 0 <= n <= |turns| ==> times[n] == Span(turns, n)
  {
    times := seq(|turns| + 1, n requires 0 <= n <= |turns| => Span(turns, n));
    forall i: nat | i < |turns|
      ensures Gap(turns, times, i)
    {
      assert times[i + 1] == Span(turns, i + 1);
    }
  }

  ghost predicate Exceeds(turns: seq<Turn>, times: seq<int>) {
    Run(turns, times) && exists from :: |ConnectsIn(times, from)| > 10
  }

  /** In terms of the outcomes: some timing of a sequence of retries exceeds ten connections a minute
      if and only if its first ten healthy times and sleeps add up to less than a minute. */
  lemma OutcomesExceedIff(turns: seq<Turn>)
    requires forall i :: 0 <= i < |turns| ==> GoesOn(turns[i])
    ensures (exists times :: Exceeds(turns, times)) <==> |turns| >= 10 && Span(turns, 10) < WINDOW_MS
  {
    forall times | Exceeds(turns, times)
      ensures |turns| >= 10 && Span(turns, 10) < WINDOW_MS
    {
      RateExceededIff(turns, times);
      RunTakesSpan(turns, times, 10);
    }
    if |turns| >= 10 && Span(turns, 10) < WINDOW_MS {
      var times := TightRun(turns);
      RateExceededIff(turns, times);
      assert Exceeds(turns, times);
    }
  }

  /** A turn whose connection drops after `healthyMs`. */
  function Drop(healthyMs: int): Turn {
    Turn(Retry(healthyMs, 0), false)
  }

  function Flapping(): (turns: seq<Turn>)
    ensures |turns| == 10 && forall i :: 0 <= i < 10 ==> GoesOn(turns[i])
  {
    [Drop(0), Drop(0), Drop(0), Drop(15000), Drop(0), Drop(0), Drop(15000), Drop(0), Drop(0), Drop(0)]
  }

  lemma FlappingStreaks()
    ensures var ts := Flapping();
            && Streak(ts, 0) == 0 && Streak(ts, 1) == 1 && Streak(ts, 2) == 2
            && Streak(ts, 3) == 0 && Streak(ts, 4) == 1 && Streak(ts, 5) == 2
            && Streak(ts, 6) == 0 && Streak(ts, 7) == 1 && Streak(ts, 8) == 2 && Streak(ts, 9) == 3
  {
  }

  lemma FlappingGap(i: nat, streak: nat)
    requires i < 10 && Streak(Flapping(), i) == streak <= 3
    ensures Wait(Flapping(), i) == [1000, 2000, 4000, 8000][streak]
  {
    BackoffTable(streak);
  }

  lemma FlappingSpan()
    ensures Span(Flapping(), 10) == 59000
  {
    FlappingStreaks();
    FlappingGap(0, 0);
    FlappingGap(1, 1);
    FlappingGap(2, 2);
    FlappingGap(3, 0);
    assert Span(Flapping(), 4) == 23000;
    FlappingGap(4, 1);
    FlappingGap(5, 2);
    FlappingGap(6, 0);
    assert Span(Flapping(), 7) == 45000;
    FlappingGap(7, 1);
    FlappingGap(8, 2);
    FlappingGap(9, 3);
  }

  /** The bound is reached: eleven connections in the first minute, one more than the ten a minute
      that the hook's header comment names as the server's limit. */
  lemma ElevenInAMinute()
    returns (turns: seq<Turn>, times: seq<int>)
    ensures Run(turns, times)
    ensures |ConnectsIn(times, 0)| == 11
  {
    turns := Flapping();
    times := TightRun(turns);
    FlappingSpan();
    ElevenFit(turns, times);
  }
}
