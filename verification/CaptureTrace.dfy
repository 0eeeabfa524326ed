/** What the capture loop's counters mean: functions of the whole trace of wakes and window resets. */
module CaptureTrace {
  /** kIdleConsecutiveNoData: so many wakes without data in a row make an idle episode. */
  const IDLE_WAKES := 10

  datatype Wake = Wake(eventPath: bool, timedOut: bool, us: nat, frames: nat)

  datatype Event = Woke(w: Wake) | Reset

  /** A maximal run of event wakes without data, and the data wake that ended it. */
  datatype Run = Run(wakes: seq<nat>, end: nat)

  predicate IsData(e: Event) { e.Woke? && e.w.frames > 0 }

  predicate IsIdleWake(e: Event) { e.Woke? && e.w.frames == 0 && e.w.eventPath }

  /** The wakes without data since the last data wake; polling wakes do not count. */
  function CurrentRun(t: seq<Event>): seq<nat> {
    if t == [] then []
    else
      var e, before := t[|t| - 1], t[..|t| - 1];
      if IsData(e) then [] else if IsIdleWake(e) then CurrentRun(before) + [e.w.us] else CurrentRun(before)
  }

  /** One run for each data wake, in order; most are empty. */
  function ClosedRuns(t: seq<Event>): seq<Run> {
    if t == [] then []
    else
      var e, before := t[|t| - 1], t[..|t| - 1];
      ClosedRuns(before) + (if IsData(e) then [Run(CurrentRun(before), e.w.us)] else [])
  }

  predicate Idle(wakes: seq<nat>) { |wakes| >= IDLE_WAKES }

  /** Whole milliseconds from the first wake without data to `end`. */
  function IdleMs(wakes: seq<nat>, end: nat): int {
    if Idle(wakes) then (end - wakes[0]) / 1000 else 0
  }

  function IdleRuns(runs: seq<Run>): nat {
    if runs == [] then 0 else IdleRuns(runs[..|runs| - 1]) + (if Idle(runs[|runs| - 1].wakes) then 1 else 0)
  }

  function ClosedIdleMs(runs: seq<Run>): int {
    if runs == [] then 0
    else ClosedIdleMs(runs[..|runs| - 1]) + IdleMs(runs[|runs| - 1].wakes, runs[|runs| - 1].end)
  }

  /** Idle episodes: the maximal runs of at least ten wakes, the current one included. */
  function Episodes(t: seq<Event>): nat {
    IdleRuns(ClosedRuns(t)) + (if Idle(CurrentRun(t)) then 1 else 0)
  }

  /** Their total length: the closed ones to the wake that ended them, the current one so far. */
  function TotalIdleMs(t: seq<Event>): int {
    var run := CurrentRun(t);
    ClosedIdleMs(ClosedRuns(t)) + (if run == [] then 0 else IdleMs(run, run[|run| - 1]))
  }

  function SinceReset(t: seq<Event>): seq<Event> {
    if t == [] || t[|t| - 1].Reset? then [] else SinceReset(t[..|t| - 1]) + [t[|t| - 1]]
  }

  /** Gaps between consecutive data wakes, except across an idle episode and after a wake at time 0. */
  function Gaps(runs: seq<Run>): seq<int> {
    if |runs| < 2 then []
    else
      var u, v := runs[|runs| - 2], runs[|runs| - 1];
      Gaps(runs[..|runs| - 1]) + (if !Idle(v.wakes) && u.end != 0 then [v.end - u.end] else [])
  }

  function Timeouts(t: seq<Event>): nat {
    if t == [] then 0
    else Timeouts(t[..|t| - 1]) + (if t[|t| - 1].Woke? && t[|t| - 1].w.timedOut then 1 else 0)
  }

  /** The timeout log: the numbers of the timeouts that got a line. */
  function Lines(t: seq<Event>): seq<nat> {
    if t == [] then []
    else
      var e, before := t[|t| - 1], t[..|t| - 1];
      Lines(before) + (if e.Woke? && e.w.timedOut && Timeouts(t) % 50 == 1 && !Idle(CurrentRun(before))
                       then [Timeouts(t)] else [])
  }

  // ---------------------------------------------------------------- traces of a monotone clock

  /** The time of the last wake, or 0. */
  function Clock(t: seq<Event>): nat {
    if t == [] then 0 else if t[|t| - 1].Woke? then t[|t| - 1].w.us else Clock(t[..|t| - 1])
  }

  /** Times never decrease, and only the event path can time out. */
  predicate WellTimed(t: seq<Event>) {
    t == [] ||
    (var e, before := t[|t| - 1], t[..|t| - 1];
     && WellTimed(before)
     && (e.Woke? ==> Clock(before) <= e.w.us && (e.w.timedOut ==> e.w.eventPath)))
  }

  lemma WellTimedPrefix(t: seq<Event>, e: Event)
    requires WellTimed(t + [e])
    ensures WellTimed(t)
  {
    assert (t + [e])[..|t|] == t;
  }

  lemma ResetKeepsTime(t: seq<Event>)
    requires WellTimed(t)
    ensures WellTimed(t + [Reset])
  {
    assert (t + [Reset])[..|t|] == t;
  }

  lemma {:induction false} RunTimes(t: seq<Event>)
    requires WellTimed(t)
    ensures forall i, j | 0 <= i <= j < |CurrentRun(t)| :: CurrentRun(t)[i] <= CurrentRun(t)[j] <= Clock(t)
    ensures ClosedRuns(t) != [] ==> ClosedRuns(t)[|ClosedRuns(t)| - 1].end <= Clock(t)
  {
    if t != [] {
      RunTimes(t[..|t| - 1]);
    }
  }

  /** The total never decreases, whatever happens next. */
  lemma TotalIdleMonotone(t: seq<Event>, e: Event)
    requires WellTimed(t + [e])
    ensures 0 <= TotalIdleMs(t + [e]) - TotalIdleMs(t)
    ensures Episodes(t) <= Episodes(t + [e]) <= Episodes(t) + 1
  {
    assert (t + [e])[..|t|] == t;
    RunTimes(t);
    OneMoreEvent(t, e);
    if IsData(e) {
      OneMoreRun(ClosedRuns(t), Run(CurrentRun(t), e.w.us));
    }
  }

  // ---------------------------------------------------------------- one more event

  lemma OneMoreEvent(t: seq<Event>, e: Event)
    ensures CurrentRun(t + [e])
         == if IsData(e) then [] else if IsIdleWake(e) then CurrentRun(t) + [e.w.us] else CurrentRun(t)
    ensures ClosedRuns(t + [e])
         == if IsData(e) then ClosedRuns(t) + [Run(CurrentRun(t), e.w.us)] else ClosedRuns(t)
    ensures SinceReset(t + [e]) == if e.Reset? then [] else SinceReset(t) + [e]
    ensures Timeouts(t + [e]) == Timeouts(t) + (if e.Woke? && e.w.timedOut then 1 else 0)
    ensures Lines(t + [e]) == if e.Woke? && e.w.timedOut && Timeouts(t + [e]) % 50 == 1 && !Idle(CurrentRun(t))
                              then Lines(t) + [Timeouts(t + [e])] else Lines(t)
  {
    assert (t + [e])[..|t|] == t;
  }

  lemma OneMoreRun(runs: seq<Run>, run: Run)
    ensures IdleRuns(runs + [run]) == IdleRuns(runs) + (if Idle(run.wakes) then 1 else 0)
    ensures ClosedIdleMs(runs + [run]) == ClosedIdleMs(runs) + IdleMs(run.wakes, run.end)
  {
    assert (runs + [run])[..|runs|] == runs;
  }

  lemma OneMoreGap(runs: seq<Run>, run: Run)
    ensures Gaps(runs + [run]) == Gaps(runs) + NewGap(LastEnd(runs), run.end, Idle(run.wakes))
  {
    assert (runs + [run])[..|runs|] == runs;
  }

  /** What the idle accounting depends on. */
  datatype Accounts = Accounts(run: seq<nat>, closedMs: int, closedIdle: nat)

  function AccountsOf(t: seq<Event>): Accounts {
    Accounts(CurrentRun(t), ClosedIdleMs(ClosedRuns(t)), IdleRuns(ClosedRuns(t)))
  }

  function Booked(a: Accounts, e: Event): Accounts {
    if IsData(e) then
      Accounts([], a.closedMs + IdleMs(a.run, e.w.us), a.closedIdle + (if Idle(a.run) then 1 else 0))
    else if IsIdleWake(e) then a.(run := a.run + [e.w.us])
    else a
  }

  lemma AccountsStep(t: seq<Event>, e: Event)
    ensures AccountsOf(t + [e]) == Booked(AccountsOf(t), e)
  {
    OneMoreEvent(t, e);
    if IsData(e) {
      OneMoreRun(ClosedRuns(t), Run(CurrentRun(t), e.w.us));
    }
  }

  // ---------------------------------------------------------------- the window since the last reset

  /** The data wakes since the last reset, each with the run before it. */
  function Window(t: seq<Event>): seq<Run> { ClosedRuns(SinceReset(t)) }

  /** The time of the last of these data wakes, or 0. */
  function LastEnd(runs: seq<Run>): nat {
    if runs == [] then 0 else runs[|runs| - 1].end
  }

  function NewGap(last: nat, now: nat, idle: bool): seq<int> {
    if last != 0 && !idle then [now - last] else []
  }

  /** What the inter-arrival samples depend on. */
  datatype Arrivals = Arrivals(gaps: seq<int>, last: nat, any: bool, inWindow: bool)

  function ArrivalsOf(t: seq<Event>): Arrivals {
    Arrivals(Gaps(Window(t)), LastEnd(ClosedRuns(t)), ClosedRuns(t) != [], Window(t) != [])
  }

  function Arrived(a: Arrivals, e: Event, idle: bool): Arrivals {
    if e.Reset? then a.(gaps := [], inWindow := false)
    else if IsData(e) then
      Arrivals(a.gaps + (if a.inWindow then NewGap(a.last, e.w.us, idle) else []), e.w.us, true, true)
    else a
  }

  lemma {:induction false} WindowRuns(t: seq<Event>)
    ensures Window(t) != [] ==>
      ClosedRuns(t) != [] && LastEnd(Window(t)) == LastEnd(ClosedRuns(t)) && CurrentRun(SinceReset(t)) == CurrentRun(t)
  {
    if t != [] && !t[|t| - 1].Reset? {
      var before := t[..|t| - 1];
      WindowRuns(before);
      assert t == before + [t[|t| - 1]];
      OneMoreEvent(before, t[|t| - 1]);
      OneMoreEvent(SinceReset(before), t[|t| - 1]);
    }
  }

  lemma ArrivalsStep(t: seq<Event>, e: Event)
    ensures ArrivalsOf(t + [e]) == Arrived(ArrivalsOf(t), e, Idle(CurrentRun(t)))
  {
    OneMoreEvent(t, e);
    if IsData(e) {
      GapRecorded(t, e.w);
    } else if !e.Reset? {
      OneMoreEvent(SinceReset(t), e);
    }
  }

  /** A data wake adds its gap to the last one, if that is in the window; the run before it is that of the trace. */
  lemma GapRecorded(t: seq<Event>, w: Wake)
    requires w.frames > 0
    ensures Window(t + [Woke(w)]) != []
    ensures Gaps(Window(t + [Woke(w)]))
         == Gaps(Window(t))
            + (if Window(t) == [] then [] else NewGap(LastEnd(ClosedRuns(t)), w.us, Idle(CurrentRun(t))))
  {
    var r := SinceReset(t);
    WindowRuns(t);
    OneMoreEvent(t, Woke(w));
    OneMoreEvent(r, Woke(w));
    OneMoreGap(Window(t), Run(CurrentRun(r), w.us));
  }

  /** There is a gap exactly if the last one was not at time 0, and fewer than ten wakes without data lie between. */
  lemma NewGapExact(last: nat, now: nat, wakes: seq<nat>)
    ensures NewGap(last, now, Idle(wakes)) == if last != 0 && |wakes| < 10 then [now - last] else []
  {
  }

  // ---------------------------------------------------------------- everything the loop keeps

  /** What the timeout log depends on. */
  datatype Log = Log(timeouts: nat, lines: seq<nat>)

  function LogOf(t: seq<Event>): Log { Log(Timeouts(t), Lines(t)) }

  function Noted(l: Log, e: Event, idle: bool): Log {
    if e.Woke? && e.w.timedOut then
      var n := l.timeouts + 1;
      Log(n, if n % 50 == 1 && !idle then l.lines + [n] else l.lines)
    else l
  }

  lemma LogStep(t: seq<Event>, e: Event)
    ensures LogOf(t + [e]) == Noted(LogOf(t), e, Idle(CurrentRun(t)))
  {
    OneMoreEvent(t, e);
  }

  datatype Books = Books(idle: Accounts, arrivals: Arrivals, log: Log)

  function BooksOf(t: seq<Event>): Books {
    Books(AccountsOf(t), ArrivalsOf(t), LogOf(t))
  }

  function Posted(b: Books, e: Event): Books {
    var idle := Idle(b.idle.run);
    Books(Booked(b.idle, e), Arrived(b.arrivals, e, idle), Noted(b.log, e, idle))
  }

  lemma BooksStep(t: seq<Event>, e: Event)
    ensures BooksOf(t + [e]) == Posted(BooksOf(t), e)
  {
    AccountsStep(t, e);
    ArrivalsStep(t, e);
    LogStep(t, e);
  }

  /** The clock has not gone back behind anything the books remember. */
  predicate Timely(b: Books, w: Wake) {
    (b.idle.run != [] ==> b.idle.run[0] <= w.us) && b.arrivals.last <= w.us
  }

  lemma TimelyNow(t: seq<Event>, w: Wake)
    requires WellTimed(t + [Woke(w)])
    ensures Timely(BooksOf(t), w)
  {
    WellTimedPrefix(t, Woke(w));
    assert (t + [Woke(w)])[..|t|] == t;
    RunTimes(t);
  }

  /** The books before and after one more wake. */
  lemma NextBooks(t: seq<Event>, w: Wake) returns (b: Books, next: Books)
    requires WellTimed(t + [Woke(w)])
    ensures b == BooksOf(t) && next == BooksOf(t + [Woke(w)])
    ensures next == Posted(b, Woke(w)) && Timely(b, w) && b.idle.run == CurrentRun(t)
  {
    TimelyNow(t, w);
    BooksStep(t, Woke(w));
    b, next := BooksOf(t), BooksOf(t + [Woke(w)]);
  }

  // ---------------------------------------------------------------- the timeout log is throttled

  /** ceil(n / 50): also how many of the numbers 1..n are 1 modulo 50. */
  function CeilFifty(n: nat): nat { (n + 49) / 50 }

  /** Numbers that get a line are 1, 51, 101, ...: in any `n` consecutive numbers at most ceil(n / 50). */
  lemma {:induction false} LinesBound(t: seq<Event>, more: seq<Event>)
    ensures |Lines(t)| <= |Lines(t + more)|
    ensures Timeouts(t) <= Timeouts(t + more)
    ensures |Lines(t + more)| - |Lines(t)| <= CeilFifty(Timeouts(t + more)) - CeilFifty(Timeouts(t))
    decreases |more|
  {
    if more == [] {
      assert t + more == t;
    } else {
      var shorter := more[..|more| - 1];
      LinesBound(t, shorter);
      assert (t + more)[..|t + more| - 1] == t + shorter;
    }
  }

  /** In any stretch of the trace with `n` timeouts there are at most ceil(n / 50) lines. */
  lemma ThrottledByCount(t: seq<Event>, more: seq<Event>)
    ensures Timeouts(t) <= Timeouts(t + more)
    ensures |Lines(t + more)| - |Lines(t)| <= CeilFifty(Timeouts(t + more) - Timeouts(t))
  {
    LinesBound(t, more);
    CeilBound(Timeouts(t), Timeouts(t + more));
  }

  lemma CeilBound(a: nat, b: nat)
    requires a <= b
    ensures CeilFifty(b) - CeilFifty(a) <= CeilFifty(b - a)
  {
  }

  /** One run of wakes without data gets at most one line, however long it lasts. */
  lemma {:induction false} ThrottledByRun(t: seq<Event>, more: seq<Event>)
    requires CurrentRun(t) == [] && WellTimed(t + more)
    requires forall e | e in more :: !IsData(e)
    ensures |Lines(t)| <= |Lines(t + more)| <= |Lines(t)| + 1
  {
    var k := QuietFrom(t, more);
    assert t + more == (t + more[..k]) + more[k..];
    LinesBound(t, more[..k]);
    CeilBound(Timeouts(t), Timeouts(t + more[..k]));
  }

  /** The lines of such a run come while it has fewer than ten wakes. */
  lemma {:induction false} QuietFrom(t: seq<Event>, more: seq<Event>) returns (k: nat)
    requires CurrentRun(t) == [] && WellTimed(t + more)
    requires forall e | e in more :: !IsData(e)
    ensures k <= |more| && Timeouts(t + more[..k]) - Timeouts(t) <= IDLE_WAKES
    ensures Timeouts(t) <= Timeouts(t + more[..k])
    ensures |Lines(t + more)| == |Lines(t + more[..k])|
    ensures !Idle(CurrentRun(t + more)) ==> k == |more| && Timeouts(t + more) - Timeouts(t) <= |CurrentRun(t + more)|
    decreases |more|
  {
    if more == [] {
      k := 0;
      assert t + more == t && more[..0] == [];
    } else {
      var shorter, e := more[..|more| - 1], more[|more| - 1];
      assert (t + more)[..|t + more| - 1] == t + shorter;
      assert e in more;
      k := QuietFrom(t, shorter);
      if Idle(CurrentRun(t + shorter)) {
        assert shorter[..k] == more[..k];
      } else {
        k := |more|;
        assert more[..k] == more && shorter[..|shorter|] == shorter;
      }
    }
  }

  /** As long as the loop is never idle, exactly the timeouts 1, 51, 101, ... get a line. */
  lemma {:induction false} LinesExact(t: seq<Event>, i: nat)
    requires forall k: nat | k <= |t| :: !Idle(CurrentRun(t[..k]))
    ensures 50 * |Lines(t)| - 49 <= Timeouts(t) <= 50 * |Lines(t)|
    ensures i < |Lines(t)| ==> Lines(t)[i] == 50 * i + 1
  {
    if t != [] {
      var before := t[..|t| - 1];
      assert forall k: nat | k <= |before| :: before[..k] == t[..k];
      LinesExact(before, i);
    }
  }

  // ---------------------------------------------------------------- what the definitions mean

  /** The wakes of the event path that found no data, with their times. */
  function IdleTimes(t: seq<Event>): seq<nat> {
    if t == [] then []
    else
      var e := t[|t| - 1];
      IdleTimes(t[..|t| - 1]) + (if e.Woke? && e.w.eventPath && e.w.frames == 0 then [e.w.us] else [])
  }

  /** The current run is those wakes since the last one with data. */
  lemma {:induction false} RunSinceData(t: seq<Event>, w: Wake, more: seq<Event>)
    requires w.frames > 0 && forall e | e in more :: e.Woke? ==> e.w.frames == 0
    ensures CurrentRun(t + [Woke(w)] + more) == IdleTimes(more)
    ensures ClosedRuns(t + [Woke(w)] + more) == ClosedRuns(t) + [Run(CurrentRun(t), w.us)]
    decreases |more|
  {
    var upTo := t + [Woke(w)];
    if more == [] {
      assert upTo + more == upTo;
      OneMoreEvent(t, Woke(w));
    } else {
      var shorter, e := more[..|more| - 1], more[|more| - 1];
      assert e in more;
      RunSinceData(t, w, shorter);
      assert upTo + more == (upTo + shorter) + [e];
      OneMoreEvent(upTo + shorter, e);
    }
  }

  /** An idle episode is counted at the tenth wake in a row without data, and at no other event. */
  lemma EpisodeExact(t: seq<Event>, e: Event)
    ensures Episodes(t + [e]) == Episodes(t) + 1
       <==> e.Woke? && e.w.eventPath && e.w.frames == 0 && |CurrentRun(t)| == 9
    ensures Episodes(t + [e]) == Episodes(t) || Episodes(t + [e]) == Episodes(t) + 1
  {
    OneMoreEvent(t, e);
    if IsData(e) {
      OneMoreRun(ClosedRuns(t), Run(CurrentRun(t), e.w.us));
    }
  }

  /** A run of ten or more wakes counts its length in whole milliseconds, a shorter one nothing. */
  lemma IdleMsExact(wakes: seq<nat>, end: nat)
    requires wakes != [] && wakes[0] <= end
    ensures |wakes| >= 10 ==> 1000 * IdleMs(wakes, end) <= end - wakes[0] < 1000 * IdleMs(wakes, end) + 1000
    ensures |wakes| < 10 ==> IdleMs(wakes, end) == 0
  {
  }

  /** No run begins before the data wake that ended the last one, so the closed ones fit before it. */
  lemma {:induction false} ClosedFits(t: seq<Event>)
    requires WellTimed(t)
    ensures 0 <= 1000 * ClosedIdleMs(ClosedRuns(t)) <= LastEnd(ClosedRuns(t)) <= Clock(t)
    ensures CurrentRun(t) != [] ==> LastEnd(ClosedRuns(t)) <= CurrentRun(t)[0]
  {
    if t != [] {
      var before, e := t[..|t| - 1], t[|t| - 1];
      assert before + [e] == t;
      RunTimes(before);
      ClosedFits(before);
      OneMoreEvent(before, e);
      if IsData(e) {
        RunFits(ClosedRuns(before), CurrentRun(before), e.w.us);
      }
    }
  }

  lemma RunFits(runs: seq<Run>, wakes: seq<nat>, end: nat)
    requires 0 <= 1000 * ClosedIdleMs(runs) <= LastEnd(runs) <= end
    requires wakes != [] ==> LastEnd(runs) <= wakes[0] <= end
    ensures 0 <= 1000 * ClosedIdleMs(runs + [Run(wakes, end)]) <= end
  {
    OneMoreRun(runs, Run(wakes, end));
    if wakes != [] {
      IdleMsExact(wakes, end);
    }
  }

  /** The idle times do not overlap: together they are no longer than the time that has passed. */
  lemma TotalIdleFits(t: seq<Event>)
    requires WellTimed(t)
    ensures 0 <= 1000 * TotalIdleMs(t) <= Clock(t)
  {
    RunTimes(t);
    ClosedFits(t);
    var run := CurrentRun(t);
    if run != [] {
      IdleMsExact(run, run[|run| - 1]);
    }
  }

  /** A data wake that needs no exception: no idle episode before it, and not at time 0. */
  predicate Plain(run: Run) { |run.wakes| < 10 && run.end != 0 }

  /** Between such data wakes every gap is recorded: as many as intervals, each the interval's length. */
  lemma {:induction false} GapsExact(runs: seq<Run>, i: nat)
    requires forall run | run in runs :: Plain(run)
    ensures |Gaps(runs)| == if runs == [] then 0 else |runs| - 1
    ensures i < |Gaps(runs)| ==> Gaps(runs)[i] == runs[i + 1].end - runs[i].end
  {
    if |runs| >= 2 {
      var before := runs[..|runs| - 1];
      assert runs[|runs| - 1] in runs && runs[|runs| - 2] in runs;
      assert forall run | run in before :: run in runs;
      GapsExact(before, i);
    }
  }
}
