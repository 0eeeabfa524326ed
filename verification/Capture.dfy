/** The capture loop's wake accounting, field by field, against the trace of what happened. */
module Capture {
  import opened CaptureTrace
  import opened Histograms

  /** The process-wide statistics that the loop writes and a probe may reset. */
  class CaptureStats {
    const interArrival: TimingHistogram
    var arrivalEpoch: nat
    var idleEpisodes: nat
    var lastIdleMs: nat
    var totalIdleMs: nat
    var currentIdleMs: nat
    var eventTimeoutTotal: nat
    var eventWakeTotal: nat

    constructor ()
      ensures fresh(interArrival) && fresh(interArrival.bins) && interArrival.Valid() && interArrival.samples == []
      ensures arrivalEpoch == idleEpisodes == lastIdleMs == totalIdleMs == currentIdleMs == 0
      ensures eventTimeoutTotal == eventWakeTotal == 0
    {
      interArrival := new TimingHistogram();
      arrivalEpoch, idleEpisodes, lastIdleMs, totalIdleMs, currentIdleMs := 0, 0, 0, 0, 0;
      eventTimeoutTotal, eventWakeTotal := 0, 0;
    }

    /** Clears the window's histogram and snapshots; the process-wide totals stay. */
    method ResetWindow()
      requires interArrival.Valid()
      modifies this`arrivalEpoch, this`lastIdleMs, this`currentIdleMs, interArrival, interArrival.bins
      ensures interArrival.Valid() && interArrival.samples == []
      ensures arrivalEpoch == old(arrivalEpoch) + 1 && lastIdleMs == currentIdleMs == 0
    {
      interArrival.Reset();
      arrivalEpoch := arrivalEpoch + 1;
      lastIdleMs := 0;
      currentIdleMs := 0;
    }
  }

  class CaptureLoop {
    const stats: CaptureStats
    var lastWakeUs: nat
    var lastArrivalEpoch: nat
    var timeoutLogCounter: nat
    var idleStreak: nat
    var idleActive: bool
    var idleStartUs: nat
    var idleClosedMs: nat

    ghost var trace: seq<Event>       // what happened since the loop started
    ghost var lines: seq<nat>         // the timeout lines written to the log

    /** The idle accounting is that of the accounts `a`. */
    ghost predicate IdleAt(a: Accounts)
      reads this`idleStreak, this`idleActive, this`idleStartUs, this`idleClosedMs, stats
    {
      && idleStreak == |a.run| && idleActive == Idle(a.run)
      && (a.run != [] ==> idleStartUs == a.run[0])
      && idleClosedMs == a.closedMs
      && stats.idleEpisodes == a.closedIdle + (if Idle(a.run) then 1 else 0)
      && stats.totalIdleMs == a.closedMs + (if a.run == [] then 0 else IdleMs(a.run, a.run[|a.run| - 1]))
      && (!idleActive ==> stats.currentIdleMs == 0)
    }

    /** The inter-arrival samples and their baseline are those of `a`. */
    ghost predicate ArrivalsAt(a: Arrivals)
      reads this`lastWakeUs, this`lastArrivalEpoch, stats, stats.interArrival, stats.interArrival.bins
    {
      && stats.interArrival.Valid() && stats.interArrival.samples == a.gaps
      && lastWakeUs == a.last
      && lastArrivalEpoch <= stats.arrivalEpoch
      && (a.inWindow ==> lastArrivalEpoch == stats.arrivalEpoch)
      && (!a.inWindow && lastArrivalEpoch == stats.arrivalEpoch ==> !a.any && a.last == 0)
    }

    ghost predicate At(b: Books)
      reads this`idleStreak, this`idleActive, this`idleStartUs, this`idleClosedMs
      reads this`lastWakeUs, this`lastArrivalEpoch, this`timeoutLogCounter, this`lines
      reads stats, stats.interArrival, stats.interArrival.bins
    {
      IdleAt(b.idle) && ArrivalsAt(b.arrivals) && Log(timeoutLogCounter, lines) == b.log
    }

    /** After a wake in an idle run, the snapshot of the current or of the last idle time is that run's length. */
    ghost predicate Snapshot(run: seq<nat>, w: Wake)
      reads stats
    {
      && (w.frames > 0 && Idle(run) ==> stats.lastIdleMs == IdleMs(run, w.us))
      && (w.frames == 0 && w.eventPath && Idle(run) ==> stats.currentIdleMs == IdleMs(run, w.us))
    }

    /** Every counter is the function of the trace that the module CaptureTrace defines. */
    ghost predicate Valid()
      reads this, stats, stats.interArrival, stats.interArrival.bins
    {
      WellTimed(trace) && At(BooksOf(trace))
    }

    constructor ()
      ensures Valid() && trace == [] && fresh(stats) && fresh(stats.interArrival) && fresh(stats.interArrival.bins)
    {
      stats := new CaptureStats();
      lastWakeUs, lastArrivalEpoch, timeoutLogCounter := 0, 0, 0;
      idleStreak, idleActive, idleStartUs, idleClosedMs := 0, false, 0, 0;
      trace, lines := [], [];
    }

    /** What a probe reads is what the trace says. */
    lemma Reported()
      requires Valid()
      ensures stats.idleEpisodes == Episodes(trace) && stats.totalIdleMs == TotalIdleMs(trace)
      ensures stats.interArrival.samples == Gaps(Window(trace)) && lines == Lines(trace)
      ensures !Idle(CurrentRun(trace)) ==> stats.currentIdleMs == 0
    {
    }

    /** The wait: timeouts are counted always and logged one in fifty, but not while idle. */
    method CountWake(w: Wake, ghost b: Books)
      requires Log(timeoutLogCounter, lines) == b.log && idleActive == Idle(b.idle.run)
      modifies this`timeoutLogCounter, this`lines, stats`eventTimeoutTotal, stats`eventWakeTotal
      ensures Log(timeoutLogCounter, lines) == Noted(b.log, Woke(w), Idle(b.idle.run))
      ensures stats.eventWakeTotal == old(stats.eventWakeTotal) + (if w.eventPath then 1 else 0)
      ensures stats.eventTimeoutTotal == old(stats.eventTimeoutTotal) + (if w.timedOut then 1 else 0)
    {
      if w.eventPath {
        stats.eventWakeTotal := stats.eventWakeTotal + 1;
      }
      if w.timedOut {
        stats.eventTimeoutTotal := stats.eventTimeoutTotal + 1;
        timeoutLogCounter := timeoutLogCounter + 1;
        if timeoutLogCounter % 50 == 1 {
          if !idleActive {
            lines := lines + [timeoutLogCounter];
          }
        }
      }
    }

    /** The idle block: a wake without data extends the run, a wake with data closes it. */
    method AccountIdle(w: Wake, ghost a: Accounts)
      requires IdleAt(a) && (a.run != [] ==> a.run[0] <= w.us)
      modifies this`idleStreak, this`idleActive, this`idleStartUs, this`idleClosedMs,
               stats`idleEpisodes, stats`currentIdleMs, stats`totalIdleMs, stats`lastIdleMs
      ensures IdleAt(Booked(a, Woke(w)))
      ensures Snapshot(a.run, w)
    {
      if w.frames == 0 && w.eventPath {
        if idleStreak == 0 {
          idleStartUs := w.us;
        }
        idleStreak := idleStreak + 1;
        var curMs := (w.us - idleStartUs) / 1000;
        if !idleActive && idleStreak >= IDLE_WAKES {
          idleActive := true;
          stats.idleEpisodes := stats.idleEpisodes + 1;
        }
        if idleActive {
          stats.currentIdleMs := curMs;
          stats.totalIdleMs := idleClosedMs + curMs;
        }
      } else if w.frames > 0 {
        if idleActive {
          var epMs := (w.us - idleStartUs) / 1000;
          idleClosedMs := idleClosedMs + epMs;
          stats.lastIdleMs := epMs;
          stats.totalIdleMs := idleClosedMs;
          stats.currentIdleMs := 0;
        }
        idleStreak, idleActive, idleStartUs := 0, false, 0;
      }
    }

    /** The inter-arrival block; `exitedIdle` was sampled before the idle block reset its state. */
    method RecordArrival(w: Wake, exitedIdle: bool, ghost a: Arrivals)
      requires ArrivalsAt(a) && w.frames > 0 && a.last <= w.us
      modifies this`lastWakeUs, this`lastArrivalEpoch, stats.interArrival, stats.interArrival.bins
      ensures ArrivalsAt(Arrived(a, Woke(w), exitedIdle))
    {
      var epoch := stats.arrivalEpoch;
      if exitedIdle {
        lastWakeUs := w.us;
        lastArrivalEpoch := epoch;
      } else if lastWakeUs != 0 && epoch == lastArrivalEpoch {
        stats.interArrival.AddUs(w.us - lastWakeUs);
        lastArrivalEpoch := epoch;
        lastWakeUs := w.us;
      } else {
        lastArrivalEpoch := epoch;
        lastWakeUs := w.us;
      }
    }

    /** The two blocks behind the drain: idle accounting, then the inter-arrival sample. */
    method Account(w: Wake, ghost idle: Accounts, ghost arrived: Arrivals)
      requires IdleAt(idle) && ArrivalsAt(arrived)
      requires (idle.run != [] ==> idle.run[0] <= w.us) && arrived.last <= w.us
      modifies this`idleStreak, this`idleActive, this`idleStartUs, this`idleClosedMs,
               this`lastWakeUs, this`lastArrivalEpoch, stats.interArrival, stats.interArrival.bins,
               stats`idleEpisodes, stats`currentIdleMs, stats`totalIdleMs, stats`lastIdleMs
      ensures IdleAt(Booked(idle, Woke(w)))
      ensures ArrivalsAt(Arrived(arrived, Woke(w), Idle(idle.run)))
      ensures Snapshot(idle.run, w)
    {
      var gotData := w.frames > 0;
      var exitedIdle := idleActive && gotData;
      AccountIdle(w, idle);
      if gotData {
        RecordArrival(w, exitedIdle, arrived);
      }
    }

    /** One iteration of the loop without device recovery, against the books `b`. */
    method Post(w: Wake, ghost b: Books, ghost next: Books)
      requires At(b) && Timely(b, w) && next == Posted(b, Woke(w))
      modifies this`idleStreak, this`idleActive, this`idleStartUs, this`idleClosedMs,
               this`lastWakeUs, this`lastArrivalEpoch, this`timeoutLogCounter, this`lines,
               stats, stats.interArrival, stats.interArrival.bins
      ensures At(next)
      ensures stats.eventWakeTotal == old(stats.eventWakeTotal) + (if w.eventPath then 1 else 0)
      ensures stats.eventTimeoutTotal == old(stats.eventTimeoutTotal) + (if w.timedOut then 1 else 0)
      ensures Snapshot(b.idle.run, w)
    {
      CountWake(w, b);
      Account(w, b.idle, b.arrivals);
    }

    /** The event joins the trace once the counters are those of the trace with it. */
    ghost method Append(e: Event, next: Books)
      requires At(next) && next == BooksOf(trace + [e]) && WellTimed(trace + [e])
      modifies this`trace
      ensures Valid() && trace == old(trace) + [e]
    {
      trace := trace + [e];
    }

    method OnWake(w: Wake)
      requires Valid() && WellTimed(trace + [Woke(w)])
      modifies this, stats, stats.interArrival, stats.interArrival.bins
      ensures Valid() && trace == old(trace) + [Woke(w)]
      ensures stats.eventWakeTotal == old(stats.eventWakeTotal) + (if w.eventPath then 1 else 0)
      ensures stats.eventTimeoutTotal == old(stats.eventTimeoutTotal) + (if w.timedOut then 1 else 0)
      ensures Snapshot(CurrentRun(old(trace)), w)
    {
      ghost var b, next := NextBooks(trace, w);
      Post(w, b, next);
      Append(Woke(w), next);
    }

    method PostReset(ghost b: Books)
      requires At(b)
      modifies stats, stats.interArrival, stats.interArrival.bins
      ensures At(Posted(b, Reset))
    {
      stats.ResetWindow();
    }

    /** A probe resets the window between two wakes. */
    method OnReset()
      requires Valid()
      modifies this, stats, stats.interArrival, stats.interArrival.bins
      ensures Valid() && trace == old(trace) + [Reset]
    {
      BooksStep(trace, Reset);
      ResetKeepsTime(trace);
      PostReset(BooksOf(trace));
      Append(Reset, BooksOf(trace + [Reset]));
    }
  }
}
