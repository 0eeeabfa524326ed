/**
 The handlers that decide a session's life as they are written, each run without interruption:
 what they do together is the steps of the module Lifetime in a row. A handler's own reference to
 the session goes when its function object does, after it has returned (HandlerReturned).
 */
module LifetimeHandlers {
  import opened Lifetime

  /** All that ForceClose does to the session; the stall callback must not clear itself. */
  function Closed(s: Session, cause: Origin): Session {
    if s.closed then s else CutOff(s, cause == ByStall)
  }

  function CutOff(s: Session, onStack: bool): Session {
    s.(closed := true, timerActive := false, streaming := false, disconnects := s.disconnects + 1, self := false,
       onStall := s.onStall && onStack, keeper := s.keeper && onStack)
  }

  predicate Quiet(s: Session) { s.strand.Free? && s.capture.Outside? && !s.stray }

  lemma Referred(s: Session)
    requires s.self || s.onStall
    ensures Settle(s) == s
  {
  }

  lemma DisconnectStep(s: Session, cause: Origin)
    requires s.strand == Closing(cause) && s.capture.Outside? && s.self && !s.stray
    ensures Settle(s) == s && Enabled(s, Disconnect)
    ensures Apply(s, Disconnect)
         == s.(streaming := false, disconnects := s.disconnects + 1, strand := Releasing(cause))
  {
    Referred(s);
    Referred(s.(streaming := false, disconnects := s.disconnects + 1, strand := Releasing(cause)));
  }

  /** ForceClose in one go is its three steps: the session outlives the first two. */
  lemma ForceCloseIsSteps(s: Session, cause: Origin)
    requires Quiet(s) && !s.closed && s.self && s.destroyed == 0
    ensures var s1 := ForceClose(s, cause);
      && Settle(s1) == s1 && Enabled(s1, Disconnect)
      && Enabled(Apply(s1, Disconnect), Release)
      && Raw(Apply(s1, Disconnect), Release)
         == Closed(s, cause).(strand := if cause == ByStall then Posting else Free)
  {
    DisconnectStep(ForceClose(s, cause), cause);
  }

  // ---------------------------------------------------------------- whole handlers as steps

  lemma ExecOne(s: Session, l: Label)
    requires Enabled(s, l)
    ensures Legal(s, [l]) && Exec(s, [l]) == Apply(s, l)
  {
    ExecCons(s, l, []);
  }

  /** The steps of a failed read or write: `l`, and ForceClose unless it has already run. */
  function Failure(l: Label, closed: bool): seq<Label> {
    if closed then [l] else [l, Disconnect, Release]
  }

  lemma FailureIsSteps(s: Session, l: Label, fired: Session, cause: Origin)
    requires Inv(s) && Quiet(s) && Enabled(s, l) && cause != ByStall
    requires fired.closed == s.closed && (s.closed ==> Raw(s, l) == fired)
    requires !s.closed ==> Raw(s, l) == ForceClose(fired, cause) && Quiet(fired) && fired.self && fired.destroyed == 0
    ensures Legal(s, Failure(l, s.closed))
    ensures Exec(s, Failure(l, s.closed)) == Settle(Closed(fired, cause))
  {
    if s.closed {
      ExecOne(s, l);
    } else {
      ForceCloseIsSteps(fired, cause);
      ExecOne(Apply(Apply(s, l), Disconnect), Release);
      ExecCons(Apply(s, l), Disconnect, [Release]);
      ExecCons(s, l, [Disconnect, Release]);
    }
  }

  lemma ReadErrorIsSteps(s: Session)
    requires Inv(s) && Quiet(s) && Enabled(s, ReadFails)
    ensures Legal(s, Failure(ReadFails, s.closed))
    ensures Exec(s, Failure(ReadFails, s.closed)) == Settle(Closed(s.(reading := false), ByRead))
  {
    FailureIsSteps(s, ReadFails, s.(reading := false), ByRead);
  }

  lemma WriteErrorIsSteps(s: Session)
    requires Inv(s) && Quiet(s) && Enabled(s, WriteDone(false, false))
    ensures Legal(s, Failure(WriteDone(false, false), s.closed))
    ensures Exec(s, Failure(WriteDone(false, false), s.closed)) == Settle(Closed(s.(writes := s.writes - 1), ByWrite))
  {
    FailureIsSteps(s, WriteDone(false, false), s.(writes := s.writes - 1), ByWrite);
  }

  const STALL := [TimerFires(true), Disconnect, Release, PostClear]

  /** The stall callback still refers to the session, so nothing is destroyed before the posted task. */
  lemma WriteStallIsSteps(s: Session)
    requires Inv(s) && Quiet(s) && Watched(s)
    ensures Legal(s, STALL)
    ensures Exec(s, STALL)
         == Settle(Closed(s.(timer := false, timerActive := false), ByStall).(clears := s.clears + 1))
  {
    var fired := s.(timer := false, timerActive := false);
    assert Raw(s, TimerFires(true)) == ForceClose(fired, ByStall);
    ForceCloseIsSteps(fired, ByStall);
    StallPosts(fired);
    ExecCons(s, TimerFires(true), [Disconnect, Release, PostClear]);
  }

  /** From the verdict's cut to the posted task. */
  lemma StallPosts(s: Session)
    requires Quiet(s) && !s.closed && s.self && s.onStall && s.destroyed == 0
    ensures var s1, ls := ForceClose(s, ByStall), [Disconnect, Release, PostClear];
      && Settle(s1) == s1 && Legal(s1, ls)
      && Exec(s1, ls) == Settle(Closed(s, ByStall).(clears := s.clears + 1))
  {
    var s1 := ForceClose(s, ByStall);
    ForceCloseIsSteps(s, ByStall);
    var posting := Closed(s, ByStall).(strand := Posting);
    Referred(posting);
    ExecOne(posting, PostClear);
    ExecCons(Apply(s1, Disconnect), Release, [PostClear]);
    ExecCons(s1, Disconnect, [Release, PostClear]);
  }

  predicate Watched(s: Session) {
    s.timer && s.timerActive && s.onStall && !s.closed && s.destroyed == 0
  }

  /** Handlers that hold the session from outside. */
  function Pending(s: Session): nat { Bit(s.reading) + s.writes + s.tasks + s.clears }

  /** What a run of steps leaves behind a closed session: destroyed exactly when nothing is pending. */
  lemma ClosedRemains(s: Session, ls: seq<Label>)
    requires Inv(s) && Legal(s, ls) && Exec(s, ls).closed && Exec(s, ls).strand.Free?
    ensures var s' := Exec(s, ls);
      Inv(s') && s'.disconnects == 1 && !s'.self && (s'.destroyed == 1 <==> Pending(s') == 0)
  {
    InvRun(s, ls);
  }

  /** The references to a PlainWebSocketSession, as its handlers update them. */
  class SessionReferences {
    var accepting: bool
    var closed: bool
    var self: bool                     // m_self, m_wq's keeper and m_wq's stall callback
    var keeper: bool
    var onStall: bool
    var timer: bool
    var timerActive: bool
    var reading: bool
    var buffered: seq<Text>
    var writes: nat
    var tasks: nat
    var clears: nat
    var streaming: bool
    var connects: nat
    var disconnects: nat
    var destroyed: nat

    function View(): Session
      reads this
    {
      Session(accepting, closed, self, keeper, onStall, timer, timerActive, reading, buffered, writes, tasks, clears,
              Free, Outside, streaming, false, connects, disconnects, destroyed)
    }

    constructor ()
      ensures View() == FRESH
    {
      accepting, closed, self, keeper, onStall := true, false, false, false, false;
      timer, timerActive, reading, buffered := false, false, false, [];
      writes, tasks, clears, streaming := 0, 0, 0, false;
      connects, disconnects, destroyed := 0, 0, 0;
    }

    method OnSessionDisconnected()
      modifies this`streaming, this`disconnects
      ensures !streaming && disconnects == old(disconnects) + 1
    {
      streaming := false;
      disconnects := disconnects + 1;
    }

    /** A handler has returned and its own reference goes: with the last one the destructor runs. */
    method HandlerReturned()
      modifies this`closed, this`streaming, this`disconnects, this`destroyed
      ensures View() == Settle(old(View()))
    {
      var refs := Bit(accepting) + Bit(self) + Bit(keeper) + Bit(onStall) + Bit(reading) + writes + tasks + clears;
      if refs == 0 && destroyed == 0 {
        destroyed := 1;
        if !closed {
          closed := true;
          OnSessionDisconnected();
        }
      }
    }

    method OnAccept(ok: bool)
      requires accepting
      modifies this
      ensures View() == if ok then Accepted(old(View())) else old(View()).(accepting := false)
    {
      accepting := false;
      if ok {
        self := true;
        connects := connects + 1;
        StartWatchdog();
        reading := true;
      }
    }

    /** WriteQueue::Start: the keeper, the stall callback and the first wait of the timer. */
    method StartWatchdog()
      modifies this`keeper, this`onStall, this`timer, this`timerActive
      ensures keeper && onStall && timer && timerActive
    {
      keeper, onStall, timer, timerActive := true, true, true, true;
    }

    /** WriteQueue::ClearCallbacks: the references the queue holds to its session. */
    method ClearReferences()
      modifies this`onStall, this`keeper
      ensures !onStall && !keeper
    {
      onStall, keeper := false, false;
    }

    method ForceClose(cause: Origin)
      modifies this
      ensures old(closed) ==> View() == old(View())
      ensures !old(closed) ==> View() == CutOff(old(View()), cause == ByStall)
    {
      var first := !closed;
      closed := true;
      if !first { return; }
      CutReferences(cause == ByStall);
    }

    /** The steps of ForceClose behind its exchange of the closed flag. */
    method CutReferences(onStack: bool)
      requires closed
      modifies this
      ensures View() == CutOff(old(View()), onStack)
    {
      timerActive := false;
      if !onStack {
        ClearReferences();
      }
      OnSessionDisconnected();
      self := false;
    }

    method OnReadError()
      requires Enabled(View(), ReadFails)
      modifies this
      ensures View() == Closed(old(View()).(reading := false), ByRead)
    {
      reading := false;
      ForceClose(ByRead);
    }

    method OnWriteError()
      requires writes > 0
      modifies this
      ensures View() == Closed(old(View()).(writes := old(writes) - 1), ByWrite)
    {
      writes := writes - 1;
      if !closed {
        ForceClose(ByWrite);
      }
    }

    /** OnTimer's verdict: OnWriteStall runs ForceClose and leaves the clearing of the callbacks for later. */
    method OnWriteStall()
      requires timer && timerActive && onStall && !closed && destroyed == 0
      modifies this
      ensures View() == Closed(old(View()).(timer := false, timerActive := false), ByStall).(clears := old(clears) + 1)
    {
      timer, timerActive := false, false;
      ForceClose(ByStall);
      clears := clears + 1;
    }

    method ClearTask()
      requires clears > 0
      modifies this
      ensures View() == ClearCallbacks(old(View()).(clears := old(clears) - 1))
    {
      clears := clears - 1;
      ClearReferences();
    }

    // what the strand runs: a handler, and then the end of its function object

    /** A failed accept destroys the session at once; a successful one leaves it held, watched and read. */
    method CompleteAccept(ok: bool)
      requires Inv(View()) && accepting
      modifies this
      ensures Inv(View()) && Legal(old(View()), [Accept(ok)]) && View() == Exec(old(View()), [Accept(ok)])
      ensures destroyed == 1 <==> !ok
      ensures ok ==> Watched(View()) && reading && self
    {
      ghost var s := View();
      OnAccept(ok);
      HandlerReturned();
      ExecOne(s, Accept(ok));
      InvRun(s, [Accept(ok)]);
    }

    method CompleteRead()
      requires Inv(View()) && Enabled(View(), ReadFails)
      modifies this
      ensures Legal(old(View()), Failure(ReadFails, old(closed)))
      ensures View() == Exec(old(View()), Failure(ReadFails, old(closed)))
      ensures Inv(View()) && closed && disconnects == 1 && !self
      ensures destroyed == 1 <==> Pending(View()) == 0
    {
      ghost var s := View();
      OnReadError();
      HandlerReturned();
      ReadErrorIsSteps(s);
      ClosedRemains(s, Failure(ReadFails, s.closed));
    }

    method CompleteWrite()
      requires Inv(View()) && writes > 0
      modifies this
      ensures Legal(old(View()), Failure(WriteDone(false, false), old(closed)))
      ensures View() == Exec(old(View()), Failure(WriteDone(false, false), old(closed)))
      ensures Inv(View()) && closed && disconnects == 1 && !self
      ensures destroyed == 1 <==> Pending(View()) == 0
    {
      ghost var s := View();
      OnWriteError();
      HandlerReturned();
      WriteErrorIsSteps(s);
      ClosedRemains(s, Failure(WriteDone(false, false), s.closed));
    }

    /** The verdict never destroys the session: the clearing task is still to come. */
    method CompleteStall()
      requires Inv(View()) && Watched(View())
      modifies this
      ensures Legal(old(View()), STALL) && View() == Exec(old(View()), STALL)
      ensures Inv(View()) && closed && disconnects == 1 && !self
      ensures destroyed == 0 && onStall && clears > 0
    {
      ghost var s := View();
      OnWriteStall();
      HandlerReturned();
      WriteStallIsSteps(s);
      ClosedRemains(s, STALL);
    }

    /** The clearing task cuts the last cycle: the session goes with its last pending handler. */
    method CompleteClear()
      requires Inv(View()) && clears > 0
      modifies this
      ensures Legal(old(View()), [RunClear]) && View() == Exec(old(View()), [RunClear])
      ensures Inv(View()) && !onStall && !keeper
      ensures destroyed == 1 <==> Pending(View()) == 0
    {
      ghost var s := View();
      ClearTask();
      HandlerReturned();
      ExecOne(s, RunClear);
      ClosedRemains(s, [RunClear]);
    }
  }
}
