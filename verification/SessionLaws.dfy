/** Safety, order and timing of the write path, over every run of the step system. */
module SessionLaws {
  import opened Wrappers
  import opened WriteQueues
  import opened QueueLaws
  import opened Session

  // ---------------------------------------------------------------- ownership over runs

  /** One writer at most, always; while open, the flag says whether there is one; no work is stranded. */
  lemma WriteOwnership(s0: State, thresholdMs: nat, ls: seq<Label>)
    requires Init(s0, thresholdMs) && Legal(s0, ls)
    ensures var s := Exec(s0, ls);
      && Tokens(s) <= 1
      && |s.inFlight| + |s.completions| <= 1
      && (!s.closed ==> (Tokens(s) == 1 <==> s.wq.writing))
      && (s.wq.q != [] ==> s.wq.writing)
      && (!s.closed && s.wq.q != [] ==> exists l :: Enabled(s, l) && (Advances(l) || l == Arm))
  {
    InitInv(s0, thresholdMs);
    InvRun(s0, ls);
    var s := Exec(s0, ls);
    if !s.closed && s.wq.q != [] {
      var l := NextAdvance(s);
    }
  }

  lemma {:induction false} NoWriteAfterClose(s: State, ls: seq<Label>)
    requires Inv(s) && s.closed && Legal(s, ls)
    ensures Exec(s, ls).closed && Exec(s, ls).begun == s.begun && Exec(s, ls).taken == s.taken
    decreases |ls|
  {
    if ls != [] {
      OwnershipStep(s, ls[0]);
      OrderStep(s, ls[0]);
      TimingStep(s, ls[0]);
      NoWriteAfterClose(Apply(s, ls[0]), ls[1..]);
    }
  }

  // ---------------------------------------------------------------- what closes a session, and what that stops

  /**
   An open session is closed by exactly three things: ForceClose from the read path, a write that
   failed, and a writer without progress for T_eff. No message is taken by the step that closes it.
   */
  lemma ClosedExactlyBy(s: State, l: Label)
    requires Inv(s) && !s.closed && Enabled(s, l)
    ensures Apply(s, l).closed <==>
      match l
      case Close => true
      case RunOnWrite => !s.completions[0].ok
      case TimerFires => s.wq.writing && s.now - s.wq.lastProgressMs >= TEff(s)
      case _ => false
    ensures Apply(s, l).closed ==>
      !Apply(s, l).wq.timerActive && Apply(s, l).taken == s.taken && Apply(s, l).begun == s.begun
  {
  }

  /** Closed, or waiting for the OnWrite of a failed write. */
  predicate Failed(s: State) {
    s.closed || (s.completions != [] && !s.completions[0].ok)
  }

  lemma FailedStep(s: State, l: Label)
    requires Inv(s) && Failed(s) && Enabled(s, l)
    ensures var s' := Apply(s, l);
      Failed(s') && s'.taken == s.taken && s'.begun == s.begun && (s.closed || l.RunOnWrite? ==> s'.closed)
  {
  }

  lemma {:induction false} FailedRun(s: State, ls: seq<Label>)
    requires Inv(s) && Failed(s) && Legal(s, ls)
    ensures Exec(s, ls).taken == s.taken && Exec(s, ls).begun == s.begun
    ensures s.closed || RunOnWrite in ls ==> Exec(s, ls).closed
    decreases |ls|
  {
    if ls != [] {
      FailedStep(s, ls[0]);
      InvStep(s, ls[0]);
      FailedRun(Apply(s, ls[0]), ls[1..]);
    }
  }

  /** In every run: from a write that fails on, no message is taken and no write begins; its OnWrite closes. */
  lemma FailedWriteIsLast(s0: State, thresholdMs: nat, before: seq<Label>, i: nat, after: seq<Label>)
    requires Init(s0, thresholdMs) && Legal(s0, before) && Enabled(Exec(s0, before), Finish(i, false))
    requires Legal(Apply(Exec(s0, before), Finish(i, false)), after)
    ensures var s, s' := Exec(s0, before), Exec(Apply(Exec(s0, before), Finish(i, false)), after);
      && s'.taken == s.taken && s'.begun == s.begun
      && (RunOnWrite in after ==> s'.closed)
  {
    InitInv(s0, thresholdMs);
    InvRun(s0, before);
    var s := Exec(s0, before);
    InvStep(s, Finish(i, false));
    assert s.completions == [];
    FailedRun(Apply(s, Finish(i, false)), after);
  }

  function Firings(ls: seq<Label>): nat {
    if ls == [] then 0 else (if ls[0].TimerFires? then 1 else 0) + Firings(ls[1..])
  }

  /** A closed session's timer is not armed again: it fires once more if it was waiting, and the verdict stands. */
  lemma {:induction false} TimerEnds(s: State, ls: seq<Label>)
    requires Inv(s) && s.closed && Legal(s, ls)
    ensures Firings(ls) + (if Exec(s, ls).wq.timer.Waiting? then 1 else 0) == if s.wq.timer.Waiting? then 1 else 0
    ensures Exec(s, ls).verdict == s.verdict
    decreases |ls|
  {
    if ls != [] {
      InvStep(s, ls[0]);
      TimerEnds(Apply(s, ls[0]), ls[1..]);
    }
  }

  /** The verdict itself leaves no wait behind. */
  lemma VerdictDisarms(s: State)
    requires Enabled(s, TimerFires) && !s.closed && Apply(s, TimerFires).closed
    ensures Apply(s, TimerFires).wq.timer.Unarmed? && Apply(s, TimerFires).verdict == Some(s.now)
  {
  }

  /** The senders that have passed the check of the closed flag and not yet entered the lock. */
  function PastCheck(s: State): set<nat> {
    set t | t in s.senders && s.senders[t].Checked?
  }

  lemma SendAfterClose(s: State, l: Label)
    requires s.closed && Enabled(s, l)
    ensures Apply(s, l).closed && PastCheck(Apply(s, l)) <= PastCheck(s)
    ensures |Apply(s, l).log| + |PastCheck(Apply(s, l))| <= |s.log| + |PastCheck(s)|
  {
    if l.SendEnqueue? {
      var m := s.senders[l.t].m;
      MarkOldestNMarks(s.log, |s.taken|, m.isText, Victims(s.wq.q, m));
      assert PastCheck(Apply(s, l)) == PastCheck(s) - {l.t};
    } else {
      assert PastCheck(Apply(s, l)) == PastCheck(s);
    }
  }

  /** After ForceClose only the senders already past the check can still add a message, one each. */
  lemma {:induction false} NoSendAfterClose(s: State, ls: seq<Label>)
    requires s.closed && Legal(s, ls)
    ensures |s.log| <= |Exec(s, ls).log|
    ensures |Exec(s, ls).log| + |PastCheck(Exec(s, ls))| <= |s.log| + |PastCheck(s)|
    ensures PastCheck(s) == {} ==> Messages(Exec(s, ls).log) == Messages(s.log)
    decreases |ls|
  {
    if ls != [] {
      SendAfterClose(s, ls[0]);
      LogStep(s, ls[0]);
      NoSendAfterClose(Apply(s, ls[0]), ls[1..]);
    }
  }

  // ---------------------------------------------------------------- order and conservation

  function Admitted(s: State, l: Label): seq<Message>
    requires Enabled(s, l)
  {
    if !l.SendEnqueue? then []
    else
      var m := s.senders[l.t].m;
      if m.isText || |m.data| <= 8 * 1024 * 1024 then [m] else []
  }

  /** The messages the queue accepted during a run, in the order of their critical sections. */
  function Accepted(s: State, ls: seq<Label>): seq<Message>
    requires Legal(s, ls)
    decreases |ls|
  {
    if ls == [] then [] else Admitted(s, ls[0]) + Accepted(Apply(s, ls[0]), ls[1..])
  }

  function Messages(log: seq<Logged>): seq<Message> {
    seq(|log|, i requires 0 <= i < |log| => log[i].msg)
  }

  lemma LogStep(s: State, l: Label)
    requires Enabled(s, l)
    ensures Messages(Apply(s, l).log) == Messages(s.log) + Admitted(s, l)
  {
    if Admitted(s, l) != [] {
      var m := s.senders[l.t].m;
      MarkOldestNMarks(s.log, |s.taken|, m.isText, Victims(s.wq.q, m));
    }
  }

  lemma {:induction false} LogIsAccepted(s: State, ls: seq<Label>)
    requires Legal(s, ls)
    ensures Messages(Exec(s, ls).log) == Messages(s.log) + Accepted(s, ls)
    decreases |ls|
  {
    if ls != [] {
      LogStep(s, ls[0]);
      LogIsAccepted(Apply(s, ls[0]), ls[1..]);
    }
  }

  /**
   The writes begun, then the message in hand, then the queue: together the accepted messages in
   order with exactly the dropped ones removed. Nothing is created or lost uncounted.
   */
  lemma WireOrder(s0: State, thresholdMs: nat, ls: seq<Label>)
    requires Init(s0, thresholdMs) && Legal(s0, ls)
    ensures var s := Exec(s0, ls);
      && Messages(s.log) == Accepted(s0, ls)
      && s.begun + Holding(s) + s.wq.q == Kept(s.log)
      && s.wq.enqueued + s.oversized == s.wq.dequeued + s.wq.droppedTotal + |s.wq.q|
      && s.wq.binaryCount <= 200 && s.wq.textCount <= 16
      && Bytes(OfClass(s.wq.q, false)) <= 8 * 1024 * 1024
  {
    InitInv(s0, thresholdMs);
    InvRun(s0, ls);
    LogIsAccepted(s0, ls);
    KeptAndDropped(Exec(s0, ls).log);
  }

  // ---------------------------------------------------------------- draining

  /** The actions that move the owner of the writer forward, with every write succeeding. */
  predicate Advances(l: Label) {
    l.SendDispatch? || l.RunDoWrite? || l.Take? || l.Begin? || (l.Finish? && l.ok) || l.RunOnWrite?
  }

  /** Besides these only what a quiet session does: time, the watchdog, and checks of the closed flag. */
  predicate Drains(l: Label) {
    Advances(l) || l.Tick? || l.TimerFires? || l.Arm? || l.SendCheck?
  }

  ghost predicate Healthy(s: State) {
    Inv(s) && !s.closed && forall c | c in s.completions :: c.ok
  }

  /** Actions left until ownership is given back. */
  function Work(s: State): nat {
    if s.wq.writing then 4 * |s.wq.q| + 1 + Stage(s) else 0
  }

  /** Actions left until the owner is about to take the next message. */
  function Stage(s: State): nat {
    if Kickers(s) != {} then 2
    else if s.tasks > 0 || s.completions != [] then 1
    else if s.inFlight != [] then 2
    else if s.strand.InHand? then 3
    else 0
  }

  lemma NextAdvance(s: State) returns (l: Label)
    requires Ownership(s) && !s.closed && s.wq.writing
    ensures Enabled(s, l) && (Advances(l) || (l == Arm && s.strand.Arming?))
  {
    if s.strand.Arming? {
      l := Arm;
    } else if Kickers(s) != {} {
      var t :| t in Kickers(s);
      l := SendDispatch(t);
    } else if s.tasks > 0 {
      l := RunDoWrite;
    } else if s.strand.Taking? {
      l := Take;
    } else if s.strand.InHand? {
      l := Begin;
    } else if s.inFlight != [] {
      l := Finish(0, true);
    } else {
      l := RunOnWrite;
    }
  }

  lemma DrainKeepsHealth(s: State, l: Label)
    requires Healthy(s) && Drains(l) && Enabled(s, l) && !Apply(s, l).closed
    ensures Healthy(Apply(s, l))
    ensures Apply(s, l).taken + Apply(s, l).wq.q == s.taken + s.wq.q
    ensures Apply(s, l).wq.dequeued + |Apply(s, l).wq.q| == s.wq.dequeued + |s.wq.q|
  {
    InvStep(s, l);
    DrainKeepsLog(s, l);
  }

  lemma DrainKeepsLog(s: State, l: Label)
    requires Drains(l) && Enabled(s, l) && (s.strand.Taking? || !l.Take?)
    ensures Apply(s, l).log == s.log
    ensures Healthy(s) && !Apply(s, l).closed ==> forall c | c in Apply(s, l).completions :: c.ok
  {
  }

  lemma AdvanceStep(s: State, l: Label)
    requires Healthy(s) && Advances(l) && Enabled(s, l)
    ensures Work(Apply(s, l)) == Work(s) - 1 && !Apply(s, l).closed
  {
    var s' := Apply(s, l);
    if l.SendDispatch? {
      KickersChange(s, s', l.t);
      assert l.t in Kickers(s);
    } else {
      assert Kickers(s') == Kickers(s);
    }
  }

  /** Time, the watchdog and new senders neither help nor hinder. */
  lemma StutterStep(s: State, l: Label)
    requires Healthy(s) && Drains(l) && !Advances(l) && Enabled(s, l) && !Apply(s, l).closed
    ensures Work(Apply(s, l)) == Work(s)
  {
    if l.SendCheck? {
      KickersChange(s, Apply(s, l), l.t);
    }
    assert Kickers(Apply(s, l)) == Kickers(s);
  }

  function Moves(ls: seq<Label>): nat {
    if ls == [] then 0 else (if Advances(ls[0]) then 1 else 0) + Moves(ls[1..])
  }

  /**
   With nothing more enqueued, no failure and no verdict: every action of the owner is one of
   `Work`, whatever time passes in between; when they are done everything has been written in
   order with one take per message; and until then the owner can act.
   */
  lemma {:induction false} DrainRun(s: State, ls: seq<Label>)
    requires Healthy(s) && Legal(s, ls) && !Exec(s, ls).closed && forall l | l in ls :: Drains(l)
    ensures Healthy(Exec(s, ls)) && Work(Exec(s, ls)) + Moves(ls) == Work(s)
    ensures Exec(s, ls).taken + Exec(s, ls).wq.q == s.taken + s.wq.q
    ensures Moves(ls) < Work(s) ==> exists l :: (Advances(l) || l == Arm) && Enabled(Exec(s, ls), l)
    ensures Moves(ls) == Work(s) ==>
      var s' := Exec(s, ls);
      && s'.wq.q == [] && !s'.wq.writing && Tokens(s') == 0
      && s'.begun == s.taken + s.wq.q
      && s'.wq.dequeued == s.wq.dequeued + |s.wq.q|
    decreases |ls|
  {
    if ls == [] {
      if Work(s) > 0 {
        var l := NextAdvance(s);
      }
    } else {
      var s1 := Apply(s, ls[0]);
      if s1.closed {
        StaysClosed(s1, ls[1..]);
      }
      DrainKeepsHealth(s, ls[0]);
      if Advances(ls[0]) {
        AdvanceStep(s, ls[0]);
      } else {
        StutterStep(s, ls[0]);
      }
      DrainRun(s1, ls[1..]);
    }
  }

  lemma {:induction false} StaysClosed(s: State, ls: seq<Label>)
    requires s.closed && Legal(s, ls)
    ensures Exec(s, ls).closed
    decreases |ls|
  {
    if ls != [] {
      StaysClosed(Apply(s, ls[0]), ls[1..]);
    }
  }

  // ---------------------------------------------------------------- the watchdog

  /** A write that is still in flight has made no progress for the effective threshold. */
  predicate WriteIsStuck(s: State) {
    |s.inFlight| == 1 && s.now - s.inFlight[0].since >= TEff(s)
  }

  /**
   What the stall verdict means. It comes exactly when the writer is owned and there was no
   progress for T_eff; it is right exactly when no handler that would have made progress, a
   kicked DoWrite or the OnWrite of a finished write, is still waiting to run.
   */
  lemma VerdictExact(s: State)
    requires Inv(s) && !s.closed && Enabled(s, TimerFires)
    ensures var s' := Apply(s, TimerFires);
      && (s'.verdict.Some? <==> s.wq.writing && s.now - s.wq.lastProgressMs >= TEff(s))
      && (s'.verdict.Some? <==> s'.closed)
      && (s'.verdict.Some? ==>
           (WriteIsStuck(s) <==> Kickers(s) == {} && s.tasks == 0 && s.completions == []))
  {
    if WriteIsStuck(s) || (s.wq.writing && Kickers(s) == {} && s.tasks == 0 && s.completions == []) {
      assert s.inFlight[0] in s.inFlight;
    }
  }

  /** An idle session is judged stalled when its first message is kicked just before the timer. */
  lemma IdleSessionJudged(s0: State, m: Message)
    requires Init(s0, 30000) && s0.now == 0 && !Oversize(m)
    ensures var ls := [Tick(29000), SendCheck(0, m), SendEnqueue(0), TimerFires];
      && Legal(s0, ls)
      && Exec(s0, ls).verdict == Some(29000) && Exec(s0, ls).begun == [] && Exec(s0, ls).inFlight == []
  {
    var s1 := Apply(s0, Tick(29000));
    var s2 := Apply(s1, SendCheck(0, m));
    var s3 := Apply(s2, SendEnqueue(0));
    ExecCons(s3, TimerFires, []);
    ExecCons(s2, SendEnqueue(0), [TimerFires]);
    ExecCons(s1, SendCheck(0, m), [SendEnqueue(0), TimerFires]);
    ExecCons(s0, Tick(29000), [SendCheck(0, m), SendEnqueue(0), TimerFires]);
  }

  const SENT := [SendDispatch(0), RunDoWrite]
  const WRITTEN := [Take, Begin, Tick(28999)]
  const JUDGED := [Finish(0, true), Tick(1), TimerFires]

  /** The clock is at 0 and so is the last progress; the threshold and the wait are the default ones. */
  predicate Early(s: State) {
    && s.now == 0 && !s.closed && s.inFlight == [] && s.completions == [] && s.wq.lastProgressMs == 0
    && s.wq.timerActive && s.wq.thresholdMs == 30000 && s.wq.timer == Waiting(0, 29000)
  }

  /** A write that finished in time is judged when its OnWrite is queued behind the timer handler. */
  lemma FinishedWriteJudged(s0: State, m: Message)
    requires Init(s0, 30000) && s0.now == 0 && !Oversize(m)
    ensures var ls := [SendCheck(0, m), SendEnqueue(0)] + SENT + WRITTEN + JUDGED;
      && Legal(s0, ls)
      && Exec(s0, ls).verdict == Some(29000)
      && Exec(s0, ls).inFlight == [] && Exec(s0, ls).completions == [Completion(Write(m, 0), true)]
  {
    var s1 := FirstSend(s0, m);
    var sending := [SendCheck(0, m), SendEnqueue(0)];
    var s2 := FirstTask(s1);
    var s3 := FirstWrite(s2, m);
    FirstVerdict(s3, m);
    ExecAppend(s0, sending, SENT);
    ExecAppend(s0, sending + SENT, WRITTEN);
    ExecAppend(s0, sending + SENT + WRITTEN, JUDGED);
  }

  lemma FirstSend(s: State, m: Message) returns (s': State)
    requires Init(s, 30000) && s.now == 0 && !Oversize(m)
    ensures Legal(s, [SendCheck(0, m), SendEnqueue(0)]) && s' == Exec(s, [SendCheck(0, m), SendEnqueue(0)])
    ensures Early(s') && s'.strand.Free? && s'.senders == map[0 := OwesDispatch]
    ensures s'.wq.q == [m] && s'.wq.writing
  {
    var s1 := Apply(s, SendCheck(0, m));
    s' := Apply(s1, SendEnqueue(0));
    assert DropOldestN([], m.isText, 0) + [m] == [m];
    ExecCons(s1, SendEnqueue(0), []);
    ExecCons(s, SendCheck(0, m), [SendEnqueue(0)]);
  }

  lemma FirstTask(s: State) returns (s': State)
    requires Early(s) && s.strand.Free? && s.senders == map[0 := OwesDispatch]
    ensures Legal(s, SENT) && s' == Exec(s, SENT)
    ensures Early(s') && s'.strand == Taking(false) && s'.wq == s.wq
  {
    var s1 := Apply(s, SendDispatch(0));
    s' := Apply(s1, RunDoWrite);
    ExecCons(s1, RunDoWrite, []);
    ExecCons(s, SendDispatch(0), [RunDoWrite]);
  }

  lemma FirstWrite(s: State, m: Message) returns (s': State)
    requires Early(s) && s.strand == Taking(false) && s.wq.q == [m] && s.wq.writing
    ensures Legal(s, WRITTEN) && s' == Exec(s, WRITTEN)
    ensures Early(s'.(now := 0, inFlight := [])) && s'.now == 28999 && s'.strand.Free?
    ensures s'.inFlight == [Write(m, 0)] && s'.wq.writing
  {
    var s1 := Apply(s, Take);
    var s2 := Apply(s1, Begin);
    s' := Apply(s2, Tick(28999));
    ExecCons(s2, Tick(28999), []);
    ExecCons(s1, Begin, [Tick(28999)]);
    ExecCons(s, Take, [Begin, Tick(28999)]);
  }

  lemma FirstVerdict(s: State, m: Message)
    requires Early(s.(now := 0, inFlight := [])) && s.now == 28999 && s.strand.Free?
    requires s.inFlight == [Write(m, 0)] && s.wq.writing
    ensures Legal(s, JUDGED) && Exec(s, JUDGED).verdict == Some(29000) && Exec(s, JUDGED).inFlight == []
    ensures Exec(s, JUDGED).completions == [Completion(Write(m, 0), true)]
  {
    var s1 := Apply(s, Finish(0, true));
    var s2 := Apply(s1, Tick(1));
    ExecCons(s2, TimerFires, []);
    ExecCons(s1, Tick(1), [TimerFires]);
    ExecCons(s, Finish(0, true), [Tick(1), TimerFires]);
  }

  lemma {:induction false} ExecAppend(s: State, a: seq<Label>, b: seq<Label>)
    requires Legal(s, a) && Legal(Exec(s, a), b)
    ensures Legal(s, a + b) && Exec(s, a + b) == Exec(Exec(s, a), b)
    decreases |a|
  {
    if a == [] {
      assert a + b == b;
    } else {
      ExecAppend(Apply(s, a[0]), a[1..], b);
      assert (a + b)[1..] == a[1..] + b;
    }
  }

  lemma ExecCons(s: State, l: Label, ls: seq<Label>)
    requires Enabled(s, l) && Legal(Apply(s, l), ls)
    ensures Legal(s, [l] + ls) && Exec(s, [l] + ls) == Exec(Apply(s, l), ls)
  {
    assert ([l] + ls)[1..] == ls;
  }

  /**
   Timer handlers run at most `late` after they are due, and at most `gap` passes between the two
   clock readings of one handler; `lag` of that has passed already.
   */
  predicate Prompt(s: State, ls: seq<Label>, late: nat, gap: nat, lag: nat)
    requires Legal(s, ls)
    decreases |ls|
  {
    ls == [] ||
    (&& PromptStep(s, ls[0], late, gap, lag)
     && Prompt(Apply(s, ls[0]), ls[1..], late, gap, NextLag(s, ls[0], lag)))
  }

  predicate PromptStep(s: State, l: Label, late: nat, gap: nat, lag: nat) {
    && (l.Tick? && s.wq.timerActive && s.wq.timer.Waiting? ==> s.now + l.ms <= s.wq.timer.deadline + late)
    && (l.Tick? && s.strand.Arming? ==> lag + l.ms <= gap)
  }

  /** The time since the running timer handler's first reading. */
  function NextLag(s: State, l: Label, lag: nat): nat {
    if !s.strand.Arming? then 0 else if l.Tick? then lag + l.ms else lag
  }

  function Lag(s: State, ls: seq<Label>, lag: nat): nat
    requires Legal(s, ls)
    decreases |ls|
  {
    if ls == [] then lag else Lag(Apply(s, ls[0]), ls[1..], NextLag(s, ls[0], lag))
  }

  predicate Underway(s: State) {
    s.strand.InHand? || s.inFlight != [] || s.completions != []
  }

  ghost predicate OnTime(s: State, late: nat, gap: nat, lag: nat) {
    !s.closed ==>
      && (s.wq.timer.Waiting? ==> s.now <= s.wq.timer.deadline + late)
      && (s.strand.Arming? ==> lag <= gap)
      && (Underway(s) && s.wq.timer.Waiting? ==> s.wq.timer.deadline <= s.wq.lastProgressMs + TEff(s) + gap)
      && (Underway(s) && s.strand.Arming? ==> s.now < s.wq.lastProgressMs + TEff(s) + lag)
  }

  lemma OnTimeStep(s: State, l: Label, late: nat, gap: nat, lag: nat)
    requires Inv(s) && OnTime(s, late, gap, lag) && Enabled(s, l) && PromptStep(s, l, late, gap, lag)
    ensures OnTime(Apply(s, l), late, gap, NextLag(s, l, lag))
  {
    if l.TimerFires? || l.Arm? {
      OnTimeTimer(s, l, late, gap, lag);
    } else if l.Take? || l.Begin? || l.Finish? || l.RunOnWrite? {
      OnTimeWrite(s, l, late, gap, lag);
    }
  }

  lemma OnTimeTimer(s: State, l: Label, late: nat, gap: nat, lag: nat)
    requires Inv(s) && OnTime(s, late, gap, lag) && Enabled(s, l) && (l.TimerFires? || l.Arm?)
    ensures OnTime(Apply(s, l), late, gap, NextLag(s, l, lag))
  {
  }

  lemma OnTimeWrite(s: State, l: Label, late: nat, gap: nat, lag: nat)
    requires Inv(s) && OnTime(s, late, gap, lag) && Enabled(s, l)
    requires l.Take? || l.Begin? || l.Finish? || l.RunOnWrite?
    ensures OnTime(Apply(s, l), late, gap, NextLag(s, l, lag))
  {
  }

  lemma {:induction false} PromptRun(s: State, ls: seq<Label>, late: nat, gap: nat, lag: nat)
    requires Inv(s) && OnTime(s, late, gap, lag) && Legal(s, ls) && Prompt(s, ls, late, gap, lag)
    ensures Inv(Exec(s, ls)) && OnTime(Exec(s, ls), late, gap, Lag(s, ls, lag))
    ensures Exec(s, ls).wq.thresholdMs == s.wq.thresholdMs
    decreases |ls|
  {
    if ls != [] {
      OnTimeStep(s, ls[0], late, gap, lag);
      OwnershipStep(s, ls[0]);
      OrderStep(s, ls[0]);
      TimingStep(s, ls[0]);
      PromptRun(Apply(s, ls[0]), ls[1..], late, gap, NextLag(s, ls[0], lag));
    }
  }

  predicate StuckLabel(l: Label) { !l.Finish? && !l.Close? }

  lemma StuckStep(s: State, l: Label, late: nat, gap: nat, lag: nat, w: Write)
    requires Inv(s) && OnTime(s, late, gap, lag) && Enabled(s, l) && PromptStep(s, l, late, gap, lag) && StuckLabel(l)
    requires !s.closed && s.inFlight == [w] && s.verdict == None
    ensures var s', due := Apply(s, l), w.since + TEff(s);
      match s'.verdict
      case None => !s'.closed && s'.inFlight == [w]
      case Some(v) => s'.closed && due <= v <= due + gap + late
  {
    assert w in s.inFlight;
  }

  lemma {:induction false} StuckRun(s: State, ls: seq<Label>, late: nat, gap: nat, lag: nat, w: Write)
    requires Inv(s) && OnTime(s, late, gap, lag) && Legal(s, ls) && Prompt(s, ls, late, gap, lag)
    requires !s.closed && s.inFlight == [w] && s.verdict == None
    requires forall l | l in ls :: StuckLabel(l)
    ensures var s', due := Exec(s, ls), w.since + TEff(s);
      match s'.verdict
      case None => !s'.closed && s'.inFlight == [w] && s'.now <= due + gap + late
      case Some(v) => due <= v <= due + gap + late
    decreases |ls|
  {
    if ls == [] {
      assert w in s.inFlight;
    } else {
      var l, rest := ls[0], ls[1..];
      StuckStep(s, l, late, gap, lag, w);
      OnTimeStep(s, l, late, gap, lag);
      InvStep(s, l);
      if Apply(s, l).verdict == None {
        StuckRun(Apply(s, l), rest, late, gap, NextLag(s, l, lag), w);
      } else {
        TimerEnds(Apply(s, l), rest);
      }
    }
  }

  lemma InvStep(s: State, l: Label)
    requires Inv(s) && Enabled(s, l)
    ensures Inv(Apply(s, l)) && TEff(Apply(s, l)) == TEff(s)
  {
    OwnershipStep(s, l);
    OrderStep(s, l);
    TimingStep(s, l);
  }

  /**
   A write begun at `w.since` that never completes is judged T_eff after that, late by no more than
   the timer handlers are late and slow; if that is within the grace, within the full threshold T.
   */
  lemma StuckWriteIsJudged(s0: State, thresholdMs: nat, before: seq<Label>, stuck: seq<Label>,
                           late: nat, gap: nat, w: Write)
    requires thresholdMs > 0
    requires Init(s0, thresholdMs) && Legal(s0, before) && Prompt(s0, before, late, gap, 0)
    requires var s := Exec(s0, before);
      && !s.closed && s.inFlight == [w]
      && Legal(s, stuck) && Prompt(s, stuck, late, gap, Lag(s0, before, 0))
    requires forall l | l in stuck :: StuckLabel(l)
    ensures var s', tEff := Exec(Exec(s0, before), stuck), EffectiveThresholdMs(thresholdMs);
      && tEff + Grace(thresholdMs) == thresholdMs
      && (s'.now > w.since + tEff + gap + late ==> s'.verdict.Some?)
      && (s'.verdict.Some? ==> w.since + tEff <= s'.verdict.value <= w.since + tEff + gap + late)
      && (s'.verdict.Some? && gap + late <= Grace(thresholdMs) ==> s'.verdict.value <= w.since + thresholdMs)
  {
    InitInv(s0, thresholdMs);
    PromptRun(s0, before, late, gap, 0);
    StuckRun(Exec(s0, before), stuck, late, gap, Lag(s0, before, 0), w);
  }
}
