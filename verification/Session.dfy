/**
 The write path of one WebSocket session as a step system.

 Any number of sending threads, the session strand, the socket and the clock interleave; one
 label is one atomic action. A section under the queue lock is one action, because every
 access to the queue holds that lock. Strand handlers exclude each other but not the senders.
 */
module Session {
  import opened Wrappers
  import opened WriteQueues
  import opened QueueLaws

  /** Inside Send or SendBinary: past the check of the closed flag, or owing a dispatch. */
  datatype Sender = Checked(m: Message) | OwesDispatch

  /** What the strand is in the middle of, between two of its atomic actions. */
  datatype Strand =
    | Free
    | Taking(afterWrite: bool)          // DoWrite or OnWrite, about to enter the lock
    | InHand(m: Message, since: nat)    // took `m`, about to start the write
    | Arming                            // OnTimer, about to re-arm

  datatype Write = Write(m: Message, since: nat)
  datatype Completion = Completion(w: Write, ok: bool)

  datatype State = State(
    wq: Queue, closed: bool, senders: map<nat, Sender>,
    tasks: nat,                         // DoWrite tasks queued on the strand
    strand: Strand,
    inFlight: seq<Write>,               // outstanding async_write operations
    completions: seq<Completion>,       // OnWrite handlers queued on the strand
    now: nat, verdict: Option<nat>,     // when the stall callback ran
    log: seq<Logged>, taken: seq<Message>, begun: seq<Message>, oversized: nat)  // history

  datatype Label =
    | Tick(ms: nat)
    | SendCheck(t: nat, m: Message) | SendEnqueue(t: nat) | SendDispatch(t: nat)
    | RunDoWrite | Take | Begin
    | Finish(i: nat, ok: bool) | RunOnWrite
    | Close                             // ForceClose by the read path
    | TimerFires | Arm

  predicate Init(s: State, thresholdMs: nat) {
    && s.now < U64
    && s == State(Start(EMPTY.(thresholdMs := thresholdMs), s.now), false, map[], 0, Free, [], [],
                  s.now, None, [], [], [], 0)
  }

  predicate Enabled(s: State, l: Label) {
    match l
    case Tick(ms) => s.now + ms < U64
    case SendCheck(t, _) => t !in s.senders
    case SendEnqueue(t) => t in s.senders && s.senders[t].Checked?
    case SendDispatch(t) => t in s.senders && s.senders[t].OwesDispatch?
    case RunDoWrite => s.strand.Free? && s.tasks > 0
    case Take => s.strand.Taking?
    case Begin => s.strand.InHand?
    case Finish(i, _) => i < |s.inFlight|
    case RunOnWrite => s.strand.Free? && s.completions != []
    case Close => s.strand.Free?
    case TimerFires => s.strand.Free? && s.wq.timer.Waiting? && (s.wq.timerActive ==> s.now >= s.wq.timer.deadline)
    case Arm => s.strand.Arming?
  }

  /** ForceClose as the write path sees it. */
  function ForceClose(s: State): State {
    s.(closed := true, wq := Stop(s.wq))
  }

  function Enqueued(s: State, t: nat, m: Message): State {
    var (wq, kick) := Enqueue(s.wq, m);
    s.(wq := wq,
       senders := if kick then s.senders[t := OwesDispatch] else s.senders - {t},
       oversized := s.oversized + (if Oversize(m) then 1 else 0),
       log := if Oversize(m) then s.log
              else MarkOldestN(s.log, |s.taken|, m.isText, Victims(s.wq.q, m)) + [Logged(m, false)])
  }

  function TakeStep(s: State, afterWrite: bool): State {
    var (wq, next) := TakeNext(if afterWrite then OnProgress(s.wq, s.now) else s.wq, s.now);
    match next
    case None => s.(wq := wq, strand := Free)
    case Some(m) => s.(wq := wq, strand := InHand(m, s.now), taken := s.taken + [m])
  }

  function TimerStep(s: State): State {
    var fired := s.wq.(timer := Unarmed);
    if !fired.timerActive then s.(wq := fired)
    else if Stalled(fired, s.now) then ForceClose(s.(wq := fired, verdict := Some(s.now)))
    else s.(wq := fired, strand := Arming)
  }

  function OnWriteStep(s: State): State
    requires s.completions != []
  {
    var s' := s.(completions := s.completions[1..]);
    if s.closed then s'
    else if !s.completions[0].ok then ForceClose(s')
    else s'.(strand := Taking(true))
  }

  function Apply(s: State, l: Label): State
    requires Enabled(s, l)
  {
    match l
    case Tick(ms) => s.(now := s.now + ms)
    case SendCheck(t, m) => if s.closed then s else s.(senders := s.senders[t := Checked(m)])
    case SendEnqueue(t) => Enqueued(s, t, s.senders[t].m)
    case SendDispatch(t) => s.(senders := s.senders - {t}, tasks := s.tasks + 1)
    case RunDoWrite => s.(tasks := s.tasks - 1, strand := if s.closed then Free else Taking(false))
    case Take => TakeStep(s, s.strand.afterWrite)
    case Begin => s.(strand := Free, inFlight := s.inFlight + [Write(s.strand.m, s.strand.since)],
                     begun := s.begun + [s.strand.m])
    case Finish(i, ok) => s.(inFlight := s.inFlight[..i] + s.inFlight[i + 1..],
                             completions := s.completions + [Completion(s.inFlight[i], ok)])
    case RunOnWrite => OnWriteStep(s)
    case Close => if s.closed then s else ForceClose(s)
    case TimerFires => TimerStep(s)
    case Arm => s.(wq := ArmTimer(s.wq, s.now), strand := Free)
  }

  predicate Legal(s: State, ls: seq<Label>)
    decreases |ls|
  {
    ls == [] || (Enabled(s, ls[0]) && Legal(Apply(s, ls[0]), ls[1..]))
  }

  function Exec(s: State, ls: seq<Label>): State
    requires Legal(s, ls)
    decreases |ls|
  {
    if ls == [] then s else Exec(Apply(s, ls[0]), ls[1..])
  }

  // ---------------------------------------------------------------- write ownership

  function Kickers(s: State): set<nat> {
    set t | t in s.senders && s.senders[t].OwesDispatch?
  }

  /** Every place the ownership of the writer can be. */
  function Tokens(s: State): nat {
    |Kickers(s)| + s.tasks + (if s.strand.Taking? || s.strand.InHand? then 1 else 0)
      + |s.inFlight| + |s.completions|
  }

  ghost predicate Ownership(s: State) {
    && Counted(s.wq)
    && Tokens(s) <= 1
    && (Tokens(s) == 1 ==> s.wq.writing)
    && (!s.closed && s.wq.writing ==> Tokens(s) == 1)
    && (s.wq.q != [] ==> s.wq.writing)
    && (s.strand.Taking? || s.strand.InHand? ==> !s.closed)
  }

  lemma KickersChange(s: State, s': State, t: nat)
    requires forall u | u != t ::
      (u in s.senders <==> u in s'.senders) && (u in s.senders ==> s.senders[u] == s'.senders[u])
    ensures t in Kickers(s) && t !in Kickers(s') ==> |Kickers(s')| == |Kickers(s)| - 1
    ensures t !in Kickers(s) && t in Kickers(s') ==> |Kickers(s')| == |Kickers(s)| + 1
    ensures (t in Kickers(s) <==> t in Kickers(s')) ==> Kickers(s') == Kickers(s)
  {
    assert forall u | u != t :: u in Kickers(s) <==> u in Kickers(s');
    if t in Kickers(s) && t !in Kickers(s') {
      assert Kickers(s') == Kickers(s) - {t};
    } else if t !in Kickers(s) && t in Kickers(s') {
      assert Kickers(s') == Kickers(s) + {t};
    } else {
      assert Kickers(s') == Kickers(s);
    }
  }

  lemma OwnershipSend(s: State, l: Label)
    requires Ownership(s) && Enabled(s, l) && (l.SendCheck? || l.SendEnqueue? || l.SendDispatch?)
    ensures Ownership(Apply(s, l))
  {
    KickersChange(s, Apply(s, l), l.t);
  }

  lemma OwnershipStrand(s: State, l: Label)
    requires Ownership(s) && Enabled(s, l) && (l.RunDoWrite? || l.Take? || l.Begin?)
    ensures Ownership(Apply(s, l))
  {
    assert Kickers(Apply(s, l)) == Kickers(s);
  }

  lemma OwnershipWrite(s: State, l: Label)
    requires Ownership(s) && Enabled(s, l) && (l.Finish? || l.RunOnWrite?)
    ensures Ownership(Apply(s, l))
  {
    assert Kickers(Apply(s, l)) == Kickers(s);
  }

  lemma OwnershipTimer(s: State, l: Label)
    requires Ownership(s) && Enabled(s, l) && (l.Tick? || l.Close? || l.TimerFires? || l.Arm?)
    ensures Ownership(Apply(s, l))
  {
    assert Kickers(Apply(s, l)) == Kickers(s);
  }

  lemma OwnershipStep(s: State, l: Label)
    requires Ownership(s) && Enabled(s, l)
    ensures Ownership(Apply(s, l))
  {
    if l.SendCheck? || l.SendEnqueue? || l.SendDispatch? {
      OwnershipSend(s, l);
    } else if l.RunDoWrite? || l.Take? || l.Begin? {
      OwnershipStrand(s, l);
    } else if l.Finish? || l.RunOnWrite? {
      OwnershipWrite(s, l);
    } else {
      OwnershipTimer(s, l);
    }
  }

  // ---------------------------------------------------------------- wire order and counters

  function Holding(s: State): seq<Message> {
    if s.strand.InHand? then [s.strand.m] else []
  }

  ghost predicate Order(s: State) {
    && WithinBudgets(s.wq.q)
    && Kept(s.log) == s.taken + s.wq.q
    && s.taken == s.begun + Holding(s)
    && s.wq.enqueued == |s.log|
    && s.wq.dequeued == |s.taken|
    && s.wq.droppedTotal == DroppedCount(s.log) + s.oversized
  }

  lemma OrderEnqueue(s: State, m: Message)
    requires Counted(s.wq) && Order(s) && !Oversize(m)
    ensures var log := MarkOldestN(s.log, |s.taken|, m.isText, Victims(s.wq.q, m));
      && |log| == |s.log|
      && Kept(log + [Logged(m, false)]) == s.taken + Accept(s.wq, m).q
      && DroppedCount(log + [Logged(m, false)]) == DroppedCount(s.log) + Victims(s.wq.q, m)
  {
    var k := Victims(s.wq.q, m);
    VictimsAreQueued(s.wq.q, m);
    MarkNIsDropN(s.log, s.taken, s.wq.q, m.isText, k);
    MarkOldestNMarks(s.log, |s.taken|, m.isText, k);
    var log := MarkOldestN(s.log, |s.taken|, m.isText, k);
    KeptAppend(log, m);
    assert Kept(log) + [m] == s.taken + Accept(s.wq, m).q;
  }

  lemma OrderTake(s: State)
    requires Counted(s.wq) && Order(s) && s.strand.Taking?
    ensures Order(TakeStep(s, s.strand.afterWrite))
  {
    BudgetsKept(s.wq, Message(true, []), s.now);
    if s.wq.q != [] {
      TakeMoves(s);
    }
  }

  /** The front of the queue becomes the last message taken, and is in hand. */
  lemma TakeMoves(s: State)
    requires Counted(s.wq) && s.strand.Taking? && s.wq.q != []
    ensures var s' := TakeStep(s, s.strand.afterWrite);
      && s'.taken + s'.wq.q == s.taken + s.wq.q && s'.taken == s.taken + Holding(s')
      && s'.wq.q == s.wq.q[1..] && s'.wq.dequeued == s.wq.dequeued + 1
      && s'.log == s.log && s'.begun == s.begun && s'.oversized == s.oversized
      && s'.wq.enqueued == s.wq.enqueued && s'.wq.droppedTotal == s.wq.droppedTotal
  {
  }

  lemma OrderStep(s: State, l: Label)
    requires Counted(s.wq) && Order(s) && Enabled(s, l)
    ensures Order(Apply(s, l))
  {
    match l {
      case SendEnqueue(t) =>
        BudgetsKept(s.wq, s.senders[t].m, 0);
        if !Oversize(s.senders[t].m) {
          OrderEnqueue(s, s.senders[t].m);
        }
      case Take => OrderTake(s);
      case _ =>
    }
  }

  // ---------------------------------------------------------------- the watchdog's clock

  function TEff(s: State): nat { EffectiveThresholdMs(s.wq.thresholdMs) }

  ghost predicate Timing(s: State) {
    && s.wq.lastProgressMs <= s.now < U64
    && (s.wq.timerActive <==> !s.closed)
    && (!s.closed ==> (s.strand.Arming? <==> s.wq.timer.Unarmed?))
    && (s.strand.Arming? ==> !s.closed)
    && (s.wq.timer.Waiting? ==>
      && s.wq.timer.armedAt <= s.now
      && s.wq.timer.deadline <= Max(s.wq.lastProgressMs + TEff(s), s.wq.timer.armedAt + 1))
    && (s.strand.InHand? ==> s.strand.since == s.wq.lastProgressMs)
    && (forall w | w in s.inFlight :: w.since == s.wq.lastProgressMs)
    && (forall c | c in s.completions :: c.w.since == s.wq.lastProgressMs)
    && (s.verdict.Some? ==> s.closed)
  }

  lemma TimingStep(s: State, l: Label)
    requires Ownership(s) && Timing(s) && Enabled(s, l)
    ensures Timing(Apply(s, l)) && Apply(s, l).wq.thresholdMs == s.wq.thresholdMs
  {
    if l.TimerFires? || l.Arm? {
      TimingTimer(s, l);
    } else if l.Take? || l.Begin? || l.Finish? || l.RunOnWrite? {
      TimingWrite(s, l);
    }
  }

  lemma TimingTimer(s: State, l: Label)
    requires Ownership(s) && Timing(s) && Enabled(s, l) && (l.TimerFires? || l.Arm?)
    ensures Timing(Apply(s, l)) && Apply(s, l).wq.thresholdMs == s.wq.thresholdMs
  {
  }

  lemma TimingWrite(s: State, l: Label)
    requires Ownership(s) && Timing(s) && Enabled(s, l) && (l.Take? || l.Begin? || l.Finish? || l.RunOnWrite?)
    ensures Timing(Apply(s, l)) && Apply(s, l).wq.thresholdMs == s.wq.thresholdMs
  {
  }

  ghost predicate Inv(s: State) {
    Ownership(s) && Order(s) && Timing(s)
  }

  lemma InitInv(s: State, thresholdMs: nat)
    requires Init(s, thresholdMs)
    ensures Inv(s)
  {
    assert Kickers(s) == {};
  }

  lemma {:induction false} InvRun(s: State, ls: seq<Label>)
    requires Inv(s) && Legal(s, ls)
    ensures Inv(Exec(s, ls)) && Exec(s, ls).wq.thresholdMs == s.wq.thresholdMs
    decreases |ls|
  {
    if ls != [] {
      OwnershipStep(s, ls[0]);
      OrderStep(s, ls[0]);
      TimingStep(s, ls[0]);
      InvRun(Apply(s, ls[0]), ls[1..]);
    }
  }
}
