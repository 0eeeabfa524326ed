/**
 Who sends what: the start and stop messages, the streaming set and the capture thread, on top
 of the write path of one session. `streaming` is the session's membership in the set; `l2` is
 the mutex that guards the set and that the capture thread holds while it sends.
 */
module Streaming {
  import opened WriteQueues
  import opened QueueLaws
  import opened Session

  const STRAND := 0       // the message callback's Send runs as this sender
  const CAPTURE := 1      // the capture thread's SendBinary runs as this one

  /** The start handler: not running, in Send(audio_config), or about to insert into the set. */
  datatype StartPc = Idle | Sending | Inserting

  datatype System = System(s: State, streaming: bool, l2: bool, start: StartPc)

  datatype Action =
    | Core(l: Label)                    // the write path itself, without beginning a new send
    | StartReceived | SendReturned | Insert
    | StopReceived | Disconnected       // both take the mutex and erase
    | CaptureLocks(m: Message) | CaptureUnlocks

  predicate CanDo(y: System, config: Message, a: Action) {
    match a
    case Core(l) => Enabled(y.s, l) && !l.SendCheck?
    case StartReceived => y.start.Idle? && STRAND !in y.s.senders
    case SendReturned => y.start.Sending? && STRAND !in y.s.senders
    case Insert => y.start.Inserting? && !y.l2
    case StopReceived => y.start.Idle? && !y.l2
    case Disconnected => y.s.closed && !y.l2
    case CaptureLocks(m) => !y.l2 && !m.isText && CAPTURE !in y.s.senders
    case CaptureUnlocks => y.l2 && CAPTURE !in y.s.senders
  }

  function Do(y: System, config: Message, a: Action): System
    requires CanDo(y, config, a)
  {
    match a
    case Core(l) => y.(s := Apply(y.s, l))
    case StartReceived => y.(s := Apply(y.s, SendCheck(STRAND, config)), start := Sending)
    case SendReturned => y.(start := Inserting)
    case Insert => y.(streaming := true, start := Idle)
    case StopReceived => y.(streaming := false)
    case Disconnected => y.(streaming := false)
    case CaptureLocks(m) =>
      if y.streaming then y.(l2 := true, s := Apply(y.s, SendCheck(CAPTURE, m))) else y
    case CaptureUnlocks => y.(l2 := false)
  }

  predicate Possible(y: System, config: Message, actions: seq<Action>)
    decreases |actions|
  {
    actions == [] || (CanDo(y, config, actions[0]) && Possible(Do(y, config, actions[0]), config, actions[1..]))
  }

  function Perform(y: System, config: Message, actions: seq<Action>): System
    requires Possible(y, config, actions)
    decreases |actions|
  {
    if actions == [] then y else Perform(Do(y, config, actions[0]), config, actions[1..])
  }

  // ---------------------------------------------------------------- the invariant

  predicate ConfigLogged(log: seq<Logged>, config: Message, before: nat) {
    exists i: nat | i < before && i < |log| :: log[i].msg == config
  }

  /** Every accepted binary message has an accepted audio_config before it. */
  predicate Configured(log: seq<Logged>, config: Message) {
    forall j: nat | j < |log| && !log[j].msg.isText :: ConfigLogged(log, config, j)
  }

  ghost predicate Disciplined(y: System, config: Message) {
    var log := y.s.log;
    var done := y.s.closed || ConfigLogged(log, config, |log|);
    && Configured(log, config)
    && y.s.senders.Keys <= {STRAND, CAPTURE}
    && (y.streaming || y.start.Inserting? ==> done)
    && (y.start.Sending? && STRAND !in y.s.senders ==> done)
    && (STRAND in y.s.senders && y.s.senders[STRAND].Checked? ==> y.s.senders[STRAND].m == config && y.start.Sending?)
    && (STRAND in y.s.senders && !y.s.senders[STRAND].Checked? ==> ConfigLogged(log, config, |log|))
    && (CAPTURE in y.s.senders && y.s.senders[CAPTURE].Checked? ==>
         !y.s.senders[CAPTURE].m.isText && ConfigLogged(log, config, |log|))
  }

  /** Marking messages as dropped and appending one keeps what was logged where it was. */
  lemma LogGrows(log: seq<Logged>, log': seq<Logged>, config: Message, before: nat)
    requires |log| <= |log'| && forall i | 0 <= i < |log| :: log'[i].msg == log[i].msg
    requires ConfigLogged(log, config, before)
    ensures ConfigLogged(log', config, before)
  {
    var i: nat :| i < before && i < |log| && log[i].msg == config;
    assert log'[i].msg == config;
  }

  lemma DisciplineEnqueue(y: System, config: Message, t: nat)
    requires Disciplined(y, config) && config.isText && Enabled(y.s, SendEnqueue(t))
    ensures Disciplined(Do(y, config, Core(SendEnqueue(t))), config)
  {
    assert t == STRAND || t == CAPTURE;
    if Oversize(y.s.senders[t].m) {
      assert t == CAPTURE;
    } else {
      EnqueueLogs(y.s, config, t);
      SendersAfter(y.s, t);
    }
  }

  /** An accepted config, or audio behind one, keeps every accepted audio frame behind a config. */
  lemma EnqueueLogs(s: State, config: Message, t: nat)
    requires config.isText && Enabled(s, SendEnqueue(t)) && !Oversize(s.senders[t].m) && Configured(s.log, config)
    requires s.senders[t].m == config || ConfigLogged(s.log, config, |s.log|)
    ensures var log := Apply(s, SendEnqueue(t)).log; Configured(log, config) && ConfigLogged(log, config, |log|)
  {
    var m := s.senders[t].m;
    var marked := MarkOldestN(s.log, |s.taken|, m.isText, Victims(s.wq.q, m));
    MarkOldestNMarks(s.log, |s.taken|, m.isText, Victims(s.wq.q, m));
    LogAccepts(s.log, marked, config, m);
    assert Apply(s, SendEnqueue(t)).log == marked + [Logged(m, false)];
  }

  lemma SendersAfter(s: State, t: nat)
    requires Enabled(s, SendEnqueue(t))
    ensures var s' := Apply(s, SendEnqueue(t));
      && s'.closed == s.closed && s'.senders.Keys <= s.senders.Keys
      && (t in s'.senders ==> !s'.senders[t].Checked?)
      && forall u | u in s'.senders && u != t :: s'.senders[u] == s.senders[u]
  {
  }

  lemma LogAccepts(log: seq<Logged>, marked: seq<Logged>, config: Message, m: Message)
    requires |marked| == |log| && forall i | 0 <= i < |log| :: marked[i].msg == log[i].msg
    requires config.isText && Configured(log, config) && (m == config || ConfigLogged(log, config, |log|))
    ensures var log' := marked + [Logged(m, false)]; Configured(log', config) && ConfigLogged(log', config, |log'|)
  {
    var log' := marked + [Logged(m, false)];
    forall j: nat | j < |log'| && !log'[j].msg.isText
      ensures ConfigLogged(log', config, j)
    {
      LogGrows(log, log', config, if j < |log| then j else |log|);
    }
    if m == config {
      assert log'[|log|].msg == config;
    } else {
      LogGrows(log, log', config, |log|);
    }
  }

  lemma DisciplineStep(y: System, config: Message, a: Action)
    requires Disciplined(y, config) && config.isText && CanDo(y, config, a)
    ensures Disciplined(Do(y, config, a), config)
  {
    if a.Core? && a.l.SendEnqueue? {
      DisciplineEnqueue(y, config, a.l.t);
    }
  }

  lemma {:induction false} DisciplineRun(y: System, config: Message, actions: seq<Action>)
    requires Disciplined(y, config) && config.isText && Possible(y, config, actions) && Inv(y.s)
    ensures Disciplined(Perform(y, config, actions), config) && Inv(Perform(y, config, actions).s)
    decreases |actions|
  {
    if actions != [] {
      var a := actions[0];
      DisciplineStep(y, config, a);
      var s' := Do(y, config, a).s;
      if s' != y.s {
        var l :| Enabled(y.s, l) && s' == Apply(y.s, l);
        OwnershipStep(y.s, l);
        OrderStep(y.s, l);
        TimingStep(y.s, l);
      }
      DisciplineRun(Do(y, config, a), config, actions[1..]);
    }
  }

  // ---------------------------------------------------------------- configuration precedes audio

  /** Without dropped text, what is kept in order is configured in order. */
  lemma {:induction false} KeptIsConfigured(log: seq<Logged>, config: Message, j: nat)
    requires config.isText && forall i | 0 <= i < |log| && log[i].msg.isText :: !log[i].dropped
    requires Configured(log, config)
    requires j < |Kept(log)| && !Kept(log)[j].isText
    ensures exists i: nat | i < j :: Kept(log)[i] == config
    decreases |log|
  {
    var head, rest := log[0], log[1..];
    assert head.msg.isText;
    assert Kept(log) == [head.msg] + Kept(rest);
    if head.msg == config {
      assert Kept(log)[0] == config;
    } else {
      forall k: nat | k < |rest| && !rest[k].msg.isText
        ensures ConfigLogged(rest, config, k)
      {
        assert log[k + 1] == rest[k];
        assert ConfigLogged(log, config, k + 1);
        var i: nat :| i < k + 1 && i < |log| && log[i].msg == config;
        assert rest[i - 1].msg == config;
      }
      KeptIsConfigured(rest, config, j - 1);
      var i: nat :| i < j - 1 && Kept(rest)[i] == config;
      assert Kept(log)[i + 1] == config;
    }
  }

  lemma WireIsConfigured(s: State, config: Message, j: nat)
    requires Order(s) && config.isText && Configured(s.log, config)
    requires forall i | 0 <= i < |s.log| && s.log[i].msg.isText :: !s.log[i].dropped
    requires j < |s.begun| && !s.begun[j].isText
    ensures exists i: nat | i < j :: s.begun[i] == config
  {
    assert Kept(s.log) == s.begun + (Holding(s) + s.wq.q);
    KeptIsConfigured(s.log, config, j);
    var i: nat :| i < j && Kept(s.log)[i] == config;
    assert s.begun[i] == config;
  }

  /** Every audio frame whose write begins has an audio_config before it on the wire. */
  lemma ConfigPrecedesAudio(y0: System, thresholdMs: nat, config: Message, actions: seq<Action>, j: nat)
    requires config.isText && Init(y0.s, thresholdMs) && y0 == System(y0.s, false, false, Idle)
    requires Possible(y0, config, actions)
    requires var s := Perform(y0, config, actions).s;
      && (forall i | 0 <= i < |s.log| && s.log[i].msg.isText :: !s.log[i].dropped)
      && j < |s.begun| && !s.begun[j].isText
    ensures var begun := Perform(y0, config, actions).s.begun;
      exists i: nat | i < j :: begun[i] == config
  {
    InitInv(y0.s, thresholdMs);
    DisciplineRun(y0, config, actions);
    WireIsConfigured(Perform(y0, config, actions).s, config, j);
  }

  // ---------------------------------------------------------------- membership

  /** The actions that erase the session from the set. */
  predicate Erases(a: Action) { a.StopReceived? || a.Disconnected? }

  /** The last of the actions that change the set is the insertion at `i`. */
  predicate LastInsert(actions: seq<Action>, i: nat) {
    i < |actions| && actions[i].Insert? && forall j | i < j < |actions| :: !Erases(actions[j])
  }

  predicate InsertedLast(actions: seq<Action>) {
    exists i: nat | i < |actions| :: LastInsert(actions, i)
  }

  predicate NeverErased(actions: seq<Action>) {
    forall j | 0 <= j < |actions| :: !Erases(actions[j])
  }

  lemma LastInsertShift(actions: seq<Action>, i: nat)
    requires actions != []
    ensures LastInsert(actions, i + 1) <==> LastInsert(actions[1..], i)
  {
    var rest := actions[1..];
    assert forall j | 0 <= j < |rest| :: rest[j] == actions[j + 1];
    if LastInsert(rest, i) {
      forall j | i + 1 < j < |actions|
        ensures !Erases(actions[j])
      {
        assert actions[j] == rest[j - 1];
      }
    }
  }

  lemma InsertedLastOfRest(actions: seq<Action>)
    requires actions != []
    ensures NeverErased(actions) <==> !Erases(actions[0]) && NeverErased(actions[1..])
    ensures InsertedLast(actions) <==>
      InsertedLast(actions[1..]) || (actions[0].Insert? && NeverErased(actions[1..]))
  {
    var rest := actions[1..];
    if InsertedLast(rest) {
      var i: nat :| LastInsert(rest, i);
      LastInsertShift(actions, i);
    }
    if InsertedLast(actions) {
      var i: nat :| LastInsert(actions, i);
      if i > 0 {
        LastInsertShift(actions, i - 1);
      }
    }
    if actions[0].Insert? && NeverErased(rest) {
      assert LastInsert(actions, 0);
    }
  }

  /** The session is in the set exactly if an insertion came last, or it was there and nothing erased it. */
  lemma {:induction false} MemberExact(y: System, config: Message, actions: seq<Action>)
    requires Possible(y, config, actions)
    ensures Perform(y, config, actions).streaming
       <==> InsertedLast(actions) || (y.streaming && NeverErased(actions))
    decreases |actions|
  {
    if actions == [] {
      assert !InsertedLast(actions);
    } else {
      InsertedLastOfRest(actions);
      MemberExact(Do(y, config, actions[0]), config, actions[1..]);
    }
  }

  // ---------------------------------------------------------------- a stop ends the sending

  /** The capture thread is inside a send only while it holds the mutex of the set. */
  predicate Guarded(y: System) {
    CAPTURE in y.s.senders ==> y.l2
  }

  lemma GuardedStep(y: System, config: Message, a: Action)
    requires Guarded(y) && CanDo(y, config, a)
    ensures Guarded(Do(y, config, a))
  {
  }

  lemma {:induction false} GuardedRun(y: System, config: Message, actions: seq<Action>)
    requires Guarded(y) && Possible(y, config, actions)
    ensures Guarded(Perform(y, config, actions))
    decreases |actions|
  {
    if actions != [] {
      GuardedStep(y, config, actions[0]);
      GuardedRun(Do(y, config, actions[0]), config, actions[1..]);
    }
  }

  /** Outside the set, and no send of the capture thread under way. */
  predicate Stopped(y: System) { !y.streaming && CAPTURE !in y.s.senders }

  lemma StoppedStep(y: System, config: Message, a: Action)
    requires Disciplined(y, config) && config.isText && Stopped(y) && CanDo(y, config, a) && !a.Insert?
    ensures Stopped(Do(y, config, a))
    ensures var log, log' := y.s.log, Do(y, config, a).s.log;
      |log| <= |log'| && forall i | |log| <= i < |log'| :: log'[i].msg == config
  {
    if a.Core? && a.l.SendEnqueue? {
      StoppedEnqueue(y.s, config, a.l.t);
    }
  }

  lemma StoppedEnqueue(s: State, config: Message, t: nat)
    requires Enabled(s, SendEnqueue(t)) && s.senders[t].m == config && t == STRAND && CAPTURE !in s.senders
    ensures var s' := Apply(s, SendEnqueue(t));
      && |s.log| <= |s'.log| && CAPTURE !in s'.senders
      && forall i | |s.log| <= i < |s'.log| :: s'.log[i].msg == config
  {
    MarkOldestNMarks(s.log, |s.taken|, config.isText, Victims(s.wq.q, config));
  }

  /** Marking leaves the messages of a log where they are. */
  lemma LogKeeps(y: System, config: Message, a: Action, i: nat)
    requires CanDo(y, config, a) && i < |y.s.log|
    ensures i < |Do(y, config, a).s.log| && Do(y, config, a).s.log[i].msg == y.s.log[i].msg
  {
    if a.Core? && a.l.SendEnqueue? {
      var m := y.s.senders[a.l.t].m;
      MarkOldestNMarks(y.s.log, |y.s.taken|, m.isText, Victims(y.s.wq.q, m));
    }
  }

  lemma {:induction false} LogKept(y: System, config: Message, actions: seq<Action>, i: nat)
    requires Possible(y, config, actions) && i < |y.s.log|
    ensures i < |Perform(y, config, actions).s.log| && Perform(y, config, actions).s.log[i].msg == y.s.log[i].msg
    decreases |actions|
  {
    if actions != [] {
      LogKeeps(y, config, actions[0], i);
      LogKept(Do(y, config, actions[0]), config, actions[1..], i);
    }
  }

  lemma {:induction false} StoppedRun(y: System, config: Message, actions: seq<Action>, i: nat)
    requires Disciplined(y, config) && config.isText && Stopped(y) && Possible(y, config, actions)
    requires forall a | a in actions :: !a.Insert?
    requires |y.s.log| <= i < |Perform(y, config, actions).s.log|
    ensures Perform(y, config, actions).s.log[i].msg == config
    decreases |actions|
  {
    var y' := Do(y, config, actions[0]);
    StoppedStep(y, config, actions[0]);
    DisciplineStep(y, config, actions[0]);
    if i < |y'.s.log| {
      LogKept(y', config, actions[1..], i);
    } else {
      StoppedRun(y', config, actions[1..], i);
    }
  }

  /** The system in which a session has just been accepted. */
  predicate Fresh(y: System, thresholdMs: nat) {
    Init(y.s, thresholdMs) && y == System(y.s, false, false, Idle)
  }

  /**
   In every run: from a stop or a disconnect until the next insertion, no audio is accepted. What is
   logged in between are configs that start messages sent before.
   */
  lemma StopEndsSending(y0: System, thresholdMs: nat, config: Message, before: seq<Action>, stop: Action,
                        after: seq<Action>, i: nat)
    requires Fresh(y0, thresholdMs) && config.isText && Possible(y0, config, before)
    requires Erases(stop) && CanDo(Perform(y0, config, before), config, stop)
    requires Possible(Do(Perform(y0, config, before), config, stop), config, after)
    requires forall a | a in after :: !a.Insert?
    requires var y := Perform(y0, config, before);
      |y.s.log| <= i < |Perform(Do(y, config, stop), config, after).s.log|
    ensures var y' := Perform(Do(Perform(y0, config, before), config, stop), config, after);
      y'.s.log[i].msg == config && !y'.streaming
  {
    InitInv(y0.s, thresholdMs);
    DisciplineRun(y0, config, before);
    GuardedRun(y0, config, before);
    var y := Perform(y0, config, before);
    DisciplineStep(y, config, stop);
    StoppedRun(Do(y, config, stop), config, after, i);
    NoInsertion(Do(y, config, stop), config, after);
  }

  lemma NoInsertion(y: System, config: Message, actions: seq<Action>)
    requires !y.streaming && Possible(y, config, actions) && forall a | a in actions :: !a.Insert?
    ensures !Perform(y, config, actions).streaming
  {
    MemberExact(y, config, actions);
  }

  // ---------------------------------------------------------------- a start leads to sending

  /** A callback of the capture thread that finds an open session in the set queues its audio, last. */
  lemma SendsWhileStreaming(y: System, config: Message, m: Message)
    requires y.streaming && !y.s.closed && CanDo(y, config, CaptureLocks(m)) && |m.data| <= 8 * 1024 * 1024
    ensures var sending := Do(y, config, CaptureLocks(m));
      && sending.l2 && CanDo(sending, config, Core(SendEnqueue(CAPTURE)))
      && var q := Do(sending, config, Core(SendEnqueue(CAPTURE))).s.wq.q; q != [] && q[|q| - 1] == m
  {
    EnqueueExact(y.s.wq, m);
  }

  /** The capture thread holds the mutex for at most three actions of its own, and then start and stop can run. */
  lemma {:induction false} MutexIsReleased(y: System, config: Message) returns (actions: seq<Action>)
    requires y.l2
    ensures |actions| <= 3 && Possible(y, config, actions)
    ensures !Perform(y, config, actions).l2 && Perform(y, config, actions).streaming == y.streaming
    decreases if CAPTURE !in y.s.senders then 0 else if y.s.senders[CAPTURE].OwesDispatch? then 1 else 2
    ensures CAPTURE !in y.s.senders ==> |actions| <= 1
    ensures CAPTURE in y.s.senders && y.s.senders[CAPTURE].OwesDispatch? ==> |actions| <= 2
  {
    var a := if CAPTURE !in y.s.senders then CaptureUnlocks
             else if y.s.senders[CAPTURE].OwesDispatch? then Core(SendDispatch(CAPTURE))
             else Core(SendEnqueue(CAPTURE));
    if a == CaptureUnlocks {
      actions := [a];
      assert actions[1..] == [];
    } else {
      var rest := MutexIsReleased(Do(y, config, a), config);
      actions := [a] + rest;
      assert actions[1..] == rest;
    }
  }

  /** What the start handler does next. */
  function NextOfStart(y: System): Action {
    match y.start
    case Idle => StartReceived
    case Sending =>
      if STRAND !in y.s.senders then SendReturned
      else if y.s.senders[STRAND].Checked? then Core(SendEnqueue(STRAND)) else Core(SendDispatch(STRAND))
    case Inserting => Insert
  }

  /** How many actions the start handler still has to go, at most. */
  function StartLeft(y: System): nat {
    match y.start
    case Idle => 5
    case Sending => if STRAND !in y.s.senders then 2 else if y.s.senders[STRAND].Checked? then 4 else 3
    case Inserting => 1
  }

  lemma StartAdvances(y: System, config: Message)
    requires !y.l2 && (y.start.Idle? ==> STRAND !in y.s.senders)
    ensures CanDo(y, config, NextOfStart(y))
    ensures var y' := Do(y, config, NextOfStart(y));
      && !y'.l2 && y'.s.closed == y.s.closed && (CAPTURE in y'.s.senders ==> CAPTURE in y.s.senders)
      && if y.start.Inserting? then y'.streaming && y'.start.Idle? else StartLeft(y') < StartLeft(y) && !y'.start.Idle?
  {
  }

  /** The start handler on its own, to its end. */
  lemma {:induction false} StartRun(y: System, config: Message) returns (actions: seq<Action>)
    requires !y.l2 && (y.start.Idle? ==> STRAND !in y.s.senders)
    ensures Possible(y, config, actions) && |actions| <= StartLeft(y)
    ensures Perform(y, config, actions).streaming && !Perform(y, config, actions).l2
    ensures Perform(y, config, actions).s.closed == y.s.closed
    ensures CAPTURE in Perform(y, config, actions).s.senders ==> CAPTURE in y.s.senders
    ensures forall a | a in actions :: !Erases(a)
    decreases StartLeft(y)
  {
    var a := NextOfStart(y);
    var y' := Do(y, config, a);
    StartAdvances(y, config);
    if y.start.Inserting? {
      actions := [a];
      assert actions[1..] == [];
    } else {
      var rest := StartRun(y', config);
      actions := [a] + rest;
      assert actions[1..] == rest;
    }
  }

  /**
   A start message is at most five actions away from membership: whenever it can be handled, there is
   such a run, and the next callback of the capture thread then sends to the session if it is open.
   */
  lemma StartLeadsToSending(y: System, config: Message, m: Message) returns (actions: seq<Action>)
    requires CanDo(y, config, StartReceived) && !y.l2 && Guarded(y) && !y.s.closed
    requires !m.isText && |m.data| <= 8 * 1024 * 1024
    ensures |actions| <= 5 && Possible(y, config, actions)
    ensures var y' := Perform(y, config, actions);
      && y'.streaming && CanDo(y', config, CaptureLocks(m))
      && CanDo(Do(y', config, CaptureLocks(m)), config, Core(SendEnqueue(CAPTURE)))
      && var q := Do(Do(y', config, CaptureLocks(m)), config, Core(SendEnqueue(CAPTURE))).s.wq.q;
         q != [] && q[|q| - 1] == m
  {
    actions := StartRun(y, config);
    var y' := Perform(y, config, actions);
    SendsWhileStreaming(y', config, m);
  }
}
