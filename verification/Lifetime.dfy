/**
 How one WebSocket session dies: who holds a strong reference to it, what ForceClose releases
 and when, and what its pending handlers do afterwards, as a step system.

 Handlers of the session strand exclude each other. The capture thread holds the mutex of the
 streaming set while it sends, so the erase inside ForceClose waits for it.
 */
module Lifetime {
  /** Whose handler runs ForceClose: a completed read, a failed write, or the stall callback. */
  datatype Origin = ByRead | ByWrite | ByStall

  datatype Strand =
    | Free
    | Inserting                     // the start handler has sent the config, about to take the mutex
    | Closing(cause: Origin)        // closed and cut off, about to leave the sessions and streaming sets
    | Releasing(cause: Origin)      // about to drop the self reference
    | Posting                       // OnWriteStall after ForceClose, about to post the clearing task

  datatype Capture = Outside | PastCheck | OwesDispatch

  datatype Text = StartText | StopText | OtherText

  datatype Session = Session(
    accepting: bool,             // the accept handler is pending (it holds a reference)
    closed: bool,
    self: bool, keeper: bool, onStall: bool,     // the references the session holds to itself
    timer: bool, timerActive: bool,              // the timer handler holds only a weak reference
    reading: bool, buffered: seq<Text>,          // one read at a time; complete messages not yet read
    writes: nat, tasks: nat, clears: nat,        // pending write handlers, DoWrite tasks, clearing tasks
    strand: Strand, capture: Capture,
    streaming: bool,             // member of the streaming set, which holds a raw pointer
    stray: bool,                 // the capture thread has called the session after its destruction
    connects: nat, disconnects: nat, destroyed: nat)

  datatype Label =
    | Accept(ok: bool)
    | Receive(text: Text)                        // the network delivers one more message
    | ReadMessage(kick: bool) | Insert | ReadFails
    | RunTask(begins: bool) | WriteDone(ok: bool, continues: bool)
    | CaptureReaches                             // SendBinary through the raw pointer, up to its closed test
    | CaptureEnqueues(kick: bool) | CaptureDispatches
    | TimerFires(stalled: bool)
    | Disconnect | Release | PostClear           // the rest of ForceClose and of OnWriteStall
    | RunClear

  const FRESH := Session(true, false, false, false, false, false, false, false, [], 0, 0, 0,
                         Free, Outside, false, false, 0, 0, 0)

  function Bit(b: bool): nat { if b then 1 else 0 }

  /** Strong references; a read or write handler that is still executing holds its own. */
  function Refs(s: Session): nat {
    Bit(s.accepting) + Bit(s.self) + Bit(s.keeper) + Bit(s.onStall) + Bit(s.reading)
      + s.writes + s.tasks + s.clears
      + Bit((s.strand.Closing? || s.strand.Releasing?) && s.strand.cause != ByStall)
  }

  /** The stall callback is being executed: its function object must not be destroyed. */
  predicate StallOnStack(s: Session) {
    s.strand.Posting? || ((s.strand.Closing? || s.strand.Releasing?) && s.strand.cause == ByStall)
  }

  /** A call of a destroyed session is where the model ends: what it does is undefined. */
  predicate Enabled(s: Session, l: Label) {
    !s.stray &&
    match l
    case Accept(_) => s.strand.Free? && s.accepting
    case Receive(_) => s.reading && !s.closed
    case ReadMessage(_) =>
      s.strand.Free? && s.reading && s.buffered != [] && (s.buffered[0].StopText? ==> s.capture.Outside?)
    case Insert => s.strand.Inserting? && s.capture.Outside?
    case ReadFails => s.strand.Free? && s.reading && (s.closed ==> s.buffered == [])
    case RunTask(_) => (s.strand.Free? || s.strand.Inserting?) && s.tasks > 0   // a dispatch may run it inline
    case WriteDone(_, _) => s.strand.Free? && s.writes > 0
    case CaptureReaches => s.capture.Outside? && s.streaming
    case CaptureEnqueues(_) => s.capture.PastCheck?
    case CaptureDispatches => s.capture.OwesDispatch?
    case TimerFires(_) => s.strand.Free? && s.timer
    case Disconnect => s.strand.Closing? && s.capture.Outside?
    case Release => s.strand.Releasing?
    case PostClear => s.strand.Posting?
    case RunClear => s.strand.Free? && s.clears > 0
  }

  function ClearCallbacks(s: Session): Session {
    s.(onStall := false, keeper := false)
  }

  /**
   ForceClose up to the socket's close; the caller's CAS found the session open or not. The stall
   callback must not clear itself, so under it the references of the queue stay.
   */
  function ForceClose(s: Session, cause: Origin): Session {
    if s.closed then s
    else s.(closed := true, timerActive := false, strand := Closing(cause),
            onStall := s.onStall && cause == ByStall, keeper := s.keeper && cause == ByStall)
  }

  /** OnRead up to the mutex of the streaming set: a stop erases under it, a start sends before it. */
  function HandleText(s: Session, t: Text, kick: bool): Session {
    match t
    case StartText => s.(strand := Inserting, tasks := s.tasks + Bit(kick && !s.closed))
    case StopText => s.(streaming := false)
    case OtherText => s
  }

  /** The capture thread asks no one whether the session still exists. */
  function Reached(s: Session): Session {
    if s.destroyed > 0 then s.(capture := PastCheck, stray := true)
    else if s.closed then s
    else s.(capture := PastCheck)
  }

  function Fires(s: Session, stalled: bool): Session {
    var fired := s.(timer := false);
    if s.destroyed > 0 || !s.timerActive then fired
    else if !stalled then s
    else if !s.onStall then fired.(timerActive := false)
    else if s.closed then fired.(timerActive := false, strand := Posting)
    else ForceClose(fired, ByStall)
  }

  function Accepted(s: Session): Session {
    s.(accepting := false, self := true, keeper := true, onStall := true, timer := true,
       timerActive := true, reading := true, connects := s.connects + 1)
  }

  function Raw(s: Session, l: Label): Session
    requires Enabled(s, l)
  {
    match l
    case Accept(ok) => if ok then Accepted(s) else s.(accepting := false)
    case Receive(t) => s.(buffered := s.buffered + [t])
    case ReadMessage(kick) => HandleText(s.(buffered := s.buffered[1..]), s.buffered[0], kick)
    case Insert => s.(streaming := true, strand := Free)
    case ReadFails => ForceClose(s.(reading := false), ByRead)
    case RunTask(begins) => s.(tasks := s.tasks - 1, writes := s.writes + Bit(begins && !s.closed))
    case WriteDone(ok, continues) =>
      var s' := s.(writes := s.writes - 1);
      if s.closed then s'
      else if ok then s'.(writes := s'.writes + Bit(continues))
      else ForceClose(s', ByWrite)
    case CaptureReaches => Reached(s)
    case CaptureEnqueues(kick) => s.(capture := if kick then OwesDispatch else Outside)
    case CaptureDispatches => s.(capture := Outside, tasks := s.tasks + 1)
    case TimerFires(stalled) => Fires(s, stalled)
    case Disconnect => s.(streaming := false, disconnects := s.disconnects + 1, strand := Releasing(s.strand.cause))
    case Release => s.(self := false, strand := if s.strand.cause == ByStall then Posting else Free)
    case PostClear => s.(clears := s.clears + 1, strand := Free)
    case RunClear => ClearCallbacks(s.(clears := s.clears - 1))
  }

  /** The last reference is gone: the destructor runs, and disconnects a session never closed. */
  function Settle(s: Session): Session {
    if Refs(s) > 0 || s.destroyed > 0 then s
    else s.(destroyed := 1, closed := true,
            disconnects := s.disconnects + Bit(!s.closed),
            streaming := s.closed && s.streaming)
  }

  function Apply(s: Session, l: Label): Session
    requires Enabled(s, l)
  {
    Settle(Raw(s, l))
  }

  predicate Legal(s: Session, ls: seq<Label>)
    decreases |ls|
  {
    ls == [] || (Enabled(s, ls[0]) && Legal(Apply(s, ls[0]), ls[1..]))
  }

  function Exec(s: Session, ls: seq<Label>): Session
    requires Legal(s, ls)
    decreases |ls|
  {
    if ls == [] then s else Exec(Apply(s, ls[0]), ls[1..])
  }

  // ---------------------------------------------------------------- the invariant

  predicate Inv(s: Session) {
    && (s.accepting ==> s == FRESH)
    && (s.destroyed == 0 <==> Refs(s) > 0)
    && s.destroyed <= 1
    && (s.destroyed == 1 ==> s.closed && s.disconnects == 1)
    // open: everything that keeps the session alive and watched is in place
    && (!s.closed && !s.accepting ==>
      s.self && s.keeper && s.onStall && s.reading && s.timer && s.timerActive && AtRest(s) && s.disconnects == 0)
    && (s.strand.Inserting? ==> s.reading)
    // closed: cut off, and disconnected once ForceClose is past that point
    && (s.closed ==> !s.timerActive)
    && (s.strand.Closing? ==> s.closed && s.self && s.disconnects == 0 && (s.reading <==> s.strand.cause != ByRead))
    && (s.strand.Releasing? ==> s.closed && s.self && s.disconnects == 1)
    && (s.strand.Posting? ==> s.closed && !s.self && s.disconnects == 1)
    && (s.closed && AtRest(s) ==> !s.self && s.disconnects == 1)
    // the cycle through the stall callback is cut, or a clearing task is on its way
    && (StallOnStack(s) ==> s.onStall && s.keeper)
    && (s.closed && s.onStall ==> StallOnStack(s) || s.clears > 0)
    && (s.closed && s.keeper ==> s.onStall)
    && (s.clears > 0 ==> s.closed && AtRest(s))
    // the capture thread is inside only while ForceClose has not passed the mutex, or astray
    && (!s.stray && !s.capture.Outside? ==> s.self && s.disconnects == 0)
    && (s.stray ==> s.destroyed == 1 && s.streaming)
    && (s.streaming && s.disconnects == 0 ==> s.self)
  }

  /** Not in the middle of ForceClose. */
  predicate AtRest(s: Session) { s.strand.Free? || s.strand.Inserting? }

  lemma InvAccept(s: Session, l: Label)
    requires Inv(s) && Enabled(s, l) && l.Accept?
    ensures Inv(Apply(s, l))
  {
  }

  lemma InvReceive(s: Session, l: Label)
    requires Inv(s) && Enabled(s, l) && l.Receive?
    ensures Inv(Apply(s, l))
  {
  }

  lemma InvReadMessage(s: Session, l: Label)
    requires Inv(s) && Enabled(s, l) && l.ReadMessage?
    ensures Inv(Apply(s, l))
  {
  }

  lemma InvInsert(s: Session, l: Label)
    requires Inv(s) && Enabled(s, l) && l.Insert?
    ensures Inv(Apply(s, l))
  {
  }

  lemma InvRunTask(s: Session, l: Label)
    requires Inv(s) && Enabled(s, l) && l.RunTask?
    ensures Inv(Apply(s, l))
  {
  }

  lemma InvReadFails(s: Session, l: Label)
    requires Inv(s) && Enabled(s, l) && l.ReadFails?
    ensures Inv(Apply(s, l))
  {
  }

  lemma InvWriteDone(s: Session, l: Label)
    requires Inv(s) && Enabled(s, l) && l.WriteDone?
    ensures Inv(Apply(s, l))
  {
  }

  lemma InvTimerFires(s: Session, l: Label)
    requires Inv(s) && Enabled(s, l) && l.TimerFires?
    ensures Inv(Apply(s, l))
  {
  }

  lemma InvCapture(s: Session, l: Label)
    requires Inv(s) && Enabled(s, l) && (l.CaptureReaches? || l.CaptureEnqueues? || l.CaptureDispatches?)
    ensures Inv(Apply(s, l))
  {
  }

  lemma InvDisconnect(s: Session, l: Label)
    requires Inv(s) && Enabled(s, l) && l.Disconnect?
    ensures Inv(Apply(s, l))
  {
  }

  lemma InvRelease(s: Session, l: Label)
    requires Inv(s) && Enabled(s, l) && l.Release?
    ensures Inv(Apply(s, l))
  {
  }

  lemma InvPostClear(s: Session, l: Label)
    requires Inv(s) && Enabled(s, l) && l.PostClear?
    ensures Inv(Apply(s, l))
  {
  }

  lemma InvRunClear(s: Session, l: Label)
    requires Inv(s) && Enabled(s, l) && l.RunClear?
    ensures Inv(Apply(s, l))
  {
    var s1 := Raw(s, l);
    assert s1 == s.(clears := s.clears - 1, onStall := false, keeper := false);
    if Refs(s1) > 0 {
      assert Settle(s1) == s1;
    } else {
      assert Settle(s1) == s1.(destroyed := 1);
    }
  }

  lemma InvStep(s: Session, l: Label)
    requires Inv(s) && Enabled(s, l)
    ensures Inv(Apply(s, l))
  {
    match l {
      case Accept(_) => InvAccept(s, l);
      case Receive(_) => InvReceive(s, l);
      case ReadMessage(_) => InvReadMessage(s, l);
      case Insert => InvInsert(s, l);
      case ReadFails => InvReadFails(s, l);
      case RunTask(_) => InvRunTask(s, l);
      case WriteDone(_, _) => InvWriteDone(s, l);
      case TimerFires(_) => InvTimerFires(s, l);
      case Disconnect => InvDisconnect(s, l);
      case Release => InvRelease(s, l);
      case PostClear => InvPostClear(s, l);
      case RunClear => InvRunClear(s, l);
      case _ => InvCapture(s, l);
    }
  }

  lemma {:induction false} InvRun(s: Session, ls: seq<Label>)
    requires Inv(s) && Legal(s, ls)
    ensures Inv(Exec(s, ls))
    decreases |ls|
  {
    if ls != [] {
      InvStep(s, ls[0]);
      InvRun(Apply(s, ls[0]), ls[1..]);
    }
  }

  // ---------------------------------------------------------------- handlers, messages and callbacks

  /** A step that leaves a DoWrite task to run, now or after the capture thread's dispatch. */
  function Kicks(s: Session, l: Label): nat
    requires Enabled(s, l)
  {
    match l
    case ReadMessage(kick) => Bit(kick && !s.closed && s.buffered[0].StartText?)
    case CaptureEnqueues(kick) => Bit(kick)
    case _ => 0
  }

  /** A step that begins a write: only an open session does. */
  function Begins(s: Session, l: Label): nat
    requires Enabled(s, l)
  {
    match l
    case RunTask(begins) => Bit(begins && !s.closed)
    case WriteDone(ok, continues) => Bit(ok && continues && !s.closed)
    case _ => 0
  }

  /** The message a step handles, and the one it receives. */
  function Handles(s: Session, l: Label): seq<Text>
    requires Enabled(s, l)
  {
    if l.ReadMessage? then [s.buffered[0]] else []
  }

  function Receives(l: Label): seq<Text> {
    if l.Receive? then [l.text] else []
  }

  /** What a run has added to each account. */
  datatype Flow = Flow(kicked: nat, ran: nat, begun: nat, completed: nat, received: seq<Text>, handled: seq<Text>)

  function FlowOf(s: Session, ls: seq<Label>): Flow
    requires Legal(s, ls)
    decreases |ls|
  {
    if ls == [] then Flow(0, 0, 0, 0, [], [])
    else
      var l, rest := ls[0], FlowOf(Apply(s, ls[0]), ls[1..]);
      Flow(Kicks(s, l) + rest.kicked, Bit(l.RunTask?) + rest.ran, Begins(s, l) + rest.begun,
           Bit(l.WriteDone?) + rest.completed, Receives(l) + rest.received, Handles(s, l) + rest.handled)
  }

  /** How one step changes what the accounts are about. */
  predicate Balanced(s: Session, l: Label, s': Session)
    requires Enabled(s, l)
  {
    && s'.tasks + Bit(s'.capture.OwesDispatch?) + Bit(l.RunTask?)
       == s.tasks + Bit(s.capture.OwesDispatch?) + Kicks(s, l)
    && s'.writes + Bit(l.WriteDone?) == s.writes + Begins(s, l)
    && (s.closed ==> s'.closed)
    && (!l.Accept? ==> s'.connects == s.connects && s'.accepting == s.accepting)
    && s'.buffered == if l.Receive? then s.buffered + [l.text]
                      else if l.ReadMessage? then s.buffered[1..] else s.buffered
  }

  lemma BalancedStrand(s: Session, l: Label)
    requires Enabled(s, l) && (l.Insert? || l.Disconnect? || l.Release? || l.PostClear? || l.RunClear?)
    ensures Balanced(s, l, Raw(s, l))
  {
  }

  lemma BalancedHandlers(s: Session, l: Label)
    requires Enabled(s, l)
    requires l.Receive? || l.ReadFails? || l.RunTask? || l.CaptureEnqueues? || l.CaptureDispatches?
    ensures Balanced(s, l, Raw(s, l))
  {
  }

  lemma BalancedStart(s: Session, l: Label)
    requires Enabled(s, l) && l.ReadMessage? && s.buffered[0].StartText?
    ensures Balanced(s, l, Raw(s, l))
  {
  }

  lemma BalancedText(s: Session, l: Label)
    requires Enabled(s, l) && l.ReadMessage? && !s.buffered[0].StartText?
    ensures Balanced(s, l, Raw(s, l))
  {
  }

  lemma BalancedDone(s: Session, l: Label)
    requires Enabled(s, l) && l.WriteDone? && (s.closed || l.ok)
    ensures Balanced(s, l, Raw(s, l))
  {
  }

  lemma BalancedFailure(s: Session, l: Label)
    requires Enabled(s, l) && l.WriteDone? && !s.closed && !l.ok
    ensures Balanced(s, l, Raw(s, l))
  {
  }

  lemma BalancedFires(s: Session, l: Label)
    requires Enabled(s, l) && l.TimerFires?
    ensures Balanced(s, l, Raw(s, l))
  {
  }

  lemma BalancedReaches(s: Session, l: Label)
    requires Enabled(s, l) && l.CaptureReaches?
    ensures Balanced(s, l, Raw(s, l))
  {
    if s.destroyed > 0 {
      assert Raw(s, l) == s.(capture := PastCheck, stray := true);
    } else if s.closed {
      assert Raw(s, l) == s;
    } else {
      assert Raw(s, l) == s.(capture := PastCheck);
    }
  }

  lemma BalancedAccept(s: Session, l: Label)
    requires Enabled(s, l) && l.Accept?
    ensures Balanced(s, l, Raw(s, l))
  {
    if l.ok {
      assert Raw(s, l) == Accepted(s);
    } else {
      assert Raw(s, l) == s.(accepting := false);
    }
  }

  lemma BalancedSettle(s: Session, l: Label, s': Session)
    requires Enabled(s, l) && Balanced(s, l, s')
    ensures Balanced(s, l, Settle(s'))
  {
    if Refs(s') > 0 || s'.destroyed > 0 {
      assert Settle(s') == s';
    } else {
      assert Settle(s') == s'.(destroyed := 1, closed := true, disconnects := s'.disconnects + Bit(!s'.closed),
                               streaming := s'.closed && s'.streaming);
    }
  }

  lemma StepBalance(s: Session, l: Label)
    requires Enabled(s, l)
    ensures Balanced(s, l, Apply(s, l))
  {
    match l {
      case ReadMessage(_) => if s.buffered[0].StartText? { BalancedStart(s, l); } else { BalancedText(s, l); }
      case WriteDone(ok, _) => if s.closed || ok { BalancedDone(s, l); } else { BalancedFailure(s, l); }
      case TimerFires(_) => BalancedFires(s, l);
      case CaptureReaches => BalancedReaches(s, l);
      case Accept(_) => BalancedAccept(s, l);
      case Insert => BalancedStrand(s, l);
      case Disconnect => BalancedStrand(s, l);
      case Release => BalancedStrand(s, l);
      case PostClear => BalancedStrand(s, l);
      case RunClear => BalancedStrand(s, l);
      case _ => BalancedHandlers(s, l);
    }
    BalancedSettle(s, l, Raw(s, l));
  }

  lemma InOrder(s: Session, l: Label, s': Session)
    requires Enabled(s, l) && Balanced(s, l, s')
    ensures s.buffered + Receives(l) == Handles(s, l) + s'.buffered
  {
  }

  lemma Reassociate(a: seq<Text>, b: seq<Text>, c: seq<Text>)
    ensures (a + b) + c == a + (b + c)
  {
  }

  /**
   Over every run nothing is lost: each kick's task has run or is still pending, each write begun has
   completed or is in flight, and the messages are handled in the order in which they were received.
   */
  lemma {:induction false} HandlersBalance(s: Session, ls: seq<Label>)
    requires Legal(s, ls)
    ensures var s', flow := Exec(s, ls), FlowOf(s, ls);
      && s'.tasks + Bit(s'.capture.OwesDispatch?) + flow.ran == s.tasks + Bit(s.capture.OwesDispatch?) + flow.kicked
      && s'.writes + flow.completed == s.writes + flow.begun
      && s.buffered + flow.received == flow.handled + s'.buffered
    decreases |ls|
  {
    if ls != [] {
      var l, s1, rest := ls[0], Apply(s, ls[0]), FlowOf(Apply(s, ls[0]), ls[1..]);
      StepBalance(s, l);
      InOrder(s, l, s1);
      HandlersBalance(s1, ls[1..]);
      Reassociate(s.buffered, Receives(l), rest.received);
      Reassociate(Handles(s, l), s1.buffered, rest.received);
      Reassociate(Handles(s, l), rest.handled, Exec(s, ls).buffered);
    }
  }

  /** A timer handler closes a session only with a verdict, an active timer and a callback to call. */
  lemma TimerCloses(s: Session, stalled: bool)
    requires Enabled(s, TimerFires(stalled)) && !s.closed
    ensures Raw(s, TimerFires(stalled)).closed <==> stalled && s.timerActive && s.onStall && s.destroyed == 0
  {
  }

  /** A callback of the capture thread gets into the send of an open session, or of a destroyed one. */
  lemma CallbackExact(s: Session)
    requires Inv(s) && Enabled(s, CaptureReaches)
    ensures var s' := Apply(s, CaptureReaches);
      && (s'.capture.PastCheck? <==> !s.closed || s.destroyed == 1)
      && (s'.stray <==> s.destroyed == 1)
      && (s.closed && s.destroyed == 0 ==> s' == s)
  {
  }

  /** The connect callback comes once, with the accept. */
  predicate Connected(s: Session) {
    && s.connects <= 1
    && (s.accepting ==> s.connects == 0)
    && (!s.closed && !s.accepting ==> s.connects == 1)
  }

  lemma ConnectStep(s: Session, l: Label)
    requires Inv(s) && Connected(s) && Enabled(s, l)
    ensures Connected(Apply(s, l))
  {
    StepBalance(s, l);
    if l.Accept? {
      ConnectAccept(s, l.ok);
    }
  }

  lemma ConnectAccept(s: Session, ok: bool)
    requires Inv(s) && Connected(s) && Enabled(s, Accept(ok))
    ensures Connected(Apply(s, Accept(ok)))
  {
  }

  lemma {:induction false} ConnectRun(s: Session, ls: seq<Label>)
    requires Inv(s) && Connected(s) && Legal(s, ls)
    ensures Connected(Exec(s, ls))
    decreases |ls|
  {
    if ls != [] {
      ConnectStep(s, ls[0]);
      InvStep(s, ls[0]);
      ConnectRun(Apply(s, ls[0]), ls[1..]);
    }
  }

  // ---------------------------------------------------------------- what holds over every run

  /**
   At any time: destroyed and disconnected at most once, in step; nothing refers to a destroyed
   session but the weak timer; the stall callback is never cleared while it runs; the capture
   thread is never inside a send past the disconnect, unless it has called a destroyed session.
   When that happens is StrayExact.
   */
  lemma Safety(ls: seq<Label>)
    requires Legal(FRESH, ls)
    ensures var s := Exec(FRESH, ls);
      && s.destroyed <= 1 && s.disconnects <= 1 && s.connects <= 1
      && (!s.closed ==> s.disconnects == 0 && (s.connects == 1 <==> !s.accepting))
      && (s.destroyed == 1 ==> s.disconnects == 1 && Refs(s) == 0 && !s.reading && s.writes == s.tasks == s.clears == 0)
      && (StallOnStack(s) ==> s.onStall && s.destroyed == 0)
      && (!s.stray && !s.capture.Outside? ==> s.destroyed == 0 && s.disconnects == 0)
      && (s.stray ==> s.destroyed == 1 && s.streaming)
      && (s.closed && AtRest(s) ==> s.disconnects == 1)
  {
    InvRun(FRESH, ls);
    ConnectRun(FRESH, ls);
  }

  /** Everything a closed session still has to go through, weighted. */
  function Remaining(s: Session): nat {
    2 * |s.buffered| + Bit(s.reading) + s.writes + s.tasks + s.clears + Bit(s.timer)
      + (match s.strand
         case Free => 0
         case Inserting => 1
         case Closing(_) => 4
         case Releasing(_) => 3
         case Posting => 2)
      + (match s.capture
         case Outside => 0
         case PastCheck => 3
         case OwesDispatch => 2)
  }

  lemma ClosedRaw(s: Session, l: Label)
    requires Inv(s) && s.closed && Enabled(s, l)
    ensures Raw(s, l).closed
    ensures !l.CaptureReaches? ==> Remaining(Raw(s, l)) < Remaining(s) && !Raw(s, l).stray
  {
    match l {
      case ReadMessage(_) => ClosedReads(s, l);
      case ReadFails => ClosedReads(s, l);
      case RunTask(_) => ClosedWrites(s, l);
      case WriteDone(_, _) => ClosedWrites(s, l);
      case TimerFires(_) => ClosedWrites(s, l);
      case CaptureReaches =>
      case CaptureEnqueues(_) => ClosedCapture(s, l);
      case CaptureDispatches => ClosedCapture(s, l);
      case _ => ClosedStrand(s, l);
    }
  }

  lemma ClosedReads(s: Session, l: Label)
    requires Inv(s) && s.closed && Enabled(s, l) && (l.ReadMessage? || l.ReadFails?)
    ensures Raw(s, l).closed && Remaining(Raw(s, l)) < Remaining(s) && !Raw(s, l).stray
  {
  }

  lemma ClosedWrites(s: Session, l: Label)
    requires Inv(s) && s.closed && Enabled(s, l) && (l.RunTask? || l.WriteDone? || l.TimerFires?)
    ensures Raw(s, l).closed && Remaining(Raw(s, l)) < Remaining(s) && !Raw(s, l).stray
  {
  }

  lemma ClosedCapture(s: Session, l: Label)
    requires Inv(s) && s.closed && Enabled(s, l) && (l.CaptureEnqueues? || l.CaptureDispatches?)
    ensures Raw(s, l).closed && Remaining(Raw(s, l)) < Remaining(s) && !Raw(s, l).stray
  {
  }

  lemma ClosedStrand(s: Session, l: Label)
    requires Inv(s) && s.closed && Enabled(s, l)
    requires l.Accept? || l.Receive? || l.Insert? || l.Disconnect? || l.Release?
      || l.PostClear? || l.RunClear?
    ensures Raw(s, l).closed && Remaining(Raw(s, l)) < Remaining(s) && !Raw(s, l).stray
  {
  }

  lemma SettleRemains(s: Session)
    requires s.closed
    ensures Remaining(Settle(s)) == Remaining(s) && Settle(s).stray == s.stray && Settle(s).closed
  {
  }

  /** Every step brings the end closer, but for callbacks of the capture thread that find it closed. */
  lemma ClosedStep(s: Session, l: Label)
    requires Inv(s) && s.closed && Enabled(s, l)
    ensures Apply(s, l).closed
    ensures !l.CaptureReaches? ==> Remaining(Apply(s, l)) < Remaining(s) && !Apply(s, l).stray
    ensures l.CaptureReaches? && !Apply(s, l).stray ==> Apply(s, l) == s
  {
    ClosedRaw(s, l);
    if l.CaptureReaches? {
      assert Settle(s) == s;
    } else {
      SettleRemains(Raw(s, l));
    }
  }

  lemma ClosedProgress(s: Session) returns (l: Label)
    requires Inv(s) && s.closed && s.destroyed == 0
    ensures Enabled(s, l) && !l.CaptureReaches?
  {
    if s.capture.PastCheck? {
      l := CaptureEnqueues(false);
    } else if s.capture.OwesDispatch? {
      l := CaptureDispatches;
    } else if s.strand.Inserting? {
      l := Insert;
    } else if s.strand.Closing? {
      l := Disconnect;
    } else if s.strand.Releasing? {
      l := Release;
    } else if s.strand.Posting? {
      l := PostClear;
    } else if s.clears > 0 {
      l := RunClear;
    } else if s.writes > 0 {
      l := WriteDone(false, false);
    } else if s.tasks > 0 {
      l := RunTask(false);
    } else if s.buffered != [] {
      l := ReadMessage(false);
    } else {
      l := ReadFails;
    }
  }

  /** The steps of a run other than callbacks of the capture thread, which come for ever. */
  function Moves(ls: seq<Label>): nat {
    if ls == [] then 0 else (if ls[0].CaptureReaches? then 0 else 1) + Moves(ls[1..])
  }

  /**
   From ForceClose for whatever reason, every run has finitely many steps of its own, and where
   none is left the session is destroyed, once, having been disconnected once, with no reference left.
   */
  lemma {:induction false} Death(s: Session, ls: seq<Label>)
    requires Inv(s) && s.closed && Legal(s, ls)
    ensures Moves(ls) <= Remaining(s)
    ensures var s' := Exec(s, ls);
      (forall l :: Enabled(s', l) ==> l.CaptureReaches?) ==>
        s'.destroyed == 1 && s'.disconnects == 1 && Refs(s') == 0 && (s'.stray || !s'.timer)
    decreases |ls|
  {
    if ls == [] {
      AtTheEnd(s);
    } else {
      ClosedStep(s, ls[0]);
      InvStep(s, ls[0]);
      if Apply(s, ls[0]).stray {
        StrayEnds(Apply(s, ls[0]), ls[1..]);
      }
      Death(Apply(s, ls[0]), ls[1..]);
    }
  }

  lemma AtTheEnd(s: Session)
    requires Inv(s) && s.closed
    ensures (forall l :: Enabled(s, l) ==> l.CaptureReaches?) ==>
      s.destroyed == 1 && s.disconnects == 1 && Refs(s) == 0 && (s.stray || !s.timer)
  {
    if s.destroyed == 0 {
      var l := ClosedProgress(s);
    } else if s.timer && !s.stray {
      assert Enabled(s, TimerFires(false));
    }
  }

  lemma StrayEnds(s: Session, ls: seq<Label>)
    requires s.stray && Legal(s, ls)
    ensures ls == []
  {
  }

  // ---------------------------------------------------------------- the streaming set after death

  /** No start and no stop. */
  predicate Plain(ts: seq<Text>) { forall i | 0 <= i < |ts| :: ts[i].OtherText? }

  /** The last start or stop among the messages is a start. */
  predicate EndsStarted(ts: seq<Text>) {
    exists i | 0 <= i < |ts| :: ts[i].StartText? && Plain(ts[i + 1..])
  }

  lemma EndsCons(ts: seq<Text>)
    requires ts != []
    ensures EndsStarted(ts) <==> EndsStarted(ts[1..]) || (ts[0].StartText? && Plain(ts[1..]))
    ensures Plain(ts) <==> ts[0].OtherText? && Plain(ts[1..])
  {
    if EndsStarted(ts) {
      var i :| 0 <= i < |ts| && ts[i].StartText? && Plain(ts[i + 1..]);
      if i > 0 {
        assert ts[1..][i - 1] == ts[i] && ts[1..][i..] == ts[i + 1..];
      }
    }
    if EndsStarted(ts[1..]) {
      var i :| 0 <= i < |ts[1..]| && ts[1..][i].StartText? && Plain(ts[1..][i + 1..]);
      assert ts[i + 1].StartText? && ts[i + 2..] == ts[1..][i + 1..];
    }
    if Plain(ts) {
      assert forall i | 0 <= i < |ts[1..]| :: ts[1..][i] == ts[i + 1];
    }
    if ts[0].OtherText? && Plain(ts[1..]) {
      assert forall i | 1 <= i < |ts| :: ts[i] == ts[1..][i - 1];
    }
  }

  /** Whether a closed session will be in the set once everything it still reads has been handled. */
  predicate WillStay(s: Session) {
    if s.strand.Closing? then s.reading && EndsStarted(s.buffered)
    else if s.reading then EndsStarted(s.buffered) || ((s.streaming || s.strand.Inserting?) && Plain(s.buffered))
    else s.streaming
  }

  lemma WillStayRaw(s: Session, l: Label)
    requires Inv(s) && s.closed && Enabled(s, l)
    ensures WillStay(Raw(s, l)) == WillStay(s)
  {
    match l {
      case ReadMessage(_) => EndsCons(s.buffered);
      case ReadFails => assert !EndsStarted([]) && Plain([]);
      case _ =>
    }
  }

  lemma WillStayStep(s: Session, l: Label)
    requires Inv(s) && s.closed && Enabled(s, l)
    ensures Apply(s, l).closed && WillStay(Apply(s, l)) == WillStay(s)
  {
    WillStayRaw(s, l);
    ClosedRaw(s, l);
    SettleKeeps(Raw(s, l));
  }

  lemma SettleKeeps(s: Session)
    requires s.closed
    ensures var s' := Settle(s);
      && s'.closed && s'.strand == s.strand && s'.reading == s.reading
      && s'.buffered == s.buffered && s'.streaming == s.streaming
  {
    if Refs(s) > 0 || s.destroyed > 0 {
      assert Settle(s) == s;
    }
  }

  lemma {:induction false} WillStayRun(s: Session, ls: seq<Label>)
    requires Inv(s) && s.closed && Legal(s, ls)
    ensures Exec(s, ls).closed && WillStay(Exec(s, ls)) == WillStay(s)
    decreases |ls|
  {
    if ls != [] {
      WillStayStep(s, ls[0]);
      InvStep(s, ls[0]);
      WillStayRun(Apply(s, ls[0]), ls[1..]);
    }
  }

  /**
   The streaming set holds a raw pointer that outlives the session exactly when ForceClose did not
   come from the failed read and the last start or stop still unread at that moment was a start.
   */
  lemma StaleMemberExact(s: Session, ls: seq<Label>)
    requires Inv(s) && s.strand.Closing? && Legal(s, ls) && Exec(s, ls).destroyed == 1
    ensures Exec(s, ls).streaming <==> s.strand.cause != ByRead && EndsStarted(s.buffered)
  {
    WillStayRun(s, ls);
    InvRun(s, ls);
  }

  /** A run to destruction, whatever is still pending. */
  lemma {:induction false} RunsOut(s: Session) returns (ls: seq<Label>)
    requires Inv(s) && s.closed && !s.stray
    ensures Legal(s, ls) && Exec(s, ls).destroyed == 1 && !Exec(s, ls).stray
    decreases Remaining(s)
  {
    if s.destroyed == 1 {
      ls := [];
    } else {
      var l := ClosedProgress(s);
      ClosedStep(s, l);
      InvStep(s, l);
      var rest := RunsOut(Apply(s, l));
      ls := [l] + rest;
      ExecCons(s, l, rest);
    }
  }

  /** Who strays has been kept in the set. */
  lemma StrayStayed(s: Session, ls: seq<Label>)
    requires Inv(s) && s.closed && Legal(s, ls) && Exec(s, ls).stray
    ensures WillStay(s)
  {
    WillStayRun(s, ls);
    InvRun(s, ls);
  }

  /**
   The capture thread can call the destroyed session exactly when ForceClose did not come from the
   failed read and the last start or stop still unread at that moment was a start.
   */
  lemma StrayExact(s: Session)
    requires Inv(s) && s.strand.Closing? && !s.stray
    ensures (exists ls :: Legal(s, ls) && Exec(s, ls).stray) <==> s.strand.cause != ByRead && EndsStarted(s.buffered)
  {
    if ls :| Legal(s, ls) && Exec(s, ls).stray {
      StrayStayed(s, ls);
    }
    if s.strand.cause != ByRead && EndsStarted(s.buffered) {
      var ls := RunsOut(s);
      StaleMemberExact(s, ls);
      InvRun(s, ls);
      CallStrays(s, ls);
    }
  }

  lemma CallStrays(s: Session, ls: seq<Label>)
    requires Inv(s) && Legal(s, ls)
    requires var s' := Exec(s, ls); s'.destroyed == 1 && s'.streaming && !s'.stray && s'.capture.Outside?
    ensures Legal(s, ls + [CaptureReaches]) && Exec(s, ls + [CaptureReaches]).stray
  {
    ExecCons(Exec(s, ls), CaptureReaches, []);
    ExecAppend(s, ls, [CaptureReaches]);
  }

  lemma {:induction false} ExecAppend(s: Session, a: seq<Label>, b: seq<Label>)
    requires Legal(s, a) && Legal(Exec(s, a), b)
    ensures Legal(s, a + b) && Exec(s, a + b) == Exec(Exec(s, a), b)
    decreases |a|
  {
    if a == [] {
      assert a + b == b;
    } else {
      assert (a + b)[0] == a[0] && (a + b)[1..] == a[1..] + b;
      ExecAppend(Apply(s, a[0]), a[1..], b);
    }
  }

  /** In all other cases the capture thread never gets past the disconnect. */
  lemma NeverStray(s: Session, ls: seq<Label>)
    requires Inv(s) && s.strand.Closing? && !s.stray && Legal(s, ls)
    requires s.strand.cause == ByRead || !EndsStarted(s.buffered)
    ensures var s' := Exec(s, ls);
      && !s'.stray && (!s'.capture.Outside? ==> s'.destroyed == 0 && s'.disconnects == 0)
  {
    InvRun(s, ls);
    if Exec(s, ls).stray {
      StrayStayed(s, ls);
    }
  }

  lemma ExecCons(s: Session, l: Label, ls: seq<Label>)
    requires Enabled(s, l) && Legal(Apply(s, l), ls)
    ensures Legal(s, [l] + ls) && Exec(s, [l] + ls) == Exec(Apply(s, l), ls)
  {
    assert ([l] + ls)[1..] == ls;
  }

  /** The watchdog is closing the session while one received message is still unread: a start. */
  const JUDGED := Session(false, true, true, true, true, false, false, true, [StartText], 0, 0, 0,
                          Closing(ByStall), Outside, false, false, 1, 0, 0)

  lemma Judged()
    ensures var ls := [Accept(true), Receive(StartText), TimerFires(true)];
      Legal(FRESH, ls) && Exec(FRESH, ls) == JUDGED
  {
    var s1 := Apply(FRESH, Accept(true));
    var s2 := Apply(s1, Receive(StartText));
    assert [] + [StartText] == [StartText];
    assert Apply(s2, TimerFires(true)) == JUDGED;
    ExecCons(s2, TimerFires(true), []);
    ExecCons(s1, Receive(StartText), [TimerFires(true)]);
    ExecCons(FRESH, Accept(true), [Receive(StartText), TimerFires(true)]);
  }

  /** Closed and cut off, with the clearing task posted; and destroyed in the end. */
  const CLOSED := JUDGED.(disconnects := 1, self := false, clears := 1, strand := Free)
  const BURIED := CLOSED.(keeper := false, onStall := false, reading := false, buffered := [], clears := 0,
                          streaming := true, destroyed := 1)

  lemma StaleClosed()
    ensures var ls := [Disconnect, Release, PostClear]; Legal(JUDGED, ls) && Exec(JUDGED, ls) == CLOSED
  {
    var s1 := JUDGED.(disconnects := 1, strand := Releasing(ByStall));
    var s2 := s1.(self := false, strand := Posting);
    ExecCons(s2, PostClear, []);
    ExecCons(s1, Release, [PostClear]);
    ExecCons(JUDGED, Disconnect, [Release, PostClear]);
  }

  lemma StaleBuried()
    ensures var ls := [ReadMessage(false), Insert, ReadFails, RunClear]; Legal(CLOSED, ls) && Exec(CLOSED, ls) == BURIED
  {
    var s1 := CLOSED.(buffered := [], strand := Inserting);
    var s2 := s1.(streaming := true, strand := Free);
    var s3 := s2.(reading := false);
    ExecCons(s3, RunClear, []);
    ExecCons(s2, ReadFails, [RunClear]);
    ExecCons(s1, Insert, [ReadFails, RunClear]);
    ExecCons(CLOSED, ReadMessage(false), [Insert, ReadFails, RunClear]);
  }

  /** It does happen: from there to destruction with the pointer in the set, and the next callback strays. */
  lemma StaleMember()
    ensures var ls := [Disconnect, Release, PostClear] + [ReadMessage(false), Insert, ReadFails, RunClear];
      && Legal(JUDGED, ls) && Exec(JUDGED, ls) == BURIED
      && Enabled(BURIED, CaptureReaches) && Apply(BURIED, CaptureReaches).stray
  {
    StaleClosed();
    StaleBuried();
    ExecAppend(JUDGED, [Disconnect, Release, PostClear], [ReadMessage(false), Insert, ReadFails, RunClear]);
  }
}
