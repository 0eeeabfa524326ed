/**
 The handlers of the plain WebSocket session as they are written, each run without interruption:
 what they do together is the atomic steps of the module Session in a row.
 */
module SessionHandlers {
  import opened Wrappers
  import opened WriteQueues
  import opened QueueLaws
  import Session

  /** The rest of the handler the strand is in the middle of. */
  function Continued(s: Session.State): Session.State {
    match s.strand
    case Free => s
    case Taking(_) =>
      var s' := Session.Apply(s, Session.Take);
      if s'.strand.InHand? then Session.Apply(s', Session.Begin) else s'
    case InHand(_, _) => Session.Apply(s, Session.Begin)
    case Arming => Session.Apply(s, Session.Arm)
  }

  function Whole(s: Session.State, l: Session.Label): Session.State
    requires Session.Enabled(s, l)
  {
    Continued(Session.Apply(s, l))
  }

  /** Send or SendBinary by a thread that nobody interrupts. */
  function WholeSend(s: Session.State, t: nat, m: Message): Session.State
    requires t !in s.senders
  {
    var s1 := Session.Apply(s, Session.SendCheck(t, m));
    if t !in s1.senders then s1
    else
      var s2 := Session.Apply(s1, Session.SendEnqueue(t));
      if t in s2.senders && s2.senders[t].OwesDispatch? then Session.Apply(s2, Session.SendDispatch(t)) else s2
  }

  class PlainWebSocketSession {
    const wq: WriteQueue
    var closed: bool
    var tasks: nat                               // what the executor has queued
    var inFlight: seq<Session.Write>             // what the socket is writing
    var completions: seq<Session.Completion>
    var verdict: Option<nat>
    ghost var log: seq<Logged>
    ghost var taken: seq<Message>
    ghost var begun: seq<Message>
    ghost var oversized: nat

    ghost predicate Valid()
      reads this, wq
    {
      wq.Valid()
    }

    ghost function View(nowMs: nat): Session.State
      reads this, wq
    {
      Session.State(wq.State(), closed, map[], tasks, Session.Free, inFlight, completions, nowMs, verdict,
                    log, taken, begun, oversized)
    }

    constructor (nowMs: nat)
      requires nowMs < U64
      ensures Valid() && Session.Init(View(nowMs), 30000) && fresh(wq)
    {
      wq := new WriteQueue();
      closed, tasks, inFlight, completions, verdict := false, 0, [], [], None;
      log, taken, begun, oversized := [], [], [], 0;
      new;
      wq.StartWatchdog(nowMs);
    }

    /** A closed session takes no message; an open one that takes it posts a DoWrite if no writer is at work. */
    method Send(m: Message, nowMs: nat)
      requires Valid()
      modifies this`tasks, this`log, this`oversized, wq
      ensures Valid() && View(nowMs) == WholeSend(old(View(nowMs)), 0, m)
      ensures old(closed) ==> wq.State() == old(wq.State()) && tasks == old(tasks)
      ensures !old(closed) && (m.isText || |m.data| <= 8 * 1024 * 1024) ==>
        wq.q != [] && wq.q[|wq.q| - 1] == m && tasks == old(tasks) + (if old(wq.writing) then 0 else 1)
    {
      if closed { return; }
      if Oversize(m) {
        oversized := oversized + 1;
      } else {
        log := MarkOldestN(log, |taken|, m.isText, Victims(wq.q, m)) + [Logged(m, false)];
      }
      var kick := wq.EnqueueLocked(m);
      if kick {
        tasks := tasks + 1;
      }
    }

    method BeginWrite(m: Message, since: nat)
      modifies this`inFlight, this`begun
      ensures inFlight == old(inFlight) + [Session.Write(m, since)] && begun == old(begun) + [m]
    {
      inFlight := inFlight + [Session.Write(m, since)];
      begun := begun + [m];
    }

    /** The section both handlers end with: take the next message or give the writer back. */
    method TakeAndBegin(afterWrite: bool, nowMs: nat)
      requires Valid()
      modifies this`inFlight, this`begun, this`taken, wq
      ensures Valid()
      ensures View(nowMs) == Continued(old(View(nowMs)).(strand := Session.Taking(afterWrite)))
      ensures afterWrite ==> wq.lastProgressMs == nowMs
      ensures old(wq.q) != [] ==> begun == old(begun) + [old(wq.q)[0]] && wq.q == old(wq.q)[1..]
      ensures old(wq.q) == [] ==> begun == old(begun) && !wq.writing
    {
      if afterWrite {
        wq.OnProgressLocked(nowMs);
      }
      var msg := wq.TakeNextLocked(nowMs);
      if msg.None? { return; }
      taken := taken + [msg.value];
      BeginWrite(msg.value, nowMs);
    }

    /** A closed session's task does nothing; an open one's writes the front message or gives the writer back. */
    method DoWrite(nowMs: nat)
      requires Valid() && tasks > 0
      modifies this, wq
      ensures Valid() && View(nowMs) == Whole(old(View(nowMs)), Session.RunDoWrite)
      ensures old(closed) ==> taken == old(taken) && begun == old(begun)
      ensures !old(closed) && old(wq.q) != [] ==> begun == old(begun) + [old(wq.q)[0]] && wq.q == old(wq.q)[1..]
      ensures !old(closed) && old(wq.q) == [] ==> begun == old(begun) && !wq.writing
    {
      tasks := tasks - 1;
      if closed { return; }
      TakeAndBegin(false, nowMs);
    }

    /** A failed write closes the session and begins nothing; a good one is followed by the front message. */
    method OnWrite(nowMs: nat)
      requires Valid() && completions != []
      modifies this, wq
      ensures Valid() && View(nowMs) == Whole(old(View(nowMs)), Session.RunOnWrite)
      ensures closed == (old(closed) || !old(completions)[0].ok)
      ensures closed ==> taken == old(taken) && begun == old(begun) && wq.q == old(wq.q) && inFlight == old(inFlight)
      ensures !closed ==> wq.lastProgressMs == nowMs
      ensures !closed && old(wq.q) != [] ==> begun == old(begun) + [old(wq.q)[0]] && wq.q == old(wq.q)[1..]
      ensures !closed && old(wq.q) == [] ==> begun == old(begun) && !wq.writing
    {
      var ok := completions[0].ok;
      completions := completions[1..];
      if closed { return; }
      if !ok {
        ForceClose();
        return;
      }
      TakeAndBegin(true, nowMs);
    }

    method OnTimer(nowMs: nat)
      requires Valid() && Session.Enabled(View(nowMs), Session.TimerFires)
      modifies this`closed, this`verdict, wq`timerActive, wq`lastProgressMs, wq`timer
      ensures Valid() && View(nowMs) == Whole(old(View(nowMs)), Session.TimerFires)
    {
      var stalled := wq.OnTimer(nowMs, nowMs);
      if stalled {
        verdict := Some(nowMs);
        closed := true;
        wq.StopWatchdog();
      }
    }

    method ForceClose()
      requires Valid()
      modifies this`closed, wq`timerActive
      ensures Valid() && closed
      ensures wq.State() == if old(closed) then old(wq.State()) else Stop(old(wq.State()))
    {
      var first := !closed;
      closed := true;
      if !first { return; }
      wq.StopWatchdog();
    }
  }
}
