/**
 The per-session write queue: its contents, the drop-oldest policy with its two budgets,
 the ownership flag, the counters and the adaptive write watchdog.

 The functions on the value type `Queue` say what each locked operation does. The class
 `WriteQueue` updates its fields in place, as the C++ class does, and every method is proved
 against the function of the same name.
 */
module WriteQueues {
  import opened Wrappers

  datatype Message = Message(isText: bool, data: seq<bv8>)

  const MAX_BINARY_FRAMES := 200
  const MAX_QUEUED_BYTES := 8 * 1024 * 1024
  const MAX_TEXT_FRAMES := 16

  /** 2^64: the wall at which the source's unsigned millisecond arithmetic wraps. */
  const U64 := 0x1_0000_0000_0000_0000

  // ---------------------------------------------------------------- messages in a queue

  function Count(q: seq<Message>, isText: bool): nat {
    if q == [] then 0 else (if q[0].isText == isText then 1 else 0) + Count(q[1..], isText)
  }

  function Bytes(q: seq<Message>): nat {
    if q == [] then 0 else |q[0].data| + Bytes(q[1..])
  }

  /** The messages of one class, in queue order. */
  function OfClass(q: seq<Message>, isText: bool): seq<Message> {
    if q == [] then [] else (if q[0].isText == isText then [q[0]] else []) + OfClass(q[1..], isText)
  }

  /** The queue without its oldest message of the class (or unchanged when it has none). */
  function DropOldest(q: seq<Message>, isText: bool): seq<Message> {
    if q == [] then []
    else if q[0].isText == isText then q[1..]
    else [q[0]] + DropOldest(q[1..], isText)
  }

  function DropOldestN(q: seq<Message>, isText: bool, k: nat): seq<Message>
    decreases k
  {
    if k == 0 then q else DropOldestN(DropOldest(q, isText), isText, k - 1)
  }

  /** Room for one more binary message of `size` bytes in both budgets. */
  predicate Fits(binaryCount: nat, queuedBytes: nat, size: nat) {
    binaryCount < MAX_BINARY_FRAMES && queuedBytes + size <= MAX_QUEUED_BYTES
  }

  /** How many of the oldest binary messages make way for a new one. */
  function BinaryVictims(q: seq<Message>, size: nat): nat
    decreases Count(q, false)
  {
    if Count(q, false) == 0 || Fits(Count(q, false), Bytes(q), size) then 0
    else DropOldestCounts(q, false); 1 + BinaryVictims(DropOldest(q, false), size)
  }

  /** How many of the oldest text messages make way for a new one. */
  function TextVictims(q: seq<Message>): nat {
    if Count(q, true) < MAX_TEXT_FRAMES then 0 else Count(q, true) - MAX_TEXT_FRAMES + 1
  }

  function Victims(q: seq<Message>, m: Message): nat {
    if m.isText then TextVictims(q) else BinaryVictims(q, |m.data|)
  }

  predicate Oversize(m: Message) {
    !m.isText && |m.data| > MAX_QUEUED_BYTES
  }

  lemma {:induction false} DropOldestCounts(q: seq<Message>, isText: bool)
    ensures Count(DropOldest(q, !isText), isText) == Count(q, isText)
    ensures Count(q, isText) > 0 ==>
      && Count(DropOldest(q, isText), isText) == Count(q, isText) - 1
      && |DropOldest(q, isText)| == |q| - 1
    ensures Count(q, isText) == 0 ==> DropOldest(q, isText) == q
    ensures Bytes(DropOldest(q, isText)) <= Bytes(q)
  {
    if q != [] {
      DropOldestCounts(q[1..], isText);
    }
  }

  /** The queue with the message at `i` erased is `DropOldest` when `i` is the first of its class. */
  lemma {:induction false} EraseFirstOfClass(q: seq<Message>, isText: bool, i: nat)
    requires i < |q| && q[i].isText == isText
    requires forall j | 0 <= j < i :: q[j].isText != isText
    ensures DropOldest(q, isText) == q[..i] + q[i + 1..]
    ensures Bytes(DropOldest(q, isText)) == Bytes(q) - |q[i].data|
    ensures Count(q, isText) > 0
  {
    if i > 0 {
      EraseFirstOfClass(q[1..], isText, i - 1);
      assert q[..i] + q[i + 1..] == [q[0]] + (q[1..][..i - 1] + q[1..][i..]);
    }
  }

  lemma {:induction false} NoneOfClass(q: seq<Message>, isText: bool)
    requires forall j | 0 <= j < |q| :: q[j].isText != isText
    ensures Count(q, isText) == 0
  {
    if q != [] {
      NoneOfClass(q[1..], isText);
    }
  }

  lemma {:induction false} CountAppend(q: seq<Message>, m: Message, isText: bool)
    ensures Count(q + [m], isText) == Count(q, isText) + (if m.isText == isText then 1 else 0)
    ensures Bytes(q + [m]) == Bytes(q) + |m.data|
  {
    if q == [] {
      assert q + [m] == [m];
    } else {
      CountAppend(q[1..], m, isText);
      assert (q + [m])[1..] == q[1..] + [m];
    }
  }

  // ---------------------------------------------------------------- the queue as a value

  /** The pending wait of the watchdog timer: when it was armed and when it is due. */
  datatype Timer = Unarmed | Waiting(armedAt: nat, deadline: nat)

  datatype Queue = Queue(
    q: seq<Message>, binaryCount: nat, textCount: nat, queuedBytes: nat,
    writing: bool, pending: nat, lastProgressMs: nat,
    enqueued: nat, dequeued: nat, droppedTotal: nat,
    timerActive: bool, thresholdMs: nat, timer: Timer)

  const EMPTY := Queue([], 0, 0, 0, false, 0, 0, 0, 0, 0, false, 30000, Unarmed)

  /** The cached counts say what is queued; this is what makes the drop loops end. */
  predicate Counted(s: Queue) {
    && s.binaryCount == Count(s.q, false)
    && s.textCount == Count(s.q, true)
    && s.queuedBytes == Bytes(s.q)
    && s.pending == |s.q|
  }

  /** The queue with `m` accepted: the victims are gone, `m` is last, the caches agree. */
  function Accept(s: Queue, m: Message): Queue {
    var kept := DropOldestN(s.q, m.isText, Victims(s.q, m)) + [m];
    s.(q := kept, binaryCount := Count(kept, false), textCount := Count(kept, true),
       queuedBytes := Bytes(kept), pending := |kept|, enqueued := s.enqueued + 1,
       droppedTotal := s.droppedTotal + Victims(s.q, m), writing := true)
  }

  /** EnqueueLocked: the new queue, and whether the caller now owns the writer. */
  function Enqueue(s: Queue, m: Message): (Queue, bool) {
    if Oversize(m) then (s.(droppedTotal := s.droppedTotal + 1), false)
    else (Accept(s, m), !s.writing)
  }

  /** TakeNextLocked: the next message, or ownership given back in the same critical section. */
  function TakeNext(s: Queue, nowMs: nat): (Queue, Option<Message>) {
    if s.q == [] then (s.(writing := false, pending := 0), None)
    else
      var rest := s.q[1..];
      (s.(q := rest, binaryCount := Count(rest, false), textCount := Count(rest, true),
          queuedBytes := Bytes(rest), pending := |rest|, dequeued := s.dequeued + 1,
          lastProgressMs := nowMs),
       Some(s.q[0]))
  }

  function OnProgress(s: Queue, nowMs: nat): Queue {
    s.(lastProgressMs := nowMs)
  }

  function Min(a: nat, b: nat): nat { if a <= b then a else b }

  function Grace(thresholdMs: nat): nat { Min(1000, thresholdMs / 10) }

  function EffectiveThresholdMs(thresholdMs: nat): nat {
    if thresholdMs > Grace(thresholdMs) then thresholdMs - Grace(thresholdMs) else 1
  }

  /** `a - b` in the source's unsigned 64-bit arithmetic. */
  function SubU64(a: nat, b: nat): nat { (a - b) % U64 }

  /** On a clock that has not gone back the subtraction is exact; otherwise it wraps. */
  lemma SubExact(a: nat, b: nat)
    ensures b <= a < U64 ==> SubU64(a, b) == a - b
    ensures a < b < U64 ==> SubU64(a, b) == U64 - (b - a)
  {
  }

  predicate Owned(s: Queue) { s.writing || s.pending > 0 }

  function Max(a: nat, b: nat): nat { if a >= b then a else b }

  /** When a writer without progress becomes a verdict, seen from `nowMs`. */
  function Due(s: Queue, nowMs: nat): nat {
    Max(s.lastProgressMs + EffectiveThresholdMs(s.thresholdMs), nowMs + 1)
  }

  predicate Stalled(s: Queue, nowMs: nat) {
    Owned(s) && SubU64(nowMs, s.lastProgressMs) >= EffectiveThresholdMs(s.thresholdMs)
  }

  /** ArmTimer: an idle queue moves its baseline to now; then sleep until the deadline is just due. */
  function ArmTimer(s: Queue, nowMs: nat): Queue {
    if !s.timerActive then s
    else
      var last := if Owned(s) then s.lastProgressMs else nowMs;
      var tEff := EffectiveThresholdMs(s.thresholdMs);
      var idle := SubU64(nowMs, last);
      s.(lastProgressMs := last, timer := Waiting(nowMs, nowMs + (if idle >= tEff then 1 else tEff - idle)))
  }

  function Start(s: Queue, nowMs: nat): Queue { ArmTimer(s.(timerActive := true), nowMs) }

  function Stop(s: Queue): Queue { s.(timerActive := false) }

  // ---------------------------------------------------------------- the class

  class WriteQueue {
    var q: seq<Message>
    var binaryCount: nat
    var textCount: nat
    var queuedBytes: nat
    var writing: bool
    var pending: nat
    var lastProgressMs: nat
    var enqueued: nat
    var dequeued: nat
    var droppedTotal: nat
    var timerActive: bool
    var thresholdMs: nat
    var timer: Timer

    function State(): Queue
      reads this
    {
      Queue(q, binaryCount, textCount, queuedBytes, writing, pending, lastProgressMs,
            enqueued, dequeued, droppedTotal, timerActive, thresholdMs, timer)
    }

    ghost predicate Valid()
      reads this
    {
      Counted(State())
    }

    constructor ()
      ensures Valid() && State() == EMPTY
    {
      q, binaryCount, textCount, queuedBytes := [], 0, 0, 0;
      writing, pending, lastProgressMs := false, 0, 0;
      enqueued, dequeued, droppedTotal := 0, 0, 0;
      timerActive, thresholdMs, timer := false, 30000, Unarmed;
    }

    /** DropOldestBinaryLocked and DropOldestTextLocked: scan from the front, erase the first hit. */
    method DropOldestLocked(isText: bool)
      requires (if isText then textCount else binaryCount) == Count(q, isText)
      requires queuedBytes == Bytes(q)
      modifies this`q, this`binaryCount, this`textCount, this`queuedBytes, this`droppedTotal
      ensures q == DropOldest(old(q), isText) && queuedBytes == Bytes(q)
      ensures Count(old(q), isText) > 0 ==>
        && droppedTotal == old(droppedTotal) + 1
        && textCount == old(textCount) - (if isText then 1 else 0)
        && binaryCount == old(binaryCount) - (if isText then 0 else 1)
      ensures Count(old(q), isText) == 0 ==>
        droppedTotal == old(droppedTotal) && textCount == old(textCount) && binaryCount == old(binaryCount)
    {
      var i := 0;
      while i < |q|
        invariant 0 <= i <= |q|
        invariant forall j | 0 <= j < i :: q[j].isText != isText
        invariant q == old(q) && queuedBytes == old(queuedBytes) && droppedTotal == old(droppedTotal)
        invariant textCount == old(textCount) && binaryCount == old(binaryCount)
      {
        if q[i].isText == isText {
          EraseFirstOfClass(q, isText, i);
          queuedBytes := queuedBytes - |q[i].data|;
          if isText { textCount := textCount - 1; } else { binaryCount := binaryCount - 1; }
          q := q[..i] + q[i + 1..];
          droppedTotal := droppedTotal + 1;
          return;
        }
        i := i + 1;
      }
      NoneOfClass(q, isText);
      DropOldestCounts(q, isText);
    }

    /** The first loop of EnqueueLocked: text is capped by count alone. */
    method MakeRoomForText()
      requires Valid()
      modifies this`q, this`binaryCount, this`textCount, this`queuedBytes, this`droppedTotal
      ensures q == DropOldestN(old(q), true, TextVictims(old(q)))
      ensures binaryCount == Count(q, false) && textCount == Count(q, true) && queuedBytes == Bytes(q)
      ensures droppedTotal == old(droppedTotal) + TextVictims(old(q))
    {
      ghost var k := 0;
      while textCount >= MAX_TEXT_FRAMES
        invariant binaryCount == Count(q, false) && textCount == Count(q, true) && queuedBytes == Bytes(q)
        invariant k + TextVictims(q) == TextVictims(old(q)) && droppedTotal == old(droppedTotal) + k
        invariant DropOldestN(q, true, TextVictims(q)) == DropOldestN(old(q), true, TextVictims(old(q)))
        decreases textCount
      {
        DropOldestCounts(q, true);
        DropOldestCounts(q, false);
        DropOldestLocked(true);
        k := k + 1;
      }
    }

    /** The second loop of EnqueueLocked: binary is capped by count and by bytes. */
    method MakeRoomForBinary(size: nat)
      requires Valid()
      modifies this`q, this`binaryCount, this`textCount, this`queuedBytes, this`droppedTotal
      ensures q == DropOldestN(old(q), false, BinaryVictims(old(q), size))
      ensures binaryCount == Count(q, false) && textCount == Count(q, true) && queuedBytes == Bytes(q)
      ensures droppedTotal == old(droppedTotal) + BinaryVictims(old(q), size)
    {
      ghost var k := 0;
      while (binaryCount >= MAX_BINARY_FRAMES || queuedBytes + size > MAX_QUEUED_BYTES) && binaryCount > 0
        invariant binaryCount == Count(q, false) && textCount == Count(q, true) && queuedBytes == Bytes(q)
        invariant k + BinaryVictims(q, size) == BinaryVictims(old(q), size) && droppedTotal == old(droppedTotal) + k
        invariant DropOldestN(q, false, BinaryVictims(q, size))
               == DropOldestN(old(q), false, BinaryVictims(old(q), size))
        decreases binaryCount
      {
        DropOldestCounts(q, true);
        DropOldestCounts(q, false);
        DropOldestLocked(false);
        k := k + 1;
      }
    }

    /** The tail of EnqueueLocked: append, and take the ownership flag if it is free. */
    method AppendLocked(m: Message) returns (kick: bool)
      requires binaryCount == Count(q, false) && textCount == Count(q, true) && queuedBytes == Bytes(q)
      modifies this`q, this`binaryCount, this`textCount, this`queuedBytes, this`pending, this`enqueued, this`writing
      ensures q == old(q) + [m] && Valid()
      ensures enqueued == old(enqueued) + 1 && writing && kick == !old(writing)
    {
      CountAppend(q, m, true);
      CountAppend(q, m, false);
      q := q + [m];
      queuedBytes := queuedBytes + |m.data|;
      if m.isText { textCount := textCount + 1; } else { binaryCount := binaryCount + 1; }
      pending := |q|;
      enqueued := enqueued + 1;
      if !writing {
        writing := true;
        return true;
      }
      return false;
    }

    /** A binary message beyond the byte budget is only counted; every other message is queued, last. */
    method EnqueueLocked(m: Message) returns (kick: bool)
      requires Valid()
      modifies this
      ensures Valid()
      ensures State() == Enqueue(old(State()), m).0 && kick == Enqueue(old(State()), m).1
      ensures m.isText || |m.data| <= 8 * 1024 * 1024 ==>
        && q != [] && q[|q| - 1] == m && enqueued == old(enqueued) + 1
        && writing && kick == !old(writing)
      ensures !m.isText && |m.data| > 8 * 1024 * 1024 ==>
        State() == old(State()).(droppedTotal := old(droppedTotal) + 1) && !kick
    {
      if m.isText {
        MakeRoomForText();
      } else {
        if |m.data| > MAX_QUEUED_BYTES {
          droppedTotal := droppedTotal + 1;
          return false;
        }
        MakeRoomForBinary(|m.data|);
      }
      kick := AppendLocked(m);
    }

    method TakeNextLocked(nowMs: nat) returns (m: Option<Message>)
      requires Valid()
      modifies this
      ensures Valid()
      ensures (State(), m) == TakeNext(old(State()), nowMs)
    {
      if q == [] {
        writing := false;
        pending := 0;
        return None;
      }
      var front := q[0];
      q := q[1..];
      if front.isText { textCount := textCount - 1; } else { binaryCount := binaryCount - 1; }
      queuedBytes := queuedBytes - |front.data|;
      pending := |q|;
      dequeued := dequeued + 1;
      lastProgressMs := nowMs;
      return Some(front);
    }

    method OnProgressLocked(nowMs: nat)
      modifies this`lastProgressMs
      ensures State() == OnProgress(old(State()), nowMs)
    {
      lastProgressMs := nowMs;
    }

    method StartWatchdog(nowMs: nat)
      modifies this`timerActive, this`lastProgressMs, this`timer
      ensures State() == Start(old(State()), nowMs)
    {
      timerActive := true;
      Arm(nowMs);
    }

    method StopWatchdog()
      modifies this`timerActive
      ensures State() == Stop(old(State()))
    {
      timerActive := false;
    }

    /**
     ArmTimer: with a writer the wait ends when it will have made no progress for the effective
     threshold, but not before 1 ms; without one the baseline is now and the whole threshold is ahead.
     */
    method Arm(nowMs: nat)
      modifies this`lastProgressMs, this`timer
      ensures State() == ArmTimer(old(State()), nowMs)
      ensures timerActive && (writing || pending > 0) && old(lastProgressMs) <= nowMs < U64 ==>
        lastProgressMs == old(lastProgressMs) && timer == Waiting(nowMs, Due(State(), nowMs))
      ensures timerActive && !writing && pending == 0 ==>
        lastProgressMs == nowMs && timer == Waiting(nowMs, nowMs + EffectiveThresholdMs(thresholdMs))
      ensures !timerActive ==> lastProgressMs == old(lastProgressMs) && timer == old(timer)
    {
      if !timerActive { return; }
      if !(writing || pending > 0) {
        lastProgressMs := nowMs;
      }
      var tEff := EffectiveThresholdMs(thresholdMs);
      var idle := SubU64(nowMs, lastProgressMs);
      SubExact(nowMs, lastProgressMs);
      var wait := if idle >= tEff then 1 else tEff - idle;
      timer := Waiting(nowMs, nowMs + wait);
    }

    /**
     OnTimer when the wait was not aborted; `stalled` is the call of the stall callback. On a
     clock that has not gone back, that is called exactly when a writer has made no progress for
     the effective threshold; otherwise the next wait ends when it would have.
     */
    method OnTimer(nowMs: nat, armMs: nat) returns (stalled: bool)
      modifies this`timerActive, this`lastProgressMs, this`timer
      ensures stalled == (old(timerActive) && Stalled(old(State()), nowMs))
      ensures var fired := old(State()).(timer := Unarmed);
        State() == if !fired.timerActive then fired
                   else if stalled then Stop(fired)
                   else ArmTimer(fired, armMs)
      ensures old(timerActive && (writing || pending > 0)) && old(lastProgressMs) <= nowMs <= armMs < U64 ==>
        && (stalled <==> nowMs - old(lastProgressMs) >= EffectiveThresholdMs(thresholdMs))
        && (!stalled ==> timerActive && timer == Waiting(armMs, Due(State(), armMs)))
      ensures stalled ==> !timerActive && timer == Unarmed
    {
      SubExact(nowMs, lastProgressMs);
      timer := Unarmed;
      if !timerActive { return false; }
      if Stalled(State(), nowMs) {
        timerActive := false;
        return true;
      }
      Arm(armMs);
      return false;
    }
  }
}
