/**
 A Pop that runs whole inside a push that overflows, after the push has moved the read position
 and before it publishes: exactly when it returns what is left, and leaves the ring in order.
 */
module SpscInside {
  import opened Arithmetic
  import opened RingBuffers
  import opened Spsc
  import opened SpscQueue
  import opened SpscTearing

  /** The push under way has dropped what it must; no Pop is under way. */
  predicate MidPush(s: State) {
    && Written(s) && s.consumer.Resting? && (s.producer.ReloadW? || s.producer.Copying?)
    && |s.pushed| >= |s.buffer| && s.readPos == Oldest(s) % |s.buffer|
  }

  /** The tape position the push has moved the reader to. */
  function Oldest(s: State): nat
    requires |s.pushed| >= |s.buffer|
  {
    |s.pushed| + 1 - |s.buffer|
  }

  /** Between its store of the read position and its publication every overflowing push is there. */
  lemma DroppingIsMidPush(s: State, q: Queue, gone: nat, over: nat)
    requires Sim(s, q, gone, over) && over > 0
    ensures MidPush(s) && Oldest(s) == gone
  {
  }

  function PushSize(s: State): nat
    requires Written(s)
  {
    |s.pushed| - s.published
  }

  /** The published samples that have not been dropped. */
  function Undropped(s: State): seq<int>
    requires MidPush(s)
  {
    if Oldest(s) <= s.published then s.pushed[Oldest(s)..s.published] else []
  }

  /** What the Pop takes for available. */
  function Shown(s: State): (n: nat)
    requires MidPush(s)
    ensures n < |s.buffer|
  {
    Distance(s.writePos, s.readPos, |s.buffer|)
  }

  lemma ShownExact(s: State)
    requires MidPush(s)
    ensures PushSize(s) < |s.buffer| ==> Shown(s) == |Undropped(s)|
    ensures PushSize(s) >= |s.buffer| ==>
      Undropped(s) == [] && (Shown(s) == 0 <==> (PushSize(s) + 1) % |s.buffer| == 0)
  {
    if PushSize(s) < |s.buffer| {
      ModDistance(s.published, Oldest(s), |s.buffer|);
    } else {
      LapsMeet(s.published, Oldest(s) + |s.buffer|, |s.buffer|);
    }
  }

  /** The Pop sees what is left, or asks for nothing. */
  predicate SeesRight(s: State, max: nat)
    requires MidPush(s)
  {
    PushSize(s) < |s.buffer| || max == 0 || (PushSize(s) + 1) % |s.buffer| == 0
  }

  lemma SeesRightExact(s: State, max: nat)
    requires MidPush(s)
    ensures SeesRight(s, max) <==> Least(max, Shown(s)) == Least(max, |Undropped(s)|)
  {
    ShownExact(s);
  }

  // ---------------------------------------------------------------- the two calls

  function WholePop(s: State, max: nat): seq<Label>
    requires MidPush(s)
  {
    [Pop(max)] + ([Consume] + Times(Consume, Least(max, Shown(s)) + 1))
  }

  /** What the Pop copies. */
  function Taken(s: State, max: nat): seq<int>
    requires MidPush(s)
  {
    Slots(s, Oldest(s), Least(max, Shown(s)))
  }

  function AfterPop(s: State, max: nat): State
    requires MidPush(s)
  {
    Stored(s, s.read + Taken(s, max), Oldest(s) + Least(max, Shown(s)))
  }

  lemma PopInsideRuns(s: State, max: nat)
    requires MidPush(s)
    ensures Legal(s, WholePop(s, max)) && Exec(s, WholePop(s, max)) == AfterPop(s, max)
  {
    var c, n := LoadW(max, s.readPos), Least(max, Shown(s));
    LoadRuns(s.(consumer := c), Oldest(s), max, n);
    CopiesForget(s, c, Oldest(s), n);
    ExecCons(s, Pop(max), [Consume] + Times(Consume, n + 1));
  }

  /** The steps the push has still to make. */
  function RestOfPush(s: State): seq<Label>
    requires MidPush(s)
  {
    Times(Produce, PushSize(s) + (if s.producer.ReloadW? then 2 else 1 - s.producer.i))
  }

  lemma PushGoesOn(s: State, max: nat)
    requires MidPush(s)
    ensures Legal(AfterPop(s, max), RestOfPush(s))
    ensures Finished(AfterPop(s, max), Exec(AfterPop(s, max), RestOfPush(s)), AfterPop(s, max).readPos)
  {
    var s1 := AfterPop(s, max);
    if s.producer.ReloadW? {
      ReloadRuns(s1);
    } else {
      CopyAll(s1);
    }
  }

  // ---------------------------------------------------------------- what the Pop returns

  lemma CopiesUndropped(s: State, max: nat)
    requires MidPush(s)
    ensures Taken(s, max) == AtomicPop(Queue(Undropped(s), []), max).popped <==> SeesRight(s, max)
  {
    SeesRightExact(s, max);
    ShownExact(s);
    var n := Least(max, Shown(s));
    if PushSize(s) < |s.buffer| {
      CopiesTape(s, n);
    } else {
      assert |Taken(s, max)| == n;
    }
  }

  /** The push rewrites none of the slots that are left. */
  lemma CopiesTape(s: State, n: nat)
    requires MidPush(s) && PushSize(s) < |s.buffer| && n <= |Undropped(s)|
    ensures Slots(s, Oldest(s), n) == Undropped(s)[..n]
  {
    SlotsAreTape(s, Oldest(s), n);
  }

  // ---------------------------------------------------------------- what the ring holds in the end

  /** The atomic queue: what the Pop has left of the undropped samples, then the data. */
  function InTheEnd(s: State, max: nat): seq<int>
    requires MidPush(s)
  {
    LastN(AtomicPop(Queue(Undropped(s), []), max).items + s.pushed[s.published..], |s.buffer| - 1)
  }

  lemma InTheEndOnTape(s: State, max: nat)
    requires MidPush(s)
    ensures InTheEnd(s, max) == s.pushed[Oldest(s) + Least(max, |Undropped(s)|)..]
  {
    if Oldest(s) <= s.published {
      TapeParts(s.pushed, Oldest(s), Least(max, |Undropped(s)|), s.published);
    } else {
      assert [] + s.pushed[s.published..] == s.pushed[s.published..];
    }
  }

  lemma TapeParts(tape: seq<int>, from: nat, n: nat, w: nat)
    requires from + n <= w <= |tape|
    ensures tape[from..w][n..] + tape[w..] == tape[from + n..]
  {
  }

  /** A ring that holds one thing holds nothing of another length. */
  lemma RingIsOne(s: State, a: seq<int>, b: seq<int>)
    requires RingIs(s, a)
    ensures RingIs(s, b) <==> a == b
  {
  }

  lemma EndExact(s: State, s2: State, max: nat)
    requires MidPush(s) && Finished(AfterPop(s, max), s2, AfterPop(s, max).readPos)
    ensures RingIs(s2, InTheEnd(s, max)) <==> SeesRight(s, max)
  {
    SeesRightExact(s, max);
    InTheEndOnTape(s, max);
    var from, should := Oldest(s) + Least(max, Shown(s)), Oldest(s) + Least(max, |Undropped(s)|);
    assert s2 == Stored(s2, s2.read, from);
    StoredFits(s2, s2.read, from);
    RingIsOne(s2, s.pushed[from..], s.pushed[should..]);
    assert |s.pushed[from..]| == |s.pushed[should..]| <==> from == should;
  }

  /**
   A Pop inside an overflowing push returns the oldest undropped published samples, and the ring
   is the atomic drop-oldest queue once the push is over, if and only if the push is shorter than
   the ring, or nothing is asked for, or it and one slot make whole laps.
   */
  lemma PopInsidePushExact(s: State, max: nat)
    requires MidPush(s)
    ensures Legal(s, WholePop(s, max)) && Legal(Exec(s, WholePop(s, max)), RestOfPush(s))
    ensures var s1 := Exec(s, WholePop(s, max));
      && (s1.read == s.read + AtomicPop(Queue(Undropped(s), []), max).popped <==> SeesRight(s, max))
      && (RingIs(Exec(s1, RestOfPush(s)), InTheEnd(s, max)) <==> SeesRight(s, max))
  {
    PopInsideRuns(s, max);
    CopiesUndropped(s, max);
    SameTail(s.read, Taken(s, max), AtomicPop(Queue(Undropped(s), []), max).popped);
    PushGoesOn(s, max);
    EndExact(s, Exec(AfterPop(s, max), RestOfPush(s)), max);
  }
}
