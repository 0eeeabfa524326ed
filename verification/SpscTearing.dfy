/**
 What one overflowing push does to a Pop it runs inside: exactly when the Pop still returns what
 it should, and exactly when the ring is still in order afterwards.
 */
module SpscTearing {
  import opened Arithmetic
  import opened RingBuffers
  import opened Spsc
  import opened SpscQueue

  // ---------------------------------------------------------------- one slot, in any run at all

  /** The last tape position before `end` that shares the slot of `at`. */
  lemma {:induction false} Latest(at: nat, end: nat, m: nat) returns (v: nat)
    requires m > 0 && at < end
    ensures at <= v < end <= v + m && v % m == at % m
    ensures end <= at + m ==> v == at
    ensures end > at + m ==> v >= at + m
    decreases end - at
  {
    if end <= at + m {
      v := at;
    } else {
      v := Latest(at + m, end, m);
      assert (at + m) / m == at / m + 1 && (at + m) % m == at % m by {
        DivUnique(at + m, m, at / m + 1, at % m);
      }
    }
  }

  lemma {:induction false} WrittenRun(s: State, ls: seq<Label>)
    requires Written(s) && Legal(s, ls)
    ensures Written(Exec(s, ls))
    decreases |ls|
  {
    if ls != [] {
      WrittenStep(s, ls[0]);
      WrittenRun(Apply(s, ls[0]), ls[1..]);
    }
  }

  /**
   In every run, whatever overflows or overlaps: a slot holds the last sample written to it, and
   that is the one of tape position `at` if and only if the copy loop has not come round to it.
   */
  lemma SlotHolds(s0: State, ls: seq<Label>, at: nat) returns (v: nat)
    requires Init(s0) && Legal(s0, ls)
    requires at < Exec(s0, ls).published + Copied(Exec(s0, ls))
    ensures var s := Exec(s0, ls);
      var m, written := |s.buffer|, s.published + Copied(s);
      && m > 0 && at <= v < written <= |s.pushed| && v % m == at % m && s.buffer[at % m] == s.pushed[v]
      && (v == at <==> written <= at + m)
  {
    DivUnique(0, |s0.buffer|, 0, 0);
    WrittenRun(s0, ls);
    var s := Exec(s0, ls);
    v := Latest(at, s.published + Copied(s), |s.buffer|);
  }

  // ---------------------------------------------------------------- one overflowing push inside a pop

  function Times(l: Label, n: nat): seq<Label> { seq(n, _ => l) }

  lemma ExecTimes(s: State, l: Label, n: nat)
    requires n > 0 && Enabled(s, l) && Legal(Apply(s, l), Times(l, n - 1))
    ensures Legal(s, Times(l, n)) && Exec(s, Times(l, n)) == Exec(Apply(s, l), Times(l, n - 1))
  {
    assert Times(l, n) == [l] + Times(l, n - 1);
    ExecCons(s, l, Times(l, n - 1));
  }

  /** What a finished push leaves: the tape, and the positions it has stored. */
  predicate Finished(s: State, s': State, readPos: nat) {
    && s'.producer.Idle? && s'.consumer == s.consumer && s'.read == s.read && s'.pushed == s.pushed
    && s'.readPos == readPos && |s'.buffer| == |s.buffer| && Written(s') && Bounded(s')
  }

  /** The positions and the consumer's copy of one are slots. */
  predicate Bounded(s: State) {
    && |s.buffer| > 0 && s.readPos < |s.buffer|
    && (s.consumer.LoadW? ==> s.consumer.r < |s.buffer|)
    && (s.consumer.Reading? ==> s.consumer.r < |s.buffer| && s.consumer.i <= s.consumer.n)
  }

  lemma {:induction false} CopyAll(s: State)
    requires Written(s) && Bounded(s) && s.producer.Copying?
    ensures var ls := Times(Produce, |s.producer.data| - s.producer.i + 1);
      Legal(s, ls) && Finished(s, Exec(s, ls), s.readPos)
    decreases |s.producer.data| - s.producer.i
  {
    var left: nat := |s.producer.data| - s.producer.i;
    if left > 0 {
      CopyOne(s);
      CopyAll(ProducerStep(s));
    } else {
      PublishRuns(s);
      assert Times(Produce, 0) == [];
    }
    ExecTimes(s, Produce, left + 1);
  }

  lemma CopyOne(s: State)
    requires Written(s) && Bounded(s) && Writes(s)
    ensures Enabled(s, Produce)
    ensures var s' := ProducerStep(s);
      && Written(s') && Bounded(s') && s'.producer.Copying?
      && s'.producer.data == s.producer.data && s'.producer.i == s.producer.i + 1
      && (forall e, readPos :: Finished(s', e, readPos) ==> Finished(s, e, readPos)) && s'.readPos == s.readPos
  {
    CopySlot(s);
  }

  lemma PublishRuns(s: State)
    requires Written(s) && Bounded(s) && s.producer.Copying? && s.producer.i == |s.producer.data|
    ensures Enabled(s, Produce) && Finished(s, Apply(s, Produce), s.readPos)
  {
    WrittenStep(s, Produce);
  }

  /** A whole push that overflows, run between two steps of a Pop. */
  function WholePush(data: seq<int>): seq<Label> { [Push(data)] + Times(Produce, |data| + 4) }

  /** The decision of a push that finds no room. */
  function Decided(s: State, data: seq<int>): State
    requires |s.buffer| > 0 && s.published + |data| >= |s.buffer|
  {
    s.(producer := DropOldest(data, (s.published + |data| - |s.buffer| + 1) % |s.buffer|),
       pushed := s.pushed + data, overflowed := true)
  }

  lemma PushDecides(s: State, data: seq<int>, gone: nat)
    requires Written(s) && Bounded(s) && s.producer.Idle? && data != []
    requires gone <= s.published < gone + |s.buffer| <= s.published + |data| && s.readPos == gone % |s.buffer|
    ensures Enabled(s, Push(data)) && Enabled(Apply(s, Push(data)), Produce)
    ensures ProducerStep(Apply(s, Push(data))) == Decided(s, data)
  {
    var m := |s.buffer|;
    ModDistance(s.published, gone, m);
    var drop: nat := |data| - (m - (s.published - gone) - 1);
    ModAdd(gone, drop, m);
    assert gone + drop == s.published + |data| - m + 1;
  }

  lemma DecidedIsWritten(s: State, data: seq<int>)
    requires Written(s) && Bounded(s) && s.producer.Idle? && s.published + |data| >= |s.buffer|
    ensures Written(Decided(s, data)) && Bounded(Decided(s, data))
  {
    assert (s.pushed + data)[s.published..] == data;
  }

  lemma PushRuns(s: State, data: seq<int>, gone: nat)
    requires Written(s) && Bounded(s) && s.producer.Idle? && data != []
    requires gone <= s.published < gone + |s.buffer| <= s.published + |data| && s.readPos == gone % |s.buffer|
    ensures Legal(s, WholePush(data))
    ensures var s2 := Decided(s, data); Finished(s2, Exec(s, WholePush(data)), s2.producer.to)
  {
    PushDecides(s, data, gone);
    DecidedIsWritten(s, data);
    DropRuns(Decided(s, data));
    ExecTimes(Apply(s, Push(data)), Produce, |data| + 4);
    ExecCons(s, Push(data), Times(Produce, |data| + 4));
  }

  lemma ReloadRuns(s: State)
    requires Written(s) && Bounded(s) && s.producer.ReloadW?
    ensures var ls := Times(Produce, |s.producer.data| + 2);
      Legal(s, ls) && Finished(s, Exec(s, ls), s.readPos)
  {
    ReloadOne(s);
    CopyAll(ProducerStep(s));
    ExecTimes(s, Produce, |s.producer.data| + 2);
  }

  lemma ReloadOne(s: State)
    requires Written(s) && Bounded(s) && s.producer.ReloadW?
    ensures Enabled(s, Produce)
    ensures var s' := ProducerStep(s);
      && Written(s') && Bounded(s') && s'.producer.Copying? && s'.producer.i == 0
      && s'.producer.data == s.producer.data && s'.readPos == s.readPos
      && forall e, readPos :: Finished(s', e, readPos) ==> Finished(s, e, readPos)
  {
    WrittenStep(s, Produce);
  }

  lemma DropRuns(s: State)
    requires Written(s) && Bounded(s) && s.producer.DropOldest? && s.producer.to < |s.buffer|
    ensures var ls := Times(Produce, |s.producer.data| + 3);
      Legal(s, ls) && Finished(s, Exec(s, ls), s.producer.to)
  {
    WrittenStep(s, Produce);
    ReloadRuns(ProducerStep(s));
    ExecTimes(s, Produce, |s.producer.data| + 3);
  }

  lemma NextSlot(s: State, at: nat, n: nat)
    requires |s.buffer| > 0 && n > 0
    ensures (s.read + [s.buffer[at % |s.buffer|]]) + Slots(s, at + 1, n - 1) == s.read + Slots(s, at, n)
  {
    assert Slots(s, at, n) == [s.buffer[at % |s.buffer|]] + Slots(s, at + 1, n - 1);
  }

  /** The Pop's last store, with `from` as the tape position it stores. */
  function Stored(s: State, read: seq<int>, from: nat): State
    requires |s.buffer| > 0
  {
    s.(read := read, readPos := from % |s.buffer|, consumer := Resting)
  }

  /** The rest of a Pop that nobody interrupts. */
  lemma {:induction false} PopRuns(s: State, at: nat, left: nat)
    requires |s.buffer| > 0 && InBounds(s) && s.consumer.Reading? && s.consumer.r == at % |s.buffer|
    requires s.consumer.i + left == s.consumer.n
    ensures Legal(s, Times(Consume, left + 1))
    ensures Exec(s, Times(Consume, left + 1)) == Stored(s, s.read + Slots(s, at, left), at + left)
    decreases left
  {
    if left > 0 {
      ModStep(at, |s.buffer|);
      PopRuns(ConsumerStep(s), at + 1, left - 1);
      NextSlot(s, at, left);
    } else {
      assert s.read + Slots(s, at, 0) == s.read;
    }
    ExecTimes(s, Consume, left + 1);
  }

  /** A Pop under way: `n` samples from tape position `gone` on, `i` of them copied out. */
  predicate MidPop(s: State, gone: nat, n: nat, i: nat) {
    && Written(s) && s.producer.Idle?
    && gone <= s.published < gone + |s.buffer| && s.readPos == gone % |s.buffer|
    && i <= n && gone + n <= s.published && s.consumer == Reading(n, i, (gone + i) % |s.buffer|)
  }

  /** The push finds no room although the Pop's samples have not been released yet. */
  predicate NoRoom(s: State, gone: nat, size: nat) { size > 0 && s.published + size >= gone + |s.buffer| }

  function PushThenPop(data: seq<int>, n: nat, i: nat): seq<Label>
    requires i <= n
  {
    WholePush(data) + Times(Consume, n - i + 1)
  }

  /** The ring once the push is over. */
  function AfterPush(s: State, data: seq<int>, gone: nat, n: nat, i: nat): (s1: State)
    requires MidPop(s, gone, n, i) && NoRoom(s, gone, |data|)
    ensures Written(s1) && Bounded(s1) && s1.producer.Idle? && s1.pushed == s.pushed + data
    ensures |s1.buffer| == |s.buffer| && s1.read == s.read && s1.consumer == s.consumer && s1.writePos < |s.buffer|
  {
    PushRuns(s, data, gone);
    Exec(s, WholePush(data))
  }

  /** Where the two calls end up. */
  lemma PushInsidePop(s: State, data: seq<int>, gone: nat, n: nat, i: nat)
    requires MidPop(s, gone, n, i) && NoRoom(s, gone, |data|)
    ensures Legal(s, PushThenPop(data, n, i))
    ensures var s1 := AfterPush(s, data, gone, n, i);
      Exec(s, PushThenPop(data, n, i)) == Stored(s1, s.read + Slots(s1, gone + i, n - i), gone + n)
  {
    PushIsLegal(s, data, gone, n, i);
    PopGoesOn(s, data, gone, n, i);
    ExecAppend(s, WholePush(data), Times(Consume, n - i + 1));
  }

  lemma PopGoesOn(s: State, data: seq<int>, gone: nat, n: nat, i: nat)
    requires MidPop(s, gone, n, i) && NoRoom(s, gone, |data|)
    ensures var s1 := AfterPush(s, data, gone, n, i);
      && Legal(s1, Times(Consume, n - i + 1))
      && Exec(s1, Times(Consume, n - i + 1)) == Stored(s1, s.read + Slots(s1, gone + i, n - i), gone + n)
  {
    PopRuns(AfterPush(s, data, gone, n, i), gone + i, n - i);
  }

  lemma PushIsLegal(s: State, data: seq<int>, gone: nat, n: nat, i: nat)
    requires MidPop(s, gone, n, i) && NoRoom(s, gone, |data|)
    ensures Legal(s, WholePush(data)) && Exec(s, WholePush(data)) == AfterPush(s, data, gone, n, i)
  {
    PushRuns(s, data, gone);
  }

  lemma {:induction false} ExecAppend(s: State, a: seq<Label>, b: seq<Label>)
    requires Legal(s, a) && Legal(Exec(s, a), b)
    ensures Legal(s, a + b) && Exec(s, a + b) == Exec(Exec(s, a), b)
    decreases |a|
  {
    if a == [] {
      assert a + b == b;
    } else {
      ExecAppend(Apply(s, a[0]), a[1..], b);
      ExecCons(s, a[0], a[1..] + b);
      assert [a[0]] + (a[1..] + b) == a + b;
    }
  }

  /** The push rewrites no slot that the Pop has still to copy. */
  predicate Spared(s: State, gone: nat, n: nat, i: nat, size: nat) {
    i == n || s.published + size <= gone + i + |s.buffer|
  }

  /** The Pop returns the oldest samples that were unread when it began. */
  predicate ReturnsOldest(s: State, data: seq<int>, gone: nat, n: nat, i: nat)
    requires MidPop(s, gone, n, i) && NoRoom(s, gone, |data|)
  {
    PushInsidePop(s, data, gone, n, i);
    Exec(s, PushThenPop(data, n, i)).read == s.read + s.pushed[gone + i..gone + n]
  }

  lemma ReturnsSlots(s: State, data: seq<int>, gone: nat, n: nat, i: nat)
    requires MidPop(s, gone, n, i) && NoRoom(s, gone, |data|)
    ensures ReturnsOldest(s, data, gone, n, i)
       <==> Slots(AfterPush(s, data, gone, n, i), gone + i, n - i) == s.pushed[gone + i..gone + n]
  {
    PushInsidePop(s, data, gone, n, i);
    SameTail(s.read, Slots(AfterPush(s, data, gone, n, i), gone + i, n - i), s.pushed[gone + i..gone + n]);
  }

  lemma SameTail(a: seq<int>, b: seq<int>, c: seq<int>)
    ensures a + b == a + c <==> b == c
  {
    assert (a + b)[|a|..] == b && (a + c)[|a|..] == c;
  }

  lemma SparedIsEnough(s: State, data: seq<int>, gone: nat, n: nat, i: nat)
    requires MidPop(s, gone, n, i) && NoRoom(s, gone, |data|) && Spared(s, gone, n, i, |data|)
    ensures ReturnsOldest(s, data, gone, n, i)
  {
    ReturnsSlots(s, data, gone, n, i);
    var s1 := AfterPush(s, data, gone, n, i);
    if i < n {
      SlotsAreTape(s1, gone + i, n - i);
      assert s1.pushed[gone + i..gone + n] == s.pushed[gone + i..gone + n];
    }
  }

  /** Otherwise the next slot to be copied is among the rewritten ones. */
  lemma NotSparedIsSeen(s: State, data: seq<int>, gone: nat, n: nat, i: nat)
    requires MidPop(s, gone, n, i) && NoRoom(s, gone, |data|) && !Spared(s, gone, n, i, |data|)
    requires forall k | 0 <= k < |data| :: data[k] != s.pushed[gone + i]
    ensures !ReturnsOldest(s, data, gone, n, i)
  {
    ReturnsSlots(s, data, gone, n, i);
    var s1 := AfterPush(s, data, gone, n, i);
    SlotIsRewritten(s1, gone + i, n - i, s.published);
    assert s.pushed[gone + i..gone + n][0] == s.pushed[gone + i];
  }

  lemma SlotIsRewritten(s: State, at: nat, n: nat, before: nat)
    requires Written(s) && s.producer.Idle? && n > 0
    requires at < before <= at + |s.buffer| < s.published
    ensures exists v: nat :: before <= v < s.published && Slots(s, at, n)[0] == s.pushed[v]
  {
    var v := Latest(at, s.published, |s.buffer|);
    assert s.buffer[v % |s.buffer|] == s.pushed[v];
  }

  /**
   One overflowing push inside one Pop: whatever is pushed, the Pop still returns the oldest unread
   samples, if and only if the push goes no further than the slots the Pop has copied already.
   */
  lemma OverflowInsidePopExact(s: State, gone: nat, n: nat, i: nat, size: nat)
    requires MidPop(s, gone, n, i) && NoRoom(s, gone, size)
    ensures (forall data: seq<int> | |data| == size :: ReturnsOldest(s, data, gone, n, i))
       <==> Spared(s, gone, n, i, size)
  {
    if Spared(s, gone, n, i, size) {
      forall data: seq<int> | |data| == size
        ensures ReturnsOldest(s, data, gone, n, i)
      {
        SparedIsEnough(s, data, gone, n, i);
      }
    } else {
      var data := seq(size, _ => s.pushed[gone + i] + 1);
      NotSparedIsSeen(s, data, gone, n, i);
    }
  }

  /** What the ring then holds when it fits. */
  lemma StoredFits(s: State, read: seq<int>, from: nat)
    requires Written(s) && s.producer.Idle? && from <= s.published < from + |s.buffer|
    ensures RingIs(Stored(s, read, from), s.pushed[from..])
  {
    ModDistance(s.published, from, |s.buffer|);
    SlotsAreTape(s, from, s.published - from);
    assert Slots(Stored(s, read, from), from % |s.buffer|, s.published - from)
        == Slots(s, from % |s.buffer|, s.published - from);
  }

  /** A position whole laps behind `from` is stored as that one. */
  lemma StoredLaps(s: State, read: seq<int>, at: nat, from: nat)
    requires Written(s) && s.producer.Idle? && from <= s.published < from + |s.buffer|
    requires at % |s.buffer| == from % |s.buffer|
    ensures RingIs(Stored(s, read, at), s.pushed[from..])
  {
    StoredFits(s, read, from);
    assert Stored(s, read, at) == Stored(s, read, from);
  }

  /** What was pushed from `from` to `end` fits, or whole laps of it are missing. */
  predicate FitsOrLaps(from: nat, end: nat, m: nat)
    requires m > 0 && from <= end
  {
    end < from + m || (end + 1 - from) % m == 0
  }

  /** The ring holds the newest samples that fit exactly if everything fits or whole laps are missing. */
  lemma StoredExact(s: State, read: seq<int>, from: nat)
    requires Written(s) && s.producer.Idle? && from <= s.published
    ensures RingIs(Stored(s, read, from), LastN(s.pushed[from..], |s.buffer| - 1))
       <==> FitsOrLaps(from, s.published, |s.buffer|)
  {
    var m := |s.buffer|;
    if s.published < from + m {
      StoredFits(s, read, from);
    } else {
      var oldest := s.published + 1 - m;
      ApparentIsDistance(s.published, from, m);
      LastResidue(s.published - from, m);
      if (s.published + 1 - from) % m == 0 {
        LapsMeet(from, s.published + 1, m);
        StoredLaps(s, read, from, oldest);
      }
      assert s.pushed[from..][|s.pushed| - from - (m - 1)..] == s.pushed[oldest..];
    }
  }

  lemma ApparentIsDistance(w: nat, r: nat, m: nat)
    requires m > 0 && w >= r
    ensures Distance(w % m, r % m, m) == (w - r) % m
  {
    var v := Latest(r, w + 1, m);
    ModDistance(w, v, m);
    DivUnique(w - v, m, 0, w - v);
    SameResidue(w, v, r, m);
  }

  /**
   After the Pop's store of the read position the ring is the atomic drop-oldest queue, with the
   Pop before the push, if and only if what the Pop leaves fits or whole laps of it are missing.
   */
  lemma OverflowThenStoreExact(s: State, data: seq<int>, gone: nat, n: nat, i: nat)
    requires MidPop(s, gone, n, i) && NoRoom(s, gone, |data|)
    ensures Legal(s, PushThenPop(data, n, i))
    ensures RingIs(Exec(s, PushThenPop(data, n, i)), LastN((s.pushed + data)[gone + n..], |s.buffer| - 1))
       <==> FitsOrLaps(gone + n, s.published + |data|, |s.buffer|)
  {
    PushInsidePop(s, data, gone, n, i);
    InsideRing(s, AfterPush(s, data, gone, n, i), data, gone, n, i);
  }

  lemma InsideRing(s: State, s1: State, data: seq<int>, gone: nat, n: nat, i: nat)
    requires MidPop(s, gone, n, i) && Written(s1) && s1.producer.Idle?
    requires s1.pushed == s.pushed + data && |s1.buffer| == |s.buffer|
    ensures RingIs(Stored(s1, s.read + Slots(s1, gone + i, n - i), gone + n),
                   LastN((s.pushed + data)[gone + n..], |s.buffer| - 1))
       <==> FitsOrLaps(gone + n, s.published + |data|, |s.buffer|)
  {
    StoredExact(s1, s.read + Slots(s1, gone + i, n - i), gone + n);
  }

  // ---------------------------------------------------------------- one overflowing push between the loads of a pop

  /** A Pop that has loaded its read position, `gone`, and not yet the write position. */
  predicate HalfLoaded(s: State, gone: nat, max: nat) {
    && Written(s) && s.producer.Idle?
    && gone <= s.published < gone + |s.buffer| && s.readPos == gone % |s.buffer|
    && s.consumer == LoadW(max, gone % |s.buffer|)
  }

  /** What the Pop then takes for available: the distance from a position that is no longer the reader's. */
  function Apparent(s: State, gone: nat, size: nat): (n: nat)
    requires |s.buffer| > 0 && s.published + size >= gone
    ensures n < |s.buffer|
  {
    (s.published + size - gone) % |s.buffer|
  }

  function PushBetweenLoads(data: seq<int>, n: nat): seq<Label> {
    WholePush(data) + ([Consume] + Times(Consume, n + 1))
  }

  /** The ring once the push is over. */
  function Refilled(s: State, data: seq<int>, gone: nat, max: nat): (s1: State)
    requires HalfLoaded(s, gone, max) && NoRoom(s, gone, |data|)
    ensures Written(s1) && Bounded(s1) && s1.producer.Idle? && s1.pushed == s.pushed + data
    ensures |s1.buffer| == |s.buffer| && s1.read == s.read && s1.consumer == s.consumer && s1.writePos < |s.buffer|
  {
    PushRuns(s, data, gone);
    Exec(s, WholePush(data))
  }

  /** The samples the rest of the Pop copies from there. */
  function Copies(s: State, data: seq<int>, gone: nat, max: nat): seq<int>
    requires HalfLoaded(s, gone, max) && NoRoom(s, gone, |data|)
  {
    Slots(Refilled(s, data, gone, max), gone, Least(max, Apparent(s, gone, |data|)))
  }

  /** The second load of a Pop and everything behind it, if nobody interrupts. */
  lemma LoadRuns(s: State, at: nat, max: nat, n: nat)
    requires |s.buffer| > 0 && InBounds(s) && s.consumer == LoadW(max, at % |s.buffer|)
    requires n == Least(max, Distance(s.writePos, at % |s.buffer|, |s.buffer|))
    ensures Legal(s, [Consume] + Times(Consume, n + 1))
    ensures Exec(s, [Consume] + Times(Consume, n + 1)) == Stored(s, s.read + Slots(s, at, n), at + n)
  {
    LoadOne(s, at, max, n);
    PopRuns(s.(consumer := Reading(n, 0, at % |s.buffer|)), at, n);
    CopiesForget(s, Reading(n, 0, at % |s.buffer|), at, n);
    ExecCons(s, Consume, Times(Consume, n + 1));
  }

  /** What a Pop copies and stores does not depend on where it is. */
  lemma CopiesForget(s: State, c: Consumer, at: nat, n: nat)
    requires |s.buffer| > 0
    ensures var s1 := s.(consumer := c);
      && Slots(s1, at, n) == Slots(s, at, n)
      && Stored(s1, s1.read + Slots(s1, at, n), at + n) == Stored(s, s.read + Slots(s, at, n), at + n)
  {
    assert Slots(s.(consumer := c), at, n) == Slots(s, at, n);
  }

  lemma LoadOne(s: State, at: nat, max: nat, n: nat)
    requires |s.buffer| > 0 && InBounds(s) && s.consumer == LoadW(max, at % |s.buffer|)
    requires n == Least(max, Distance(s.writePos, at % |s.buffer|, |s.buffer|))
    ensures var s1 := s.(consumer := Reading(n, 0, at % |s.buffer|));
      Enabled(s, Consume) && Apply(s, Consume) == s1 && InBounds(s1)
  {
  }

  lemma HalfLoadedRuns(s: State, data: seq<int>, gone: nat, max: nat)
    requires HalfLoaded(s, gone, max) && NoRoom(s, gone, |data|)
    ensures var n := Least(max, Apparent(s, gone, |data|));
      && Legal(s, PushBetweenLoads(data, n))
      && Exec(s, PushBetweenLoads(data, n))
         == Stored(Refilled(s, data, gone, max), s.read + Copies(s, data, gone, max), gone + n)
  {
    var n := Least(max, Apparent(s, gone, |data|));
    RefillRuns(s, data, gone, max);
    RefilledLoads(s, data, gone, max);
    ExecAppend(s, WholePush(data), [Consume] + Times(Consume, n + 1));
  }

  lemma RefillRuns(s: State, data: seq<int>, gone: nat, max: nat)
    requires HalfLoaded(s, gone, max) && NoRoom(s, gone, |data|)
    ensures Legal(s, WholePush(data)) && Exec(s, WholePush(data)) == Refilled(s, data, gone, max)
  {
    PushRuns(s, data, gone);
  }

  lemma RefilledLoads(s: State, data: seq<int>, gone: nat, max: nat)
    requires HalfLoaded(s, gone, max) && NoRoom(s, gone, |data|)
    ensures var s1, n := Refilled(s, data, gone, max), Least(max, Apparent(s, gone, |data|));
      && Legal(s1, [Consume] + Times(Consume, n + 1))
      && Exec(s1, [Consume] + Times(Consume, n + 1)) == Stored(s1, s.read + Copies(s, data, gone, max), gone + n)
  {
    var s1 := Refilled(s, data, gone, max);
    ApparentIsDistance(s1.published, gone, |s.buffer|);
    LoadRuns(s1, gone, max, Least(max, Apparent(s, gone, |data|)));
  }

  /** What an atomic pop returns after the atomic push: the oldest of the newest that fit. */
  function Newest(s: State, data: seq<int>, gone: nat, max: nat): seq<int>
    requires HalfLoaded(s, gone, max)
  {
    AtomicPop(Queue(LastN(s.pushed[gone..] + data, |s.buffer| - 1), []), max).popped
  }

  predicate ReturnsNewest(s: State, data: seq<int>, gone: nat, max: nat)
    requires HalfLoaded(s, gone, max) && NoRoom(s, gone, |data|)
  {
    HalfLoadedRuns(s, data, gone, max);
    Exec(s, PushBetweenLoads(data, Least(max, Apparent(s, gone, |data|)))).read == s.read + Newest(s, data, gone, max)
  }

  lemma ReturnsCopies(s: State, data: seq<int>, gone: nat, max: nat)
    requires HalfLoaded(s, gone, max) && NoRoom(s, gone, |data|)
    ensures ReturnsNewest(s, data, gone, max) <==> Copies(s, data, gone, max) == Newest(s, data, gone, max)
  {
    HalfLoadedRuns(s, data, gone, max);
    SameTail(s.read, Copies(s, data, gone, max), Newest(s, data, gone, max));
  }

  /** On the tape that is the lap before the new write position. */
  lemma NewestOnTape(s: State, data: seq<int>, gone: nat, max: nat)
    requires HalfLoaded(s, gone, max) && NoRoom(s, gone, |data|)
    ensures var oldest := s.published + |data| + 1 - |s.buffer|;
      Newest(s, data, gone, max) == (s.pushed + data)[oldest..oldest + Least(max, |s.buffer| - 1)]
  {
    NewestSlice(s.pushed, data, gone, |s.buffer| - 1, max);
  }

  lemma NewestSlice(tape: seq<int>, data: seq<int>, gone: nat, room: nat, max: nat)
    requires gone <= |tape| && |tape| + |data| - gone >= room
    ensures var oldest := |tape| + |data| - room;
      AtomicPop(Queue(LastN(tape[gone..] + data, room), []), max).popped
      == (tape + data)[oldest..oldest + Least(max, room)]
  {
    assert tape[gone..] + data == (tape + data)[gone..];
  }

  /** The push has gone round the ring to the very slot that the Pop starts from. */
  predicate WholeLaps(s: State, gone: nat, size: nat)
    requires |s.buffer| > 0 && s.published + size >= gone
  {
    (s.published + size + 1 - gone) % |s.buffer| == 0
  }

  lemma WholeLapsMeans(s: State, gone: nat, size: nat)
    requires |s.buffer| > 0 && s.published + size >= gone + |s.buffer|
    ensures var oldest := s.published + size + 1 - |s.buffer|;
      && (WholeLaps(s, gone, size) <==> gone % |s.buffer| == oldest % |s.buffer|)
      && (WholeLaps(s, gone, size) <==> Apparent(s, gone, size) == |s.buffer| - 1)
  {
    LapsMeet(gone, s.published + size + 1, |s.buffer|);
    LastResidue(s.published + size - gone, |s.buffer|);
  }

  lemma NothingAsked(s: State, data: seq<int>, gone: nat)
    requires HalfLoaded(s, gone, 0) && NoRoom(s, gone, |data|)
    ensures Copies(s, data, gone, 0) == [] == Newest(s, data, gone, 0)
  {
    NewestOnTape(s, data, gone, 0);
  }

  lemma LapsAreEnough(s: State, data: seq<int>, gone: nat, max: nat)
    requires HalfLoaded(s, gone, max) && NoRoom(s, gone, |data|) && WholeLaps(s, gone, |data|)
    ensures Copies(s, data, gone, max) == Newest(s, data, gone, max)
  {
    NewestOnTape(s, data, gone, max);
    WholeLapsMeans(s, gone, |data|);
    CopiesFromOldest(s, data, gone, max);
  }

  lemma CopiesFromOldest(s: State, data: seq<int>, gone: nat, max: nat)
    requires HalfLoaded(s, gone, max) && NoRoom(s, gone, |data|) && Apparent(s, gone, |data|) == |s.buffer| - 1
    requires gone % |s.buffer| == (s.published + |data| + 1 - |s.buffer|) % |s.buffer|
    ensures var oldest := s.published + |data| + 1 - |s.buffer|;
      Copies(s, data, gone, max) == (s.pushed + data)[oldest..oldest + Least(max, |s.buffer| - 1)]
  {
    SlotsFromOldest(Refilled(s, data, gone, max), gone, Least(max, |s.buffer| - 1));
  }

  lemma SlotsFromOldest(s: State, gone: nat, n: nat)
    requires Written(s) && s.producer.Idle? && n < |s.buffer| <= s.published + 1
    requires gone % |s.buffer| == (s.published + 1 - |s.buffer|) % |s.buffer|
    ensures var oldest := s.published + 1 - |s.buffer|; Slots(s, gone, n) == s.pushed[oldest..oldest + n]
  {
    SlotsAreTape(s, s.published + 1 - |s.buffer|, n);
    SlotsModulo(s, gone, n);
  }

  lemma SlotsModulo(s: State, at: nat, n: nat)
    requires |s.buffer| > 0
    ensures Slots(s, at % |s.buffer|, n) == Slots(s, at, n)
  {
    var a, b := Slots(s, at % |s.buffer|, n), Slots(s, at, n);
    forall k: nat | k < n
      ensures a[k] == b[k]
    {
      ModAdd(at, k, |s.buffer|);
    }
  }

  /** Distinct samples, none of them the one the atomic Pop would return first. */
  function Telling(s: State, size: nat): seq<int>
    requires s.published <= |s.pushed| && s.published + size + 1 >= |s.buffer|
  {
    var oldest := s.published + size + 1 - |s.buffer|;
    var x := if oldest < s.published then s.pushed[oldest] else 0;
    seq(size, k requires 0 <= k => x + 1 + k)
  }

  /** The slot the Pop starts from does not hold the oldest sample that is left. */
  lemma FirstSlotDiffers(s: State, s1: State, gone: nat)
    requires Written(s1) && s1.producer.Idle? && s.published <= |s.pushed| && |s1.buffer| == |s.buffer|
    requires gone <= s.published < gone + |s.buffer| < s1.published
    requires s1.pushed == s.pushed[..s.published] + Telling(s, s1.published - s.published)
    requires gone % |s.buffer| != (s1.published + 1 - |s.buffer|) % |s.buffer|
    ensures s1.buffer[gone % |s.buffer|] != s1.pushed[s1.published + 1 - |s.buffer|]
  {
    var v := Latest(gone, s1.published, |s.buffer|);
    assert s1.buffer[v % |s.buffer|] == s1.pushed[v];
  }

  lemma LapsAreNeeded(s: State, gone: nat, max: nat, size: nat)
    requires HalfLoaded(s, gone, max) && NoRoom(s, gone, size) && max > 0 && !WholeLaps(s, gone, size)
    ensures |Telling(s, size)| == size
    ensures Copies(s, Telling(s, size), gone, max) != Newest(s, Telling(s, size), gone, max)
  {
    NewestOnTape(s, Telling(s, size), gone, max);
    RefilledDiffers(s, Refilled(s, Telling(s, size), gone, max), gone, max, size);
  }

  lemma RefilledDiffers(s: State, s1: State, gone: nat, max: nat, size: nat)
    requires Written(s1) && s1.producer.Idle? && s.published == |s.pushed| && |s1.buffer| == |s.buffer|
    requires gone <= s.published < gone + |s.buffer| <= s.published + size == s1.published
    requires s1.pushed == s.pushed + Telling(s, size) && max > 0 && !WholeLaps(s, gone, size)
    ensures var oldest := s1.published + 1 - |s.buffer|;
      Slots(s1, gone, Least(max, Apparent(s, gone, size))) != s1.pushed[oldest..oldest + Least(max, |s.buffer| - 1)]
  {
    WholeLapsMeans(s, gone, size);
    var apparent := Apparent(s, gone, size);
    if max <= apparent {
      FirstIsNotOldest(s, s1, gone, size);
    }
    SlotsDiffer(s1, gone, s1.published + 1 - |s.buffer|, apparent, max);
  }

  lemma FirstIsNotOldest(s: State, s1: State, gone: nat, size: nat)
    requires Written(s1) && s1.producer.Idle? && s.published == |s.pushed| && |s1.buffer| == |s.buffer|
    requires gone <= s.published < gone + |s.buffer| <= s.published + size == s1.published
    requires s1.pushed == s.pushed + Telling(s, size)
    requires Apparent(s, gone, size) > 0 && !WholeLaps(s, gone, size)
    ensures s1.buffer[gone % |s.buffer|] != s1.pushed[s1.published + 1 - |s.buffer|]
  {
    WholeLapsMeans(s, gone, size);
    NotOneLap(s, gone, size);
    assert s.pushed[..s.published] == s.pushed;
    FirstSlotDiffers(s, s1, gone);
  }

  /** Fewer samples than there are, or a wrong first one. */
  lemma SlotsDiffer(s: State, gone: nat, oldest: nat, apparent: nat, max: nat)
    requires |s.buffer| > 0 && oldest + |s.buffer| - 1 <= |s.pushed| && apparent < |s.buffer| - 1 && max > 0
    requires max <= apparent ==> s.buffer[gone % |s.buffer|] != s.pushed[oldest]
    ensures Slots(s, gone, Least(max, apparent)) != s.pushed[oldest..oldest + Least(max, |s.buffer| - 1)]
  {
    var n := Least(max, |s.buffer| - 1);
    if max <= apparent {
      assert Slots(s, gone, n)[0] == s.buffer[gone % |s.buffer|];
      assert s.pushed[oldest..oldest + n][0] == s.pushed[oldest];
    }
  }

  lemma NotOneLap(s: State, gone: nat, size: nat)
    requires |s.buffer| > 0 && s.published + size >= gone + |s.buffer| && Apparent(s, gone, size) > 0
    ensures s.published + size > gone + |s.buffer|
  {
    if s.published + size == gone + |s.buffer| {
      DivUnique(|s.buffer|, |s.buffer|, 1, 0);
    }
  }

  /**
   One overflowing push between the two loads of a Pop: whatever is pushed, the Pop returns the
   oldest samples that are left, if and only if it asks for none or the push has gone whole laps.
   */
  lemma OverflowBetweenLoadsExact(s: State, gone: nat, max: nat, size: nat)
    requires HalfLoaded(s, gone, max) && NoRoom(s, gone, size)
    ensures (forall data: seq<int> | |data| == size :: ReturnsNewest(s, data, gone, max))
       <==> max == 0 || WholeLaps(s, gone, size)
  {
    if max == 0 || WholeLaps(s, gone, size) {
      forall data: seq<int> | |data| == size
        ensures ReturnsNewest(s, data, gone, max)
      {
        ReturnsCopies(s, data, gone, max);
        if max == 0 {
          NothingAsked(s, data, gone);
        } else {
          LapsAreEnough(s, data, gone, max);
        }
      }
    } else {
      LapsAreNeeded(s, gone, max, size);
      ReturnsCopies(s, Telling(s, size), gone, max);
    }
  }

  /** What the atomic queue holds after the push and the Pop. */
  function Remaining(s: State, data: seq<int>, gone: nat, max: nat): seq<int>
    requires HalfLoaded(s, gone, max)
  {
    AtomicPop(Queue(LastN(s.pushed[gone..] + data, |s.buffer| - 1), []), max).items
  }

  lemma RemainingOnTape(s: State, data: seq<int>, gone: nat, max: nat)
    requires HalfLoaded(s, gone, max) && NoRoom(s, gone, |data|)
    ensures var oldest := s.published + |data| + 1 - |s.buffer|;
      Remaining(s, data, gone, max) == (s.pushed + data)[oldest + Least(max, |s.buffer| - 1)..]
  {
    assert s.pushed[gone..] + data == (s.pushed + data)[gone..];
  }

  /** The level the ring shows after a Pop that has taken `n` of what was apparent. */
  lemma StoredLevel(s: State, read: seq<int>, gone: nat, n: nat)
    requires Written(s) && s.producer.Idle? && gone <= s.published && n <= (s.published - gone) % |s.buffer|
    ensures var s' := Stored(s, read, gone + n);
      && s'.writePos < |s.buffer| && s'.readPos < |s.buffer|
      && Distance(s'.writePos, s'.readPos, |s.buffer|) == (s.published - gone) % |s.buffer| - n
  {
    ModMinus(s.published - gone, n, |s.buffer|);
    ApparentIsDistance(s.published, gone + n, |s.buffer|);
  }

  /** With whole laps, or when everything is asked for, the store is right. */
  lemma LapsThenStore(s: State, read: seq<int>, gone: nat, n: nat)
    requires Written(s) && s.producer.Idle? && n < |s.buffer| && gone + |s.buffer| <= s.published
    requires gone % |s.buffer| == (s.published + 1 - |s.buffer|) % |s.buffer|
    ensures RingIs(Stored(s, read, gone + n), s.pushed[s.published + 1 - |s.buffer| + n..])
  {
    var oldest := s.published + 1 - |s.buffer|;
    SameShift(gone, oldest, n, |s.buffer|);
    StoredLaps(s, read, gone + n, oldest + n);
  }

  /** What the ring holds after the Pop's store, from the state the push has left. */
  lemma BetweenLoadsStore(s: State, s1: State, gone: nat, max: nat, size: nat, read: seq<int>)
    requires Written(s1) && s1.producer.Idle? && |s1.buffer| == |s.buffer|
    requires gone + |s.buffer| <= s.published + size == s1.published
    ensures var oldest, apparent := s1.published + 1 - |s.buffer|, Apparent(s, gone, size);
      RingIs(Stored(s1, read, gone + Least(max, apparent)), s1.pushed[oldest + Least(max, |s.buffer| - 1)..])
      <==> max >= |s.buffer| - 1 || WholeLaps(s, gone, size)
  {
    WholeLapsMeans(s, gone, size);
    var n := Least(max, Apparent(s, gone, size));
    StoredLevel(s1, read, gone, n);
    if WholeLaps(s, gone, size) {
      LapsThenStore(s1, read, gone, n);
    } else if max >= |s.buffer| - 1 {
      EmptyRing(Stored(s1, read, gone + n));
    }
  }

  /**
   After that Pop's store the ring is the atomic queue, with the push before the Pop, if and only
   if the Pop asked for everything or the laps are whole.
   */
  lemma BetweenLoadsThenStoreExact(s: State, data: seq<int>, gone: nat, max: nat)
    requires HalfLoaded(s, gone, max) && NoRoom(s, gone, |data|)
    ensures var ls := PushBetweenLoads(data, Least(max, Apparent(s, gone, |data|)));
      && Legal(s, ls)
      && (RingIs(Exec(s, ls), Remaining(s, data, gone, max))
          <==> max >= |s.buffer| - 1 || WholeLaps(s, gone, |data|))
  {
    HalfLoadedRuns(s, data, gone, max);
    BetweenLoadsRing(s, data, gone, max);
  }

  lemma BetweenLoadsRing(s: State, data: seq<int>, gone: nat, max: nat)
    requires HalfLoaded(s, gone, max) && NoRoom(s, gone, |data|)
    ensures var n, read := Least(max, Apparent(s, gone, |data|)), s.read + Copies(s, data, gone, max);
      RingIs(Stored(Refilled(s, data, gone, max), read, gone + n), Remaining(s, data, gone, max))
      <==> max >= |s.buffer| - 1 || WholeLaps(s, gone, |data|)
  {
    RemainingOnTape(s, data, gone, max);
    BetweenLoadsStore(s, Refilled(s, data, gone, max), gone, max, |data|, s.read + Copies(s, data, gone, max));
  }

  lemma EmptyRing(s: State)
    requires Written(s) && s.producer.Idle? && s.consumer.Resting? && s.readPos < |s.buffer|
    requires Distance(s.writePos, s.readPos, |s.buffer|) == 0
    ensures RingIs(s, [])
  {
  }
}
