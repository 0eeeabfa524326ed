/** When the two-thread ring buffer is the atomic drop-oldest queue, although pushes overflow. */
module SpscQueue {
  import opened Arithmetic
  import opened RingBuffers
  import opened Spsc

  // ---------------------------------------------------------------- the atomic queue

  /** The ring as atomic calls, and everything its pops have returned. */
  datatype Queue = Queue(items: seq<int>, popped: seq<int>)

  function Least(a: nat, b: nat): nat { if a < b then a else b }

  function AtomicPop(q: Queue, max: nat): Queue {
    var n := Least(max, |q.items|);
    Queue(q.items[n..], q.popped + q.items[..n])
  }

  /** A push takes effect when it publishes, a pop when it has loaded the write position. */
  function Effect(s: State, l: Label, q: Queue): Queue
    requires Enabled(s, l)
  {
    if l.Produce? && s.producer.Copying? && s.producer.i == |s.producer.data| then
      q.(items := LastN(q.items + s.producer.data, |s.buffer| - 1))
    else if l.Consume? && s.consumer.LoadW? then AtomicPop(q, s.consumer.max)
    else q
  }

  function Replay(s: State, ls: seq<Label>, q: Queue): Queue
    requires Legal(s, ls)
    decreases |ls|
  {
    if ls == [] then q else Replay(Apply(s, ls[0]), ls[1..], Effect(s, ls[0], q))
  }

  // ---------------------------------------------------------------- overflowing pushes apart from pops

  /** The push that is about to decide finds no room. */
  predicate Overflows(s: State)
    requires Enabled(s, Produce)
  {
    s.producer.LoadR? && Distance(s.producer.w, s.readPos, |s.buffer|) + |s.producer.data| >= |s.buffer|
  }

  /** Whether an overflowing push is under way after the step, given whether one was before. */
  predicate Dropping(s: State, l: Label, dropping: bool)
    requires Enabled(s, l)
  {
    if l != Produce then dropping
    else if s.producer.LoadR? then Overflows(s)
    else dropping && !(s.producer.Copying? && s.producer.i == |s.producer.data|)
  }

  /** A push that overflows finds no Pop under way, and none begins until it has published. */
  predicate Apart(s: State, ls: seq<Label>, dropping: bool)
    requires Legal(s, ls)
    decreases |ls|
  {
    ls == [] ||
    (&& (ls[0] == Produce && Overflows(s) ==> s.consumer.Resting?)
     && (ls[0].Pop? ==> !dropping)
     && Apart(Apply(s, ls[0]), ls[1..], Dropping(s, ls[0], dropping)))
  }

  /** The contents of `n` slots in ring order. */
  function Slots(s: State, at: nat, n: nat): seq<int>
    requires |s.buffer| > 0
  {
    seq(n, k requires 0 <= k => s.buffer[(at + k) % |s.buffer|])
  }

  /** The ring between calls holds exactly `items`. */
  predicate RingIs(s: State, items: seq<int>) {
    && |s.buffer| > 0 && InBounds(s) && Distance(s.writePos, s.readPos, |s.buffer|) == |items|
    && Slots(s, s.readPos, |items|) == items
  }

  // ---------------------------------------------------------------- what the producer alone keeps

  /** The last lap of slots before the write position holds the last samples written, always. */
  predicate Tape(s: State) {
    && |s.buffer| > 0 && s.published + Copied(s) <= |s.pushed|
    && forall v: nat | v < s.published + Copied(s) <= v + |s.buffer| :: s.buffer[v % |s.buffer|] == s.pushed[v]
  }

  predicate Written(s: State) {
    && Tape(s)
    && s.writePos == s.published % |s.buffer|
    && match s.producer
       case Idle => s.published == |s.pushed|
       case LoadR(data, w) => s.pushed[s.published..] == data && w == s.writePos
       case DropOldest(data, _) => s.pushed[s.published..] == data
       case ReloadW(data) => s.pushed[s.published..] == data
       case Copying(data, i, w) =>
         s.pushed[s.published..] == data && i <= |data| && w == (s.published + i) % |s.buffer|
  }

  lemma CopySlot(s: State)
    requires Written(s) && Writes(s) && Enabled(s, Produce)
    ensures Written(ProducerStep(s))
  {
    var m, e, s' := |s.buffer|, s.published + s.producer.i, ProducerStep(s);
    ModStep(e, m);
    assert s.producer.data[s.producer.i] == s.pushed[e];
    forall v: nat | v < e < v + m
      ensures s'.buffer[v % m] == s.pushed[v]
    {
      ModDistinct(v, e, m);
    }
  }

  lemma WrittenStep(s: State, l: Label)
    requires Written(s) && Enabled(s, l)
    ensures Written(Apply(s, l))
  {
    match l {
      case Push(data) => assert (s.pushed + data)[s.published..] == data;
      case Produce => if Writes(s) { CopySlot(s); }
      case _ =>
    }
  }

  // ---------------------------------------------------------------- the simulation

  /** `gone` samples have left the ring; the push under way has dropped `over` of them. */
  predicate ProducerSim(s: State, gone: nat, over: nat)
    requires Written(s)
  {
    match s.producer
    case Idle => over == 0
    case LoadR(_, _) => over == 0
    case DropOldest(data, to) =>
      && over == 0 && s.consumer.Resting? && s.published + |data| >= gone + |s.buffer|
      && to == (s.published + |data| - |s.buffer| + 1) % |s.buffer|
    case ReloadW(data) => RoomFor(s, data, gone, over)
    case Copying(data, _, _) => RoomFor(s, data, gone, over)
  }

  predicate RoomFor(s: State, data: seq<int>, gone: nat, over: nat) {
    && s.published + |data| < gone + |s.buffer|
    && (over > 0 ==> s.consumer.Resting? && gone == s.published + |data| - |s.buffer| + 1)
  }

  /** What a Pop has still to copy is the end of what the atomic one has returned. */
  predicate ConsumerSim(s: State, q: Queue, gone: nat, over: nat)
    requires Written(s)
  {
    match s.consumer
    case Resting => s.read == q.popped
    case LoadW(_, r) => over == 0 && r == s.readPos && s.read == q.popped
    case Reading(n, i, r) =>
      && over == 0 && i <= n && gone + n <= s.published && r == (gone + i) % |s.buffer|
      && |q.popped| == |s.read| + n - i && s.read == q.popped[..|s.read|]
      && |s.read| >= i && q.popped[|s.read| - i..] == s.pushed[gone..gone + n]
  }

  /** The first sample of the atomic queue, as a position on the tape. */
  function Base(s: State, gone: nat, over: nat): int {
    gone - over + (if s.consumer.Reading? then s.consumer.n else 0)
  }

  predicate QueueSim(s: State, q: Queue, gone: nat, over: nat)
    requires Written(s)
  {
    && over <= gone && gone - over <= s.published < gone - over + |s.buffer|
    && 0 <= Base(s, gone, over) <= s.published && q.items == s.pushed[Base(s, gone, over)..s.published]
    && s.readPos == gone % |s.buffer|
  }

  predicate Sim(s: State, q: Queue, gone: nat, over: nat) {
    Written(s) && ProducerSim(s, gone, over) && ConsumerSim(s, q, gone, over) && QueueSim(s, q, gone, over)
  }

  lemma SimPush(s: State, data: seq<int>, q: Queue, gone: nat)
    requires Sim(s, q, gone, 0) && Enabled(s, Push(data))
    ensures Sim(Apply(s, Push(data)), q, gone, 0)
  {
    WrittenStep(s, Push(data));
    LongerTape(s.pushed, data, Base(s, gone, 0), s.published);
    if s.consumer.Reading? {
      LongerTape(s.pushed, data, gone, gone + s.consumer.n);
    }
  }

  lemma LongerTape(tape: seq<int>, data: seq<int>, from: nat, to: nat)
    requires from <= to <= |tape|
    ensures (tape + data)[from..to] == tape[from..to]
  {
  }

  lemma SimPop(s: State, max: nat, q: Queue, gone: nat)
    requires Sim(s, q, gone, 0) && Enabled(s, Pop(max)) && !s.producer.DropOldest?
    ensures Sim(Apply(s, Pop(max)), q, gone, 0)
  {
    WrittenStep(s, Pop(max));
  }

  lemma SimDecide(s: State, q: Queue, gone: nat)
    requires Sim(s, q, gone, 0) && Enabled(s, Produce) && s.producer.LoadR?
    requires Overflows(s) ==> s.consumer.Resting?
    ensures Sim(ProducerStep(s), q, gone, 0) && (ProducerStep(s).producer.DropOldest? <==> Overflows(s))
  {
    WrittenStep(s, Produce);
    var m, data := |s.buffer|, s.producer.data;
    ModDistance(s.published, gone, m);
    if Overflows(s) {
      var drop: nat := |data| - (m - (s.published - gone) - 1);
      ModAdd(gone, drop, m);
      assert gone + drop == s.published + |data| - m + 1;
    }
  }

  lemma SimDrop(s: State, q: Queue, gone: nat) returns (gone': nat)
    requires Sim(s, q, gone, 0) && Enabled(s, Produce) && s.producer.DropOldest?
    ensures gone' > gone && Sim(ProducerStep(s), q, gone', gone' - gone)
  {
    gone' := s.published + |s.producer.data| - |s.buffer| + 1;
    WrittenStep(s, Produce);
  }

  lemma SimReload(s: State, q: Queue, gone: nat, over: nat)
    requires Sim(s, q, gone, over) && Enabled(s, Produce) && s.producer.ReloadW?
    ensures Sim(ProducerStep(s), q, gone, over)
  {
    WrittenStep(s, Produce);
  }

  lemma SimCopy(s: State, q: Queue, gone: nat, over: nat)
    requires Sim(s, q, gone, over) && Enabled(s, Produce) && Writes(s)
    ensures Sim(ProducerStep(s), q, gone, over)
  {
    CopySlot(s);
    var s' := ProducerStep(s);
    assert s' == s.(buffer := s'.buffer, producer := s'.producer) && |s'.buffer| == |s.buffer|;
  }

  /** Publishing is the atomic push: the newest samples that fit. */
  lemma SimPublish(s: State, q: Queue, gone: nat, over: nat)
    requires Sim(s, q, gone, over) && Enabled(s, Produce)
    requires s.producer.Copying? && s.producer.i == |s.producer.data|
    ensures Sim(ProducerStep(s), Effect(s, Produce, q), gone, 0)
  {
    PublishSlots(s);
    PublishItems(s, q, gone, over);
  }

  lemma PublishSlots(s: State)
    requires Written(s) && Enabled(s, Produce) && s.producer.Copying? && s.producer.i == |s.producer.data|
    ensures var s' := ProducerStep(s);
      && Written(s') && s'.published == |s.pushed|
      && s' == s.(writePos := s'.writePos, producer := Idle, published := |s.pushed|)
  {
    WrittenStep(s, Produce);
  }

  lemma PublishItems(s: State, q: Queue, gone: nat, over: nat)
    requires Sim(s, q, gone, over) && Enabled(s, Produce)
    requires s.producer.Copying? && s.producer.i == |s.producer.data|
    ensures var base: int := gone + (if s.consumer.Reading? then s.consumer.n else 0);
      && 0 <= base <= |s.pushed| < gone + |s.buffer|
      && Effect(s, Produce, q) == q.(items := s.pushed[base..])
  {
    NewestOfTape(s.pushed, Base(s, gone, over), s.published, |s.buffer| - 1);
  }

  lemma NewestOfTape(tape: seq<int>, from: nat, w: nat, room: nat)
    requires from <= w <= |tape|
    ensures LastN(tape[from..w] + tape[w..], room) == tape[if |tape| - from <= room then from else |tape| - room..]
  {
    assert tape[from..w] + tape[w..] == tape[from..];
  }

  /** Loading the write position is the atomic pop. */
  lemma SimLoad(s: State, q: Queue, gone: nat)
    requires Sim(s, q, gone, 0) && Enabled(s, Consume) && s.consumer.LoadW?
    ensures Sim(ConsumerStep(s), Effect(s, Consume, q), gone, 0)
  {
    WrittenStep(s, Consume);
    ModDistance(s.published, gone, |s.buffer|);
    var n := Least(s.consumer.max, |q.items|);
    assert (q.popped + q.items[..n])[|s.read|..] == q.items[..n] == s.pushed[gone..gone + n];
    assert q.items[n..] == s.pushed[gone + n..s.published];
  }

  lemma SimRead(s: State, q: Queue, gone: nat)
    requires Sim(s, q, gone, 0) && Enabled(s, Consume) && Reads(s)
    ensures Sim(ConsumerStep(s), q, gone, 0)
  {
    WrittenStep(s, Consume);
    var i, n := s.consumer.i, s.consumer.n;
    var v := gone + i;
    ModStep(v, |s.buffer|);
    assert s.buffer[v % |s.buffer|] == s.pushed[v];
    assert q.popped[|s.read| - i..][i] == s.pushed[gone..gone + n][i];
    assert q.popped[..|s.read| + 1] == q.popped[..|s.read|] + [q.popped[|s.read|]];
  }

  lemma SimReturn(s: State, q: Queue, gone: nat)
    requires Sim(s, q, gone, 0) && Enabled(s, Consume) && s.consumer.Reading? && s.consumer.i == s.consumer.n
    ensures Sim(ConsumerStep(s), q, gone + s.consumer.n, 0)
  {
    WrittenStep(s, Consume);
  }

  /** What the run's bookkeeping says about the push under way. */
  predicate Marked(s: State, over: nat, dropping: bool) {
    over > 0 || s.producer.DropOldest? ==> dropping
  }

  lemma SimProduce(s: State, q: Queue, gone: nat, over: nat, dropping: bool) returns (gone': nat, over': nat)
    requires Sim(s, q, gone, over) && Marked(s, over, dropping) && Enabled(s, Produce)
    requires Overflows(s) ==> s.consumer.Resting?
    ensures Sim(ProducerStep(s), Effect(s, Produce, q), gone', over')
    ensures Marked(ProducerStep(s), over', Dropping(s, Produce, dropping))
  {
    gone', over' := gone, over;
    if s.producer.LoadR? {
      SimDecide(s, q, gone);
    } else if s.producer.DropOldest? {
      gone' := SimDrop(s, q, gone);
      over' := gone' - gone;
    } else if s.producer.ReloadW? {
      SimReload(s, q, gone, over);
    } else if Writes(s) {
      SimCopy(s, q, gone, over);
    } else {
      SimPublish(s, q, gone, over);
      over' := 0;
    }
  }

  lemma SimConsume(s: State, q: Queue, gone: nat, over: nat) returns (gone': nat)
    requires Sim(s, q, gone, over) && Enabled(s, Consume)
    ensures over == 0 && Sim(ConsumerStep(s), Effect(s, Consume, q), gone', 0)
    ensures ConsumerStep(s).producer == s.producer
  {
    gone' := gone;
    if s.consumer.LoadW? {
      SimLoad(s, q, gone);
    } else if Reads(s) {
      SimRead(s, q, gone);
    } else {
      SimReturn(s, q, gone);
      gone' := gone + s.consumer.n;
    }
  }

  lemma SimBegin(s: State, l: Label, q: Queue, gone: nat, over: nat, dropping: bool)
    requires Sim(s, q, gone, over) && Marked(s, over, dropping) && Enabled(s, l)
    requires l.Push? || (l.Pop? && !dropping)
    ensures over == 0 && Sim(Apply(s, l), q, gone, 0) && Marked(Apply(s, l), 0, dropping)
  {
    match l {
      case Push(data) => SimPush(s, data, q, gone);
      case Pop(max) => SimPop(s, max, q, gone);
      case _ =>
    }
  }

  lemma {:induction false} SimRun(s: State, ls: seq<Label>, q: Queue, gone: nat, over: nat, dropping: bool)
      returns (gone': nat, over': nat)
    requires Sim(s, q, gone, over) && Marked(s, over, dropping) && Legal(s, ls) && Apart(s, ls, dropping)
    ensures Sim(Exec(s, ls), Replay(s, ls, q), gone', over')
    decreases |ls|
  {
    if ls == [] {
      return gone, over;
    }
    var l := ls[0];
    gone', over' := gone, 0;
    match l {
      case Produce => gone', over' := SimProduce(s, q, gone, over, dropping);
      case Consume => gone' := SimConsume(s, q, gone, over);
      case _ => SimBegin(s, l, q, gone, over, dropping);
    }
    gone', over' := SimRun(Apply(s, l), ls[1..], Effect(s, l, q), gone', over', Dropping(s, l, dropping));
  }

  /**
   In every interleaving in which overflowing pushes and pops do not overlap, the ring is the
   atomic drop-oldest queue: what has been read is what its pops return, in order, and between
   calls the slots hold its contents. Pushes that fit may overlap pops in any way.
   */
  lemma Linearizable(s0: State, ls: seq<Label>)
    requires Init(s0) && Legal(s0, ls) && Apart(s0, ls, false)
    ensures var s, q := Exec(s0, ls), Replay(s0, ls, Queue([], []));
      && |s.read| <= |q.popped| && s.read == q.popped[..|s.read|]
      && (s.consumer.Resting? ==> s.read == q.popped)
      && (s.consumer.Resting? && s.producer.Idle? ==>
           RingIs(s, q.items))
  {
    DivUnique(0, |s0.buffer|, 0, 0);
    var gone, over := SimRun(s0, ls, Queue([], []), 0, 0, false);
    var s, q := Exec(s0, ls), Replay(s0, ls, Queue([], []));
    if s.consumer.Resting? && s.producer.Idle? {
      ModDistance(s.published, gone, |s.buffer|);
      SlotsAreTape(s, gone, |q.items|);
    }
  }

  lemma SlotsAreTape(s: State, from: nat, n: nat)
    requires Written(s) && from + n <= s.published && s.published + Copied(s) <= from + |s.buffer|
    ensures Slots(s, from % |s.buffer|, n) == Slots(s, from, n) == s.pushed[from..from + n]
  {
    var m, tape := |s.buffer|, s.pushed[from..from + n];
    var slots, shifted := Slots(s, from, n), Slots(s, from % m, n);
    forall k: nat | k < n
      ensures slots[k] == shifted[k] == tape[k]
    {
      ModAdd(from, k, m);
      assert s.buffer[(from + k) % m] == s.pushed[from + k];
    }
  }
}
