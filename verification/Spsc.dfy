/**
 The same ring buffer with Push and Pop split into their loads, element copies and stores, one
 producer thread and one consumer thread interleaved in any way.
 */
module Spsc {
  import opened Arithmetic
  import opened RingBuffers

  datatype Producer =
    | Idle
    | LoadR(data: seq<int>, w: nat)               // has loaded writePos
    | DropOldest(data: seq<int>, to: nat)         // does not fit: about to store readPos
    | ReloadW(data: seq<int>)
    | Copying(data: seq<int>, i: nat, w: nat)

  datatype Consumer =
    | Resting
    | LoadW(max: nat, r: nat)                     // has loaded readPos
    | Reading(n: nat, i: nat, r: nat)

  datatype State = State(
    buffer: seq<int>, writePos: nat, readPos: nat,
    producer: Producer, consumer: Consumer,
    pushed: seq<int>,        // history: the data of every push begun
    published: nat,          // how many of those a store of writePos has published
    read: seq<int>,          // everything Pop has copied out
    overflowed: bool)        // some push found no room

  datatype Label = Push(data: seq<int>) | Produce | Pop(max: nat) | Consume

  predicate Init(s: State) {
    && s.buffer != []
    && s == State(s.buffer, 0, 0, Idle, Resting, [], 0, [], false)
  }

  predicate Enabled(s: State, l: Label) {
    && |s.buffer| > 0
    && match l
       case Push(data) => s.producer.Idle? && data != []
       case Produce => !s.producer.Idle? && InBounds(s)
       case Pop(_) => s.consumer.Resting?
       case Consume => !s.consumer.Resting? && InBounds(s)
  }

  predicate InBounds(s: State) {
    && s.writePos < |s.buffer| && s.readPos < |s.buffer|
    && (s.producer.LoadR? ==> s.producer.w < |s.buffer|)
    && (s.producer.Copying? ==> s.producer.w < |s.buffer| && s.producer.i <= |s.producer.data|)
    && (s.consumer.LoadW? ==> s.consumer.r < |s.buffer|)
    && (s.consumer.Reading? ==> s.consumer.r < |s.buffer| && s.consumer.i <= s.consumer.n)
  }

  function ProducerStep(s: State): State
    requires Enabled(s, Produce)
  {
    var capacity := |s.buffer|;
    match s.producer
    case LoadR(data, w) =>
      var used := Distance(w, s.readPos, capacity);
      if used + |data| < capacity then s.(producer := ReloadW(data))
      else
        var drop := |data| - (capacity - used - 1);
        s.(producer := DropOldest(data, (s.readPos + drop) % capacity), overflowed := true)
    case DropOldest(data, to) => s.(readPos := to, producer := ReloadW(data))
    case ReloadW(data) => s.(producer := Copying(data, 0, s.writePos))
    case Copying(data, i, w) =>
      if i < |data| then
        s.(buffer := s.buffer[w := data[i]], producer := Copying(data, i + 1, (w + 1) % capacity))
      else
        s.(writePos := w, producer := Idle, published := s.published + |data|)
  }

  function ConsumerStep(s: State): State
    requires Enabled(s, Consume)
  {
    var capacity := |s.buffer|;
    match s.consumer
    case LoadW(max, r) =>
      var available := Distance(s.writePos, r, capacity);
      s.(consumer := Reading(if max < available then max else available, 0, r))
    case Reading(n, i, r) =>
      if i < n then s.(read := s.read + [s.buffer[r]], consumer := Reading(n, i + 1, (r + 1) % capacity))
      else s.(readPos := r, consumer := Resting)
  }

  function Apply(s: State, l: Label): State
    requires Enabled(s, l)
  {
    match l
    case Push(data) => s.(producer := LoadR(data, s.writePos), pushed := s.pushed + data)
    case Produce => ProducerStep(s)
    case Pop(max) => s.(consumer := LoadW(max, s.readPos))
    case Consume => ConsumerStep(s)
  }

  predicate Legal(s: State, ls: seq<Label>)
    decreases |ls|
  {
    ls == [] || (Enabled(s, ls[0]) && Legal(Apply(s, ls[0]), ls[1..]))
  }

  function Exec(s: State, ls: seq<Label>): State
    requires Legal(s, ls)
    decreases |ls|
  {
    if ls == [] then s else Exec(Apply(s, ls[0]), ls[1..])
  }

  // ---------------------------------------------------------------- the invariant without overflow

  /** How many samples a finished Pop has released to the producer. */
  function Released(s: State): int {
    |s.read| - (if s.consumer.Reading? then s.consumer.i else 0)
  }

  /** The samples the producer has copied but not yet published. */
  function Copied(s: State): nat {
    if s.producer.Copying? then s.producer.i else 0
  }

  predicate Positions(s: State)
    requires |s.buffer| > 0
  {
    && 0 <= Released(s) <= |s.read| <= s.published < Released(s) + |s.buffer|
    && s.writePos == s.published % |s.buffer|
    && s.readPos == Released(s) % |s.buffer|
    && s.published <= |s.pushed|
    && (s.producer.Idle? ==> s.published == |s.pushed|)
  }

  predicate ProducerAt(s: State)
    requires |s.buffer| > 0 && Positions(s)
  {
    match s.producer
    case Idle => true
    case DropOldest(_, _) => false
    case LoadR(data, w) => s.pushed[s.published..] == data && w == s.writePos
    case ReloadW(data) => s.pushed[s.published..] == data && s.published + |data| < Released(s) + |s.buffer|
    case Copying(data, i, w) =>
      && s.pushed[s.published..] == data && s.published + |data| < Released(s) + |s.buffer|
      && i <= |data| && w == (s.published + i) % |s.buffer|
  }

  predicate ConsumerAt(s: State)
    requires |s.buffer| > 0 && Positions(s)
  {
    match s.consumer
    case Resting => true
    case LoadW(_, r) => r == s.readPos
    case Reading(n, i, r) => i <= n && Released(s) + n <= s.published && r == |s.read| % |s.buffer|
  }

  predicate Inv(s: State) {
    && |s.buffer| > 0
    && Positions(s) && ProducerAt(s) && ConsumerAt(s)
    && s.read == s.pushed[..|s.read|]
    && forall v: nat | Released(s) <= v < s.published + Copied(s) :: s.buffer[v % |s.buffer|] == s.pushed[v]
  }

  lemma ProduceStep(s: State)
    requires Inv(s) && Enabled(s, Produce) && !ProducerStep(s).overflowed
    ensures Inv(ProducerStep(s))
  {
    match s.producer {
      case LoadR(data, w) => ModDistance(s.published, Released(s), |s.buffer|);
      case Copying(data, i, w) => if i < |data| { CopyIn(s); }
      case _ =>
    }
  }

  /** The slot the producer writes is none of those that hold unread samples. */
  lemma CopyIn(s: State)
    requires Inv(s) && s.producer.Copying? && s.producer.i < |s.producer.data|
    ensures Enabled(s, Produce) && Inv(ProducerStep(s))
  {
    var m, end, s' := |s.buffer|, s.published + s.producer.i, ProducerStep(s);
    ModStep(end, m);
    assert s.producer.data[s.producer.i] == s.pushed[end];
    forall v: nat | Released(s) <= v < end
      ensures s'.buffer[v % m] == s.pushed[v]
    {
      ModDistinct(v, end, m);
    }
  }

  lemma ConsumeStep(s: State)
    requires Inv(s) && Enabled(s, Consume)
    ensures Inv(ConsumerStep(s))
  {
    match s.consumer {
      case LoadW(_, r) => ModDistance(s.published, Released(s), |s.buffer|);
      case Reading(n, i, r) => if i < n { CopyOut(s); }
      case Resting =>
    }
  }

  /** The slot the consumer copies holds the next sample that was pushed. */
  lemma CopyOut(s: State)
    requires Inv(s) && s.consumer.Reading? && s.consumer.i < s.consumer.n
    ensures Enabled(s, Consume) && Inv(ConsumerStep(s))
  {
    ModStep(|s.read|, |s.buffer|);
    assert s.buffer[s.consumer.r] == s.pushed[|s.read|];
  }

  lemma {:induction false} OverflowStays(s: State, ls: seq<Label>)
    requires Legal(s, ls) && s.overflowed
    ensures Exec(s, ls).overflowed
    decreases |ls|
  {
    if ls != [] {
      OverflowStays(Apply(s, ls[0]), ls[1..]);
    }
  }

  lemma {:induction false} InvRun(s: State, ls: seq<Label>)
    requires Inv(s) && Legal(s, ls) && !Exec(s, ls).overflowed
    ensures Inv(Exec(s, ls))
    decreases |ls|
  {
    if ls != [] {
      var s' := Apply(s, ls[0]);
      if s'.overflowed {
        OverflowStays(s', ls[1..]);
      }
      match ls[0] {
        case Produce => ProduceStep(s);
        case Consume => ConsumeStep(s);
        case Push(data) => assert (s.pushed + data)[s.published..] == data;
        case Pop(_) =>
      }
      InvRun(s', ls[1..]);
    }
  }

  /** The next step of the producer writes a slot; of the consumer, reads one. */
  predicate Writes(s: State) { s.producer.Copying? && s.producer.i < |s.producer.data| }

  predicate Reads(s: State) { s.consumer.Reading? && s.consumer.i < s.consumer.n }

  /**
   While no push overflows, in every interleaving: what was read is what was pushed, in order,
   from the start; nothing is read before it is published; and the two copy loops never touch
   the same slot.
   */
  lemma QueueRefinement(s0: State, ls: seq<Label>)
    requires Init(s0) && Legal(s0, ls) && !Exec(s0, ls).overflowed
    ensures var s := Exec(s0, ls);
      && |s.read| <= s.published <= |s.pushed| && s.read == s.pushed[..|s.read|]
      && (Reads(s) ==>
           |s.read| < s.published && s.consumer.r < |s.buffer| && s.buffer[s.consumer.r] == s.pushed[|s.read|])
      && (Writes(s) && Reads(s) ==> s.producer.w != s.consumer.r)
      && (s.producer.Idle? && s.consumer.Resting? ==>
           InBounds(s) && s.pushed == s.read + s.pushed[|s.read|..]
           && Distance(s.writePos, s.readPos, |s.buffer|) == |s.pushed| - |s.read|)
  {
    DivUnique(0, |s0.buffer|, 0, 0);
    InvRun(s0, ls);
    var s := Exec(s0, ls);
    ModDistance(s.published, Released(s), |s.buffer|);
    if Writes(s) && Reads(s) {
      ModDistinct(|s.read|, s.published + s.producer.i, |s.buffer|);
    }
  }

  // ---------------------------------------------------------------- with overflow

  lemma ExecCons(s: State, l: Label, ls: seq<Label>)
    requires Enabled(s, l) && Legal(Apply(s, l), ls)
    ensures Legal(s, [l] + ls) && Exec(s, [l] + ls) == Exec(Apply(s, l), ls)
  {
    assert ([l] + ls)[1..] == ls;
  }

  /** The ring of three slots holds 1 and 2; Pop(1) has loaded its two positions. */
  const TEARING := State([1, 2, 0], 2, 0, Idle, Reading(1, 0, 0), [1, 2], 2, [], false)

  lemma TearingReached()
    ensures var ls := [Push([1, 2]), Produce, Produce, Produce, Produce, Produce, Pop(1), Consume];
      var s0 := State([0, 0, 0], 0, 0, Idle, Resting, [], 0, [], false);
      Init(s0) && Legal(s0, ls) && Exec(s0, ls) == TEARING
  {
    var s0 := State([0, 0, 0], 0, 0, Idle, Resting, [], 0, [], false);
    var s1 := s0.(producer := LoadR([1, 2], 0), pushed := [1, 2]);
    var s2 := s1.(producer := ReloadW([1, 2]));
    var s3 := s1.(producer := Copying([1, 2], 0, 0));
    var s4 := s1.(buffer := [1, 0, 0], producer := Copying([1, 2], 1, 1));
    var s5 := s1.(buffer := [1, 2, 0], producer := Copying([1, 2], 2, 2));
    var s6 := s5.(producer := Idle, writePos := 2, published := 2);
    var s7 := s6.(consumer := LoadW(1, 0));
    assert [] + [1, 2] == [1, 2];
    ExecCons(s7, Consume, []);
    ExecCons(s6, Pop(1), [Consume]);
    ExecCons(s5, Produce, [Pop(1), Consume]);
    ExecCons(s4, Produce, [Produce, Pop(1), Consume]);
    ExecCons(s3, Produce, [Produce, Produce, Pop(1), Consume]);
    ExecCons(s2, Produce, [Produce, Produce, Produce, Pop(1), Consume]);
    ExecCons(s1, Produce, [Produce, Produce, Produce, Produce, Pop(1), Consume]);
    ExecCons(s0, Push([1, 2]), [Produce, Produce, Produce, Produce, Produce, Pop(1), Consume]);
  }

  /** Then a push of 3 and 4 has run from start to end, dropping both old samples. */
  const TORN := State([4, 2, 3], 1, 2, Idle, Reading(1, 0, 0), [1, 2, 3, 4], 4, [], true)

  lemma TornReached()
    ensures var ls := [Push([3, 4]), Produce, Produce, Produce, Produce, Produce, Produce];
      Legal(TEARING, ls) && Exec(TEARING, ls) == TORN
  {
    var s0 := TEARING;
    var s1 := s0.(producer := LoadR([3, 4], 2), pushed := [1, 2, 3, 4]);
    var s2 := s1.(producer := DropOldest([3, 4], 2), overflowed := true);
    var s3 := s2.(producer := ReloadW([3, 4]), readPos := 2);
    var s4 := s3.(producer := Copying([3, 4], 0, 2));
    var s5 := s3.(producer := Copying([3, 4], 1, 0), buffer := [1, 2, 3]);
    var s6 := s3.(producer := Copying([3, 4], 2, 1), buffer := [4, 2, 3]);
    assert [1, 2] + [3, 4] == [1, 2, 3, 4];
    ExecCons(s6, Produce, []);
    ExecCons(s5, Produce, [Produce]);
    ExecCons(s4, Produce, [Produce, Produce]);
    ExecCons(s3, Produce, [Produce, Produce, Produce]);
    ExecCons(s2, Produce, [Produce, Produce, Produce, Produce]);
    ExecCons(s1, Produce, [Produce, Produce, Produce, Produce, Produce]);
    ExecCons(s0, Push([3, 4]), [Produce, Produce, Produce, Produce, Produce, Produce]);
  }

  /**
   The Pop returns 4, which no order of whole calls allows, and its store of the read position
   discards both 3 and 4 from the ring.
   */
  lemma OverflowTears()
    ensures var ls := [Consume, Consume];
      && Legal(TORN, ls)
      && Exec(TORN, ls).read == [4] && Exec(TORN, ls).readPos == Exec(TORN, ls).writePos
  {
    var s1 := TORN.(consumer := Reading(1, 1, 1), read := [4]);
    assert [] + [4] == [4];
    ExecCons(s1, Consume, []);
    ExecCons(TORN, Consume, [Consume]);
  }
}
