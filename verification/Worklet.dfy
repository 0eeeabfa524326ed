/**
 The browser's playback machine: a ring with a sample count, and the same three states. Unlike
 the native one it goes on dequeuing while it is in SOFT_UNDERRUN.
 */
module Worklets {
  import opened Wrappers
  import opened Arithmetic
  import opened RingBuffers
  import opened Renders

  datatype Worklet = Worklet(
    mode: Mode, env: real, lastL: real, lastR: real,
    everStarted: bool, underruns: nat, availMin: Option<nat>)

  /** One output frame: both channels, or their mean for a mono output. */
  datatype Frame = Stereo(l: real, r: real) | Mono(m: real)

  datatype Turn = Turn(s: Worklet, ring: seq<real>, output: seq<Frame>)

  // ---------------------------------------------------------------- one call of process()

  function Mixed(l: real, r: real, stereo: bool): Frame {
    if stereo then Stereo(l, r) else Mono((l + r) * 0.5)
  }

  function Amplified(f: Frame, gain: real): Frame {
    match f
    case Stereo(l, r) => Stereo(l * gain, r * gain)
    case Mono(m) => Mono(m * gain)
  }

  function Repeated(f: Frame, frames: nat): seq<Frame> { seq(frames, _ => f) }

  /** A full read: consecutive pairs of samples. */
  function ReadFrames(ring: seq<real>, frames: nat, stereo: bool): seq<Frame>
    requires 2 * frames <= |ring|
  {
    seq(frames, i requires 0 <= i < frames => Mixed(ring[2 * i], ring[2 * i + 1], stereo))
  }

  /** The first `upto` frames of the block with the envelope applied. */
  function Faded(block: seq<Frame>, gain: nat -> real, upto: nat): seq<Frame> {
    seq(|block|, i requires 0 <= i < |block| => if i < upto then Amplified(block[i], gain(i + 1)) else block[i])
  }

  function Water(p: Params, s: Worklet): nat {
    if s.everStarted then p.resumeWater else p.startWater
  }

  /** State after the read-or-hold branch, before the migration and the ramp. */
  function Fetch(s: Worklet, ring: seq<real>, need: nat): Worklet {
    if |ring| >= need then
      if need < 2 then s else s.(lastL := ring[need - 2], lastR := ring[need - 1])
    else if s.mode == Playing then s.(mode := SoftUnderrun, underruns := s.underruns + 1)
    else s
  }

  function Migrate(p: Params, s: Worklet, avail: nat): Worklet {
    if s.mode == SoftUnderrun && s.env <= 0.0 && avail >= p.resumeWater then s.(mode := Prefill) else s
  }

  function Conclude(p: Params, s: Worklet, normal: bool, frames: nat, left: nat): Worklet
    requires Configured(p)
  {
    s.(env := Ramp(s.env, normal, Step(p), frames),
       availMin := if s.mode != Prefill && (s.availMin.None? || left < s.availMin.value)
                   then Some(left) else s.availMin)
  }

  /** The block before the envelope. */
  function Fetched(s: Worklet, ring: seq<real>, frames: nat, stereo: bool): seq<Frame> {
    if |ring| >= 2 * frames then ReadFrames(ring, frames, stereo)
    else Repeated(Mixed(s.lastL, s.lastR, stereo), frames)
  }

  predicate Normal(s: Worklet, ring: seq<real>, frames: nat) {
    |ring| >= 2 * frames && s.mode == Playing
  }

  function Rest(ring: seq<real>, frames: nat): seq<real> {
    if |ring| >= 2 * frames then ring[2 * frames..] else ring
  }

  /** The state after everything behind the PREFILL check. */
  function Played(p: Params, s: Worklet, ring: seq<real>, frames: nat): Worklet
    requires Configured(p)
  {
    Conclude(p, Migrate(p, Fetch(s, ring, 2 * frames), |ring|), Normal(s, ring, frames), frames, |Rest(ring, frames)|)
  }

  function PlayOrHold(p: Params, s: Worklet, ring: seq<real>, frames: nat, stereo: bool): Turn
    requires Configured(p)
  {
    Turn(Played(p, s, ring, frames), Rest(ring, frames),
         Faded(Fetched(s, ring, frames, stereo), Gains(s.env, Normal(s, ring, frames), Step(p)), frames))
  }

  predicate Silent(p: Params, s: Worklet, level: nat) {
    s.mode == Prefill && level < Water(p, s)
  }

  function Promoted(s: Worklet): Worklet {
    if s.mode == Prefill then s.(mode := Playing, everStarted := true) else s
  }

  /** State and ring after one call, whatever the output looks like. */
  function NextState(p: Params, s: Worklet, ring: seq<real>, frames: nat): Worklet
    requires Configured(p)
  {
    if Silent(p, s, |ring|) then s.(env := 0.0) else Played(p, Promoted(s), ring, frames)
  }

  function NextRing(p: Params, s: Worklet, ring: seq<real>, frames: nat): seq<real> {
    if Silent(p, s, |ring|) then ring else Rest(ring, frames)
  }

  function Process(p: Params, s: Worklet, ring: seq<real>, frames: nat, stereo: bool): (r: Turn)
    requires Configured(p)
    ensures r.s == NextState(p, s, ring, frames) && r.ring == NextRing(p, s, ring, frames)
  {
    if Silent(p, s, |ring|) then
      Turn(s.(env := 0.0), ring, Repeated(Mixed(0.0, 0.0, stereo), frames))
    else PlayOrHold(p, Promoted(s), ring, frames, stereo)
  }

  // ---------------------------------------------------------------- the class

  class PCMPlayerProcessor {
    const p: Params
    const bufferSize: nat
    const ringBuffer: array<real>
    var writePos: nat
    var readPos: nat
    var count: nat
    var mode: Mode
    var env: real
    var lastL: real
    var lastR: real
    var everStarted: bool
    var underruns: nat
    var availMin: Option<nat>

    // everything received since the last clear, and how much of it has left the ring
    ghost var tape: seq<real>
    ghost var gone: nat

    /** Everything but where the reader stands. */
    ghost predicate Stored()
      reads this, ringBuffer
    {
      && Configured(p) && 0.0 <= env <= 1.0
      && ringBuffer.Length == bufferSize > 0
      && gone <= |tape| && count == |tape| - gone <= bufferSize
      && writePos == |tape| % bufferSize
      && forall v: nat | v < |tape| <= v + bufferSize :: ringBuffer[v % bufferSize] == tape[v]
    }

    ghost predicate Valid()
      reads this, ringBuffer
    {
      Stored() && readPos == gone % bufferSize
    }

    ghost function Contents(): seq<real>
      reads this
      requires gone <= |tape|
    {
      tape[gone..]
    }

    function State(): Worklet
      reads this
    {
      Worklet(mode, env, lastL, lastR, everStarted, underruns, availMin)
    }

    constructor (p: Params, bufferSize: nat)
      requires Configured(p) && bufferSize > 0
      ensures Valid() && fresh(ringBuffer) && this.p == p && this.bufferSize == bufferSize
      ensures Contents() == [] && State() == Worklet(Prefill, 0.0, 0.0, 0.0, false, 0, None)
    {
      this.p, this.bufferSize := p, bufferSize;
      ringBuffer := new real[bufferSize](_ => 0.0);
      writePos, readPos, count := 0, 0, 0;
      mode, env, lastL, lastR := Prefill, 0.0, 0.0, 0.0;
      everStarted, underruns, availMin := false, 0, None;
      tape, gone := [], 0;
    }

    /** The write loop of the audio message: it may run round the ring more than once. */
    method Store(samples: seq<real>)
      requires ringBuffer.Length == bufferSize > 0 && writePos == |tape| % bufferSize
      requires forall v: nat | v < |tape| <= v + bufferSize :: ringBuffer[v % bufferSize] == tape[v]
      modifies this`writePos, this`tape, ringBuffer
      ensures tape == old(tape) + samples && writePos == |tape| % bufferSize
      ensures forall v: nat | v < |tape| <= v + bufferSize :: ringBuffer[v % bufferSize] == tape[v]
    {
      var i := 0;
      while i < |samples|
        invariant 0 <= i <= |samples| && tape == old(tape) + samples[..i]
        invariant writePos == |tape| % bufferSize
        invariant forall v: nat | v < |tape| <= v + bufferSize :: ringBuffer[v % bufferSize] == tape[v]
      {
        forall v: nat | v < |tape| < v + bufferSize
          ensures v % bufferSize != writePos
        {
          ModDistinct(v, |tape|, bufferSize);
        }
        ringBuffer[writePos] := samples[i];
        ModStep(|tape|, bufferSize);
        writePos := (writePos + 1) % bufferSize;
        tape := tape + [samples[i]];
        i := i + 1;
      }
    }

    /** The overflow branch of the audio message: count and read position jump. */
    method DiscardOldest(received: nat)
      requires gone <= |tape| && count == |tape| - gone - received && ringBuffer.Length == bufferSize > 0
      requires received <= |tape| - gone && readPos == gone % bufferSize && writePos == |tape| % bufferSize
      modifies this`readPos, this`count, this`gone
      ensures gone <= |tape| && count == |tape| - gone <= bufferSize && readPos == gone % bufferSize
      ensures gone == NewGone(|tape| - received, old(gone), received, bufferSize)
    {
      count := count + received;
      if count > bufferSize {
        count := bufferSize;
        readPos := writePos;
        gone := |tape| - bufferSize;
        ModWrap(gone, bufferSize);
      }
    }

    /** On a stereo frame boundary at both ends. */
    ghost predicate OnFrame()
      reads this
    {
      |tape| % 2 == 0 && gone % 2 == 0
    }

    /** The count and the two positions always agree. */
    lemma PositionsAgree()
      requires Valid()
      ensures (readPos + count) % bufferSize == writePos
    {
      ModAdd(gone, count, bufferSize);
    }

    lemma FrameSlots()
      requires Valid() && bufferSize % 2 == 0 && OnFrame()
      ensures readPos % 2 == 0 && writePos % 2 == 0 && count % 2 == 0
    {
      EvenSlot(gone, bufferSize);
      EvenSlot(|tape|, bufferSize);
    }

    /**
     Keeps the newest bufferSize samples of the old contents followed by the message. A ring of
     even size stays on frame boundaries, overflow or not.
     */
    method OnAudio(samples: seq<real>)
      requires Valid()
      modifies this`writePos, this`readPos, this`count, this`tape, this`gone, ringBuffer
      ensures Valid()
      ensures Contents() == LastN(old(Contents()) + samples, bufferSize)
      ensures bufferSize % 2 == 0 && |samples| % 2 == 0 && old(OnFrame()) ==> OnFrame()
    {
      Store(samples);
      DiscardOldest(|samples|);
      TapeTail(old(tape), old(gone), samples, bufferSize);
      if bufferSize % 2 == 0 && |samples| % 2 == 0 && old(OnFrame()) {
        FramesKept(|old(tape)|, old(gone), |samples|, bufferSize);
      }
    }

    method OnClear()
      requires Valid()
      modifies this
      ensures Valid() && Contents() == []
      ensures State() == old(State()).(mode := Prefill, env := 0.0)
    {
      writePos, readPos, count := 0, 0, 0;
      mode, env := Prefill, 0.0;
      tape, gone := [], 0;
    }

    /** One sample of the normal read, `at` samples behind the first unread one. */
    method ReadSample(ghost at: nat) returns (sample: real)
      requires Stored() && at < count && readPos == (gone + at) % bufferSize
      modifies this`readPos
      ensures Stored() && sample == Contents()[at] && readPos == (gone + at + 1) % bufferSize
    {
      sample := ringBuffer[readPos];
      ModStep(gone + at, bufferSize);
      readPos := (readPos + 1) % bufferSize;
    }

    method ReadFrame(ghost at: nat) returns (l: real, r: real)
      requires Stored() && at + 1 < count && readPos == (gone + at) % bufferSize
      modifies this`readPos, this`lastL, this`lastR
      ensures Stored() && readPos == (gone + at + 2) % bufferSize
      ensures l == lastL == Contents()[at] && r == lastR == Contents()[at + 1]
    {
      l := ReadSample(at);
      r := ReadSample(at + 1);
      lastL, lastR := l, r;
    }

    /** The normal read: every frame moves the read position by two samples. */
    method ReadBlock(frames: nat, stereo: bool, out: array<Frame>)
      requires Valid() && 2 * frames <= count && out.Length == frames
      modifies this`readPos, this`count, this`gone, this`lastL, this`lastR, out
      ensures Valid() && Contents() == old(Contents())[2 * frames..]
      ensures out[..] == ReadFrames(old(Contents()), frames, stereo)
      ensures (lastL, lastR) == if frames == 0 then old((lastL, lastR))
        else (old(Contents())[2 * frames - 2], old(Contents())[2 * frames - 1])
    {
      ghost var ring := Contents();
      var i := 0;
      while i < frames
        invariant 0 <= i <= frames && readPos == (gone + 2 * i) % bufferSize
        invariant Stored() && gone == old(gone) && count == old(count)
        invariant forall j | 0 <= j < i :: out[j] == Mixed(ring[2 * j], ring[2 * j + 1], stereo)
        invariant (lastL, lastR) == if i == 0 then old((lastL, lastR)) else (ring[2 * i - 2], ring[2 * i - 1])
      {
        var l, r := ReadFrame(2 * i);
        out[i] := Mixed(l, r, stereo);
        i := i + 1;
      }
      count := count - 2 * frames;
      gone := gone + 2 * frames;
    }

    /** The ramp: one envelope step per frame, the same gain for both channels. */
    method RampBlock(normal: bool, out: array<Frame>)
      requires Configured(p) && 0.0 <= env <= 1.0
      modifies this`env, out
      ensures env == Ramp(old(env), normal, Step(p), out.Length) && 0.0 <= env <= 1.0
      ensures out[..] == Faded(old(out[..]), Gains(old(env), normal, Step(p)), out.Length)
    {
      ghost var gain, block := Gains(env, normal, Step(p)), out[..];
      var step := Step(p);
      assert gain == Gains(env, normal, step);
      RampNext(env, normal, step, 0);
      var i := 0;
      while i < out.Length
        invariant 0 <= i <= out.Length && env == Ramp(old(env), normal, step, i) && 0.0 <= env <= 1.0
        invariant out[..] == Faded(block, gain, i)
      {
        RampNext(old(env), normal, step, i);
        RampNext(old(env), normal, step, i + 1);
        env := Next(env, normal, step);
        assert env == gain(i + 1);
        out[i] := Amplified(out[i], env);
        i := i + 1;
      }
    }

    /** The read-or-hold branch and the migration behind it. */
    method FetchBlock(frames: nat, stereo: bool, out: array<Frame>) returns (normal: bool)
      requires Valid() && mode != Prefill && out.Length == frames
      modifies this, out
      ensures Valid()
      ensures normal == (old(count) >= 2 * frames && old(mode) == Playing)
      ensures State() == Migrate(p, Fetch(old(State()), old(Contents()), 2 * frames), |old(Contents())|)
      ensures Contents() == if old(count) >= 2 * frames then old(Contents())[2 * frames..] else old(Contents())
      ensures out[..] == Fetched(old(State()), old(Contents()), frames, stereo)
    {
      var avail := count;
      normal := false;
      if avail >= 2 * frames {
        ReadBlock(frames, stereo, out);
        normal := mode == Playing;
      } else {
        if mode == Playing {
          mode := SoftUnderrun;
          underruns := underruns + 1;
        }
        FillBlock(out, Mixed(lastL, lastR, stereo));
      }
      if mode == SoftUnderrun && env <= 0.0 && avail >= p.resumeWater {
        mode := Prefill;
      }
    }

    /** process(): the next block, one frame per element of `out`. */
    method ProcessBlock(stereo: bool, out: array<Frame>)
      requires Valid()
      modifies this, out
      ensures Valid()
      ensures Turn(State(), Contents(), out[..]) == Process(p, old(State()), old(Contents()), out.Length, stereo)
    {
      var avail := count;
      if mode == Prefill {
        if avail < (if everStarted then p.resumeWater else p.startWater) {
          FillBlock(out, Mixed(0.0, 0.0, stereo));
          env := 0.0;
          return;
        }
        mode := Playing;
        everStarted := true;
      }
      PlayBlock(stereo, out);
    }

    method PlayBlock(stereo: bool, out: array<Frame>)
      requires Valid() && mode != Prefill
      modifies this, out
      ensures Valid()
      ensures Turn(State(), Contents(), out[..]) == PlayOrHold(p, old(State()), old(Contents()), out.Length, stereo)
    {
      var normal := FetchBlock(out.Length, stereo, out);
      FinishBlock(normal, out);
    }

    /** The ramp and the statistics behind it. */
    method FinishBlock(normal: bool, out: array<Frame>)
      requires Valid()
      modifies this`env, this`availMin, out
      ensures Valid() && Contents() == old(Contents())
      ensures State() == Conclude(p, old(State()), normal, out.Length, |Contents()|)
      ensures out[..] == Faded(old(out[..]), Gains(old(env), normal, Step(p)), out.Length)
    {
      RampBlock(normal, out);
      NoteLevel();
    }

    /** The minimum of the level, outside PREFILL. */
    method NoteLevel()
      modifies this`availMin
      ensures availMin == if mode != Prefill && (old(availMin).None? || count < old(availMin).value)
                          then Some(count) else old(availMin)
    {
      if mode != Prefill && (availMin.None? || count < availMin.value) {
        availMin := Some(count);
      }
    }
  }

  method FillBlock(out: array<Frame>, f: Frame)
    modifies out
    ensures out[..] == Repeated(f, out.Length)
  {
    var i := 0;
    while i < out.Length
      invariant 0 <= i <= out.Length && out[..i] == Repeated(f, i)
    {
      out[i] := f;
      i := i + 1;
    }
  }

  lemma FramesKept(total: nat, gone: nat, added: nat, size: nat)
    requires gone <= total && total % 2 == 0 && gone % 2 == 0 && added % 2 == 0 && size % 2 == 0
    ensures (total + added) % 2 == 0 && NewGone(total, gone, added, size) % 2 == 0
  {
    FramesStayWhole(total, gone, added, size);
  }

  lemma TapeTail<T>(tape: seq<T>, gone: nat, samples: seq<T>, size: nat)
    requires gone <= |tape|
    ensures NewGone(|tape|, gone, |samples|, size) <= |tape + samples|
    ensures (tape + samples)[NewGone(|tape|, gone, |samples|, size)..] == LastN(tape[gone..] + samples, size)
  {
    var both := tape[gone..] + samples;
    assert (tape + samples)[gone..] == both;
  }

  lemma ModWrap(a: nat, m: nat)
    requires m > 0
    ensures (a + m) % m == a % m
  {
    DivUnique(a + m, m, a / m + 1, a % m);
  }

  /** In a ring of even size an even position is an even slot. */
  lemma EvenSlot(a: nat, size: nat)
    requires size > 0 && size % 2 == 0 && a % 2 == 0
    ensures a % size % 2 == 0
  {
    var h := size / 2;
    assert a == 2 * (a / size * h) + a % size;
  }
}
