/**
 The native playback machine: PREFILL, PLAYING and SOFT_UNDERRUN, one render quantum at a time,
 with the per-frame envelope as an exact real number.
 */
module Renders {
  import opened Wrappers
  import opened Arithmetic
  import opened RingBuffers

  datatype Mode = Prefill | Playing | SoftUnderrun

  datatype Params = Params(channels: nat, startWater: nat, resumeWater: nat, fadeSamples: nat)

  predicate Configured(p: Params) { p.channels > 0 && p.fadeSamples > 0 }

  datatype Render = Render(
    mode: Mode, env: real, lastL: int, lastR: int,
    everStarted: bool, started: bool,
    underruns: nat, minAvailable: Option<nat>)

  // ---------------------------------------------------------------- envelope and held samples

  /** lround: to the nearest integer, halves away from zero. */
  function Round(x: real): int {
    if x >= 0.0 then (x + 0.5).Floor else -((-x + 0.5).Floor)
  }

  /** The envelope's change per frame. */
  function Step(p: Params): (r: real)
    requires Configured(p)
    ensures r > 0.0
  {
    1.0 / (p.fadeSamples as real / 2.0)
  }

  /** The envelope `n` frames later: up to 1 while reading normally, else down to 0. */
  function Ramp(env: real, normal: bool, step: real, n: nat): real {
    if normal then (if env + n as real * step < 1.0 then env + n as real * step else 1.0)
    else (if env - n as real * step > 0.0 then env - n as real * step else 0.0)
  }

  function Gains(env: real, normal: bool, step: real): nat -> real {
    (n: nat) => Ramp(env, normal, step, n)
  }

  /** One step of the envelope loop: towards the target, and no further. */
  function Next(env: real, normal: bool, step: real): real {
    var target := if normal then 1.0 else 0.0;
    if target > env then (if target < env + step then target else env + step)
    else (if target > env - step then target else env - step)
  }

  lemma RampNext(env: real, normal: bool, step: real, n: nat)
    requires 0.0 <= env <= 1.0 && step > 0.0
    ensures Next(Ramp(env, normal, step, n), normal, step) == Ramp(env, normal, step, n + 1)
    ensures 0.0 <= Ramp(env, normal, step, n) <= 1.0
    ensures Ramp(env, normal, step, 0) == env
  {
    assert (n + 1) as real * step == n as real * step + step;
    assert n as real * step >= 0.0;
  }

  lemma RampStays(env: real, normal: bool, step: real, n: nat)
    requires 0.0 <= env <= 1.0 && step > 0.0
    ensures 0.0 <= Ramp(env, normal, step, n) <= 1.0
    ensures env == 0.0 && !normal ==> Ramp(env, normal, step, n) == 0.0
  {
    assert n as real * step >= 0.0;
  }

  lemma Covers(n: real, half: real)
    requires half > 0.0 && n >= half
    ensures n * (1.0 / half) >= 1.0
  {
    var s := 1.0 / half;
    assert half * s == 1.0;
    assert n * s == half * s + (n - half) * s;
    assert (n - half) * s >= 0.0;
  }

  /** The fade is over after half of `fadeSamples` frames, from any level. */
  lemma FadeEnds(env: real, p: Params, n: nat)
    requires Configured(p) && 0.0 <= env <= 1.0 && 2 * n >= p.fadeSamples
    ensures Ramp(env, false, Step(p), n) == 0.0
  {
    Covers(n as real, p.fadeSamples as real / 2.0);
  }

  lemma RampAdds(env: real, step: real, m: nat, n: nat)
    requires 0.0 <= env <= 1.0 && step > 0.0
    ensures Ramp(Ramp(env, false, step, m), false, step, n) == Ramp(env, false, step, m + n)
  {
    assert (m + n) as real * step == m as real * step + n as real * step;
    assert n as real * step >= 0.0;
  }

  function Scaled(x: int, gain: real): int { Round(x as real * gain) }

  /**
   The block with its first `upto` samples shaped: all samples of one frame share one gain, and
   frame 0 already has that of one envelope step.
   */
  function Block(block: seq<int>, channels: nat, gain: nat -> real, upto: nat): seq<int>
    requires channels > 0
  {
    seq(|block|, i requires 0 <= i < |block| =>
      if i < upto then Scaled(block[i], gain(i / channels + 1)) else block[i])
  }

  /** The block with the `channels` samples from `base` on scaled by one gain. */
  function OneFrame(block: seq<int>, base: nat, channels: nat, gain: real): seq<int> {
    seq(|block|, i requires 0 <= i < |block| =>
      if base <= i < base + channels then Scaled(block[i], gain) else block[i])
  }

  lemma BlockNext(block: seq<int>, channels: nat, gain: nat -> real, f: nat, base: nat)
    requires channels > 0 && base == f * channels
    ensures OneFrame(Block(block, channels, gain, base), base, channels, gain(f + 1))
         == Block(block, channels, gain, base + channels)
  {
    forall i | base <= i < base + channels
      ensures i / channels == f
    {
      DivUnique(i, channels, f, i - base);
    }
  }

  lemma NextBase(f: nat, channels: nat, frames: nat)
    requires f < frames
    ensures (f + 1) * channels == f * channels + channels <= frames * channels
  {
    var rest: nat := frames - f - 1;
    assert frames * channels == (f + 1) * channels + rest * channels;
  }

  /** C++ division of an int by two: towards zero. */
  function Half(x: int): int { if x >= 0 then x / 2 else -((-x) / 2) }

  /** What HoldLast puts at index `i` of the block, given what was there. */
  function Held(channels: nat, got: nat, needed: nat, lastL: int, lastR: int, i: nat, old_: int): int {
    if i < got || i >= needed then old_
    else if channels != 2 then Half(lastL + lastR)
    else if (i - got) % 2 == 1 then lastR
    else if i + 1 < needed then lastL
    else old_
  }

  function HoldLast(channels: nat, temp: seq<int>, got: nat, needed: nat, lastL: int, lastR: int): seq<int>
    requires got <= needed <= |temp|
  {
    seq(|temp|, i requires 0 <= i < |temp| => Held(channels, got, needed, lastL, lastR, i, temp[i]))
  }

  // ---------------------------------------------------------------- one quantum

  function Water(p: Params, s: Render): nat {
    if s.everStarted then p.resumeWater else p.startWater
  }

  /** The first block of the loop: promotion out of PREFILL at the water mark. */
  function Promote(s: Render): Render {
    if s.mode == Prefill then s.(mode := Playing, minAvailable := None, everStarted := true, started := true)
    else s
  }

  predicate Silent(p: Params, s: Render, availTop: nat) {
    s.mode == Prefill && availTop < Water(p, s)
  }

  /** SOFT_UNDERRUN: nothing is dequeued; leave when the level is back and the fade is over. */
  function SoftState(p: Params, s: Render, availTop: nat): Render {
    s.(mode := if availTop >= p.resumeWater && s.env <= 0.0 then Prefill else SoftUnderrun)
  }

  function PlayState(p: Params, s: Render, ring: seq<int>, needed: nat): Render {
    if |ring| >= needed then
      s.(lastL := if needed == 0 then s.lastL
                  else if p.channels == 2 && needed >= 2 then ring[needed - 2] else ring[needed - 1],
         lastR := if needed == 0 then s.lastR else ring[needed - 1])
    else s.(mode := SoftUnderrun, underruns := s.underruns + 1)
  }

  predicate FullRead(s: Render, ring: seq<int>, needed: nat) {
    s.mode != SoftUnderrun && |ring| >= needed
  }

  /** What the dequeue leaves in the ring. */
  function LeftBehind(s: Render, ring: seq<int>, needed: nat): seq<int> {
    if s.mode == SoftUnderrun then ring else if |ring| >= needed then ring[needed..] else []
  }

  /** The scratch block before the envelope; it keeps what was in it behind `needed`. */
  function ScratchOf(p: Params, s: Render, temp: seq<int>, ring: seq<int>, needed: nat): seq<int>
    requires needed <= |temp|
  {
    if s.mode == SoftUnderrun then HoldLast(p.channels, temp, 0, needed, s.lastL, s.lastR)
    else if |ring| >= needed then ring[..needed] + temp[needed..]
    else HoldLast(p.channels, ring + temp[|ring|..], |ring|, needed, s.lastL, s.lastR)
  }

  /** The state once a block that is not PREFILL silence is on its way to the device. */
  function PlayedBlock(p: Params, s: Render, availTop: nat, ring: seq<int>, frames: nat): Render
    requires Configured(p)
  {
    var needed := frames * p.channels;
    var moved := if s.mode == SoftUnderrun then SoftState(p, s, availTop) else PlayState(p, s, ring, needed);
    moved.(env := Ramp(s.env, FullRead(s, ring, needed), Step(p), frames))
  }

  /** The statistics: the lowest level since the last promotion. */
  function Noted(s: Render, level: nat): Render {
    s.(minAvailable := if s.started && (s.minAvailable.None? || level < s.minAvailable.value)
                       then Some(level) else s.minAvailable)
  }

  function Shaped(p: Params, s: Render, temp: seq<int>, ring: seq<int>, needed: nat): seq<int>
    requires Configured(p) && needed <= |temp|
  {
    Block(ScratchOf(p, s, temp, ring, needed), p.channels, Gains(s.env, FullRead(s, ring, needed), Step(p)), needed)
  }

  function Zeros(n: nat): seq<int> { seq(n, _ => 0) }

  // One loop iteration, with `availTop` seen at its top, `ring` in the buffer when it dequeues, and
  // `level` read at its end.

  function NextRender(p: Params, s: Render, availTop: nat, ring: seq<int>, frames: nat, level: nat): Render
    requires Configured(p)
  {
    if Silent(p, s, availTop) then s.(env := 0.0) else Noted(PlayedBlock(p, Promote(s), availTop, ring, frames), level)
  }

  function RingAfter(p: Params, s: Render, availTop: nat, ring: seq<int>, frames: nat): seq<int> {
    if Silent(p, s, availTop) then ring else LeftBehind(Promote(s), ring, frames * p.channels)
  }

  function NextTemp(p: Params, s: Render, temp: seq<int>, availTop: nat, ring: seq<int>, frames: nat): (r: seq<int>)
    requires Configured(p) && frames * p.channels <= |temp|
    ensures |r| == |temp|
  {
    if Silent(p, s, availTop) then temp else Shaped(p, Promote(s), temp, ring, frames * p.channels)
  }

  function Output(p: Params, s: Render, temp: seq<int>, availTop: nat, ring: seq<int>, frames: nat): seq<int>
    requires Configured(p) && frames * p.channels <= |temp|
  {
    if Silent(p, s, availTop) then Zeros(frames * p.channels)
    else NextTemp(p, s, temp, availTop, ring, frames)[..frames * p.channels]
  }

  // ---------------------------------------------------------------- the class

  method FillHeld(buf: array<int>, got: nat, needed: nat, channels: nat, lastL: int, lastR: int)
    requires got <= needed <= buf.Length
    modifies buf
    ensures buf[..] == HoldLast(channels, old(buf[..]), got, needed, lastL, lastR)
  {
    var i: nat := got;
    if channels == 2 {
      while i + 1 < needed
        invariant got <= i <= needed && (i - got) % 2 == 0
        invariant forall j | 0 <= j < buf.Length ::
          buf[j] == if j < i then Held(channels, got, needed, lastL, lastR, j, old(buf[j])) else old(buf[j])
      {
        buf[i] := lastL;
        buf[i + 1] := lastR;
        i := i + 2;
      }
    } else {
      while i < needed
        invariant got <= i <= needed
        invariant forall j | 0 <= j < buf.Length ::
          buf[j] == if j < i then Held(channels, got, needed, lastL, lastR, j, old(buf[j])) else old(buf[j])
      {
        buf[i] := Half(lastL + lastR);
        i := i + 1;
      }
    }
  }

  class RenderLoop {
    const p: Params
    const ring: RingBuffer
    const temp: array<int>
    var mode: Mode
    var env: real
    var lastL: int
    var lastR: int
    var everStarted: bool
    var started: bool
    var underruns: nat
    var minAvailable: Option<nat>

    ghost function State(): Render
      reads this
    {
      Render(mode, env, lastL, lastR, everStarted, started, underruns, minAvailable)
    }

    ghost predicate Valid()
      reads this, ring, ring.buffer
    {
      Configured(p) && ring.Valid() && temp != ring.buffer && 0.0 <= env <= 1.0
    }

    constructor (p: Params, ring: RingBuffer, bufferFrames: nat)
      requires Configured(p) && ring.Valid()
      ensures Valid() && this.p == p && this.ring == ring && fresh(temp)
      ensures temp.Length == bufferFrames * p.channels && temp[..] == Zeros(temp.Length)
      ensures State() == Render(Prefill, 0.0, 0, 0, false, false, 0, None)
    {
      this.p, this.ring := p, ring;
      temp := new int[bufferFrames * p.channels](_ => 0);
      mode, env, lastL, lastR := Prefill, 0.0, 0, 0;
      everStarted, started, underruns, minAvailable := false, false, 0, None;
    }

    /** All channels of the frame at `base` get the same gain. */
    method ShapeFrame(base: nat, gain: real)
      requires base + p.channels <= temp.Length
      modifies temp
      ensures temp[..] == OneFrame(old(temp[..]), base, p.channels, gain)
    {
      ghost var block := temp[..];
      var c := 0;
      while c < p.channels
        invariant 0 <= c <= p.channels
        invariant temp[..] == OneFrame(block, base, c, gain)
      {
        temp[base + c] := Scaled(temp[base + c], gain);
        c := c + 1;
      }
    }

    /** The envelope loop, in place. */
    method Shape(frames: nat, normal: bool)
      requires Configured(p) && frames * p.channels <= temp.Length && 0.0 <= env <= 1.0
      modifies this`env, temp
      ensures env == Ramp(old(env), normal, Step(p), frames) && 0.0 <= env <= 1.0
      ensures temp[..] == Block(old(temp[..]), p.channels, Gains(old(env), normal, Step(p)), frames * p.channels)
    {
      ghost var block, gain := temp[..], Gains(env, normal, Step(p));
      var step := Step(p);
      assert gain == Gains(env, normal, step);
      var f, base := 0, 0;
      RampNext(env, normal, step, 0);
      while f < frames
        invariant 0 <= f <= frames && base == f * p.channels
        invariant env == Ramp(old(env), normal, step, f) && 0.0 <= env <= 1.0
        invariant temp[..] == Block(block, p.channels, gain, base)
      {
        RampNext(old(env), normal, step, f);
        RampNext(old(env), normal, step, f + 1);
        BlockNext(block, p.channels, gain, f, base);
        NextBase(f, p.channels, frames);
        env := Next(env, normal, step);
        assert env == gain(f + 1);
        ShapeFrame(base, env);
        base := base + p.channels;
        f := f + 1;
      }
    }

    /** SOFT_UNDERRUN: the block becomes the held sample; nothing is dequeued. */
    method Soften(availTop: nat, needed: nat)
      requires Valid() && needed <= temp.Length
      modifies this`mode, temp
      ensures State() == SoftState(p, old(State()), availTop)
      ensures temp[..] == HoldLast(p.channels, old(temp[..]), 0, needed, lastL, lastR)
    {
      mode := if availTop >= p.resumeWater && env <= 0.0 then Prefill else SoftUnderrun;
      FillHeld(temp, 0, needed, p.channels, lastL, lastR);
    }

    /** The held sample is that of the last complete frame. */
    method KeepLast(got: nat)
      requires got <= temp.Length
      modifies this`lastL, this`lastR
      ensures got == 0 ==> lastL == old(lastL) && lastR == old(lastR)
      ensures got > 0 ==> lastR == temp[got - 1]
      ensures got > 0 ==> lastL == if p.channels == 2 && got >= 2 then temp[got - 2] else temp[got - 1]
    {
      if p.channels == 2 && got >= 2 {
        lastL, lastR := temp[got - 2], temp[got - 1];
      } else if got >= 1 {
        lastL, lastR := temp[got - 1], temp[got - 1];
      }
    }

    /** PLAYING: dequeue the block; only a full read updates the held sample. */
    method Play(needed: nat) returns (normal: bool)
      requires Valid() && mode == Playing && needed <= temp.Length
      modifies this`mode, this`lastL, this`lastR, this`underruns, temp, ring`readPos, ring`gone
      ensures Valid()
      ensures normal == (|old(ring.Contents())| >= needed)
      ensures State() == PlayState(p, old(State()), old(ring.Contents()), needed)
      ensures temp[..] == ScratchOf(p, old(State()), old(temp[..]), old(ring.Contents()), needed)
      ensures ring.Contents() == if normal then old(ring.Contents())[needed..] else []
    {
      ghost var before := temp[..];
      var got := ring.Pop(temp, needed);
      assert temp[..] == old(ring.Contents())[..got] + before[got..];
      normal := got == needed;
      if normal {
        KeepLast(got);
      } else {
        mode := SoftUnderrun;
        underruns := underruns + 1;
        FillHeld(temp, got, needed, p.channels, lastL, lastR);
      }
    }

    /** What happens to a block that is not PREFILL silence. */
    method PlayOrHold(availTop: nat, frames: nat, data: array<int>)
      requires Valid() && mode != Prefill && frames * p.channels <= temp.Length && frames * p.channels == data.Length
      requires data != temp && data != ring.buffer
      modifies this, temp, data, ring`readPos, ring`gone
      ensures Valid()
      ensures State() == PlayedBlock(p, old(State()), availTop, old(ring.Contents()), frames)
      ensures ring.Contents() == LeftBehind(old(State()), old(ring.Contents()), frames * p.channels)
      ensures temp[..] == Shaped(p, old(State()), old(temp[..]), old(ring.Contents()), frames * p.channels)
      ensures data[..] == temp[..frames * p.channels]
    {
      var needed := frames * p.channels;
      var normal := false;
      if mode == SoftUnderrun {
        Soften(availTop, needed);
      } else {
        normal := Play(needed);
      }
      Shape(frames, normal);
      Copy(temp, needed, data);
    }

    /**
     One iteration of the loop behind its snapshot of the level, up to the copy into the device
     buffer. The producer may have pushed any number of samples since the snapshot.
     */
    method RenderBlock(availTop: nat, frames: nat, data: array<int>) returns (silent: bool)
      requires Valid() && 0 < frames && frames * p.channels <= temp.Length && frames * p.channels == data.Length
      requires data != temp && data != ring.buffer
      modifies this, temp, data, ring`readPos, ring`gone
      ensures Valid() && silent == (old(mode) == Prefill
                                    && availTop < (if old(everStarted) then p.resumeWater else p.startWater))
      ensures silent ==> env == 0.0 && ring.Contents() == old(ring.Contents())
      ensures State() == if silent then old(State()).(env := 0.0)
        else PlayedBlock(p, Promote(old(State())), availTop, old(ring.Contents()), frames)
      ensures ring.Contents() == RingAfter(p, old(State()), availTop, old(ring.Contents()), frames)
      ensures temp[..] == NextTemp(p, old(State()), old(temp[..]), availTop, old(ring.Contents()), frames)
      ensures data[..] == Output(p, old(State()), old(temp[..]), availTop, old(ring.Contents()), frames)
    {
      silent := mode == Prefill && availTop < (if everStarted then p.resumeWater else p.startWater);
      if silent {
        Silence(data);
        env := 0.0;
        return;
      }
      if mode == Prefill {
        mode := Playing;
        minAvailable := None;
        everStarted, started := true, true;
      }
      PlayOrHold(availTop, frames, data);
    }

    /** The end of an iteration; the producer may have pushed again. */
    method NoteLevel()
      requires Valid()
      modifies this`minAvailable
      ensures Valid() && State() == Noted(old(State()), |ring.Contents()|)
      ensures !started ==> minAvailable == old(minAvailable)
      ensures started ==> minAvailable == if old(minAvailable.Some? && minAvailable.value <= |ring.Contents()|)
                                          then old(minAvailable) else Some(|ring.Contents()|)
    {
      if started {
        var nowAvail := ring.Available();
        if minAvailable.None? || nowAvail < minAvailable.value {
          minAvailable := Some(nowAvail);
        }
      }
    }
  }

  method Silence(data: array<int>)
    modifies data
    ensures data[..] == Zeros(data.Length)
  {
    var i := 0;
    while i < data.Length
      invariant 0 <= i <= data.Length && data[..i] == Zeros(i)
    {
      data[i] := 0;
      i := i + 1;
    }
  }

  method Copy(from: array<int>, count: nat, to: array<int>)
    requires count <= from.Length && count == to.Length && to != from
    modifies to
    ensures to[..] == from[..count]
  {
    var i := 0;
    while i < count
      invariant 0 <= i <= count && to[..i] == from[..i]
    {
      to[i] := from[i];
      i := i + 1;
    }
  }
}
