/**
 What the browser's machine plays, and when it starts and underruns: everything in terms of the
 samples received, for single calls of process() and for whole runs.
 */
module WorkletOutput {
  import opened RingBuffers
  import opened Wrappers
  import opened Renders
  import opened Worklets
  import opened WorkletLaws
  import RenderOutput

  // ---------------------------------------------------------------- one call

  /** The two samples at this gain: left and right, or half their sum where there is one channel. */
  predicate Sounds(f: Frame, l: real, r: real, gain: real, stereo: bool) {
    f == if stereo then Stereo(l * gain, r * gain) else Mono((l + r) * 0.5 * gain)
  }

  /** The call reads or holds: it does not wait for its level. */
  predicate Reads(p: Params, s: Worklet, level: nat) {
    s.mode != Prefill || level >= (if s.everStarted then p.resumeWater else p.startWater)
  }

  lemma FadedAt(block: seq<Frame>, gain: nat -> real, i: nat)
    requires i < |block|
    ensures Faded(block, gain, |block|)[i] == Amplified(block[i], gain(i + 1))
  {
  }

  lemma MixSounds(l: real, r: real, gain: real, stereo: bool)
    ensures Sounds(Amplified(Mixed(l, r, stereo), gain), l, r, gain, stereo)
  {
  }

  lemma ReadingPlays(p: Params, s: Worklet, ring: seq<real>, frames: nat, stereo: bool, i: nat)
    requires Configured(p) && i < frames && Reads(p, s, |ring|)
    ensures var f := Process(p, s, ring, frames, stereo).output;
      && |f| == frames
      && f[i] == Amplified(Fetched(s, ring, frames, stereo)[i],
                           Ramp(s.env, s.mode != SoftUnderrun && |ring| >= 2 * frames, Step(p), i + 1))
  {
    FadedAt(Fetched(s, ring, frames, stereo), Gains(s.env, Normal(Promoted(s), ring, frames), Step(p)), i);
  }

  /** A full read plays consecutive pairs of the ring, while soft under the fall, else under the rise. */
  lemma FullReadPlays(p: Params, s: Worklet, ring: seq<real>, frames: nat, stereo: bool, i: nat)
    requires Configured(p) && i < frames && 2 * frames <= |ring| && Reads(p, s, |ring|)
    ensures i < |Process(p, s, ring, frames, stereo).output|
    ensures Sounds(Process(p, s, ring, frames, stereo).output[i], ring[2 * i], ring[2 * i + 1],
                   if s.mode == SoftUnderrun then RenderOutput.Fallen(p, s.env, i + 1)
                   else RenderOutput.Risen(p, s.env, i + 1), stereo)
  {
    ReadingPlays(p, s, ring, frames, stereo, i);
    RenderOutput.RampIsLinear(p, s.env, i + 1);
    MixSounds(ring[2 * i], ring[2 * i + 1], Ramp(s.env, s.mode != SoftUnderrun, Step(p), i + 1), stereo);
  }

  /** Once the envelope is up, a full read plays the samples as they were received. */
  lemma FullVolume(p: Params, s: Worklet, ring: seq<real>, frames: nat, i: nat)
    requires Configured(p) && i < frames && 2 * frames <= |ring| && s.mode == Playing && s.env == 1.0
    ensures |Process(p, s, ring, frames, true).output| == |Process(p, s, ring, frames, false).output| == frames
    ensures Process(p, s, ring, frames, true).output[i] == Stereo(ring[2 * i], ring[2 * i + 1])
    ensures Process(p, s, ring, frames, false).output[i] == Mono((ring[2 * i] + ring[2 * i + 1]) * 0.5)
  {
    ReadingPlays(p, s, ring, frames, true, i);
    ReadingPlays(p, s, ring, frames, false, i);
    assert (i + 1) as real * Step(p) >= 0.0;
  }

  /** A call that runs dry repeats the held frame under the fall, and leaves the ring alone. */
  lemma ShortReadHolds(p: Params, s: Worklet, ring: seq<real>, frames: nat, stereo: bool, i: nat)
    requires Configured(p) && i < frames && |ring| < 2 * frames && Reads(p, s, |ring|)
    ensures i < |Process(p, s, ring, frames, stereo).output|
    ensures Sounds(Process(p, s, ring, frames, stereo).output[i], s.lastL, s.lastR,
                   RenderOutput.Fallen(p, s.env, i + 1), stereo)
    ensures Process(p, s, ring, frames, stereo).ring == ring
  {
    ReadingPlays(p, s, ring, frames, stereo, i);
    RenderOutput.RampIsLinear(p, s.env, i + 1);
    MixSounds(s.lastL, s.lastR, Ramp(s.env, false, Step(p), i + 1), stereo);
  }

  /** The held frame is the last one read; a call that runs dry or waits keeps it. */
  lemma HeldIsLastFrame(p: Params, s: Worklet, ring: seq<real>, frames: nat, stereo: bool)
    requires Configured(p) && 0 < frames
    ensures var s' := Process(p, s, ring, frames, stereo).s;
      (s'.lastL, s'.lastR) == if Reads(p, s, |ring|) && |ring| >= 2 * frames
                              then (ring[2 * frames - 2], ring[2 * frames - 1]) else (s.lastL, s.lastR)
  {
  }

  /** While the machine waits for its start level the page gets silence. */
  lemma WaitingIsSilent(p: Params, s: Worklet, ring: seq<real>, frames: nat, stereo: bool, i: nat)
    requires Configured(p) && i < frames && !Reads(p, s, |ring|)
    ensures i < |Process(p, s, ring, frames, stereo).output|
    ensures NoSound(Process(p, s, ring, frames, stereo).output[i])
    ensures Process(p, s, ring, frames, stereo).ring == ring && Process(p, s, ring, frames, stereo).s.env == 0.0
  {
  }

  // ---------------------------------------------------------------- when it starts and when it underruns

  /** The level a call sees. */
  function Seen(u: Setup, y: System, samples: seq<real>): nat { Filled(u, |y.ring|, |samples|) }

  /** The first start waits for the start level, every later one for the resume level. */
  predicate Waits(u: Setup, y: System, samples: seq<real>) {
    y.s.mode == Prefill && Seen(u, y, samples) < (if y.s.everStarted then u.p.resumeWater else u.p.startWater)
  }

  /** An underrun: the machine was not soft yet, did not wait, and has less than a block. */
  predicate Dry(u: Setup, y: System, samples: seq<real>) {
    y.s.mode != SoftUnderrun && !Waits(u, y, samples) && Seen(u, y, samples) < Need(u)
  }

  lemma TurnExact(u: Setup, y: System, samples: seq<real>)
    requires Usable(u) && 0.0 <= y.s.env <= 1.0 && |y.ring| <= u.size
    ensures var s', seen := After(u, y, samples).s, Seen(u, y, samples);
      && (s'.mode == Playing <==> y.s.mode != SoftUnderrun && !Waits(u, y, samples) && seen >= Need(u))
      && (s'.mode == SoftUnderrun
          <==> (y.s.mode == SoftUnderrun || Dry(u, y, samples)) && !(y.s.env == 0.0 && seen >= u.p.resumeWater))
      && s'.underruns == y.s.underruns + (if Dry(u, y, samples) then 1 else 0)
      && (s'.everStarted <==> y.s.everStarted || (y.s.mode == Prefill && !Waits(u, y, samples)))
  {
  }

  lemma TurnKeeps(u: Setup, y: System, samples: seq<real>)
    requires Usable(u) && 0.0 <= y.s.env <= 1.0 && |y.ring| <= u.size
    ensures var y' := After(u, y, samples);
      && 0.0 <= y'.s.env <= 1.0 && |y'.ring| <= u.size
      && |y'.ring| == (if Waits(u, y, samples) then Seen(u, y, samples) else Left(u, Seen(u, y, samples)))
  {
    RampStays(y.s.env, true, Step(u.p), u.frames);
    RampStays(y.s.env, false, Step(u.p), u.frames);
  }

  function Underruns(u: Setup, y: System, arrivals: seq<seq<real>>): nat
    requires Usable(u)
    decreases |arrivals|
  {
    if arrivals == [] then 0
    else (if Dry(u, y, arrivals[0]) then 1 else 0) + Underruns(u, After(u, y, arrivals[0]), arrivals[1..])
  }

  /** The underrun counter counts the underruns of the run. */
  lemma {:induction false} UnderrunsExact(u: Setup, y: System, arrivals: seq<seq<real>>)
    requires Usable(u) && 0.0 <= y.s.env <= 1.0 && |y.ring| <= u.size
    ensures Run(u, y, arrivals).s.underruns == y.s.underruns + Underruns(u, y, arrivals)
    decreases |arrivals|
  {
    if arrivals != [] {
      TurnExact(u, y, arrivals[0]);
      TurnKeeps(u, y, arrivals[0]);
      UnderrunsExact(u, After(u, y, arrivals[0]), arrivals[1..]);
    }
  }

  /** Every call of the run waits. */
  predicate AllWaiting(u: Setup, y: System, arrivals: seq<seq<real>>)
    requires Usable(u)
    decreases |arrivals|
  {
    arrivals == [] || (Waits(u, y, arrivals[0]) && AllWaiting(u, After(u, y, arrivals[0]), arrivals[1..]))
  }

  lemma WaitingTurn(u: Setup, y: System, samples: seq<real>)
    requires Usable(u) && |y.ring| <= u.size && Waits(u, y, samples)
    ensures var y' := After(u, y, samples);
      y'.s.mode == Prefill && y'.s.everStarted == y.s.everStarted && |y'.ring| == Seen(u, y, samples) <= u.size
  {
  }

  lemma {:induction false} WaitingLevel(u: Setup, y: System, arrivals: seq<seq<real>>)
    requires Usable(u) && y.s.mode == Prefill && |y.ring| <= u.size && AllWaiting(u, y, arrivals)
    ensures var y' := Run(u, y, arrivals);
      && y'.s.mode == Prefill && y'.s.everStarted == y.s.everStarted
      && |y'.ring| == Filled(u, |y.ring|, Total(Lengths(arrivals)))
    decreases |arrivals|
  {
    if arrivals != [] {
      WaitingTurn(u, y, arrivals[0]);
      WaitingLevel(u, After(u, y, arrivals[0]), arrivals[1..]);
      assert Lengths(arrivals)[1..] == Lengths(arrivals[1..]);
    }
  }

  /** From construction, silence lasts exactly until the start level has arrived. */
  lemma FirstStart(u: Setup, arrivals: seq<seq<real>>, samples: seq<real>)
    requires Usable(u) && AllWaiting(u, CONSTRUCTED, arrivals)
    ensures Waits(u, Run(u, CONSTRUCTED, arrivals), samples)
       <==> Filled(u, 0, Total(Lengths(arrivals)) + |samples|) < u.p.startWater
  {
    WaitingLevel(u, CONSTRUCTED, arrivals);
  }

  lemma {:induction false} StartedStays(u: Setup, y: System, arrivals: seq<seq<real>>)
    requires Usable(u) && y.s.everStarted
    ensures Run(u, y, arrivals).s.everStarted
    decreases |arrivals|
  {
    if arrivals != [] {
      StartedStays(u, After(u, y, arrivals[0]), arrivals[1..]);
    }
  }

  /** A machine that has played once starts again exactly at the resume level, however much later. */
  lemma LaterStart(u: Setup, y: System, arrivals: seq<seq<real>>, samples: seq<real>)
    requires Usable(u) && y.s.everStarted && Run(u, y, arrivals).s.mode == Prefill
    ensures Waits(u, Run(u, y, arrivals), samples)
       <==> Filled(u, |Run(u, y, arrivals).ring|, |samples|) < u.p.resumeWater
  {
    StartedStays(u, y, arrivals);
  }

  // ---------------------------------------------------------------- what a run plays

  function Stream(arrivals: seq<seq<real>>): seq<real> {
    if arrivals == [] then [] else arrivals[0] + Stream(arrivals[1..])
  }

  /** Every call reads a whole block, and no message overflows the ring. */
  predicate AllPlaying(u: Setup, y: System, arrivals: seq<seq<real>>)
    requires Usable(u)
    decreases |arrivals|
  {
    arrivals == [] ||
    (&& |y.ring| + |arrivals[0]| <= u.size
     && After(u, y, arrivals[0]).s.mode == Playing
     && AllPlaying(u, After(u, y, arrivals[0]), arrivals[1..]))
  }

  /** The first `n` pairs of a stream as they are heard at full gain. */
  function Heard(all: seq<real>, n: nat, stereo: bool): seq<Frame>
    requires 2 * n <= |all|
  {
    seq(n, i requires 0 <= i < n =>
      if stereo then Stereo(all[2 * i], all[2 * i + 1]) else Mono((all[2 * i] + all[2 * i + 1]) * 0.5))
  }

  lemma FullBlock(p: Params, s: Worklet, ring: seq<real>, frames: nat, stereo: bool)
    requires Configured(p) && 2 * frames <= |ring| && s.mode == Playing && s.env == 1.0
    ensures Process(p, s, ring, frames, stereo).output == Heard(ring, frames, stereo)
  {
    forall i: nat | i < frames
      ensures i < |Process(p, s, ring, frames, stereo).output|
      ensures Process(p, s, ring, frames, stereo).output[i] == Heard(ring, frames, stereo)[i]
    {
      FullVolume(p, s, ring, frames, i);
    }
    assert |Process(p, s, ring, frames, stereo).output| == frames;
  }

  /** A full read at full gain takes its block from the front of the stream and plays it. */
  lemma PlayingTurn(u: Setup, y: System, samples: seq<real>, stereo: bool)
    requires Usable(u) && y.s.mode == Playing && y.s.env == 1.0 && |y.ring| + |samples| <= u.size
    requires After(u, y, samples).s.mode == Playing
    ensures 2 * u.frames <= |y.ring + samples| && After(u, y, samples).ring == (y.ring + samples)[2 * u.frames..]
    ensures After(u, y, samples).s.env == 1.0
    ensures Rendered(u, y, samples, stereo) == Heard(y.ring + samples, u.frames, stereo)
  {
    TurnExact(u, y, samples);
    FullGain(Step(u.p), u.frames);
    assert LastN(y.ring + samples, u.size) == y.ring + samples;
    FullBlock(u.p, y.s, y.ring + samples, u.frames, stereo);
  }

  lemma FullGain(step: real, n: nat)
    requires step > 0.0
    ensures Ramp(1.0, true, step, n) == 1.0
  {
    assert n as real * step >= 0.0;
  }

  /** What is heard of a stream is what is heard of its front and then of the rest. */
  lemma HeardJoins(front: seq<real>, rest: seq<real>, m: nat, block: seq<Frame>, later: seq<Frame>, stereo: bool)
    requires 2 * m <= |front| && block == Heard(front, m, stereo)
    requires 2 * |later| <= |front[2 * m..] + rest| && later == Heard(front[2 * m..] + rest, |later|, stereo)
    ensures 2 * |block + later| <= |front + rest| && block + later == Heard(front + rest, |block + later|, stereo)
    ensures (front[2 * m..] + rest)[2 * |later|..] == (front + rest)[2 * |block + later|..]
  {
    var back := front[2 * m..] + rest;
    forall i: nat | i < |later|
      ensures later[i] == Heard(front + rest, |block + later|, stereo)[m + i]
    {
      assert back[2 * i] == (front + rest)[2 * (m + i)] && back[2 * i + 1] == (front + rest)[2 * (m + i) + 1];
    }
  }

  lemma RunUnfolds(u: Setup, y: System, arrivals: seq<seq<real>>, stereo: bool)
    requires Usable(u) && arrivals != []
    ensures var y', rest := After(u, y, arrivals[0]), arrivals[1..];
      && Run(u, y, arrivals) == Run(u, y', rest)
      && Outputs(u, y, arrivals, stereo) == Rendered(u, y, arrivals[0], stereo) + Outputs(u, y', rest, stereo)
  {
  }

  lemma StreamUnfolds(ring: seq<real>, arrivals: seq<seq<real>>)
    requires arrivals != []
    ensures ring + Stream(arrivals) == ring + arrivals[0] + Stream(arrivals[1..])
  {
  }

  /**
   What full reads play at full gain is what was received: pair by pair and in order, without a gap,
   left on the left, however the samples were divided into messages; and the rest is in the ring.
   */
  lemma {:induction false} PlaysWhatArrived(u: Setup, y: System, arrivals: seq<seq<real>>, stereo: bool)
    requires Usable(u) && y.s.mode == Playing && y.s.env == 1.0 && AllPlaying(u, y, arrivals)
    ensures var all, outputs := y.ring + Stream(arrivals), Outputs(u, y, arrivals, stereo);
      && 2 * |outputs| <= |all|
      && outputs == Heard(all, |outputs|, stereo) && Run(u, y, arrivals).ring == all[2 * |outputs|..]
    decreases |arrivals|
  {
    if arrivals != [] {
      var y', rest := After(u, y, arrivals[0]), arrivals[1..];
      PlayingTurn(u, y, arrivals[0], stereo);
      PlaysWhatArrived(u, y', rest, stereo);
      RunUnfolds(u, y, arrivals, stereo);
      StreamUnfolds(y.ring, arrivals);
      HeardJoins(y.ring + arrivals[0], Stream(rest), u.frames, Rendered(u, y, arrivals[0], stereo),
                 Outputs(u, y', rest, stereo), stereo);
    }
  }

  // ---------------------------------------------------------------- the lowest level

  /** The level each call leaves in the ring, but for those that end in PREFILL. */
  function Noted(u: Setup, y: System, arrivals: seq<seq<real>>): seq<nat>
    requires Usable(u)
    decreases |arrivals|
  {
    if arrivals == [] then []
    else
      var y' := After(u, y, arrivals[0]);
      (if y'.s.mode != Prefill then [|y'.ring|] else []) + Noted(u, y', arrivals[1..])
  }

  /** `m` is the least of the levels, or what it was without any. */
  predicate IsLeast(before: Option<nat>, levels: seq<nat>, m: Option<nat>) {
    && (m.None? <==> before.None? && levels == [])
    && (m.Some? ==>
      && (before == m || m.value in levels)
      && (before.Some? ==> m.value <= before.value)
      && forall level | level in levels :: m.value <= level)
  }

  /** The recorded minimum is the lowest level any call outside PREFILL has left. */
  lemma {:induction false} MinimumExact(u: Setup, y: System, arrivals: seq<seq<real>>)
    requires Usable(u)
    ensures IsLeast(y.s.availMin, Noted(u, y, arrivals), Run(u, y, arrivals).s.availMin)
    decreases |arrivals|
  {
    if arrivals != [] {
      var y' := After(u, y, arrivals[0]);
      MinimumExact(u, y', arrivals[1..]);
      TurnNotes(u, y, arrivals[0]);
    }
  }

  lemma TurnNotes(u: Setup, y: System, samples: seq<real>)
    requires Usable(u)
    ensures var s', left := After(u, y, samples).s, |After(u, y, samples).ring|;
      s'.availMin == if s'.mode == Prefill || (y.s.availMin.Some? && y.s.availMin.value <= left) then y.s.availMin
                     else Some(left)
  {
  }
}
