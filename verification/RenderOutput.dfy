/**
 What the native machine plays, and when it starts, underruns and notes its level: everything in
 terms of the samples pushed, for single quanta and for whole runs.
 */
module RenderOutput {
  import opened RingBuffers
  import opened Wrappers
  import opened Renders
  import opened RenderLaws

  // ---------------------------------------------------------------- rounding and gain

  /** Rounding is to a nearest integer, and away from zero between two. */
  lemma RoundExact(x: real)
    ensures -0.5 <= Round(x) as real - x <= 0.5
    ensures Round(x) as real - x == 0.5 ==> x > 0.0
    ensures Round(x) as real - x == -0.5 ==> x < 0.0
  {
  }

  /** Halving is towards zero, and loses less than one. */
  lemma HalfExact(x: int)
    ensures x >= 0 ==> 2 * Half(x) <= x <= 2 * Half(x) + 1
    ensures x <= 0 ==> 2 * Half(x) - 1 <= x <= 2 * Half(x)
  {
  }

  /** `played` is `sample` at this gain, but for rounding. */
  predicate Near(played: int, sample: int, gain: real) {
    -0.5 <= played as real - sample as real * gain <= 0.5
  }

  /** The gain `frames` frames into a rise of fadeSamples / 2 frames, from `env`. */
  function Risen(p: Params, env: real, frames: nat): real
    requires Configured(p)
  {
    var g := env + 2.0 * frames as real / p.fadeSamples as real;
    if g < 1.0 then g else 1.0
  }

  function Fallen(p: Params, env: real, frames: nat): real
    requires Configured(p)
  {
    var g := env - 2.0 * frames as real / p.fadeSamples as real;
    if g > 0.0 then g else 0.0
  }

  /** The envelope is these two straight lines. */
  lemma RampIsLinear(p: Params, env: real, n: nat)
    requires Configured(p)
    ensures Ramp(env, true, Step(p), n) == Risen(p, env, n)
    ensures Ramp(env, false, Step(p), n) == Fallen(p, env, n)
  {
    StepsAdd(n as real, p.fadeSamples as real);
  }

  lemma StepsAdd(n: real, fade: real)
    requires fade > 0.0
    ensures n * (1.0 / (fade / 2.0)) == 2.0 * n / fade
  {
    var s, d := 1.0 / (fade / 2.0), 2.0 * n / fade;
    assert s * (fade / 2.0) == 1.0;
    assert d * fade == 2.0 * n;
    assert n * s * fade == 2.0 * n * (s * (fade / 2.0));
    assert (n * s - d) * fade == 0.0;
  }

  lemma RiseAdds(env: real, step: real, m: nat, n: nat)
    requires 0.0 <= env <= 1.0 && step > 0.0
    ensures Ramp(Ramp(env, true, step, m), true, step, n) == Ramp(env, true, step, m + n)
  {
    assert (m + n) as real * step == m as real * step + n as real * step;
    assert n as real * step >= 0.0;
  }

  lemma ScaledNear(x: int, gain: real)
    ensures Near(Scaled(x, gain), x, gain)
  {
    RoundExact(x as real * gain);
  }

  /** At full gain nothing is changed, at none nothing is left. */
  lemma NearExact(played: int, sample: int)
    ensures Near(played, sample, 1.0) <==> played == sample
    ensures Near(played, sample, 0.0) <==> played == 0
  {
  }

  /** Sample `k` of a block or of a run, under a rise or a fall that starts with it. */
  function Played(p: Params, env: real, normal: bool, sample: int, k: nat): int
    requires Configured(p)
  {
    Scaled(sample, Ramp(env, normal, Step(p), k / p.channels + 1))
  }

  lemma PlayedNear(p: Params, env: real, sample: int, k: nat)
    requires Configured(p)
    ensures Near(Played(p, env, true, sample, k), sample, Risen(p, env, k / p.channels + 1))
    ensures Near(Played(p, env, false, sample, k), sample, Fallen(p, env, k / p.channels + 1))
  {
    var n := k / p.channels + 1;
    RampIsLinear(p, env, n);
    ScaledNear(sample, Ramp(env, true, Step(p), n));
    ScaledNear(sample, Ramp(env, false, Step(p), n));
  }

  lemma PlayedInFull(p: Params, sample: int, k: nat)
    requires Configured(p)
    ensures Played(p, 1.0, true, sample, k) == sample
  {
    assert (k / p.channels + 1) as real * Step(p) >= 0.0;
    ScaledNear(sample, 1.0);
    NearExact(Scaled(sample, 1.0), sample);
  }

  // ---------------------------------------------------------------- one quantum

  /** The quantum reads: it is PLAYING, or its level has come. */
  predicate Reads(p: Params, s: Render, availTop: nat) {
    s.mode == Playing || (s.mode == Prefill && availTop >= (if s.everStarted then p.resumeWater else p.startWater))
  }

  lemma BlockAt(block: seq<int>, channels: nat, gain: nat -> real, upto: nat, k: nat)
    requires channels > 0 && k < upto <= |block|
    ensures Block(block, channels, gain, upto)[k] == Scaled(block[k], gain(k / channels + 1))
  {
  }

  /** What such a quantum plays is its scratch block, shaped. */
  lemma ReadingPlays(p: Params, s: Render, temp: seq<int>, availTop: nat, ring: seq<int>, frames: nat, k: nat)
    requires Configured(p) && k < frames * p.channels <= |temp| && Reads(p, s, availTop)
    ensures k < |Output(p, s, temp, availTop, ring, frames)|
    ensures Output(p, s, temp, availTop, ring, frames)[k]
         == Played(p, s.env, |ring| >= frames * p.channels, Scratch(p, s, temp, ring, frames * p.channels, k), k)
  {
    var needed := frames * p.channels;
    BlockAt(ScratchOf(p, Promote(s), temp, ring, needed), p.channels,
            Gains(s.env, |ring| >= needed, Step(p)), needed, k);
    ScratchAt(p, s, temp, ring, needed, k);
  }

  /** The block before the envelope: what was in the ring, then the held frame. */
  function Scratch(p: Params, s: Render, temp: seq<int>, ring: seq<int>, needed: nat, k: nat): int
    requires k < needed <= |temp|
  {
    if k < |ring| then ring[k] else Held(p.channels, |ring|, needed, s.lastL, s.lastR, k, temp[k])
  }

  lemma ScratchAt(p: Params, s: Render, temp: seq<int>, ring: seq<int>, needed: nat, k: nat)
    requires k < needed <= |temp| && s.mode != SoftUnderrun
    ensures ScratchOf(p, Promote(s), temp, ring, needed)[k] == Scratch(p, s, temp, ring, needed, k)
  {
  }

  /** A full read plays the oldest samples in the ring, all channels of a frame at one gain. */
  lemma FullReadPlays(p: Params, s: Render, temp: seq<int>, availTop: nat, ring: seq<int>, frames: nat, k: nat)
    requires Configured(p) && frames * p.channels <= |temp| && k < frames * p.channels <= |ring|
    requires Reads(p, s, availTop)
    ensures k < |Output(p, s, temp, availTop, ring, frames)|
    ensures Near(Output(p, s, temp, availTop, ring, frames)[k], ring[k], Risen(p, s.env, k / p.channels + 1))
  {
    ReadingPlays(p, s, temp, availTop, ring, frames, k);
    PlayedNear(p, s.env, ring[k], k);
  }

  /** Once the envelope is up, a full read plays the samples as they were pushed. */
  lemma FullVolume(p: Params, s: Render, temp: seq<int>, availTop: nat, ring: seq<int>, frames: nat, k: nat)
    requires Configured(p) && frames * p.channels <= |temp| && k < frames * p.channels <= |ring|
    requires s.mode == Playing && s.env == 1.0
    ensures k < |Output(p, s, temp, availTop, ring, frames)|
    ensures Output(p, s, temp, availTop, ring, frames)[k] == ring[k]
  {
    ReadingPlays(p, s, temp, availTop, ring, frames, k);
    PlayedInFull(p, ring[k], k);
  }

  /**
   A quantum that runs dry plays what whole frames there were and then the held frame, and fades from
   its first frame on.
   */
  lemma ShortReadHolds(p: Params, s: Render, temp: seq<int>, availTop: nat, ring: seq<int>, frames: nat, k: nat)
    requires Configured(p) && |ring| < frames * p.channels <= |temp| && k < frames * p.channels
    requires Reads(p, s, availTop) && (p.channels == 2 ==> |ring| % 2 == 0)
    ensures k < |Output(p, s, temp, availTop, ring, frames)|
    ensures Near(Output(p, s, temp, availTop, ring, frames)[k],
                 if k < |ring| then ring[k] else HeldValue(p.channels, s.lastL, s.lastR, k % p.channels),
                 Fallen(p, s.env, k / p.channels + 1))
  {
    ReadingPlays(p, s, temp, availTop, ring, frames, k);
    if k >= |ring| {
      HeldBehind(p.channels, |ring|, frames, s.lastL, s.lastR, k, temp[k]);
    }
    PlayedNear(p, s.env, if k < |ring| then ring[k] else HeldValue(p.channels, s.lastL, s.lastR, k % p.channels), k);
  }

  /** Behind whole frames the held block begins with the left channel. */
  lemma HeldBehind(channels: nat, got: nat, frames: nat, lastL: int, lastR: int, k: nat, before: int)
    requires channels > 0 && got <= k < frames * channels && (channels == 2 ==> got % 2 == 0)
    ensures Held(channels, got, frames * channels, lastL, lastR, k, before)
         == HeldValue(channels, lastL, lastR, k % channels)
  {
  }

  /** The frame that is held later is the last one a full read has dequeued. */
  lemma HeldIsLastFrame(p: Params, s: Render, availTop: nat, ring: seq<int>, frames: nat, level: nat, c: nat)
    requires Configured(p) && 0 < frames && frames * p.channels <= |ring| && c < p.channels
    requires Reads(p, s, availTop)
    ensures var s', needed := NextRender(p, s, availTop, ring, frames, level), frames * p.channels;
      && 0 < p.channels <= needed
      && HeldValue(p.channels, s'.lastL, s'.lastR, c)
         == if p.channels == 2 then ring[needed - 2 + c] else ring[needed - 1]
  {
    assert frames * p.channels == p.channels + (frames - 1) * p.channels;
    HalfExact(2 * ring[frames * p.channels - 1]);
  }

  /** While the machine waits for its start level the device gets silence. */
  lemma WaitingIsSilent(p: Params, s: Render, temp: seq<int>, availTop: nat, ring: seq<int>, frames: nat, level: nat,
                        k: nat)
    requires Configured(p) && k < frames * p.channels <= |temp| && s.mode == Prefill && !Reads(p, s, availTop)
    ensures k < |Output(p, s, temp, availTop, ring, frames)|
    ensures Output(p, s, temp, availTop, ring, frames)[k] == 0 && RingAfter(p, s, availTop, ring, frames) == ring
    ensures NextRender(p, s, availTop, ring, frames, level) == s.(env := 0.0)
  {
  }

  // ---------------------------------------------------------------- when it starts and when it underruns

  /** The level a quantum sees at its top, and the one its dequeue finds. */
  function Seen(u: Setup, y: System, i: Input): nat { Least(u.room, |y.ring| + |i.before|) }

  function Found(u: Setup, y: System, i: Input): nat { Least(u.room, |y.ring| + |i.before| + |i.during|) }

  /** The first start waits for the start level, every later one for the resume level. */
  predicate Waits(u: Setup, y: System, i: Input) {
    y.s.mode == Prefill && Seen(u, y, i) < (if y.s.everStarted then u.p.resumeWater else u.p.startWater)
  }

  lemma TurnExact(u: Setup, y: System, i: Input)
    requires Inv(u, y) && Usable(u, y, i)
    ensures var s' := After(u, y, i).s;
      && (s'.mode == Prefill
          <==> Waits(u, y, i) || (y.s.mode == SoftUnderrun && Seen(u, y, i) >= u.p.resumeWater && y.s.env == 0.0))
      && (s'.mode == Playing
          <==> y.s.mode != SoftUnderrun && !Waits(u, y, i) && Found(u, y, i) >= i.frames * u.p.channels)
      && s'.underruns == y.s.underruns + (if y.s.mode != SoftUnderrun && s'.mode == SoftUnderrun then 1 else 0)
      && (s'.everStarted <==> y.s.everStarted || s'.mode != Prefill)
  {
  }

  lemma LevelsAre(u: Setup, y: System, i: Input)
    requires |y.ring| <= u.room
    ensures |Snapshot(u, y, i)| == Seen(u, y, i) && |Dequeued(u, y, i)| == Found(u, y, i)
  {
  }

  /** What a quantum leaves in the ring: all of it, or what is behind the block it has read. */
  lemma TurnRing(u: Setup, y: System, i: Input)
    requires Inv(u, y) && Usable(u, y, i)
    ensures var found, needed := Dequeued(u, y, i), i.frames * u.p.channels;
      && |found| == Found(u, y, i)
      && After(u, y, i).ring
         == if y.s.mode == SoftUnderrun || Waits(u, y, i) then found
            else if |found| >= needed then found[needed..] else []
  {
    LevelsAre(u, y, i);
    RingAfterIs(u.p, y.s, |Snapshot(u, y, i)|, Dequeued(u, y, i), i.frames);
  }

  lemma RingAfterIs(p: Params, s: Render, availTop: nat, ring: seq<int>, frames: nat)
    ensures RingAfter(p, s, availTop, ring, frames)
         == if s.mode == SoftUnderrun || (s.mode == Prefill && availTop < Water(p, s)) then ring
            else if |ring| >= frames * p.channels then ring[frames * p.channels..] else []
  {
  }

  /** How often a run enters SOFT_UNDERRUN. */
  function Entries(u: Setup, y: System, inputs: seq<Input>): nat
    requires Runs(u, y, inputs)
    decreases |inputs|
  {
    if inputs == [] then 0
    else
      var y' := After(u, y, inputs[0]);
      (if y.s.mode != SoftUnderrun && y'.s.mode == SoftUnderrun then 1 else 0) + Entries(u, y', inputs[1..])
  }

  /** The underrun counter is the number of entries into SOFT_UNDERRUN. */
  lemma {:induction false} UnderrunsExact(u: Setup, y: System, inputs: seq<Input>)
    requires Inv(u, y) && Runs(u, y, inputs)
    ensures Run(u, y, inputs).s.underruns == y.s.underruns + Entries(u, y, inputs)
    decreases |inputs|
  {
    if inputs != [] {
      TurnExact(u, y, inputs[0]);
      TurnKeepsInv(u, y, inputs[0]);
      UnderrunsExact(u, After(u, y, inputs[0]), inputs[1..]);
    }
  }

  /** Stays in PREFILL through every input of the sequence. */
  predicate AllWaiting(u: Setup, y: System, inputs: seq<Input>)
    requires Runs(u, y, inputs)
    decreases |inputs|
  {
    inputs == [] ||
    (After(u, y, inputs[0]).s.mode == Prefill && AllWaiting(u, After(u, y, inputs[0]), inputs[1..]))
  }

  lemma {:induction false} EverStartedExact(u: Setup, y: System, inputs: seq<Input>)
    requires Inv(u, y) && Runs(u, y, inputs)
    ensures Run(u, y, inputs).s.everStarted <==> y.s.everStarted || !AllWaiting(u, y, inputs)
    decreases |inputs|
  {
    if inputs != [] {
      TurnExact(u, y, inputs[0]);
      TurnKeepsInv(u, y, inputs[0]);
      EverStartedExact(u, After(u, y, inputs[0]), inputs[1..]);
    }
  }

  lemma {:induction false} WaitingLevel(u: Setup, y: System, inputs: seq<Input>)
    requires Inv(u, y) && Runs(u, y, inputs) && y.s.mode == Prefill && AllWaiting(u, y, inputs)
    ensures var y' := Run(u, y, inputs);
      Inv(u, y') && y'.s.mode == Prefill && |y'.ring| == Least(u.room, |y.ring| + Arrivals(inputs))
    decreases |inputs|
  {
    if inputs != [] {
      TurnExact(u, y, inputs[0]);
      TurnRing(u, y, inputs[0]);
      TurnKeepsInv(u, y, inputs[0]);
      WaitingLevel(u, After(u, y, inputs[0]), inputs[1..]);
    }
  }

  /** From the start, silence lasts exactly until the start level has arrived. */
  lemma FirstStart(u: Setup, y: System, inputs: seq<Input>, next: Input)
    requires Inv(u, y) && y.s.mode == Prefill && !y.s.everStarted && Runs(u, y, inputs) && AllWaiting(u, y, inputs)
    requires Usable(u, Run(u, y, inputs), next)
    ensures After(u, Run(u, y, inputs), next).s.mode != Prefill
       <==> Least(u.room, |y.ring| + Arrivals(inputs) + |next.before|) >= u.p.startWater
  {
    WaitingLevel(u, y, inputs);
    EverStartedExact(u, y, inputs);
    TurnExact(u, Run(u, y, inputs), next);
  }

  /** A run that has played and is back in PREFILL goes on exactly at the resume level. */
  lemma LaterStart(u: Setup, y: System, inputs: seq<Input>, next: Input)
    requires Inv(u, y) && Runs(u, y, inputs) && !AllWaiting(u, y, inputs) && Run(u, y, inputs).s.mode == Prefill
    requires Usable(u, Run(u, y, inputs), next)
    ensures After(u, Run(u, y, inputs), next).s.mode != Prefill
       <==> Least(u.room, |Run(u, y, inputs).ring| + |next.before|) >= u.p.resumeWater
  {
    RunKeepsInv(u, y, inputs);
    EverStartedExact(u, y, inputs);
    TurnExact(u, Run(u, y, inputs), next);
  }

  // ---------------------------------------------------------------- what a run plays

  function Stream(inputs: seq<Input>): seq<int> {
    if inputs == [] then [] else inputs[0].before + inputs[0].during + Stream(inputs[1..])
  }

  /** No push of the run overflows the ring. */
  predicate Roomy(u: Setup, y: System, inputs: seq<Input>)
    requires Runs(u, y, inputs)
    decreases |inputs|
  {
    inputs == [] ||
    (&& |y.ring| + |inputs[0].before| + |inputs[0].during| <= u.room
     && Roomy(u, After(u, y, inputs[0]), inputs[1..]))
  }

  lemma RoomyTurn(u: Setup, y: System, i: Input)
    requires Inv(u, y) && Usable(u, y, i) && |y.ring| + |i.before| + |i.during| <= u.room
    ensures Dequeued(u, y, i) == y.ring + (i.before + i.during)
    ensures Taken(u, y, i) <= |Dequeued(u, y, i)|
    ensures After(u, y, i).ring == Dequeued(u, y, i)[Taken(u, y, i)..]
  {
    TurnRing(u, y, i);
  }

  lemma DropTwice(a: seq<int>, b: seq<int>, m: nat, n: nat)
    requires m <= |a| && n <= |a| - m + |b|
    ensures (a[m..] + b)[n..] == (a + b)[m + n..]
  {
  }

  /** Whatever the modes, samples leave the ring from the front: what is left is the rest of the stream. */
  lemma {:induction false} RingIsRest(u: Setup, y: System, inputs: seq<Input>)
    requires Inv(u, y) && Runs(u, y, inputs) && Roomy(u, y, inputs)
    ensures Popped(u, y, inputs) <= |y.ring| + |Stream(inputs)|
    ensures Run(u, y, inputs).ring == (y.ring + Stream(inputs))[Popped(u, y, inputs)..]
    decreases |inputs|
  {
    if inputs != [] {
      var i, rest := inputs[0], inputs[1..];
      RoomyTurn(u, y, i);
      TurnKeepsInv(u, y, i);
      RingIsRest(u, After(u, y, i), rest);
      DropTwice(Dequeued(u, y, i), Stream(rest), Taken(u, y, i), Popped(u, After(u, y, i), rest));
      assert y.ring + Stream(inputs) == Dequeued(u, y, i) + Stream(rest);
    }
  }

  /** Every quantum of the run reads a whole block. */
  predicate AllPlaying(u: Setup, y: System, inputs: seq<Input>)
    requires Runs(u, y, inputs)
    decreases |inputs|
  {
    inputs == [] ||
    (After(u, y, inputs[0]).s.mode == Playing && AllPlaying(u, After(u, y, inputs[0]), inputs[1..]))
  }

  /** A quantum that ends PLAYING has read its block, from PREFILL with its level or from PLAYING. */
  lemma PlayingTurn(u: Setup, y: System, temp: seq<int>, i: Input, k: nat)
    requires Inv(u, y) && Usable(u, y, i) && |temp| == u.space && After(u, y, i).s.mode == Playing
    requires k < i.frames * u.p.channels
    ensures k < |Dequeued(u, y, i)| && k < |Rendered(u, y, temp, i)|
    ensures Rendered(u, y, temp, i)[k] == Played(u.p, y.s.env, true, Dequeued(u, y, i)[k], k)
  {
    TurnExact(u, y, i);
    TurnRing(u, y, i);
    ReadingPlays(u.p, y.s, temp, |Snapshot(u, y, i)|, Dequeued(u, y, i), i.frames, k);
  }

  lemma PlayingEnv(u: Setup, y: System, i: Input)
    requires Inv(u, y) && Usable(u, y, i) && After(u, y, i).s.mode == Playing
    ensures After(u, y, i).s.env == Ramp(y.s.env, true, Step(u.p), i.frames)
    ensures Taken(u, y, i) == i.frames * u.p.channels
  {
    TurnExact(u, y, i);
  }

  lemma OutputsLength(u: Setup, y: System, temp: seq<int>, inputs: seq<Input>)
    requires Runs(u, y, inputs) && |temp| == u.space && inputs != []
    ensures var rest := Outputs(u, After(u, y, inputs[0]), TempAfter(u, y, temp, inputs[0]), inputs[1..]);
      && Outputs(u, y, temp, inputs) == Rendered(u, y, temp, inputs[0]) + rest
      && |Rendered(u, y, temp, inputs[0])| == inputs[0].frames * u.p.channels
  {
    RenderedLength(u, y, temp, inputs[0]);
  }

  /** A later quantum of the run goes on where the one before it stopped. */
  lemma PlayedShift(p: Params, env: real, sample: int, frames: nat, k: nat)
    requires Configured(p) && 0.0 <= env <= 1.0 && k >= frames * p.channels
    ensures Played(p, Ramp(env, true, Step(p), frames), true, sample, k - frames * p.channels)
         == Played(p, env, true, sample, k)
  {
    ShiftFrame(k, frames, p.channels);
    RiseAdds(env, Step(p), frames, (k - frames * p.channels) / p.channels + 1);
  }

  /** A full read takes its block from the front of the stream. */
  lemma StreamTurn(u: Setup, y: System, i: Input, rest: seq<Input>, all: seq<int>)
    requires Inv(u, y) && Usable(u, y, i) && |y.ring| + |i.before| + |i.during| <= u.room
    requires After(u, y, i).s.mode == Playing && all == y.ring + (i.before + i.during + Stream(rest))
    ensures i.frames * u.p.channels <= |Dequeued(u, y, i)| && Dequeued(u, y, i) <= all
    ensures After(u, y, i).ring + Stream(rest) == all[i.frames * u.p.channels..]
  {
    RoomyTurn(u, y, i);
    PlayingEnv(u, y, i);
  }

  lemma {:induction false} RunPlays(u: Setup, y: System, temp: seq<int>, inputs: seq<Input>, all: seq<int>, k: nat)
    requires Inv(u, y) && Runs(u, y, inputs) && AllPlaying(u, y, inputs) && Roomy(u, y, inputs)
    requires |temp| == u.space && k < |Outputs(u, y, temp, inputs)| && all == y.ring + Stream(inputs)
    ensures k < |all| && Outputs(u, y, temp, inputs)[k] == Played(u.p, y.s.env, true, all[k], k)
    decreases |inputs|
  {
    var i, rest, needed := inputs[0], inputs[1..], inputs[0].frames * u.p.channels;
    var y', temp' := After(u, y, i), TempAfter(u, y, temp, i);
    OutputsLength(u, y, temp, inputs);
    OutputsAt(Rendered(u, y, temp, i), Outputs(u, y', temp', rest), needed, k);
    StreamTurn(u, y, i, rest, all);
    if k < needed {
      PlayingTurn(u, y, temp, i, k);
    } else {
      TurnKeepsInv(u, y, i);
      PlayingEnv(u, y, i);
      RunPlays(u, y', temp', rest, all[needed..], k - needed);
      PlayedShift(u.p, y.s.env, all[k], i.frames, k);
    }
  }

  /**
   What full reads play is what was pushed: sample by sample and in order, without a gap, under one
   rise of the envelope, however the run is divided into quanta.
   */
  lemma PlaysWhatWasPushed(u: Setup, y: System, temp: seq<int>, inputs: seq<Input>, k: nat)
    requires Inv(u, y) && Runs(u, y, inputs) && AllPlaying(u, y, inputs) && Roomy(u, y, inputs)
    requires |temp| == u.space && k < |Outputs(u, y, temp, inputs)|
    ensures k < |y.ring + Stream(inputs)|
    ensures Near(Outputs(u, y, temp, inputs)[k], (y.ring + Stream(inputs))[k],
                 Risen(u.p, y.s.env, k / u.p.channels + 1))
  {
    RunPlays(u, y, temp, inputs, y.ring + Stream(inputs), k);
    PlayedNear(u.p, y.s.env, (y.ring + Stream(inputs))[k], k);
  }

  /** Started at full gain, a run of full reads plays a prefix of the stream unchanged and leaves the rest. */
  lemma PlaysUnchanged(u: Setup, y: System, temp: seq<int>, inputs: seq<Input>)
    requires Inv(u, y) && Runs(u, y, inputs) && AllPlaying(u, y, inputs) && Roomy(u, y, inputs)
    requires |temp| == u.space && y.s.env == 1.0
    ensures Outputs(u, y, temp, inputs) + Run(u, y, inputs).ring == y.ring + Stream(inputs)
  {
    var outputs, all := Outputs(u, y, temp, inputs), y.ring + Stream(inputs);
    forall k: nat | k < |outputs|
      ensures k < |all| && outputs[k] == all[k]
    {
      RunPlays(u, y, temp, inputs, all, k);
      PlayedInFull(u.p, all[k], k);
    }
    RingIsRest(u, y, inputs);
    PlayedIsPopped(u, y, temp, inputs);
    PrefixAndRest(outputs, all, Run(u, y, inputs).ring);
  }

  lemma PrefixAndRest(a: seq<int>, all: seq<int>, rest: seq<int>)
    requires |a| <= |all| && (forall k | 0 <= k < |a| :: a[k] == all[k]) && rest == all[|a|..]
    ensures a + rest == all
  {
  }

  lemma {:induction false} PlayedIsPopped(u: Setup, y: System, temp: seq<int>, inputs: seq<Input>)
    requires Inv(u, y) && Runs(u, y, inputs) && AllPlaying(u, y, inputs) && |temp| == u.space
    ensures |Outputs(u, y, temp, inputs)| == Popped(u, y, inputs)
    decreases |inputs|
  {
    if inputs != [] {
      OutputsLength(u, y, temp, inputs);
      PlayingEnv(u, y, inputs[0]);
      TurnKeepsInv(u, y, inputs[0]);
      PlayedIsPopped(u, After(u, y, inputs[0]), TempAfter(u, y, temp, inputs[0]), inputs[1..]);
    }
  }

  /** A soft run plays the held value of each channel under one fall of the envelope. */
  lemma SoftPlaysHeld(u: Setup, y: System, temp: seq<int>, inputs: seq<Input>, k: nat)
    requires Inv(u, y) && y.s.mode == SoftUnderrun && Runs(u, y, inputs) && AllSoft(u, y, inputs)
    requires |temp| == u.space && k < |Outputs(u, y, temp, inputs)|
    ensures Near(Outputs(u, y, temp, inputs)[k], HeldLevel(u.p, y.s, k), Fallen(u.p, y.s.env, k / u.p.channels + 1))
  {
    HeldAt(u, y, temp, inputs, k);
    NextFrame(u.p, y.s, k);
    PlayedNear(u.p, y.s.env, HeldLevel(u.p, y.s, k), k);
  }

  // ---------------------------------------------------------------- the lowest level

  /** Not in PREFILL after any input of the sequence. */
  predicate NoPrefill(u: Setup, y: System, inputs: seq<Input>)
    requires Runs(u, y, inputs)
    decreases |inputs|
  {
    inputs == [] ||
    (After(u, y, inputs[0]).s.mode != Prefill && NoPrefill(u, After(u, y, inputs[0]), inputs[1..]))
  }

  function Lowest(first: nat, inputs: seq<Input>): nat {
    if inputs == [] then first else Lowest(Least(first, inputs[0].level), inputs[1..])
  }

  lemma TurnNotes(u: Setup, y: System, i: Input)
    requires Inv(u, y) && Usable(u, y, i) && After(u, y, i).s.mode != Prefill
    ensures After(u, y, i).s.minAvailable
         == if y.s.mode == Prefill || y.s.minAvailable.None? then Some(i.level)
            else Some(Least(y.s.minAvailable.value, i.level))
  {
  }

  lemma {:induction false} LowestSoFar(u: Setup, y: System, inputs: seq<Input>)
    requires Inv(u, y) && Runs(u, y, inputs) && NoPrefill(u, y, inputs)
    requires y.s.mode != Prefill && y.s.minAvailable.Some?
    ensures Run(u, y, inputs).s.minAvailable == Some(Lowest(y.s.minAvailable.value, inputs))
    decreases |inputs|
  {
    if inputs != [] {
      TurnNotes(u, y, inputs[0]);
      TurnKeepsInv(u, y, inputs[0]);
      LowestSoFar(u, After(u, y, inputs[0]), inputs[1..]);
    }
  }

  lemma {:induction false} LowestIsLeast(first: nat, inputs: seq<Input>)
    ensures Lowest(first, inputs) <= first && forall i | i in inputs :: Lowest(first, inputs) <= i.level
    ensures Lowest(first, inputs) == first || exists i | i in inputs :: i.level == Lowest(first, inputs)
    decreases |inputs|
  {
    if inputs != [] {
      LowestIsLeast(Least(first, inputs[0].level), inputs[1..]);
      assert inputs == [inputs[0]] + inputs[1..];
    }
  }

  /** The recorded minimum is the lowest level read since playing last started, whatever was before. */
  lemma MinimumExact(u: Setup, y: System, inputs: seq<Input>)
    requires Inv(u, y) && y.s.mode == Prefill && inputs != [] && Runs(u, y, inputs) && NoPrefill(u, y, inputs)
    ensures var m := Run(u, y, inputs).s.minAvailable;
      && m.Some? && (forall i | i in inputs :: m.value <= i.level) && exists i | i in inputs :: i.level == m.value
  {
    var first, rest := inputs[0], inputs[1..];
    TurnNotes(u, y, first);
    TurnKeepsInv(u, y, first);
    LowestSoFar(u, After(u, y, first), rest);
    LowestIsLeast(first.level, rest);
    assert inputs == [first] + rest;
  }
}
