/** Why the native machine stops dequeuing while it is soft: what happens to the one that does not. */
module WorkletLaws {
  import opened RingBuffers
  import opened Wrappers
  import opened Renders
  import opened Worklets

  datatype System = System(s: Worklet, ring: seq<real>)

  /** A run's constants: the machine's, the ring's size, and the quantum in frames. */
  datatype Setup = Setup(p: Params, size: nat, frames: nat)

  predicate Usable(u: Setup) { Configured(u.p) && u.frames > 0 }

  function Need(u: Setup): nat { 2 * u.frames }

  /** One call of process(), with the samples that arrived since the last one. */
  function After(u: Setup, y: System, samples: seq<real>): System
    requires Usable(u)
  {
    var ring := LastN(y.ring + samples, u.size);
    System(NextState(u.p, y.s, ring, u.frames), NextRing(u.p, y.s, ring, u.frames))
  }

  function Run(u: Setup, y: System, arrivals: seq<seq<real>>): System
    requires Usable(u)
    decreases |arrivals|
  {
    if arrivals == [] then y else Run(u, After(u, y, arrivals[0]), arrivals[1..])
  }

  lemma {:induction false} RunAppend(u: Setup, y: System, a: seq<seq<real>>, b: seq<seq<real>>)
    requires Usable(u)
    ensures Run(u, y, a + b) == Run(u, Run(u, y, a), b)
    decreases |a|
  {
    if a == [] {
      assert a + b == b;
    } else {
      RunAppend(u, After(u, y, a[0]), a[1..], b);
      RunCons(u, y, a[0], a[1..] + b);
      assert [a[0]] + (a[1..] + b) == a + b;
    }
  }

  lemma RunCons(u: Setup, y: System, samples: seq<real>, rest: seq<seq<real>>)
    requires Usable(u)
    ensures Run(u, y, [samples] + rest) == Run(u, After(u, y, samples), rest)
  {
    assert ([samples] + rest)[1..] == rest;
  }

  // ---------------------------------------------------------------- one soft quantum

  lemma SoftQuantum(u: Setup, y: System, samples: seq<real>)
    requires Usable(u) && y.s.mode == SoftUnderrun && 0.0 <= y.s.env <= 1.0
    ensures var level, y' := |LastN(y.ring + samples, u.size)|, After(u, y, samples);
      && (y'.s.mode == Prefill <==> level >= u.p.resumeWater && y.s.env == 0.0)
      && (y'.s.mode != Prefill ==> y'.s.mode == SoftUnderrun)
      && |y'.ring| == (if level >= Need(u) then level - Need(u) else level)
      && y'.s.env == Ramp(y.s.env, false, Step(u.p), u.frames)
  {
  }

  /** The quantum that underruns leaves less than a block in the ring. */
  lemma UnderrunLevel(u: Setup, y: System, samples: seq<real>)
    requires Usable(u) && y.s.mode == Playing && After(u, y, samples).s.mode != Playing && y.s.env > 0.0
    ensures After(u, y, samples).s.mode == SoftUnderrun && |After(u, y, samples).ring| < Need(u)
  {
  }

  // ---------------------------------------------------------------- exactly when it recovers

  /** Stays soft through every quantum of the run. */
  predicate AllSoft(u: Setup, y: System, arrivals: seq<seq<real>>)
    requires Usable(u)
    decreases |arrivals|
  {
    arrivals == [] ||
    (After(u, y, arrivals[0]).s.mode == SoftUnderrun && AllSoft(u, After(u, y, arrivals[0]), arrivals[1..]))
  }

  function Lengths(arrivals: seq<seq<real>>): seq<nat> {
    seq(|arrivals|, i requires 0 <= i < |arrivals| => |arrivals[i]|)
  }

  /** The level once `arrived` samples have come in, and what one soft quantum leaves of a level. */
  function Filled(u: Setup, level: nat, arrived: nat): nat {
    if level + arrived <= u.size then level + arrived else u.size
  }

  function Left(u: Setup, level: nat): nat {
    if level >= Need(u) then level - Need(u) else level
  }

  /** The level that soft quantum `k` finds before it dequeues. */
  function LevelAt(u: Setup, level: nat, lengths: seq<nat>, k: nat): nat
    requires k < |lengths|
    decreases k
  {
    var filled := Filled(u, level, lengths[0]);
    if k == 0 then filled else LevelAt(u, Left(u, filled), lengths[1..], k - 1)
  }

  function LevelAfter(u: Setup, level: nat, lengths: seq<nat>): nat
    decreases |lengths|
  {
    if lengths == [] then level else LevelAfter(u, Left(u, Filled(u, level, lengths[0])), lengths[1..])
  }

  /** Quantum `k` finds the fade over and the level back. */
  predicate CallsBack(u: Setup, level: nat, env: real, lengths: seq<nat>, k: nat)
    requires Usable(u) && k < |lengths|
  {
    Ramp(env, false, Step(u.p), k * u.frames) == 0.0 && LevelAt(u, level, lengths, k) >= u.p.resumeWater
  }

  lemma CallsBackNext(u: Setup, level: nat, env: real, lengths: seq<nat>, k: nat)
    requires Usable(u) && 0.0 <= env <= 1.0 && k + 1 < |lengths|
    ensures CallsBack(u, level, env, lengths, k + 1)
         == CallsBack(u, Left(u, Filled(u, level, lengths[0])), Ramp(env, false, Step(u.p), u.frames), lengths[1..], k)
  {
    RampOfQuanta(env, Step(u.p), u.frames, k + 1);
  }

  lemma CallsBackFirst(u: Setup, level: nat, env: real, lengths: seq<nat>)
    requires Usable(u) && 0.0 <= env <= 1.0 && lengths != []
    ensures CallsBack(u, level, env, lengths, 0) <==> env == 0.0 && Filled(u, level, lengths[0]) >= u.p.resumeWater
  {
    RampNext(env, false, Step(u.p), 0);
  }

  lemma RampOfQuanta(env: real, step: real, frames: nat, n: nat)
    requires 0.0 <= env <= 1.0 && step > 0.0 && n > 0
    ensures Ramp(Ramp(env, false, step, frames), false, step, (n - 1) * frames) == Ramp(env, false, step, n * frames)
  {
    assert n * frames == frames + (n - 1) * frames;
    RampAdds(env, step, frames, (n - 1) * frames);
  }

  predicate NeverCalledBack(u: Setup, level: nat, env: real, lengths: seq<nat>)
    requires Usable(u)
  {
    forall k: nat | k < |lengths| :: !CallsBack(u, level, env, lengths, k)
  }

  lemma NeverCalledBackNext(u: Setup, level: nat, env: real, lengths: seq<nat>)
    requires Usable(u) && 0.0 <= env <= 1.0 && lengths != []
    ensures NeverCalledBack(u, level, env, lengths) <==>
      && !CallsBack(u, level, env, lengths, 0)
      && NeverCalledBack(u, Left(u, Filled(u, level, lengths[0])), Ramp(env, false, Step(u.p), u.frames), lengths[1..])
  {
    var level', env' := Left(u, Filled(u, level, lengths[0])), Ramp(env, false, Step(u.p), u.frames);
    forall k: nat | k < |lengths[1..]|
      ensures CallsBack(u, level, env, lengths, k + 1) == CallsBack(u, level', env', lengths[1..], k)
    {
      CallsBackNext(u, level, env, lengths, k);
    }
    if NeverCalledBack(u, level', env', lengths[1..]) && !CallsBack(u, level, env, lengths, 0) {
      forall k: nat | k < |lengths|
        ensures !CallsBack(u, level, env, lengths, k)
      {
        if k > 0 {
          assert !CallsBack(u, level', env', lengths[1..], k - 1);
        }
      }
    }
  }

  /**
   Exactly when it recovers: a run leaves SOFT_UNDERRUN if and only if some quantum finds the fade
   over and the level back, where level and fade follow from the arrivals' lengths alone.
   */
  lemma {:induction false} StaysSoftExact(u: Setup, y: System, arrivals: seq<seq<real>>)
    requires Usable(u) && y.s.mode == SoftUnderrun && 0.0 <= y.s.env <= 1.0
    ensures AllSoft(u, y, arrivals) <==> NeverCalledBack(u, |y.ring|, y.s.env, Lengths(arrivals))
    decreases |arrivals|
  {
    if arrivals != [] {
      var y', lengths := After(u, y, arrivals[0]), Lengths(arrivals);
      SoftQuantum(u, y, arrivals[0]);
      CallsBackFirst(u, |y.ring|, y.s.env, lengths);
      NeverCalledBackNext(u, |y.ring|, y.s.env, lengths);
      if y'.s.mode == SoftUnderrun {
        RampStays(y.s.env, false, Step(u.p), u.frames);
        StaysSoftExact(u, y', arrivals[1..]);
        assert lengths[1..] == Lengths(arrivals[1..]);
      }
    }
  }

  /** Where a run that stays soft has got to. */
  lemma {:induction false} SoftRun(u: Setup, y: System, arrivals: seq<seq<real>>)
    requires Usable(u) && y.s.mode == SoftUnderrun && 0.0 <= y.s.env <= 1.0 && AllSoft(u, y, arrivals)
    ensures var y' := Run(u, y, arrivals);
      && y'.s.mode == SoftUnderrun && |y'.ring| == LevelAfter(u, |y.ring|, Lengths(arrivals))
      && y'.s.env == Ramp(y.s.env, false, Step(u.p), |arrivals| * u.frames)
    decreases |arrivals|
  {
    if arrivals == [] {
      RampNext(y.s.env, false, Step(u.p), 0);
    } else {
      SoftQuantum(u, y, arrivals[0]);
      RampStays(y.s.env, false, Step(u.p), u.frames);
      SoftRun(u, After(u, y, arrivals[0]), arrivals[1..]);
      assert Lengths(arrivals)[1..] == Lengths(arrivals[1..]);
      RampOfQuanta(y.s.env, Step(u.p), u.frames, |arrivals|);
    }
  }

  // ---------------------------------------------------------------- what is heard while soft

  function Rendered(u: Setup, y: System, samples: seq<real>, stereo: bool): seq<Frame>
    requires Usable(u)
  {
    Process(u.p, y.s, LastN(y.ring + samples, u.size), u.frames, stereo).output
  }

  /** Every output frame of a run, quantum after quantum. */
  function Outputs(u: Setup, y: System, arrivals: seq<seq<real>>, stereo: bool): seq<Frame>
    requires Usable(u)
    decreases |arrivals|
  {
    if arrivals == [] then []
    else Rendered(u, y, arrivals[0], stereo) + Outputs(u, After(u, y, arrivals[0]), arrivals[1..], stereo)
  }

  predicate NoSound(f: Frame) {
    match f
    case Stereo(l, r) => l == 0.0 && r == 0.0
    case Mono(m) => m == 0.0
  }

  lemma RenderedLength(u: Setup, y: System, samples: seq<real>, stereo: bool)
    requires Usable(u)
    ensures |Rendered(u, y, samples, stereo)| == u.frames
  {
  }

  /** Frame `k` of a soft quantum has the envelope of `k + 1` steps down. */
  lemma SoftFrame(u: Setup, y: System, samples: seq<real>, stereo: bool, k: nat)
    requires Usable(u) && y.s.mode == SoftUnderrun && k < u.frames && Ramp(y.s.env, false, Step(u.p), k + 1) == 0.0
    ensures k < |Rendered(u, y, samples, stereo)| && NoSound(Rendered(u, y, samples, stereo)[k])
  {
    var ring := LastN(y.ring + samples, u.size);
    FadedOut(Fetched(y.s, ring, u.frames, stereo), Gains(y.s.env, false, Step(u.p)), u.frames, k);
  }

  lemma FadedOut(block: seq<Frame>, gain: nat -> real, upto: nat, k: nat)
    requires k < upto && k < |block| && gain(k + 1) == 0.0
    ensures NoSound(Faded(block, gain, upto)[k])
  {
  }

  lemma FrameAt(first: seq<Frame>, rest: seq<Frame>, frames: nat, k: nat)
    requires |first| == frames && k < |first + rest|
    ensures (first + rest)[k] == if k < frames then first[k] else rest[k - frames]
  {
  }

  lemma {:induction false} SoftSilence(u: Setup, y: System, arrivals: seq<seq<real>>, stereo: bool, k: nat)
    requires Usable(u) && y.s.mode == SoftUnderrun && 0.0 <= y.s.env <= 1.0 && AllSoft(u, y, arrivals)
    requires k < |Outputs(u, y, arrivals, stereo)| && Ramp(y.s.env, false, Step(u.p), k + 1) == 0.0
    ensures NoSound(Outputs(u, y, arrivals, stereo)[k])
    decreases |arrivals|
  {
    var y', rest := After(u, y, arrivals[0]), arrivals[1..];
    RenderedLength(u, y, arrivals[0], stereo);
    FrameAt(Rendered(u, y, arrivals[0], stereo), Outputs(u, y', rest, stereo), u.frames, k);
    if k < u.frames {
      SoftFrame(u, y, arrivals[0], stereo, k);
    } else {
      SoftQuantum(u, y, arrivals[0]);
      RampStays(y.s.env, false, Step(u.p), u.frames);
      RampAdds(y.s.env, Step(u.p), u.frames, k - u.frames + 1);
      SoftSilence(u, y', rest, stereo, k - u.frames);
    }
  }

  /** From frame fadeSamples / 2 of a soft run on, nothing is heard. */
  predicate SilentFrom(u: Setup, y: System, arrivals: seq<seq<real>>, stereo: bool)
    requires Usable(u)
  {
    forall k: nat | k < |Outputs(u, y, arrivals, stereo)| && 2 * (k + 1) >= u.p.fadeSamples ::
      NoSound(Outputs(u, y, arrivals, stereo)[k])
  }

  lemma SoftIsSilent(u: Setup, y: System, arrivals: seq<seq<real>>, stereo: bool)
    requires Usable(u) && y.s.mode == SoftUnderrun && 0.0 <= y.s.env <= 1.0 && AllSoft(u, y, arrivals)
    ensures SilentFrom(u, y, arrivals, stereo)
  {
    forall k: nat | k < |Outputs(u, y, arrivals, stereo)| && 2 * (k + 1) >= u.p.fadeSamples
      ensures NoSound(Outputs(u, y, arrivals, stereo)[k])
    {
      FadeEnds(y.s.env, u.p, k + 1);
      SoftSilence(u, y, arrivals, stereo, k);
    }
  }

  // ---------------------------------------------------------------- locked out

  function Total(lengths: seq<nat>): nat {
    if lengths == [] then 0 else lengths[0] + Total(lengths[1..])
  }

  /** At most `k * need + burst` samples in any `k` consecutive quanta. */
  predicate Leaky(lengths: seq<nat>, need: nat, burst: nat) {
    forall i: nat, j: nat | i <= j <= |lengths| :: Total(lengths[i..j]) <= (j - i) * need + burst
  }

  /** What the bucket may still hold before the next arrivals, given the burst `used` so far. */
  predicate Allowed(lengths: seq<nat>, need: nat, burst: nat, used: nat) {
    forall k: nat | k <= |lengths| :: used + Total(lengths[..k]) <= k * need + burst
  }

  lemma TotalOfTail(lengths: seq<nat>, k: nat)
    requires lengths != [] && k < |lengths|
    ensures Total(lengths[..k + 1]) == lengths[0] + Total(lengths[1..][..k])
  {
    assert lengths[..k + 1][1..] == lengths[1..][..k];
  }

  lemma AllowedNext(lengths: seq<nat>, need: nat, burst: nat, used: nat)
    requires lengths != [] && Leaky(lengths, need, burst) && Allowed(lengths, need, burst, used)
    ensures Leaky(lengths[1..], need, burst)
    ensures Allowed(lengths[1..], need, burst, Used(used, lengths[0], need))
  {
    var rest := lengths[1..];
    forall i: nat, j: nat | i <= j <= |rest|
      ensures Total(rest[i..j]) <= (j - i) * need + burst
    {
      assert rest[i..j] == lengths[i + 1..j + 1];
    }
    forall k: nat | k <= |rest|
      ensures Used(used, lengths[0], need) + Total(rest[..k]) <= k * need + burst
    {
      TotalOfTail(lengths, k);
      assert (k + 1) * need == k * need + need;
      assert rest[..k] == lengths[1..k + 1];
    }
  }

  lemma AllowedAtStart(lengths: seq<nat>, need: nat, burst: nat)
    requires Leaky(lengths, need, burst)
    ensures Allowed(lengths, need, burst, 0)
  {
    forall k: nat | k <= |lengths|
      ensures Total(lengths[..k]) <= k * need + burst
    {
      assert lengths[0..k] == lengths[..k];
      assert Total(lengths[0..k]) <= (k - 0) * need + burst;
    }
  }

  function Used(used: nat, arrived: nat, need: nat): nat {
    if used + arrived > need then used + arrived - need else 0
  }

  /** The bucket's burst bounds what the ring can hold beyond one block, so the level never gets there. */
  lemma {:induction false} LevelStaysLow(u: Setup, level: nat, lengths: seq<nat>, burst: nat, used: nat, k: nat)
    requires level < Need(u) + used && 2 * Need(u) + burst <= u.p.resumeWater
    requires Leaky(lengths, Need(u), burst) && Allowed(lengths, Need(u), burst, used)
    ensures LevelAfter(u, level, lengths) < Need(u) + burst
    ensures k < |lengths| ==> LevelAt(u, level, lengths, k) < u.p.resumeWater
    decreases |lengths|
  {
    if lengths == [] {
      assert Total(lengths[..0]) == 0;
    } else {
      TotalOfTail(lengths, 0);
      AllowedNext(lengths, Need(u), burst, used);
      LevelStaysLow(u, Left(u, Filled(u, level, lengths[0])), lengths[1..], burst, Used(used, lengths[0], Need(u)),
                    if k > 0 then k - 1 else 0);
    }
  }

  /**
   Locked out: after an underrun, under every arrival schedule that never runs ahead of the
   consumer by more than the gap to the resume level, the machine is soft at every later quantum,
   its level never reaches that level, and once faded out every output frame is zero.
   */
  lemma LockedOut(u: Setup, y: System, arrivals: seq<seq<real>>, burst: nat, stereo: bool)
    requires Usable(u) && y.s.mode == SoftUnderrun && 0.0 <= y.s.env <= 1.0 && |y.ring| < Need(u)
    requires Leaky(Lengths(arrivals), Need(u), burst) && 2 * Need(u) + burst <= u.p.resumeWater
    ensures var y' := Run(u, y, arrivals);
      && AllSoft(u, y, arrivals) && y'.s.mode == SoftUnderrun && |y'.ring| < Need(u) + burst
      && (2 * (|arrivals| * u.frames) >= u.p.fadeSamples ==> y'.s.env == 0.0)
      && SilentFrom(u, y, arrivals, stereo)
  {
    var lengths := Lengths(arrivals);
    AllowedAtStart(lengths, Need(u), burst);
    LevelStaysLow(u, |y.ring|, lengths, burst, 0, 0);
    forall k: nat | k < |lengths|
      ensures !CallsBack(u, |y.ring|, y.s.env, lengths, k)
    {
      LevelStaysLow(u, |y.ring|, lengths, burst, 0, k);
    }
    StaysSoftExact(u, y, arrivals);
    SoftRun(u, y, arrivals);
    SoftIsSilent(u, y, arrivals, stereo);
    var frames := |arrivals| * u.frames;
    if 2 * frames >= u.p.fadeSamples {
      FadeEnds(y.s.env, u.p, frames);
    }
  }

  /** The nominal stream, one block of samples per quantum. */
  predicate Nominal(u: Setup, arrivals: seq<seq<real>>) {
    forall a | a in arrivals :: |a| == Need(u)
  }

  lemma {:induction false} NominalTotal(lengths: seq<nat>, need: nat)
    requires forall i | 0 <= i < |lengths| :: lengths[i] == need
    ensures Total(lengths) == |lengths| * need
    decreases |lengths|
  {
    if lengths != [] {
      NominalTotal(lengths[1..], need);
      OneMoreBlock(|lengths|, need);
    }
  }

  lemma OneMoreBlock(n: nat, need: nat)
    requires n > 0
    ensures n * need == need + (n - 1) * need
  {
  }

  lemma NominalIsLeaky(u: Setup, arrivals: seq<seq<real>>)
    requires Nominal(u, arrivals)
    ensures Leaky(Lengths(arrivals), Need(u), 0)
  {
    var lengths := Lengths(arrivals);
    forall i: nat, j: nat | i <= j <= |lengths|
      ensures Total(lengths[i..j]) <= (j - i) * Need(u) + 0
    {
      var part := lengths[i..j];
      forall k | 0 <= k < |part|
        ensures part[k] == Need(u)
      {
        assert part[k] == |arrivals[i + k]| && arrivals[i + k] in arrivals;
      }
      NominalTotal(part, Need(u));
    }
  }

  lemma NominalStreamLockedOut(u: Setup, y: System, arrivals: seq<seq<real>>, stereo: bool)
    requires Usable(u) && y.s.mode == SoftUnderrun && 0.0 <= y.s.env <= 1.0 && |y.ring| < Need(u)
    requires Nominal(u, arrivals) && 2 * Need(u) <= u.p.resumeWater
    ensures AllSoft(u, y, arrivals) && SilentFrom(u, y, arrivals, stereo)
    ensures 2 * (|arrivals| * u.frames) >= u.p.fadeSamples ==> Run(u, y, arrivals).s.env == 0.0
  {
    NominalIsLeaky(u, arrivals);
    LockedOut(u, y, arrivals, 0, stereo);
  }

  // ---------------------------------------------------------------- from the start into silence

  /** The machine as it is constructed. */
  const CONSTRUCTED := System(Worklet(Prefill, 0.0, 0.0, 0.0, false, 0, None), [])

  function Nothing(n: nat): seq<seq<real>> { seq(n, _ => []) }

  /** Played to the last block and one quantum further. */
  lemma {:induction false} PlaysDry(u: Setup, y: System, blocks: nat)
    requires Usable(u) && y.s.mode == Playing && 0.0 <= y.s.env <= 1.0
    requires |y.ring| == blocks * Need(u) <= u.size && u.p.resumeWater > 0
    ensures var y' := Run(u, y, Nothing(blocks + 1));
      y'.s.mode == SoftUnderrun && y'.ring == [] && 0.0 <= y'.s.env <= 1.0 && y'.s.underruns == y.s.underruns + 1
    decreases blocks
  {
    var y' := After(u, y, []);
    assert y.ring + [] == y.ring;
    assert Nothing(blocks + 1)[1..] == Nothing(blocks);
    RampStays(y.s.env, true, Step(u.p), u.frames);
    RampStays(y.s.env, false, Step(u.p), u.frames);
    if blocks > 0 {
      assert blocks * Need(u) == Need(u) + (blocks - 1) * Need(u);
      PlaysDry(u, y', blocks - 1);
    }
  }

  /** Fed a start level of whole blocks and then nothing, the machine plays them all and underruns. */
  lemma StartsAndStarves(u: Setup, samples: seq<real>, blocks: nat)
    requires Usable(u) && |samples| == (blocks + 1) * Need(u) && u.p.startWater <= |samples| <= u.size
    requires u.p.resumeWater > 0
    ensures var y := Run(u, CONSTRUCTED, [samples] + Nothing(blocks + 1));
      y.s.mode == SoftUnderrun && y.ring == [] && 0.0 <= y.s.env <= 1.0 && y.s.underruns == 1
  {
    var y1 := After(u, CONSTRUCTED, samples);
    assert [] + samples == samples;
    assert (blocks + 1) * Need(u) == Need(u) + blocks * Need(u);
    RampStays(0.0, true, Step(u.p), u.frames);
    PlaysDry(u, y1, blocks);
    assert ([samples] + Nothing(blocks + 1))[1..] == Nothing(blocks + 1);
  }

  /** The page's parameters and the browser's quantum. */
  const PAGE := Setup(Params(2, 7680, 5760, 480), 192000, 128)

  /** From construction: one start level, one gap, and then the nominal stream in silence for ever. */
  lemma PageFallsSilent(samples: seq<real>, stream: seq<seq<real>>, stereo: bool)
    requires |samples| == 7680 && Nominal(PAGE, stream)
    ensures var y0 := Run(PAGE, CONSTRUCTED, [samples] + Nothing(30));
      var y := Run(PAGE, CONSTRUCTED, [samples] + Nothing(30) + stream);
      && y == Run(PAGE, y0, stream) && y.s.mode == SoftUnderrun && y.s.underruns == 1
      && (|stream| >= 2 ==> y.s.env == 0.0)
      && forall k: nat | 239 <= k < |Outputs(PAGE, y0, stream, stereo)| :: NoSound(Outputs(PAGE, y0, stream, stereo)[k])
  {
    StartsAndStarves(PAGE, samples, 29);
    var y := Run(PAGE, CONSTRUCTED, [samples] + Nothing(30));
    RunAppend(PAGE, CONSTRUCTED, [samples] + Nothing(30), stream);
    NominalStreamLockedOut(PAGE, y, stream, stereo);
    SoftUnderruns(PAGE, y, stream);
    SoftRun(PAGE, y, stream);
  }

  lemma {:induction false} SoftUnderruns(u: Setup, y: System, arrivals: seq<seq<real>>)
    requires Usable(u) && y.s.mode == SoftUnderrun && AllSoft(u, y, arrivals)
    ensures Run(u, y, arrivals).s.underruns == y.s.underruns
    decreases |arrivals|
  {
    if arrivals != [] {
      SoftUnderruns(u, After(u, y, arrivals[0]), arrivals[1..]);
    }
  }
}
