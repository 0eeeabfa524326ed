/** The playback machine over whole runs: its envelope, its way out of silence, its underruns. */
module RenderLaws {
  import opened Arithmetic
  import opened RingBuffers
  import opened Renders

  /**
   What happens around one quantum: samples pushed before its snapshot and before its dequeue, and
   the level it reads at its end, after any further pushes.
   */
  datatype Input = Input(before: seq<int>, during: seq<int>, frames: nat, level: nat)

  datatype System = System(s: Render, ring: seq<int>)

  /** A run's constants: the loop's own, the ring's usable size, and that of the scratch block. */
  datatype Setup = Setup(p: Params, room: nat, space: nat)

  predicate Usable(u: Setup, y: System, i: Input) {
    Configured(u.p) && 0 < i.frames && i.frames * u.p.channels <= u.space
  }

  function Snapshot(u: Setup, y: System, i: Input): seq<int> {
    LastN(y.ring + i.before, u.room)
  }

  function Dequeued(u: Setup, y: System, i: Input): seq<int> {
    LastN(Snapshot(u, y, i) + i.during, u.room)
  }

  function After(u: Setup, y: System, i: Input): System
    requires Usable(u, y, i)
  {
    System(NextRender(u.p, y.s, |Snapshot(u, y, i)|, Dequeued(u, y, i), i.frames, i.level),
           RingAfter(u.p, y.s, |Snapshot(u, y, i)|, Dequeued(u, y, i), i.frames))
  }

  /** The scratch block and the samples rendered by a quantum that finds `temp` in the block. */
  function TempAfter(u: Setup, y: System, temp: seq<int>, i: Input): (r: seq<int>)
    requires Usable(u, y, i) && |temp| == u.space
    ensures |r| == u.space
  {
    NextTemp(u.p, y.s, temp, |Snapshot(u, y, i)|, Dequeued(u, y, i), i.frames)
  }

  function Rendered(u: Setup, y: System, temp: seq<int>, i: Input): seq<int>
    requires Usable(u, y, i) && |temp| == u.space
  {
    Output(u.p, y.s, temp, |Snapshot(u, y, i)|, Dequeued(u, y, i), i.frames)
  }

  predicate Runs(u: Setup, y: System, inputs: seq<Input>)
    decreases |inputs|
  {
    inputs == [] || (Usable(u, y, inputs[0]) && Runs(u, After(u, y, inputs[0]), inputs[1..]))
  }

  function Run(u: Setup, y: System, inputs: seq<Input>): System
    requires Runs(u, y, inputs)
    decreases |inputs|
  {
    if inputs == [] then y else Run(u, After(u, y, inputs[0]), inputs[1..])
  }

  // ---------------------------------------------------------------- the envelope

  /** The envelope is a gain, it is 0 at the top of every PREFILL quantum, and playing was started. */
  predicate Inv(u: Setup, y: System) {
    && Configured(u.p)
    && 0.0 <= y.s.env <= 1.0
    && (y.s.mode == Prefill ==> y.s.env == 0.0)
    && (y.s.mode != Prefill ==> y.s.everStarted && y.s.started)
    && |y.ring| <= u.room
  }

  lemma TurnKeepsInv(u: Setup, y: System, i: Input)
    requires Inv(u, y) && Usable(u, y, i)
    ensures Inv(u, After(u, y, i))
  {
    RampStays(y.s.env, true, Step(u.p), i.frames);
    RampStays(y.s.env, false, Step(u.p), i.frames);
  }

  lemma {:induction false} RunKeepsInv(u: Setup, y: System, inputs: seq<Input>)
    requires Inv(u, y) && Runs(u, y, inputs)
    ensures Inv(u, Run(u, y, inputs))
    decreases |inputs|
  {
    if inputs != [] {
      TurnKeepsInv(u, y, inputs[0]);
      RunKeepsInv(u, After(u, y, inputs[0]), inputs[1..]);
    }
  }

  /** Frame by frame the envelope moves by at most one step. */
  lemma EnvelopeSlope(env: real, normal: bool, p: Params, n: nat)
    requires Configured(p) && 0.0 <= env <= 1.0
    ensures var a, b := Ramp(env, normal, Step(p), n), Ramp(env, normal, Step(p), n + 1);
      Within(b, a, Step(p))
  {
    var step := Step(p);
    assert (n + 1) as real * step == n as real * step + step;
    assert n as real * step >= 0.0;
  }

  // ---------------------------------------------------------------- the way out of silence

  function Frames(inputs: seq<Input>): nat {
    if inputs == [] then 0 else inputs[0].frames + Frames(inputs[1..])
  }

  function Arrivals(inputs: seq<Input>): nat {
    if inputs == [] then 0 else |inputs[0].before| + |inputs[0].during| + Arrivals(inputs[1..])
  }

  function Least(a: nat, b: nat): nat { if a <= b then a else b }

  /** A soft quantum takes nothing from the ring and leaves exactly when level and envelope allow. */
  lemma SoftTurn(u: Setup, y: System, i: Input)
    requires Inv(u, y) && Usable(u, y, i) && y.s.mode == SoftUnderrun
    ensures var y' := After(u, y, i);
      && y'.ring == Dequeued(u, y, i)
      && |y'.ring| == Least(u.room, |y.ring| + |i.before| + |i.during|) >= |y.ring|
      && y'.s.env == Ramp(y.s.env, false, Step(u.p), i.frames)
      && y'.s.underruns == y.s.underruns
      && y'.s.lastL == y.s.lastL && y'.s.lastR == y.s.lastR
      && (y'.s.mode == Prefill <==>
           Least(u.room, |y.ring| + |i.before|) >= u.p.resumeWater && y.s.env == 0.0)
      && (y'.s.mode != Prefill ==> y'.s.mode == SoftUnderrun)
  {
  }

  /** Stays soft through every input of the sequence. */
  predicate AllSoft(u: Setup, y: System, inputs: seq<Input>)
    requires Runs(u, y, inputs)
    decreases |inputs|
  {
    inputs == [] ||
    (After(u, y, inputs[0]).s.mode == SoftUnderrun && AllSoft(u, After(u, y, inputs[0]), inputs[1..]))
  }

  lemma {:induction false} SoftRun(u: Setup, y: System, inputs: seq<Input>)
    requires Inv(u, y) && y.s.mode == SoftUnderrun && Runs(u, y, inputs) && AllSoft(u, y, inputs)
    ensures var y' := Run(u, y, inputs);
      && Inv(u, y') && y'.s.mode == SoftUnderrun
      && y'.s.env == Ramp(y.s.env, false, Step(u.p), Frames(inputs))
      && |y'.ring| == Least(u.room, |y.ring| + Arrivals(inputs))
      && y'.s.underruns == y.s.underruns
    decreases |inputs|
  {
    if inputs == [] {
      RampNext(y.s.env, false, Step(u.p), 0);
    } else {
      SoftTurn(u, y, inputs[0]);
      TurnKeepsInv(u, y, inputs[0]);
      SoftRun(u, After(u, y, inputs[0]), inputs[1..]);
      RampAdds(y.s.env, Step(u.p), inputs[0].frames, Frames(inputs[1..]));
    }
  }

  /** Where a run that does not stay soft leaves: at its first quantum that finds level and silence. */
  lemma {:induction false} FirstExit(u: Setup, y: System, inputs: seq<Input>) returns (n: nat)
    requires Inv(u, y) && y.s.mode == SoftUnderrun && Runs(u, y, inputs) && !AllSoft(u, y, inputs)
    ensures n < |inputs| && Runs(u, y, inputs[..n]) && AllSoft(u, y, inputs[..n])
    ensures Usable(u, Run(u, y, inputs[..n]), inputs[n])
    ensures After(u, Run(u, y, inputs[..n]), inputs[n]).s.mode == Prefill
    decreases |inputs|
  {
    var y' := After(u, y, inputs[0]);
    SoftTurn(u, y, inputs[0]);
    if y'.s.mode == Prefill {
      n := 0;
    } else {
      TurnKeepsInv(u, y, inputs[0]);
      var k := FirstExit(u, y', inputs[1..]);
      n := k + 1;
      assert inputs[..n][1..] == inputs[1..][..k];
    }
  }

  /** From PREFILL with the level back, one quantum is PLAYING with a full read and no underrun. */
  lemma ResumesPlaying(u: Setup, y: System, i: Input)
    requires Inv(u, y) && Usable(u, y, i) && y.s.mode == Prefill && y.s.everStarted
    requires i.frames * u.p.channels <= u.p.resumeWater <= |y.ring|
    ensures var y', needed := After(u, y, i), i.frames * u.p.channels;
      && y'.s.mode == Playing && y'.s.underruns == y.s.underruns
      && y'.ring == Dequeued(u, y, i)[needed..]
      && y'.s.env > 0.0
  {
    var needed := i.frames * u.p.channels;
    var full := y.ring + i.before + i.during;
    assert i.frames as real * Step(u.p) > 0.0;
  }

  /**
   Out of silence: once the quanta before the last cover the fade and the arrivals reach the resume
   level, some quantum so far has gone to PREFILL, and whatever comes next is played in full.
   */
  lemma EscapesSilence(u: Setup, y: System, inputs: seq<Input>, next: Input) returns (n: nat)
    requires Inv(u, y) && y.s.mode == SoftUnderrun && Runs(u, y, inputs) && inputs != []
    requires u.p.resumeWater <= u.room
    requires var before := inputs[..|inputs| - 1];
      && 2 * Frames(before) >= u.p.fadeSamples
      && |y.ring| + Arrivals(before) + |inputs[|inputs| - 1].before| >= u.p.resumeWater
    requires 0 < next.frames && next.frames * u.p.channels <= Least(u.p.resumeWater, u.space)
    ensures n < |inputs| && Runs(u, y, inputs[..n]) && AllSoft(u, y, inputs[..n])
    ensures Usable(u, Run(u, y, inputs[..n]), inputs[n])
    ensures var y1 := After(u, Run(u, y, inputs[..n]), inputs[n]);
      && y1.s.mode == Prefill && Usable(u, y1, next)
      && After(u, y1, next).s.mode == Playing
      && After(u, y1, next).s.underruns == y.s.underruns
      && After(u, y1, next).ring == Dequeued(u, y1, next)[next.frames * u.p.channels..]
  {
    if AllSoft(u, y, inputs) {
      NotForever(u, y, inputs);
    }
    n := FirstExit(u, y, inputs);
    SoftRun(u, y, inputs[..n]);
    var y0 := Run(u, y, inputs[..n]);
    SoftTurn(u, y0, inputs[n]);
    TurnKeepsInv(u, y0, inputs[n]);
    ResumesPlaying(u, After(u, y0, inputs[n]), next);
  }

  lemma {:induction false} SplitLast(u: Setup, y: System, inputs: seq<Input>)
    requires Runs(u, y, inputs) && inputs != []
    ensures var before, last := inputs[..|inputs| - 1], inputs[|inputs| - 1];
      && Runs(u, y, before) && Usable(u, Run(u, y, before), last)
      && Run(u, y, inputs) == After(u, Run(u, y, before), last)
      && (AllSoft(u, y, inputs) ==> AllSoft(u, y, before) && Run(u, y, inputs).s.mode == SoftUnderrun)
    decreases |inputs|
  {
    if |inputs| == 1 {
      assert inputs[..0] == [] && inputs[1..] == [];
    } else {
      SplitLast(u, After(u, y, inputs[0]), inputs[1..]);
      assert inputs[..|inputs| - 1][1..] == inputs[1..][..|inputs| - 2];
    }
  }

  /** A quantum that comes after the fade and finds the level back leaves. */
  lemma LeavesAt(u: Setup, y: System, before: seq<Input>, last: Input)
    requires Inv(u, y) && y.s.mode == SoftUnderrun && Runs(u, y, before) && AllSoft(u, y, before)
    requires Usable(u, Run(u, y, before), last) && u.p.resumeWater <= u.room
    requires 2 * Frames(before) >= u.p.fadeSamples
    requires |y.ring| + Arrivals(before) + |last.before| >= u.p.resumeWater
    ensures After(u, Run(u, y, before), last).s.mode == Prefill
  {
    SoftRun(u, y, before);
    FadeEnds(y.s.env, u.p, Frames(before));
    SoftTurn(u, Run(u, y, before), last);
  }

  lemma NotForever(u: Setup, y: System, inputs: seq<Input>)
    requires Inv(u, y) && y.s.mode == SoftUnderrun && Runs(u, y, inputs) && inputs != [] && u.p.resumeWater <= u.room
    requires var before := inputs[..|inputs| - 1];
      && 2 * Frames(before) >= u.p.fadeSamples
      && |y.ring| + Arrivals(before) + |inputs[|inputs| - 1].before| >= u.p.resumeWater
    ensures !AllSoft(u, y, inputs)
  {
    var before, last := inputs[..|inputs| - 1], inputs[|inputs| - 1];
    SplitLast(u, y, inputs);
    if AllSoft(u, y, before) {
      LeavesAt(u, y, before, last);
    }
  }

  // ---------------------------------------------------------------- underruns cost their water

  function Popped(u: Setup, y: System, inputs: seq<Input>): nat
    requires Runs(u, y, inputs)
    decreases |inputs|
  {
    if inputs == [] then 0
    else Taken(u, y, inputs[0]) + Popped(u, After(u, y, inputs[0]), inputs[1..])
  }

  /** Samples one quantum dequeues. */
  function Taken(u: Setup, y: System, i: Input): nat
    requires Usable(u, y, i)
  {
    |Dequeued(u, y, i)| - |After(u, y, i).ring|
  }

  /** Underruns so far are paid for by samples popped; while PLAYING the next one already is. */
  predicate Paid(u: Setup, y: System, popped: nat) {
    && y.s.underruns * u.p.resumeWater <= popped
    && (y.s.mode == Playing ==> (y.s.underruns + 1) * u.p.resumeWater <= popped + |y.ring|)
  }

  /** What one quantum dequeues, by what it does to the mode. */
  lemma TurnAccount(u: Setup, y: System, i: Input)
    requires Inv(u, y) && Usable(u, y, i)
    requires u.p.resumeWater <= u.p.startWater && u.p.resumeWater <= u.room
    ensures var y', taken := After(u, y, i), Taken(u, y, i);
      var held := if y.s.mode == Playing then |y.ring| else u.p.resumeWater;
      && (y'.s.mode == Playing ==> y'.s.underruns == y.s.underruns && taken + |y'.ring| >= held)
      && (y'.s.mode != Playing ==>
           y'.s.underruns == y.s.underruns || (y'.s.underruns == y.s.underruns + 1 && taken >= held))
  {
  }

  lemma TurnStaysPaid(u: Setup, y: System, i: Input, popped: nat)
    requires Inv(u, y) && Usable(u, y, i) && Paid(u, y, popped)
    requires u.p.resumeWater <= u.p.startWater && u.p.resumeWater <= u.room
    ensures Paid(u, After(u, y, i), popped + Taken(u, y, i))
  {
    TurnAccount(u, y, i);
    NextCost(y.s.underruns, u.p.resumeWater);
  }

  lemma NextCost(underruns: nat, water: nat)
    ensures (underruns + 1) * water == underruns * water + water
  {
  }

  lemma {:induction false} RunStaysPaid(u: Setup, y: System, inputs: seq<Input>, popped: nat)
    requires Inv(u, y) && Runs(u, y, inputs) && Paid(u, y, popped)
    requires u.p.resumeWater <= u.p.startWater && u.p.resumeWater <= u.room
    ensures Paid(u, Run(u, y, inputs), popped + Popped(u, y, inputs))
    ensures Popped(u, y, inputs) + |Run(u, y, inputs).ring| <= |y.ring| + Arrivals(inputs)
    decreases |inputs|
  {
    if inputs != [] {
      TurnStaysPaid(u, y, inputs[0], popped);
      TurnKeepsInv(u, y, inputs[0]);
      RunStaysPaid(u, After(u, y, inputs[0]), inputs[1..], popped + Taken(u, y, inputs[0]));
    }
  }

  /** Over any run from the start: each underrun has cost a resume level of samples. */
  lemma AntiFlap(u: Setup, y: System, inputs: seq<Input>)
    requires Inv(u, y) && y.s.mode == Prefill && y.s.underruns == 0 && y.ring == []
    requires Runs(u, y, inputs) && u.p.resumeWater <= u.p.startWater && u.p.resumeWater <= u.room
    ensures Run(u, y, inputs).s.underruns * u.p.resumeWater <= Popped(u, y, inputs) <= Arrivals(inputs)
  {
    RunStaysPaid(u, y, inputs, 0);
  }

  // ---------------------------------------------------------------- what is heard while held

  /** The value channel `c` repeats during a soft run. */
  function HeldValue(channels: nat, lastL: int, lastR: int, c: nat): int {
    if channels != 2 then Half(lastL + lastR) else if c == 0 then lastL else lastR
  }

  /** Everything a run renders that finds `temp` in the scratch block. */
  function Outputs(u: Setup, y: System, temp: seq<int>, inputs: seq<Input>): seq<int>
    requires Runs(u, y, inputs) && |temp| == u.space
    decreases |inputs|
  {
    if inputs == [] then []
    else
      Rendered(u, y, temp, inputs[0])
      + Outputs(u, After(u, y, inputs[0]), TempAfter(u, y, temp, inputs[0]), inputs[1..])
  }

  /** Sample `i` of a soft run that starts in state `s`, whatever its division into quanta. */
  function HeldSample(p: Params, s: Render, i: nat): int
    requires Configured(p)
  {
    Scaled(HeldValue(p.channels, s.lastL, s.lastR, i % p.channels), Ramp(s.env, false, Step(p), i / p.channels + 1))
  }

  /** A block held from its start is the held value in every channel of every frame. */
  lemma HoldsValue(channels: nat, frames: nat, lastL: int, lastR: int, k: nat, before: int)
    requires channels > 0 && k < frames * channels
    ensures Held(channels, 0, frames * channels, lastL, lastR, k, before)
         == HeldValue(channels, lastL, lastR, k % channels)
  {
  }

  lemma SoftOutput(u: Setup, y: System, temp: seq<int>, i: Input, k: nat)
    requires Inv(u, y) && Usable(u, y, i) && |temp| == u.space && y.s.mode == SoftUnderrun
    requires k < i.frames * u.p.channels
    ensures |Rendered(u, y, temp, i)| == i.frames * u.p.channels
    ensures Rendered(u, y, temp, i)[k] == HeldSample(u.p, y.s, k)
  {
    HoldsValue(u.p.channels, i.frames, y.s.lastL, y.s.lastR, k, temp[k]);
  }

  lemma RenderedLength(u: Setup, y: System, temp: seq<int>, i: Input)
    requires Usable(u, y, i) && |temp| == u.space
    ensures |Rendered(u, y, temp, i)| == i.frames * u.p.channels
  {
  }

  lemma ShiftFrame(k: nat, frames: nat, ch: nat)
    requires ch > 0 && k >= frames * ch
    ensures (k - frames * ch) % ch == k % ch && (k - frames * ch) / ch + frames == k / ch
  {
    DivShift(k - frames * ch, ch, frames);
  }

  /** A later quantum of the run goes on where the one before it stopped. */
  lemma SampleShift(p: Params, s: Render, s': Render, frames: nat, k: nat)
    requires Configured(p) && 0.0 <= s.env <= 1.0 && k >= frames * p.channels
    requires s'.lastL == s.lastL && s'.lastR == s.lastR && s'.env == Ramp(s.env, false, Step(p), frames)
    ensures HeldSample(p, s', k - frames * p.channels) == HeldSample(p, s, k)
  {
    ShiftFrame(k, frames, p.channels);
    RampAdds(s.env, Step(p), frames, (k - frames * p.channels) / p.channels + 1);
  }

  /** A sample of a run is one of its first quantum, or one of the rest of the run. */
  lemma OutputsAt(first: seq<int>, rest: seq<int>, needed: nat, k: nat)
    requires |first| == needed && k < |first + rest|
    ensures (first + rest)[k] == if k < needed then first[k] else rest[k - needed]
  {
  }

  /** Whatever its division into quanta, a soft run plays the held sample under one fade. */
  lemma {:induction false} HeldAt(u: Setup, y: System, temp: seq<int>, inputs: seq<Input>, k: nat)
    requires Inv(u, y) && y.s.mode == SoftUnderrun && Runs(u, y, inputs) && AllSoft(u, y, inputs)
    requires |temp| == u.space && k < |Outputs(u, y, temp, inputs)|
    ensures Outputs(u, y, temp, inputs)[k] == HeldSample(u.p, y.s, k)
    decreases |inputs|
  {
    var i, needed := inputs[0], inputs[0].frames * u.p.channels;
    var y', temp' := After(u, y, i), TempAfter(u, y, temp, i);
    RenderedLength(u, y, temp, i);
    OutputsAt(Rendered(u, y, temp, i), Outputs(u, y', temp', inputs[1..]), needed, k);
    if k < needed {
      SoftOutput(u, y, temp, i, k);
    } else {
      SoftTurn(u, y, i);
      TurnKeepsInv(u, y, i);
      HeldAt(u, y', temp', inputs[1..], k - needed);
      SampleShift(u.p, y.s, y'.s, i.frames, k);
    }
  }

  /** `a` and `b` are no further apart than `bound`. */
  predicate Within(a: real, b: real, bound: real) { -bound <= a - b <= bound }

  function Abs(x: int): int { if x >= 0 then x else -x }

  lemma RoundWithin(a: real, b: real, bound: real)
    requires Within(a, b, bound)
    ensures Within(Round(a) as real, Round(b) as real, bound + 1.0)
  {
  }

  lemma ProductWithin(v: int, g: real, h: real, step: real)
    requires Within(h, g, step)
    ensures Within(v as real * h, v as real * g, Abs(v) as real * step)
  {
    var d, x, size := h - g, v as real, Abs(v) as real;
    Distributes(x, g, d);
    Distributes(size, step, d);
    Distributes(size, step, -d);
    Positive(size, step + d);
    Positive(size, step - d);
  }

  lemma Distributes(x: real, a: real, b: real)
    ensures x * (a + b) == x * a + x * b && x * -b == -(x * b) && -x * b == -(x * b)
  {
  }

  lemma Positive(x: real, a: real)
    requires x >= 0.0 && a >= 0.0
    ensures x * a >= 0.0
  {
  }

  /** The value held at sample `i` of a soft run. */
  function HeldLevel(p: Params, s: Render, i: nat): int
    requires Configured(p)
  {
    HeldValue(p.channels, s.lastL, s.lastR, i % p.channels)
  }

  /** One envelope step of the held value, and one for rounding. */
  function SlopeBound(v: int, step: real): real {
    Abs(v) as real * step + 1.0
  }

  lemma ScaledSlope(v: int, g: real, h: real, step: real)
    requires Within(h, g, step)
    ensures Within(Scaled(v, h) as real, Scaled(v, g) as real, SlopeBound(v, step))
  {
    ProductWithin(v, g, h, step);
    RoundWithin(v as real * h, v as real * g, Abs(v) as real * step);
  }

  lemma NextFrame(p: Params, s: Render, i: nat)
    requires Configured(p)
    ensures HeldSample(p, s, i) == Scaled(HeldLevel(p, s, i), Ramp(s.env, false, Step(p), i / p.channels + 1))
    ensures HeldSample(p, s, i + p.channels)
         == Scaled(HeldLevel(p, s, i), Ramp(s.env, false, Step(p), i / p.channels + 2))
  {
    ShiftFrame(i + p.channels, 1, p.channels);
  }

  lemma NextFrameSlope(p: Params, s: Render, i: nat, n: nat)
    requires Configured(p) && 0.0 <= s.env <= 1.0 && n == i / p.channels
    ensures Within(HeldSample(p, s, i + p.channels) as real, HeldSample(p, s, i) as real,
                   SlopeBound(HeldLevel(p, s, i), Step(p)))
  {
    EnvelopeSlope(s.env, false, p, n + 1);
    NextFrame(p, s, i);
    ScaledSlope(HeldLevel(p, s, i), Ramp(s.env, false, Step(p), n + 1), Ramp(s.env, false, Step(p), n + 2), Step(p));
  }

  lemma OutputSlope(p: Params, s: Render, outputs: seq<int>, i: nat)
    requires Configured(p) && 0.0 <= s.env <= 1.0 && i + p.channels < |outputs|
    requires forall k: nat | k < |outputs| :: outputs[k] == HeldSample(p, s, k)
    ensures Within(outputs[i + p.channels] as real, outputs[i] as real, SlopeBound(HeldLevel(p, s, i), Step(p)))
  {
    NextFrameSlope(p, s, i, i / p.channels);
  }

  /** Within one soft run, consecutive frames of a channel differ by at most |last| envelope steps, and one. */
  lemma HeldSlope(u: Setup, y: System, temp: seq<int>, inputs: seq<Input>, i: nat)
    requires Inv(u, y) && y.s.mode == SoftUnderrun && Runs(u, y, inputs) && AllSoft(u, y, inputs)
    requires |temp| == u.space && i + u.p.channels < |Outputs(u, y, temp, inputs)|
    ensures Within(Outputs(u, y, temp, inputs)[i + u.p.channels] as real, Outputs(u, y, temp, inputs)[i] as real,
                   SlopeBound(HeldLevel(u.p, y.s, i), Step(u.p)))
  {
    var outputs := Outputs(u, y, temp, inputs);
    forall k: nat | k < |outputs|
      ensures outputs[k] == HeldSample(u.p, y.s, k)
    {
      HeldAt(u, y, temp, inputs, k);
    }
    OutputSlope(u.p, y.s, outputs, i);
  }

  /** From frame fadeSamples / 2 of a soft run on, there is silence. */
  lemma HeldSilence(u: Setup, y: System, temp: seq<int>, inputs: seq<Input>, i: nat)
    requires Inv(u, y) && y.s.mode == SoftUnderrun && Runs(u, y, inputs) && AllSoft(u, y, inputs)
    requires |temp| == u.space && i < |Outputs(u, y, temp, inputs)| && 2 * (i / u.p.channels + 1) >= u.p.fadeSamples
    ensures Outputs(u, y, temp, inputs)[i] == 0
  {
    HeldAt(u, y, temp, inputs, i);
    FadeEnds(y.s.env, u.p, i / u.p.channels + 1);
    NextFrame(u.p, y.s, i);
  }
}
