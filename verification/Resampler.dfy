/**
 The streaming windowed-sinc resampler, on whole frames and in exact arithmetic: the fractional
 input position `phase` is counted in units of 1/outputRate of an input frame, so one output
 frame advances it by inputRate. The kernel is any function of the 16-frame window and of the
 fraction.
 */
module Resampler {
  import opened Arithmetic

  const LOBES := 8

  datatype Rates = Rates(inRate: nat, outRate: nat)

  predicate Configured(c: Rates) { c.inRate > 0 && c.outRate > 0 }

  datatype State<T> = State(residual: seq<T>, phase: nat)

  /** One output frame: the kernel at position `p` of the frames `x`. */
  function Frame<T, U>(kernel: (seq<T>, nat) -> U, c: Rates, x: seq<T>, p: nat): U
    requires Configured(c) && LOBES <= p / c.outRate && p / c.outRate + LOBES <= |x|
  {
    kernel(x[p / c.outRate - LOBES..p / c.outRate + LOBES], p % c.outRate)
  }

  // ---------------------------------------------------------------- one call

  /** Output frames from position `p` on, as long as the right half of the window is there. */
  function Emit<T, U>(kernel: (seq<T>, nat) -> U, c: Rates, x: seq<T>, p: nat): seq<U>
    requires Configured(c) && LOBES * c.outRate <= p
    decreases (|x| + 1) * c.outRate - p
  {
    if p / c.outRate + LOBES >= |x| then []
    else InRange(c, |x|, p); [Frame(kernel, c, x, p)] + Emit(kernel, c, x, p + c.inRate)
  }

  /** The position at which `Emit` stops. */
  function Stop(c: Rates, n: nat, p: nat): (end: nat)
    requires Configured(c) && LOBES * c.outRate <= p
    ensures p <= end && end / c.outRate + LOBES >= n
    decreases (n + 1) * c.outRate - p
  {
    if p / c.outRate + LOBES >= n then p else InRange(c, n, p); Stop(c, n, p + c.inRate)
  }

  lemma InRange(c: Rates, n: nat, p: nat)
    requires Configured(c) && LOBES * c.outRate <= p && p / c.outRate + LOBES < n
    ensures LOBES <= p / c.outRate && p < (n + 1) * c.outRate
  {
    DivAtLeast(p, c.outRate, LOBES);
    DivBelow(p, c.outRate, n);
  }

  lemma NoMore<T, U>(kernel: (seq<T>, nat) -> U, c: Rates, x: seq<T>, p: nat)
    requires Configured(c) && LOBES * c.outRate <= p
    requires p / c.outRate < LOBES || p / c.outRate + LOBES >= |x|
    ensures Emit(kernel, c, x, p) == [] && Stop(c, |x|, p) == p
  {
    DivAtLeast(p, c.outRate, LOBES);
  }

  lemma OneMore<T, U>(kernel: (seq<T>, nat) -> U, c: Rates, x: seq<T>, p: nat, output: seq<U>)
    requires Configured(c) && LOBES * c.outRate <= p && p / c.outRate + LOBES < |x|
    ensures LOBES <= p / c.outRate && p < (|x| + 1) * c.outRate
    ensures Stop(c, |x|, p) == Stop(c, |x|, p + c.inRate)
    ensures output + Emit(kernel, c, x, p)
         == output + [Frame(kernel, c, x, p)] + Emit(kernel, c, x, p + c.inRate)
  {
    InRange(c, |x|, p);
  }

  /** Process: everything one call does, as a function of the state it finds. */
  function Process<T, U>(kernel: (seq<T>, nat) -> U, c: Rates, s: State<T>, input: seq<T>): (State<T>, seq<U>)
    requires Configured(c)
  {
    var x := s.residual + input;
    if |x| < 2 * LOBES + 1 then (State(x, s.phase), [])
    else
      var p := if s.phase < LOBES * c.outRate then LOBES * c.outRate else s.phase;
      var end := Stop(c, |x|, p);
      DivAtLeast(end, c.outRate, LOBES);
      var start := end / c.outRate - LOBES;
      DivAtLeast(end, c.outRate, start);
      (State(if start < |x| then x[start..] else [], end - start * c.outRate), Emit(kernel, c, x, p))
  }

  class SincResampler<T, U> {
    const kernel: (seq<T>, nat) -> U
    var inputRate: nat
    var outputRate: nat
    var phase: nat
    var residual: seq<T>

    predicate Valid()
      reads this
    {
      Configured(Rates(inputRate, outputRate))
    }

    constructor (kernel: (seq<T>, nat) -> U, inputRate: nat, outputRate: nat)
      requires inputRate > 0 && outputRate > 0
      ensures Valid() && this.kernel == kernel
      ensures this.inputRate == inputRate && this.outputRate == outputRate && residual == [] && phase == 0
    {
      this.kernel := kernel;
      this.inputRate, this.outputRate := inputRate, outputRate;
      residual, phase := [], 0;
    }

    method Configure(inputRate: nat, outputRate: nat)
      requires inputRate > 0 && outputRate > 0
      modifies this
      ensures Valid()
      ensures this.inputRate == inputRate && this.outputRate == outputRate && residual == [] && phase == 0
    {
      this.inputRate, this.outputRate := inputRate, outputRate;
      residual, phase := [], 0;
    }

    /** The two inner loops: all channels of one output frame. */
    method Convolve(combined: seq<T>, intPos: nat, frac: nat) returns (frame: U)
      requires Valid() && intPos == phase / outputRate && frac == phase % outputRate
      requires LOBES <= intPos && intPos + LOBES <= |combined|
      ensures frame == Frame(kernel, Rates(inputRate, outputRate), combined, phase)
    {
      frame := kernel(combined[intPos - LOBES..intPos + LOBES], frac);
    }

    /** The output loop. Every window lies inside the combined buffer: the slice is bounds-checked. */
    method WalkOutputs(combined: seq<T>) returns (output: seq<U>)
      requires Valid() && LOBES * outputRate <= phase
      modifies this`phase
      ensures output == Emit(kernel, Rates(inputRate, outputRate), combined, old(phase))
      ensures phase == Stop(Rates(inputRate, outputRate), |combined|, old(phase))
    {
      ghost var c, limit := Rates(inputRate, outputRate), (|combined| + 1) * outputRate;
      output := [];
      while true
        invariant LOBES * outputRate <= phase
        invariant Stop(c, |combined|, phase) == Stop(c, |combined|, old(phase))
        invariant output + Emit(kernel, c, combined, phase) == Emit(kernel, c, combined, old(phase))
        decreases limit - phase
      {
        var intPos, frac := phase / outputRate, phase % outputRate;
        if intPos - LOBES < 0 || intPos + LOBES >= |combined| {
          NoMore(kernel, c, combined, phase);
          return;
        }
        OneMore(kernel, c, combined, phase, output);
        var frame := Convolve(combined, intPos, frac);
        output := output + [frame];
        phase := phase + inputRate;
      }
    }

    method ProcessBlock(input: seq<T>) returns (output: seq<U>)
      requires Valid()
      modifies this`residual, this`phase
      ensures Valid()
      ensures State(residual, phase)
           == Process(kernel, Rates(inputRate, outputRate), old(State(residual, phase)), input).0
      ensures output == Process(kernel, Rates(inputRate, outputRate), old(State(residual, phase)), input).1
    {
      var combined := residual + input;
      residual := [];
      output := [];
      if |combined| < 2 * LOBES + 1 {
        residual := combined;
        return;
      }
      if phase < LOBES * outputRate {
        phase := LOBES * outputRate;
      }
      output := WalkOutputs(combined);
      DivAtLeast(phase, outputRate, LOBES);
      var residualStart := phase / outputRate - LOBES;
      if residualStart < |combined| {
        residual := combined[residualStart..];
      }
      DivAtLeast(phase, outputRate, residualStart);
      phase := phase - residualStart * outputRate;
    }
  }
}
