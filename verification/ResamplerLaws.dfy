/** Block boundaries do not matter to the resampler, and exactly for which rates. */
module ResamplerLaws {
  import opened Arithmetic
  import opened Resampler

  const WINDOW := 2 * LOBES

  // ---------------------------------------------------------------- the reference: one pass over the stream

  /** First frame of the window of output `k`. */
  function WindowStart(c: Rates, k: nat): nat
    requires Configured(c)
  {
    k * c.inRate / c.outRate
  }

  /** ceil((n - 16) * out / in), or none while the stream is no longer than one window. */
  function OutputCount(c: Rates, n: nat): nat
    requires Configured(c)
  {
    if n <= WINDOW then 0 else ((n - WINDOW) * c.outRate + c.inRate - 1) / c.inRate
  }

  function Output<T, U>(kernel: (seq<T>, nat) -> U, c: Rates, x: seq<T>, k: nat): U
    requires Configured(c) && k < OutputCount(c, |x|)
  {
    CountExact(c, |x|, k);
    kernel(x[WindowStart(c, k)..WindowStart(c, k) + WINDOW], k * c.inRate % c.outRate)
  }

  function Reference<T, U>(kernel: (seq<T>, nat) -> U, c: Rates, x: seq<T>): seq<U>
    requires Configured(c)
  {
    seq(OutputCount(c, |x|), k requires 0 <= k < OutputCount(c, |x|) => Output(kernel, c, x, k))
  }

  lemma CountExact(c: Rates, n: nat, k: nat)
    requires Configured(c)
    ensures k < OutputCount(c, n) <==> WindowStart(c, k) + WINDOW < n
  {
    if n > WINDOW {
      var room := (n - WINDOW) * c.outRate;
      DivAtLeast(room + c.inRate - 1, c.inRate, k + 1);
      assert (k + 1) * c.inRate == k * c.inRate + c.inRate;
      DivAtLeast(k * c.inRate, c.outRate, n - WINDOW);
    }
  }

  // ---------------------------------------------------------------- a walk that starts in mid-stream

  /** Position of output `k` in the buffer that starts at frame `d` of the stream. */
  function Position(c: Rates, d: nat, k: nat): nat
    requires Configured(c) && d <= WindowStart(c, k)
  {
    DivAtLeast(k * c.inRate, c.outRate, d);
    LOBES * c.outRate + k * c.inRate - d * c.outRate
  }

  lemma PositionIs(c: Rates, d: nat, k: nat)
    requires Configured(c) && d <= WindowStart(c, k)
    ensures var p := Position(c, d, k);
      && LOBES * c.outRate <= p
      && p / c.outRate == LOBES + WindowStart(c, k) - d
      && p % c.outRate == k * c.inRate % c.outRate
  {
    var q, r := WindowStart(c, k), k * c.inRate % c.outRate;
    DivAtLeast(k * c.inRate, c.outRate, d);
    assert Position(c, d, k) == (LOBES + q - d) * c.outRate + r by {
      assert k * c.inRate == q * c.outRate + r;
      assert (LOBES + q - d) * c.outRate == LOBES * c.outRate + q * c.outRate - d * c.outRate;
    }
    DivUnique(Position(c, d, k), c.outRate, LOBES + q - d, r);
  }

  lemma NextPosition(c: Rates, d: nat, k: nat)
    requires Configured(c) && d <= WindowStart(c, k)
    ensures d <= WindowStart(c, k + 1) && Position(c, d, k + 1) == Position(c, d, k) + c.inRate
  {
    assert (k + 1) * c.inRate == k * c.inRate + c.inRate;
    DivAtLeast(k * c.inRate, c.outRate, d);
    DivAtLeast((k + 1) * c.inRate, c.outRate, d);
  }

  /** From output `k` on, the walk emits the rest of the reference and stops at its end. */
  lemma {:induction false} WalkIsReference<T, U>(kernel: (seq<T>, nat) -> U, c: Rates, x: seq<T>, d: nat, k: nat)
    requires Configured(c) && d <= |x| && d <= WindowStart(c, k) && k <= OutputCount(c, |x|)
    ensures d <= WindowStart(c, OutputCount(c, |x|))
    ensures Position(c, d, k) >= LOBES * c.outRate
    ensures Emit(kernel, c, x[d..], Position(c, d, k)) == Reference(kernel, c, x)[k..]
    ensures Resampler.Stop(c, |x| - d, Position(c, d, k)) == Position(c, d, OutputCount(c, |x|))
    decreases OutputCount(c, |x|) - k
  {
    PositionIs(c, d, k);
    CountExact(c, |x|, k);
    if k < OutputCount(c, |x|) {
      NextPosition(c, d, k);
      WalkIsReference(kernel, c, x, d, k + 1);
      var ref, s := Reference(kernel, c, x), WindowStart(c, k);
      assert x[d..][s - d..s - d + WINDOW] == x[s..s + WINDOW];
      assert Frame(kernel, c, x[d..], Position(c, d, k)) == ref[k];
      assert ref[k..] == [ref[k]] + ref[k + 1..];
      InRange(c, |x| - d, Position(c, d, k));
    }
  }

  // ---------------------------------------------------------------- what the state remembers

  /** The state after the stream `x`: the window of the next output has only its tail missing. */
  ghost predicate Aligned<T>(c: Rates, x: seq<T>, s: State<T>)
    requires Configured(c)
  {
    var k := OutputCount(c, |x|);
    var d := WindowStart(c, k);
    && d <= |x| && s.residual == x[d..] && |s.residual| <= WINDOW
    && (s.phase == Position(c, d, k) || (k == 0 && s.phase == 0))
  }

  /** The next window never starts beyond the stream: this is where the rates matter. */
  lemma NextWindowReachable(c: Rates, n: nat)
    requires Configured(c) && c.inRate <= 17 * c.outRate
    ensures WindowStart(c, OutputCount(c, n)) <= n
    ensures n <= WindowStart(c, OutputCount(c, n)) + WINDOW
  {
    var k := OutputCount(c, n);
    CountExact(c, n, k);
    if k == 0 {
      assert WindowStart(c, 0) == 0 by { DivUnique(0, c.outRate, 0, 0); }
    } else {
      CountExact(c, n, k - 1);
      DivBelow((k - 1) * c.inRate, c.outRate, n - WINDOW);
      assert k * c.inRate == (k - 1) * c.inRate + c.inRate;
      assert (n - WINDOW) * c.outRate + 17 * c.outRate == (n + 1) * c.outRate;
      DivAtLeast(k * c.inRate, c.outRate, n + 1);
    }
  }

  lemma CountGrows(c: Rates, n: nat, n': nat)
    requires Configured(c) && n <= n'
    ensures OutputCount(c, n) <= OutputCount(c, n')
  {
    if OutputCount(c, n') < OutputCount(c, n) {
      CountExact(c, n, OutputCount(c, n'));
      CountExact(c, n', OutputCount(c, n'));
    }
  }

  lemma ReferenceGrows<T, U>(kernel: (seq<T>, nat) -> U, c: Rates, x: seq<T>, block: seq<T>)
    requires Configured(c)
    ensures OutputCount(c, |x|) <= OutputCount(c, |x + block|)
    ensures Reference(kernel, c, x) == Reference(kernel, c, x + block)[..OutputCount(c, |x|)]
  {
    CountGrows(c, |x|, |x + block|);
    forall k: nat | k < OutputCount(c, |x|)
      ensures Output(kernel, c, x, k) == Output(kernel, c, x + block, k)
    {
      CountExact(c, |x|, k);
      var s := WindowStart(c, k);
      assert (x + block)[s..s + WINDOW] == x[s..s + WINDOW];
    }
  }

  /** One call: exactly the outputs the new block makes possible, and the state stays aligned. */
  lemma CallIsAligned<T, U>(kernel: (seq<T>, nat) -> U, c: Rates, x: seq<T>, s: State<T>, block: seq<T>)
    requires Configured(c) && c.inRate <= 17 * c.outRate && Aligned(c, x, s)
    ensures Aligned(c, x + block, Process(kernel, c, s, block).0)
    ensures Reference(kernel, c, x) + Process(kernel, c, s, block).1 == Reference(kernel, c, x + block)
  {
    var x' := x + block;
    var k, k' := OutputCount(c, |x|), OutputCount(c, |x'|);
    var d := WindowStart(c, k);
    ReferenceGrows(kernel, c, x, block);
    assert s.residual + block == x'[d..];
    PositionIs(c, d, k);
    if |x'| - d <= WINDOW {
      CountExact(c, |x'|, k);
      assert k' == k;
    } else {
      if k == 0 {
        assert d == 0 by { DivUnique(0, c.outRate, 0, 0); }
      }
      WalkIsReference(kernel, c, x', d, k);
      NextWindowReachable(c, |x'|);
      CallState(kernel, c, x', s, block, d, k);
    }
  }

  /** Re-basing a position from frame `d` to the start of its own window. */
  lemma Rebase(c: Rates, d: nat, k: nat)
    requires Configured(c) && d <= WindowStart(c, k)
    ensures var end, d' := Position(c, d, k), WindowStart(c, k);
      end / c.outRate == LOBES + d' - d && end - (d' - d) * c.outRate == Position(c, d', k)
  {
    PositionIs(c, d, k);
    var d' := WindowStart(c, k);
    assert (d' - d) * c.outRate == d' * c.outRate - d * c.outRate;
  }

  /** One call that has enough frames, where it starts and ends being known. */
  lemma LongCall<T, U>(kernel: (seq<T>, nat) -> U, c: Rates, s: State<T>, input: seq<T>, p: nat, skip: nat)
    requires Configured(c) && |s.residual + input| > WINDOW
    requires p == if s.phase < LOBES * c.outRate then LOBES * c.outRate else s.phase
    requires Resampler.Stop(c, |s.residual + input|, p) / c.outRate == LOBES + skip
    ensures Process(kernel, c, s, input).1 == Emit(kernel, c, s.residual + input, p)
    ensures Process(kernel, c, s, input).0.residual
         == if skip < |s.residual + input| then (s.residual + input)[skip..] else []
    ensures Process(kernel, c, s, input).0.phase == Resampler.Stop(c, |s.residual + input|, p) - skip * c.outRate
  {
  }

  lemma CallState<T, U>(kernel: (seq<T>, nat) -> U, c: Rates, x': seq<T>, s: State<T>, block: seq<T>, d: nat, k: nat)
    requires Configured(c) && d <= |x'| && d == WindowStart(c, k) && k <= OutputCount(c, |x'|)
    requires s.residual + block == x'[d..] && |x'| - d > WINDOW
    requires s.phase == Position(c, d, k) || (k == 0 && d == 0 && s.phase == 0)
    requires WindowStart(c, OutputCount(c, |x'|)) <= |x'| <= WindowStart(c, OutputCount(c, |x'|)) + WINDOW
    ensures Aligned(c, x', Process(kernel, c, s, block).0)
    ensures Process(kernel, c, s, block).1 == Reference(kernel, c, x')[k..]
  {
    var k' := OutputCount(c, |x'|);
    var d' := WindowStart(c, k');
    WalkIsReference(kernel, c, x', d, k);
    PositionIs(c, d, k);
    Rebase(c, d, k');
    LongCall(kernel, c, s, block, Position(c, d, k), d' - d);
    assert x'[d..][d' - d..] == x'[d'..];
    assert d' == |x'| ==> x'[d'..] == [];
  }

  // ---------------------------------------------------------------- whole runs

  function Flatten<T>(blocks: seq<seq<T>>): seq<T> {
    if blocks == [] then [] else blocks[0] + Flatten(blocks[1..])
  }

  /** All the outputs of a run of calls, block by block. */
  function Run<T, U>(kernel: (seq<T>, nat) -> U, c: Rates, s: State<T>, blocks: seq<seq<T>>): seq<U>
    requires Configured(c)
    decreases |blocks|
  {
    if blocks == [] then []
    else
      var (s', output) := Process(kernel, c, s, blocks[0]);
      output + Run(kernel, c, s', blocks[1..])
  }

  lemma RunUnfolds<T, U>(kernel: (seq<T>, nat) -> U, c: Rates, s: State<T>, blocks: seq<seq<T>>)
    requires Configured(c) && blocks != []
    ensures Run(kernel, c, s, blocks)
         == Process(kernel, c, s, blocks[0]).1 + Run(kernel, c, Process(kernel, c, s, blocks[0]).0, blocks[1..])
  {
  }

  lemma Regroup<U>(a: seq<U>, b: seq<U>, c: seq<U>)
    ensures a + (b + c) == (a + b) + c
  {
  }

  lemma {:induction false} RunIsReference<T, U>(kernel: (seq<T>, nat) -> U, c: Rates, x: seq<T>, s: State<T>,
                                                blocks: seq<seq<T>>)
    requires Configured(c) && c.inRate <= 17 * c.outRate && Aligned(c, x, s)
    ensures Reference(kernel, c, x) + Run(kernel, c, s, blocks) == Reference(kernel, c, x + Flatten(blocks))
    decreases |blocks|
  {
    if blocks == [] {
      assert x + [] == x;
    } else {
      CallIsAligned(kernel, c, x, s, blocks[0]);
      RunUnfolds(kernel, c, s, blocks);
      RunIsReference(kernel, c, x + blocks[0], Process(kernel, c, s, blocks[0]).0, blocks[1..]);
      Regroup(x, blocks[0], Flatten(blocks[1..]));
      Regroup(Reference(kernel, c, x), Process(kernel, c, s, blocks[0]).1,
              Run(kernel, c, Process(kernel, c, s, blocks[0]).0, blocks[1..]));
    }
  }

  /** Any partition of any stream gives the outputs of the whole stream. */
  lemma BlocksDoNotMatter<T, U>(kernel: (seq<T>, nat) -> U, c: Rates, blocks: seq<seq<T>>)
    requires Configured(c) && c.inRate <= 17 * c.outRate
    ensures Run(kernel, c, State([], 0), blocks) == Reference(kernel, c, Flatten(blocks))
  {
    assert WindowStart(c, 0) == 0 by { DivUnique(0, c.outRate, 0, 0); }
    RunIsReference(kernel, c, [], State([], 0), blocks);
    assert [] + Flatten(blocks) == Flatten(blocks);
    assert Reference(kernel, c, []) == [];
  }

  /** One call never needs the last frame of the source's reserve, ceil((total - 16) * ratio) + 1. */
  lemma WithinReserve<T, U>(kernel: (seq<T>, nat) -> U, c: Rates, s: State<T>, input: seq<T>)
    requires Configured(c)
    ensures |Process(kernel, c, s, input).1| <= OutputCount(c, |s.residual + input|)
  {
    var x := s.residual + input;
    if |x| > WINDOW {
      var p := if s.phase < LOBES * c.outRate then LOBES * c.outRate else s.phase;
      EmitBound(kernel, c, x, p, 0);
    }
  }

  lemma {:induction false} EmitBound<T, U>(kernel: (seq<T>, nat) -> U, c: Rates, x: seq<T>, p: nat, k: nat)
    requires Configured(c) && LOBES * c.outRate + k * c.inRate <= p
    ensures Emit(kernel, c, x, p) == [] || k + |Emit(kernel, c, x, p)| <= OutputCount(c, |x|)
    decreases (|x| + 1) * c.outRate - p
  {
    if p / c.outRate + LOBES < |x| {
      InRange(c, |x|, p);
      assert (k + 1) * c.inRate == k * c.inRate + c.inRate;
      EmitBound(kernel, c, x, p + c.inRate, k + 1);
      DivBelow(p, c.outRate, |x| - LOBES);
      assert (|x| - LOBES) * c.outRate == (|x| - WINDOW) * c.outRate + LOBES * c.outRate;
      DivAtLeast(k * c.inRate, c.outRate, |x| - WINDOW);
      CountExact(c, |x|, k);
    }
  }

  // ---------------------------------------------------------------- exactly which rates

  ghost predicate BlockIndependent(c: Rates)
    requires Configured(c)
  {
    forall kernel: (seq<int>, nat) -> int, blocks: seq<seq<int>> ::
      Run(kernel, c, State([], 0), blocks) == Reference(kernel, c, Flatten(blocks))
  }

  /** Beyond 17 input frames an output, some step of the window skips a whole block's tail. */
  lemma SkippingStep(c: Rates) returns (j: nat)
    requires Configured(c) && c.inRate > 17 * c.outRate
    ensures WindowStart(c, j + 1) >= WindowStart(c, j) + 18
  {
    var r := c.inRate - 17 * c.outRate;
    if r >= c.outRate {
      j := 0;
      DivUnique(0, c.outRate, 0, 0);
      DivAtLeast(c.inRate, c.outRate, 18);
    } else {
      j := 0;
      while (j + 1) * r < c.outRate
        invariant j * r < c.outRate
        decreases c.outRate - j * r
      {
        assert (j + 1) * r == j * r + r;
        j := j + 1;
      }
      assert j * c.inRate == 17 * j * c.outRate + j * r;
      DivUnique(j * c.inRate, c.outRate, 17 * j, j * r);
      assert (j + 1) * c.inRate == 17 * (j + 1) * c.outRate + (j + 1) * r;
      assert (17 * (j + 1) + 1) * c.outRate == 17 * (j + 1) * c.outRate + c.outRate;
      DivAtLeast((j + 1) * c.inRate, c.outRate, 17 * (j + 1) + 1);
    }
  }

  /** Then two blocks of the counting stream come out wrong at their seam. */
  lemma SeamIsWrong(c: Rates)
    requires Configured(c) && c.inRate > 17 * c.outRate
    ensures !BlockIndependent(c)
  {
    var j := SkippingStep(c);
    var n := WindowStart(c, j) + 17;
    CountExact(c, n, j);
    CountExact(c, n, j + 1);
    var k := OutputCount(c, n);
    assert k == j + 1;
    var d := WindowStart(c, k);
    var first := seq(n, i => i);
    var second := seq(d + 17 - n, i requires 0 <= i => n + i);
    var kernel := (w: seq<int>, f: nat) => if w == [] then 0 else w[0];
    SeamRun(kernel, c, first, second, k);
    var x := first + second;
    CountExact(c, |x|, k);
    assert Reference(kernel, c, x)[k] == x[d..d + WINDOW][0] == d;
    assert Flatten([first, second]) == x by {
      assert Flatten([first, second]) == first + Flatten([second]);
      assert Flatten([second]) == second + [];
    }
  }

  lemma RunOfTwo<T, U>(kernel: (seq<T>, nat) -> U, c: Rates, s: State<T>, first: seq<T>, second: seq<T>)
    requires Configured(c)
    ensures Run(kernel, c, s, [first, second])
         == Process(kernel, c, s, first).1 + Process(kernel, c, Process(kernel, c, s, first).0, second).1
  {
    assert [first, second][1..] == [second] && [second][1..] == [];
    RunUnfolds(kernel, c, s, [first, second]);
    RunUnfolds(kernel, c, Process(kernel, c, s, first).0, [second]);
  }

  /** The first block leaves nothing behind, so the second is read from its own first frame. */
  lemma SeamRun(kernel: (seq<int>, nat) -> int, c: Rates, first: seq<int>, second: seq<int>, k: nat)
    requires Configured(c) && k == OutputCount(c, |first|) && |first| > WINDOW && |second| > WINDOW
    requires WindowStart(c, k) > |first|
    requires forall w: seq<int>, f: nat | w != [] :: kernel(w, f) == w[0]
    ensures var all := Run(kernel, c, State([], 0), [first, second]);
      |all| > k && all[k] == second[0]
  {
    DivUnique(0, c.outRate, 0, 0);
    assert first[0..] == first && [] + first == first;
    WalkIsReference(kernel, c, first, 0, 0);
    Rebase(c, 0, k);
    LongCall(kernel, c, State([], 0), first, Position(c, 0, 0), WindowStart(c, k));
    var s := Process(kernel, c, State([], 0), first).0;
    PositionIs(c, WindowStart(c, k), k);
    FirstFrame(kernel, c, s, second);
    RunOfTwo(kernel, c, State([], 0), first, second);
  }

  lemma FirstFrame(kernel: (seq<int>, nat) -> int, c: Rates, s: State<int>, block: seq<int>)
    requires Configured(c) && s.residual == [] && s.phase / c.outRate == LOBES && |block| > WINDOW
    requires forall w: seq<int>, f: nat | w != [] :: kernel(w, f) == w[0]
    ensures Process(kernel, c, s, block).1 != [] && Process(kernel, c, s, block).1[0] == block[0]
  {
    DivAtLeast(s.phase, c.outRate, LOBES);
    assert [] + block == block;
    assert Frame(kernel, c, block, s.phase) == block[0..WINDOW][0];
    assert Process(kernel, c, s, block).1 == Emit(kernel, c, block, s.phase);
  }

  /** Block boundaries do not matter exactly when the input rate is at most 17 times the output rate. */
  lemma BlockIndependenceExact(c: Rates)
    requires Configured(c)
    ensures BlockIndependent(c) <==> c.inRate <= 17 * c.outRate
  {
    if c.inRate <= 17 * c.outRate {
      forall kernel: (seq<int>, nat) -> int, blocks: seq<seq<int>>
        ensures Run(kernel, c, State([], 0), blocks) == Reference(kernel, c, Flatten(blocks))
      {
        BlocksDoNotMatter(kernel, c, blocks);
      }
    } else {
      SeamIsWrong(c);
    }
  }
}
