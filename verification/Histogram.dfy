/** The fixed-width timing histogram: 4096 buckets of 250 microseconds, the last one saturating. */
module Histograms {
  const BUCKET_US := 250
  const BUCKETS := 4096

  /** The bucket a sample is counted in. */
  function Bucket(us: nat): (b: nat)
    ensures b < BUCKETS
  {
    if us / BUCKET_US >= BUCKETS then BUCKETS - 1 else us / BUCKET_US
  }

  // ---------------------------------------------------------------- counting samples

  function CountIn(samples: seq<nat>, b: nat): nat {
    if samples == [] then 0 else (if Bucket(samples[0]) == b then 1 else 0) + CountIn(samples[1..], b)
  }

  /** How many samples fall in the first `b` buckets. */
  function CountBelow(samples: seq<nat>, b: nat): nat {
    if samples == [] then 0 else (if Bucket(samples[0]) < b then 1 else 0) + CountBelow(samples[1..], b)
  }

  function Sum(samples: seq<nat>): nat {
    if samples == [] then 0 else samples[0] + Sum(samples[1..])
  }

  function Largest(samples: seq<nat>): nat {
    if samples == [] then 0
    else if samples[0] >= Largest(samples[1..]) then samples[0] else Largest(samples[1..])
  }

  function Saturations(samples: seq<nat>): nat {
    if samples == [] then 0
    else (if samples[0] / BUCKET_US >= BUCKETS then 1 else 0) + Saturations(samples[1..])
  }

  lemma {:induction false} Recorded(samples: seq<nat>, us: nat, b: nat)
    ensures CountIn(samples + [us], b) == CountIn(samples, b) + (if Bucket(us) == b then 1 else 0)
    ensures Sum(samples + [us]) == Sum(samples) + us
    ensures Largest(samples + [us]) == if us > Largest(samples) then us else Largest(samples)
    ensures Saturations(samples + [us]) == Saturations(samples) + (if us / BUCKET_US >= BUCKETS then 1 else 0)
  {
    if samples == [] {
      assert samples + [us] == [us];
    } else {
      Recorded(samples[1..], us, b);
      assert (samples + [us])[1..] == samples[1..] + [us];
    }
  }

  lemma {:induction false} CountBelowNext(samples: seq<nat>, b: nat)
    ensures CountBelow(samples, b + 1) == CountBelow(samples, b) + CountIn(samples, b)
    ensures CountBelow(samples, 0) == 0 && CountBelow(samples, BUCKETS) == |samples|
  {
    if samples != [] {
      CountBelowNext(samples[1..], b);
    }
  }

  // ---------------------------------------------------------------- quantiles

  /** `r` is the rank a quantile asks for: ceil(q * n), at least 1 and at most n. */
  predicate IsRank(q: real, n: nat, r: nat) {
    && 1 <= r <= n
    && if q <= 0.0 then r == 1
       else if q >= 1.0 then r == n
       else (r - 1) as real < q * n as real <= r as real
  }

  /** A share is no more than the whole exactly if it is at most 1. */
  lemma Share(q: real, n: nat, t: real)
    requires n > 0 && 0.0 < q && t == q * n as real
    ensures q <= 1.0 ==> t <= n as real
    ensures q >= 1.0 ==> t >= n as real
    ensures t > 0.0
  {
    var x := n as real;
    assert q * x - x == (q - 1.0) * x;
  }

  lemma RankOfShare(q: real, n: nat, r: nat, share: real)
    requires 0.0 < q <= 1.0 && share == q * n as real && IsRank(q, n, r)
    ensures (r - 1) as real < share <= r as real
  {
  }

  /** The bucket in which the cumulative count first reaches rank `r`. */
  predicate RankBucket(samples: seq<nat>, r: nat, b: nat) {
    CountBelow(samples, b) < r <= CountBelow(samples, b + 1)
  }

  class TimingHistogram {
    const bins: array<nat>
    var count: nat
    var sumUs: nat
    var maxUs: nat
    var saturated: nat

    ghost var samples: seq<nat>       // everything recorded since the last reset

    ghost predicate Valid()
      reads this, bins
    {
      && bins.Length == BUCKETS
      && (forall b | 0 <= b < BUCKETS :: bins[b] == CountIn(samples, b))
      && count == |samples| && sumUs == Sum(samples) && maxUs == Largest(samples)
      && saturated == Saturations(samples)
    }

    constructor ()
      ensures Valid() && fresh(bins) && samples == []
    {
      bins := new nat[BUCKETS](_ => 0);
      count, sumUs, maxUs, saturated := 0, 0, 0, 0;
      samples := [];
    }

    method AddUs(us: nat)
      requires Valid()
      modifies this, bins
      ensures Valid() && samples == old(samples) + [us]
    {
      var bucket := us / BUCKET_US;
      var idx := if bucket >= BUCKETS then BUCKETS - 1 else bucket;
      if bucket >= BUCKETS {
        saturated := saturated + 1;
      }
      bins[idx] := bins[idx] + 1;
      count := count + 1;
      sumUs := sumUs + us;
      if us > maxUs {
        maxUs := us;
      }
      forall b | 0 <= b < BUCKETS
        ensures bins[b] == CountIn(samples + [us], b)
      {
        Recorded(samples, us, b);
      }
      Recorded(samples, us, 0);
      samples := samples + [us];
    }

    /** The rank loop's target, as the source rounds and clamps it. */
    method NeededRank(q: real, n: nat) returns (need: nat)
      requires n > 0
      ensures IsRank(q, n, need)
    {
      need := 1;
      if q > 0.0 {
        var t := q * n as real;
        need := t.Floor;
        if need as real < t { need := need + 1; }
        if need < 1 { need := 1; }
        if need > n { need := n; }
        Share(q, n, t);
      }
    }

    /** The cumulative walk. */
    method Walk(need: nat) returns (i: nat)
      requires Valid() && 1 <= need <= |samples|
      ensures i < BUCKETS && RankBucket(samples, need, i)
    {
      var acc := 0;
      i := 0;
      CountBelowNext(samples, 0);
      while i < BUCKETS
        invariant 0 <= i <= BUCKETS && acc == CountBelow(samples, i) && acc < need
      {
        CountBelowNext(samples, i);
        acc := acc + bins[i];
        if acc >= need { return; }
        i := i + 1;
      }
      assert false;
    }

    /** The lower edge, in milliseconds, of the bucket that holds the sample of the asked rank. */
    method QuantileMs(q: real) returns (ms: real)
      requires Valid()
      ensures samples == [] ==> ms == 0.0
      ensures samples != [] ==> exists r: nat, b: nat ::
        IsRank(q, |samples|, r) && RankBucket(samples, r, b) && b < 4096 && ms == b as real * 0.25
    {
      if count == 0 { return 0.0; }
      var need := NeededRank(q, count);
      var i := Walk(need);
      return (i * BUCKET_US) as real / 1000.0;
    }

    method Reset()
      requires bins.Length == BUCKETS
      modifies this, bins
      ensures Valid() && samples == []
    {
      var i := 0;
      while i < BUCKETS
        invariant 0 <= i <= BUCKETS && forall b | 0 <= b < i :: bins[b] == 0
      {
        bins[i] := 0;
        i := i + 1;
      }
      count, sumUs, maxUs, saturated := 0, 0, 0, 0;
      samples := [];
    }
  }

  // ---------------------------------------------------------------- the order statistic

  ghost predicate Sorted(s: seq<nat>) {
    forall i, j | 0 <= i < j < |s| :: s[i] <= s[j]
  }

  lemma {:induction false} CountBelowRemove(s: seq<nat>, i: nat, b: nat)
    requires i < |s|
    ensures CountBelow(s, b) == CountBelow(s[..i] + s[i + 1..], b) + (if Bucket(s[i]) < b then 1 else 0)
    decreases i
  {
    if i == 0 {
      assert s[..0] + s[1..] == s[1..];
    } else {
      CountBelowRemove(s[1..], i - 1, b);
      assert (s[..i] + s[i + 1..])[1..] == s[1..][..i - 1] + s[1..][i..];
    }
  }

  /** The counts depend only on which samples there are, not on their order. */
  lemma {:induction false} CountBelowPermuted(s: seq<nat>, t: seq<nat>, b: nat)
    requires multiset(s) == multiset(t)
    ensures CountBelow(s, b) == CountBelow(t, b)
    decreases |s|
  {
    if s == [] {
      assert |multiset(t)| == 0;
    } else {
      var i := HeadIn(s, t);
      CountBelowRemove(t, i, b);
      CountBelowPermuted(s[1..], t[..i] + t[i + 1..], b);
    }
  }

  lemma HeadIn(s: seq<nat>, t: seq<nat>) returns (i: nat)
    requires s != [] && multiset(s) == multiset(t)
    ensures i < |t| && t[i] == s[0] && multiset(t[..i] + t[i + 1..]) == multiset(s[1..])
  {
    assert s[0] in multiset(t);
    i :| i < |t| && t[i] == s[0];
    MultisetRemove(t, i);
    MultisetRemove(s, 0);
    assert s[..0] + s[1..] == s[1..];
  }

  lemma MultisetRemove(s: seq<nat>, i: nat)
    requires i < |s|
    ensures multiset(s[..i] + s[i + 1..]) == multiset(s) - multiset{s[i]}
  {
    assert s == s[..i] + [s[i]] + s[i + 1..];
  }

  /** In a sorted sequence the samples of the first `b` buckets are a prefix. */
  lemma {:induction false} CountBelowSorted(s: seq<nat>, b: nat, k: nat)
    requires Sorted(s) && k < |s|
    ensures Bucket(s[k]) < b <==> k < CountBelow(s, b)
    decreases |s|
  {
    if Bucket(s[0]) < b {
      if k > 0 {
        CountBelowSorted(s[1..], b, k - 1);
      }
    } else {
      NoneBelow(s, b);
    }
  }

  lemma {:induction false} NoneBelow(s: seq<nat>, b: nat)
    requires forall i | 0 <= i < |s| :: Bucket(s[i]) >= b
    ensures CountBelow(s, b) == 0
  {
    if s != [] {
      NoneBelow(s[1..], b);
    }
  }

  /** The cumulative walk finds the bucket of the r-th smallest sample, and no other. */
  lemma QuantileIsOrderStatistic(samples: seq<nat>, sorted: seq<nat>, r: nat, b: nat)
    requires Sorted(sorted) && multiset(sorted) == multiset(samples) && 1 <= r <= |sorted|
    ensures RankBucket(samples, r, b) <==> b == Bucket(sorted[r - 1])
  {
    CountBelowPermuted(sorted, samples, b);
    CountBelowPermuted(sorted, samples, b + 1);
    CountBelowSorted(sorted, b, r - 1);
    CountBelowSorted(sorted, b + 1, r - 1);
  }

  /** Unsaturated, the reported edge is at or below the true value by less than one bucket; it is monotone. */
  lemma QuantileIsClose(samples: seq<nat>, sorted: seq<nat>, r: nat, r': nat, b: nat, b': nat)
    requires Sorted(sorted) && multiset(sorted) == multiset(samples) && 1 <= r <= r' <= |sorted|
    requires RankBucket(samples, r, b) && RankBucket(samples, r', b')
    ensures b * BUCKET_US <= sorted[r - 1]
    ensures b < BUCKETS - 1 ==> sorted[r - 1] < b * BUCKET_US + BUCKET_US
    ensures b <= b'
  {
    QuantileIsOrderStatistic(samples, sorted, r, b);
    QuantileIsOrderStatistic(samples, sorted, r', b');
  }

  // ---------------------------------------------------------------- what the comment promises

  function AtMost(samples: seq<nat>, v: nat): nat {
    if samples == [] then 0 else (if samples[0] <= v then 1 else 0) + AtMost(samples[1..], v)
  }

  lemma {:induction false} AtMostSorted(s: seq<nat>, v: nat, k: nat)
    requires Sorted(s) && k < |s|
    ensures s[k] <= v <==> k < AtMost(s, v)
    decreases |s|
  {
    if s[0] <= v {
      if k > 0 {
        AtMostSorted(s[1..], v, k - 1);
      }
    } else {
      NoneAtMost(s, v);
    }
  }

  lemma {:induction false} NoneAtMost(s: seq<nat>, v: nat)
    requires forall i | 0 <= i < |s| :: s[i] > v
    ensures AtMost(s, v) == 0
  {
    if s != [] {
      NoneAtMost(s[1..], v);
    }
  }

  /**
   Both halves of the comment on QuantileMs, for every bucket. "At least the asked share is at most
   one bucket above the reported edge" fails exactly when the sample of that rank lies beyond the
   last bucket. "Fewer are at most the edge" fails exactly when that sample lies on the edge.
   */
  lemma EdgeExact(sorted: seq<nat>, r: nat, b: nat)
    requires Sorted(sorted) && 1 <= r <= |sorted| && RankBucket(sorted, r, b)
    ensures r <= AtMost(sorted, b * BUCKET_US + BUCKET_US) <==> sorted[r - 1] <= BUCKETS * BUCKET_US
    ensures b < BUCKETS - 1 ==> sorted[r - 1] < BUCKETS * BUCKET_US
    ensures AtMost(sorted, b * BUCKET_US) < r <==> sorted[r - 1] != b * BUCKET_US
  {
    QuantileIsOrderStatistic(sorted, sorted, r, b);
    QuantileIsClose(sorted, sorted, r, r, b, b);
    AtMostSorted(sorted, b * BUCKET_US, r - 1);
    AtMostSorted(sorted, b * BUCKET_US + BUCKET_US, r - 1);
  }

  /**
   The comment's promise about the share `q`, on what QuantileMs returns: with `b` the reported bucket,
   at least the share is at most 250 us above its edge unless that sample is above 1.024 s, and less
   than the share is at most the edge unless that sample is on it. Any sorted arrangement will do.
   */
  lemma ShareExact(samples: seq<nat>, sorted: seq<nat>, q: real, share: real, r: nat, b: nat)
    requires Sorted(sorted) && multiset(sorted) == multiset(samples)
    requires 0.0 < q <= 1.0 && share == q * |samples| as real
    requires IsRank(q, |samples|, r) && RankBucket(samples, r, b)
    ensures |sorted| == |samples|
    ensures b * 250 <= sorted[r - 1] && (sorted[r - 1] < 1024000 ==> sorted[r - 1] < b * 250 + 250)
    ensures share <= AtMost(sorted, b * 250 + 250) as real <==> sorted[r - 1] <= 1024000
    ensures share <= AtMost(sorted, b * 250) as real <==> sorted[r - 1] == b * 250
  {
    RankOfShare(q, |samples|, r, share);
    ShareEdge(samples, sorted, share, r, b);
  }

  lemma ShareEdge(samples: seq<nat>, sorted: seq<nat>, share: real, r: nat, b: nat)
    requires Sorted(sorted) && multiset(sorted) == multiset(samples)
    requires 1 <= r <= |samples| && (r - 1) as real < share <= r as real && RankBucket(samples, r, b)
    ensures |sorted| == |samples|
    ensures b * 250 <= sorted[r - 1] && (sorted[r - 1] < 1024000 ==> sorted[r - 1] < b * 250 + 250)
    ensures share <= AtMost(sorted, b * 250 + 250) as real <==> sorted[r - 1] <= 1024000
    ensures share <= AtMost(sorted, b * 250) as real <==> sorted[r - 1] == b * 250
  {
    assert |multiset(sorted)| == |multiset(samples)|;
    RankEdge(samples, sorted, r, b);
  }

  /** The two halves in terms of the rank, for any arrangement of the samples. */
  lemma RankEdge(samples: seq<nat>, sorted: seq<nat>, r: nat, b: nat)
    requires Sorted(sorted) && multiset(sorted) == multiset(samples)
    requires 1 <= r <= |sorted| && RankBucket(samples, r, b)
    ensures b * 250 <= sorted[r - 1] && (sorted[r - 1] < 1024000 ==> sorted[r - 1] < b * 250 + 250)
    ensures r <= AtMost(sorted, b * 250 + 250) <==> sorted[r - 1] <= 1024000
    ensures AtMost(sorted, b * 250) < r <==> sorted[r - 1] != b * 250
  {
    QuantileIsOrderStatistic(samples, sorted, r, b);
    QuantileIsOrderStatistic(sorted, sorted, r, b);
    EdgeExact(sorted, r, b);
  }

  // ---------------------------------------------------------------- the totals

  /** Maximum, saturated count and sum are what their names say. */
  lemma {:induction false} TotalsExact(samples: seq<nat>, us: nat)
    ensures us in samples ==> us <= Largest(samples)
    ensures samples != [] ==> Largest(samples) in samples
    ensures Saturations(samples) + AtMost(samples, 1023999) == |samples|
  {
    if samples != [] {
      TotalsExact(samples[1..], us);
    }
  }

  lemma {:induction false} SumOfParts(a: seq<nat>, b: seq<nat>, us: nat)
    ensures Sum(a + b) == Sum(a) + Sum(b) && Sum([us]) == us
  {
    if a == [] {
      assert a + b == b;
    } else {
      SumOfParts(a[1..], b, us);
      assert (a + b)[1..] == a[1..] + b;
    }
  }

  /** One sample on the edge of a bucket: none is fewer than one, yet it is at most the edge. */
  lemma OnTheEdge()
    ensures RankBucket([250], 1, 1) && AtMost([250], 1 * BUCKET_US) == 1
  {
    NoneBelow([250], 1);
    CountBelowNext([250], 1);
    assert CountIn([250], 1) == 1;
  }

  /** One sample of two seconds: nothing is within a bucket of the reported 1023.75 ms. */
  lemma BeyondTheLast()
    ensures RankBucket([2000000], 1, BUCKETS - 1)
    ensures AtMost([2000000], (BUCKETS - 1) * BUCKET_US + BUCKET_US) == 0
  {
    NoneBelow([2000000], BUCKETS - 1);
    CountBelowNext([2000000], BUCKETS - 1);
  }
}
