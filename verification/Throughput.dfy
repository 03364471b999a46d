/**
 The throughput estimator over real numbers: two exponentially weighted means kept incrementally,
 against the weighted mean of everything accepted. `alpha.powf` is a function of the weight that
 multiplies over sums, falls strictly, and is one half at the half-life; rounding is not modelled.
 */
module Throughput {
  import opened Wrappers

  /** `w` to `alpha^w`, for the `alpha` whose half-life is `half` seconds. */
  ghost predicate IsDecay(pow: real -> real, half: real) {
    && half > 0.0
    && pow(0.0) == 1.0 && pow(half) == 0.5
    && (forall x, y :: 0.0 <= x && 0.0 <= y ==> Multiplies(pow, x, y))
    && (forall x, y :: 0.0 <= x < y ==> Falls(pow, x, y))
  }

  ghost predicate Multiplies(pow: real -> real, x: real, y: real) {
    pow(x + y) == Times(pow(x), pow(y))
  }

  ghost predicate Falls(pow: real -> real, x: real, y: real) {
    0.0 < pow(y) < pow(x)
  }

  function Times(x: real, y: real): real {
    x * y
  }

  function Max(x: real, y: real): real {
    if x < y then y else x
  }

  function Min(x: real, y: real): real {
    if y < x then y else x
  }

  // ---------------------------------------------------------------- the weighted mean

  datatype Sample = Sample(weight: real, rate: real)

  function Weight(ss: seq<Sample>): (w: real) {
    if ss == [] then 0.0 else ss[0].weight + Weight(ss[1..])
  }

  ghost predicate Weighed(ss: seq<Sample>) {
    forall i :: 0 <= i < |ss| ==> ss[i].weight >= 0.0
  }

  /** What sample `0` of `ss` counts for: its own fade, faded by everything after it. */
  function Share(ss: seq<Sample>, pow: real -> real): real
    requires ss != []
  {
    Times(1.0 - pow(ss[0].weight), pow(Weight(ss[1..])))
  }

  function Shares(ss: seq<Sample>, pow: real -> real): real {
    if ss == [] then 0.0 else Share(ss, pow) + Shares(ss[1..], pow)
  }

  function WeightedSum(ss: seq<Sample>, pow: real -> real): real {
    if ss == [] then 0.0 else Times(ss[0].rate, Share(ss, pow)) + WeightedSum(ss[1..], pow)
  }

  lemma {:induction false} WeightSteps(ss: seq<Sample>, s: Sample)
    ensures Weight(ss + [s]) == Weight(ss) + s.weight
  {
    if ss == [] {
      assert ss + [s] == [s];
      assert [s][1..] == [];
    } else {
      assert (ss + [s])[1..] == ss[1..] + [s];
      WeightSteps(ss[1..], s);
    }
  }

  lemma {:induction false} WeightIsNonNegative(ss: seq<Sample>)
    requires Weighed(ss)
    ensures Weight(ss) >= 0.0
    ensures forall i :: 0 <= i < |ss| ==> Weight(ss) >= ss[i].weight
  {
    if ss != [] {
      WeightIsNonNegative(ss[1..]);
      assert forall i :: 1 <= i < |ss| ==> ss[i] == ss[1..][i - 1];
    }
  }

  lemma Distribute(a: real, b: real, c: real)
    ensures Times(a + b, c) == Times(a, c) + Times(b, c)
    ensures Times(c, a + b) == Times(c, a) + Times(c, b)
  {}

  lemma Associate(a: real, b: real, c: real)
    ensures Times(Times(a, b), c) == Times(a, Times(b, c))
  {}

  /** One incremental update is one more sample in the sum. */
  lemma {:induction false} SumSteps(ss: seq<Sample>, s: Sample, pow: real -> real, half: real)
    requires IsDecay(pow, half) && Weighed(ss) && s.weight >= 0.0
    ensures WeightedSum(ss + [s], pow)
      == Times(s.rate, 1.0 - pow(s.weight)) + Times(pow(s.weight), WeightedSum(ss, pow))
  {
    var p := pow(s.weight);
    if ss == [] {
      assert ss + [s] == [s] && [s][1..] == [];
      assert Share([s], pow) == Times(1.0 - p, 1.0) == 1.0 - p;
    } else {
      var rest, all := ss[1..], ss + [s];
      assert all[1..] == rest + [s] && all[0] == ss[0];
      SumSteps(rest, s, pow, half);
      WeightSteps(rest, s);
      WeightIsNonNegative(rest);
      var fade, rate := 1.0 - pow(ss[0].weight), ss[0].rate;
      var q := pow(Weight(rest));
      assert Multiplies(pow, Weight(rest), s.weight);
      Associate(fade, q, p);
      assert Share(all, pow) == Times(Share(ss, pow), p);
      Associate(rate, Share(ss, pow), p);
      Distribute(Times(rate, Share(ss, pow)), WeightedSum(rest, pow), p);
    }
  }

  /** The shares of all samples add up to what has faded since the start. */
  lemma {:induction false} SharesSum(ss: seq<Sample>, pow: real -> real, half: real)
    requires IsDecay(pow, half) && Weighed(ss)
    ensures Shares(ss, pow) == 1.0 - pow(Weight(ss))
  {
    if ss != [] {
      SharesSum(ss[1..], pow, half);
      WeightIsNonNegative(ss[1..]);
      var p, q := pow(ss[0].weight), pow(Weight(ss[1..]));
      assert Multiplies(pow, ss[0].weight, Weight(ss[1..]));
      assert Times(1.0 - p, q) == q - Times(p, q);
    }
  }

  lemma Fades(pow: real -> real, half: real, w: real)
    requires IsDecay(pow, half) && w >= 0.0
    ensures 0.0 < pow(w) <= 1.0 && (w > 0.0 ==> pow(w) < 1.0)
  {
    if w > 0.0 { assert Falls(pow, 0.0, w); }
  }

  ghost predicate Within(ss: seq<Sample>, lo: real, hi: real) {
    forall i :: 0 <= i < |ss| ==> lo <= ss[i].rate <= hi
  }

  lemma {:induction false} SumWithin(ss: seq<Sample>, pow: real -> real, half: real, lo: real, hi: real)
    requires IsDecay(pow, half) && Weighed(ss) && Within(ss, lo, hi)
    ensures Times(lo, Shares(ss, pow)) <= WeightedSum(ss, pow) <= Times(hi, Shares(ss, pow))
  {
    if ss != [] {
      SumWithin(ss[1..], pow, half, lo, hi);
      WeightIsNonNegative(ss[1..]);
      Fades(pow, half, ss[0].weight);
      Fades(pow, half, Weight(ss[1..]));
      var share, rest := Share(ss, pow), Shares(ss[1..], pow);
      ProductNonNegative(1.0 - pow(ss[0].weight), pow(Weight(ss[1..])));
      Scale(lo, ss[0].rate, share);
      Scale(ss[0].rate, hi, share);
      Distribute(share, rest, lo);
      Distribute(share, rest, hi);
    }
  }

  lemma ProductNonNegative(a: real, b: real)
    requires a >= 0.0 && b >= 0.0
    ensures Times(a, b) >= 0.0
  {}

  lemma Scale(a: real, b: real, c: real)
    requires a <= b && c >= 0.0
    ensures Times(a, c) <= Times(b, c)
  {}

  // ---------------------------------------------------------------- the clamp is never active

  function Power(p: real, n: nat): real {
    if n == 0 then 1.0 else Times(p, Power(p, n - 1))
  }

  /** Bernoulli: `p^n >= 1 - n (1 - p)`. */
  lemma {:induction false} Bernoulli(p: real, n: nat)
    requires 0.0 <= p <= 1.0
    ensures 0.0 <= Power(p, n) <= 1.0
    ensures Power(p, n) >= 1.0 - (n as real) * (1.0 - p)
  {
    if n > 0 {
      Bernoulli(p, n - 1);
      var q := Power(p, n - 1);
      ProductNonNegative(p, q);
      Scale(p, 1.0, q);
      ProductNonNegative(1.0 - p, 1.0 - q);
      assert Times(p, q) >= p + q - 1.0;
      assert (n as real) * (1.0 - p) == ((n - 1) as real) * (1.0 - p) + (1.0 - p);
    }
  }

  function Multiple(n: nat, x: real): real {
    if n == 0 then 0.0 else x + Multiple(n - 1, x)
  }

  lemma {:induction false} MultipleIs(n: nat, x: real)
    ensures Multiple(n, x) == (n as real) * x
  {
    if n > 0 { MultipleIs(n - 1, x); }
  }

  lemma {:induction false} PowerOfPow(pow: real -> real, half: real, x: real, n: nat)
    requires IsDecay(pow, half) && x >= 0.0
    ensures Multiple(n, x) >= 0.0 && pow(Multiple(n, x)) == Power(pow(x), n)
  {
    if n > 0 {
      PowerOfPow(pow, half, x, n - 1);
      assert Multiplies(pow, x, Multiple(n - 1, x));
    }
  }

  const MIN_ZERO_FACTOR := 0.000001
  const MIN_WEIGHT := 0.0005
  const FAST_HALF_LIFE := 2.0
  const SLOW_HALF_LIFE := 10.0

  /** A total weight of half a millisecond already clears the clamp, for both half-lives. */
  lemma ClampIdle(pow: real -> real, half: real, w: real)
    requires IsDecay(pow, half) && (half == FAST_HALF_LIFE || half == SLOW_HALF_LIFE)
    requires w >= MIN_WEIGHT
    ensures 1.0 - pow(w) > MIN_ZERO_FACTOR
  {
    var p := pow(MIN_WEIGHT);
    var n: nat := if half == FAST_HALF_LIFE then 4000 else 20000;
    Fades(pow, half, MIN_WEIGHT);
    Bernoulli(p, n);
    PowerOfPow(pow, half, MIN_WEIGHT, n);
    MultipleIs(n, MIN_WEIGHT);
    assert Multiple(n, MIN_WEIGHT) == half;
    assert (n as real) * (1.0 - p) >= 0.5;
    assert w > MIN_WEIGHT ==> Falls(pow, MIN_WEIGHT, w);
  }

  // ---------------------------------------------------------------- the incremental form

  class Ewma {
    const pow: real -> real
    ghost const half: real
    var lastEstimate: real
    var totalWeight: real

    constructor (pow: real -> real, ghost half: real)
      ensures this.pow == pow && this.half == half && lastEstimate == 0.0 && totalWeight == 0.0
    {
      this.pow, this.half, lastEstimate, totalWeight := pow, half, 0.0, 0.0;
    }

    /** The fields hold the sum and the weight of `ss`. */
    ghost predicate Holds(ss: seq<Sample>)
      reads this
    {
      IsDecay(pow, half) && Weighed(ss) && lastEstimate == WeightedSum(ss, pow) && totalWeight == Weight(ss)
    }

    method AddSample(weight: real, rate: real, ghost ss: seq<Sample>)
      requires Holds(ss)
      modifies this
      ensures Holds(ss + [Sample(Max(weight, 0.0), rate)])
    {
      var w := Max(weight, 0.0);
      var adjAlpha := pow(w);
      SumSteps(ss, Sample(w, rate), pow, half);
      WeightSteps(ss, Sample(w, rate));
      lastEstimate := rate * (1.0 - adjAlpha) + adjAlpha * lastEstimate;
      totalWeight := totalWeight + w;
    }

    function GetEstimate(): real
      reads this
    {
      if totalWeight <= 0.0 then 0.0
      else Quotient(lastEstimate, Max(1.0 - pow(totalWeight), MIN_ZERO_FACTOR))
    }
  }

  function Quotient(x: real, y: real): real
    requires y > 0.0
  {
    x / y
  }

  /** The bias-corrected weighted mean. */
  ghost function Mean(ss: seq<Sample>, pow: real -> real): real {
    if Shares(ss, pow) > 0.0 then Quotient(WeightedSum(ss, pow), Shares(ss, pow)) else 0.0
  }

  /** Some sample, each weighing at least the half millisecond `push_sample` clamps to. */
  ghost predicate Accepted(ss: seq<Sample>) {
    ss != [] && forall i :: 0 <= i < |ss| ==> ss[i].weight >= MIN_WEIGHT && ss[i].rate > 0.0
  }

  lemma AcceptedHasShare(ss: seq<Sample>, pow: real -> real, half: real)
    requires IsDecay(pow, half) && (half == FAST_HALF_LIFE || half == SLOW_HALF_LIFE) && Accepted(ss)
    ensures Weighed(ss) && Weight(ss) > 0.0
    ensures Shares(ss, pow) == 1.0 - pow(Weight(ss)) > MIN_ZERO_FACTOR
  {
    WeightIsNonNegative(ss);
    assert ss[0].weight >= MIN_WEIGHT;
    SharesSum(ss, pow, half);
    ClampIdle(pow, half, Weight(ss));
  }

  /** The estimate read back is the weighted mean of every accepted sample. */
  lemma EstimateIsMean(e: Ewma, ss: seq<Sample>)
    requires e.Holds(ss) && (e.half == FAST_HALF_LIFE || e.half == SLOW_HALF_LIFE) && Accepted(ss)
    ensures e.GetEstimate() == Mean(ss, e.pow)
  {
    AcceptedHasShare(ss, e.pow, e.half);
  }

  /** A weighted mean lies between its smallest and its largest sample. */
  lemma MeanWithin(ss: seq<Sample>, pow: real -> real, half: real, lo: real, hi: real)
    requires IsDecay(pow, half) && (half == FAST_HALF_LIFE || half == SLOW_HALF_LIFE)
    requires Accepted(ss) && Within(ss, lo, hi)
    ensures lo <= Mean(ss, pow) <= hi
  {
    AcceptedHasShare(ss, pow, half);
    SumWithin(ss, pow, half, lo, hi);
    var sum, shares := WeightedSum(ss, pow), Shares(ss, pow);
    QuotientWithin(sum, shares, lo, hi);
  }

  lemma QuotientWithin(sum: real, shares: real, lo: real, hi: real)
    requires shares > 0.0 && Times(lo, shares) <= sum <= Times(hi, shares)
    ensures lo <= Quotient(sum, shares) <= hi
  {}

  // ---------------------------------------------------------------- the estimator

  datatype Source = Network | Cache

  const BITS_PER_BYTE_MS := 8000.0
  const CACHE_INITIAL_BPS := 100000000.0
  const MIN_CHUNK_BYTES := 16000
  const MIN_DURATION_MS := 0.5
  const MS_PER_SEC := 1000.0
  const U64_LIMIT: int := 0x1_0000_0000_0000_0000

  /** `round`, away from zero at a half, of a rate that is not negative. */
  function Round(x: real): int {
    (x + 0.5).Floor
  }

  /** `round().to_u64().or(Some(0))`: a rate past the width reads zero. */
  function Reading(x: real): (r: nat)
    requires x >= 0.0
    ensures r < U64_LIMIT
  {
    if Round(x) < U64_LIMIT then Round(x) else 0
  }

  /** The sample a network fetch of `bytes` in `seconds` adds. */
  function SampleOf(bytes: nat, seconds: real): (s: Sample)
    ensures s.weight >= MIN_WEIGHT
    ensures bytes > 0 ==> s.rate > 0.0
    ensures s.weight == if seconds * MS_PER_SEC >= MIN_DURATION_MS then seconds else MIN_WEIGHT
    ensures s.rate * s.weight == 8.0 * (bytes as real)
  {
    var durMs := Max(seconds * MS_PER_SEC, MIN_DURATION_MS);
    assert (bytes as real) * BITS_PER_BYTE_MS >= 0.0;
    Sample(durMs / MS_PER_SEC, (bytes as real) * BITS_PER_BYTE_MS / durMs)
  }

  class ThroughputEstimator {
    const fastEwma: Ewma
    const slowEwma: Ewma
    var initialBps: real
    var bytesSampled: nat
    ghost var samples: seq<Sample>  // every accepted sample, oldest first

    ghost predicate Valid()
      reads this, fastEwma, slowEwma
    {
      && fastEwma != slowEwma
      && fastEwma.half == FAST_HALF_LIFE && slowEwma.half == SLOW_HALF_LIFE
      && fastEwma.Holds(samples) && slowEwma.Holds(samples)
      && (samples != [] ==> Accepted(samples))
      && initialBps >= 0.0
    }

    constructor (fast: real -> real, slow: real -> real)
      requires IsDecay(fast, FAST_HALF_LIFE) && IsDecay(slow, SLOW_HALF_LIFE)
      ensures Valid() && fresh(fastEwma) && fresh(slowEwma)
      ensures samples == [] && initialBps == 0.0 && bytesSampled == 0
    {
      fastEwma := new Ewma(fast, FAST_HALF_LIFE);
      slowEwma := new Ewma(slow, SLOW_HALF_LIFE);
      initialBps, bytesSampled, samples := 0.0, 0, [];
    }

    method PushSample(bytes: nat, seconds: real, source: Source)
      requires Valid() && seconds >= 0.0
      modifies this, fastEwma, slowEwma
      ensures Valid()
      ensures samples == if source.Network? && bytes >= MIN_CHUNK_BYTES
                         then old(samples) + [SampleOf(bytes, seconds)] else old(samples)
      ensures initialBps == if source.Cache? then CACHE_INITIAL_BPS else old(initialBps)
      ensures bytesSampled == if |samples| == |old(samples)| then old(bytesSampled)
                              else if old(bytesSampled) + bytes < U64_LIMIT then old(bytesSampled) + bytes
                                else U64_LIMIT - 1
    {
      if source.Cache? {
        initialBps := CACHE_INITIAL_BPS;
        return;
      }
      if bytes < MIN_CHUNK_BYTES { return; }
      var sample := SampleOf(bytes, seconds);
      fastEwma.AddSample(sample.weight, sample.rate, samples);
      slowEwma.AddSample(sample.weight, sample.rate, samples);
      samples := samples + [sample];
      bytesSampled := if bytesSampled + bytes < U64_LIMIT then bytesSampled + bytes else U64_LIMIT - 1;
    }

    method SeedInitialBps(bps: nat)
      requires Valid()
      modifies this`initialBps
      ensures Valid() && initialBps == bps as real
    {
      initialBps := bps as real;
    }

    /** With samples the smaller of the two means, whatever was seeded; else the seed, if there is one. */
    method EstimateBps() returns (r: Option<nat>)
      requires Valid()
      ensures samples == [] ==> r == if initialBps > 0.0 then Some(Reading(initialBps)) else None
      ensures samples != [] ==>
        var est := Min(Mean(samples, fastEwma.pow), Mean(samples, slowEwma.pow));
        est > 0.0 && r == Some(Reading(est))
    {
      if samples != [] {
        EstimateIsMean(fastEwma, samples);
        EstimateIsMean(slowEwma, samples);
        SlowestSample(samples);
        var lo, hi :| lo > 0.0 && Within(samples, lo, hi);
        MeanWithin(samples, fastEwma.pow, fastEwma.half, lo, hi);
        MeanWithin(samples, slowEwma.pow, slowEwma.half, lo, hi);
      }
      var est := Min(fastEwma.GetEstimate(), slowEwma.GetEstimate());
      if est > 0.0 {
        r := Some(Reading(est));
      } else if initialBps > 0.0 {
        r := Some(Reading(initialBps));
      } else {
        r := None;
      }
    }
  }

  lemma {:induction false} SlowestSample(ss: seq<Sample>)
    requires Accepted(ss)
    ensures exists lo, hi :: lo > 0.0 && Within(ss, lo, hi)
  {
    if |ss| == 1 {
      assert Within(ss, ss[0].rate, ss[0].rate);
    } else {
      SlowestSample(ss[1..]);
      var lo, hi :| lo > 0.0 && Within(ss[1..], lo, hi);
      assert forall i :: 1 <= i < |ss| ==> ss[i] == ss[1..][i - 1];
      assert Within(ss, Min(lo, ss[0].rate), Max(hi, ss[0].rate));
    }
  }

  /** Rounding is to the nearest whole number. */
  lemma RoundIsNearest(x: real)
    ensures Round(x) as real - 0.5 <= x < Round(x) as real + 0.5
  {}

  lemma RoundMonotone(x: real, y: real)
    requires x <= y
    ensures Round(x) <= Round(y)
  {}

  /**
   What the estimator reads, if not zero, is no further out than its slowest and fastest sample; and it is
   not zero for want of width as long as the fastest rounds to something 64 bits hold.
   */
  lemma EstimateWithinSamples(ss: seq<Sample>, fast: real -> real, slow: real -> real, lo: real, hi: real)
    requires IsDecay(fast, FAST_HALF_LIFE) && IsDecay(slow, SLOW_HALF_LIFE)
    requires Accepted(ss) && Within(ss, lo, hi) && lo >= 0.0
    ensures var est := Min(Mean(ss, fast), Mean(ss, slow));
      est >= 0.0
      && (Reading(est) == 0 || Round(lo) <= Reading(est) <= Round(hi))
      && (Round(hi) < U64_LIMIT ==> Round(lo) <= Reading(est) <= Round(hi))
  {
    MeanWithin(ss, fast, FAST_HALF_LIFE, lo, hi);
    MeanWithin(ss, slow, SLOW_HALF_LIFE, lo, hi);
    var est := Min(Mean(ss, fast), Mean(ss, slow));
    RoundMonotone(lo, est);
    RoundMonotone(est, hi);
  }

  /** If even the slowest sample rounds to more than 64 bits hold, the reading is zero. */
  lemma HugeRatesReadZero(ss: seq<Sample>, fast: real -> real, slow: real -> real, lo: real, hi: real)
    requires IsDecay(fast, FAST_HALF_LIFE) && IsDecay(slow, SLOW_HALF_LIFE)
    requires Accepted(ss) && Within(ss, lo, hi) && lo >= 0.0
    requires Round(lo) >= U64_LIMIT
    ensures var est := Min(Mean(ss, fast), Mean(ss, slow));
      est >= 0.0 && Reading(est) == 0
  {
    MeanWithin(ss, fast, FAST_HALF_LIFE, lo, hi);
    MeanWithin(ss, slow, SLOW_HALF_LIFE, lo, hi);
    RoundMonotone(lo, Min(Mean(ss, fast), Mean(ss, slow)));
  }

  /** Samples of one rate read as that rate, and as zero exactly when it rounds to zero or past 64 bits. */
  lemma EqualRatesRead(ss: seq<Sample>, fast: real -> real, slow: real -> real, rate: real)
    requires IsDecay(fast, FAST_HALF_LIFE) && IsDecay(slow, SLOW_HALF_LIFE)
    requires Accepted(ss) && Within(ss, rate, rate) && rate >= 0.0
    ensures var est := Min(Mean(ss, fast), Mean(ss, slow));
      est == rate && (Reading(est) == 0 <==> Round(rate) == 0 || Round(rate) >= U64_LIMIT)
      && (Reading(est) == Round(rate) <==> Round(rate) < U64_LIMIT)
  {
    MeanWithin(ss, fast, FAST_HALF_LIFE, rate, rate);
    MeanWithin(ss, slow, SLOW_HALF_LIFE, rate, rate);
  }

  /** Such a rate can be pushed: every byte a `u64` counts, fetched at once, reads as no throughput. */
  lemma HugeRateReadsZero(fast: real -> real, slow: real -> real)
    requires IsDecay(fast, FAST_HALF_LIFE) && IsDecay(slow, SLOW_HALF_LIFE)
    ensures var ss := [SampleOf(U64_LIMIT - 1, 0.0)];
      ss[0].rate > 0.0 && Min(Mean(ss, fast), Mean(ss, slow)) >= 0.0
        && Reading(Min(Mean(ss, fast), Mean(ss, slow))) == 0
  {
    var s := SampleOf(U64_LIMIT - 1, 0.0);
    assert Within([s], s.rate, s.rate) && Accepted([s]);
    HugeRatesReadZero([s], fast, slow, s.rate, s.rate);
  }
}
