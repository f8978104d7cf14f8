/** The latency histogram (`crates/core/src/metrics.rs`). Latencies are reals. */
module Metrics {

  const U64_LIMIT: nat := 0x1_0000_0000_0000_0000

  // ---------------------------------------------------------------- counting samples

  function Count(samples: seq<real>, p: real -> bool): nat {
    var k := |samples|;
    if k == 0 then 0 else (if p(samples[k - 1]) then 1 else 0) + Count(samples[..k - 1], p)
  }

  /** The first bucket whose upper bound is not below `x`; past the last bucket when there is none. */
  function BucketOf(buckets: seq<real>, x: real): (b: nat)
    ensures b <= |buckets| && (b < |buckets| ==> x <= buckets[b])
    ensures forall i :: 0 <= i < b ==> buckets[i] < x
  {
    if buckets == [] || x <= buckets[0] then 0 else 1 + BucketOf(buckets[1..], x)
  }

  function InBucket(buckets: seq<real>, samples: seq<real>, i: nat): nat {
    Count(samples, x => BucketOf(buckets, x) == i)
  }

  function BeforeBucket(buckets: seq<real>, samples: seq<real>, i: nat): nat {
    Count(samples, x => BucketOf(buckets, x) < i)
  }

  function Below(samples: seq<real>, v: real): nat { Count(samples, x => x < v) }

  function AtMost(samples: seq<real>, v: real): nat { Count(samples, x => x <= v) }

  /** `v` is the `rank`-th smallest sample. */
  predicate HasRank(samples: seq<real>, rank: nat, v: real) {
    v in samples && Below(samples, v) < rank <= AtMost(samples, v)
  }

  predicate Ascending(buckets: seq<real>) {
    forall i, j :: 0 <= i <= j < |buckets| ==> buckets[i] <= buckets[j]
  }

  lemma {:induction false} CountMonotone(samples: seq<real>, p: real -> bool, q: real -> bool)
    requires forall x <- samples :: p(x) ==> q(x)
    ensures Count(samples, p) <= Count(samples, q)
  {
    var k := |samples|;
    if k > 0 {
      var x := samples[k - 1];
      assert x in samples && (p(x) ==> q(x));
      CountMonotone(samples[..k - 1], p, q);
    }
  }

  lemma {:induction false} CountSplit(samples: seq<real>, p: real -> bool, q: real -> bool, either: real -> bool)
    requires forall x <- samples :: either(x) == (p(x) || q(x)) && !(p(x) && q(x))
    ensures Count(samples, either) == Count(samples, p) + Count(samples, q)
  {
    var k := |samples|;
    if k > 0 {
      var x := samples[k - 1];
      assert x in samples && either(x) == (p(x) || q(x));
      CountSplit(samples[..k - 1], p, q, either);
    }
  }

  lemma CountMember(samples: seq<real>, p: real -> bool, v: real)
    requires v in samples && p(v)
    ensures Count(samples, p) > 0
  {
    var k := |samples|;
    if samples[k - 1] != v { CountMember(samples[..k - 1], p, v); }
  }

  lemma BeforeBucketStep(buckets: seq<real>, samples: seq<real>, i: nat)
    ensures BeforeBucket(buckets, samples, i + 1) == BeforeBucket(buckets, samples, i) + InBucket(buckets, samples, i)
  {
    CountSplit(samples, x => BucketOf(buckets, x) < i, x => BucketOf(buckets, x) == i,
        x => BucketOf(buckets, x) < i + 1);
  }

  lemma NothingBeforeFirst(buckets: seq<real>, samples: seq<real>)
    ensures BeforeBucket(buckets, samples, 0) == 0
  {
    CountMonotone(samples, x => BucketOf(buckets, x) < 0, x => false);
    CountNone(samples);
  }

  lemma CountNone(samples: seq<real>)
    ensures Count(samples, x => false) == 0
  {
    var k := |samples|;
    if k > 0 { CountNone(samples[..k - 1]); }
  }

  // ---------------------------------------------------------------- ranks

  lemma RankUnique(samples: seq<real>, rank: nat, v: real, w: real)
    requires HasRank(samples, rank, v) && HasRank(samples, rank, w)
    ensures v == w
  {
    if v < w {
      CountMonotone(samples, x => x <= v, x => x < w);
    } else if w < v {
      CountMonotone(samples, x => x <= w, x => x < v);
    }
  }

  /** Index of a largest sample. */
  lemma Largest(samples: seq<real>) returns (k: nat)
    requires samples != []
    ensures k < |samples| && forall x <- samples :: x <= samples[k]
  {
    var n := |samples|;
    k := n - 1;
    assert samples == samples[..k] + [samples[k]];
    if n > 1 {
      var rest := Largest(samples[..n - 1]);
      if samples[rest] > samples[k] { k := rest; }
    }
  }

  function Drop(samples: seq<real>, k: nat): seq<real>
    requires k < |samples|
  {
    samples[..k] + samples[k + 1..]
  }

  lemma CountSnoc(samples: seq<real>, x: real, p: real -> bool)
    ensures Count(samples + [x], p) == Count(samples, p) + if p(x) then 1 else 0
  {
    assert (samples + [x])[..|samples|] == samples;
  }

  lemma CountDrop(samples: seq<real>, k: nat, p: real -> bool)
    requires k < |samples|
    ensures Count(samples, p) == Count(Drop(samples, k), p) + if p(samples[k]) then 1 else 0
  {
    hide Count;
    var before, last := samples[..|samples| - 1], samples[|samples| - 1];
    assert samples == before + [last];
    CountSnoc(before, last, p);
    if k == |before| {
      assert Drop(samples, k) == before;
    } else {
      assert before[k] == samples[k];
      CountDrop(before, k, p);
      DropSnoc(before, last, k);
      CountSnoc(Drop(before, k), last, p);
    }
  }

  lemma DropSnoc(before: seq<real>, last: real, k: nat)
    requires k < |before|
    ensures Drop(before + [last], k) == Drop(before, k) + [last]
  {
  }

  /** Every rank from 1 to the number of samples is somebody's. */
  lemma {:induction false} RankExists(samples: seq<real>, rank: nat) returns (v: real)
    requires 1 <= rank <= |samples|
    ensures HasRank(samples, rank, v)
    decreases |samples|
  {
    var k := Largest(samples);
    var top, rest := samples[k], Drop(samples, k);
    if rank == |samples| {
      v := top;
      CountDrop(samples, k, x => x < v);
      CountMonotone(samples, x => true, x => x <= v);
      CountAll(samples);
      CountBound(rest, x => x < v);
    } else {
      v := RankExists(rest, rank);
      CountDrop(samples, k, x => x < v);
      CountDrop(samples, k, x => x <= v);
    }
  }

  lemma CountBound(samples: seq<real>, p: real -> bool)
    ensures Count(samples, p) <= |samples|
  {
    var k := |samples|;
    if k > 0 { CountBound(samples[..k - 1], p); }
  }

  lemma CountAll(samples: seq<real>)
    ensures Count(samples, x => true) == |samples|
  {
    var k := |samples|;
    if k > 0 { CountAll(samples[..k - 1]); }
  }

  /** The buckets before the one of the `rank`-th sample hold fewer than `rank` samples; with it they hold enough. */
  lemma RankInBucket(buckets: seq<real>, samples: seq<real>, rank: nat, v: real)
    requires Ascending(buckets) && HasRank(samples, rank, v)
    ensures var b := BucketOf(buckets, v);
            BeforeBucket(buckets, samples, b) < rank <= BeforeBucket(buckets, samples, b + 1)
  {
    hide BucketOf, Count;
    var b := BucketOf(buckets, v);
    forall x | x in samples ensures (BucketOf(buckets, x) < b ==> x < v) && (x <= v ==> BucketOf(buckets, x) < b + 1) {
      if x <= v { BucketMonotone(buckets, x, v); } else { BucketMonotone(buckets, v, x); }
    }
    CountMonotone(samples, x => BucketOf(buckets, x) < b, x => x < v);
    CountMonotone(samples, x => x <= v, x => BucketOf(buckets, x) < b + 1);
  }

  lemma BucketMonotone(buckets: seq<real>, x: real, y: real)
    requires x <= y
    ensures BucketOf(buckets, x) <= BucketOf(buckets, y)
  {
  }

  // ---------------------------------------------------------------- the estimate

  /** `ceil(0.95 * total)`. */
  function Target(total: nat): nat
  {
    var scaled := total as real * 0.95;
    if scaled.Floor as real == scaled then scaled.Floor else scaled.Floor + 1
  }

  lemma TargetIsNearestRank(total: nat)
    ensures 20 * Target(total) >= 19 * total && (Target(total) == 0 <==> total == 0)
    ensures Target(total) > 0 ==> 20 * (Target(total) - 1) < 19 * total
    ensures Target(total) <= total
  {
    var scaled := total as real * 0.95;
    assert 20.0 * scaled == 19.0 * total as real;
    assert 20.0 * Target(total) as real >= 19.0 * total as real;
    assert Target(total) > 0 ==> 20.0 * (Target(total) - 1) as real < 19.0 * total as real;
  }

  function LowerBound(buckets: seq<real>, i: nat): real
    requires i < |buckets|
  {
    if i == 0 then 0.0 else buckets[i - 1]
  }

  function LastBound(buckets: seq<real>): real {
    if buckets == [] then 0.0 else buckets[|buckets| - 1]
  }

  /** The walk over the buckets from bucket `i`, `cum` samples behind it. */
  function Walk(buckets: seq<real>, counts: seq<nat>, target: nat, i: nat, cum: nat): real
    requires i <= |buckets| == |counts| && cum < target
    decreases |buckets| - i
  {
    if i == |buckets| then LastBound(buckets)
    else if cum + counts[i] >= target then Interpolate(buckets, i, counts[i], target - cum)
    else Walk(buckets, counts, target, i + 1, cum + counts[i])
  }

  function Interpolate(buckets: seq<real>, i: nat, bucketCount: nat, rankInBucket: nat): real
    requires i < |buckets| && 1 <= rankInBucket <= bucketCount
  {
    var lower, upper := LowerBound(buckets, i), buckets[i];
    lower + Part(upper - lower, rankInBucket as real / bucketCount as real)
  }

  function Part(width: real, frac: real): real { width * frac }

  function P95(buckets: seq<real>, counts: seq<nat>, total: nat): real
    requires |buckets| == |counts|
  {
    if total == 0 then 0.0
    else
      TargetIsNearestRank(total);
      Walk(buckets, counts, Target(total), 0, 0)
  }

  function SaturateU64(x: real): nat {
    if x <= 0.0 then 0 else if x.Floor >= U64_LIMIT then U64_LIMIT - 1 else x.Floor
  }

  function TotalMicros(samples: seq<real>): nat {
    var k := |samples|;
    if k == 0 then 0 else TotalMicros(samples[..k - 1]) + SaturateU64(samples[k - 1] * 1000.0)
  }

  function Clamp(latency: real): real { if latency < 0.0 then 0.0 else latency }

  /** Negative latencies add nothing to the sum. */
  lemma MicrosSnoc(samples: seq<real>, latency: real)
    ensures TotalMicros(samples + [Clamp(latency)]) == TotalMicros(samples) + SaturateU64(latency * 1000.0)
  {
    assert (samples + [Clamp(latency)])[..|samples|] == samples;
  }

  class Histogram {
    const buckets: seq<real>
    const counts: array<nat>
    var count: nat
    var sumUs: nat
    /** Every latency observed, negative ones as zero. */
    ghost var samples: seq<real>

    ghost predicate Valid()
      reads this, counts
    {
      && counts.Length == |buckets|
      && (forall i: nat :: i < counts.Length ==> counts[i] == InBucket(buckets, samples, i))
      && count == |samples|
      && sumUs == TotalMicros(samples) % U64_LIMIT
      && forall x <- samples :: x >= 0.0
    }

    constructor (buckets: seq<real>)
      ensures Valid() && fresh(counts) && samples == [] && this.buckets == buckets
    {
      this.buckets := buckets;
      counts := new nat[|buckets|](i => 0);
      count, sumUs, samples := 0, 0, [];
    }

    /** `observe_ms`. */
    method ObserveMs(latency: real)
      requires Valid()
      modifies this, counts
      ensures Valid() && samples == old(samples) + [Clamp(latency)]
    {
      hide Count, SaturateU64, TotalMicros;
      var bucket := Clamp(latency);
      ghost var was := counts[..];
      var i := 0;
      while i < |buckets|
        invariant i <= BucketOf(buckets, bucket)
        invariant counts[..] == was
      {
        if bucket <= buckets[i] {
          counts[i] := counts[i] + 1;
          break;
        }
        i := i + 1;
      }
      assert i == BucketOf(buckets, bucket);
      count := count + 1;
      var us := SaturateU64(latency * 1000.0);
      sumUs := (sumUs + us) % U64_LIMIT;
      samples := samples + [bucket];
      forall k: nat | k < |buckets| ensures InBucket(buckets, samples, k) == was[k] + if k == i then 1 else 0 {
        CountSnoc(old(samples), bucket, x => BucketOf(buckets, x) == k);
      }
      MicrosSnoc(old(samples), latency);
    }

    /** `p95_ms`. */
    method P95Ms() returns (estimate: real)
      requires Valid()
      ensures estimate == P95(buckets, counts[..], count)
    {
      hide InBucket, Count, TotalMicros, Target, Part;
      var total := count;
      if total == 0 {
        return 0.0;
      }
      TargetIsNearestRank(total);
      var target := Target(total);
      var cum: nat := 0;
      for i := 0 to |buckets|
        invariant cum < target
        invariant Walk(buckets, counts[..], target, 0, 0) == Walk(buckets, counts[..], target, i, cum)
      {
        var bucketCount := counts[i];
        cum := cum + bucketCount;
        if cum >= target {
          var lower := if i == 0 then 0.0 else buckets[i - 1];
          if bucketCount == 0 {
            assert false;  // the source returns the upper bound here
          }
          var rankInBucket := target - (cum - bucketCount);
          var frac := rankInBucket as real / bucketCount as real;
          return lower + Part(buckets[i] - lower, frac);
        }
      }
      return LastBound(buckets);
    }

    /** The `_bucket` lines of `render_histogram`, without the `+Inf` line: each carries the number of samples up to its
        bound. */
    method RenderBuckets() returns (lines: seq<(real, nat)>)
      requires Valid() && Ascending(buckets)
      ensures |lines| == |buckets|
      ensures forall i :: 0 <= i < |lines| ==> lines[i] == (buckets[i], AtMost(samples, buckets[i]))
    {
      hide InBucket, BeforeBucket, AtMost, TotalMicros;
      lines := [];
      var cum := 0;
      NothingBeforeFirst(buckets, samples);
      for i := 0 to |buckets|
        invariant |lines| == i && cum == BeforeBucket(buckets, samples, i)
        invariant forall k :: 0 <= k < i ==> lines[k] == (buckets[k], AtMost(samples, buckets[k]))
      {
        BeforeBucketStep(buckets, samples, i);
        UpToBound(buckets, samples, i);
        cum := cum + counts[i];
        lines := lines + [(buckets[i], cum)];
      }
    }
  }

  /** With ascending bounds, the samples in the first `i + 1` buckets are those up to bound `i`. */
  lemma UpToBound(buckets: seq<real>, samples: seq<real>, i: nat)
    requires Ascending(buckets) && i < |buckets|
    ensures BeforeBucket(buckets, samples, i + 1) == AtMost(samples, buckets[i])
  {
    forall x ensures BucketOf(buckets, x) < i + 1 <==> x <= buckets[i] {
      var b := BucketOf(buckets, x);
      assert b <= i ==> buckets[b] <= buckets[i];
    }
    CountMonotone(samples, x => BucketOf(buckets, x) < i + 1, x => x <= buckets[i]);
    CountMonotone(samples, x => x <= buckets[i], x => BucketOf(buckets, x) < i + 1);
  }

  predicate CountsOf(buckets: seq<real>, counts: seq<nat>, samples: seq<real>) {
    |counts| == |buckets| && forall i: nat :: i < |counts| ==> counts[i] == InBucket(buckets, samples, i)
  }

  /** The walk stops in the bucket of the wanted sample, which is never empty. */
  lemma {:induction false} WalkFindsBucket(buckets: seq<real>, counts: seq<nat>, samples: seq<real>, target: nat,
                                           v: real, i: nat)
    requires CountsOf(buckets, counts, samples) && Ascending(buckets) && HasRank(samples, target, v)
    requires i <= BucketOf(buckets, v) && BeforeBucket(buckets, samples, i) < target
    ensures var b := BucketOf(buckets, v);
            var rank := target - BeforeBucket(buckets, samples, b);
            && (b < |buckets| ==> 1 <= rank <= counts[b])
            && Walk(buckets, counts, target, i, BeforeBucket(buckets, samples, i))
               == if b == |buckets| then LastBound(buckets) else Interpolate(buckets, b, counts[b], rank)
    decreases |buckets| - i
  {
    RankInBucket(buckets, samples, target, v);
    if i < |buckets| {
      BeforeBucketStep(buckets, samples, i);
      if i < BucketOf(buckets, v) {
        BeforeBucketMonotone(buckets, samples, i + 1, BucketOf(buckets, v));
        WalkFindsBucket(buckets, counts, samples, target, v, i + 1);
      }
    }
  }

  lemma BeforeBucketMonotone(buckets: seq<real>, samples: seq<real>, i: nat, j: nat)
    requires i <= j
    ensures BeforeBucket(buckets, samples, i) <= BeforeBucket(buckets, samples, j)
  {
    CountMonotone(samples, x => BucketOf(buckets, x) < i, x => BucketOf(buckets, x) < j);
  }

  /** Interpolation inside bucket `b` stays inside bucket `b`. */
  lemma InterpolationStays(buckets: seq<real>, b: nat, bucketCount: nat, rankInBucket: nat, v: real)
    requires Ascending(buckets) && b < |buckets| && b == BucketOf(buckets, v) && v >= 0.0
    requires 1 <= rankInBucket <= bucketCount
    ensures BucketOf(buckets, Interpolate(buckets, b, bucketCount, rankInBucket)) == b
  {
    hide BucketOf;
    var lower, width := LowerBound(buckets, b), buckets[b] - LowerBound(buckets, b);
    FractionOfCount(rankInBucket, bucketCount);
    var part := Part(width, rankInBucket as real / bucketCount as real);
    PartStays(width, rankInBucket as real / bucketCount as real);
    hide Part;
    assert forall i :: 0 <= i < b ==> buckets[i] <= buckets[b - 1];
    BucketIs(buckets, lower + part, b);
  }

  lemma PartStays(width: real, frac: real)
    requires 0.0 < frac <= 1.0 && width >= 0.0
    ensures 0.0 <= Part(width, frac) <= width && (width > 0.0 ==> Part(width, frac) > 0.0)
  {
  }

  lemma FractionOfCount(part: nat, whole: nat)
    requires 1 <= part <= whole
    ensures 0.0 < part as real / whole as real <= 1.0
  {
  }

  lemma BucketIs(buckets: seq<real>, x: real, b: nat)
    requires b < |buckets| && x <= buckets[b] && forall i :: 0 <= i < b ==> buckets[i] < x
    ensures BucketOf(buckets, x) == b
  {
  }

  /** The estimate lies in the bucket of the true nearest-rank 95th percentile; past the last bucket it is the
      last bound, which the true value exceeds. */
  lemma P95InBucketOfTruth(buckets: seq<real>, counts: seq<nat>, samples: seq<real>, v: real)
    requires CountsOf(buckets, counts, samples) && Ascending(buckets) && forall x <- samples :: x >= 0.0
    requires HasRank(samples, Target(|samples|), v)
    ensures var b := BucketOf(buckets, v);
            var estimate := P95(buckets, counts, |samples|);
            if b < |buckets| then counts[b] > 0 && BucketOf(buckets, estimate) == b
            else estimate == LastBound(buckets) && estimate <= v && (buckets != [] ==> estimate < v)
  {
    hide Walk, Interpolate, InBucket, BeforeBucket, Below, AtMost, BucketOf, Target;
    var b, target := BucketOf(buckets, v), Target(|samples|);
    TargetIsNearestRank(|samples|);
    NothingBeforeFirst(buckets, samples);
    RankInBucket(buckets, samples, target, v);
    WalkFindsBucket(buckets, counts, samples, target, v, 0);
    BeforeBucketStep(buckets, samples, b);
    if b < |buckets| {
      InterpolationStays(buckets, b, counts[b], target - BeforeBucket(buckets, samples, b), v);
    }
  }

  lemma PartOfCount(width: real, part: nat, whole: nat)
    requires 1 <= part <= whole
    ensures Part(width, part as real / whole as real) * whole as real == width * part as real
  {
    var p, w := part as real, whole as real;
    assert p / w * w == p;
    assert width * (p / w) * w == width * (p / w * w);
  }

  lemma SomeSamples(samples: seq<real>, rank: nat, v: real)
    requires HasRank(samples, rank, v)
    ensures samples != [] && rank > 0
  {
  }

  /** The estimate divides its bucket in the proportion in which the wanted rank divides the samples of the bucket. */
  lemma P95DividesBucket(buckets: seq<real>, counts: seq<nat>, samples: seq<real>, v: real)
    requires CountsOf(buckets, counts, samples) && Ascending(buckets) && HasRank(samples, Target(|samples|), v)
    requires BucketOf(buckets, v) < |buckets| == |counts|
    ensures var b := BucketOf(buckets, v);
            var lower := if b == 0 then 0.0 else buckets[b - 1];
            var rank := Target(|samples|) - BeforeBucket(buckets, samples, b);
            (P95(buckets, counts, |samples|) - lower) * counts[b] as real == (buckets[b] - lower) * rank as real
  {
    hide Walk, InBucket, BeforeBucket, HasRank, BucketOf, Target, Part, CountsOf, Ascending;
    var b, target := BucketOf(buckets, v), Target(|samples|);
    TargetIsNearestRank(|samples|);
    NothingBeforeFirst(buckets, samples);
    SomeSamples(samples, target, v);
    WalkFindsBucket(buckets, counts, samples, target, v, 0);
    PartOfCount(buckets[b] - LowerBound(buckets, b), target - BeforeBucket(buckets, samples, b), counts[b]);
  }

  function Sum(samples: seq<real>): real {
    var k := |samples|;
    if k == 0 then 0.0 else Sum(samples[..k - 1]) + samples[k - 1]
  }

  predicate InU64(x: real) { 0.0 <= x * 1000.0 < U64_LIMIT as real }

  lemma RoundedDown(x: real)
    requires InU64(x)
    ensures 0.0 <= x * 1000.0 - SaturateU64(x * 1000.0) as real <= 1.0
  {
  }

  /** The recorded total is the sum in microseconds, each sample rounded down, as long as none is out of range. */
  lemma {:induction false} TotalIsSum(samples: seq<real>)
    requires forall x <- samples :: InU64(x)
    ensures 0.0 <= Sum(samples) * 1000.0 - TotalMicros(samples) as real <= |samples| as real
  {
    var k := |samples|;
    if k > 0 {
      var before, x := samples[..k - 1], samples[k - 1];
      assert x in samples && forall y <- before :: y in samples;
      TotalIsSum(before);
      RoundedDown(x);
    }
  }

  /** For every history that is not empty there is such a sample, and only one. */
  lemma P95TruthExists(samples: seq<real>) returns (v: real)
    requires samples != []
    ensures HasRank(samples, Target(|samples|), v)
    ensures forall w :: HasRank(samples, Target(|samples|), w) ==> w == v
  {
    TargetIsNearestRank(|samples|);
    v := RankExists(samples, Target(|samples|));
    forall w | HasRank(samples, Target(|samples|), w) ensures w == v {
      RankUnique(samples, Target(|samples|), v, w);
    }
  }
}
