/**
  Latency percentiles of the workload simulator by linear interpolation between order statistics,
  the summaries built from them, and the SLO verdict. Exact real arithmetic.
 */
module WorkloadPercentile {
  import opened Wrappers
  import opened Numbers

  datatype PercentileError = PercentOutOfRange

  // ---------------------------------------------------------------- sorting

  function Insert(x: real, s: seq<real>): seq<real> {
    if s == [] then [x] else if x <= s[0] then [x] + s else [s[0]] + Insert(x, s[1..])
  }

  /** `sorted(values)`. */
  function Sort(values: seq<real>): seq<real> {
    if values == [] then [] else Insert(values[0], Sort(values[1..]))
  }

  ghost predicate Sorted(s: seq<real>) {
    forall i, j | 0 <= i <= j < |s| :: s[i] <= s[j]
  }

  /** Pointwise order of equally long lists. */
  ghost predicate Below(s: seq<real>, t: seq<real>) {
    |s| == |t| && forall i | 0 <= i < |s| :: s[i] <= t[i]
  }

  lemma {:induction false} InsertMembers(x: real, s: seq<real>)
    ensures multiset(Insert(x, s)) == multiset(s) + multiset{x} && |Insert(x, s)| == |s| + 1
  {
    if s != [] && x > s[0] {
      InsertMembers(x, s[1..]);
      assert s == [s[0]] + s[1..];
    }
  }

  lemma {:induction false} InsertSorts(x: real, s: seq<real>)
    requires Sorted(s)
    ensures Sorted(Insert(x, s)) && |Insert(x, s)| == |s| + 1
    ensures Insert(x, s)[0] == if s == [] || x <= s[0] then x else s[0]
  {
    if s != [] && x > s[0] {
      InsertSorts(x, s[1..]);
      HeadBelow(s[0], Insert(x, s[1..]));
    } else {
      HeadBelow(x, s);
    }
  }

  lemma HeadBelow(x: real, s: seq<real>)
    requires Sorted(s) && (s == [] || x <= s[0])
    ensures Sorted([x] + s)
  {}

  lemma HeadMember(values: seq<real>)
    requires values != []
    ensures multiset(values) == multiset(values[1..]) + multiset{values[0]}
  {
    assert values == [values[0]] + values[1..];
  }

  lemma {:induction false} SortMembers(values: seq<real>)
    ensures multiset(Sort(values)) == multiset(values) && |Sort(values)| == |values|
  {
    if values == [] {
    } else {
      SortMembers(values[1..]);
      InsertMembers(values[0], Sort(values[1..]));
      HeadMember(values);
    }
  }

  lemma {:induction false} SortSorts(values: seq<real>)
    ensures Sorted(Sort(values)) && |Sort(values)| == |values|
  {
    if values == [] {
    } else {
      SortSorts(values[1..]);
      InsertSorts(values[0], Sort(values[1..]));
    }
  }

  lemma LeastFirst(s: seq<real>, t: seq<real>)
    requires Sorted(s) && Sorted(t) && s != [] && multiset(s) == multiset(t)
    ensures t != [] && s[0] >= t[0] && multiset(s[1..]) == multiset(s) - multiset{s[0]}
  {
    assert s[0] in multiset(t);
    assert s[0] in t;
    assert s == [s[0]] + s[1..];
  }

  /** A sorted list is determined by its elements. */
  lemma {:induction false} SortedUnique(s: seq<real>, t: seq<real>)
    requires Sorted(s) && Sorted(t) && multiset(s) == multiset(t)
    ensures s == t
  {
    if s == [] {
      assert |t| == |multiset(t)|;
    } else {
      LeastFirst(s, t);
      LeastFirst(t, s);
      SortedUnique(s[1..], t[1..]);
      assert s == [s[0]] + s[1..] && t == [t[0]] + t[1..];
    }
  }

  /** The head of a sorted list can be inserted back. */
  lemma InsertHead(s: seq<real>)
    requires Sorted(s) && s != []
    ensures Sorted(s[1..]) && Insert(s[0], s[1..]) == s
  {}

  lemma {:induction false} InsertMonotone(x: real, s: seq<real>, y: real, t: seq<real>)
    requires x <= y && Below(s, t) && Sorted(s) && Sorted(t)
    ensures Below(Insert(x, s), Insert(y, t))
    decreases |s|
  {
    if s == [] {
    } else {
      InsertHead(s);
      InsertHead(t);
      if x > s[0] && y > t[0] {
        InsertMonotone(x, s[1..], y, t[1..]);
      } else if x > s[0] {
        InsertMonotone(x, s[1..], t[0], t[1..]);
      } else if y > t[0] {
        InsertMonotone(s[0], s[1..], y, t[1..]);
      }
    }
  }

  lemma {:induction false} SortMonotone(xs: seq<real>, ys: seq<real>)
    requires Below(xs, ys)
    ensures Below(Sort(xs), Sort(ys))
  {
    if xs == [] {
    } else {
      SortMonotone(xs[1..], ys[1..]);
      SortSorts(xs[1..]);
      SortSorts(ys[1..]);
      InsertMonotone(xs[0], Sort(xs[1..]), ys[0], Sort(ys[1..]));
    }
  }

  // ---------------------------------------------------------------- interpolation

  function Blend(x: real, y: real, weight: real): real { x * (1.0 - weight) + y * weight }

  /** The value at a fractional rank of a sorted list. */
  function AtRank(ordered: seq<real>, rank: real): real
    requires 0.0 <= rank <= (|ordered| - 1) as real
  {
    var lower := rank.Floor;
    if lower as real == rank then ordered[lower]
    else Blend(ordered[lower], ordered[lower + 1], rank - lower as real)
  }

  function RankOf(percent: real, n: nat): real { percent / 100.0 * (n - 1) as real }

  lemma RankInRange(percent: real, n: nat)
    requires 0.0 <= percent <= 100.0 && n > 0
    ensures 0.0 <= RankOf(percent, n) <= (n - 1) as real
  {
    var w := percent / 100.0;
    var m := (n - 1) as real;
    assert 0.0 <= w <= 1.0;
    Product(w, m);
    Product(1.0 - w, m);
    assert (1.0 - w) * m == m - w * m;
  }

  /** `percentile`. */
  function Percentile(values: seq<real>, percent: real): (r: Result<real, PercentileError>)
    ensures r.Err? <==> values != [] && (percent < 0.0 || percent > 100.0)
  {
    if values == [] then Ok(0.0)
    else if !(0.0 <= percent <= 100.0) then Err(PercentOutOfRange)
    else
      SortSorts(values);
      RankInRange(percent, |values|);
      var ordered := Sort(values);
      if percent == 100.0 then Ok(ordered[|ordered| - 1])
      else Ok(AtRank(ordered, RankOf(percent, |ordered|)))
  }

  lemma BlendBetween(x: real, y: real, weight: real)
    requires x <= y && 0.0 <= weight <= 1.0
    ensures x <= Blend(x, y, weight) <= y
  {
    assert Blend(x, y, weight) == x + (y - x) * weight == y - (y - x) * (1.0 - weight);
    Product(y - x, weight);
    Product(y - x, 1.0 - weight);
  }

  lemma BlendMonotone(x: real, y: real, x': real, y': real, v: real, w: real)
    requires x <= y && x <= x' && y <= y' && 0.0 <= v <= w <= 1.0
    ensures Blend(x, y, v) <= Blend(x', y', w)
  {
    assert Blend(x, y, w) - Blend(x, y, v) == (y - x) * (w - v);
    Product(y - x, w - v);
    Product(x' - x, 1.0 - w);
    Product(y' - y, w);
    assert Blend(x', y', w) - Blend(x, y, w) == (x' - x) * (1.0 - w) + (y' - y) * w;
  }

  /** A fractional rank lies between its neighbouring order statistics. */
  lemma AtRankBetween(ordered: seq<real>, rank: real)
    requires Sorted(ordered) && 0.0 <= rank <= (|ordered| - 1) as real
    ensures ordered[rank.Floor] <= AtRank(ordered, rank)
    ensures rank.Floor + 1 < |ordered| ==> AtRank(ordered, rank) <= ordered[rank.Floor + 1]
    ensures rank == rank.Floor as real ==> AtRank(ordered, rank) == ordered[rank.Floor]
  {
    var lower := rank.Floor;
    if lower as real != rank {
      BlendBetween(ordered[lower], ordered[lower + 1], rank - lower as real);
    }
  }

  lemma AtRankMonotone(s: seq<real>, t: seq<real>, a: real, b: real)
    requires Sorted(s) && Sorted(t) && Below(s, t) && 0.0 <= a <= b <= (|s| - 1) as real
    ensures AtRank(s, a) <= AtRank(t, b)
  {
    var lower := a.Floor;
    AtRankBetween(s, a);
    AtRankBetween(t, b);
    if lower < b.Floor {
      assert AtRank(s, a) <= s[lower + 1] <= t[lower + 1] <= t[b.Floor];
    } else if lower as real != b {
      assert AtRank(s, a) == Blend(s[lower], s[lower + 1], a - lower as real);
      BlendMonotone(s[lower], s[lower + 1], t[lower], t[lower + 1], a - lower as real, b - lower as real);
    }
  }

  lemma RankMonotone(p: real, q: real, n: nat)
    requires 0.0 <= p <= q <= 100.0 && n > 0
    ensures RankOf(p, n) <= RankOf(q, n)
  {}

  /** The special case for 100 agrees with the interpolation. */
  lemma PercentileIsAtRank(values: seq<real>, percent: real)
    requires values != [] && 0.0 <= percent <= 100.0
    ensures |Sort(values)| == |values| && 0.0 <= RankOf(percent, |values|) <= (|values| - 1) as real
    ensures Percentile(values, percent) == Ok(AtRank(Sort(values), RankOf(percent, |values|)))
  {
    SortSorts(values);
    RankInRange(percent, |values|);
    if percent == 100.0 {
      FullRank(Sort(values));
    }
  }

  lemma FullRank(ordered: seq<real>)
    requires ordered != []
    ensures RankOf(100.0, |ordered|) == (|ordered| - 1) as real
    ensures AtRank(ordered, (|ordered| - 1) as real) == ordered[|ordered| - 1]
  {}

  // ---------------------------------------------------------------- laws of the percentile

  /** Larger percents and pointwise larger samples give larger percentiles. */
  lemma PercentileMonotone(xs: seq<real>, ys: seq<real>, p: real, q: real)
    requires Below(xs, ys) && 0.0 <= p <= q <= 100.0
    ensures Percentile(xs, p).value <= Percentile(ys, q).value
  {
    if xs != [] {
      PercentileIsAtRank(xs, p);
      PercentileIsAtRank(ys, q);
      SortSorts(xs);
      SortSorts(ys);
      SortMonotone(xs, ys);
      RankMonotone(p, q, |xs|);
      AtRankMonotone(Sort(xs), Sort(ys), RankOf(p, |xs|), RankOf(q, |xs|));
    }
  }

  /** The order of the samples does not matter. */
  lemma PercentileIgnoresOrder(xs: seq<real>, ys: seq<real>, percent: real)
    requires multiset(xs) == multiset(ys)
    ensures Percentile(xs, percent) == Percentile(ys, percent)
  {
    SortSorts(xs);
    SortSorts(ys);
    SortMembers(xs);
    SortMembers(ys);
    SortedUnique(Sort(xs), Sort(ys));
    assert |xs| == |multiset(xs)| && |ys| == |multiset(ys)|;
  }

  /** How many samples are at most `t`. */
  function CountAtMost(values: seq<real>, t: real): nat {
    if values == [] then 0 else (if values[0] <= t then 1 else 0) + CountAtMost(values[1..], t)
  }

  lemma {:induction false} CountInsert(x: real, s: seq<real>, t: real)
    ensures CountAtMost(Insert(x, s), t) == CountAtMost(s, t) + if x <= t then 1 else 0
  {
    if s != [] && x > s[0] {
      CountInsert(x, s[1..], t);
      assert Insert(x, s)[1..] == Insert(x, s[1..]);
    } else {
      assert Insert(x, s)[1..] == s;
    }
  }

  lemma {:induction false} CountSort(values: seq<real>, t: real)
    ensures CountAtMost(Sort(values), t) == CountAtMost(values, t)
  {
    if values == [] {
    } else {
      CountSort(values[1..], t);
      CountInsert(values[0], Sort(values[1..]), t);
    }
  }

  /** The k-th order statistic is at most `t` exactly when more than k samples are. */
  lemma {:induction false} OrderStatistic(s: seq<real>, k: nat, t: real)
    requires Sorted(s) && k < |s|
    ensures s[k] <= t <==> CountAtMost(s, t) > k
  {
    if k > 0 {
      OrderStatistic(s[1..], k - 1, t);
    } else if s[0] > t {
      NoneAtMost(s, t);
    }
  }

  lemma {:induction false} NoneAtMost(s: seq<real>, t: real)
    requires forall i | 0 <= i < |s| :: s[i] > t
    ensures CountAtMost(s, t) == 0
  {
    if s == [] {
    } else {
      NoneAtMost(s[1..], t);
    }
  }

  /**
    What a percentile under a limit says about the samples: it needs more than `floor(rank)` samples
    within the limit, and more than `ceil(rank)` of them are enough.
   */
  lemma PercentileCounts(values: seq<real>, percent: real, t: real)
    requires values != [] && 0.0 <= percent <= 100.0
    ensures Percentile(values, percent).value <= t ==> CountAtMost(values, t) > RankOf(percent, |values|).Floor
    ensures CountAtMost(values, t) as real >= RankOf(percent, |values|) + 1.0 ==> Percentile(values, percent).value <= t
  {
    var s, rank := Sort(values), RankOf(percent, |values|);
    PercentileIsAtRank(values, percent);
    SortSorts(values);
    AtRankBetween(s, rank);
    CountSort(values, t);
    OrderStatistic(s, rank.Floor, t);
    if rank != rank.Floor as real {
      OrderStatistic(s, rank.Floor + 1, t);
    }
  }

  // ---------------------------------------------------------------- summaries

  function MinOf(values: seq<real>): real
    requires values != []
  {
    if |values| == 1 then values[0]
    else
      var rest := MinOf(values[1..]);
      if values[0] <= rest then values[0] else rest
  }

  function MaxOf(values: seq<real>): real
    requires values != []
  {
    if |values| == 1 then values[0]
    else
      var rest := MaxOf(values[1..]);
      if values[0] >= rest then values[0] else rest
  }

  function SumOf(values: seq<real>): real {
    if values == [] then 0.0 else values[0] + SumOf(values[1..])
  }

  function Mean(samples: seq<real>): real
    requires samples != []
  {
    SumOf(samples) / |samples| as real
  }

  datatype Summary = Summary(count: nat, min: real, p50: real, p95: real, p99: real, max: real, mean: real)

  /** `_summarize_simple`; the run summary holds the same figures. */
  function Summarize(samples: seq<real>): Option<Summary> {
    if samples == [] then None
    else
      Some(Summary(
        |samples|, MinOf(samples),
        Percentile(samples, 50.0).value, Percentile(samples, 95.0).value, Percentile(samples, 99.0).value,
        MaxOf(samples), Mean(samples)))
  }

  lemma {:induction false} SortedEnds(values: seq<real>)
    requires values != []
    ensures |Sort(values)| == |values|
    ensures Sort(values)[0] == MinOf(values) && Sort(values)[|values| - 1] == MaxOf(values)
  {
    SortSorts(values[1..]);
    InsertSorts(values[0], Sort(values[1..]));
    InsertLast(values[0], Sort(values[1..]));
    if |values| > 1 {
      SortedEnds(values[1..]);
    }
  }

  lemma {:induction false} InsertLast(x: real, s: seq<real>)
    requires Sorted(s)
    ensures |Insert(x, s)| == |s| + 1
    ensures Insert(x, s)[|s|] == if s == [] || x >= s[|s| - 1] then x else s[|s| - 1]
  {
    if s != [] && x > s[0] { InsertLast(x, s[1..]); }
  }

  lemma {:induction false} SumBounds(values: seq<real>, lo: real, hi: real)
    requires forall i | 0 <= i < |values| :: lo <= values[i] <= hi
    ensures lo * |values| as real <= SumOf(values) <= hi * |values| as real
  {
    if values == [] {
    } else {
      SumBounds(values[1..], lo, hi);
      var n := |values[1..]| as real;
      assert |values| as real == n + 1.0;
      assert lo * (n + 1.0) == lo * n + lo && hi * (n + 1.0) == hi * n + hi;
    }
  }

  lemma {:induction false} Extremes(values: seq<real>)
    requires values != []
    ensures forall i | 0 <= i < |values| :: MinOf(values) <= values[i] <= MaxOf(values)
  {
    if |values| > 1 { Extremes(values[1..]); }
  }

  lemma MeanBetween(values: seq<real>)
    requires values != []
    ensures MinOf(values) <= SumOf(values) / |values| as real <= MaxOf(values)
  {
    Extremes(values);
    SumBounds(values, MinOf(values), MaxOf(values));
    var n := |values| as real;
    QuotientBetween(MinOf(values), SumOf(values), MaxOf(values), n);
  }

  lemma QuotientBetween(lo: real, sum: real, hi: real, n: real)
    requires n > 0.0 && lo * n <= sum <= hi * n
    ensures lo <= sum / n <= hi
  {}

  /**
    `percentile`, for every input: zero for no samples, an error exactly for an out-of-range percent,
    otherwise the value at the fractional rank of the sorted samples, between the smallest and the
    largest.
   */
  lemma PercentileMeaning(values: seq<real>, percent: real)
    ensures values == [] ==> Percentile(values, percent) == Ok(0.0)
    ensures Percentile(values, percent).Err? <==> values != [] && (percent < 0.0 || percent > 100.0)
    ensures values != [] && 0.0 <= percent <= 100.0 ==>
              && |Sort(values)| == |values| && 0.0 <= RankOf(percent, |values|) <= (|values| - 1) as real
              && Percentile(values, percent) == Ok(AtRank(Sort(values), RankOf(percent, |values|)))
              && MinOf(values) <= Percentile(values, percent).value <= MaxOf(values)
  {
    if values != [] && 0.0 <= percent <= 100.0 {
      PercentileIsAtRank(values, 0.0);
      PercentileIsAtRank(values, percent);
      PercentileIsAtRank(values, 100.0);
      SortedEnds(values);
      PercentileMonotone(values, values, 0.0, percent);
      PercentileMonotone(values, values, percent, 100.0);
    }
  }

  lemma InterpolatesAt(ordered: seq<real>, rank: real, k: nat)
    requires k < |ordered| && k as real <= rank < k as real + 1.0 && 0.0 <= rank <= (|ordered| - 1) as real
    ensures AtRank(ordered, rank) ==
            if k + 1 < |ordered| then ordered[k] + (ordered[k + 1] - ordered[k]) * (rank - k as real) else ordered[k]
  {
    assert rank.Floor == k;
    if k + 1 < |ordered| {
      BlendFromLower(ordered[k], ordered[k + 1], rank - k as real);
    }
  }

  /**
    The interpolation, written out: with the samples in order and the rank percent/100 * (n-1) at or
    past position k and before k+1, the percentile is the k-th sample plus that fraction of the way to
    the next.
   */
  lemma PercentileInterpolates(values: seq<real>, ordered: seq<real>, percent: real, rank: real, k: nat)
    requires 0.0 <= percent <= 100.0 && k < |ordered|
    requires Sorted(ordered) && multiset(ordered) == multiset(values) && |ordered| == |values|
    requires rank == percent / 100.0 * (|values| - 1) as real && k as real <= rank < k as real + 1.0
    ensures Percentile(values, percent) ==
            Ok(if k + 1 < |ordered| then ordered[k] + (ordered[k + 1] - ordered[k]) * (rank - k as real) else ordered[k])
  {
    SortSorts(values);
    SortMembers(values);
    SortedUnique(ordered, Sort(values));
    PercentileIsAtRank(values, percent);
    InterpolatesAt(ordered, rank, k);
  }

  lemma BlendFromLower(x: real, y: real, weight: real)
    ensures Blend(x, y, weight) == x + (y - x) * weight
  {}

  lemma {:induction false} SumParts(xs: seq<real>, ys: seq<real>)
    ensures SumOf(xs + ys) == SumOf(xs) + SumOf(ys)
    ensures |xs| == 1 ==> SumOf(xs) == xs[0]
  {
    if xs == [] {
      assert xs + ys == ys;
    } else {
      SumParts(xs[1..], ys);
      assert (xs + ys)[1..] == xs[1..] + ys;
    }
  }

  lemma {:induction false} ExtremesReached(values: seq<real>)
    requires values != []
    ensures MinOf(values) in values && MaxOf(values) in values
  {
    if |values| > 1 {
      ExtremesReached(values[1..]);
      assert values == [values[0]] + values[1..];
    }
  }

  lemma QuotientTimes(sum: real, n: real)
    requires n > 0.0
    ensures sum / n * n == sum
  {}

  /** The mean times the count is the sum. */
  lemma MeanMeaning(samples: seq<real>)
    requires samples != []
    ensures Mean(samples) * |samples| as real == SumOf(samples)
  {
    QuotientTimes(SumOf(samples), |samples| as real);
  }

  /** The figures of a summary: none without samples, else the count, the ends, three percentiles and the mean. */
  lemma SummaryMeaning(samples: seq<real>)
    ensures Summarize(samples).None? <==> samples == []
    ensures samples != [] ==>
              var s := Summarize(samples).value;
              && s.count == |samples|
              && s.min in samples && s.max in samples && (forall i | 0 <= i < |samples| :: s.min <= samples[i] <= s.max)
              && Percentile(samples, 50.0) == Ok(s.p50) && Percentile(samples, 95.0) == Ok(s.p95)
              && Percentile(samples, 99.0) == Ok(s.p99)
              && s.mean == Mean(samples)
  {
    if samples != [] {
      Extremes(samples);
      ExtremesReached(samples);
    }
  }

  /** Every summary is ordered, and its ends are the 0th and 100th percentiles. */
  lemma SummaryOrdered(samples: seq<real>)
    requires samples != []
    ensures var s := Summarize(samples).value;
            && s.min <= s.p50 <= s.p95 <= s.p99 <= s.max
            && s.min <= s.mean <= s.max
            && Percentile(samples, 0.0) == Ok(s.min) && Percentile(samples, 100.0) == Ok(s.max)
  {
    PercentileIsAtRank(samples, 0.0);
    PercentileIsAtRank(samples, 100.0);
    SortedEnds(samples);
    PercentileMonotone(samples, samples, 0.0, 50.0);
    PercentileMonotone(samples, samples, 50.0, 95.0);
    PercentileMonotone(samples, samples, 95.0, 99.0);
    PercentileMonotone(samples, samples, 99.0, 100.0);
    MeanBetween(samples);
  }

  // ---------------------------------------------------------------- service-level objective

  datatype Bucket = Small | Medium | Large | XLarge

  const SIZE_BUCKETS: seq<Bucket> := [Small, Medium, Large, XLarge]

  datatype SloEntry = SloEntry(count: nat, p95: real, threshold: Option<real>, pass: Option<bool>)

  datatype SloResult = SloResult(pass: bool, failures: seq<Bucket>, perBucket: map<Bucket, SloEntry>)

  type Samples = map<Bucket, seq<real>>
  type Thresholds = map<Bucket, real>

  function SamplesOf(samples: Samples, bucket: Bucket): seq<real> {
    if bucket in samples then samples[bucket] else []
  }

  function ThresholdOf(thresholds: Thresholds, bucket: Bucket): Option<real> {
    if bucket in thresholds then Some(thresholds[bucket]) else None
  }

  /** The bucket has samples and a threshold. */
  predicate Judged(values: seq<real>, threshold: Option<real>) {
    values != [] && threshold.Some?
  }

  /** The verdict of one bucket: its 95th percentile is above its threshold. */
  predicate Violates(values: seq<real>, threshold: Option<real>) {
    Judged(values, threshold) && Percentile(values, 95.0).value > threshold.value
  }

  predicate Fails(samples: Samples, thresholds: Thresholds, bucket: Bucket) {
    Violates(SamplesOf(samples, bucket), ThresholdOf(thresholds, bucket))
  }

  predicate Describes(e: SloEntry, values: seq<real>, threshold: Option<real>) {
    && e.count == |values| && e.threshold == threshold && Percentile(values, 95.0) == Ok(e.p95)
    && e.pass == (if Judged(values, threshold) then Some(!Violates(values, threshold)) else None)
  }

  ghost predicate AllDescribed(samples: Samples, thresholds: Thresholds, perBucket: map<Bucket, SloEntry>) {
    forall b: Bucket | b in perBucket ::
      Describes(perBucket[b], SamplesOf(samples, b), ThresholdOf(thresholds, b))
  }

  lemma OneMoreDescribed(samples: Samples, thresholds: Thresholds, perBucket: map<Bucket, SloEntry>,
                         bucket: Bucket, entry: SloEntry)
    requires AllDescribed(samples, thresholds, perBucket)
    requires Describes(entry, SamplesOf(samples, bucket), ThresholdOf(thresholds, bucket))
    ensures AllDescribed(samples, thresholds, perBucket[bucket := entry])
    ensures entry.pass == Some(false) <==> Fails(samples, thresholds, bucket)
  {}

  /** The failing buckets, in bucket order. */
  function Failing(samples: Samples, thresholds: Thresholds, buckets: seq<Bucket>): seq<Bucket> {
    if buckets == [] then []
    else
      var last := buckets[|buckets| - 1];
      Failing(samples, thresholds, buckets[..|buckets| - 1]) + if Fails(samples, thresholds, last) then [last] else []
  }

  lemma {:induction false} FailingMembers(samples: Samples, thresholds: Thresholds, buckets: seq<Bucket>, b: Bucket)
    ensures b in Failing(samples, thresholds, buckets) <==> b in buckets && Fails(samples, thresholds, b)
  {
    if buckets == [] {
    } else {
      FailingMembers(samples, thresholds, buckets[..|buckets| - 1], b);
      assert buckets == buckets[..|buckets| - 1] + [buckets[|buckets| - 1]];
    }
  }

  /** The body of the loop over the buckets. */
  method JudgeBucket(values: seq<real>, threshold: Option<real>) returns (entry: SloEntry)
    ensures Describes(entry, values, threshold)
    ensures entry.count == |values| && entry.threshold == threshold
    ensures entry.p95 == if values == [] then 0.0 else Percentile(values, 95.0).value
    ensures entry.pass == if values != [] && threshold.Some? then Some(entry.p95 <= threshold.value) else None
  {
    var p95 := if values != [] then Percentile(values, 95.0).value else 0.0;
    entry := SloEntry(|values|, p95, threshold, None);
    if threshold.Some? && values != [] {
      entry := entry.(pass := Some(p95 <= threshold.value));
    }
  }

  /** The loop over the buckets. */
  method JudgeBuckets(samples: Samples, thresholds: Thresholds, buckets: seq<Bucket>)
    returns (failures: seq<Bucket>, perBucket: map<Bucket, SloEntry>)
    ensures failures == Failing(samples, thresholds, buckets)
    ensures forall i | 0 <= i < |buckets| :: buckets[i] in perBucket
    ensures AllDescribed(samples, thresholds, perBucket)
  {
    failures, perBucket := [], map[];
    for i := 0 to |buckets|
      invariant failures == Failing(samples, thresholds, buckets[..i])
      invariant forall k | 0 <= k < i :: buckets[k] in perBucket
      invariant AllDescribed(samples, thresholds, perBucket)
    {
      var bucket := buckets[i];
      assert buckets[..i + 1][..i] == buckets[..i];
      var entry := JudgeBucket(SamplesOf(samples, bucket), ThresholdOf(thresholds, bucket));
      OneMoreDescribed(samples, thresholds, perBucket, bucket, entry);
      if entry.pass == Some(false) {
        failures := failures + [bucket];
      }
      perBucket := perBucket[bucket := entry];
    }
    assert buckets[..|buckets|] == buckets;
  }

  /** The buckets from small to large. */
  function Place(bucket: Bucket): nat {
    match bucket
    case Small => 0
    case Medium => 1
    case Large => 2
    case XLarge => 3
  }

  /** Places ascend. */
  ghost predicate Ascending(buckets: seq<Bucket>) {
    forall i, j | 0 <= i < j < |buckets| :: Place(buckets[i]) < Place(buckets[j])
  }

  lemma {:induction false} FailingInOrder(samples: Samples, thresholds: Thresholds, buckets: seq<Bucket>)
    requires Ascending(buckets)
    ensures Ascending(Failing(samples, thresholds, buckets))
  {
    if buckets == [] {
    } else {
      var n := |buckets| - 1;
      var init := Failing(samples, thresholds, buckets[..n]);
      FailingInOrder(samples, thresholds, buckets[..n]);
      forall i | 0 <= i < |init| ensures Place(init[i]) < Place(buckets[n]) {
        FailingMembers(samples, thresholds, buckets[..n], init[i]);
      }
    }
  }

  /** The failing buckets: those with samples and a threshold below their 95th percentile, smallest size first. */
  lemma FailingMeaning(samples: Samples, thresholds: Thresholds)
    ensures var failures := Failing(samples, thresholds, SIZE_BUCKETS);
            && Ascending(failures)
            && forall b: Bucket :: b in failures <==>
                 b in samples && b in thresholds && samples[b] != [] && Percentile(samples[b], 95.0).value > thresholds[b]
  {
    FailingInOrder(samples, thresholds, SIZE_BUCKETS);
    forall b: Bucket
      ensures b in Failing(samples, thresholds, SIZE_BUCKETS) <==> Fails(samples, thresholds, b)
    {
      EveryBucketListed(b);
      FailingMembers(samples, thresholds, SIZE_BUCKETS, b);
    }
  }

  /** `evaluate_slo`. */
  method EvaluateSlo(samples: Samples, thresholds: Thresholds) returns (r: SloResult)
    ensures r.failures == Failing(samples, thresholds, SIZE_BUCKETS)
    ensures r.pass <==> forall b: Bucket :: !Fails(samples, thresholds, b)
    ensures forall b: Bucket :: b in r.perBucket
    ensures AllDescribed(samples, thresholds, r.perBucket)
    ensures r.pass <==> r.failures == []
    ensures Ascending(r.failures)
    ensures forall b: Bucket :: b in r.failures <==>
              b in samples && b in thresholds && samples[b] != [] && Percentile(samples[b], 95.0).value > thresholds[b]
  {
    FailingMeaning(samples, thresholds);
    var failures, perBucket := JudgeBuckets(samples, thresholds, SIZE_BUCKETS);
    forall b: Bucket ensures b in perBucket {
      EveryBucketListed(b);
    }
    PassIff(samples, thresholds);
    r := SloResult(failures == [], failures, perBucket);
  }

  lemma PassIff(samples: Samples, thresholds: Thresholds)
    ensures Failing(samples, thresholds, SIZE_BUCKETS) == [] <==> forall b: Bucket :: !Fails(samples, thresholds, b)
  {
    var failures := Failing(samples, thresholds, SIZE_BUCKETS);
    forall b: Bucket ensures b in failures <==> Fails(samples, thresholds, b) {
      EveryBucketListed(b);
      FailingMembers(samples, thresholds, SIZE_BUCKETS, b);
    }
    assert failures != [] ==> failures[0] in failures;
  }

  lemma EveryBucketListed(b: Bucket)
    ensures b in SIZE_BUCKETS
  {}

  /** Every threshold of `u` is also set in `t`, no larger there. */
  ghost predicate NoTighter(t: Thresholds, u: Thresholds) {
    forall b: Bucket | b in u :: b in t && t[b] <= u[b]
  }

  /** The same buckets sampled as often, each sample no slower. */
  ghost predicate NoSlower(fast: Samples, slow: Samples) {
    forall b: Bucket :: Below(SamplesOf(fast, b), SamplesOf(slow, b))
  }

  /** Raising or dropping thresholds, or faster samples, never turn a pass into a failure. */
  lemma SloMonotone(fast: Samples, slow: Samples, tight: Thresholds, loose: Thresholds)
    requires NoSlower(fast, slow) && NoTighter(tight, loose)
    ensures forall b: Bucket | Fails(fast, loose, b) :: Fails(slow, tight, b)
    ensures (forall b: Bucket :: !Fails(slow, tight, b)) ==> forall b: Bucket :: !Fails(fast, loose, b)
  {
    forall b: Bucket | Fails(fast, loose, b) ensures Fails(slow, tight, b) {
      assert Below(SamplesOf(fast, b), SamplesOf(slow, b));
      PercentileMonotone(SamplesOf(fast, b), SamplesOf(slow, b), 95.0, 95.0);
    }
  }
}
