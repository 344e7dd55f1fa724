/**
 Signal calibration: integer parts-per-million metrics over labelled observations, the report a run of
 the tool writes, and the checks it applies to an earlier report before it computes drift. The metrics
 are rounded down at every step, so each bound between two of them says how much the rounding can cost;
 a chain of reports is a sequence of runs, each of which reads the report before it.
 */
module Calibration {
  import opened Values
  import Text

  const SCALE: int := 1_000_000
  const MAX_CASES: int := 512
  const MAX_LATENCY: real := 3_600_000.0

  // ---------------------------------------------------------------- sums over samples

  /** One completed observation, as the metrics see it. */
  datatype Sample = Sample(confidence: int, correct: bool, agrees: bool)

  predicate Bounded(samples: seq<Sample>) {
    forall i :: 0 <= i < |samples| ==> 0 <= samples[i].confidence <= SCALE
  }

  function Hit(b: bool): int { if b then 1 else 0 }

  function Abs(x: int): int { if x < 0 then -x else x }

  /** How far one stated confidence is from what happened. */
  function Difference(s: Sample): int { s.confidence - SCALE * Hit(s.correct) }

  function Bucket(s: Sample): int {
    if s.confidence / 100_000 < 9 then s.confidence / 100_000 else 9
  }

  function Total(samples: seq<Sample>, f: Sample -> int): int {
    if samples == [] then 0 else f(samples[0]) + Total(samples[1..], f)
  }

  function InBucket(b: int): Sample -> int {
    s => if Bucket(s) == b then Difference(s) else 0
  }

  /** The sum of the absolute bucket totals over the first `n` buckets. */
  function BucketError(samples: seq<Sample>, n: nat): int {
    if n == 0 then 0 else BucketError(samples, n - 1) + Abs(Total(samples, InBucket(n - 1)))
  }

  function Correct(s: Sample): int { Hit(s.correct) }
  function Disagrees(s: Sample): int { Hit(!s.agrees) }
  function Confidence(s: Sample): int { s.confidence }
  function Distance(s: Sample): int { Abs(Difference(s)) }
  function Square(s: Sample): int { Difference(s) * Difference(s) }

  // ---------------------------------------------------------------- arithmetic of the floors

  lemma FloorBounds(a: int, n: int)
    requires n > 0
    ensures n * (a / n) <= a < n * (a / n) + n
  {
  }

  lemma PositiveFactor(n: int, g: int)
    requires n > 0 && n * g > -n
    ensures g >= 0
  {
  }

  lemma FloorWithin(a: int, n: int, top: int)
    requires n > 0 && 0 <= a <= n * top
    ensures 0 <= a / n <= top
  {
    FloorBounds(a, n);
    assert n * (top - a / n) == n * top - n * (a / n);
    PositiveFactor(n, top - a / n);
    PositiveFactor(n, a / n);
  }

  /** Floors of two quotients differ by at most the floor of the difference, plus one. */
  lemma FloorGap(a: int, b: int, e: int, n: int)
    requires n > 0 && Abs(a - b) <= e
    ensures Abs(a / n - b / n) <= e / n + 1
  {
    FloorBounds(a, n);
    FloorBounds(b, n);
    FloorBounds(e, n);
    var d, top := a / n - b / n, e / n + 1;
    assert n * (top - d) == n * (e / n) + n - n * (a / n) + n * (b / n);
    assert n * (top + d) == n * (e / n) + n + n * (a / n) - n * (b / n);
    PositiveFactor(n, top - d);
    PositiveFactor(n, top + d);
  }

  lemma {:induction false} TotalWithin(samples: seq<Sample>, f: Sample -> int, top: int)
    requires forall i :: 0 <= i < |samples| ==> 0 <= f(samples[i]) <= top
    ensures 0 <= Total(samples, f) <= |samples| * top
  {
    if samples != [] {
      TotalWithin(samples[1..], f, top);
      assert |samples| * top == top + |samples[1..]| * top;
    }
  }

  lemma {:induction false} SignedTotal(samples: seq<Sample>)
    ensures Total(samples, Difference) == Total(samples, Confidence) - SCALE * Total(samples, Correct)
  {
    if samples != [] {
      SignedTotal(samples[1..]);
    }
  }

  // ---------------------------------------------------------------- buckets

  /** What one sample adds to the signed and to the absolute total of the first `n` buckets. */
  lemma {:induction false} BucketsCover(samples: seq<Sample>, n: nat)
    requires Bounded(samples)
    ensures Abs(BucketSum(samples, n)) <= BucketError(samples, n)
  {
    if n > 0 {
      BucketsCover(samples, n - 1);
    }
  }

  function BucketSum(samples: seq<Sample>, n: nat): int {
    if n == 0 then 0 else BucketSum(samples, n - 1) + Total(samples, InBucket(n - 1))
  }

  function BucketCount(s: Sample, n: nat): int {
    if 0 <= Bucket(s) < n then 1 else 0
  }

  lemma {:induction false} BucketSumCons(samples: seq<Sample>, n: nat)
    requires samples != []
    ensures BucketSum(samples, n) == BucketSum(samples[1..], n) + BucketCount(samples[0], n) * Difference(samples[0])
  {
    if n > 0 {
      BucketSumCons(samples, n - 1);
    }
  }

  lemma {:induction false} BucketErrorCons(samples: seq<Sample>, n: nat)
    requires samples != []
    ensures BucketError(samples, n) <= BucketError(samples[1..], n) + BucketCount(samples[0],
            n) * Abs(Difference(samples[0]))
  {
    if n > 0 {
      BucketErrorCons(samples, n - 1);
    }
  }

  lemma {:induction false} NoBuckets(n: nat)
    ensures BucketSum([], n) == 0 && BucketError([], n) == 0
  {
    if n > 0 {
      NoBuckets(n - 1);
    }
  }

  /** Ten buckets hold every sample, so their totals add up to the whole, */
  lemma {:induction false} BucketsAddUp(samples: seq<Sample>)
    requires Bounded(samples)
    ensures BucketSum(samples, 10) == Total(samples, Difference)
  {
    if samples == [] {
      NoBuckets(10);
    } else {
      BucketsAddUp(samples[1..]);
      BucketSumCons(samples, 10);
      assert 0 <= samples[0].confidence <= SCALE;
    }
  }

  /** and cancellation inside a bucket only makes the error smaller. */
  lemma {:induction false} BucketErrorBelowDistance(samples: seq<Sample>)
    requires Bounded(samples)
    ensures 0 <= BucketError(samples, 10) <= Total(samples, Distance)
  {
    if samples == [] {
      NoBuckets(10);
    } else {
      BucketErrorBelowDistance(samples[1..]);
      BucketErrorCons(samples, 10);
      BucketsCover(samples, 10);
      assert 0 <= samples[0].confidence <= SCALE;
    }
  }

  // ---------------------------------------------------------------- Cauchy-Schwarz

  /** `2ax <= n x^2 + q` whenever `a^2 <= n q`. */
  lemma CrossTerm(a: int, q: int, x: int, n: int)
    requires n > 0 && a * a <= n * q
    ensures 2 * (a * x) <= n * (x * x) + q
  {
    var y := n * x - a;
    var gap := n * (x * x) + q - 2 * (a * x);
    calc {
      n * gap;
      n * (n * (x * x)) + n * q - n * (2 * (a * x));
      { assert n * (n * (x * x)) == (n * x) * (n * x); assert n * (2 * (a * x)) == 2 * (a * (n * x)); }
      (n * x) * (n * x) + n * q - 2 * (a * (n * x));
      { assert y * y == (n * x) * (n * x) - 2 * (a * (n * x)) + a * a; }
      y * y - a * a + n * q;
    }
    assert y * y >= 0;
    PositiveFactor(n, gap);
  }

  lemma SquareStep(a: int, q: int, x: int, n: int)
    requires n >= 0 && a * a <= n * q && q >= 0 && (n == 0 ==> a == 0)
    ensures (a + x) * (a + x) <= (n + 1) * (q + x * x)
  {
    if n > 0 {
      CrossTerm(a, q, x, n);
    }
    assert (a + x) * (a + x) == a * a + 2 * (a * x) + x * x;
    assert (n + 1) * (q + x * x) == n * q + n * (x * x) + q + x * x;
  }

  lemma {:induction false} CauchySchwarz(samples: seq<Sample>)
    ensures Total(samples, Distance) >= 0 && Total(samples, Square) >= 0
    ensures samples == [] ==> Total(samples, Distance) == 0
    ensures Total(samples, Distance) * Total(samples, Distance) <= |samples| * Total(samples, Square)
  {
    if samples != [] {
      CauchySchwarz(samples[1..]);
      var x := Abs(Difference(samples[0]));
      assert x * x == Square(samples[0]);
      SquareStep(Total(samples[1..], Distance), Total(samples[1..], Square), x, |samples| - 1);
    }
  }

  // ---------------------------------------------------------------- latency percentile

  predicate Ascending(xs: seq<real>) {
    forall i, j :: 0 <= i < j < |xs| ==> xs[i] <= xs[j]
  }

  function Insert(x: real, xs: seq<real>): seq<real> {
    if xs == [] || x <= xs[0] then [x] + xs else [xs[0]] + Insert(x, xs[1..])
  }

  function Sort(xs: seq<real>): seq<real> {
    if xs == [] then [] else Insert(xs[0], Sort(xs[1..]))
  }

  function AtMost(xs: seq<real>, v: real): nat {
    if xs == [] then 0 else (if xs[0] <= v then 1 else 0) + AtMost(xs[1..], v)
  }

  function Below(xs: seq<real>, v: real): nat {
    if xs == [] then 0 else (if xs[0] < v then 1 else 0) + Below(xs[1..], v)
  }

  lemma {:induction false} InsertKeeps(x: real, xs: seq<real>, v: real)
    ensures AtMost(Insert(x, xs), v) == (if x <= v then 1 else 0) + AtMost(xs, v)
    ensures Below(Insert(x, xs), v) == (if x < v then 1 else 0) + Below(xs, v)
    ensures |Insert(x, xs)| == |xs| + 1
  {
    if xs == [] || x <= xs[0] {
      assert ([x] + xs)[1..] == xs;
    } else {
      InsertKeeps(x, xs[1..], v);
      assert ([xs[0]] + Insert(x, xs[1..]))[1..] == Insert(x, xs[1..]);
    }
  }

  lemma {:induction false} InsertAscending(x: real, xs: seq<real>)
    requires Ascending(xs)
    ensures Ascending(Insert(x, xs))
    ensures forall i :: 0 <= i < |Insert(x, xs)| ==> Insert(x, xs)[i] == x || Insert(x, xs)[i] in xs
  {
    if xs != [] && xs[0] < x {
      InsertAscending(x, xs[1..]);
    }
  }

  lemma {:induction false} SortKeeps(xs: seq<real>, v: real)
    ensures AtMost(Sort(xs), v) == AtMost(xs, v) && Below(Sort(xs), v) == Below(xs, v)
    ensures |Sort(xs)| == |xs| && Ascending(Sort(xs))
    ensures forall i :: 0 <= i < |Sort(xs)| ==> Sort(xs)[i] in xs
  {
    if xs != [] {
      SortKeeps(xs[1..], v);
      InsertKeeps(xs[0], Sort(xs[1..]), v);
      InsertAscending(xs[0], Sort(xs[1..]));
    }
  }

  lemma {:induction false} RankCounts(xs: seq<real>, k: nat)
    requires Ascending(xs) && k < |xs|
    ensures AtMost(xs, xs[k]) >= k + 1 && Below(xs, xs[k]) <= k
  {
    if k > 0 {
      RankCounts(xs[1..], k - 1);
    } else {
      NoneBelow(xs, xs[0]);
    }
  }

  lemma {:induction false} NoneBelow(xs: seq<real>, v: real)
    requires forall i :: 0 <= i < |xs| ==> v <= xs[i]
    ensures Below(xs, v) == 0
  {
    if xs != [] {
      NoneBelow(xs[1..], v);
    }
  }

  /** The rank `ceil(0.95 * n)`. */
  function Rank95(n: nat): nat { (19 * n + 19) / 20 }

  function Percentile95(xs: seq<real>): real
    requires xs != []
  {
    SortKeeps(xs, 0.0);
    Sort(xs)[Rank95(|xs|) - 1]
  }

  /** At least 95% of the samples are at or below the percentile, fewer than 95% strictly below it. */
  lemma NearestRank(xs: seq<real>)
    requires xs != []
    ensures 20 * AtMost(xs, Percentile95(xs)) >= 19 * |xs| && 20 * Below(xs, Percentile95(xs)) < 19 * |xs|
    ensures Percentile95(xs) in xs
  {
    var k := PercentileIs(xs);
    RankedCounts(xs, Sort(xs), k);
  }

  lemma PercentileIs(xs: seq<real>) returns (k: nat)
    requires xs != []
    ensures |Sort(xs)| == |xs| && k < |xs| && 20 * k < 19 * |xs| <= 20 * (k + 1)
    ensures Percentile95(xs) == Sort(xs)[k] && Percentile95(xs) in xs
  {
    SortKeeps(xs, 0.0);
    k := Rank95(|xs|) - 1;
  }

  lemma RankedCounts(xs: seq<real>, ys: seq<real>, k: nat)
    requires ys == Sort(xs) && k < |ys|
    ensures AtMost(xs, ys[k]) >= k + 1 && Below(xs, ys[k]) <= k
  {
    SortKeeps(xs, ys[k]);
    RankCounts(ys, k);
  }

  // ---------------------------------------------------------------- the metrics of one purpose

  datatype Purpose = Routing | ToolRisk
  datatype Status =
    | Completed | TimedOut | Cancelled | InvalidResult | Unavailable | UnknownOutcome | Unsupported | BudgetExhausted

  datatype Case = Case(id: string, purpose: Purpose, choices: seq<string>, expected: string, baseline: string)

  datatype Entry = Entry(
    caseId: string, status: Status, selected: Option<string>, confidence: Option<int>,
    latency: real, finalDisposition: string, receipt: string)

  datatype Metrics = Metrics(
    cases: int,
    completed: int,
    baselineAccuracy: int,
    modelAccuracy: Option<int>,
    disagreement: Option<int>,
    meanConfidence: Option<int>,
    brierScore: Option<int>,
    calibrationGap: Option<int>,
    expectedCalibrationError: Option<int>,
    failureRate: int,
    p95Latency: real)

  predicate EntryOk(c: Case, e: Entry) {
    && 0.0 <= e.latency <= MAX_LATENCY
    && (if e.status == Completed
        then e.selected.Some? && e.selected.value in c.choices && e.confidence.Some? && 0 <= e.confidence.value <= SCALE
        else e.selected.None? && e.confidence.None?)
    && e.finalDisposition == c.baseline
  }

  predicate Observed(cases: seq<Case>, obs: map<string, Entry>) {
    forall i :: 0 <= i < |cases| ==> cases[i].id in obs && EntryOk(cases[i], obs[cases[i].id])
  }

  function SampleOf(c: Case, e: Entry): Sample
    requires EntryOk(c, e) && e.status == Completed
  {
    Sample(e.confidence.value, e.selected.value == c.expected, e.selected.value == c.baseline)
  }

  function Samples(cases: seq<Case>, obs: map<string, Entry>): (samples: seq<Sample>)
    requires Observed(cases, obs)
    ensures |samples| <= |cases| && Bounded(samples)
  {
    if cases == [] then []
    else
      var e := obs[cases[0].id];
      var rest := Samples(cases[1..], obs);
      if e.status == Completed then [SampleOf(cases[0], e)] + rest else rest
  }

  function Latencies(cases: seq<Case>, obs: map<string, Entry>): (xs: seq<real>)
    requires Observed(cases, obs)
    ensures |xs| == |cases| && forall x :: x in xs ==> 0.0 <= x <= MAX_LATENCY
  {
    if cases == [] then [] else [obs[cases[0].id].latency] + Latencies(cases[1..], obs)
  }

  function BaselineHits(cases: seq<Case>): (n: nat)
    ensures n <= |cases|
  {
    if cases == [] then 0 else Hit(cases[0].baseline == cases[0].expected) + BaselineHits(cases[1..])
  }

  function Summary(cases: seq<Case>, obs: map<string, Entry>): Metrics
    requires cases != [] && Observed(cases, obs)
  {
    var total := |cases|;
    var samples := Samples(cases, obs);
    var n := |samples|;
    var baseline := BaselineHits(cases) * SCALE / total;
    var failures := (total - n) * SCALE / total;
    var p95 := Percentile95(Latencies(cases, obs));
    if n == 0 then Metrics(total, 0, baseline, None, None, None, None, None, None, failures, p95)
    else
      var accuracy := Total(samples, Correct) * SCALE / n;
      var mean := Total(samples, Confidence) / n;
      Metrics(
        total, n, baseline,
        Some(accuracy),
        Some(Total(samples, Disagrees) * SCALE / n),
        Some(mean),
        Some(Total(samples, Square) / (n * SCALE)),
        Some(Abs(mean - accuracy)),
        Some(BucketError(samples, 10) / n),
        failures, p95)
  }

  lemma {:induction false} TotalAppend(samples: seq<Sample>, s: Sample, f: Sample -> int)
    ensures Total(samples + [s], f) == Total(samples, f) + f(s)
  {
    if samples == [] {
      assert samples + [s] == [s] && [s][1..] == [];
    } else {
      TotalAppend(samples[1..], s, f);
      assert (samples + [s])[1..] == samples[1..] + [s];
    }
  }

  /** The bucket dictionary, filled one observation at a time, and the sum over its values. */
  method ExpectedError(samples: seq<Sample>) returns (error: int)
    requires Bounded(samples)
    ensures error == BucketError(samples, 10)
  {
    var bins: map<int, int> := map[];
    for i := 0 to |samples|
      invariant forall b :: b in bins ==> 0 <= b < 10
      invariant forall b :: (if b in bins then bins[b] else 0) == Total(samples[..i], InBucket(b))
    {
      var bucket := Bucket(samples[i]);
      var sofar := if bucket in bins then bins[bucket] else 0;
      bins := bins[bucket := sofar + Difference(samples[i])];
      forall b ensures Total(samples[..i + 1], InBucket(b)) ==
            Total(samples[..i], InBucket(b)) + InBucket(b)(samples[i]) {
        assert samples[..i + 1] == samples[..i] + [samples[i]];
        TotalAppend(samples[..i], samples[i], InBucket(b));
      }
    }
    assert samples[..|samples|] == samples;
    error := 0;
    for b := 0 to 10
      invariant error == BucketError(samples, b)
    {
      if b in bins {
        error := error + Abs(bins[b]);
      }
    }
  }

  function OneSample(c: Case, obs: map<string, Entry>): (samples: seq<Sample>)
    requires c.id in obs && EntryOk(c, obs[c.id])
  {
    var e := obs[c.id];
    if e.status == Completed then [SampleOf(c, e)] else []
  }

  lemma {:induction false} SamplesAppend(cases: seq<Case>, c: Case, obs: map<string, Entry>)
    requires Observed(cases, obs) && c.id in obs && EntryOk(c, obs[c.id])
    ensures Observed(cases + [c], obs) && Samples(cases + [c], obs) == Samples(cases, obs) + OneSample(c, obs)
  {
    if cases == [] {
      assert cases + [c] == [c] && [c][1..] == [];
    } else {
      assert (cases + [c])[1..] == cases[1..] + [c];
      SamplesAppend(cases[1..], c, obs);
    }
  }

  lemma {:induction false} BaselineAppend(cases: seq<Case>, c: Case)
    ensures BaselineHits(cases + [c]) == BaselineHits(cases) + Hit(c.baseline == c.expected)
  {
    if cases == [] {
      assert cases + [c] == [c] && [c][1..] == [];
    } else {
      assert (cases + [c])[1..] == cases[1..] + [c];
      BaselineAppend(cases[1..], c);
    }
  }

  lemma ObservedFront(cases: seq<Case>, obs: map<string, Entry>, i: nat)
    requires Observed(cases, obs) && i < |cases|
    ensures Observed(cases[..i], obs) && cases[i].id in obs && EntryOk(cases[i], obs[cases[i].id])
    ensures cases[..i + 1] == cases[..i] + [cases[i]]
  {
  }

  /** The completed cases, with what was observed of them. */
  method CollectSamples(cases: seq<Case>, obs: map<string, Entry>) returns (samples: seq<Sample>)
    requires Observed(cases, obs)
    ensures samples == Samples(cases, obs)
  {
    samples := [];
    for i := 0 to |cases|
      invariant Observed(cases[..i], obs) && samples == Samples(cases[..i], obs)
    {
      ObservedFront(cases, obs, i);
      SamplesAppend(cases[..i], cases[i], obs);
      var entry := obs[cases[i].id];
      if entry.status == Completed {
        samples := samples + [SampleOf(cases[i], entry)];
      }
    }
    assert cases[..|cases|] == cases;
  }

  /** The four sums over the completed cases. */
  method Sums(samples: seq<Sample>) returns (correct: int, confidence: int, disagreeing: int, squares: int)
    ensures correct == Total(samples, Correct) && confidence == Total(samples, Confidence)
    ensures disagreeing == Total(samples, Disagrees) && squares == Total(samples, Square)
  {
    correct, confidence, disagreeing, squares := 0, 0, 0, 0;
    for i := 0 to |samples|
      invariant correct == Total(samples[..i], Correct) && confidence == Total(samples[..i], Confidence)
      invariant disagreeing == Total(samples[..i], Disagrees) && squares == Total(samples[..i], Square)
    {
      var s := samples[i];
      assert samples[..i + 1] == samples[..i] + [s];
      TotalAppend(samples[..i], s, Correct);
      TotalAppend(samples[..i], s, Confidence);
      TotalAppend(samples[..i], s, Disagrees);
      TotalAppend(samples[..i], s, Square);
      if s.correct {
        correct := correct + 1;
      }
      confidence := confidence + s.confidence;
      if !s.agrees {
        disagreeing := disagreeing + 1;
      }
      var difference := s.confidence - if s.correct then SCALE else 0;
      squares := squares + difference * difference;
    }
    assert samples[..|samples|] == samples;
  }

  method CountBaseline(cases: seq<Case>) returns (hits: nat)
    ensures hits == BaselineHits(cases)
  {
    hits := 0;
    for i := 0 to |cases|
      invariant hits == BaselineHits(cases[..i])
    {
      assert cases[..i + 1] == cases[..i] + [cases[i]];
      BaselineAppend(cases[..i], cases[i]);
      if cases[i].baseline == cases[i].expected {
        hits := hits + 1;
      }
    }
    assert cases[..|cases|] == cases;
  }

  /** The latencies in ascending order. */
  method SortLatencies(cases: seq<Case>, obs: map<string, Entry>) returns (sorted: seq<real>)
    requires Observed(cases, obs)
    ensures sorted == Sort(Latencies(cases, obs))
  {
    sorted := [];
    var i := |cases|;
    while i > 0
      invariant 0 <= i <= |cases| && Observed(cases[i..], obs)
      invariant sorted == Sort(Latencies(cases[i..], obs))
    {
      i := i - 1;
      var tail := cases[i..];
      assert Observed(tail, obs) && tail[1..] == cases[i + 1..] && tail[0] == cases[i];
      var latencies := Latencies(tail, obs);
      assert latencies[1..] == Latencies(tail[1..], obs);
      sorted := Insert(obs[cases[i].id].latency, sorted);
    }
    assert cases[0..] == cases;
  }

  /** The latency at the nearest rank. */
  method RankLatency(cases: seq<Case>, obs: map<string, Entry>) returns (p95: real)
    requires cases != [] && Observed(cases, obs)
    ensures p95 == Percentile95(Latencies(cases, obs))
  {
    var latencies := SortLatencies(cases, obs);
    SortKeeps(Latencies(cases, obs), 0.0);
    return latencies[Rank95(|cases|) - 1];
  }

  method Summarize(cases: seq<Case>, obs: map<string, Entry>) returns (m: Metrics)
    requires cases != [] && Observed(cases, obs)
    ensures m == Summary(cases, obs)
  {
    var total := |cases|;
    var samples := CollectSamples(cases, obs);
    var count := |samples|;
    var correct, confidence, disagreeing, squares := Sums(samples);
    var error := ExpectedError(samples);
    var hits := CountBaseline(cases);
    var p95 := RankLatency(cases, obs);
    var baseline, failures := hits * SCALE / total, (total - count) * SCALE / total;
    if count == 0 {
      m := Metrics(total, 0, baseline, None, None, None, None, None, None, failures, p95);
    } else {
      var accuracy, mean := correct * SCALE / count, confidence / count;
      m := Metrics(total, count, baseline, Some(accuracy), Some(disagreeing * SCALE / count), Some(mean),
                   Some(squares / (count * SCALE)), Some(Abs(mean - accuracy)), Some(error / count), failures, p95);
    }
  }

  // ---------------------------------------------------------------- what the metrics count

  ghost function Where(cases: seq<Case>, holds: Case -> bool): set<int> {
    set i | 0 <= i < |cases| && holds(cases[i])
  }

  lemma WhereAppend(cases: seq<Case>, c: Case, holds: Case -> bool)
    ensures |Where(cases + [c], holds)| == |Where(cases, holds)| + Hit(holds(c))
  {
    var more, n := cases + [c], |cases|;
    assert Where(more, holds) == Where(cases, holds) + if holds(c) then {n} else {};
  }

  predicate BaselineIsRight(c: Case) {
    c.baseline == c.expected
  }

  function IsCompleted(obs: map<string, Entry>): Case -> bool {
    (c: Case) => c.id in obs && obs[c.id].status == Completed
  }

  function IsCorrect(obs: map<string, Entry>): Case -> bool {
    (c: Case) => c.id in obs && obs[c.id].status == Completed && obs[c.id].selected == Some(c.expected)
  }

  function Departs(obs: map<string, Entry>): Case -> bool {
    (c: Case) => c.id in obs && obs[c.id].status == Completed && obs[c.id].selected != Some(c.baseline)
  }

  /** The sums behind the metrics are numbers of cases: the completed ones, those of them that chose what was
      expected, those that departed from the baseline, and the cases that the baseline itself gets right. */
  lemma {:induction false} SumsAreCounts(cases: seq<Case>, obs: map<string, Entry>)
    requires Observed(cases, obs)
    ensures |Samples(cases, obs)| == |Where(cases, IsCompleted(obs))|
    ensures Total(Samples(cases, obs), Correct) == |Where(cases, IsCorrect(obs))|
    ensures Total(Samples(cases, obs), Disagrees) == |Where(cases, Departs(obs))|
    ensures BaselineHits(cases) == |Where(cases, BaselineIsRight)|
    decreases |cases|
  {
    if cases != [] {
      var n := |cases| - 1;
      var front, c := cases[..n], cases[n];
      ObservedFront(cases, obs, n);
      assert cases == front + [c];
      SumsAreCounts(front, obs);
      SamplesAppend(front, c, obs);
      BaselineAppend(front, c);
      WhereAppend(front, c, IsCompleted(obs));
      WhereAppend(front, c, IsCorrect(obs));
      WhereAppend(front, c, Departs(obs));
      WhereAppend(front, c, BaselineIsRight);
      LastSample(front, c, obs);
    } else {
      assert Where(cases, IsCompleted(obs)) == {} && Where(cases, IsCorrect(obs)) == {};
      assert Where(cases, Departs(obs)) == {} && Where(cases, BaselineIsRight) == {};
    }
  }

  lemma LastSample(cases: seq<Case>, c: Case, obs: map<string, Entry>)
    requires Observed(cases, obs) && c.id in obs && EntryOk(c, obs[c.id])
    ensures var more := Samples(cases, obs) + OneSample(c, obs);
            && |more| == |Samples(cases, obs)| + Hit(IsCompleted(obs)(c))
            && Total(more, Correct) == Total(Samples(cases, obs), Correct) + Hit(IsCorrect(obs)(c))
            && Total(more, Disagrees) == Total(Samples(cases, obs), Disagrees) + Hit(Departs(obs)(c))
  {
    if obs[c.id].status == Completed {
      TotalAppend(Samples(cases, obs), SampleOf(c, obs[c.id]), Correct);
      TotalAppend(Samples(cases, obs), SampleOf(c, obs[c.id]), Disagrees);
    } else {
      assert Samples(cases, obs) + [] == Samples(cases, obs);
    }
  }

  /** So each rate is a share of cases, rounded down to a part per million. */
  lemma RatesAreShares(cases: seq<Case>, obs: map<string, Entry>)
    requires cases != [] && Observed(cases, obs)
    ensures var m := Summary(cases, obs);
            && m.cases == |cases| && m.completed == |Where(cases, IsCompleted(obs))|
            && m.baselineAccuracy == |Where(cases, BaselineIsRight)| * SCALE / m.cases
            && m.failureRate == (m.cases - m.completed) * SCALE / m.cases
            && (m.completed > 0 ==>
                  && m.modelAccuracy == Some(|Where(cases, IsCorrect(obs))| * SCALE / m.completed)
                  && m.disagreement == Some(|Where(cases, Departs(obs))| * SCALE / m.completed))
  {
    SumsAreCounts(cases, obs);
  }

  // ---------------------------------------------------------------- what the metrics satisfy

  predicate Ppm(v: int) { 0 <= v <= SCALE }

  predicate OptionalPpm(v: Option<int>, completed: int) {
    (v.None? <==> completed == 0) && (v.Some? ==> Ppm(v.value))
  }

  predicate MetricsOk(m: Metrics) {
    && 0 <= m.completed <= m.cases && 0 < m.cases
    && Ppm(m.baselineAccuracy) && Ppm(m.failureRate)
    && OptionalPpm(m.modelAccuracy, m.completed) && OptionalPpm(m.disagreement, m.completed)
    && OptionalPpm(m.meanConfidence, m.completed) && OptionalPpm(m.brierScore, m.completed)
    && OptionalPpm(m.calibrationGap, m.completed) && OptionalPpm(m.expectedCalibrationError, m.completed)
    && 0.0 <= m.p95Latency <= MAX_LATENCY
    && m.failureRate == (m.cases - m.completed) * SCALE / m.cases
  }

  lemma SquareMonotone(a: int, b: int)
    requires 0 <= a <= b
    ensures a * a <= b * b
  {
    assert b * b - a * a == (b - a) * (b + a);
  }

  lemma SquareWithin(d: int)
    requires -SCALE <= d <= SCALE
    ensures 0 <= d * d <= SCALE * SCALE
  {
    SquareMonotone(0, Abs(d));
    SquareMonotone(Abs(d), SCALE);
    assert d * d == Abs(d) * Abs(d);
  }

  lemma SumsWithin(samples: seq<Sample>)
    requires Bounded(samples)
    ensures 0 <= Total(samples, Correct) <= |samples| && 0 <= Total(samples, Disagrees) <= |samples|
    ensures 0 <= Total(samples, Confidence) <= |samples| * SCALE
    ensures 0 <= Total(samples, Distance) <= |samples| * SCALE
    ensures 0 <= Total(samples, Square) <= |samples| * (SCALE * SCALE)
  {
    TotalWithin(samples, Correct, 1);
    TotalWithin(samples, Disagrees, 1);
    TotalWithin(samples, Confidence, SCALE);
    TotalWithin(samples, Distance, SCALE);
    forall i | 0 <= i < |samples| ensures 0 <= Square(samples[i]) <= SCALE * SCALE {
      SquareWithin(Difference(samples[i]));
    }
    TotalWithin(samples, Square, SCALE * SCALE);
  }

  /** Every parts-per-million metric lies between 0 and SCALE. */
  lemma MetricsInRange(cases: seq<Case>, obs: map<string, Entry>)
    requires cases != [] && Observed(cases, obs)
    ensures MetricsOk(Summary(cases, obs))
  {
    var total, samples := |cases|, Samples(cases, obs);
    var n := |samples|;
    FloorWithin(BaselineHits(cases) * SCALE, total, SCALE);
    FloorWithin((total - n) * SCALE, total, SCALE);
    NearestRank(Latencies(cases, obs));
    if n > 0 {
      SumsWithin(samples);
      BucketErrorBelowDistance(samples);
      FloorWithin(Total(samples, Correct) * SCALE, n, SCALE);
      FloorWithin(Total(samples, Disagrees) * SCALE, n, SCALE);
      FloorWithin(Total(samples, Confidence), n, SCALE);
      FloorWithin(BucketError(samples, 10), n, SCALE);
      assert n * (SCALE * SCALE) == n * SCALE * SCALE;
      FloorWithin(Total(samples, Square), n * SCALE, SCALE);
    }
  }

  /** Rounding costs the calibration gap at most one part per million against the binned error. */
  lemma GapWithinError(cases: seq<Case>, obs: map<string, Entry>)
    requires cases != [] && Observed(cases, obs) && Samples(cases, obs) != []
    ensures var m := Summary(cases, obs);
      m.calibrationGap.Some? && m.expectedCalibrationError.Some?
      && m.calibrationGap.value <= m.expectedCalibrationError.value + 1
  {
    var samples := Samples(cases, obs);
    BucketsAddUp(samples);
    BucketsCover(samples, 10);
    SignedTotal(samples);
    FloorGap(Total(samples, Confidence), Total(samples, Correct) * SCALE, BucketError(samples, 10), |samples|);
  }

  /** The binned error squared stays below the Brier score, floors included. */
  lemma ErrorWithinBrier(cases: seq<Case>, obs: map<string, Entry>)
    requires cases != [] && Observed(cases, obs) && Samples(cases, obs) != []
    ensures var m := Summary(cases, obs);
      m.expectedCalibrationError.Some? && m.brierScore.Some?
      && m.expectedCalibrationError.value * m.expectedCalibrationError.value < SCALE * (m.brierScore.value + 1)
  {
    var samples := Samples(cases, obs);
    var n := |samples|;
    BucketErrorBelowDistance(samples);
    CauchySchwarz(samples);
    ErrorArithmetic(BucketError(samples, 10), Total(samples, Distance), Total(samples, Square), n);
  }

  lemma ErrorArithmetic(error: int, distance: int, squares: int, n: int)
    requires n > 0 && 0 <= error <= distance && distance * distance <= n * squares
    ensures (error / n) * (error / n) < SCALE * (squares / (n * SCALE) + 1)
  {
    var e, b := error / n, squares / (n * SCALE);
    FloorBounds(error, n);
    PositiveFactor(n, e);
    assert n * e >= 0;
    SquareMonotone(n * e, distance);
    assert (n * e) * (n * e) <= n * squares;
    FloorBounds(squares, n * SCALE);
    assert squares < n * SCALE * b + n * SCALE;
    assert n * (SCALE * (b + 1)) == n * SCALE * b + n * SCALE;
    var top := SCALE * (b + 1);
    assert squares < n * top;
    CancelSquare(n, e, top, squares);
  }

  lemma CancelSquare(n: int, e: int, top: int, squares: int)
    requires n > 0 && (n * e) * (n * e) <= n * squares && squares < n * top
    ensures e * e < top
  {
    assert (n * e) * (n * e) == n * (n * (e * e));
    assert n * (squares - n * (e * e)) == n * squares - n * (n * (e * e));
    PositiveFactor(n, squares - n * (e * e));
    assert n * (top - e * e) == n * top - n * (e * e);
    PositiveFactor(n, top - e * e - 1);
  }

  // ---------------------------------------------------------------- documents

  datatype Mode = Shadow | Advisory
  datatype SourceKind = Fixture | Live

  predicate Alphanumeric(c: char) {
    'A' <= c <= 'Z' || 'a' <= c <= 'z' || '0' <= c <= '9'
  }

  predicate Identifier(s: string) {
    1 <= |s| <= 128 && Alphanumeric(s[0])
    && forall i :: 1 <= i < |s| ==> Alphanumeric(s[i]) || s[i] in "._/-"
  }

  predicate CaseOk(c: Case) {
    && Identifier(c.id) && 2 <= |c.choices| <= 24
    && (forall i :: 0 <= i < |c.choices| ==> Identifier(c.choices[i]))
    && (forall i, j :: 0 <= i < j < |c.choices| ==> c.choices[i] != c.choices[j])
    && c.expected in c.choices && c.baseline in c.choices
  }

  predicate DistinctIds(cases: seq<Case>) {
    forall i, j :: 0 <= i < j < |cases| ==> cases[i].id != cases[j].id
  }

  /** A corpus, with the digest of the file it was read from. */
  datatype Corpus = Corpus(labelVersion: string, cases: seq<Case>, sha256: string)

  predicate CorpusOk(c: Corpus) {
    && Identifier(c.labelVersion) && Text.IsDigest(c.sha256)
    && 2 <= |c.cases| <= MAX_CASES
    && (forall i :: 0 <= i < |c.cases| ==> CaseOk(c.cases[i]))
    && DistinctIds(c.cases)
    && (exists i :: 0 <= i < |c.cases| && c.cases[i].purpose == Routing)
    && (exists i :: 0 <= i < |c.cases| && c.cases[i].purpose == ToolRisk)
  }

  /** One pinned reference of a binding. */
  datatype Reference = Reference(id: string, version: string, sha256: string)
  type Binding = map<string, Reference>
  type Bindings = map<Purpose, Binding>

  const BINDINGS: set<string> := {"provider", "adapter", "model", "probability_semantics", "question_set", "policy"}
  const FLOATING: set<string> := {"latest", "default", "auto", "current"}

  function LowerChar(c: char): char {
    if 'A' <= c <= 'Z' then c - 'A' + 'a' else c
  }

  /** The lower case of an identifier, which is ASCII. */
  function Lower(s: string): string {
    if s == "" then "" else [LowerChar(s[0])] + Lower(s[1..])
  }

  /** A reference is pinned: identified, versioned by no floating name, and digested. */
  predicate IsPinned(r: Reference) {
    Identifier(r.id) && Identifier(r.version) && Lower(r.version) !in FLOATING && Text.IsDigest(r.sha256)
  }

  predicate BindingOk(b: Binding) {
    b.Keys == BINDINGS && forall role :: role in b ==> IsPinned(b[role])
  }

  /** Both purposes are bound, each to exactly the six roles, all pinned. */
  predicate BindingsOk(b: Bindings) {
    b.Keys == {Routing, ToolRisk} && forall p :: p in b ==> BindingOk(b[p])
  }

  datatype Document = Document(
    mode: Mode, sourceKind: SourceKind, bindings: Bindings, corpusSha256: string, entries: seq<Entry>, sha256: string)

  function CaseById(cases: seq<Case>): (m: map<string, Case>)
    requires DistinctIds(cases)
    ensures forall i :: 0 <= i < |cases| ==> cases[i].id in m && m[cases[i].id] == cases[i]
    ensures forall id :: id in m ==> m[id].id == id && m[id] in cases
  {
    map i | 0 <= i < |cases| :: cases[i].id := cases[i]
  }

  /** Every entry answers a case of its own, with a receipt of its own. */
  predicate EntriesOk(byId: map<string, Case>, entries: seq<Entry>) {
    && (forall i :: 0 <= i < |entries| ==> entries[i].caseId in byId && EntryOk(byId[entries[i].caseId], entries[i]))
    && (forall i :: 0 <= i < |entries| ==> Text.IsDigest(entries[i].receipt))
    && (forall i, j :: 0 <= i < j < |entries| ==> entries[i].caseId != entries[j].caseId)
    && (forall i, j :: 0 <= i < j < |entries| ==> entries[i].receipt != entries[j].receipt)
  }

  /** What a document must satisfy against a corpus. */
  predicate DocumentOk(corpus: Corpus, d: Document)
    requires DistinctIds(corpus.cases)
  {
    && d.corpusSha256 == corpus.sha256 && Text.IsDigest(d.sha256) && BindingsOk(d.bindings)
    && |d.entries| == |corpus.cases|
    && EntriesOk(CaseById(corpus.cases), d.entries)
  }

  /** The validating loop, with the sets of cases and receipts seen so far. */
  method ValidateEntries(byId: map<string, Case>, entries: seq<Entry>) returns (ok: bool)
    ensures ok <==> EntriesOk(byId, entries)
  {
    var observed: set<string>, receipts: set<string> := {}, {};
    for n := 0 to |entries|
      invariant observed == set i | 0 <= i < n :: entries[i].caseId
      invariant receipts == set i | 0 <= i < n :: entries[i].receipt
      invariant EntriesOk(byId, entries[..n])
    {
      var entry := entries[n];
      assert entries[..n + 1] == entries[..n] + [entry];
      assert forall i :: 0 <= i < n ==> entries[..n][i] == entries[i];
      if entry.caseId !in byId || entry.caseId in observed {
        return false;
      }
      observed := observed + {entry.caseId};
      if !Text.IsDigest(entry.receipt) || entry.receipt in receipts {
        return false;
      }
      receipts := receipts + {entry.receipt};
      if !EntryOk(byId[entry.caseId], entry) {
        return false;
      }
    }
    assert entries[..|entries|] == entries;
    return true;
  }

  /** The loops over the purposes and over the roles of each. */
  method ValidateBindings(bindings: Bindings) returns (ok: bool)
    ensures ok <==> BindingsOk(bindings)
  {
    if bindings.Keys != {Routing, ToolRisk} {
      return false;
    }
    var purposes := bindings.Keys;
    while purposes != {}
      invariant purposes <= bindings.Keys && forall p :: p in bindings && p !in purposes ==> BindingOk(bindings[p])
      decreases |purposes|
    {
      var p :| p in purposes;
      purposes := purposes - {p};
      ok := ValidateBinding(bindings[p]);
      if !ok {
        return false;
      }
    }
    return true;
  }

  method ValidateBinding(binding: Binding) returns (ok: bool)
    ensures ok <==> BindingOk(binding)
  {
    if binding.Keys != BINDINGS {
      return false;
    }
    var roles := binding.Keys;
    while roles != {}
      invariant roles <= binding.Keys && forall role :: role in binding && role !in roles ==> IsPinned(binding[role])
      decreases |roles|
    {
      var role :| role in roles;
      roles := roles - {role};
      if !IsPinned(binding[role]) {
        return false;
      }
    }
    return true;
  }

  method Validate(corpus: Corpus, d: Document) returns (ok: bool)
    requires DistinctIds(corpus.cases)
    ensures ok <==> DocumentOk(corpus, d)
  {
    if d.corpusSha256 != corpus.sha256 || !Text.IsDigest(d.sha256) {
      return false;
    }
    var bound := ValidateBindings(d.bindings);
    if !bound || |d.entries| != |corpus.cases| {
      return false;
    }
    ok := ValidateEntries(CaseById(corpus.cases), d.entries);
  }

  function ByCase(entries: seq<Entry>): map<string, Entry> {
    if entries == [] then map[]
    else ByCase(entries[..|entries| - 1])[entries[|entries| - 1].caseId := entries[|entries| - 1]]
  }

  lemma {:induction false} ByCaseHas(entries: seq<Entry>, i: nat)
    requires forall j, k :: 0 <= j < k < |entries| ==> entries[j].caseId != entries[k].caseId
    requires i < |entries|
    ensures entries[i].caseId in ByCase(entries) && ByCase(entries)[entries[i].caseId] == entries[i]
  {
    var last := |entries| - 1;
    if i < last {
      ByCaseHas(entries[..last], i);
    }
  }

  lemma {:induction false} DistinctCount(ids: seq<string>)
    requires forall i, j :: 0 <= i < j < |ids| ==> ids[i] != ids[j]
    ensures |set id | id in ids| == |ids|
  {
    if ids == [] {
      assert (set id | id in ids) == {};
    } else {
      var rest := ids[1..];
      DistinctCount(rest);
      assert ids == [ids[0]] + rest;
      assert (set id | id in ids) == {ids[0]} + set id | id in rest;
    }
  }

  lemma SubsetOfSameSize<T>(a: set<T>, b: set<T>)
    requires a <= b && |a| == |b|
    ensures a == b
  {
    assert b == a + (b - a);
    assert |b| == |a| + |b - a|;
  }

  function Ids(entries: seq<Entry>): (ids: seq<string>)
    ensures |ids| == |entries| && forall i :: 0 <= i < |ids| ==> ids[i] == entries[i].caseId
  {
    seq(|entries|, i requires 0 <= i < |entries| => entries[i].caseId)
  }

  function CaseIds(cases: seq<Case>): (ids: seq<string>)
    ensures |ids| == |cases| && forall i :: 0 <= i < |ids| ==> ids[i] == cases[i].id
  {
    seq(|cases|, i requires 0 <= i < |cases| => cases[i].id)
  }

  lemma CaseByIdCount(cases: seq<Case>)
    requires DistinctIds(cases)
    ensures |CaseById(cases).Keys| == |cases|
  {
    DistinctCount(CaseIds(cases));
    assert CaseById(cases).Keys == set id | id in CaseIds(cases);
  }

  lemma EveryIdSeen(byId: map<string, Case>, entries: seq<Entry>, id: string)
    requires EntriesOk(byId, entries) && |entries| == |byId.Keys| && id in byId
    ensures id in ByCase(entries) && EntryOk(byId[id], ByCase(entries)[id])
  {
    var ids := Ids(entries);
    var seen := set x | x in ids;
    DistinctCount(ids);
    SubsetOfSameSize(seen, byId.Keys);
    assert id in seen;
    var i :| 0 <= i < |ids| && ids[i] == id;
    ByCaseHas(entries, i);
  }

  /** As many entries as cases, no case twice: every case has its observation, and a usable one. */
  lemma EveryCaseObserved(corpus: Corpus, d: Document)
    requires DistinctIds(corpus.cases) && DocumentOk(corpus, d)
    ensures Observed(corpus.cases, ByCase(d.entries))
  {
    var byId := CaseById(corpus.cases);
    CaseByIdCount(corpus.cases);
    forall n | 0 <= n < |corpus.cases|
      ensures corpus.cases[n].id in ByCase(d.entries) && EntryOk(corpus.cases[n], ByCase(d.entries)[corpus.cases[n].id])
    {
      EveryIdSeen(byId, d.entries, corpus.cases[n].id);
    }
  }

  // ---------------------------------------------------------------- reports

  /** Differences of all eleven metrics, in the order of `Figures`. */
  type Deltas = seq<Option<real>>

  datatype Drift = Drift(reference: string, routing: Deltas, toolRisk: Deltas)

  datatype Report = Report(
    corpusSha256: string, labelVersion: string, mode: Mode, sourceKind: SourceKind, bindings: Bindings,
    observationsSha256: string, routing: Metrics, toolRisk: Metrics, drift: Option<Drift>)

  function OfPurpose(cases: seq<Case>, p: Purpose): (chosen: seq<Case>)
    ensures |chosen| <= |cases|
    ensures forall i :: 0 <= i < |chosen| ==> chosen[i] in cases
    ensures (exists i :: 0 <= i < |cases| && cases[i].purpose == p) ==> chosen != []
  {
    if cases == [] then []
    else if cases[0].purpose == p then [cases[0]] + OfPurpose(cases[1..], p)
    else
      assert forall i :: 1 <= i < |cases| ==> cases[i] == cases[1..][i - 1];
      OfPurpose(cases[1..], p)
  }

  lemma PurposeObserved(corpus: Corpus, d: Document, p: Purpose)
    requires CorpusOk(corpus) && DocumentOk(corpus, d)
    ensures OfPurpose(corpus.cases, p) != [] && Observed(OfPurpose(corpus.cases, p), ByCase(d.entries))
  {
    EveryCaseObserved(corpus, d);
  }

  function MetricsFor(corpus: Corpus, d: Document, p: Purpose): Metrics
    requires CorpusOk(corpus) && DocumentOk(corpus, d)
  {
    PurposeObserved(corpus, d, p);
    Summary(OfPurpose(corpus.cases, p), ByCase(d.entries))
  }

  function Evaluate(corpus: Corpus, d: Document): (r: Report)
    requires CorpusOk(corpus) && DocumentOk(corpus, d)
    ensures r.mode == d.mode
  {
    Report(d.corpusSha256, corpus.labelVersion, d.mode, d.sourceKind, d.bindings, d.sha256,
           MetricsFor(corpus, d, Routing), MetricsFor(corpus, d, ToolRisk), None)
  }

  function Real(v: Option<int>): Option<real> {
    match v case None => None case Some(x) => Some(x as real)
  }

  function Figures(m: Metrics): seq<Option<real>> {
    [Some(m.cases as real), Some(m.completed as real), Some(m.baselineAccuracy as real), Real(m.modelAccuracy),
     Real(m.disagreement), Real(m.meanConfidence), Real(m.brierScore), Real(m.calibrationGap),
     Real(m.expectedCalibrationError), Some(m.failureRate as real), Some(m.p95Latency)]
  }

  function Minus(a: Option<real>, b: Option<real>): Option<real> {
    if a.Some? && b.Some? then Some(a.value - b.value) else None
  }

  function Subtract(now: Metrics, before: Metrics): Deltas {
    seq(11, i requires 0 <= i < 11 => Minus(Figures(now)[i], Figures(before)[i]))
  }

  /** The checks on one purpose of an earlier report. */
  predicate AcceptsMetrics(now: Metrics, earlier: Metrics) {
    && earlier.cases == now.cases && earlier.baselineAccuracy == now.baselineAccuracy
    && 0 <= earlier.completed <= earlier.cases
    && 0 <= earlier.cases <= MAX_CASES && earlier.completed <= MAX_CASES
    && OptionalPpm(earlier.modelAccuracy, earlier.completed) && OptionalPpm(earlier.disagreement, earlier.completed)
    && OptionalPpm(earlier.meanConfidence, earlier.completed) && OptionalPpm(earlier.brierScore, earlier.completed)
    && OptionalPpm(earlier.calibrationGap, earlier.completed)
          && OptionalPpm(earlier.expectedCalibrationError, earlier.completed)
    && Ppm(earlier.baselineAccuracy) && Ppm(earlier.failureRate)
    && 0.0 <= earlier.p95Latency <= MAX_LATENCY
    && earlier.cases != 0 && earlier.failureRate == (earlier.cases - earlier.completed) * SCALE / earlier.cases
  }

  predicate AcceptsDeltas(ds: Deltas) {
    |ds| == 11 && forall i :: 0 <= i < 11 && ds[i].Some? ==> -MAX_LATENCY <= ds[i].value <= MAX_LATENCY
  }

  /** All that is required of an earlier report before drift against it is computed. */
  predicate AcceptsPrevious(current: Report, previous: Report) {
    && Text.IsDigest(previous.observationsSha256)
    && previous.corpusSha256 == current.corpusSha256 && previous.labelVersion == current.labelVersion
    && previous.bindings == current.bindings && previous.sourceKind == current.sourceKind
    && (previous.mode == Shadow || current.mode == Advisory)
    && (previous.mode == Advisory ==> previous.drift.Some?)
    && AcceptsMetrics(current.routing, previous.routing) && AcceptsMetrics(current.toolRisk, previous.toolRisk)
    && (previous.drift.Some? ==>
          && Text.IsDigest(previous.drift.value.reference)
          && AcceptsDeltas(previous.drift.value.routing) && AcceptsDeltas(previous.drift.value.toolRisk))
  }

  /** A stored report, with the digest of its file. */
  datatype Stored = Stored(report: Report, sha256: string)

  /** The report with its drift against an earlier one, if that one is acceptable. */
  function Compared(report: Report, stored: Stored): (r: Option<Report>)
    ensures r.Some? <==> AcceptsPrevious(report, stored.report)
    ensures r.Some? ==> r.value.mode == report.mode && (stored.report.mode == Advisory ==> report.mode == Advisory)
  {
    if !AcceptsPrevious(report, stored.report) then None
    else
      Some(report.(drift := Some(Drift(stored.sha256,
        Subtract(report.routing, stored.report.routing), Subtract(report.toolRisk, stored.report.toolRisk)))))
  }

  /** The report that is written: with its drift against an earlier one, or as the first, which is a shadow run. */
  function Issued(report: Report, previous: Option<Stored>): (r: Option<Report>)
    ensures r.Some? && previous.None? ==> r.value.mode == Shadow
    ensures r.Some? && previous.Some? && previous.value.report.mode == Advisory ==> r.value.mode == Advisory
  {
    if previous.Some? then Compared(report, previous.value)
    else
      match report.mode
      case Advisory => None
      case Shadow => Some(report)
  }

  /** One run of the evaluate command on a validated document. */
  function Run(corpus: Corpus, d: Document, previous: Option<Stored>): Option<Report>
    requires CorpusOk(corpus)
  {
    if !DocumentOk(corpus, d) then None else Issued(Evaluate(corpus, d), previous)
  }

  /** Everything a written report satisfies, whatever it was compared with. */
  predicate Sound(corpus: Corpus, d: Document, r: Report)
    requires CorpusOk(corpus) && DocumentOk(corpus, d)
  {
    && r.(drift := None) == Evaluate(corpus, d)
    && MetricsOk(r.routing) && MetricsOk(r.toolRisk)
    && r.routing.cases <= MAX_CASES && r.toolRisk.cases <= MAX_CASES
    && (r.mode == Advisory ==> r.drift.Some?)
    && (r.drift.Some? ==>
          Text.IsDigest(r.drift.value.reference) && AcceptsDeltas(r.drift.value.routing)
                && AcceptsDeltas(r.drift.value.toolRisk))
  }

  lemma DeltasWithin(now: Metrics, earlier: Metrics)
    requires MetricsOk(now) && now.cases <= MAX_CASES && AcceptsMetrics(now, earlier)
    ensures AcceptsDeltas(Subtract(now, earlier))
  {
  }

  lemma MetricsSound(corpus: Corpus, d: Document, p: Purpose)
    requires CorpusOk(corpus) && DocumentOk(corpus, d)
    ensures MetricsOk(MetricsFor(corpus, d, p)) && MetricsFor(corpus, d, p).cases <= MAX_CASES
  {
    PurposeObserved(corpus, d, p);
    MetricsInRange(OfPurpose(corpus.cases, p), ByCase(d.entries));
  }

  lemma WrittenIsSound(corpus: Corpus, d: Document, previous: Option<Stored>)
    requires CorpusOk(corpus) && (previous.Some? ==> Text.IsDigest(previous.value.sha256))
    requires Run(corpus, d, previous).Some?
    ensures DocumentOk(corpus, d) && Sound(corpus, d, Run(corpus, d, previous).value)
  {
    MetricsSound(corpus, d, Routing);
    MetricsSound(corpus, d, ToolRisk);
    if previous.Some? {
      DeltasWithin(MetricsFor(corpus, d, Routing), previous.value.report.routing);
      DeltasWithin(MetricsFor(corpus, d, ToolRisk), previous.value.report.toolRisk);
    }
  }

  /** The labels alone fix the number of cases and the baseline accuracy. */
  lemma SameLabels(corpus: Corpus, d: Document, later: Document, p: Purpose)
    requires CorpusOk(corpus) && DocumentOk(corpus, d) && DocumentOk(corpus, later)
    ensures MetricsFor(corpus, d, p).cases == MetricsFor(corpus, later, p).cases
    ensures MetricsFor(corpus, d, p).baselineAccuracy == MetricsFor(corpus, later, p).baselineAccuracy
  {
  }

  lemma MetricsAccepted(now: Metrics, earlier: Metrics)
    requires MetricsOk(earlier) && earlier.cases <= MAX_CASES
    requires earlier.cases == now.cases && earlier.baselineAccuracy == now.baselineAccuracy
    ensures AcceptsMetrics(now, earlier)
  {
  }

  /** A report the tool wrote is accepted as `previous` of a later run over the same corpus exactly
      when bindings and source kind agree and the mode does not go back. */
  lemma WrittenReportsAreAccepted(corpus: Corpus, d: Document, before: Option<Stored>, later: Document)
    requires CorpusOk(corpus) && (before.Some? ==> Text.IsDigest(before.value.sha256))
    requires Run(corpus, d, before).Some? && DocumentOk(corpus, later)
    ensures AcceptsPrevious(Evaluate(corpus, later), Run(corpus, d, before).value) <==>
            d.bindings == later.bindings && d.sourceKind == later.sourceKind
                  && (d.mode == Shadow || later.mode == Advisory)
  {
    WrittenIsSound(corpus, d, before);
    SoundIsAccepted(corpus, d, Run(corpus, d, before).value, later);
  }

  lemma SoundIsAccepted(corpus: Corpus, d: Document, written: Report, later: Document)
    requires CorpusOk(corpus) && DocumentOk(corpus, d) && DocumentOk(corpus, later) && Sound(corpus, d, written)
    ensures AcceptsPrevious(Evaluate(corpus, later), written) <==>
            d.bindings == later.bindings && d.sourceKind == later.sourceKind
                  && (d.mode == Shadow || later.mode == Advisory)
  {
    SameLabels(corpus, d, later, Routing);
    SameLabels(corpus, d, later, ToolRisk);
    var current := Evaluate(corpus, later);
    MetricsAccepted(current.routing, written.routing);
    MetricsAccepted(current.toolRisk, written.toolRisk);
  }

  // ---------------------------------------------------------------- chains of runs

  ghost predicate Written(corpus: Corpus, d: Document, previous: Option<Stored>, r: Report)
    requires CorpusOk(corpus)
  {
    Run(corpus, d, previous) == Some(r)
  }

  /** Runs of the tool in order, the latest outermost. */
  datatype History = First(d: Document, s: Stored) | Then(earlier: History, d: Document, s: Stored)

  /** Each report was written with the one before it as `previous`; the first had none. */
  ghost predicate Chain(corpus: Corpus, h: History)
    requires CorpusOk(corpus)
  {
    match h
    case First(d, s) => Written(corpus, d, None, s.report)
    case Then(earlier, d, s) => Chain(corpus, earlier) && Written(corpus, d, Some(earlier.s), s.report)
  }

  function Modes(h: History): (modes: seq<Mode>)
    ensures modes != [] && modes[|modes| - 1] == h.s.report.mode
  {
    match h
    case First(_, s) => [s.report.mode]
    case Then(earlier, _, s) => Modes(earlier) + [s.report.mode]
  }

  lemma ModeRules(corpus: Corpus, d: Document, previous: Option<Stored>, r: Report)
    requires CorpusOk(corpus) && Written(corpus, d, previous, r)
    ensures previous.None? ==> r.mode == Shadow
    ensures previous.Some? && previous.value.report.mode == Advisory ==> r.mode == Advisory
  {
  }

  predicate NeverBack(h: History) {
    match h
    case First(_, s) => s.report.mode == Shadow
    case Then(earlier, _, s) => NeverBack(earlier) && (earlier.s.report.mode == Advisory ==> s.report.mode == Advisory)
  }

  lemma {:induction false} ChainsNeverGoBack(corpus: Corpus, h: History)
    requires CorpusOk(corpus) && Chain(corpus, h)
    ensures NeverBack(h)
  {
    if h.First? {
      ModeRules(corpus, h.d, None, h.s.report);
    } else {
      ChainsNeverGoBack(corpus, h.earlier);
      ModeRules(corpus, h.d, Some(h.earlier.s), h.s.report);
    }
  }

  lemma {:induction false} OneSwitch(h: History) returns (k: nat)
    requires NeverBack(h)
    ensures 1 <= k <= |Modes(h)|
    ensures forall i :: 0 <= i < |Modes(h)| ==> (Modes(h)[i] == Shadow <==> i < k)
  {
    match h
    case First(_, _) => k := 1;
    case Then(earlier, _, s) =>
      k := OneSwitch(earlier);
      if s.report.mode == Shadow {
        k := |Modes(h)|;
      }
  }

  /** Along any chain the modes are a block of shadow, never empty, and then a block of advisory. */
  lemma ShadowThenAdvisory(corpus: Corpus, h: History) returns (k: nat)
    requires CorpusOk(corpus) && Chain(corpus, h)
    ensures 1 <= k <= |Modes(h)|
    ensures forall i :: 0 <= i < |Modes(h)| ==> (Modes(h)[i] == Shadow <==> i < k)
  {
    ChainsNeverGoBack(corpus, h);
    k := OneSwitch(h);
  }

  /** Every stored report has the digest of its file. */
  predicate Digested(h: History) {
    Text.IsDigest(h.s.sha256) && (h.Then? ==> Digested(h.earlier))
  }

  lemma RunsExactlyWhenAccepted(corpus: Corpus, later: Document, stored: Stored)
    requires CorpusOk(corpus) && DocumentOk(corpus, later)
    ensures Run(corpus, later, Some(stored)).Some? <==> AcceptsPrevious(Evaluate(corpus, later), stored.report)
  {
  }

  function Before(h: History): Option<Stored> {
    if h.First? then None else Some(h.earlier.s)
  }

  lemma LastIsWritten(corpus: Corpus, h: History)
    requires CorpusOk(corpus) && Chain(corpus, h) && Digested(h)
    ensures Run(corpus, h.d, Before(h)) == Some(h.s.report)
    ensures Before(h).Some? ==> Text.IsDigest(Before(h).value.sha256)
  {
    assert Written(corpus, h.d, Before(h), h.s.report);
  }

  lemma AcceptedExactly(corpus: Corpus, d: Document, before: Option<Stored>, written: Report, later: Document)
    requires CorpusOk(corpus) && (before.Some? ==> Text.IsDigest(before.value.sha256))
    requires Run(corpus, d, before) == Some(written) && DocumentOk(corpus, later)
    ensures AcceptsPrevious(Evaluate(corpus, later), written) <==>
            d.bindings == later.bindings && d.sourceKind == later.sourceKind
                  && (d.mode == Shadow || later.mode == Advisory)
  {
    WrittenReportsAreAccepted(corpus, d, before, later);
  }

  /** And any chain goes on with any valid document of the corpus, exactly when bindings and source kind stay and
      the mode does not go back. */
  lemma ChainsGoOn(corpus: Corpus, h: History, later: Document)
    requires CorpusOk(corpus) && Chain(corpus, h) && Digested(h) && DocumentOk(corpus, later)
    ensures Run(corpus, later, Some(h.s)).Some? <==>
            h.d.bindings == later.bindings && h.d.sourceKind == later.sourceKind
                  && (h.d.mode == Shadow || later.mode == Advisory)
  {
    LastIsWritten(corpus, h);
    AcceptedExactly(corpus, h.d, Before(h), h.s.report, later);
    RunsExactlyWhenAccepted(corpus, later, h.s);
  }
}
