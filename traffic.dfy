/**
 * Per-host traffic history and the anomaly heuristics of
 * `NetworkMonitor.analyze_traffic` and `detect_anomalies`. Means and
 * variances are exact reals; the standard deviation appears only through
 * its square, the variance, so the spike test is stated in squared form.
 */
module Traffic {
  import opened Wrappers
  import opened Text
  import opened Risk

  /** One traffic reading; the timestamp counts microseconds, the resolution of `datetime`. */
  datatype Sample = Sample(timestamp: int, packetCount: int, packetSize: int)

  /** `timedelta(hours=24)` in microseconds. */
  const Day: int := 86_400_000_000

  /** The analysis looks at the last 10 samples. */
  const WindowSize: nat := 10

  /** `anomaly_thresholds`; the connection frequency is configured but no check reads it. */
  datatype Thresholds = Thresholds(trafficSpike: real, portScanAttempts: int, connectionFrequency: int)

  const DefaultThresholds: Thresholds := Thresholds(2.0, 5, 10)

  // ---------------------------------------------------------------------
  // History: append, then keep the last 24 hours
  // ---------------------------------------------------------------------

  /** `[d for d in h if d['timestamp'] > cutoff]`. */
  function Prune(h: seq<Sample>, cutoff: int): seq<Sample>
    decreases |h|
  {
    if h == [] then []
    else Prune(h[..|h| - 1], cutoff) + (if h[|h| - 1].timestamp > cutoff then [h[|h| - 1]] else [])
  }

  /** The history after `analyze_traffic` appends `sample` (taken now) and prunes. */
  function Record(h: seq<Sample>, sample: Sample): seq<Sample> {
    Prune(h + [sample], sample.timestamp - Day)
  }

  /** The pruned history holds exactly the samples newer than the cutoff. */
  lemma {:induction false} PruneMembers(h: seq<Sample>, cutoff: int)
    ensures forall x :: x in Prune(h, cutoff) <==> x in h && x.timestamp > cutoff
    decreases |h|
  {
    if h != [] {
      PruneMembers(h[..|h| - 1], cutoff);
      assert h == h[..|h| - 1] + [h[|h| - 1]];
    }
  }

  /** Pruning keeps the samples in their original order: it distributes over concatenation. */
  lemma {:induction false} PruneConcat(a: seq<Sample>, b: seq<Sample>, cutoff: int)
    ensures Prune(a + b, cutoff) == Prune(a, cutoff) + Prune(b, cutoff)
    decreases |b|
  {
    if b == [] {
      assert a + b == a;
    } else {
      var b' := b[..|b| - 1];
      assert (a + b)[..|a + b| - 1] == a + b';
      PruneConcat(a, b', cutoff);
    }
  }

  /**
   * `analyze_traffic` always keeps the sample it just appended, at the end,
   * after the older samples that are still inside the window.
   */
  lemma RecordKeepsNewSample(h: seq<Sample>, sample: Sample)
    ensures Record(h, sample) == Prune(h, sample.timestamp - Day) + [sample]
    ensures |Record(h, sample)| > 0 && Record(h, sample)[|Record(h, sample)| - 1] == sample
  {
    PruneConcat(h, [sample], sample.timestamp - Day);
    assert Prune([sample], sample.timestamp - Day) == [sample] by {
      assert [sample][..0] == [];
    }
  }

  /** No retained sample is 24 hours or more older than the newest reading. */
  lemma RecordWithinWindow(h: seq<Sample>, sample: Sample)
    ensures forall x :: x in Record(h, sample) ==> x.timestamp > sample.timestamp - Day
  {
    PruneMembers(h + [sample], sample.timestamp - Day);
  }

  /** `traffic_history[ip]` as a defaultdict of lists reads it: empty for an unseen host. */
  function HistoryOf(history: map<string, seq<Sample>>, ip: string): seq<Sample> {
    if ip in history then history[ip] else []
  }

  /** A non-empty history spanning less than 24 hours back from its newest sample. */
  predicate Windowed(h: seq<Sample>) {
    h != [] && forall i :: 0 <= i < |h| ==> h[i].timestamp > h[|h| - 1].timestamp - Day
  }

  /** After recording, a history is never empty and spans less than 24 hours from the new sample. */
  lemma RecordWindowed(h: seq<Sample>, sample: Sample)
    ensures Windowed(Record(h, sample))
  {
    RecordKeepsNewSample(h, sample);
    RecordWithinWindow(h, sample);
    var r := Record(h, sample);
    forall i | 0 <= i < |r| ensures r[i].timestamp > sample.timestamp - Day {
      assert r[i] in r;
    }
  }

  predicate Chronological(h: seq<Sample>) {
    forall i, j :: 0 <= i < j < |h| ==> h[i].timestamp <= h[j].timestamp
  }

  lemma {:induction false} PruneChronological(h: seq<Sample>, cutoff: int)
    requires Chronological(h)
    ensures Chronological(Prune(h, cutoff))
    decreases |h|
  {
    if h != [] {
      var init := h[..|h| - 1];
      var last := h[|h| - 1];
      PruneChronological(init, cutoff);
      PruneMembers(init, cutoff);
      var p := Prune(init, cutoff);
      forall x | x in p ensures x.timestamp <= last.timestamp {
        var i :| 0 <= i < |init| && init[i] == x;
        assert h[i] == x;
      }
    }
  }

  /** When readings arrive in time order, the history stays in time order. */
  lemma RecordChronological(h: seq<Sample>, sample: Sample)
    requires Chronological(h)
    requires forall x :: x in h ==> x.timestamp <= sample.timestamp
    ensures Chronological(Record(h, sample))
  {
    assert Chronological(h + [sample]) by {
      forall i, j | 0 <= i < j < |h| + 1 ensures (h + [sample])[i].timestamp <= (h + [sample])[j].timestamp {
        if j == |h| { assert (h + [sample])[i] == h[i]; }
      }
    }
    PruneChronological(h + [sample], sample.timestamp - Day);
  }

  // ---------------------------------------------------------------------
  // Window statistics
  // ---------------------------------------------------------------------

  /** `h[-10:]`: the last min(10, |h|) samples. */
  function Recent(h: seq<Sample>): (w: seq<Sample>)
    ensures |w| == if |h| <= WindowSize then |h| else WindowSize
    ensures w == h[|h| - |w|..]
  {
    if |h| <= WindowSize then h else h[|h| - WindowSize..]
  }

  function Counts(w: seq<Sample>): (xs: seq<int>)
    ensures |xs| == |w| && forall i :: 0 <= i < |w| ==> xs[i] == w[i].packetCount
  {
    seq(|w|, i requires 0 <= i < |w| => w[i].packetCount)
  }

  function Sizes(w: seq<Sample>): (xs: seq<int>)
    ensures |xs| == |w| && forall i :: 0 <= i < |w| ==> xs[i] == w[i].packetSize
  {
    seq(|w|, i requires 0 <= i < |w| => w[i].packetSize)
  }

  function Sum(xs: seq<int>): int
    decreases |xs|
  {
    if xs == [] then 0 else Sum(xs[..|xs| - 1]) + xs[|xs| - 1]
  }

  /** `statistics.mean`, exactly. */
  function Mean(xs: seq<int>): real
    requires |xs| > 0
  {
    Sum(xs) as real / |xs| as real
  }

  /** The sum of squared deviations from `m`. */
  function SquaredDeviations(xs: seq<int>, m: real): real
    decreases |xs|
  {
    if xs == [] then 0.0
    else SquaredDeviations(xs[..|xs| - 1], m) + (xs[|xs| - 1] as real - m) * (xs[|xs| - 1] as real - m)
  }

  /** The square of `statistics.stdev` (sample variance), and 0 for a single sample. */
  function Variance(xs: seq<int>): real
    requires |xs| > 0
  {
    if |xs| > 1 then SquaredDeviations(xs, Mean(xs)) / (|xs| - 1) as real else 0.0
  }

  lemma {:induction false} SquaredDeviationsNonNegative(xs: seq<int>, m: real)
    ensures SquaredDeviations(xs, m) >= 0.0
    decreases |xs|
  {
    if xs != [] {
      SquaredDeviationsNonNegative(xs[..|xs| - 1], m);
      var d := xs[|xs| - 1] as real - m;
      assert d * d >= 0.0 by { SquareNonNegative(d); }
    }
  }

  lemma SquareNonNegative(d: real)
    ensures d * d >= 0.0
  {
    if d < 0.0 {
      assert d * d == (-d) * (-d);
    }
  }

  /** The variance is never negative, so it has a real square root: the standard deviation. */
  lemma VarianceNonNegative(xs: seq<int>)
    requires |xs| > 0
    ensures Variance(xs) >= 0.0
  {
    SquaredDeviationsNonNegative(xs, Mean(xs));
  }

  // ---------------------------------------------------------------------
  // The two anomaly tests
  // ---------------------------------------------------------------------

  /**
   * `cur > mean + std * k` where `std * std == variance` and `std >= 0`,
   * written without the square root: for `k >= 0` the deviation must be
   * positive and its square above `k² · variance`; for `k < 0` it suffices
   * that the deviation is positive or its square is below `k² · variance`.
   */
  predicate ExceedsSpike(cur: int, mean: real, variance: real, k: real) {
    var d := cur as real - mean;
    if k >= 0.0 then d > 0.0 && d * d > k * k * variance
    else d > 0.0 || d * d < k * k * variance
  }

  /** How many of `xs` lie strictly above `bound`. */
  function CountAbove(xs: seq<int>, bound: real): (n: nat)
    ensures n <= |xs|
    decreases |xs|
  {
    if xs == [] then 0
    else CountAbove(xs[..|xs| - 1], bound) + (if xs[|xs| - 1] as real > bound then 1 else 0)
  }

  datatype AnomalyKind = TrafficSpike | PortScan

  datatype Anomaly = Anomaly(kind: AnomalyKind, severity: Level, description: string)

  /** `stats`, with variances in place of the standard deviations. */
  datatype Stats = Stats(avgPacketCount: real, avgPacketSize: real, varPacketCount: real, varPacketSize: real)

  /** `{'anomalies': [...]}` alone, or with `'stats'`. */
  datatype Report = Report(anomalies: seq<Anomaly>, stats: Option<Stats>)

  function SpikeAnomaly(count: int): Anomaly {
    Anomaly(TrafficSpike, High, "Pico anormal de tráfego detectado: " + IntToString(count) + " pacotes")
  }

  const PortScanAnomaly: Anomaly := Anomaly(PortScan, High, "Possível tentativa de varredura de porta detectada")

  predicate HasKind(anomalies: seq<Anomaly>, kind: AnomalyKind) {
    exists i :: 0 <= i < |anomalies| && anomalies[i].kind == kind
  }

  predicate HasAnomaly(r: Report, kind: AnomalyKind) {
    HasKind(r.anomalies, kind)
  }

  /** The anomaly list: the spike first, then the port scan, each only when its test fired. */
  function Assemble(spike: bool, scan: bool, current: int): (anomalies: seq<Anomaly>)
    ensures |anomalies| <= 2
    ensures forall i :: 0 <= i < |anomalies| ==> anomalies[i].severity == High
    ensures HasKind(anomalies, TrafficSpike) <==> spike
    ensures HasKind(anomalies, PortScan) <==> scan
  {
    var a := (if spike then [SpikeAnomaly(current)] else []) + (if scan then [PortScanAnomaly] else []);
    assert spike ==> a[0].kind == TrafficSpike;
    assert scan ==> a[|a| - 1].kind == PortScan;
    a
  }

  /** The window's counts, as the tests see them. */
  function WindowCounts(h: seq<Sample>): seq<int> {
    Counts(Recent(h))
  }

  /**
   * `detect_anomalies` on one host's history: nothing and no statistics for
   * an empty history; otherwise statistics over the last 10 samples, a
   * spike when the newest count exceeds mean + std * k, and a suspected port
   * scan when enough samples in the window exceed twice the mean. Every
   * anomaly it reports is of high severity.
   */
  function DetectAnomalies(h: seq<Sample>, th: Thresholds): (r: Report)
    ensures h == [] <==> r.stats.None?
    ensures h == [] ==> r.anomalies == []
    ensures |r.anomalies| <= 2
    ensures forall i :: 0 <= i < |r.anomalies| ==> r.anomalies[i].severity == High
  {
    if h == [] then Report([], None)
    else
      var w := Recent(h);
      var counts := Counts(w);
      var sizes := Sizes(w);
      var avg := Mean(counts);
      var current := counts[|counts| - 1];
      var spike := ExceedsSpike(current, avg, Variance(counts), th.trafficSpike);
      var scan := CountAbove(counts, avg * 2.0) >= th.portScanAttempts;
      Report(Assemble(spike, scan, current), Some(Stats(avg, Mean(sizes), Variance(counts), Variance(sizes))))
  }

  /**
   * The two tests are independent: a spike is reported exactly when the
   * newest count passes the spike test, a port scan exactly when enough
   * window counts exceed twice the mean.
   */
  lemma DetectAnomaliesTests(h: seq<Sample>, th: Thresholds)
    requires h != []
    ensures HasAnomaly(DetectAnomalies(h, th), TrafficSpike) <==>
      ExceedsSpike(h[|h| - 1].packetCount, Mean(WindowCounts(h)), Variance(WindowCounts(h)), th.trafficSpike)
    ensures HasAnomaly(DetectAnomalies(h, th), PortScan) <==>
      CountAbove(WindowCounts(h), Mean(WindowCounts(h)) * 2.0) >= th.portScanAttempts
  {
    var w := Recent(h);
    var counts := Counts(w);
    assert counts[|counts| - 1] == h[|h| - 1].packetCount;
    var spike := ExceedsSpike(counts[|counts| - 1], Mean(counts), Variance(counts), th.trafficSpike);
    var scan := CountAbove(counts, Mean(counts) * 2.0) >= th.portScanAttempts;
    assert DetectAnomalies(h, th).anomalies == Assemble(spike, scan, counts[|counts| - 1]);
  }

  // ---------------------------------------------------------------------
  // The squared spike test agrees with the test on the standard deviation
  // ---------------------------------------------------------------------

  /** For non-negative reals, comparing them and comparing their squares agree. */
  lemma SquareMonotone(a: real, b: real)
    requires a >= 0.0 && b >= 0.0
    ensures a < b <==> a * a < b * b
  {
    if a < b {
      RealProductNonNegative(a, b - a);
      assert a * (b - a) == a * b - a * a;
      ProductPositive(b, b - a);
      assert b * (b - a) == b * b - a * b;
    } else {
      RealProductNonNegative(b, a - b);
      assert b * (a - b) == a * b - b * b;
      RealProductNonNegative(a, a - b);
      assert a * (a - b) == a * a - a * b;
    }
  }

  lemma RealProductNonNegative(x: real, y: real)
    requires x >= 0.0 && y >= 0.0
    ensures x * y >= 0.0
  {
  }

  lemma ProductPositive(x: real, y: real)
    requires x > 0.0 && y > 0.0
    ensures x * y > 0.0
  {
  }

  /**
   * For every standard deviation `std` (the non-negative square root of the
   * variance), the squared test says exactly `cur > mean + std * k`.
   */
  lemma SpikeTestMatchesStdev(cur: int, mean: real, variance: real, k: real, std: real)
    requires std >= 0.0 && std * std == variance
    ensures ExceedsSpike(cur, mean, variance, k) <==> cur as real > mean + std * k
  {
    var d := cur as real - mean;
    if k >= 0.0 {
      var q := std * k;
      RealProductNonNegative(std, k);
      assert q * q == k * k * variance;
      if d > 0.0 {
        SquareMonotone(q, d);
      }
    } else {
      var a := std * (-k);
      RealProductNonNegative(std, -k);
      assert a * a == k * k * variance;
      assert std * k == -a;
      if d <= 0.0 {
        SquareMonotone(-d, a);
        assert (-d) * (-d) == d * d;
      }
    }
  }

  // ---------------------------------------------------------------------
  // Consequences of the thresholds
  // ---------------------------------------------------------------------

  /** A one-sample window holds that sample's count, which is its mean; its variance is 0. */
  lemma SingleSampleWindow(h: seq<Sample>)
    requires |h| == 1
    ensures WindowCounts(h) == [h[0].packetCount]
    ensures Mean(WindowCounts(h)) == h[0].packetCount as real
    ensures Variance(WindowCounts(h)) == 0.0
  {
    var xs := WindowCounts(h);
    var c := h[0].packetCount;
    assert xs == [c] by { assert Recent(h) == h; }
    assert Sum(xs) == c by { assert xs[..0] == []; }
    calc {
      Mean(xs);
      Sum(xs) as real / |xs| as real;
      c as real / 1.0;
    }
  }

  /** With a single sample in the window the variance is 0 and no spike is reported. */
  lemma SingleSampleNoSpike(h: seq<Sample>, th: Thresholds)
    requires |h| == 1
    ensures Variance(WindowCounts(h)) == 0.0
    ensures !HasAnomaly(DetectAnomalies(h, th), TrafficSpike)
    ensures th.portScanAttempts > 1 ==> DetectAnomalies(h, th).anomalies == []
  {
    SingleSampleWindow(h);
    var c := h[0].packetCount;
    assert !ExceedsSpike(c, c as real, 0.0, th.trafficSpike);
    DetectAnomaliesTests(h, th);
  }

  predicate NonNegative(xs: seq<int>) {
    forall i :: 0 <= i < |xs| ==> xs[i] >= 0
  }

  /** A total `s` of items of which `c` lie above `bound`: at least `bound * c`, and more when `c > 0`. */
  predicate Dominates(s: int, c: nat, bound: real) {
    s as real >= bound * c as real && (c > 0 ==> s as real > bound * c as real)
  }

  /** The samples above a non-negative bound add up to more than the bound times their number. */
  lemma {:induction false} SumExceedsCountAbove(xs: seq<int>, bound: real)
    requires NonNegative(xs) && bound >= 0.0
    ensures Dominates(Sum(xs), CountAbove(xs, bound), bound)
    decreases |xs|
  {
    if xs != [] {
      var init := xs[..|xs| - 1];
      var x := xs[|xs| - 1];
      assert NonNegative(init) by {
        forall i | 0 <= i < |init| ensures init[i] >= 0 { assert init[i] == xs[i]; }
      }
      SumExceedsCountAbove(init, bound);
      assert x >= 0 by { assert xs[|xs| - 1] == x; }
      OneMoreItem(Sum(init), x, bound, CountAbove(init, bound));
    }
  }

  /** Adding a non-negative item keeps the total dominant, counting the item when it is above the bound. */
  lemma OneMoreItem(s0: int, x: int, bound: real, c: nat)
    requires Dominates(s0, c, bound) && x >= 0 && bound >= 0.0
    ensures Dominates(s0 + x, c + (if x as real > bound then 1 else 0), bound)
  {
    if x as real > bound {
      assert bound * (c + 1) as real == bound * c as real + bound;
    }
  }

  /** With non-negative counts, fewer than half of them can exceed twice their mean. */
  lemma FewExceedTwiceMean(xs: seq<int>)
    requires |xs| > 0 && NonNegative(xs)
    ensures 2 * CountAbove(xs, Mean(xs) * 2.0) < |xs|
  {
    var bound := Mean(xs) * 2.0;
    SumNonNegative(xs);
    MeanNonNegative(Sum(xs) as real, |xs| as real);
    assert Mean(xs) >= 0.0;
    SumExceedsCountAbove(xs, bound);
    FewAboveTwiceMean(Sum(xs), |xs|, CountAbove(xs, bound), bound);
  }

  /** `FewExceedTwiceMean` on plain numbers: a total `s` of `n` items, `m` of them above twice the mean. */
  lemma FewAboveTwiceMean(s: int, n: int, m: nat, bound: real)
    requires s >= 0 && n > 0
    requires bound == s as real / n as real * 2.0
    requires Dominates(s, m, bound)
    ensures 2 * m < n
  {
    if m > 0 {
      MeanNonNegative(s as real, n as real);
      FewAboveBound(s as real, n as real, bound, m as real);
      assert (2 * m) as real < n as real;
    }
  }

  lemma MeanNonNegative(s: real, n: real)
    requires s >= 0.0 && n > 0.0
    ensures s / n >= 0.0
  {
  }

  /** If a total `s` of `n` items exceeds `m` times twice their mean `s / n`, then `n > 2 m`. */
  lemma FewAboveBound(s: real, n: real, bound: real, m: real)
    requires s >= 0.0 && n > 0.0 && m > 0.0
    requires bound == s / n * 2.0
    requires s > bound * m
    ensures 2.0 * m < n
  {
    var mean := s / n;
    assert mean * n == s;
    assert mean > 0.0;
    assert mean * n > mean * (2.0 * m);
    CancelPositive(mean, n, 2.0 * m);
  }

  lemma CancelPositive(a: real, x: real, y: real)
    requires a > 0.0 && a * x > a * y
    ensures x > y
  {
  }

  lemma {:induction false} SumNonNegative(xs: seq<int>)
    requires NonNegative(xs)
    ensures Sum(xs) >= 0
    decreases |xs|
  {
    if xs != [] {
      var init := xs[..|xs| - 1];
      assert NonNegative(init) by {
        forall i | 0 <= i < |init| ensures init[i] >= 0 { assert init[i] == xs[i]; }
      }
      SumNonNegative(init);
    }
  }

  /**
   * With non-negative packet counts, a window of at most 10 samples has at
   * most 4 above twice its mean, so with a threshold of 5 or more (the
   * configured 5) the port-scan anomaly is never reported.
   */
  lemma PortScanNeverFires(h: seq<Sample>, th: Thresholds)
    requires forall i :: 0 <= i < |h| ==> h[i].packetCount >= 0
    requires th.portScanAttempts >= 5
    ensures !HasAnomaly(DetectAnomalies(h, th), PortScan)
  {
    if h != [] {
      var xs := WindowCounts(h);
      WindowNonNegative(h);
      FewExceedTwiceMean(xs);
      assert CountAbove(xs, Mean(xs) * 2.0) < 5;
      DetectAnomaliesTests(h, th);
    }
  }

  /** The window of a history with non-negative counts has non-negative counts. */
  lemma WindowNonNegative(h: seq<Sample>)
    requires forall i :: 0 <= i < |h| ==> h[i].packetCount >= 0
    ensures NonNegative(WindowCounts(h))
  {
    var w := Recent(h);
    var xs := WindowCounts(h);
    forall i | 0 <= i < |xs| ensures xs[i] >= 0 { assert w[i] == h[|h| - |w| + i]; }
  }

  lemma SumStep(xs: seq<int>, k: nat)
    requires k < |xs|
    ensures Sum(xs[..k + 1]) == Sum(xs[..k]) + xs[k]
  {
    assert xs[..k + 1][..k] == xs[..k];
  }

  lemma SquaredDeviationsStep(xs: seq<int>, m: real, k: nat)
    requires k < |xs|
    ensures SquaredDeviations(xs[..k + 1], m) == SquaredDeviations(xs[..k], m) + (xs[k] as real - m) * (xs[k] as real - m)
  {
    assert xs[..k + 1][..k] == xs[..k];
  }

  /** The worked example: nine readings of 10 then one of 100 is a spike for multiplier 2. */
  lemma SpikeExample(h: seq<Sample>)
    requires |h| == 10
    requires forall i :: 0 <= i < 9 ==> h[i].packetCount == 10
    requires h[9].packetCount == 100
    ensures HasAnomaly(DetectAnomalies(h, DefaultThresholds), TrafficSpike)
  {
    var xs := WindowCounts(h);
    assert xs[..0] == [];
    var k := 0;
    while k < 10
      invariant 0 <= k <= 10
      invariant Sum(xs[..k]) == 10 * (if k <= 9 then k else 9) + (if k == 10 then 100 else 0)
      invariant SquaredDeviations(xs[..k], 19.0) == 81.0 * (if k <= 9 then k else 9) as real + (if k == 10 then 6561.0 else 0.0)
    {
      SumStep(xs, k);
      SquaredDeviationsStep(xs, 19.0, k);
      k := k + 1;
    }
    assert xs[..10] == xs;
    assert Mean(xs) == 19.0;
    assert Variance(xs) == 810.0;
    DetectAnomaliesTests(h, DefaultThresholds);
  }
}
