/**
 * The simple metrics collector: 64-bit counters that add up, gauges where the
 * last write wins, and a latency window per key that keeps the newest 100
 * durations. Keys arrive already built from a name and its tags.
 */
module Metrics {
  /** The number of durations a latency window keeps. */
  const WindowSize: nat := 100

  const Int64Min: int := -0x8000_0000_0000_0000
  const Int64Max: int := 0x7FFF_FFFF_FFFF_FFFF
  const TwoTo64: int := 0x1_0000_0000_0000_0000

  predicate InInt64(x: int) {
    Int64Min <= x <= Int64Max
  }

  /** Two's-complement wrap-around of Go's int64 addition. */
  function WrapInt64(x: int): (r: int)
    ensures InInt64(r)
    ensures (r - x) % TwoTo64 == 0
    ensures InInt64(x) ==> r == x
  {
    (x - Int64Min) % TwoTo64 + Int64Min
  }

  /** Wrapping an intermediate sum does not change the wrapped total. */
  lemma WrapAbsorbs(y: int, b: int)
    ensures WrapInt64(WrapInt64(y) + b) == WrapInt64(y + b)
  {
    var q := (y - Int64Min) / TwoTo64;
    assert WrapInt64(y) == y - q * TwoTo64;
    assert WrapInt64(y) + b - Int64Min == (y + b - Int64Min) - q * TwoTo64;
  }

  /** A gauge value: a float64 in Go, only ever stored and read back here. */
  type Gauge = real

  /** Durations are Go time.Duration values, in nanoseconds. */
  datatype Collector = Collector(counters: map<string, int>, gauges: map<string, Gauge>, latency: map<string, seq<int>>)

  /** NewSimpleMetricsCollector: nothing recorded yet. */
  const NewSimpleMetricsCollector: Collector := Collector(map[], map[], map[])

  /** Every window is within its bound and every counter is an int64. */
  predicate Valid(c: Collector) {
    (forall k :: k in c.latency ==> |c.latency[k]| <= WindowSize)
    && (forall k :: k in c.counters ==> InInt64(c.counters[k]))
  }

  /** The latency window of a key, empty when nothing was recorded (Go's nil slice). */
  function Window(c: Collector, key: string): seq<int> {
    if key in c.latency then c.latency[key] else []
  }

  /** A counter's value, zero when never recorded. */
  function Counter(c: Collector, key: string): int {
    if key in c.counters then c.counters[key] else 0
  }

  /**
   * The window after one more duration: the duration is appended and, if
   * that makes more than 100, the oldest entry is dropped.
   */
  function Slide(w: seq<int>, d: int): (r: seq<int>)
    ensures |r| > 0 && r[|r| - 1] == d
    ensures |w| < WindowSize ==> r == w + [d]
    ensures |w| >= WindowSize ==> (|r| == |w| && r[..|r| - 1] == w[1..])
  {
    var grown := w + [d];
    if |grown| > WindowSize then
      assert grown[1..][..|w| - 1] == w[1..];
      grown[1..]
    else grown
  }

  /**
   * RecordLatency: slides the key's window. Other keys and the other metrics
   * are untouched, and every window stays within the bound.
   */
  function RecordLatency(c: Collector, key: string, d: int): (r: Collector)
    ensures Window(r, key) == Slide(Window(c, key), d)
    ensures forall k :: k != key ==> Window(r, k) == Window(c, k)
    ensures r.latency.Keys == c.latency.Keys + {key}
    ensures r.counters == c.counters && r.gauges == c.gauges
    ensures Valid(c) ==> Valid(r)
  {
    c.(latency := c.latency[key := Slide(Window(c, key), d)])
  }

  /** Recording several durations under one key, in order. */
  function RecordLatencies(c: Collector, key: string, ds: seq<int>): Collector
    decreases |ds|
  {
    if |ds| == 0 then c else RecordLatencies(RecordLatency(c, key, ds[0]), key, ds[1..])
  }

  /** The last `n` elements of `s`, or all of them when there are fewer. */
  function Newest(s: seq<int>, n: nat): seq<int> {
    if |s| <= n then s else s[|s| - n..]
  }

  /**
   * Starting from any window within the bound, recording a run of durations
   * leaves exactly the newest 100 of the old window followed by the run.
   */
  lemma WindowKeepsNewest(c: Collector, key: string, ds: seq<int>)
    requires |Window(c, key)| <= WindowSize
    ensures Window(RecordLatencies(c, key, ds), key) == Newest(Window(c, key) + ds, WindowSize)
  {
    WindowSlides(c, key, ds);
    SlideAllKeepsNewest(Window(c, key), ds);
  }

  /** A window after sliding in a run of durations one by one. */
  function SlideAll(w: seq<int>, ds: seq<int>): seq<int>
    decreases |ds|
  {
    if |ds| == 0 then w else SlideAll(Slide(w, ds[0]), ds[1..])
  }

  /** Recording a run slides the key's window once per duration. */
  lemma {:induction false} WindowSlides(c: Collector, key: string, ds: seq<int>)
    ensures Window(RecordLatencies(c, key, ds), key) == SlideAll(Window(c, key), ds)
    decreases |ds|
  {
    if |ds| > 0 {
      WindowSlides(RecordLatency(c, key, ds[0]), key, ds[1..]);
    }
  }

  lemma {:induction false} SlideAllKeepsNewest(w: seq<int>, ds: seq<int>)
    requires |w| <= WindowSize
    ensures SlideAll(w, ds) == Newest(w + ds, WindowSize)
    decreases |ds|
  {
    if |ds| > 0 {
      SlideKeepsNewest(w, ds[0]);
      SlideAllKeepsNewest(Slide(w, ds[0]), ds[1..]);
      NewestAppend(w + [ds[0]], ds[1..]);
      assert (w + [ds[0]]) + ds[1..] == w + ds;
    }
  }

  /** One slide of a window within the bound keeps the newest 100. */
  lemma SlideKeepsNewest(w: seq<int>, d: int)
    requires |w| <= WindowSize
    ensures Slide(w, d) == Newest(w + [d], WindowSize)
  {
  }

  /** Trimming before appending more does not change the newest 100. */
  lemma NewestAppend(s: seq<int>, t: seq<int>)
    ensures Newest(Newest(s, WindowSize) + t, WindowSize) == Newest(s + t, WindowSize)
  {
    if |s| > WindowSize {
      var k := |s| - WindowSize;
      assert s + t == s[..k] + (s[k..] + t);
      assert (s + t)[k..] == s[k..] + t;
      if |s[k..] + t| > WindowSize {
        var j := |s[k..] + t| - WindowSize;
        assert (s + t)[|s + t| - WindowSize..] == (s[k..] + t)[j..];
      }
    }
  }

  /**
   * RecordCounter: adds the value to the key's running total, with int64
   * wrap-around. Nothing else changes.
   */
  function RecordCounter(c: Collector, key: string, v: int): (r: Collector)
    ensures key in r.counters
    ensures Counter(r, key) == WrapInt64(Counter(c, key) + v)
    ensures InInt64(Counter(c, key) + v) ==> Counter(r, key) == Counter(c, key) + v
    ensures forall k :: k != key ==> Counter(r, k) == Counter(c, k)
    ensures r.counters.Keys == c.counters.Keys + {key}
    ensures r.latency == c.latency && r.gauges == c.gauges
    ensures Valid(c) ==> Valid(r)
  {
    c.(counters := c.counters[key := WrapInt64(Counter(c, key) + v)])
  }

  /** The order in which two increments arrive does not matter. */
  lemma CounterIncrementsCommute(c: Collector, key: string, a: int, b: int)
    ensures RecordCounter(RecordCounter(c, key, a), key, b) == RecordCounter(RecordCounter(c, key, b), key, a)
  {
    WrapCommutes(Counter(c, key), a, b);
  }

  /** Two wrapped additions give the same result in either order. */
  lemma WrapCommutes(x: int, a: int, b: int)
    ensures WrapInt64(WrapInt64(x + a) + b) == WrapInt64(WrapInt64(x + b) + a)
  {
    WrapAbsorbs(x + a, b);
    WrapAbsorbs(x + b, a);
    assert x + a + b == x + b + a;
  }

  /** RecordGauge: overwrites the key's value. Nothing else changes. */
  function RecordGauge(c: Collector, key: string, v: Gauge): (r: Collector)
    ensures key in r.gauges && r.gauges[key] == v
    ensures forall k :: k in c.gauges && k != key ==> k in r.gauges && r.gauges[k] == c.gauges[k]
    ensures r.gauges.Keys == c.gauges.Keys + {key}
    ensures r.latency == c.latency && r.counters == c.counters
  {
    c.(gauges := c.gauges[key := v])
  }

  /** Last write wins: a second gauge write hides the first. */
  lemma GaugeLastWriteWins(c: Collector, key: string, a: Gauge, b: Gauge)
    ensures RecordGauge(RecordGauge(c, key, a), key, b) == RecordGauge(c, key, b)
  {
  }

  // ---------------------------------------------------------------------------
  // Snapshot
  // ---------------------------------------------------------------------------

  function SeqMin(s: seq<int>): (m: int)
    requires |s| > 0
    ensures m in s
    ensures forall i :: 0 <= i < |s| ==> m <= s[i]
  {
    if |s| == 1 then s[0]
    else
      var rest := SeqMin(s[1..]);
      if s[0] < rest then s[0] else rest
  }

  function SeqMax(s: seq<int>): (m: int)
    requires |s| > 0
    ensures m in s
    ensures forall i :: 0 <= i < |s| ==> m >= s[i]
  {
    if |s| == 1 then s[0]
    else
      var rest := SeqMax(s[1..]);
      if s[0] > rest then s[0] else rest
  }

  function Sum(s: seq<int>): int {
    if |s| == 0 then 0 else s[0] + Sum(s[1..])
  }

  /** A sum of n values within [lo, hi] lies within [n * lo, n * hi]. */
  lemma {:induction false} SumBetween(s: seq<int>, lo: int, hi: int)
    requires forall i :: 0 <= i < |s| ==> lo <= s[i] <= hi
    ensures |s| * lo <= Sum(s) <= |s| * hi
    decreases |s|
  {
    if |s| > 0 {
      SumBetween(s[1..], lo, hi);
      assert |s| * lo == lo + (|s| - 1) * lo && |s| * hi == hi + (|s| - 1) * hi;
    }
  }

  /**
   * The integer part of calculateLatencyStats: the sample count, the extreme
   * durations and their total, which lies between count * min and
   * count * max, so the average the source divides out lies between the
   * extremes. The float average and the millisecond conversion are not
   * modelled.
   */
  datatype LatencyStats = LatencyStats(count: nat, minNanos: int, maxNanos: int, totalNanos: int)

  function Stats(window: seq<int>): (r: LatencyStats)
    requires |window| > 0
    ensures r.count == |window|
    ensures r.minNanos in window && r.maxNanos in window && r.minNanos <= r.maxNanos
    ensures forall i :: 0 <= i < |window| ==> r.minNanos <= window[i] <= r.maxNanos
    ensures r.totalNanos == Sum(window)
    ensures r.count * r.minNanos <= r.totalNanos <= r.count * r.maxNanos
  {
    SumBetween(window, SeqMin(window), SeqMax(window));
    LatencyStats(|window|, SeqMin(window), SeqMax(window), Sum(window))
  }

  datatype Snapshot = Snapshot(counters: map<string, int>, gauges: map<string, Gauge>, latency: map<string, LatencyStats>)

  /**
   * GetMetrics: the counters and gauges as they are, and statistics for
   * every latency key that holds at least one sample.
   */
  function GetMetrics(c: Collector): (r: Snapshot)
    ensures r.counters == c.counters && r.gauges == c.gauges
    ensures forall k :: k in r.latency <==> k in c.latency && |c.latency[k]| > 0
    ensures forall k :: k in r.latency ==> r.latency[k].count == |c.latency[k]| <= (if Valid(c) then WindowSize else r.latency[k].count)
  {
    var latency := map k | k in c.latency && |c.latency[k]| > 0 :: Stats(c.latency[k]);
    Snapshot(c.counters, c.gauges, latency)
  }

  /** A key shows up in the latency snapshot as soon as one duration is recorded under it. */
  lemma RecordedKeyReported(c: Collector, key: string, d: int)
    ensures var s := GetMetrics(RecordLatency(c, key, d));
      key in s.latency && s.latency[key].maxNanos >= d >= s.latency[key].minNanos
  {
    var r := RecordLatency(c, key, d);
    assert Window(r, key)[|Window(r, key)| - 1] == d;
  }
}
