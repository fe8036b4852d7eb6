/** cmd/loadgen: nearest-rank percentiles, the report of a run, and its SLO verdict. Durations are integer
    nanoseconds; reported latencies are integer microseconds, which is what three decimals of a millisecond
    are. */
module LoadStats {
  import opened Arithmetic
  import opened Sorting

  // ----- nearest rank

  /** p in parts per million of the sample count: 99.9% is 999000. */
  function Parts(p: real): int {
    (p * 10000.0 + 0.5).Floor
  }

  function PercentileIndex(n: int, p: real): (i: int)
    ensures n <= 0 ==> i == -1
    ensures n > 0 ==> 0 <= i < n
  {
    if n <= 0 then -1
    else if p <= 0.0 then 0
    else if p >= 100.0 then n - 1
    else
      var i := (Parts(p) * n + 999999) / 1000000 - 1;
      if i < 0 then 0 else if i > n - 1 then n - 1 else i
  }

  /** The rank is the least one that covers the requested share of the samples. */
  lemma RankIsLeast(n: int, p: real)
    requires n > 0 && 0.0 < p < 100.0
    ensures 0 <= Parts(p) <= 1000000
    ensures (PercentileIndex(n, p) + 1) * 1000000 >= Parts(p) * n
    ensures PercentileIndex(n, p) > 0 ==> PercentileIndex(n, p) * 1000000 < Parts(p) * n
  {
    var pm := Parts(p);
    assert 0.0 <= p * 10000.0 + 0.5 <= 1000000.5;
    assert pm * n <= 1000000 * n;
  }

  lemma IndexMonotone(n: int, p: real, q: real)
    requires n > 0 && p <= q
    ensures PercentileIndex(n, p) <= PercentileIndex(n, q)
  {
    if 0.0 < p && q < 100.0 {
      assert Parts(p) <= Parts(q);
      assert Parts(p) * n <= Parts(q) * n;
    }
  }

  /** The product stays within int64 for every percentile exactly up to this many samples. */
  lemma NoOverflow(n: nat)
    ensures n <= 9_223_372_036_853 <==>
              forall pm: nat :: pm <= 1000000 ==> pm * n + 999999 <= 0x7FFF_FFFF_FFFF_FFFF
  {
    if n <= 9_223_372_036_853 {
      forall pm: nat | pm <= 1000000 ensures pm * n + 999999 <= 0x7FFF_FFFF_FFFF_FFFF {
        assert pm * n <= 1000000 * n;
      }
    } else {
      assert 1000000 * n + 999999 > 0x7FFF_FFFF_FFFF_FFFF;
      var pm: nat := 1000000;
      assert pm * n + 999999 > 0x7FFF_FFFF_FFFF_FFFF;
    }
  }

  // ----- counting

  predicate IntLe(a: int, b: int) {
    a <= b
  }

  lemma IntOrder()
    ensures TotalOrder(IntLe)
  {}

  function CountLe(s: seq<int>, v: int): (c: nat)
    ensures c <= |s|
  {
    if s == [] then 0 else CountLe(s[1..], v) + if s[0] <= v then 1 else 0
  }

  lemma {:induction false} CountInsert(x: int, s: seq<int>, v: int)
    ensures CountLe(Insert(x, s, IntLe), v) == CountLe(s, v) + if x <= v then 1 else 0
  {
    if s == [] {
      assert Insert(x, s, IntLe) == [x];
      assert CountLe([x], v) == CountLe([x][1..], v) + if x <= v then 1 else 0;
    } else if IntLe(x, s[0]) {
      assert ([x] + s)[1..] == s;
    } else {
      CountInsert(x, s[1..], v);
      assert ([s[0]] + Insert(x, s[1..], IntLe))[1..] == Insert(x, s[1..], IntLe);
    }
  }

  lemma {:induction false} CountSorted(s: seq<int>, v: int)
    ensures CountLe(Sort(s, IntLe), v) == CountLe(s, v)
  {
    if s != [] {
      CountSorted(s[1..], v);
      CountInsert(s[0], Sort(s[1..], IntLe), v);
    }
  }

  /** In a sorted list the k-th smallest is at most v exactly when more than k elements are. */
  lemma {:induction false} RankCount(s: seq<int>, k: nat, v: int)
    requires Sorted(s, IntLe) && k < |s|
    ensures s[k] <= v <==> CountLe(s, v) > k
  {
    if k == 0 {
      if s[0] > v { NoneBelow(s, v); }
    } else {
      RankCount(s[1..], k - 1, v);
      if s[0] > v { NoneBelow(s, v); }
    }
  }

  lemma {:induction false} NoneBelow(s: seq<int>, v: int)
    requires Sorted(s, IntLe) && (s != [] ==> s[0] > v)
    ensures CountLe(s, v) == 0
  {
    if |s| > 1 {
      assert IntLe(s[0], s[1]);
      NoneBelow(s[1..], v);
    }
  }

  function Percentile(sorted: seq<int>, p: real): int {
    var i := PercentileIndex(|sorted|, p);
    if i < 0 then 0 else sorted[i]
  }

  /** percentile returns a latency some request had, the smallest one that at least the requested share of
      the samples did not exceed. */
  lemma NearestRank(samples: seq<int>, p: real)
    requires samples != [] && 0.0 < p < 100.0
    ensures var v := Percentile(Sort(samples, IntLe), p);
            && v in samples
            && CountLe(samples, v) * 1000000 >= Parts(p) * |samples|
            && (forall w :: w in samples && w < v ==> CountLe(samples, w) * 1000000 < Parts(p) * |samples|)
  {
    IntOrder();
    SortSorted(samples, IntLe);
    var s := Sort(samples, IntLe);
    var i := PercentileIndex(|s|, p);
    var v := s[i];
    RankIsLeast(|s|, p);
    assert v in multiset(s);
    RankCount(s, i, v);
    CountSorted(samples, v);
    forall w | w in samples && w < v ensures CountLe(samples, w) * 1000000 < Parts(p) * |samples| {
      RankCount(s, i, w);
      CountSorted(samples, w);
      assert w in multiset(s);
      if i == 0 {
        HeadLeast(s, w, IntLe);
        assert false;
      }
    }
  }

  // ----- rounding and the latency figures

  /** x/k rounded to the nearest integer, halves away from zero. */
  function RoundDiv(x: int, k: int): int
    requires k > 0
  {
    if x >= 0 then (2 * x + k) / (2 * k) else -((-2 * x + k) / (2 * k))
  }

  /** A duration in microseconds. */
  function MsRound(d: int): int {
    RoundDiv(d, 1000)
  }

  lemma RoundMonotone(x: int, y: int, k: int)
    requires k > 0 && x <= y
    ensures RoundDiv(x, k) <= RoundDiv(y, k)
  {
    if x >= 0 {
      FloorMonotone(2 * x + k, 2 * y + k, 2 * k);
    } else if y < 0 {
      FloorMonotone(-2 * y + k, -2 * x + k, 2 * k);
    } else {
      FloorGe(2 * y + k, 2 * k, 0);
      FloorGe(-2 * x + k, 2 * k, 0);
    }
  }

  datatype Stats = Stats(p50: int, p90: int, p95: int, p99: int, p999: int, max: int, mean: int)

  function Sum(s: seq<int>): int {
    if s == [] then 0 else s[0] + Sum(s[1..])
  }

  function StatsOf(sorted: seq<int>): Stats {
    if sorted == [] then Stats(0, 0, 0, 0, 0, 0, 0)
    else Stats(MsRound(Percentile(sorted, 50.0)), MsRound(Percentile(sorted, 90.0)), MsRound(Percentile(sorted, 95.0)),
               MsRound(Percentile(sorted, 99.0)), MsRound(Percentile(sorted, 99.9)),
               MsRound(sorted[|sorted| - 1]), RoundDiv(Sum(sorted), |sorted| * 1000))
  }

  method LatencyStatsOf(sorted: seq<int>) returns (r: Stats)
    ensures r == StatsOf(sorted)
  {
    if |sorted| == 0 { return Stats(0, 0, 0, 0, 0, 0, 0); }
    var sum := 0;
    for i := 0 to |sorted|
      invariant sum + Sum(sorted[i..]) == Sum(sorted)
    {
      assert sorted[i..][1..] == sorted[i + 1..];
      sum := sum + sorted[i];
    }
    r := Stats(MsRound(Percentile(sorted, 50.0)), MsRound(Percentile(sorted, 90.0)), MsRound(Percentile(sorted, 95.0)),
               MsRound(Percentile(sorted, 99.0)), MsRound(Percentile(sorted, 99.9)),
               MsRound(sorted[|sorted| - 1]), RoundDiv(sum, |sorted| * 1000));
  }

  // ----- what the figures mean

  /** v is the smallest sample that at least num/den of the samples do not exceed. */
  ghost predicate IsRank(samples: seq<int>, v: int, num: int, den: int) {
    && v in samples && CountLe(samples, v) * den >= num * |samples|
    && (forall w :: w in samples && w < v ==> CountLe(samples, w) * den < num * |samples|)
  }

  /** q is x/k rounded to the nearest integer, halves away from zero. */
  ghost predicate Nearest(x: int, k: int, q: int) {
    if x >= 0 then -k <= 2 * (x - k * q) < k else -k < 2 * (x - k * q) <= k
  }

  lemma RoundIsNearest(x: int, k: int)
    requires k > 0
    ensures Nearest(x, k, RoundDiv(x, k))
  {
    if x >= 0 { HalfUp(x, k); } else { HalfUp(-x, k); }
    hide RoundDiv;
  }

  lemma HalfUp(y: int, k: int)
    requires k > 0 && y >= 0
    ensures RoundDiv(y, k) == (2 * y + k) / (2 * k) && RoundDiv(-y, k) == -((2 * y + k) / (2 * k))
    ensures var q := (2 * y + k) / (2 * k); -k <= 2 * (y - k * q) < k && k * (-q) == -(k * q)
  {
    FloorBounds(2 * y + k, 2 * k);
    var q := (2 * y + k) / (2 * k);
    assert 2 * k * q == 2 * (k * q) && 2 * k * (q + 1) == 2 * (k * q) + 2 * k;
    if y == 0 { DivIs(k, 0, 2 * k); }
  }

  /** The two ends: percentile 0 is the least sample and percentile 100 the greatest. */
  lemma EndsOfTheScale(samples: seq<int>, p: real)
    requires samples != [] && (p <= 0.0 || p >= 100.0)
    ensures var v := Percentile(Sort(samples, IntLe), p);
            v in samples && forall w :: w in samples ==> if p <= 0.0 then v <= w else w <= v
  {
    IntOrder();
    SortSorted(samples, IntLe);
    var s := Sort(samples, IntLe);
    var v := Percentile(s, p);
    assert v in multiset(s);
    forall w | w in samples ensures if p <= 0.0 then v <= w else w <= v {
      assert w in multiset(s);
      var k :| 0 <= k < |s| && s[k] == w;
      if 0 < k { assert IntLe(s[0], s[k]); }
      if k < |s| - 1 { assert IntLe(s[k], s[|s| - 1]); }
    }
  }

  lemma RankOf(samples: seq<int>, p: real, num: int, den: int) returns (v: int)
    requires samples != [] && 0.0 < p < 100.0 && den > 0 && Parts(p) * den == num * 1000000
    ensures IsRank(samples, v, num, den) && v == Percentile(Sort(samples, IntLe), p)
  {
    v := Percentile(Sort(samples, IntLe), p);
    NearestRank(samples, p);
    hide CountLe, Percentile, Sort, Parts;
    var n := |samples|;
    SameShare(CountLe(samples, v), Parts(p), num, den, n);
    forall w | w in samples && w < v ensures CountLe(samples, w) * den < num * n {
      SameShare(CountLe(samples, w), Parts(p), num, den, n);
    }
  }

  lemma SameShare(c: int, parts: int, num: int, den: int, n: int)
    requires den > 0 && parts * den == num * 1000000
    ensures c * 1000000 >= parts * n <==> c * den >= num * n
  {
    assert (parts * n) * den == (parts * den) * n == (num * n) * 1000000;
    assert (c * 1000000) * den == (c * den) * 1000000;
    if c * 1000000 >= parts * n { MulMono(parts * n, c * 1000000, den); } else { MulMono(c * 1000000 + 1, parts * n, den); }
  }

  lemma FigureOf(samples: seq<int>, p: real, num: int, den: int) returns (v: int)
    requires samples != [] && 0.0 < p < 100.0 && den > 0 && Parts(p) * den == num * 1000000
    ensures IsRank(samples, v, num, den) && Nearest(v, 1000, MsRound(Percentile(Sort(samples, IntLe), p)))
  {
    v := RankOf(samples, p, num, den);
    RoundIsNearest(v, 1000);
  }

  lemma SameLength(samples: seq<int>)
    ensures |Sort(samples, IntLe)| == |samples|
  {
    IntOrder();
    SortSorted(samples, IntLe);
    hide Sort;
    assert |Sort(samples, IntLe)| == |multiset(Sort(samples, IntLe))| == |multiset(samples)|;
  }

  lemma MaxAndMean(samples: seq<int>) returns (top: int)
    requires samples != []
    ensures top in samples && forall w :: w in samples ==> w <= top
    ensures var s := Sort(samples, IntLe);
            && |s| == |samples| && Nearest(top, 1000, MsRound(s[|s| - 1]))
            && Nearest(Sum(samples), 1000 * |samples|, RoundDiv(Sum(s), |s| * 1000))
  {
    hide Sort, Nearest, RoundDiv, Sum, Parts;
    SameLength(samples);
    EndsOfTheScale(samples, 100.0);
    top := Percentile(Sort(samples, IntLe), 100.0);
    RoundIsNearest(top, 1000);
    SumSorted(samples);
    RoundIsNearest(Sum(samples), 1000 * |samples|);
  }

  lemma Shares()
    ensures Parts(50.0) == 500000 && Parts(90.0) == 900000 && Parts(95.0) == 950000
    ensures Parts(99.0) == 990000 && Parts(99.9) == 999000
  {}

  /** The figures of a run are what they are called: the 1/2, 9/10, 19/20, 99/100 and 999/1000 nearest ranks, the
      greatest sample and the mean, each rounded to the nearest microsecond. */
  lemma FiguresAreWhatTheySay(samples: seq<int>) returns (v50: int, v90: int, v95: int, v99: int, v999: int, top: int)
    requires samples != []
    ensures IsRank(samples, v50, 1, 2) && IsRank(samples, v90, 9, 10) && IsRank(samples, v95, 19, 20)
    ensures IsRank(samples, v99, 99, 100) && IsRank(samples, v999, 999, 1000)
    ensures top in samples && forall w :: w in samples ==> w <= top
    ensures var r := StatsOf(Sort(samples, IntLe));
            && Nearest(v50, 1000, r.p50) && Nearest(v90, 1000, r.p90) && Nearest(v95, 1000, r.p95)
            && Nearest(v99, 1000, r.p99) && Nearest(v999, 1000, r.p999) && Nearest(top, 1000, r.max)
            && Nearest(Sum(samples), 1000 * |samples|, r.mean)
  {
    hide IsRank, Nearest, Sort, Percentile, CountLe, Sum, RoundDiv, MsRound, Parts;
    Shares();
    v50 := FigureOf(samples, 50.0, 1, 2);
    v90 := FigureOf(samples, 90.0, 9, 10);
    v95 := FigureOf(samples, 95.0, 19, 20);
    v99 := FigureOf(samples, 99.0, 99, 100);
    v999 := FigureOf(samples, 99.9, 999, 1000);
    top := MaxAndMean(samples);
  }

  lemma PercentilesOrdered(sorted: seq<int>, p: real, q: real)
    requires Sorted(sorted, IntLe) && sorted != [] && p <= q
    ensures MsRound(Percentile(sorted, p)) <= MsRound(Percentile(sorted, q)) <= MsRound(sorted[|sorted| - 1])
  {
    var i, j, n := PercentileIndex(|sorted|, p), PercentileIndex(|sorted|, q), |sorted| - 1;
    IndexMonotone(|sorted|, p, q);
    if i < j { assert IntLe(sorted[i], sorted[j]); }
    if j < n { assert IntLe(sorted[j], sorted[n]); }
    RoundMonotone(sorted[i], sorted[j], 1000);
    RoundMonotone(sorted[j], sorted[n], 1000);
  }

  lemma {:induction false} SumBound(s: seq<int>, v: int)
    requires forall i :: 0 <= i < |s| ==> s[i] <= v
    ensures Sum(s) <= |s| * v
  {
    if s != [] {
      SumBound(s[1..], v);
      assert |s| * v == |s[1..]| * v + v;
    }
  }

  lemma HalfUpScale(x: int, k: int, n: int)
    requires k >= 1 && n >= 1
    ensures n * k >= 1 && (2 * (n * x) + n * k) / (2 * (n * k)) == (2 * x + k) / (2 * k)
  {
    MulMono(1, n, k);
    FloorScale(2 * x + k, 2 * k, n);
    assert n * (2 * x + k) == 2 * (n * x) + n * k;
    assert n * (2 * k) == 2 * (n * k);
  }

  /** Rounding n*x over n*k is rounding x over k. */
  lemma RoundScale(x: int, k: int, n: int)
    requires k >= 1 && n >= 1
    ensures n * k >= 1 && RoundDiv(n * x, n * k) == RoundDiv(x, k)
  {
    if x >= 0 {
      HalfUpScale(x, k, n);
      Scaled(0, x, n);
    } else {
      HalfUpScale(-x, k, n);
      Scaled(x, -1, n);
      assert n * -x == -(n * x);
    }
  }

  /** The reported figures are in order: no percentile exceeds a higher one, none exceeds the maximum, and neither
      does the mean. */
  lemma FiguresAreOrdered(samples: seq<int>)
    ensures var t := StatsOf(Sort(samples, IntLe));
            t.p50 <= t.p90 <= t.p95 <= t.p99 <= t.p999 <= t.max && t.mean <= t.max
  {
    hide Sort, Percentile, RoundDiv;
    if samples != [] {
      IntOrder();
      SortSorted(samples, IntLe);
      var s := Sort(samples, IntLe);
      PercentilesOrdered(s, 50.0, 90.0);
      PercentilesOrdered(s, 90.0, 95.0);
      PercentilesOrdered(s, 95.0, 99.0);
      PercentilesOrdered(s, 99.0, 99.9);
      var n, top := |s|, s[|s| - 1];
      forall i | 0 <= i < n ensures s[i] <= top { if i < n - 1 { assert IntLe(s[i], s[n - 1]); } }
      SumBound(s, top);
      RoundMonotone(Sum(s), n * top, n * 1000);
      RoundScale(top, 1000, n);
    }
  }

  // ----- coordinated omission

  ghost predicate Dominates(r: seq<int>, s: seq<int>) {
    |r| == |s| && forall i :: 0 <= i < |s| ==> s[i] <= r[i]
  }

  lemma {:induction false} FewerBelow(r: seq<int>, s: seq<int>, v: int)
    requires Dominates(r, s)
    ensures CountLe(r, v) <= CountLe(s, v)
  {
    if s != [] {
      assert Dominates(r[1..], s[1..]);
      FewerBelow(r[1..], s[1..], v);
    }
  }

  /** Sorting two lists independently keeps one above the other. */
  lemma SortDominates(r: seq<int>, s: seq<int>, k: nat)
    requires Dominates(r, s) && k < |s|
    ensures Sort(s, IntLe)[k] <= Sort(r, IntLe)[k]
  {
    IntOrder();
    SortSorted(r, IntLe);
    SortSorted(s, IntLe);
    var v := Sort(r, IntLe)[k];
    RankCount(Sort(r, IntLe), k, v);
    CountSorted(r, v);
    FewerBelow(r, s, v);
    CountSorted(s, v);
    RankCount(Sort(s, IntLe), k, v);
  }

  lemma {:induction false} SumInsert(x: int, s: seq<int>)
    ensures Sum(Insert(x, s, IntLe)) == x + Sum(s)
  {
    if s == [] {
      assert [x][1..] == [];
    } else if IntLe(x, s[0]) {
      assert ([x] + s)[1..] == s;
    } else {
      SumInsert(x, s[1..]);
      assert ([s[0]] + Insert(x, s[1..], IntLe))[1..] == Insert(x, s[1..], IntLe);
    }
  }

  lemma {:induction false} SumSorted(s: seq<int>)
    ensures Sum(Sort(s, IntLe)) == Sum(s)
  {
    if s != [] {
      SumSorted(s[1..]);
      SumInsert(s[0], Sort(s[1..], IntLe));
    }
  }

  lemma {:induction false} SumDominates(r: seq<int>, s: seq<int>)
    requires Dominates(r, s)
    ensures Sum(s) <= Sum(r)
  {
    if s != [] {
      assert Dominates(r[1..], s[1..]);
      SumDominates(r[1..], s[1..]);
    }
  }

  lemma PercentileDominates(r: seq<int>, s: seq<int>, p: real)
    requires Dominates(r, s)
    ensures MsRound(Percentile(Sort(s, IntLe), p)) <= MsRound(Percentile(Sort(r, IntLe), p))
  {
    if s != [] {
      SortDominates(r, s, PercentileIndex(|s|, p));
    }
    RoundMonotone(Percentile(Sort(s, IntLe), p), Percentile(Sort(r, IntLe), p), 1000);
  }

  ghost predicate StatsLe(a: Stats, b: Stats) {
    && a.p50 <= b.p50 && a.p90 <= b.p90 && a.p95 <= b.p95 && a.p99 <= b.p99 && a.p999 <= b.p999
    && a.max <= b.max && a.mean <= b.mean
  }

  /** If every response time is at least its service time then so is every reported figure, although the two
      lists are sorted independently. */
  lemma ResponseDominatesService(r: seq<int>, s: seq<int>)
    requires Dominates(r, s)
    ensures StatsLe(StatsOf(Sort(s, IntLe)), StatsOf(Sort(r, IntLe)))
  {
    hide Sort, Percentile, RoundDiv;
    if s != [] {
      PercentileDominates(r, s, 50.0);
      PercentileDominates(r, s, 90.0);
      PercentileDominates(r, s, 95.0);
      PercentileDominates(r, s, 99.0);
      PercentileDominates(r, s, 99.9);
      SortDominates(r, s, |s| - 1);
      RoundMonotone(Sort(s, IntLe)[|s| - 1], Sort(r, IntLe)[|s| - 1], 1000);
      SumSorted(s);
      SumSorted(r);
      SumDominates(r, s);
      RoundMonotone(Sum(Sort(s, IntLe)), Sum(Sort(r, IntLe)), |s| * 1000);
    }
  }
}
