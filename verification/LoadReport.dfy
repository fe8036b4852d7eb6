/** cmd/loadgen: the one-pass aggregation of a run and its SLO verdict, against definitions over the whole
    sample list. Ratios are in parts per million, which is what six decimals are. */
module LoadReport {
  import opened Sorting
  import opened StatusCodes
  import opened LoadStats
  import opened Arithmetic

  datatype Sample = Sample(scheduledAt: int, sentAt: int, completedAt: int, code: Code, backendID: string, sessionKey: string)

  function ServiceTime(s: Sample): int { s.completedAt - s.sentAt }

  function ResponseTime(s: Sample): int { s.completedAt - s.scheduledAt }

  predicate IsOk(s: Sample) { s.code == OK }

  predicate IsErr(s: Sample) { s.code != OK }

  predicate Answered(s: Sample) { s.backendID != "" }

  function CodeOf(s: Sample): Code { s.code }

  function BackendOf(s: Sample): string { s.backendID }

  // ----- what the figures mean

  /** The times g of the samples that satisfy f. */
  function Times(ss: seq<Sample>, f: Sample -> bool, g: Sample -> int): seq<int> {
    if ss == [] then []
    else
      var r := Times(ss[..|ss| - 1], f, g);
      if f(ss[|ss| - 1]) then r + [g(ss[|ss| - 1])] else r
  }

  function CountKey<K(==)>(ss: seq<Sample>, f: Sample -> bool, key: Sample -> K, k: K): nat {
    if ss == [] then 0
    else CountKey(ss[..|ss| - 1], f, key, k) + if f(ss[|ss| - 1]) && key(ss[|ss| - 1]) == k then 1 else 0
  }

  /** The map holds, for exactly the keys that occur, how often they do. */
  ghost predicate Histogram<K(!new)>(m: map<K, nat>, ss: seq<Sample>, f: Sample -> bool, key: Sample -> K) {
    forall k :: (k in m <==> CountKey(ss, f, key, k) > 0) && (k in m ==> m[k] == CountKey(ss, f, key, k))
  }

  /** Session key k was answered by backend b. */
  ghost predicate Routed(ss: seq<Sample>, k: string, b: string) {
    exists i :: 0 <= i < |ss| && ss[i].sessionKey == k && ss[i].backendID == b
  }

  ghost predicate HasKey(ss: seq<Sample>, k: string) {
    exists i :: 0 <= i < |ss| && ss[i].sessionKey == k
  }

  /** The session keys that occur. */
  ghost predicate KeySet(keys: set<string>, ss: seq<Sample>) {
    forall k :: k in keys <==> k != "" && HasKey(ss, k)
  }

  /** The session keys that more than one backend answered. */
  ghost predicate Split(multi: set<string>, ss: seq<Sample>) {
    forall k :: k in multi <==>
      k != "" && exists b, c :: b != "" && c != "" && b != c && Routed(ss, k, b) && Routed(ss, k, c)
  }

  datatype Report = Report(
    total: nat, ok: nat, errors: nat, errorsByCode: map<Code, nat>,
    service: Stats, response: Stats, errorLatency: Stats,
    slo: int, violations: nat, fractionUnder: int, errorBudget: real, errorRatio: int,
    distribution: map<string, nat>, distinctKeys: nat, splitKeys: nat, interrupted: bool)

  // ----- one step of the loop

  lemma TimesAppend(ss: seq<Sample>, s: Sample, f: Sample -> bool, g: Sample -> int)
    ensures Times(ss + [s], f, g) == if f(s) then Times(ss, f, g) + [g(s)] else Times(ss, f, g)
  {
    assert (ss + [s])[..|ss + [s]| - 1] == ss;
  }

  function Bump<K>(m: map<K, nat>, k: K): map<K, nat> {
    m[k := (if k in m then m[k] else 0) + 1]
  }

  lemma HistogramAppend<K(!new)>(m: map<K, nat>, ss: seq<Sample>, s: Sample, f: Sample -> bool, key: Sample -> K)
    requires Histogram(m, ss, f, key)
    ensures Histogram(if f(s) then Bump(m, key(s)) else m, ss + [s], f, key)
  {
    var n := if f(s) then Bump(m, key(s)) else m;
    forall k ensures (k in n <==> CountKey(ss + [s], f, key, k) > 0) && (k in n ==> n[k] == CountKey(ss + [s], f, key, k)) {
      assert (ss + [s])[..|ss + [s]| - 1] == ss;
      assert CountKey(ss + [s], f, key, k) == CountKey(ss, f, key, k) + if f(s) && key(s) == k then 1 else 0;
    }
  }

  /** The bookkeeping for the stickiness figures. */
  datatype Sticky = Sticky(keys: set<string>, first: map<string, string>, multi: set<string>)

  /** Some backend other than `f` answered key k. */
  ghost predicate Another(ss: seq<Sample>, k: string, f: string) {
    exists b :: b != "" && b != f && Routed(ss, k, b)
  }

  /** `first` remembers one backend per key, `multi` the keys for which another one turned up. */
  ghost predicate Tracks(a: Sticky, ss: seq<Sample>) {
    && KeySet(a.keys, ss)
    && (forall k :: k in a.first ==> k != "" && a.first[k] != "" && Routed(ss, k, a.first[k]))
    && (forall k, b :: k != "" && b != "" && Routed(ss, k, b) ==> k in a.first)
    && (forall k :: k in a.multi <==> k in a.first && Another(ss, k, a.first[k]))
  }

  function Observe(a: Sticky, s: Sample): Sticky {
    if s.sessionKey == "" then a
    else
      var b := a.(keys := a.keys + {s.sessionKey});
      if s.backendID == "" then b
      else if s.sessionKey !in a.first then b.(first := a.first[s.sessionKey := s.backendID])
      else if a.first[s.sessionKey] != s.backendID then b.(multi := a.multi + {s.sessionKey})
      else b
  }

  lemma RoutedAppend(ss: seq<Sample>, s: Sample, k: string, b: string)
    ensures Routed(ss + [s], k, b) <==> Routed(ss, k, b) || (s.sessionKey == k && s.backendID == b)
  {
    if Routed(ss, k, b) {
      var i :| 0 <= i < |ss| && ss[i].sessionKey == k && ss[i].backendID == b;
      assert (ss + [s])[i] == ss[i];
    }
    if s.sessionKey == k && s.backendID == b { assert (ss + [s])[|ss|] == s; }
  }

  lemma KeySetAppend(keys: set<string>, ss: seq<Sample>, s: Sample)
    requires KeySet(keys, ss)
    ensures KeySet(if s.sessionKey == "" then keys else keys + {s.sessionKey}, ss + [s])
  {
    forall k ensures HasKey(ss + [s], k) <==> s.sessionKey == k || HasKey(ss, k) {
      if HasKey(ss, k) {
        var i :| 0 <= i < |ss| && ss[i].sessionKey == k;
        assert (ss + [s])[i].sessionKey == k;
      }
      if s.sessionKey == k { assert (ss + [s])[|ss|].sessionKey == k; }
    }
  }

  lemma AnotherAppend(ss: seq<Sample>, s: Sample, k: string, f: string)
    ensures Another(ss + [s], k, f) <==>
              Another(ss, k, f) || (s.sessionKey == k && s.backendID != "" && s.backendID != f)
  {
    hide Routed;
    forall b ensures Routed(ss + [s], k, b) <==> Routed(ss, k, b) || (s.sessionKey == k && s.backendID == b) {
      RoutedAppend(ss, s, k, b);
    }
    if Another(ss, k, f) {
      var b :| b != "" && b != f && Routed(ss, k, b);
      assert Routed(ss + [s], k, b);
    }
    if s.sessionKey == k && s.backendID != "" && s.backendID != f { assert Routed(ss + [s], k, s.backendID); }
  }

  lemma FirstTracks(a: Sticky, ss: seq<Sample>, s: Sample)
    requires Tracks(a, ss)
    ensures var n := Observe(a, s);
            && (forall k :: k in n.first ==> k != "" && n.first[k] != "" && Routed(ss + [s], k, n.first[k]))
            && (forall k, b :: k != "" && b != "" && Routed(ss + [s], k, b) ==> k in n.first)
  {
    hide Routed, KeySet, Another;
    forall k, b ensures Routed(ss + [s], k, b) <==> Routed(ss, k, b) || (s.sessionKey == k && s.backendID == b) {
      RoutedAppend(ss, s, k, b);
    }
  }

  lemma MultiTracks(a: Sticky, ss: seq<Sample>, s: Sample, k: string)
    requires Tracks(a, ss)
    ensures var n := Observe(a, s);
            k in n.multi <==> k in n.first && Another(ss + [s], k, n.first[k])
  {
    hide Routed, KeySet;
    var n := Observe(a, s);
    if k in n.first {
      AnotherAppend(ss, s, k, n.first[k]);
    }
  }

  lemma ObserveTracks(a: Sticky, ss: seq<Sample>, s: Sample)
    requires Tracks(a, ss)
    ensures Tracks(Observe(a, s), ss + [s])
  {
    KeySetAppend(a.keys, ss, s);
    FirstTracks(a, ss, s);
    forall k ensures var n := Observe(a, s); k in n.multi <==> k in n.first && Another(ss + [s], k, n.first[k]) {
      MultiTracks(a, ss, s, k);
    }
    hide Routed, KeySet, Another;
  }

  lemma TracksSplit(a: Sticky, ss: seq<Sample>)
    requires Tracks(a, ss)
    ensures Split(a.multi, ss)
  {
    hide Routed, KeySet;
    forall k ensures k in a.multi <==>
      k != "" && exists b, c :: b != "" && c != "" && b != c && Routed(ss, k, b) && Routed(ss, k, c)
    {
      if k in a.multi {
        var b :| b != "" && b != a.first[k] && Routed(ss, k, b);
        assert Routed(ss, k, a.first[k]);
      }
    }
  }

  // ----- buildReport

  method Aggregate(ss: seq<Sample>, slo: int)
    returns (service: seq<int>, response: seq<int>, errLatency: seq<int>, violations: nat,
             byCode: map<Code, nat>, dist: map<string, nat>, sticky: Sticky)
    ensures service == Times(ss, IsOk, ServiceTime) && response == Times(ss, IsOk, ResponseTime)
    ensures errLatency == Times(ss, IsErr, ResponseTime)
    ensures |service| == |response| && |response| + |errLatency| == |ss|
    ensures violations == |response| - CountLe(response, slo)
    ensures Histogram(byCode, ss, IsErr, CodeOf) && Histogram(dist, ss, Answered, BackendOf)
    ensures Tracks(sticky, ss)
  {
    hide Times, Histogram, Tracks, CountLe;
    service, response, errLatency, violations, byCode, dist := [], [], [], 0, map[], map[];
    sticky := Sticky({}, map[], {});
    NothingYet(slo);
    for i := 0 to |ss|
      invariant service == Times(ss[..i], IsOk, ServiceTime) && response == Times(ss[..i], IsOk, ResponseTime)
      invariant errLatency == Times(ss[..i], IsErr, ResponseTime)
      invariant |service| == |response| && |response| + |errLatency| == i
      invariant violations == |response| - CountLe(response, slo)
      invariant Histogram(byCode, ss[..i], IsErr, CodeOf) && Histogram(dist, ss[..i], Answered, BackendOf)
      invariant Tracks(sticky, ss[..i])
    {
      var s := ss[i];
      assert ss[..i + 1] == ss[..i] + [s];
      TimesAppend(ss[..i], s, IsOk, ServiceTime);
      TimesAppend(ss[..i], s, IsOk, ResponseTime);
      TimesAppend(ss[..i], s, IsErr, ResponseTime);
      HistogramAppend(byCode, ss[..i], s, IsErr, CodeOf);
      HistogramAppend(dist, ss[..i], s, Answered, BackendOf);
      ObserveTracks(sticky, ss[..i], s);
      var rt := ResponseTime(s);
      if s.code == OK {
        CountAppend(response, rt, slo);
        service := service + [ServiceTime(s)];
        response := response + [rt];
        if rt > slo { violations := violations + 1; }
      } else {
        byCode := Bump(byCode, s.code);
        errLatency := errLatency + [rt];
      }
      if s.backendID != "" { dist := Bump(dist, s.backendID); }
      sticky := Observe(sticky, s);
    }
    assert ss[..|ss|] == ss;
  }

  lemma NothingYet(slo: int)
    ensures Times([], IsOk, ServiceTime) == Times([], IsOk, ResponseTime) == Times([], IsErr, ResponseTime) == []
    ensures CountLe([], slo) == 0
    ensures Histogram(map[], [], IsErr, CodeOf) && Histogram(map[], [], Answered, BackendOf)
    ensures Tracks(Sticky({}, map[], {}), [])
  {}

  lemma {:induction false} CountAppend(s: seq<int>, x: int, v: int)
    ensures CountLe(s + [x], v) == CountLe(s, v) + if x <= v then 1 else 0
  {
    if s == [] {
      assert s + [x] == [x] && [x][1..] == [];
    } else {
      assert (s + [x])[1..] == s[1..] + [x];
      CountAppend(s[1..], x, v);
    }
  }

  /** A ratio in parts per million; 0 for an empty denominator. */
  function Ppm(part: nat, whole: nat): int {
    if whole == 0 then 0 else RoundDiv(part * 1000000, whole)
  }

  /** The report of a run: totals, latency figures, violations and ratios. */
  ghost predicate IsReport(rep: Report, ss: seq<Sample>, slo: int, errorBudget: real, interrupted: bool) {
    && rep.total == |ss| == rep.ok + rep.errors
    && rep.ok == |Times(ss, IsOk, ResponseTime)|
    && rep.service == StatsOf(Sort(Times(ss, IsOk, ServiceTime), IntLe))
    && rep.response == StatsOf(Sort(Times(ss, IsOk, ResponseTime), IntLe))
    && rep.errorLatency == StatsOf(Sort(Times(ss, IsErr, ResponseTime), IntLe))
    && rep.violations == rep.ok - CountLe(Times(ss, IsOk, ResponseTime), slo)
    && rep.slo == MsRound(slo) && rep.errorBudget == errorBudget && rep.interrupted == interrupted
    && rep.errorRatio == Ppm(rep.errors, rep.total) && rep.fractionUnder == Ppm(rep.ok - rep.violations, rep.ok)
  }

  method BuildReport(ss: seq<Sample>, slo: int, errorBudget: real, interrupted: bool)
    returns (rep: Report, ghost keys: set<string>, ghost multi: set<string>)
    ensures IsReport(rep, ss, slo, errorBudget, interrupted)
    ensures Histogram(rep.errorsByCode, ss, IsErr, CodeOf) && Histogram(rep.distribution, ss, Answered, BackendOf)
    ensures KeySet(keys, ss) && rep.distinctKeys == |keys|
    ensures Split(multi, ss) && rep.splitKeys == |multi|
  {
    hide Times, Histogram, Sort, StatsOf, CountLe, Ppm;
    var service, response, errLatency, violations, byCode, dist, sticky := Aggregate(ss, slo);
    TracksSplit(sticky, ss);
    keys, multi := sticky.keys, sticky.multi;
    var st := LatencyStatsOf(Sort(service, IntLe));
    var rt := LatencyStatsOf(Sort(response, IntLe));
    var et := LatencyStatsOf(Sort(errLatency, IntLe));
    var ok, errors := |response|, |errLatency|;
    rep := Report(|ss|, ok, errors, byCode, st, rt, et, MsRound(slo), violations, Ppm(ok - violations, ok),
                  errorBudget, Ppm(errors, |ss|), dist, |sticky.keys|, |sticky.multi|, interrupted);
  }

  // ----- the verdict

  datatype Reason = Pass | NoRequests | Interrupted | NoSuccess | OverBudget | TooSlow

  function FailReason(r: Report): Reason {
    if r.total == 0 then NoRequests
    else if r.interrupted then Interrupted
    else if r.ok == 0 then NoSuccess
    else if r.errorRatio as real / 1000000.0 > r.errorBudget then OverBudget
    else if r.response.p99 > r.slo then TooSlow
    else Pass
  }

  /** The 99th percentile of the OK response times exceeds the SLO exactly when more than 1% of the OK
      requests violated it. */
  lemma P99IsTheOnePercent(times: seq<int>, slo: int)
    requires times != []
    ensures Percentile(Sort(times, IntLe), 99.0) > slo <==> 100 * (|times| - CountLe(times, slo)) > |times|
  {
    IntOrder();
    SortSorted(times, IntLe);
    var s := Sort(times, IntLe);
    var i := PercentileIndex(|s|, 99.0);
    assert Parts(99.0) == 990000;
    RankIsLeast(|s|, 99.0);
    RankCount(s, i, slo);
    CountSorted(times, slo);
  }

  lemma RoundsAbove(x: int, m: int)
    requires m >= 0
    ensures MsRound(x) > m <==> x > 1000 * m + 499
  {}

  /** The exact latency verdict: figures and SLO are rounded to microseconds before they are compared, so the run
      is too slow exactly when more than 1% of the OK requests took longer than the rounded SLO plus just
      under half a microsecond. */
  lemma LatencyVerdictExactly(ss: seq<Sample>, slo: int, r: Report)
    requires slo >= 0 && r.slo == MsRound(slo) && r.ok == |Times(ss, IsOk, ResponseTime)| > 0
    requires r.response == StatsOf(Sort(Times(ss, IsOk, ResponseTime), IntLe))
    ensures var within := CountLe(Times(ss, IsOk, ResponseTime), 1000 * MsRound(slo) + 499);
            r.response.p99 > r.slo <==> 100 * (r.ok - within) > r.ok
  {
    hide Times, Sort, CountLe, Percentile;
    var times := Times(ss, IsOk, ResponseTime);
    P99IsTheOnePercent(times, 1000 * MsRound(slo) + 499);
    RoundsAbove(Percentile(Sort(times, IntLe), 99.0), MsRound(slo));
  }

  lemma RoundSlack(x: int, y: int)
    requires MsRound(x) <= MsRound(y)
    ensures x < y + 1000
  {}

  /** The latency verdict is honest: a run fails it only if more than 1% of the OK requests violated the SLO,
      and passing means that the 99th percentile exceeds the SLO by less than one microsecond. */
  lemma LatencyVerdictIsHonest(ss: seq<Sample>, slo: int, r: Report)
    requires r.ok == |Times(ss, IsOk, ResponseTime)|
    requires r.response == StatsOf(Sort(Times(ss, IsOk, ResponseTime), IntLe)) && r.slo == MsRound(slo)
    requires r.violations == r.ok - CountLe(Times(ss, IsOk, ResponseTime), slo)
    ensures FailReason(r) == TooSlow ==> 100 * r.violations > r.ok
    ensures FailReason(r) == Pass ==>
              r.ok > 0 && !r.interrupted && Percentile(Sort(Times(ss, IsOk, ResponseTime), IntLe), 99.0) < slo + 1000
  {
    hide Times, Sort, CountLe, Percentile, RoundDiv;
    var times := Times(ss, IsOk, ResponseTime);
    if r.ok > 0 {
      P99IsTheOnePercent(times, slo);
      var p99 := Percentile(Sort(times, IntLe), 99.0);
      if p99 <= slo { RoundMonotone(p99, slo, 1000); }
      if MsRound(p99) <= MsRound(slo) { RoundSlack(p99, slo); }
    }
  }

  // ----- the error budget

  /** The error ratio is rounded to parts per million before it is compared, so for every budget a run is over it
      exactly when its error ratio reaches the middle of the part per million the budget lies in. */
  lemma BudgetIsRounded(r: Report)
    requires r.total > 0 && r.errorRatio == Ppm(r.errors, r.total)
    ensures var k := (r.errorBudget * 1000000.0).Floor;
            r.errorRatio as real / 1000000.0 > r.errorBudget <==> 2000000 * r.errors >= (2 * k + 1) * r.total
  {
    var k := (r.errorBudget * 1000000.0).Floor;
    var x, t := r.errors * 1000000, r.total;
    FloorGe(2 * x + t, 2 * t, k + 1);
    assert (k + 1) * (2 * t) == (2 * k + 1) * t + t;
    assert r.errorRatio > k <==> r.errorRatio as real > r.errorBudget * 1000000.0;
  }

  /** The share of requests that failed, before any rounding. */
  function Ratio(errors: nat, total: nat): real
    requires total > 0
  {
    errors as real / total as real
  }

  /** The middle of the part per million in which the budget lies. */
  function Middle(budget: real): real {
    ((budget * 1000000.0).Floor as real + 0.5) / 1000000.0
  }

  /** The error ratio lies between the budget and the middle of its part per million: above the budget and short
      of the middle, or past the middle and still within the budget. */
  ghost predicate InTheGap(errors: nat, total: nat, budget: real)
    requires total > 0
  {
    var ratio := Ratio(errors, total);
    if budget < Middle(budget) then budget < ratio < Middle(budget) else Middle(budget) <= ratio <= budget
  }

  lemma Crossed(errors: nat, total: nat, k: int)
    requires total > 0
    ensures 2000000 * errors >= (2 * k + 1) * total
            <==> Ratio(errors, total) >= (k as real + 0.5) / 1000000.0
  {
    var e, t, m := errors as real, total as real, (k as real + 0.5) / 1000000.0;
    assert e / t >= m <==> e >= m * t;
    assert 2000000.0 * (m * t) == ((2 * k + 1) * total) as real;
  }

  lemma ReachesTheMiddle(r: Report)
    requires r.total > 0 && r.errorRatio == Ppm(r.errors, r.total)
    ensures r.errorRatio as real / 1000000.0 > r.errorBudget <==> Ratio(r.errors, r.total) >= Middle(r.errorBudget)
  {
    hide Ppm, Ratio;
    BudgetIsRounded(r);
    Crossed(r.errors, r.total, (r.errorBudget * 1000000.0).Floor);
  }

  /** The budget verdict is the true one exactly for the runs outside the gap. Inside it the code fails a run that
      kept its budget, or passes one that did not, according to the side of the middle the budget is on. */
  lemma BudgetVerdictExactly(r: Report)
    requires r.total > 0 && !r.interrupted && r.ok > 0 && r.errorRatio == Ppm(r.errors, r.total)
    ensures (FailReason(r) == OverBudget <==> Ratio(r.errors, r.total) > r.errorBudget)
            <==> !InTheGap(r.errors, r.total, r.errorBudget)
    ensures FailReason(r) == OverBudget <==> Ratio(r.errors, r.total) >= Middle(r.errorBudget)
  {
    hide Ppm, Ratio, Middle;
    ReachesTheMiddle(r);
  }

  /** Between any two numbers there is the ratio of some run with a success. */
  lemma SomeRatioBetween(lo: real, hi: real) returns (errors: nat, total: nat)
    requires 0.0 <= lo < hi < 1.0
    ensures errors < total && lo < Ratio(errors, total) < hi
  {
    var n, gap := 0.0, hi - lo;
    total, n := Enough(gap);
    var l, h := lo * n, hi * n;
    Spread(lo, hi, gap, n);
    errors := l.Floor + 1;
    assert l < errors as real <= l + 1.0 < h;
    Between(lo, errors as real, hi, n);
  }

  /** Of the budgets the flags allow, 1 is the only one that is never misjudged: for every other there is a run in
      the gap. */
  lemma OnlyTheFullBudgetIsExact(budget: real)
    requires 0.0 <= budget <= 1.0
    ensures (forall errors: nat, total: nat :: errors < total ==> !InTheGap(errors, total, budget)) <==> budget == 1.0
  {
    var k := (budget * 1000000.0).Floor;
    if budget == 1.0 {
      forall errors: nat, total: nat | errors < total ensures !InTheGap(errors, total, budget) {
        Between(-1.0, errors as real, 1.0, total as real);
      }
    } else if budget < Middle(budget) {
      assert k <= 999999;
      var errors, total := SomeRatioBetween(budget, Middle(budget));
      assert InTheGap(errors, total, budget);
    } else {
      assert k <= 999999;
      assert Ratio(2 * k + 1, 2000000) == Middle(budget);
      assert InTheGap(2 * k + 1, 2000000, budget);
    }
  }

  /** The whole verdict: a run passes exactly if it was not cut short, answered something, stayed below the middle of
      the budget's part per million, and kept all but 1% of the answers within the rounded SLO. */
  lemma PassExactly(ss: seq<Sample>, slo: int, r: Report, errorBudget: real, interrupted: bool)
    requires IsReport(r, ss, slo, errorBudget, interrupted) && slo >= 0
    ensures var times := Times(ss, IsOk, ResponseTime);
            FailReason(r) == Pass
            <==> && !interrupted && times != []
                 && Ratio(|ss| - |times|, |ss|) < Middle(errorBudget)
                 && 100 * (|times| - CountLe(times, 1000 * MsRound(slo) + 499)) <= |times|
  {
    hide Times, Sort, CountLe, Percentile, Ppm, RoundDiv, Ratio, Middle;
    if r.ok > 0 {
      LatencyVerdictExactly(ss, slo, r);
      if !interrupted { BudgetVerdictExactly(r); }
    }
  }

  /** A run of `errors` failures followed by `ok` immediate answers. */
  function FastRun(errors: nat, ok: nat): (ss: seq<Sample>) {
    seq(errors + ok, i => Sample(0, 0, 0, if i < errors then Unavailable else OK, "", ""))
  }

  lemma {:induction false} FastRunTimes(errors: nat, ok: nat)
    ensures |Times(FastRun(errors, ok), IsOk, ResponseTime)| == ok
    ensures CountLe(Times(FastRun(errors, ok), IsOk, ResponseTime), 0) == ok
    decreases errors + ok
  {
    var ss := FastRun(errors, ok);
    if ok > 0 {
      assert ss == FastRun(errors, ok - 1) + [ss[|ss| - 1]];
      FastRunTimes(errors, ok - 1);
      TimesAppend(FastRun(errors, ok - 1), ss[|ss| - 1], IsOk, ResponseTime);
      CountAppend(Times(FastRun(errors, ok - 1), IsOk, ResponseTime), 0, 0);
    } else if errors > 0 {
      assert ss == FastRun(errors - 1, 0) + [ss[|ss| - 1]];
      FastRunTimes(errors - 1, 0);
      TimesAppend(FastRun(errors - 1, 0), ss[|ss| - 1], IsOk, ResponseTime);
    }
  }

  /** Nothing but the error budget can fail such a run. */
  lemma FastRunVerdict(r: Report, errors: nat, ok: nat, slo: int, errorBudget: real)
    requires IsReport(r, FastRun(errors, ok), slo, errorBudget, false) && ok > 0 && slo > 0
    ensures r.errors == errors && r.total == errors + ok
    ensures FailReason(r) == if Ratio(errors, errors + ok) >= Middle(errorBudget) then OverBudget else Pass
  {
    var ss := FastRun(errors, ok);
    FastRunTimes(errors, ok);
    var times := Times(ss, IsOk, ResponseTime);
    hide Times, Sort, CountLe, Percentile, Ppm, RoundDiv;
    P99IsTheOnePercent(times, 0);
    RoundMonotone(Percentile(Sort(times, IntLe), 99.0), slo, 1000);
    BudgetVerdictExactly(r);
  }

  /** A run over its budget can pass: 10004 errors in ten million requests against a budget of 0.001. */
  lemma OverBudgetRunCanPass(slo: int)
    requires slo > 0
    ensures forall r :: IsReport(r, FastRun(10004, 9989996), slo, 0.001, false) ==>
              r.total > 0 && Ratio(r.errors, r.total) > 0.001 && FailReason(r) == Pass
  {
    hide IsReport, FastRun, FailReason;
    assert (0.001 * 1000000.0).Floor == 1000;
    forall r | IsReport(r, FastRun(10004, 9989996), slo, 0.001, false)
      ensures r.total > 0 && Ratio(r.errors, r.total) > 0.001 && FailReason(r) == Pass
    {
      FastRunVerdict(r, 10004, 9989996, slo, 0.001);
    }
  }

  /** And a run within its budget can fail: 10006 errors in ten million requests against a budget of 0.0010007. */
  lemma WithinBudgetRunCanFail(slo: int)
    requires slo > 0
    ensures forall r :: IsReport(r, FastRun(10006, 9989994), slo, 0.0010007, false) ==>
              r.total > 0 && Ratio(r.errors, r.total) <= 0.0010007 && FailReason(r) == OverBudget
  {
    hide IsReport, FastRun, FailReason;
    assert (0.0010007 * 1000000.0).Floor == 1000;
    forall r | IsReport(r, FastRun(10006, 9989994), slo, 0.0010007, false)
      ensures r.total > 0 && Ratio(r.errors, r.total) <= 0.0010007 && FailReason(r) == OverBudget
    {
      FastRunVerdict(r, 10006, 9989994, slo, 0.0010007);
    }
  }

  /** If no request was sent before it was scheduled, every reported response-time figure is at least the
      matching service-time figure. */
  lemma {:induction false} TimesDominate(ss: seq<Sample>)
    requires forall i :: 0 <= i < |ss| ==> ss[i].scheduledAt <= ss[i].sentAt
    ensures Dominates(Times(ss, IsOk, ResponseTime), Times(ss, IsOk, ServiceTime))
  {
    if ss != [] {
      TimesDominate(ss[..|ss| - 1]);
    }
  }

  lemma OmissionOnlyRaisesLatency(ss: seq<Sample>)
    requires forall i :: 0 <= i < |ss| ==> ss[i].scheduledAt <= ss[i].sentAt
    ensures StatsLe(StatsOf(Sort(Times(ss, IsOk, ServiceTime), IntLe)), StatsOf(Sort(Times(ss, IsOk, ResponseTime), IntLe)))
  {
    TimesDominate(ss);
    ResponseDominatesService(Times(ss, IsOk, ResponseTime), Times(ss, IsOk, ServiceTime));
  }

  /** How long after its schedule a request was sent. */
  function Lateness(s: Sample): int { s.sentAt - s.scheduledAt }

  lemma {:induction false} SumAppend(s: seq<int>, x: int)
    ensures Sum(s + [x]) == Sum(s) + x
  {
    if s == [] {
      assert s + [x] == [x] && [x][1..] == [];
    } else {
      assert (s + [x])[1..] == s[1..] + [x];
      SumAppend(s[1..], x);
    }
  }

  /** What coordinated omission hides: all response times together exceed all service times together by exactly the
      lateness of the requests. */
  lemma {:induction false} LatenessIsTheDifference(ss: seq<Sample>, f: Sample -> bool)
    ensures Sum(Times(ss, f, ResponseTime)) == Sum(Times(ss, f, ServiceTime)) + Sum(Times(ss, f, Lateness))
  {
    if ss != [] {
      var rest, s := ss[..|ss| - 1], ss[|ss| - 1];
      LatenessIsTheDifference(rest, f);
      if f(s) {
        SumAppend(Times(rest, f, ResponseTime), ResponseTime(s));
        SumAppend(Times(rest, f, ServiceTime), ServiceTime(s));
        SumAppend(Times(rest, f, Lateness), Lateness(s));
      }
      hide Sum;
    }
  }
}
