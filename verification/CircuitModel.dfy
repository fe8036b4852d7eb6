/** The circuit breaker as a state machine over the log of recorded outcomes.

    The implementation (module Circuit) keeps a circular array of buckets with a running total. Here
    the window is simply a cut-off instant into the log of every outcome since the last close or
    Reset, which is what the buckets have to agree with. All times are nanoseconds. */
module CircuitModel {
  import opened Arithmetic

  datatype State = Closed | Open | HalfOpen

  datatype Settings = Settings(window: int, buckets: int, minRequests: int, failureRatio: real,
                               openTimeout: int, halfOpenMax: int)

  const SECOND := 1_000_000_000

  /** Settings.normalize: zero or negative values get defaults, the open timeout is kept as given. */
  function Normalize(s: Settings): (r: Settings)
    ensures Usable(r)
    ensures Usable(s) ==> r == s
    ensures r.openTimeout == s.openTimeout
    ensures (s.window > 0 ==> r.window == s.window) && (s.buckets >= 1 ==> r.buckets == s.buckets)
    ensures (s.minRequests >= 1 ==> r.minRequests == s.minRequests) && (s.halfOpenMax >= 1 ==> r.halfOpenMax == s.halfOpenMax)
    ensures s.failureRatio > 0.0 ==> r.failureRatio == s.failureRatio
  {
    Settings(if s.window <= 0 then SECOND else s.window,
             if s.buckets < 1 then 1 else s.buckets,
             if s.minRequests < 1 then 1 else s.minRequests,
             if s.failureRatio <= 0.0 then 0.5 else s.failureRatio,
             s.openTimeout,
             if s.halfOpenMax < 1 then 1 else s.halfOpenMax)
  }

  predicate Usable(s: Settings) {
    s.window > 0 && s.buckets >= 1 && s.minRequests >= 1 && s.failureRatio > 0.0 && s.halfOpenMax >= 1
  }

  /** What settings without a single usable value come down to. */
  lemma Defaults(s: Settings)
    requires s.window <= 0 && s.buckets <= 0 && s.minRequests <= 0 && s.failureRatio <= 0.0 && s.halfOpenMax <= 0
    ensures Normalize(s) == Settings(1_000_000_000, 1, 1, 0.5, s.openTimeout, 1)
  {}

  /** The width of one bucket. A full lap of buckets misses the configured window by less than one nanosecond
      per bucket; a window too short for that gets one nanosecond per bucket. */
  function BucketDur(s: Settings): (d: int)
    requires Usable(s)
    ensures d >= 1
    ensures if s.window >= s.buckets then s.buckets * d <= s.window < s.buckets * (d + 1) else d == 1
  {
    var d := s.window / s.buckets;
    FloorBounds(s.window, s.buckets);
    if d <= 0 then 1 else d
  }

  datatype Outcome = Outcome(at: int, failed: bool)
  datatype Tally = Tally(requests: int, failures: int)
  datatype Transition = Transition(from: State, to: State)

  /** What an admission hands out: `probe` marks a half-open trial of episode `gen`. */
  datatype Token = Token(gen: nat, probe: bool)

  const UNATTRIBUTED := Token(0, false)

  /** `start` is the instant the current bucket began; `log` holds every outcome since the last close or Reset. */
  datatype Model = Model(state: State, start: int, log: seq<Outcome>, openedAt: int,
                         probes: int, successes: int, gen: nat)

  /** A model together with the transitions appended while the lock was held. */
  datatype Step = Step(m: Model, trs: seq<Transition>)

  // ----- the window

  /** The number of outcomes, and of failures, recorded at or after `lo`. */
  function TallyFrom(log: seq<Outcome>, lo: int): (t: Tally)
    ensures 0 <= t.failures <= t.requests <= |log|
  {
    if log == [] then Tally(0, 0)
    else
      var t := TallyFrom(log[..|log| - 1], lo);
      var e := log[|log| - 1];
      if e.at < lo then t
      else Tally(t.requests + 1, t.failures + if e.failed then 1 else 0)
  }

  /** Where the current bucket begins once the window has been rolled forward to `now`. */
  function Roll(cfg: Settings, start: int, now: int): (r: int)
    requires Usable(cfg)
    ensures start <= now ==> start <= r <= now < r + BucketDur(cfg)
    ensures now < start + BucketDur(cfg) ==> r == start
  {
    var d := BucketDur(cfg);
    if now - start < d then start
    else
      var n := (now - start) / d;
      if n >= cfg.buckets then now else start + n * d
  }

  /** The oldest instant whose outcomes are still counted when the current bucket began at `start`. */
  function Cut(cfg: Settings, start: int): (c: int)
    requires Usable(cfg)
  {
    start - (cfg.buckets - 1) * BucketDur(cfg)
  }

  function Live(cfg: Settings, m: Model): (t: Tally)
    requires Usable(cfg)
  {
    TallyFrom(m.log, Cut(cfg, m.start))
  }

  /** Every logged outcome falls before the end of the current bucket. */
  ghost predicate Logged(cfg: Settings, m: Model)
    requires Usable(cfg)
  {
    forall i :: 0 <= i < |m.log| ==> m.log[i].at < m.start + BucketDur(cfg)
  }

  // ----- the state machine

  predicate Trips(cfg: Settings, t: Tally)
    requires Usable(cfg)
  {
    t.requests >= cfg.minRequests && t.failures as real / t.requests as real >= cfg.failureRatio
  }

  function SetState(m: Model, to: State, now: int): (r: Step) {
    if m.state == to then Step(m, [])
    else
      var n := m.(state := to, probes := 0, successes := 0);
      Step(match to
           case HalfOpen => n.(gen := n.gen + 1)
           case Open => n.(openedAt := now)
           case Closed => n.(log := [], start := now),
           [Transition(m.state, to)])
  }

  function Refresh(cfg: Settings, m: Model, now: int): (r: Step)
    requires Usable(cfg)
  {
    var n := m.(start := Roll(cfg, m.start, now));
    if n.state == Open && now - n.openedAt >= cfg.openTimeout then SetState(n, HalfOpen, now)
    else Step(n, [])
  }

  /** An outcome steers the state only when it comes from a probe of the running episode. */
  predicate Current(m: Model, tok: Token) {
    tok.probe && tok.gen == m.gen && m.state == HalfOpen
  }

  /** What a freshly counted outcome does to the state. */
  function Settle(cfg: Settings, c: Model, failed: bool, tok: Token, now: int): (r: Step)
    requires Usable(cfg)
  {
    match c.state
    case Open => Step(c, [])
    case Closed => if Trips(cfg, Live(cfg, c)) then SetState(c, Open, now) else Step(c, [])
    case HalfOpen =>
      if !Current(c, tok) then Step(c, [])
      else
        var p := c.(probes := if c.probes > 0 then c.probes - 1 else c.probes);
        if failed then SetState(p, Open, now)
        else
          var s := p.(successes := p.successes + 1);
          if s.successes >= cfg.halfOpenMax then SetState(s, Closed, now) else Step(s, [])
  }

  function Record(cfg: Settings, m: Model, failed: bool, tok: Token, now: int): (r: Step)
    requires Usable(cfg)
  {
    var f := Refresh(cfg, m, now);
    Then(f.trs, Settle(cfg, f.m.(log := f.m.log + [Outcome(now, failed)]), failed, tok, now))
  }

  function Then(trs: seq<Transition>, s: Step): Step {
    Step(s.m, trs + s.trs)
  }

  datatype Admission = Admission(m: Model, trs: seq<Transition>, tok: Token, ok: bool)

  /** Admit with the lock held, in whatever state the breaker is by then. */
  function AdmitLocked(cfg: Settings, m: Model, now: int): (r: Admission)
    requires Usable(cfg)
  {
    var f := Refresh(cfg, m, now);
    match f.m.state
    case Open => Admission(f.m, f.trs, UNATTRIBUTED, false)
    case Closed => Admission(f.m, f.trs, UNATTRIBUTED, true)
    case HalfOpen =>
      if f.m.probes < cfg.halfOpenMax then
        Admission(f.m.(probes := f.m.probes + 1), f.trs, Token(f.m.gen, true), true)
      else Admission(f.m, f.trs, UNATTRIBUTED, false)
  }

  /** `raced` says that the lock-free read saw a state other than closed, so that the lock is taken
      even though the breaker may have closed in between. */
  function Admit(cfg: Settings, m: Model, now: int, raced: bool): (r: Admission)
    requires Usable(cfg)
  {
    if m.state == Closed && !raced then Admission(m, [], UNATTRIBUTED, true) else AdmitLocked(cfg, m, now)
  }

  /** The polling reads, State and Ready: they roll the window and expire the open timer, no more. */
  function Poll(cfg: Settings, m: Model, now: int, raced: bool): (r: Step)
    requires Usable(cfg)
  {
    if m.state == Closed && !raced then Step(m, []) else Refresh(cfg, m, now)
  }

  predicate ReadyIn(cfg: Settings, m: Model) {
    m.state == Closed || (m.state == HalfOpen && m.probes < cfg.halfOpenMax)
  }

  function Release(m: Model, tok: Token): (r: Model) {
    if Current(m, tok) && m.probes > 0 then m.(probes := m.probes - 1) else m
  }

  function Reset(m: Model, now: int): (r: Step) {
    var s := SetState(m, Closed, now);
    Step(s.m.(log := [], start := now, probes := 0, successes := 0), s.trs)
  }

  function Initial(now: int): (m: Model) {
    Model(Closed, now, [], 0, 0, 0, 0)
  }

  /** When a request is admitted: by a closed breaker always, by an open one once the timeout is over, as the
      first probe of a new episode, and by a half-open one while a slot is free. */
  lemma AdmitsExactly(cfg: Settings, m: Model, now: int, raced: bool)
    requires Usable(cfg)
    ensures var a := Admit(cfg, m, now, raced);
            && (a.ok <==> match m.state
                          case Closed => true
                          case Open => now - m.openedAt >= cfg.openTimeout
                          case HalfOpen => m.probes < cfg.halfOpenMax)
            && (a.tok.probe <==> a.ok && m.state != Closed)
            && (a.tok.probe ==> a.tok.gen == a.m.gen && a.m.state == HalfOpen
                                && a.m.gen == (if m.state == Open then m.gen + 1 else m.gen)
                                && a.m.probes == (if m.state == Open then 1 else m.probes + 1))
  {
    hide Roll;
  }

  // ----- what the window counts

  lemma {:induction false} TallySame(log: seq<Outcome>, a: int, b: int)
    requires forall i :: 0 <= i < |log| ==> (log[i].at < a <==> log[i].at < b)
    ensures TallyFrom(log, a) == TallyFrom(log, b)
  {
    if log != [] {
      TallySame(log[..|log| - 1], a, b);
    }
  }

  lemma {:induction false} TallyEmpty(log: seq<Outcome>, lo: int)
    requires forall i :: 0 <= i < |log| ==> log[i].at < lo
    ensures TallyFrom(log, lo) == Tally(0, 0)
  {
    if log != [] {
      TallyEmpty(log[..|log| - 1], lo);
    }
  }

  // ----- the window in terms of the configured duration

  /** The outcomes logged at `lo` or later, by position in the log. */
  ghost function Since(log: seq<Outcome>, lo: int): set<int> {
    set i | 0 <= i < |log| && log[i].at >= lo
  }

  ghost function FailedSince(log: seq<Outcome>, lo: int): set<int> {
    set i | 0 <= i < |log| && log[i].at >= lo && log[i].failed
  }

  lemma SinceAppend(log: seq<Outcome>, e: Outcome, lo: int)
    ensures |Since(log + [e], lo)| == |Since(log, lo)| + if e.at >= lo then 1 else 0
  {
    var more := log + [e];
    assert more[|log|] == e && forall i :: 0 <= i < |log| ==> more[i] == log[i];
    var was, now, last := Since(log, lo), Since(more, lo), |log|;
    assert last !in was && (last in now <==> e.at >= lo);
    assert forall i :: i != last ==> (i in now <==> i in was);
    hide Since;
    assert now == was || now == was + {last};
  }

  lemma FailedSinceAppend(log: seq<Outcome>, e: Outcome, lo: int)
    ensures |FailedSince(log + [e], lo)| == |FailedSince(log, lo)| + if e.at >= lo && e.failed then 1 else 0
  {
    var more := log + [e];
    assert more[|log|] == e && forall i :: 0 <= i < |log| ==> more[i] == log[i];
    if e.at >= lo && e.failed {
      assert FailedSince(more, lo) == FailedSince(log, lo) + {|log|};
    } else {
      assert FailedSince(more, lo) == FailedSince(log, lo);
    }
  }

  /** The tally counts the outcomes since `lo`, and the failures among them. */
  lemma {:induction false} TallyCounts(log: seq<Outcome>, lo: int)
    ensures TallyFrom(log, lo) == Tally(|Since(log, lo)|, |FailedSince(log, lo)|)
  {
    if log == [] {
      assert Since(log, lo) == {} && FailedSince(log, lo) == {};
    } else {
      var rest, e := log[..|log| - 1], log[|log| - 1];
      TallyCounts(rest, lo);
      SinceAppend(rest, e, lo);
      FailedSinceAppend(rest, e, lo);
      assert log == rest + [e];
      hide Since, FailedSince;
    }
  }

  /** As old as the configured window, or as a nanosecond per bucket if that is longer. */
  predicate Expired(cfg: Settings, now: int, at: int) {
    now - at >= cfg.window && now - at >= cfg.buckets
  }

  /** Younger than all but one of the window's B parts, each shortened by the rounding of the bucket width. */
  predicate Recent(cfg: Settings, now: int, at: int) {
    (now - at) * cfg.buckets <= (cfg.buckets - 1) * (cfg.window - cfg.buckets + 1)
  }

  /** A cut-off for a window read at `now`: nothing expired is counted, and everything recent is. */
  ghost predicate WindowCut(cfg: Settings, now: int, cut: int) {
    && (forall at :: Expired(cfg, now, at) ==> at < cut)
    && (forall at :: Recent(cfg, now, at) ==> at >= cut)
  }

  lemma CutIsWindowCut(cfg: Settings, now: int, cut: int)
    requires Usable(cfg) && now - cfg.buckets * BucketDur(cfg) < cut <= now - (cfg.buckets - 1) * BucketDur(cfg)
    ensures WindowCut(cfg, now, cut)
  {
    hide BucketDur, Expired, Recent;
    forall at ensures Expired(cfg, now, at) ==> at < cut {
      ExpiredIsOut(cfg, now, at);
    }
    forall at ensures Recent(cfg, now, at) ==> at >= cut {
      RecentIsIn(cfg, now, at);
    }
  }

  lemma ExpiredIsOut(cfg: Settings, now: int, at: int)
    requires Usable(cfg)
    ensures Expired(cfg, now, at) ==> at <= now - cfg.buckets * BucketDur(cfg)
  {
    hide BucketDur;
  }

  lemma RecentIsIn(cfg: Settings, now: int, at: int)
    requires Usable(cfg)
    ensures Recent(cfg, now, at) ==> at >= now - (cfg.buckets - 1) * BucketDur(cfg)
  {
    hide BucketDur;
    var d, B := BucketDur(cfg), cfg.buckets;
    assert B * (d + 1) == B * d + B;
    if Recent(cfg, now, at) { YoungEnough(now - at, d, B, cfg.window); }
  }

  lemma YoungEnough(a: int, d: int, B: int, w: int)
    requires B >= 1 && d >= 1 && w - B + 1 <= B * d && a * B <= (B - 1) * (w - B + 1)
    ensures a <= (B - 1) * d
  {
    if a > (B - 1) * d {
      MulMono((B - 1) * d + 1, a, B);
      assert ((B - 1) * d + 1) * B == (B - 1) * (B * d) + B;
      if B > 1 { Scaled(w - B + 1, B * d, B - 1); }
    }
  }

  /** Once rolled to `now`, the window counts exactly the outcomes since one cut-off instant, and that instant is as
      far back as the configured window demands. */
  lemma WindowBounds(cfg: Settings, m: Model, now: int)
    requires Usable(cfg) && m.start <= now
    ensures var cut := Cut(cfg, Roll(cfg, m.start, now));
            && Live(cfg, m.(start := Roll(cfg, m.start, now))) == Tally(|Since(m.log, cut)|, |FailedSince(m.log, cut)|)
            && WindowCut(cfg, now, cut)
  {
    var d, r := BucketDur(cfg), Roll(cfg, m.start, now);
    assert cfg.buckets * d == (cfg.buckets - 1) * d + d;
    TallyCounts(m.log, Cut(cfg, r));
    CutIsWindowCut(cfg, now, Cut(cfg, r));
  }

  // ----- when a breaker trips

  /** The trip condition over the log, counted from the cut-off on. */
  ghost predicate TooManyFailures(cfg: Settings, log: seq<Outcome>, cut: int) {
    && |Since(log, cut)| >= cfg.minRequests
    && |FailedSince(log, cut)| as real >= cfg.failureRatio * |Since(log, cut)| as real
  }

  lemma RatioReached(f: int, r: int, q: real)
    requires r >= 1
    ensures f as real / r as real >= q <==> f as real >= q * r as real
  {
    var x, y := f as real, r as real;
    assert (x / y) * y == x;
  }

  /** An outcome on a closed breaker is added to the log and opens it exactly when, with that outcome, the requests
      of the window are enough and the failures among them too many. */
  lemma TripsExactly(cfg: Settings, m: Model, failed: bool, tok: Token, now: int) returns (cut: int)
    requires Usable(cfg) && m.state == Closed && m.start <= now
    ensures var n := Record(cfg, m, failed, tok, now).m;
            && WindowCut(cfg, now, cut) && cut == Cut(cfg, Roll(cfg, m.start, now))
            && n.log == m.log + [Outcome(now, failed)] && n.start == Roll(cfg, m.start, now)
            && n.state == (if TooManyFailures(cfg, n.log, cut) then Open else Closed)
            && (n.state == Open ==> n.openedAt == now)
  {
    hide Roll, TallyFrom, Since, FailedSince, WindowCut, Cut, BucketDur;
    var log := m.log + [Outcome(now, failed)];
    cut := Cut(cfg, Roll(cfg, m.start, now));
    WindowBounds(cfg, m.(log := log), now);
    TripCondition(cfg, log, cut);
  }

  /** No more than the whole log is counted, and all of it if it begins at or after the cut-off. */
  lemma {:induction false} SinceBounds(log: seq<Outcome>, lo: int)
    ensures |FailedSince(log, lo)| <= |Since(log, lo)| <= |log|
    ensures (forall i :: 0 <= i < |log| ==> log[i].at >= lo && log[i].failed) ==> |FailedSince(log, lo)| == |log|
  {
    if log == [] {
      assert Since(log, lo) == {} && FailedSince(log, lo) == {};
    } else {
      var rest, e := log[..|log| - 1], log[|log| - 1];
      SinceBounds(rest, lo);
      SinceAppend(rest, e, lo);
      FailedSinceAppend(rest, e, lo);
      assert log == rest + [e];
      hide Since, FailedSince;
    }
  }

  /** Every outcome is logged, whatever the state, except that one which closes the breaker empties the log. */
  lemma RecordLogs(cfg: Settings, m: Model, failed: bool, tok: Token, now: int)
    requires Usable(cfg)
    ensures var n := Record(cfg, m, failed, tok, now).m;
            n.log == if m.state != Closed && n.state == Closed then [] else m.log + [Outcome(now, failed)]
  {
    hide Roll, TallyFrom, Trips;
  }

  lemma TripCondition(cfg: Settings, log: seq<Outcome>, cut: int)
    requires Usable(cfg)
    ensures Trips(cfg, TallyFrom(log, cut)) <==> TooManyFailures(cfg, log, cut)
  {
    TallyCounts(log, cut);
    hide TallyFrom, Since, FailedSince;
    var t := TallyFrom(log, cut);
    if t.requests >= cfg.minRequests { RatioReached(t.failures, t.requests, cfg.failureRatio); }
  }

  /** Roll without the division: `n` is the number of whole buckets between `start` and `now`. */
  lemma RollIs(cfg: Settings, start: int, now: int, n: int)
    requires Usable(cfg) && n >= 0
    requires n * BucketDur(cfg) <= now - start < n * BucketDur(cfg) + BucketDur(cfg)
    ensures Roll(cfg, start, now) == if n >= cfg.buckets then now else start + n * BucketDur(cfg)
  {
    var d := BucketDur(cfg);
    DivIs(now - start, n, d);
    if n >= 1 { MulMono(1, n, d); }
  }

  /** Rolling to t1 and then to t2 counts what rolling straight to t2 counts. The bucket alignment may
      differ, because a gap of a whole window moves the origin to the polling instant. */
  lemma RollTwice(cfg: Settings, m: Model, t1: int, t2: int)
    requires Usable(cfg) && Logged(cfg, m) && m.start <= t1 <= t2
    ensures TallyFrom(m.log, Cut(cfg, Roll(cfg, Roll(cfg, m.start, t1), t2)))
         == TallyFrom(m.log, Cut(cfg, Roll(cfg, m.start, t2)))
  {
    StaleAfterGap(cfg, m.start, t1, t2);
    if Roll(cfg, Roll(cfg, m.start, t1), t2) != Roll(cfg, m.start, t2) {
      TallyEmpty(m.log, Cut(cfg, Roll(cfg, Roll(cfg, m.start, t1), t2)));
      TallyEmpty(m.log, Cut(cfg, Roll(cfg, m.start, t2)));
    }
  }

  function RollThrough(cfg: Settings, start: int, ts: seq<int>): int
    requires Usable(cfg)
    decreases |ts|
  {
    if ts == [] then start else RollThrough(cfg, Roll(cfg, start, ts[0]), ts[1..])
  }

  ghost predicate Ascending(from: int, ts: seq<int>) {
    (forall i :: 0 <= i < |ts| ==> from <= ts[i]) && (forall i, j :: 0 <= i < j < |ts| ==> ts[i] <= ts[j])
  }

  /** Any number of polls on the way reports, at the last one, the counts of rolling there in one go. */
  lemma {:induction false} PollsDoNotChangeCounts(cfg: Settings, m: Model, ts: seq<int>)
    requires Usable(cfg) && Logged(cfg, m) && ts != [] && Ascending(m.start, ts)
    ensures TallyFrom(m.log, Cut(cfg, RollThrough(cfg, m.start, ts)))
         == TallyFrom(m.log, Cut(cfg, Roll(cfg, m.start, ts[|ts| - 1])))
    decreases |ts|
  {
    var s1 := Roll(cfg, m.start, ts[0]);
    if |ts| == 1 {
      assert RollThrough(cfg, m.start, ts) == RollThrough(cfg, s1, []);
    } else {
      PollsDoNotChangeCounts(cfg, m.(start := s1), ts[1..]);
      RollTwice(cfg, m, ts[0], ts[|ts| - 1]);
    }
  }

  /** If the two rolls end on different alignments, both cut-offs lie past everything logged. */
  lemma StaleAfterGap(cfg: Settings, start: int, t1: int, t2: int)
    requires Usable(cfg) && start <= t1 <= t2
    ensures var (s2, s) := (Roll(cfg, Roll(cfg, start, t1), t2), Roll(cfg, start, t2));
            s2 != s ==> Cut(cfg, s2) >= start + BucketDur(cfg) && Cut(cfg, s) >= start + BucketDur(cfg)
  {
    var d, B := BucketDur(cfg), cfg.buckets;
    var n1 := Quotient(t1 - start, d);
    var n2 := Quotient(t2 - start, d);
    var s1 := Roll(cfg, start, t1);
    RollIs(cfg, start, t1, n1);
    RollIs(cfg, start, t2, n2);
    var k := Quotient(t2 - s1, d);
    RollIs(cfg, s1, t2, k);
    Laps(n1, B, d);
    Laps(n2, B, d);
    Laps(k, B, d);
    if n1 < B {
      SameQuotient(t2 - start, n1, k, n2, d);
    }
    hide Roll, BucketDur, Usable;
    GapPast(d, (B - 1) * d, start, t1, t2, n1 * d, n2 * d, k * d, n1 >= B, n2 >= B, k >= B);
  }

  lemma Laps(n: int, B: int, d: int)
    requires n >= 0 && B >= 1 && d >= 1
    ensures 0 <= n * d && if n >= B then n * d >= (B - 1) * d + d else n * d <= (B - 1) * d
  {
    assert B * d == (B - 1) * d + d;
    MulMono(0, n, d);
    if n >= B { MulMono(B, n, d); } else { MulMono(n, B - 1, d); }
  }

  lemma SameQuotient(x: int, m: int, k: int, n: int, d: int)
    requires d >= 1 && m * d + k * d <= x < m * d + k * d + d && n * d <= x < n * d + d
    ensures n * d == m * d + k * d
  {
    assert (m + k) * d == m * d + k * d;
    DivIs(x, m + k, d);
    DivIs(x, n, d);
  }

  /** The bucket counts enter only through their widths: x1 and x2 from `start` to t1 and t2, xk from the first
      roll to t2; g1, g2 and gk say whether each is a whole window, which is `span` and one more bucket. */
  lemma GapPast(d: int, span: int, start: int, t1: int, t2: int, x1: int, x2: int, xk: int, g1: bool, g2: bool, gk: bool)
    requires d >= 1 && start <= t1 <= t2 && 0 <= xk
    requires x1 <= t1 - start < x1 + d && x2 <= t2 - start < x2 + d
    requires if g1 then x1 >= span + d else 0 <= x1 <= span
    requires if g2 then x2 >= span + d else 0 <= x2 <= span
    requires gk ==> xk >= span + d
    requires var s1 := if g1 then t1 else start + x1; xk <= t2 - s1 < xk + d
    requires !g1 ==> x2 == x1 + xk
    ensures var s2 := if gk then t2 else (if g1 then t1 else start + x1) + xk;
            var s := if g2 then t2 else start + x2;
            s2 != s ==> s2 - span >= start + d && s - span >= start + d
  {}
}
