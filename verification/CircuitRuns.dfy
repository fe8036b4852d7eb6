/** Theorems about whole runs of one breaker, stated over every sequence of calls. */
module CircuitRuns {
  import opened Arithmetic
  import opened CircuitModel

  datatype Call =
    | DoAdmit(now: int, raced: bool)
    | DoReady(now: int, raced: bool)
    | DoState(now: int, raced: bool)
    | DoRecord(failed: bool, tok: Token, now: int)
    | DoRelease(tok: Token)
    | DoCounts(now: int)
    | DoReset(now: int)

  /** What a caller, or the state-change callback, sees of one call; window counts are not part of it. */
  datatype Seen = Seen(state: State, trs: seq<Transition>, admitted: bool, ready: bool, tok: Token)

  function Exec(cfg: Settings, m: Model, c: Call): (Model, Seen)
    requires Usable(cfg)
  {
    match c
    case DoAdmit(now, raced) =>
      var a := Admit(cfg, m, now, raced);
      (a.m, Seen(a.m.state, a.trs, a.ok, false, a.tok))
    case DoReady(now, raced) =>
      var s := Poll(cfg, m, now, raced);
      (s.m, Seen(s.m.state, s.trs, false, ReadyIn(cfg, s.m), UNATTRIBUTED))
    case DoState(now, raced) => Observed(Poll(cfg, m, now, raced))
    case DoRecord(failed, tok, now) => Observed(Record(cfg, m, failed, tok, now))
    case DoRelease(tok) => Observed(Step(Release(m, tok), []))
    case DoCounts(now) => Observed(Step(m.(start := Roll(cfg, m.start, now)), []))
    case DoReset(now) => Observed(Reset(m, now))
  }

  function Observed(s: Step): (Model, Seen) {
    (s.m, Seen(s.m.state, s.trs, false, false, UNATTRIBUTED))
  }

  function Run(cfg: Settings, m: Model, calls: seq<Call>): seq<Seen>
    requires Usable(cfg)
    decreases |calls|
  {
    if calls == [] then []
    else
      var (n, o) := Exec(cfg, m, calls[0]);
      [o] + Run(cfg, n, calls[1..])
  }

  // ----- non-interference

  /** Two breakers that differ at most in a log nobody will consult before it is dropped. */
  ghost predicate Alike(a: Model, b: Model) {
    a.(log := []) == b.(log := []) && (a.state == Closed ==> a.log == b.log)
  }

  lemma ExecAlike(cfg: Settings, a: Model, b: Model, c: Call)
    requires Usable(cfg) && Alike(a, b)
    ensures Alike(Exec(cfg, a, c).0, Exec(cfg, b, c).0)
    ensures Exec(cfg, a, c).1 == Exec(cfg, b, c).1
  {
    hide Roll, TallyFrom, Trips;
    match c {
      case DoRecord(failed, tok, now) =>
        var x, y := Refresh(cfg, a, now), Refresh(cfg, b, now);
        assert Alike(x.m, y.m) && x.trs == y.trs;
      case _ =>
    }
  }

  lemma {:induction false} RunAlike(cfg: Settings, a: Model, b: Model, calls: seq<Call>)
    requires Usable(cfg) && Alike(a, b)
    ensures Run(cfg, a, calls) == Run(cfg, b, calls)
    decreases |calls|
  {
    if calls != [] {
      ExecAlike(cfg, a, b, calls[0]);
      RunAlike(cfg, Exec(cfg, a, calls[0]).0, Exec(cfg, b, calls[0]).0, calls[1..]);
    }
  }

  lemma StaleIgnored(cfg: Settings, m: Model, failed: bool, tok: Token, now: int)
    requires Usable(cfg) && m.state != Closed && tok.gen <= m.gen && !Current(m, tok)
    ensures var (f, r) := (Refresh(cfg, m, now), Record(cfg, m, failed, tok, now));
            r.trs == f.trs && r.m == f.m.(log := f.m.log + [Outcome(now, failed)]) && r.m.state != Closed
  {
    var f := Refresh(cfg, m, now);
    var c := f.m.(log := f.m.log + [Outcome(now, failed)]);
    assert c.state != Closed && !Current(c, tok);
    assert Settle(cfg, c, failed, tok, now) == Step(c, []);
  }

  /** An outcome that is not from the running episode, arriving while the breaker is not closed, could
      be replaced by a bare State poll: every later state, transition and admission of every run is the
      same. Tokens carry the generation of an episode that has begun. */
  lemma StaleOutcomeIsAPoll(cfg: Settings, m: Model, failed: bool, tok: Token, now: int, rest: seq<Call>)
    requires Usable(cfg)
    requires m.state != Closed && tok.gen <= m.gen && !Current(m, tok)
    ensures Run(cfg, m, [DoRecord(failed, tok, now)] + rest) == Run(cfg, m, [DoState(now, false)] + rest)
  {
    var (a, x) := Exec(cfg, m, DoRecord(failed, tok, now));
    var (b, y) := Exec(cfg, m, DoState(now, false));
    StaleIgnored(cfg, m, failed, tok, now);
    assert ([DoRecord(failed, tok, now)] + rest)[1..] == rest == ([DoState(now, false)] + rest)[1..];
    RunAlike(cfg, a, b, rest);
  }

  // ----- one transition per locked call

  /** Moving from one state to another is reported as one transition, staying put as none. */
  function Moves(from: State, to: State): (trs: seq<Transition>) {
    if from == to then [] else [Transition(from, to)]
  }

  ghost predicate Issued(m: Model, c: Call) {
    match c
    case DoRecord(_, tok, _) => tok.gen <= m.gen
    case DoRelease(tok) => tok.gen <= m.gen
    case _ => true
  }

  ghost predicate IssuedAlong(cfg: Settings, m: Model, calls: seq<Call>)
    requires Usable(cfg)
    decreases |calls|
  {
    calls == [] || (Issued(m, calls[0]) && IssuedAlong(cfg, Exec(cfg, m, calls[0]).0, calls[1..]))
  }

  lemma ExecMoves(cfg: Settings, m: Model, c: Call)
    requires Usable(cfg) && Issued(m, c)
    ensures var (n, o) := Exec(cfg, m, c); o.trs == Moves(m.state, n.state) && o.state == n.state
  {}

  /** `o` reports a path of single moves that starts at `from`. */
  ghost predicate PathFrom(from: State, o: seq<Seen>)
    decreases |o|
  {
    o == [] || (o[0].trs == Moves(from, o[0].state) && PathFrom(o[0].state, o[1..]))
  }

  /** Over every run each call reports exactly the move it made, so it appends at most one transition and
      the transitions of all calls form one connected path through the states. */
  lemma {:induction false} OneConnectedPath(cfg: Settings, m: Model, calls: seq<Call>)
    requires Usable(cfg) && IssuedAlong(cfg, m, calls)
    ensures PathFrom(m.state, Run(cfg, m, calls))
    decreases |calls|
  {
    if calls != [] {
      var (n, o) := Exec(cfg, m, calls[0]);
      ExecMoves(cfg, m, calls[0]);
      OneConnectedPath(cfg, n, calls[1..]);
      assert ([o] + Run(cfg, n, calls[1..]))[1..] == Run(cfg, n, calls[1..]);
    }
  }

  // ----- tripping

  /** One failure after the other, each with whatever token its caller holds. */
  function Failing(cfg: Settings, m: Model, fs: seq<(Token, int)>): (r: Model)
    requires Usable(cfg)
  {
    if fs == [] then m
    else
      var (tok, now) := fs[|fs| - 1];
      Record(cfg, Failing(cfg, m, fs[..|fs| - 1]), true, tok, now).m
  }

  ghost predicate InOrder(from: int, fs: seq<(Token, int)>) {
    && (forall i :: 0 <= i < |fs| ==> from <= fs[i].1)
    && (forall i, j :: 0 <= i < j < |fs| ==> fs[i].1 <= fs[j].1)
  }

  /** The log of these failures. */
  function Failures(fs: seq<(Token, int)>): (log: seq<Outcome>) {
    seq(|fs|, i requires 0 <= i < |fs| => Outcome(fs[i].1, true))
  }

  /** Fewer than MinRequests failures leave a freshly closed breaker closed. */
  lemma {:induction false} TooFewToTrip(cfg: Settings, m: Model, fs: seq<(Token, int)>)
    requires Usable(cfg) && m.state == Closed && m.log == [] && InOrder(m.start, fs) && |fs| < cfg.minRequests
    ensures var n := Failing(cfg, m, fs);
            && n.state == Closed && n.log == Failures(fs) && m.start <= n.start
            && n.start <= (if fs == [] then m.start else fs[|fs| - 1].1)
            && (fs == [] || fs[|fs| - 1].1 < m.start + BucketDur(cfg) ==> n.start == m.start)
    decreases |fs|
  {
    hide Record, Since, FailedSince, WindowCut, BucketDur, Roll, Cut;
    if fs != [] {
      var rest, last := fs[..|fs| - 1], fs[|fs| - 1];
      TooFewToTrip(cfg, m, rest);
      var cut := TripsExactly(cfg, Failing(cfg, m, rest), true, last.0, last.1);
      FailuresGrow(fs);
      SinceBounds(Failures(fs), cut);
      hide Failures;
    }
  }

  lemma FailuresGrow(fs: seq<(Token, int)>)
    requires fs != []
    ensures Failures(fs) == Failures(fs[..|fs| - 1]) + [Outcome(fs[|fs| - 1].1, true)]
    ensures |Failures(fs)| == |fs|
  {}

  /** Failures that all lie at or after the cut-off meet the trip condition. */
  lemma OnlyFailuresTrip(cfg: Settings, fs: seq<(Token, int)>, cut: int)
    requires Usable(cfg) && cfg.failureRatio <= 1.0 && |fs| == cfg.minRequests
    requires forall i :: 0 <= i < |fs| ==> fs[i].1 >= cut
    ensures TooManyFailures(cfg, Failures(fs), cut)
  {
    SinceBounds(Failures(fs), cut);
    var f, r := |FailedSince(Failures(fs), cut)|, |Since(Failures(fs), cut)|;
    assert f == r == |fs|;
    hide Since, FailedSince;
    AtMost(r as real, cfg.failureRatio);
    var x := cfg.failureRatio * r as real;
    assert x <= f as real;
  }

  lemma AtMost(n: real, q: real)
    requires n >= 0.0 && q <= 1.0
    ensures q * n <= n
  {}

  /** MinRequests failures in a row trip a freshly closed breaker, and not one fewer, if all of them fall into one
      bucket or are recent when the last one arrives. */
  lemma MinRequestsFailuresTrip(cfg: Settings, m: Model, fs: seq<(Token, int)>)
    requires Usable(cfg) && cfg.failureRatio <= 1.0 && m.state == Closed && m.log == []
    requires InOrder(m.start, fs) && |fs| == cfg.minRequests
    requires var first, last := fs[0].1, fs[|fs| - 1].1;
             last < m.start + BucketDur(cfg) || Recent(cfg, last, first)
    ensures Failing(cfg, m, fs).state == Open && Failing(cfg, m, fs).openedAt == fs[|fs| - 1].1
    ensures forall k :: 0 <= k < |fs| ==> Failing(cfg, m, fs[..k]).state == Closed
  {
    hide Record, Since, FailedSince, BucketDur, Roll, Failing, Failures, TooManyFailures, Recent, Expired;
    forall k | 0 <= k < |fs| ensures Failing(cfg, m, fs[..k]).state == Closed {
      TooFewToTrip(cfg, m, fs[..k]);
    }
    var n, last := Failing(cfg, m, fs[..|fs| - 1]), fs[|fs| - 1];
    TooFewToTrip(cfg, m, fs[..|fs| - 1]);
    var cut := TripsExactly(cfg, n, true, last.0, last.1);
    FailuresGrow(fs);
    FailingLast(cfg, m, fs);
    MulMono(0, cfg.buckets - 1, BucketDur(cfg));
    assert cut <= fs[0].1;
    OnlyFailuresTrip(cfg, fs, cut);
  }

  lemma FailingLast(cfg: Settings, m: Model, fs: seq<(Token, int)>)
    requires Usable(cfg) && fs != []
    ensures Failing(cfg, m, fs) == Record(cfg, Failing(cfg, m, fs[..|fs| - 1]), true, fs[|fs| - 1].0, fs[|fs| - 1].1).m
  {}

  // ----- recovery

  /** One admission followed by its success. */
  function Round(cfg: Settings, m: Model, admitAt: int, doneAt: int): (r: Model)
    requires Usable(cfg)
  {
    var a := Admit(cfg, m, admitAt, false);
    Record(cfg, a.m, false, a.tok, doneAt).m
  }

  function Rounds(cfg: Settings, m: Model, times: seq<(int, int)>): (r: Model)
    requires Usable(cfg)
    decreases |times|
  {
    if times == [] then m else Rounds(cfg, Round(cfg, m, times[0].0, times[0].1), times[1..])
  }

  /** How many admit-and-succeed rounds still separate a breaker from closing. */
  function Missing(cfg: Settings, m: Model): (n: int) {
    if m.state == Closed then 0 else if m.state == Open then cfg.halfOpenMax else cfg.halfOpenMax - m.successes
  }

  /** No wedge: with no probe outstanding, once the open timeout has run out the breaker closes with an
      empty window after exactly the missing rounds, at most HalfOpenMax of them, whenever they happen. */
  lemma {:induction false} NoWedge(cfg: Settings, m: Model, times: seq<(int, int)>)
    requires Usable(cfg) && m.state != Closed
    requires m.state == HalfOpen ==> m.probes == 0 && 0 <= m.successes < cfg.halfOpenMax
    requires m.state == Open ==> forall i :: 0 <= i < |times| ==> times[i].0 - m.openedAt >= cfg.openTimeout
    requires |times| == Missing(cfg, m)
    ensures |times| <= cfg.halfOpenMax
    ensures Rounds(cfg, m, times).state == Closed && Rounds(cfg, m, times).log == []
    decreases |times|
  {
    var n := Round(cfg, m, times[0].0, times[0].1);
    assert Rounds(cfg, m, times) == Rounds(cfg, n, times[1..]);
    if n.state == Closed {
      assert times[1..] == [];
    } else {
      NoWedge(cfg, n, times[1..]);
    }
  }

  /** The calls that do not resolve a probe of the running episode. */
  ghost predicate Idle(m: Model, c: Call) {
    match c
    case DoRecord(_, tok, _) => !Current(m, tok)
    case DoRelease(tok) => !Current(m, tok)
    case DoReset(_) => false
    case _ => true
  }

  /** The premise is needed: with every slot outstanding, no sequence of other calls ever admits a
      request or leaves half-open again. */
  lemma {:induction false} StrandedProbesWedge(cfg: Settings, m: Model, calls: seq<Call>)
    requires Usable(cfg) && m.state == HalfOpen && m.probes >= cfg.halfOpenMax
    requires forall i :: 0 <= i < |calls| ==> Idle(m, calls[i])
    ensures forall i :: 0 <= i < |calls| ==>
              var o := Run(cfg, m, calls);
              |o| == |calls| && o[i].state == HalfOpen && !o[i].admitted && !o[i].ready && o[i].trs == []
    decreases |calls|
  {
    if calls != [] {
      var n := Exec(cfg, m, calls[0]).0;
      assert n.(log := m.log, start := m.start) == m;
      forall i | 0 <= i < |calls[1..]| ensures Idle(n, calls[1..][i]) {
        assert Idle(m, calls[i + 1]);
      }
      StrandedProbesWedge(cfg, n, calls[1..]);
      RunLength(cfg, n, calls[1..]);
    }
  }

  lemma {:induction false} RunLength(cfg: Settings, m: Model, calls: seq<Call>)
    requires Usable(cfg)
    ensures |Run(cfg, m, calls)| == |calls|
    decreases |calls|
  {
    if calls != [] {
      RunLength(cfg, Exec(cfg, m, calls[0]).0, calls[1..]);
    }
  }
}
