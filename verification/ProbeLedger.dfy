/** Who holds the breaker's probes: one breaker together with every admission it granted and every
    resolution it received, over all runs in which each admission is resolved at most once.
    That premise is discharged from the callers in module RpcFleet. */
module ProbeLedger {
  import opened CircuitModel
  import CircuitRuns

  /** An admission is named after the RPC that asked for it and the attempt it was asked for. */
  datatype Ticket = Ticket(rpc: nat, attempt: nat)

  datatype Verdict = Succeeded | Failed | Abandoned

  datatype Resolution = Resolution(ticket: Ticket, tok: Token, verdict: Verdict)

  /** `granted` are all admissions so far, `out` maps the unresolved ones to their tokens and `done` lists
      the resolutions in the order they arrived. */
  datatype Ledger = Ledger(m: Model, clock: int, granted: set<Ticket>, out: map<Ticket, Token>, done: seq<Resolution>)

  datatype Op =
    | Take(ticket: Ticket, now: int, raced: bool)     // Admit
    | Finish(ticket: Ticket, failed: bool, now: int)  // Success or Failure on the returned probe
    | Abandon(ticket: Ticket)                         // Release
    | Stray(failed: bool, now: int)                   // an outcome that was never admitted
    | Watch(now: int, raced: bool)                    // State, Ready
    | Measure(now: int)                               // Counts
    | Force(now: int)                                 // Reset

  predicate Fresh(l: Ledger, t: Ticket) {
    t !in l.granted
  }

  /** Clocks do not run backwards, a ticket is used once, and only an outstanding one is resolved. */
  ghost predicate Enabled(l: Ledger, op: Op) {
    && (op.Abandon? || op.now >= l.clock)
    && (op.Take? ==> Fresh(l, op.ticket))
    && (op.Finish? || op.Abandon? ==> op.ticket in l.out)
  }

  ghost predicate Admits(cfg: Settings, l: Ledger, op: Op)
    requires Usable(cfg)
  {
    op.Take? && Admit(cfg, l.m, op.now, op.raced).ok
  }

  function Resolved(l: Ledger, m: Model, clock: int, t: Ticket, v: Verdict): Ledger
    requires t in l.out
  {
    Ledger(m, clock, l.granted, l.out - {t}, l.done + [Resolution(t, l.out[t], v)])
  }

  function Apply(cfg: Settings, l: Ledger, op: Op): Ledger
    requires Usable(cfg) && (op.Finish? || op.Abandon? ==> op.ticket in l.out)
  {
    match op
    case Take(t, now, raced) =>
      var a := Admit(cfg, l.m, now, raced);
      if a.ok then l.(m := a.m, clock := now, granted := l.granted + {t}, out := l.out[t := a.tok])
      else l.(m := a.m, clock := now)
    case Finish(t, failed, now) =>
      Resolved(l, Record(cfg, l.m, failed, l.out[t], now).m, now, t, if failed then Failed else Succeeded)
    case Abandon(t) => Resolved(l, Release(l.m, l.out[t]), l.clock, t, Abandoned)
    case Stray(failed, now) => l.(m := Record(cfg, l.m, failed, UNATTRIBUTED, now).m, clock := now)
    case Watch(now, raced) => l.(m := Poll(cfg, l.m, now, raced).m, clock := now)
    case Measure(now) => l.(m := l.m.(start := Roll(cfg, l.m.start, now)), clock := now)
    case Force(now) => l.(m := Reset(l.m, now).m, clock := now)
  }

  function Opening(now: int): Ledger {
    Ledger(Initial(now), now, {}, map[], [])
  }

  /** The outstanding probes of episode `gen`. */
  ghost function Holding(out: map<Ticket, Token>, gen: nat): set<Ticket> {
    set t | t in out && out[t] == Token(gen, true)
  }

  /** The distinct probes of episode `gen` that were resolved with verdict `v`. */
  ghost function Verdicts(done: seq<Resolution>, gen: nat, v: Verdict): set<Ticket> {
    set r | r in done && r.tok == Token(gen, true) && r.verdict == v :: r.ticket
  }

  /** How often ticket `t` has been resolved. */
  ghost function Resolutions(done: seq<Resolution>, t: Ticket): nat {
    if done == [] then 0
    else Resolutions(done[..|done| - 1], t) + if done[|done| - 1].ticket == t then 1 else 0
  }

  /** Granted admissions are either outstanding or resolved, never both, and no two resolutions share one. */
  ghost predicate Bookkeeping(l: Ledger) {
    && (forall t :: t in l.out ==> t in l.granted && l.out[t].gen <= l.m.gen)
    && (forall i :: 0 <= i < |l.done| ==>
          l.done[i].ticket in l.granted && l.done[i].ticket !in l.out && l.done[i].tok.gen <= l.m.gen)
    && (forall t :: t in l.granted ==> t in l.out || Resolutions(l.done, t) > 0)
    && (forall i, j :: 0 <= i < j < |l.done| ==> l.done[i].ticket != l.done[j].ticket)
  }

  /** In half-open the slot counter is the number of outstanding probes of this very episode, and the
      success counter the number of its probes that succeeded, none having failed. */
  ghost predicate Conserved(cfg: Settings, l: Ledger) {
    if l.m.state == HalfOpen then
      && l.m.probes == |Holding(l.out, l.m.gen)| <= cfg.halfOpenMax
      && l.m.successes == |Verdicts(l.done, l.m.gen, Succeeded)| < cfg.halfOpenMax
      && Verdicts(l.done, l.m.gen, Failed) == {}
    else l.m.probes == 0 && l.m.successes == 0
  }

  ghost predicate Inv(cfg: Settings, l: Ledger) {
    Bookkeeping(l) && Conserved(cfg, l)
  }

  // ----- each step keeps the books

  lemma ResolutionsAppend(done: seq<Resolution>, r: Resolution, t: Ticket)
    ensures Resolutions(done + [r], t) == Resolutions(done, t) + if r.ticket == t then 1 else 0
  {
    assert (done + [r])[..|done + [r]| - 1] == done;
  }

  lemma {:induction false} UniqueResolutions(done: seq<Resolution>, t: Ticket)
    requires forall i, j :: 0 <= i < j < |done| ==> done[i].ticket != done[j].ticket
    ensures Resolutions(done, t) <= 1
    ensures Resolutions(done, t) > 0 ==> exists i :: 0 <= i < |done| && done[i].ticket == t
  {
    if done != [] {
      UniqueResolutions(done[..|done| - 1], t);
    }
  }

  lemma ResolvedBooks(l: Ledger, m: Model, clock: int, t: Ticket, v: Verdict)
    requires Bookkeeping(l) && t in l.out && m.gen >= l.m.gen
    ensures Bookkeeping(Resolved(l, m, clock, t, v))
  {
    var n := Resolved(l, m, clock, t, v);
    forall u | u in n.granted ensures u in n.out || Resolutions(n.done, u) > 0 {
      ResolutionsAppend(l.done, n.done[|l.done|], u);
    }
  }

  lemma GenGrows(cfg: Settings, l: Ledger, op: Op)
    requires Usable(cfg) && Bookkeeping(l) && Enabled(l, op)
    ensures l.m.gen <= Apply(cfg, l, op).m.gen
    ensures Admits(cfg, l, op) ==> Apply(cfg, l, op).out[op.ticket].gen <= Apply(cfg, l, op).m.gen
  {
    hide Roll, TallyFrom, Trips, Bookkeeping;
  }

  lemma StepBooks(cfg: Settings, l: Ledger, op: Op)
    requires Usable(cfg) && Bookkeeping(l) && Enabled(l, op)
    ensures Bookkeeping(Apply(cfg, l, op))
  {
    hide Roll, TallyFrom, Trips, Record, Admit, Refresh, Poll, Resolutions;
    GenGrows(cfg, l, op);
    var n := Apply(cfg, l, op);
    if op.Finish? || op.Abandon? {
      ResolvedBooks(l, n.m, n.clock, op.ticket, n.done[|l.done|].verdict);
    }
  }

  /** Resolving a ticket moves it from the holders to the verdicts, if it is a probe of that episode. */
  lemma ResolveMoves(l: Ledger, t: Ticket, v: Verdict, gen: nat)
    requires t in l.out && Bookkeeping(l)
    ensures var mine := l.out[t] == Token(gen, true);
            var done := l.done + [Resolution(t, l.out[t], v)];
            && |Holding(l.out - {t}, gen)| == |Holding(l.out, gen)| - (if mine then 1 else 0)
            && |Verdicts(done, gen, v)| == |Verdicts(l.done, gen, v)| + (if mine then 1 else 0)
            && (!mine ==> Verdicts(done, gen, v) == Verdicts(l.done, gen, v))
            && (forall w :: w != v ==> Verdicts(done, gen, w) == Verdicts(l.done, gen, w))
  {
    var r := Resolution(t, l.out[t], v);
    var done := l.done + [r];
    assert Holding(l.out - {t}, gen) == Holding(l.out, gen) - {t};
    forall w: Verdict
      ensures Verdicts(done, gen, w)
           == Verdicts(l.done, gen, w) + (if w == v && l.out[t] == Token(gen, true) then {t} else {})
    {
      VerdictsAppend(l.done, r, gen, w);
    }
    assert t !in Verdicts(l.done, gen, v);
  }

  lemma VerdictsAppend(done: seq<Resolution>, r: Resolution, gen: nat, w: Verdict)
    ensures Verdicts(done + [r], gen, w)
         == Verdicts(done, gen, w) + (if r.tok == Token(gen, true) && r.verdict == w then {r.ticket} else {})
  {
    assert forall x :: x in done + [r] <==> x in done || x == r;
  }

  /** A generation that has not begun holds nothing. */
  lemma NothingAhead(l: Ledger, gen: nat)
    requires Bookkeeping(l) && gen > l.m.gen
    ensures Holding(l.out, gen) == {} && forall v :: Verdicts(l.done, gen, v) == {}
  {}

  lemma RefreshConserves(cfg: Settings, l: Ledger, now: int)
    requires Usable(cfg) && Inv(cfg, l)
    ensures Inv(cfg, l.(m := Refresh(cfg, l.m, now).m))
  {
    hide Roll;
    NothingAhead(l, l.m.gen + 1);
  }

  lemma SlotTaken(cfg: Settings, l: Ledger, now: int, t: Ticket, tok: Token, probes: int)
    requires Inv(cfg, l) && Fresh(l, t)
    requires if tok.probe then l.m.state == HalfOpen && tok.gen == l.m.gen && probes == l.m.probes + 1 <= cfg.halfOpenMax
             else probes == l.m.probes
    ensures Conserved(cfg, l.(m := l.m.(probes := probes), clock := now, granted := l.granted + {t}, out := l.out[t := tok]))
  {
    if tok.probe {
      assert Holding(l.out[t := tok], l.m.gen) == Holding(l.out, l.m.gen) + {t};
    } else {
      assert Holding(l.out[t := tok], l.m.gen) == Holding(l.out, l.m.gen);
    }
  }

  lemma TakeConserves(cfg: Settings, l: Ledger, op: Op)
    requires Usable(cfg) && Inv(cfg, l) && Enabled(l, op) && op.Take?
    ensures Conserved(cfg, Apply(cfg, l, op))
  {
    hide Roll;
    RefreshConserves(cfg, l, op.now);
    var mid := if l.m.state == Closed && !op.raced then l.m else Refresh(cfg, l.m, op.now).m;
    var a := Admit(cfg, l.m, op.now, op.raced);
    assert a.m == mid.(probes := a.m.probes);
    if a.ok {
      SlotTaken(cfg, l.(m := mid), op.now, op.ticket, a.tok, a.m.probes);
    }
  }

  /** The outcome of an outstanding ticket, once the window and the open timer are up to date. */
  lemma JudgeConserves(cfg: Settings, l: Ledger, log: seq<Outcome>, t: Ticket, failed: bool, now: int)
    requires Usable(cfg) && Inv(cfg, l) && t in l.out
    ensures Conserved(cfg, Resolved(l, CircuitModel.Settle(cfg, l.m.(log := log), failed, l.out[t], now).m, now, t,
                                    if failed then Failed else Succeeded))
  {
    hide TallyFrom, Trips, Holding, Verdicts;
    ResolveMoves(l, t, if failed then Failed else Succeeded, l.m.gen);
  }

  lemma FinishConserves(cfg: Settings, l: Ledger, op: Op)
    requires Usable(cfg) && Inv(cfg, l) && Enabled(l, op) && op.Finish?
    ensures Conserved(cfg, Apply(cfg, l, op))
  {
    hide Roll, TallyFrom, Trips, Conserved, Bookkeeping, CircuitModel.Settle;
    RefreshConserves(cfg, l, op.now);
    var mid := l.(m := Refresh(cfg, l.m, op.now).m);
    JudgeConserves(cfg, mid, mid.m.log + [Outcome(op.now, op.failed)], op.ticket, op.failed, op.now);
  }

  lemma AbandonConserves(cfg: Settings, l: Ledger, op: Op)
    requires Usable(cfg) && Inv(cfg, l) && Enabled(l, op) && op.Abandon?
    ensures Conserved(cfg, Apply(cfg, l, op))
  {
    hide Verdicts;
    ResolveMoves(l, op.ticket, Abandoned, l.m.gen);
    assert Current(l.m, l.out[op.ticket]) ==> op.ticket in Holding(l.out, l.m.gen);
  }

  lemma OtherConserves(cfg: Settings, l: Ledger, op: Op)
    requires Usable(cfg) && Inv(cfg, l) && Enabled(l, op) && (op.Stray? || op.Watch? || op.Measure? || op.Force?)
    ensures Conserved(cfg, Apply(cfg, l, op))
  {
    hide Roll, TallyFrom, Trips;
    RefreshConserves(cfg, l, op.now);
  }

  lemma StepKeeps(cfg: Settings, l: Ledger, op: Op)
    requires Usable(cfg) && Inv(cfg, l) && Enabled(l, op)
    ensures Inv(cfg, Apply(cfg, l, op))
  {
    StepBooks(cfg, l, op);
    match op {
      case Take(_, _, _) => TakeConserves(cfg, l, op);
      case Finish(_, _, _) => FinishConserves(cfg, l, op);
      case Abandon(_) => AbandonConserves(cfg, l, op);
      case _ => OtherConserves(cfg, l, op);
    }
  }

  // ----- whole runs

  ghost predicate Legal(cfg: Settings, l: Ledger, ops: seq<Op>)
    requires Usable(cfg)
    decreases |ops|
  {
    ops == [] || (Enabled(l, ops[0]) && Legal(cfg, Apply(cfg, l, ops[0]), ops[1..]))
  }

  ghost function Replay(cfg: Settings, l: Ledger, ops: seq<Op>): Ledger
    requires Usable(cfg) && Legal(cfg, l, ops)
    decreases |ops|
  {
    if ops == [] then l else Replay(cfg, Apply(cfg, l, ops[0]), ops[1..])
  }

  lemma {:induction false} RunKeeps(cfg: Settings, l: Ledger, ops: seq<Op>)
    requires Usable(cfg) && Inv(cfg, l) && Legal(cfg, l, ops)
    ensures Inv(cfg, Replay(cfg, l, ops))
    decreases |ops|
  {
    if ops != [] {
      StepKeeps(cfg, l, ops[0]);
      RunKeeps(cfg, Apply(cfg, l, ops[0]), ops[1..]);
    }
  }

  /** Slot conservation over every run: in half-open, `probes` is the number of outstanding admissions of
      the running episode and never exceeds HalfOpenMax; every admission is resolved at most once. */
  lemma SlotsAreConserved(cfg: Settings, t0: int, ops: seq<Op>)
    requires Usable(cfg) && Legal(cfg, Opening(t0), ops)
    ensures var l := Replay(cfg, Opening(t0), ops);
            && Inv(cfg, l)
            && (forall t :: t in l.granted ==> (t in l.out) == (Resolutions(l.done, t) == 0))
            && (forall t :: Resolutions(l.done, t) <= 1)
  {
    RunKeeps(cfg, Opening(t0), ops);
    var l := Replay(cfg, Opening(t0), ops);
    forall t ensures Resolutions(l.done, t) <= 1 ensures t in l.out ==> Resolutions(l.done, t) == 0 {
      UniqueResolutions(l.done, t);
    }
  }

  // ----- the transitions of a run

  /** The call on the breaker that an operation of the ledger is. */
  function CallOf(l: Ledger, op: Op): CircuitRuns.Call
    requires op.Finish? || op.Abandon? ==> op.ticket in l.out
  {
    match op
    case Take(_, now, raced) => CircuitRuns.DoAdmit(now, raced)
    case Finish(t, failed, now) => CircuitRuns.DoRecord(failed, l.out[t], now)
    case Abandon(t) => CircuitRuns.DoRelease(l.out[t])
    case Stray(failed, now) => CircuitRuns.DoRecord(failed, UNATTRIBUTED, now)
    case Watch(now, raced) => CircuitRuns.DoState(now, raced)
    case Measure(now) => CircuitRuns.DoCounts(now)
    case Force(now) => CircuitRuns.DoReset(now)
  }

  ghost function Calls(cfg: Settings, l: Ledger, ops: seq<Op>): seq<CircuitRuns.Call>
    requires Usable(cfg) && Legal(cfg, l, ops)
    decreases |ops|
  {
    if ops == [] then [] else [CallOf(l, ops[0])] + Calls(cfg, Apply(cfg, l, ops[0]), ops[1..])
  }

  lemma StepIsCall(cfg: Settings, l: Ledger, op: Op)
    requires Usable(cfg) && Bookkeeping(l) && Enabled(l, op)
    ensures CircuitRuns.Issued(l.m, CallOf(l, op))
    ensures var (n, o) := CircuitRuns.Exec(cfg, l.m, CallOf(l, op)); n == Apply(cfg, l, op).m && o.state == n.state
  {
    hide Roll, TallyFrom, Trips, Admit, Record, Poll, Reset, Release;
  }

  lemma {:induction false} RunIsCalls(cfg: Settings, l: Ledger, ops: seq<Op>)
    requires Usable(cfg) && Bookkeeping(l) && Legal(cfg, l, ops)
    ensures CircuitRuns.IssuedAlong(cfg, l.m, Calls(cfg, l, ops))
    ensures var o := CircuitRuns.Run(cfg, l.m, Calls(cfg, l, ops));
            |o| == |ops| && Replay(cfg, l, ops).m.state == if o == [] then l.m.state else o[|o| - 1].state
    decreases |ops|
  {
    if ops != [] {
      var n := Apply(cfg, l, ops[0]);
      StepBooks(cfg, l, ops[0]);
      StepIsCall(cfg, l, ops[0]);
      RunIsCalls(cfg, n, ops[1..]);
      var calls := Calls(cfg, l, ops);
      assert calls[0] == CallOf(l, ops[0]) && calls[1..] == Calls(cfg, n, ops[1..]);
      hide Apply, Enabled, Bookkeeping, CircuitRuns.Exec, CircuitRuns.Issued;
    }
  }

  /** Over every run of a breaker whose callers present only tokens they were given, each call reports exactly
      the move it made: the transitions form one connected path from closed to the state the breaker is in. */
  lemma TransitionsFormOnePath(cfg: Settings, t0: int, ops: seq<Op>)
    requires Usable(cfg) && Legal(cfg, Opening(t0), ops)
    ensures var o := CircuitRuns.Run(cfg, Initial(t0), Calls(cfg, Opening(t0), ops));
            && |o| == |ops| && CircuitRuns.PathFrom(Closed, o)
            && Replay(cfg, Opening(t0), ops).m.state == if o == [] then Closed else o[|o| - 1].state
  {
    RunIsCalls(cfg, Opening(t0), ops);
    CircuitRuns.OneConnectedPath(cfg, Initial(t0), Calls(cfg, Opening(t0), ops));
  }

  // ----- what every move needs

  /** The only moves there are, and the evidence each one needs, for every call but Reset. */
  ghost predicate Justified(cfg: Settings, l: Ledger, op: Op, n: Ledger)
    requires Usable(cfg)
  {
    var g := l.m.gen;
    match (l.m.state, n.m.state)
    case (Closed, Open) => (op.Finish? || op.Stray?) && Trips(cfg, Live(cfg, n.m)) && n.m.openedAt == n.clock
    case (Open, HalfOpen) => n.clock - l.m.openedAt >= cfg.openTimeout && n.m.gen == g + 1
    case (HalfOpen, Open) =>
      && op.Finish? && op.failed && op.ticket in l.out && l.out[op.ticket] == Token(g, true)
      && n.m.openedAt == n.clock
    case (HalfOpen, Closed) =>
      && op.Finish? && !op.failed
      && |Verdicts(n.done, g, Succeeded)| == cfg.halfOpenMax && Verdicts(n.done, g, Failed) == {}
    case (Closed, HalfOpen) => false
    case (Open, Closed) => false
    case _ => n.m.gen == g && n.m.openedAt == l.m.openedAt
  }

  lemma FinishJustified(cfg: Settings, l: Ledger, op: Op)
    requires Usable(cfg) && Inv(cfg, l) && Enabled(l, op) && op.Finish?
    ensures Justified(cfg, l, op, Apply(cfg, l, op))
  {
    hide Roll, TallyFrom, Trips, Verdicts, Holding;
    ResolveMoves(l, op.ticket, if op.failed then Failed else Succeeded, l.m.gen);
  }

  lemma OtherJustified(cfg: Settings, l: Ledger, op: Op)
    requires Usable(cfg) && Inv(cfg, l) && Enabled(l, op) && !op.Finish? && !op.Force?
    ensures Justified(cfg, l, op, Apply(cfg, l, op))
  {
    hide Roll, TallyFrom, Trips, Verdicts, Holding;
  }

  /** Over every run: half-open closes only once HalfOpenMax distinct probes of that episode succeeded and
      none failed, it reopens only on the failure of such a probe, closed opens only on the trip condition
      and open leaves only for half-open and only after the timeout. Probe tokens are handed out only by
      the half-open episode whose generation they carry. */
  lemma EveryMoveIsJustified(cfg: Settings, t0: int, ops: seq<Op>, op: Op)
    requires Usable(cfg) && Legal(cfg, Opening(t0), ops)
    requires Enabled(Replay(cfg, Opening(t0), ops), op) && !op.Force?
    ensures var l := Replay(cfg, Opening(t0), ops);
            var n := Apply(cfg, l, op);
            && Justified(cfg, l, op, n)
            && (Admits(cfg, l, op) && n.out[op.ticket].probe ==>
                  n.m.state == HalfOpen && n.out[op.ticket].gen == n.m.gen)
  {
    RunKeeps(cfg, Opening(t0), ops);
    var l := Replay(cfg, Opening(t0), ops);
    if op.Finish? { FinishJustified(cfg, l, op); } else { OtherJustified(cfg, l, op); }
  }

  /** The breaker when the call reads its state: an open one whose timeout is over has become half-open. */
  function Refreshed(cfg: Settings, m: Model, now: int): State {
    if m.state == Open && now - m.openedAt >= cfg.openTimeout then HalfOpen else m.state
  }

  /** The state an operation leaves behind, from what happened so far alone; `cut` is where the window begins. */
  ghost function StateAfter(cfg: Settings, l: Ledger, op: Op, cut: int): State {
    match op
    case Abandon(_) => l.m.state
    case Measure(_) => l.m.state
    case Force(_) => Closed
    case Take(_, now, _) => Refreshed(cfg, l.m, now)
    case Watch(now, _) => Refreshed(cfg, l.m, now)
    case Stray(failed, now) =>
      if l.m.state == Closed && TooManyFailures(cfg, l.m.log + [Outcome(now, failed)], cut) then Open
      else Refreshed(cfg, l.m, now)
    case Finish(t, failed, now) =>
      if l.m.state == Closed && TooManyFailures(cfg, l.m.log + [Outcome(now, failed)], cut) then Open
      else if l.m.state == HalfOpen && t in Holding(l.out, l.m.gen) then
        if failed then Open
        else if |Verdicts(l.done, l.m.gen, Succeeded)| + 1 == cfg.halfOpenMax then Closed
        else HalfOpen
      else Refreshed(cfg, l.m, now)
  }

  lemma {:induction false} StartIsPast(cfg: Settings, l: Ledger, ops: seq<Op>)
    requires Usable(cfg) && l.m.start <= l.clock && Legal(cfg, l, ops)
    ensures Replay(cfg, l, ops).m.start <= Replay(cfg, l, ops).clock
    decreases |ops|
  {
    if ops != [] {
      StartStaysPast(cfg, l, ops[0]);
      StartIsPast(cfg, Apply(cfg, l, ops[0]), ops[1..]);
    }
  }

  lemma StartStaysPast(cfg: Settings, l: Ledger, op: Op)
    requires Usable(cfg) && l.m.start <= l.clock && Enabled(l, op)
    ensures Apply(cfg, l, op).m.start <= Apply(cfg, l, op).clock
  {
    hide TallyFrom, Trips, BucketDur;
  }

  lemma ClosedOutcome(cfg: Settings, l: Ledger, op: Op) returns (cut: int)
    requires Usable(cfg) && l.m.start <= l.clock && Enabled(l, op) && l.m.state == Closed && (op.Finish? || op.Stray?)
    ensures WindowCut(cfg, op.now, cut) && Apply(cfg, l, op).m.state == StateAfter(cfg, l, op, cut)
  {
    hide Record, Since, FailedSince, WindowCut;
    cut := TripsExactly(cfg, l.m, op.failed, if op.Finish? then l.out[op.ticket] else UNATTRIBUTED, op.now);
  }

  lemma OtherState(cfg: Settings, l: Ledger, op: Op, cut: int)
    requires Usable(cfg) && Inv(cfg, l) && Enabled(l, op)
    requires l.m.state != Closed || !(op.Finish? || op.Stray?)
    ensures Apply(cfg, l, op).m.state == StateAfter(cfg, l, op, cut)
  {
    hide Roll, TallyFrom, Trips, Verdicts, TooManyFailures;
  }

  /** The converse: every move that has its evidence is made. Over every run the state after an operation is decided
      by the history: a closed breaker opens exactly when the window, the new outcome included, has enough requests and
      too many failures; a half-open one opens exactly on the failure of one of its probes and closes exactly
      on the success that makes HalfOpenMax; an open one becomes half-open exactly when the timeout is over
      and the call looks at the state. */
  lemma EveryMoveHappens(cfg: Settings, t0: int, ops: seq<Op>, op: Op) returns (cut: int)
    requires Usable(cfg) && Legal(cfg, Opening(t0), ops) && Enabled(Replay(cfg, Opening(t0), ops), op)
    ensures var l := Replay(cfg, Opening(t0), ops);
            && (op.Finish? || op.Stray? ==> WindowCut(cfg, op.now, cut))
            && Apply(cfg, l, op).m.state == StateAfter(cfg, l, op, cut)
  {
    RunKeeps(cfg, Opening(t0), ops);
    StartIsPast(cfg, Opening(t0), ops);
    var l := Replay(cfg, Opening(t0), ops);
    if l.m.state == Closed && (op.Finish? || op.Stray?) {
      cut := ClosedOutcome(cfg, l, op);
    } else {
      cut := if op.Abandon? then 0 else Cut(cfg, Roll(cfg, l.m.start, op.now));
      if op.Finish? || op.Stray? { WindowBounds(cfg, l.m, op.now); }
      OtherState(cfg, l, op, cut);
    }
    hide Legal, Replay, Apply, StateAfter, Inv;
  }

  /** Over every run, a request is admitted exactly when the breaker is closed, or open and its timeout over, or
      half-open with fewer than HalfOpenMax of its own probes outstanding. */
  lemma AdmissionExactly(cfg: Settings, t0: int, ops: seq<Op>, op: Op)
    requires Usable(cfg) && Legal(cfg, Opening(t0), ops) && Enabled(Replay(cfg, Opening(t0), ops), op) && op.Take?
    ensures var l := Replay(cfg, Opening(t0), ops);
            Admits(cfg, l, op) <==> match l.m.state
                                    case Closed => true
                                    case Open => op.now - l.m.openedAt >= cfg.openTimeout
                                    case HalfOpen => |Holding(l.out, l.m.gen)| < cfg.halfOpenMax
  {
    RunKeeps(cfg, Opening(t0), ops);
    AdmitsExactly(cfg, Replay(cfg, Opening(t0), ops).m, op.now, op.raced);
    hide Legal, Replay, Admit;
  }

  /** After a trip, no run without Reset admits anything before the open timeout has elapsed. */
  lemma {:induction false} NoEarlyAdmission(cfg: Settings, l: Ledger, ops: seq<Op>, op: Op)
    requires Usable(cfg) && Inv(cfg, l) && l.m.state == Open && Legal(cfg, l, ops)
    requires forall i :: 0 <= i < |ops| ==> !ops[i].Force?
    requires Enabled(Replay(cfg, l, ops), op) && Admits(cfg, Replay(cfg, l, ops), op)
    ensures op.now - l.m.openedAt >= cfg.openTimeout
    decreases |ops|
  {
    hide Justified, Roll, TallyFrom, Trips, Conserved, Bookkeeping;
    if ops != [] {
      var n := Apply(cfg, l, ops[0]);
      StepKeeps(cfg, l, ops[0]);
      LeavingOpen(cfg, l, ops[0]);
      if n.m.state == Open {
        NoEarlyAdmission(cfg, n, ops[1..], op);
      } else {
        ClockAdvances(cfg, n, ops[1..]);
      }
    }
  }

  lemma LeavingOpen(cfg: Settings, l: Ledger, op: Op)
    requires Usable(cfg) && Inv(cfg, l) && Enabled(l, op) && !op.Force? && l.m.state == Open
    ensures var n := Apply(cfg, l, op);
            if n.m.state == Open then n.m.openedAt == l.m.openedAt else n.clock - l.m.openedAt >= cfg.openTimeout
  {
    if op.Finish? { FinishJustified(cfg, l, op); } else { OtherJustified(cfg, l, op); }
  }

  lemma {:induction false} ClockAdvances(cfg: Settings, l: Ledger, ops: seq<Op>)
    requires Usable(cfg) && Legal(cfg, l, ops)
    ensures Replay(cfg, l, ops).clock >= l.clock
    decreases |ops|
  {
    if ops != [] {
      ClockAdvances(cfg, Apply(cfg, l, ops[0]), ops[1..]);
    }
  }

  /** No wedge, from every reachable state: if no probe of the running episode is outstanding, then once
      the open timeout is over the missing rounds of admit-and-succeed close the breaker and empty the
      window, and there are at most HalfOpenMax of them. */
  lemma RecoversFromEveryRun(cfg: Settings, t0: int, ops: seq<Op>, times: seq<(int, int)>)
    requires Usable(cfg) && Legal(cfg, Opening(t0), ops)
    requires var l := Replay(cfg, Opening(t0), ops);
             && l.m.state != Closed
             && (l.m.state == HalfOpen ==> Holding(l.out, l.m.gen) == {})
             && (l.m.state == Open ==> forall i :: 0 <= i < |times| ==> times[i].0 - l.m.openedAt >= cfg.openTimeout)
             && |times| == CircuitRuns.Missing(cfg, l.m)
    ensures var n := CircuitRuns.Rounds(cfg, Replay(cfg, Opening(t0), ops).m, times);
            |times| <= cfg.halfOpenMax && n.state == Closed && n.log == []
  {
    RunKeeps(cfg, Opening(t0), ops);
    CircuitRuns.NoWedge(cfg, Replay(cfg, Opening(t0), ops).m, times);
  }
}
