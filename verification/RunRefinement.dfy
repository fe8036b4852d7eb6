/** The attempt loop of the fleet (module RpcFleet) is the handler of an exchange (module Exchange) with the
    message traffic left out, so the resolution of breaker admissions proved there holds of the real loop. */
module RunRefinement {
  import opened StatusCodes
  import opened Exchange
  import ExchangeSafety
  import T = ExchangeTheorems
  import C = CircuitModel
  import L = ProbeLedger
  import F = RpcFleet

  /** The handler as the fleet sees it; `held` says whether the current attempt took an admission. */
  function Abstract(cands: seq<F.Breaker>, held: bool, h: Handler): F.Proc {
    match h
    case Starting => F.Choosing(cands, 0)
    case Choosing(i) => F.Choosing(cands, i)
    case Locking(i) => F.Installing(cands, i, held)
    case Dialing(i) => F.Installing(cands, i, held)
    case Replaying(i, _) => F.Installing(cands, i, held)
    case Recovering(i, _) => F.Installing(cands, i, held)
    case Publishing(i, _) => F.Installing(cands, i, held)
    case SetupFailed(i, _) => F.Installing(cands, i, held)
    case Receiving(i, _) => F.Relaying(cands, i, held)
    case Heading(i, _, _) => F.Relaying(cands, i, held)
    case Delivering(i, _, _) => F.Relaying(cands, i, held)
    case Ending(i, _) => F.Relaying(cands, i, held)
    case Relayed(i, _, _) => F.Relaying(cands, i, held)
    case Closing(_, _, _) => F.Finished
    case Returned(_) => F.Finished
  }

  /** What the environment contributes to a step: the backend's health and whether its breaker gates, the
      clock, and whether the breaker's lock-free read was overtaken. */
  datatype Reply = Reply(healthy: bool, enabled: bool, now: int, raced: bool)

  /** The fleet's step for a step of the exchange, if it has one. */
  function ActOf(c: Rpc, x: State, a: Action, rep: Reply): Option<F.Act>
    requires Enabled(c, x, a)
  {
    match a
    case Reserve(_) => Some(F.Reserve(rep.healthy, rep.enabled, rep.now, rep.raced))
    case Lock => if x.mu.committed then Some(F.InstallRefused) else None
    case Publish => Some(F.InstallWorks)
    case DecideSetup(_, _) => Some(F.InstallFails(x.h.code, Step(c, x, a).h.Choosing?, rep.now))
    case DecideRelay(_, _) => Some(F.RelayEnds(x.h.code, Step(c, x, a).h.Choosing?, rep.now))
    case _ => None
  }

  // ----- one step

  /** The exchange's step to `y` is the fleet's step, or leaves the fleet's RPC where it is. */
  ghost predicate Matches(c: Rpc, x: State, a: Action, y: State, cands: seq<F.Breaker>, held: bool, rep: Reply, granted: bool)
    requires Enabled(c, x, a)
  {
    var act := ActOf(c, x, a, rep);
    var p := Abstract(cands, held, x.h);
    var q := Abstract(cands, if a.Reserve? then granted else held, y.h);
    if act.None? then p == q else F.Able(p, act.value) && q == F.NextProc(p, act.value, a.Reserve? && granted)
  }

  lemma LoopRefines(c: Rpc, x: State, a: Action, cands: seq<F.Breaker>, held: bool, rep: Reply, granted: bool)
    requires c.n == |cands| && ExchangeSafety.Control(c, x) && Enabled(c, x, a) && !x.h.Starting? && PhaseOf(a) == InLoop
    requires a.Reserve? ==> (a.admitted <==> rep.healthy && (!rep.enabled || granted))
    ensures Matches(c, x, a, LoopStep(c, x, a), cands, held, rep, granted)
  {
    hide Freed, Received, OrUnavailable;
    if a.DecideSetup? {
      SetupDecides(c, x, a, cands, held, rep, granted);
      hide LoopStep, Matches;
    }
  }

  lemma SetupDecides(c: Rpc, x: State, a: Action, cands: seq<F.Breaker>, held: bool, rep: Reply, granted: bool)
    requires c.n == |cands| && ExchangeSafety.Control(c, x) && Enabled(c, x, a) && a.DecideSetup?
    ensures Matches(c, x, a, LoopStep(c, x, a), cands, held, rep, granted)
  {
    hide Freed;
  }

  lemma InstallRefines(c: Rpc, x: State, a: Action, cands: seq<F.Breaker>, held: bool, rep: Reply, granted: bool)
    requires c.n == |cands| && ExchangeSafety.Control(c, x) && Enabled(c, x, a) && PhaseOf(a) == InInstall
    ensures Matches(c, x, a, InstallStep(c, x, a), cands, held, rep, granted)
  {
    hide Freed, Marshalled, Received, Offer, CloseSend, End;
  }

  lemma RelayRefines(c: Rpc, x: State, a: Action, cands: seq<F.Breaker>, held: bool, rep: Reply, granted: bool)
    requires c.n == |cands| && ExchangeSafety.Control(c, x) && Enabled(c, x, a) && PhaseOf(a) == InRelay
    ensures Matches(c, x, a, RelayStep(c, x, a), cands, held, rep, granted)
  {
    if a.DecideRelay? {
      RelayDecides(c, x, a, cands, held, rep, granted);
    } else {
      ExchangeSafety.RelayFrame(c, x, a);
      StaysInRelay(c, x, a);
      hide RelayStep, Step, Enabled;
    }
  }

  lemma RelayDecides(c: Rpc, x: State, a: Action, cands: seq<F.Breaker>, held: bool, rep: Reply, granted: bool)
    requires c.n == |cands| && ExchangeSafety.Control(c, x) && Enabled(c, x, a) && a.DecideRelay?
    ensures Matches(c, x, a, RelayStep(c, x, a), cands, held, rep, granted)
  {}

  lemma StaysInRelay(c: Rpc, x: State, a: Action)
    requires Enabled(c, x, a) && PhaseOf(a) == InRelay && !a.DecideRelay?
    ensures var y := RelayStep(c, x, a);
            if a.Close? then x.h.Closing? && y.h.Returned?
            else !x.h.Closing? && ExchangeSafety.During(y.h) && !y.h.Closing?
  {
    hide Freed, Marshalled, Received, Produce, End, ForwardHeader;
  }

  lemma PumpRefines(c: Rpc, x: State, a: Action, cands: seq<F.Breaker>, held: bool, rep: Reply, granted: bool)
    requires Enabled(c, x, a) && PhaseOf(a) == InPump
    ensures Matches(c, x, a, PumpStep(c, x, a), cands, held, rep, granted)
  {
    hide Freed, Marshalled, Received, Offer, CloseSend;
  }

  /** Every step of an exchange in its attempt loop is a step of the fleet's RPC or invisible to it. */
  lemma StepRefines(c: Rpc, x: State, a: Action, cands: seq<F.Breaker>, held: bool, rep: Reply, granted: bool)
    requires c.n == |cands| && ExchangeSafety.Control(c, x) && Enabled(c, x, a) && !x.h.Starting?
    requires a.Reserve? ==> (a.admitted <==> rep.healthy && (!rep.enabled || granted))
    ensures Matches(c, x, a, Step(c, x, a), cands, held, rep, granted)
  {
    hide Matches, LoopStep, InstallStep, RelayStep, PumpStep, Enabled, ExchangeSafety.Control;
    match PhaseOf(a) {
      case InLoop => LoopRefines(c, x, a, cands, held, rep, granted);
      case InInstall => InstallRefines(c, x, a, cands, held, rep, granted);
      case InRelay => RelayRefines(c, x, a, cands, held, rep, granted);
      case InPump => PumpRefines(c, x, a, cands, held, rep, granted);
    }
  }

  // ----- an exchange as one RPC of a fleet

  /** The exchange `c` is RPC `pid` of the fleet and `cands` are the breakers of its candidates. */
  datatype Setup = Setup(c: Rpc, cfg: F.Config, pid: F.Rpc, cands: seq<F.Breaker>)

  /** The exchange and the fleet side by side. */
  datatype Pair = Pair(x: State, f: F.Fleet, held: bool)

  /** One step of this exchange, or of anything else in the fleet. */
  datatype Move = Mine(a: Action, rep: Reply) | Others(e: F.Event)

  ghost predicate Synced(w: Setup, s: Pair) {
    && w.c.n == |w.cands| >= 1 && (forall k :: 0 <= k < |w.cands| ==> w.cands[k] in w.cfg)
    && T.Inv(w.c, s.x) && F.Usables(w.cfg, s.f) && F.Inv(w.cfg, s.f)
    && (s.x.h.Starting? ==> w.pid !in s.f.procs)
    && (!s.x.h.Starting? && !s.x.h.Returned? ==> w.pid in s.f.procs)
    && (w.pid in s.f.procs ==> s.f.procs[w.pid] == Abstract(w.cands, s.held, s.x.h))
  }

  /** The RPC enters the fleet with its first receive, unless that fails. */
  function EventOf(w: Setup, x: State, a: Action, rep: Reply): Option<F.Event>
    requires Enabled(w.c, x, a)
  {
    if a.FirstMsg? || a.FirstEOF? then Some(F.Begin(w.pid, F.Choosing(w.cands, 0)))
    else
      var act := ActOf(w.c, x, a, rep);
      if act.Some? then Some(F.Run(w.pid, act.value)) else None
  }

  lemma VisibleIsAble(w: Setup, s: Pair, a: Action, rep: Reply)
    requires Synced(w, s) && Enabled(w.c, s.x, a) && ActOf(w.c, s.x, a, rep).Some?
    ensures !s.x.h.Starting? && w.pid in s.f.procs && F.Able(s.f.procs[w.pid], ActOf(w.c, s.x, a, rep).value)
  {
    hide F.Inv, Step;
    if !a.Reserve? { StepRefines(w.c, s.x, a, w.cands, s.held, rep, s.held); }
  }

  /** What this step asks of which breaker. */
  ghost function AskedBy(w: Setup, s: Pair, a: Action, rep: Reply): F.Ask
    requires Synced(w, s) && Enabled(w.c, s.x, a)
  {
    var act := ActOf(w.c, s.x, a, rep);
    if act.None? then F.Nothing
    else
      VisibleIsAble(w, s, a, rep);
      F.AskOf(w.pid, s.f.procs[w.pid], act.value)
  }

  /** Clocks do not run backwards, and Reserve admits exactly if the backend is healthy and its breaker, where
      it gates, grants the admission. Nothing else is demanded. */
  ghost predicate Fits(w: Setup, s: Pair, m: Move)
    requires Synced(w, s)
  {
    match m
    case Others(e) => F.Possible(s.f, e) && (e.Begin? || e.Run? ==> e.pid != w.pid)
    case Mine(a, rep) =>
      && Enabled(w.c, s.x, a)
      && F.OnTime(s.f, AskedBy(w, s, a, rep))
      && (a.Reserve? ==>
            (a.admitted <==> rep.healthy && (!rep.enabled || F.Granted(w.cfg, s.f, AskedBy(w, s, a, rep)))))
  }

  /** The events of the fleet that a move stands for, none or one. */
  ghost function Events(w: Setup, s: Pair, m: Move): seq<F.Event>
    requires Synced(w, s) && Fits(w, s, m)
  {
    match m
    case Others(e) => [e]
    case Mine(a, rep) => var e := EventOf(w, s.x, a, rep); if e.Some? then [e.value] else []
  }

  lemma EventsPossible(w: Setup, s: Pair, m: Move)
    requires Synced(w, s) && Fits(w, s, m)
    ensures forall e :: e in Events(w, s, m) ==> F.Possible(s.f, e)
  {
    hide F.Inv, T.Inv, Step;
    if m.Mine? && ActOf(w.c, s.x, m.a, m.rep).Some? {
      VisibleIsAble(w, s, m.a, m.rep);
    }
  }

  ghost function Moved(w: Setup, s: Pair, m: Move): Pair
    requires Synced(w, s) && Fits(w, s, m)
  {
    EventsPossible(w, s, m);
    var es := Events(w, s, m);
    var f := if es == [] then s.f else F.Advance(w.cfg, s.f, es[0]);
    match m
    case Others(_) => s.(f := f)
    case Mine(a, rep) =>
      Pair(Step(w.c, s.x, a), f, if a.Reserve? then F.Granted(w.cfg, s.f, AskedBy(w, s, a, rep)) else s.held)
  }

  /** A move of anything else leaves this RPC where it is. */
  lemma OthersKeep(w: Setup, s: Pair, m: Move)
    requires Synced(w, s) && Fits(w, s, m) && m.Others?
    ensures Synced(w, Moved(w, s, m))
  {
    hide F.Inv, T.Inv, F.Possible;
    F.StepKeepsInv(w.cfg, s.f, m.e);
  }

  lemma MineKeeps(w: Setup, s: Pair, m: Move)
    requires Synced(w, s) && Fits(w, s, m) && m.Mine?
    ensures Synced(w, Moved(w, s, m))
  {
    hide F.Inv, T.Inv, F.Possible, F.OnTime, F.Granted, F.NextProc, Step, Enabled;
    T.StepKeeps(w.c, s.x, m.a);
    EventsPossible(w, s, m);
    var es := Events(w, s, m);
    if es != [] { F.StepKeepsInv(w.cfg, s.f, es[0]); }
    Follows(w, s, m);
  }

  /** The handler and the RPC stay in step. */
  lemma Follows(w: Setup, s: Pair, m: Move)
    requires Synced(w, s) && Fits(w, s, m) && m.Mine?
    ensures var n := Moved(w, s, m);
            && !n.x.h.Starting?
            && (!n.x.h.Returned? ==> w.pid in n.f.procs)
            && (w.pid in n.f.procs ==> n.f.procs[w.pid] == Abstract(w.cands, n.held, n.x.h))
  {
    assert ExchangeSafety.Control(w.c, s.x);
    if s.x.h.Starting? {
      hide F.Inv, Fits;
      StartsHere(w.c, s.x, m.a);
      hide T.Inv, Step, Enabled;
    } else {
      ProcMoves(w, s, m);
      if m.a.Reserve? { Admitted(w, s, m); }
      LeavesTheStart(w.c, s.x, m.a);
      StepRefines(w.c, s.x, m.a, w.cands, s.held, m.rep, Moved(w, s, m).held);
      hide F.Inv, T.Inv, F.NextProc, F.Able, Step, Enabled, Moved, Fits, ExchangeSafety.Control;
    }
  }

  lemma Admitted(w: Setup, s: Pair, m: Move)
    requires Synced(w, s) && Fits(w, s, m) && m.Mine? && m.a.Reserve?
    ensures m.a.admitted <==> m.rep.healthy && (!m.rep.enabled || Moved(w, s, m).held)
  {
    hide F.Inv, T.Inv, F.Granted, Step, AskedBy;
  }

  /** What a move of the exchange in its attempt loop does to the RPC. */
  lemma ProcMoves(w: Setup, s: Pair, m: Move)
    requires Synced(w, s) && Fits(w, s, m) && m.Mine? && !s.x.h.Starting?
    ensures var n := Moved(w, s, m);
            var act := ActOf(w.c, s.x, m.a, m.rep);
            && n.x == Step(w.c, s.x, m.a)
            && (if act.None? then n.f == s.f
                else && w.pid in s.f.procs && F.Able(s.f.procs[w.pid], act.value)
                     && n.f.procs == s.f.procs[w.pid := F.NextProc(s.f.procs[w.pid], act.value, m.a.Reserve? && n.held)])
            && (!m.a.Reserve? ==> n.held == s.held)
  {
    hide F.Inv, T.Inv, F.OnTime, F.NextProc, F.Able, F.AskOf, F.Granted, F.Possible, Step, Enabled;
    EventsPossible(w, s, m);
    LeavesTheStart(w.c, s.x, m.a);
    var act := ActOf(w.c, s.x, m.a, m.rep);
    if act.Some? {
      VisibleIsAble(w, s, m.a, m.rep);
      if !m.a.Reserve? { OnlyReserveIsGranted(w, s, act.value); }
    }
  }

  lemma OnlyReserveIsGranted(w: Setup, s: Pair, act: F.Act)
    requires F.Usables(w.cfg, s.f) && w.pid in s.f.procs && F.Able(s.f.procs[w.pid], act)
    requires !act.Reserve? && !act.Intercept?
    ensures !F.Granted(w.cfg, s.f, F.AskOf(w.pid, s.f.procs[w.pid], act))
  {}

  lemma StartsHere(c: Rpc, x: State, a: Action)
    requires T.Inv(c, x) && x.h.Starting? && Enabled(c, x, a)
    ensures if a.FirstMsg? || a.FirstEOF? then Step(c, x, a).h == Choosing(0) else a.FirstErr? && Step(c, x, a).h.Returned?
  {
    assert ExchangeSafety.Control(c, x);
    hide T.Inv, Freed, Received;
  }

  /** The handler never goes back to its first receive, and a returned one stays returned. */
  lemma LeavesTheStart(c: Rpc, x: State, a: Action)
    requires Enabled(c, x, a) && !x.h.Starting?
    ensures !a.FirstMsg? && !a.FirstEOF? && !Step(c, x, a).h.Starting?
    ensures x.h.Returned? ==> Step(c, x, a).h == x.h && PhaseOf(a) == InPump
  {
    hide Freed, Received, Marshalled, Offer, CloseSend, Produce, End, ForwardHeader, CanRetry;
  }

  lemma MoveKeeps(w: Setup, s: Pair, m: Move)
    requires Synced(w, s) && Fits(w, s, m)
    ensures Synced(w, Moved(w, s, m))
  {
    hide Synced, Fits, Moved;
    if m.Mine? { MineKeeps(w, s, m); } else { OthersKeep(w, s, m); }
  }

  // ----- whole runs

  ghost predicate Legal(w: Setup, s: Pair, moves: seq<Move>)
    requires Synced(w, s)
    decreases |moves|
  {
    if moves == [] then true
    else Fits(w, s, moves[0]) && (MoveKeeps(w, s, moves[0]); Legal(w, Moved(w, s, moves[0]), moves[1..]))
  }

  ghost function Played(w: Setup, s: Pair, moves: seq<Move>): (n: Pair)
    requires Synced(w, s) && Legal(w, s, moves)
    ensures Synced(w, n)
    decreases |moves|
  {
    if moves == [] then s
    else
      MoveKeeps(w, s, moves[0]);
      Played(w, Moved(w, s, moves[0]), moves[1..])
  }

  /** The run of the fleet. */
  ghost function Image(w: Setup, s: Pair, moves: seq<Move>): seq<F.Event>
    requires Synced(w, s) && Legal(w, s, moves)
    decreases |moves|
  {
    if moves == [] then []
    else
      MoveKeeps(w, s, moves[0]);
      Events(w, s, moves[0]) + Image(w, Moved(w, s, moves[0]), moves[1..])
  }

  /** The run of the exchange. */
  function Actions(moves: seq<Move>): seq<Action> {
    if moves == [] then []
    else if moves[0].Mine? then [moves[0].a] + Actions(moves[1..])
    else Actions(moves[1..])
  }

  /** Whole runs: whatever else happens in the fleet meanwhile, an exchange is one of its RPCs. The exchange's own
      steps form one of its runs, their image together with the other events is a run of the fleet, and
      both end where the joint run ends, the RPC being where the handler is. */
  lemma {:induction false} ExchangeRefinesRun(w: Setup, s: Pair, moves: seq<Move>)
    requires Synced(w, s) && Legal(w, s, moves)
    ensures var n := Played(w, s, moves);
            && T.Legal(w.c, s.x, Actions(moves)) && T.Replayed(w.c, s.x, Actions(moves)) == n.x
            && F.Legal(w.cfg, s.f, Image(w, s, moves)) && F.Replay(w.cfg, s.f, Image(w, s, moves)) == n.f
            && (w.pid in n.f.procs ==> n.f.procs[w.pid] == Abstract(w.cands, n.held, n.x.h))
    decreases |moves|
  {
    if moves != [] {
      var m, rest := moves[0], moves[1..];
      MoveKeeps(w, s, m);
      var n := Moved(w, s, m);
      ExchangeRefinesRun(w, n, rest);
      ExchangePart(w, s, m, Actions(rest));
      FleetPart(w, s, m, Image(w, n, rest));
      hide Synced, Fits, Moved, Events, T.Legal, T.Replayed, F.Legal, F.Replay;
    }
  }

  lemma ExchangePart(w: Setup, s: Pair, m: Move, rest: seq<Action>)
    requires Synced(w, s) && Fits(w, s, m) && T.Legal(w.c, Moved(w, s, m).x, rest)
    ensures var acts := if m.Mine? then [m.a] + rest else rest;
            T.Legal(w.c, s.x, acts) && T.Replayed(w.c, s.x, acts) == T.Replayed(w.c, Moved(w, s, m).x, rest)
  {
    hide F.Inv, T.Inv, Step, Enabled;
    if m.Mine? { assert ([m.a] + rest)[1..] == rest; }
  }

  lemma FleetPart(w: Setup, s: Pair, m: Move, rest: seq<F.Event>)
    requires Synced(w, s) && Fits(w, s, m) && Synced(w, Moved(w, s, m)) && F.Legal(w.cfg, Moved(w, s, m).f, rest)
    ensures var es := Events(w, s, m) + rest;
            F.Legal(w.cfg, s.f, es) && F.Replay(w.cfg, s.f, es) == F.Replay(w.cfg, Moved(w, s, m).f, rest)
  {
    hide F.Inv, T.Inv, Step, Enabled, F.Possible, EventOf;
    EventsPossible(w, s, m);
    var es := Events(w, s, m);
    if es == [] {
      assert es + rest == rest;
    } else {
      assert es == [es[0]] && (es + rest)[1..] == rest;
    }
  }

  /** The breaker asked does not depend on the clock. */
  lemma SameBreaker(w: Setup, s: Pair, a: Action, rep: Reply, now: int)
    requires Synced(w, s) && Enabled(w.c, s.x, a)
    ensures var q, q' := AskedBy(w, s, a, rep), AskedBy(w, s, a, rep.(now := now));
            (q.Ask? <==> q'.Ask?) && (q.Ask? ==> q.b == q'.b && (q'.op.Abandon? || q'.op.now == now))
  {
    hide F.Inv, T.Inv, Step;
    if ActOf(w.c, s.x, a, rep).Some? {
      VisibleIsAble(w, s, a, rep);
      VisibleIsAble(w, s, a, rep.(now := now));
    }
  }

  lemma SomeReplyFits(w: Setup, s: Pair, a: Action) returns (rep: Reply)
    requires Synced(w, s) && Enabled(w.c, s.x, a)
    ensures Fits(w, s, Mine(a, rep))
  {
    rep := Reply(a.Reserve? && a.admitted, false, 0, false);
    var q := AskedBy(w, s, a, rep);
    if q.Ask? && q.b in s.f.ledgers {
      SameBreaker(w, s, a, rep, s.f.ledgers[q.b].clock);
      rep := rep.(now := s.f.ledgers[q.b].clock);
    }
    hide F.Inv, T.Inv, Step;
  }

  /** The joint runs leave out no run of the exchange: in every fleet each of them can happen. */
  lemma {:induction false} EveryExchangeRunOccurs(w: Setup, s: Pair, acts: seq<Action>) returns (moves: seq<Move>)
    requires Synced(w, s) && T.Legal(w.c, s.x, acts)
    ensures Legal(w, s, moves) && Actions(moves) == acts
    decreases |acts|
  {
    moves := [];
    if acts != [] {
      var rep := SomeReplyFits(w, s, acts[0]);
      var m := Mine(acts[0], rep);
      MoveKeeps(w, s, m);
      var rest := EveryExchangeRunOccurs(w, Moved(w, s, m), acts[1..]);
      moves := [m] + rest;
      assert moves[1..] == rest;
      hide Fits, Synced, Step;
    }
  }

  // ----- what that says of an exchange

  /** Before the first receive, in a fleet that has not seen this RPC. */
  ghost predicate Fresh(w: Setup, f: F.Fleet): (ok: bool)
    ensures ok ==> Synced(w, Pair(Init(), f, false))
  {
    && w.c.n == |w.cands| >= 1 && (forall k :: 0 <= k < |w.cands| ==> w.cands[k] in w.cfg)
    && F.Usables(w.cfg, f) && F.Inv(w.cfg, f) && w.pid !in f.procs
  }

  /** In every fleet and every interleaving, a proxied RPC has an admission outstanding only for the attempt it is
      making, and once its handler is past the last record all its admissions have been resolved, each
      exactly once. */
  lemma ExchangeSettlesItsAdmissions(w: Setup, f: F.Fleet, moves: seq<Move>, b: F.Breaker)
    requires Fresh(w, f) && Legal(w, Pair(Init(), f, false), moves) && b in f.ledgers
    ensures var n := Played(w, Pair(Init(), f, false), moves);
            && b in n.f.ledgers
            && (forall k: nat :: L.Ticket(w.pid, k) in n.f.ledgers[b].out ==>
                  && !n.x.h.Starting? && !n.x.h.Choosing? && !n.x.h.Closing? && !n.x.h.Returned?
                  && n.x.h.i == k < w.c.n && w.cands[k] == b)
            && (n.x.h.Closing? || n.x.h.Returned? ==> F.Settled(n.f.ledgers[b], w.pid))
  {
    var n := Played(w, Pair(Init(), f, false), moves);
    hide Legal, Played, T.Inv, F.Inv, F.Settled;
    HeldOnlyHere(w, n, b);
    if n.x.h.Closing? || n.x.h.Returned? { AllSettled(w, n, b); }
  }

  lemma HeldOnlyHere(w: Setup, n: Pair, b: F.Breaker)
    requires Synced(w, n) && b in n.f.ledgers
    ensures forall k: nat :: L.Ticket(w.pid, k) in n.f.ledgers[b].out ==>
              && !n.x.h.Starting? && !n.x.h.Choosing? && !n.x.h.Closing? && !n.x.h.Returned?
              && n.x.h.i == k < w.c.n && w.cands[k] == b
  {
    hide T.Inv, F.Settled, F.WellFormed, F.MayAsk;
    var l := n.f.ledgers[b];
    F.BooksOf(w.cfg[b], l);
    if w.pid in n.f.procs { assert F.Linked(l, w.pid, n.f.procs[w.pid], b); }
  }

  lemma AllSettled(w: Setup, n: Pair, b: F.Breaker)
    requires Synced(w, n) && b in n.f.ledgers && (n.x.h.Closing? || n.x.h.Returned?)
    ensures F.Settled(n.f.ledgers[b], w.pid)
  {
    hide T.Inv, F.Inv, F.Settled;
    if w.pid in n.f.procs { F.NothingHeld(w.cfg, n.f, w.pid, b); } else { F.NeverBegun(w.cfg, n.f, w.pid, b); }
  }

  /** The call the breaker of candidate `i` gets for a failed attempt. */
  function Charge(w: Setup, i: nat, held: bool, now: int): L.Op {
    if held then L.Finish(L.Ticket(w.pid, i), true, now) else L.Stray(true, now)
  }

  /** The statuses that can be retried all count as failures. */
  lemma RetriedIsFailure(c: Rpc, x: State, a: Action)
    requires Enabled(c, x, a) && (x.h.SetupFailed? || x.h.Relayed?) && Step(c, x, a).h.Choosing?
    ensures IsFailure(x.h.code) && (if x.h.SetupFailed? then a.DecideSetup? else a.DecideRelay?)
  {
    hide Freed, Received, Marshalled, Offer, CloseSend, Produce, End, ForwardHeader;
  }

  lemma FailoverAsks(w: Setup, s: Pair, a: Action, rep: Reply)
    requires Synced(w, s) && Enabled(w.c, s.x, a) && (s.x.h.SetupFailed? || s.x.h.Relayed?)
    requires Step(w.c, s.x, a).h.Choosing?
    ensures s.x.h.i < |w.cands|
    ensures AskedBy(w, s, a, rep) == F.Ask(w.cands[s.x.h.i], Charge(w, s.x.h.i, s.held, rep.now))
    ensures EventOf(w, s.x, a, rep).Some? && EventOf(w, s.x, a, rep).value.Run?
  {
    hide F.Inv, T.Inv, Step;
    RetriedIsFailure(w.c, s.x, a);
    VisibleIsAble(w, s, a, rep);
  }

  /** A failure on a breaker is logged, whatever its state. */
  lemma FailureIsLogged(cfg: C.Settings, l: L.Ledger, op: L.Op)
    requires C.Usable(cfg) && L.Enabled(l, op) && (op.Finish? || op.Stray?) && op.failed
    ensures L.Apply(cfg, l, op).m.log == l.m.log + [C.Outcome(op.now, true)]
  {
    hide C.Roll, C.TallyFrom, C.Trips;
  }

  /** Whenever an attempt is failed over, its backend's breaker is charged with one failure, whether or not the
      attempt had been admitted by it. */
  lemma FailoverIsCharged(w: Setup, s: Pair, m: Move)
    requires Synced(w, s) && Fits(w, s, m) && m.Mine? && (s.x.h.SetupFailed? || s.x.h.Relayed?)
    requires Moved(w, s, m).x.h.Choosing?
    ensures var n := Moved(w, s, m);
            var q := AskedBy(w, s, m.a, m.rep);
            && s.x.h.i < |w.cands| && q == F.Ask(w.cands[s.x.h.i], Charge(w, s.x.h.i, s.held, m.rep.now))
            && q.b in s.f.ledgers && q.b in n.f.ledgers
            && n.f.ledgers[q.b].m.log == s.f.ledgers[q.b].m.log + [C.Outcome(m.rep.now, true)]
  {
    hide T.Inv, F.Inv, Step, Enabled, F.NextProc, F.AskOf;
    FailoverAsks(w, s, m.a, m.rep);
    var q := AskedBy(w, s, m.a, m.rep);
    EventsPossible(w, s, m);
    VisibleIsAble(w, s, m.a, m.rep);
    F.AskIsLegal(w.cfg, s.f, w.pid, ActOf(w.c, s.x, m.a, m.rep).value);
    FailureIsLogged(w.cfg[q.b], s.f.ledgers[q.b], q.op);
  }

  // ----- what an attempt tells its breaker

  /** The end of an attempt, as the fleet sees it. */
  lemma AttemptEnds(w: Setup, s: Pair, a: Action, rep: Reply)
    requires Synced(w, s) && Enabled(w.c, s.x, a) && (a.DecideSetup? || a.DecideRelay?)
    ensures s.x.h.SetupFailed? || s.x.h.Relayed?
    ensures s.x.h.i < |w.cands| && w.cands[s.x.h.i] in s.f.ledgers && w.pid in s.f.procs
    ensures var act := ActOf(w.c, s.x, a, rep);
            && act.Some? && F.Ends(act.value) && !act.value.InstallRefused? && act.value.now == rep.now
            && F.Earned(act.value) == F.Judge(s.x.h.code)
            && F.At(s.f.procs[w.pid], w.cands[s.x.h.i], s.x.h.i)
            && EventOf(w, s.x, a, rep) == Some(F.Run(w.pid, act.value))
  {
    hide F.Inv, T.Inv, Step, F.Judge;
    VisibleIsAble(w, s, a, rep);
  }

  /** Every attempt that was made is judged by its own status, whether it is failed over, returned
      as an error or a success: when it ends, the log of its backend's breaker grows by one outcome, a failure
      exactly for the five statuses that blame the server, and no other breaker is touched. An outcome that
      closes the breaker empties the log instead. */
  lemma EveryAttemptIsRecorded(w: Setup, s: Pair, m: Move)
    requires Synced(w, s) && Fits(w, s, m) && m.Mine? && (m.a.DecideSetup? || m.a.DecideRelay?)
    ensures s.x.h.SetupFailed? || s.x.h.Relayed?
    ensures var n := Moved(w, s, m);
            && s.x.h.i < |w.cands| && w.cands[s.x.h.i] in s.f.ledgers && n.f.ledgers.Keys == s.f.ledgers.Keys
            && var b := w.cands[s.x.h.i];
            && n.f.ledgers[b].m.log
               == (if s.f.ledgers[b].m.state != C.Closed && n.f.ledgers[b].m.state == C.Closed then []
                   else s.f.ledgers[b].m.log
                        + [C.Outcome(m.rep.now, s.x.h.code in {Unavailable, DeadlineExceeded, Internal, ResourceExhausted, Unknown})])
            && forall c :: c in s.f.ledgers && c != b ==> n.f.ledgers[c] == s.f.ledgers[c]
  {
    hide T.Inv, F.Inv, Step, Enabled, F.NextProc, F.AskOf, F.Possible, F.Able, F.OnTime, F.Granted;
    AttemptEnds(w, s, m.a, m.rep);
    EventsPossible(w, s, m);
    var act := ActOf(w.c, s.x, m.a, m.rep).value;
    F.ExitLogs(w.cfg, s.f, w.pid, act, w.cands[s.x.h.i], s.x.h.i);
    MovedLedgers(w, s, m);
  }

  lemma MovedLedgers(w: Setup, s: Pair, m: Move)
    requires Synced(w, s) && Fits(w, s, m) && m.Mine?
    ensures var e := EventOf(w, s.x, m.a, m.rep);
            && (e.Some? ==> F.Possible(s.f, e.value))
            && Moved(w, s, m).f == (if e.Some? then F.Advance(w.cfg, s.f, e.value) else s.f)
            && Moved(w, s, m).f.ledgers.Keys == s.f.ledgers.Keys
  {
    hide T.Inv, F.Inv, Step, Enabled, F.Possible, F.OnTime, F.Granted, Fits;
    EventsPossible(w, s, m);
    MoveKeeps(w, s, m);
  }

  /** Nothing else an exchange does logs an outcome; in particular an attempt refused by install leaves none. */
  lemma NothingElseIsRecorded(w: Setup, s: Pair, m: Move, b: F.Breaker)
    requires Synced(w, s) && Fits(w, s, m) && m.Mine? && !m.a.DecideSetup? && !m.a.DecideRelay? && b in s.f.ledgers
    ensures b in Moved(w, s, m).f.ledgers && Moved(w, s, m).f.ledgers[b].m.log == s.f.ledgers[b].m.log
  {
    hide T.Inv, F.Inv, Step, Enabled, F.Possible, F.OnTime, F.Granted, F.NextProc;
    MovedLedgers(w, s, m);
    var act := ActOf(w.c, s.x, m.a, m.rep);
    if act.Some? {
      VisibleIsAble(w, s, m.a, m.rep);
      F.QuietStep(w.cfg, s.f, w.pid, act.value, b);
    }
  }
}
