/** Any number of interleaved RPCs and the breakers they use. Each RPC follows either the interceptor
    CircuitBreak or the attempt loop `run`; the breakers are those of the methods and of the backends.
    This is where "resolve every admission exactly once" is proved of the callers. */
module RpcFleet {
  import opened CircuitModel
  import opened ProbeLedger
  import opened StatusCodes

  type Breaker = nat
  type Rpc = nat

  datatype Proc =
    | Arriving(b: Breaker)                               // CircuitBreak, before Admit
    | Handling(b: Breaker)                               // CircuitBreak, the wrapped handler is running
    | Choosing(cands: seq<Breaker>, i: nat)              // run, at the top of the loop
    | Installing(cands: seq<Breaker>, i: nat, held: bool)  // run, between Reserve and the end of install
    | Relaying(cands: seq<Breaker>, i: nat, held: bool)    // run, between install and record
    | Finished

  /** One step of one RPC; the parameters are what the environment decides. */
  datatype Act =
    | Intercept(now: int, raced: bool)
    | HandlerReturns(code: Code, now: int)
    | HandlerPanics(now: int)
    | Reserve(healthy: bool, enabled: bool, now: int, raced: bool)
    | InstallRefused                                     // errNotReplayable
    | InstallFails(code: Code, retry: bool, now: int)
    | InstallWorks
    | RelayEnds(code: Code, retry: bool, now: int)

  datatype Event =
    | Begin(pid: Rpc, proc: Proc)
    | Run(pid: Rpc, act: Act)
    | Outside(b: Breaker, op: Op)                        // polls, counts, resets and stray outcomes

  datatype Fleet = Fleet(ledgers: map<Breaker, Ledger>, procs: map<Rpc, Proc>)

  type Config = map<Breaker, Settings>

  /** An admission of breaker `b` that this RPC has taken for attempt `k` and not yet resolved. */
  predicate Holds(p: Proc, b: Breaker, k: nat) {
    match p
    case Handling(c) => b == c && k == 0
    case Installing(cands, i, held) => held && k == i < |cands| && cands[i] == b
    case Relaying(cands, i, held) => held && k == i < |cands| && cands[i] == b
    case _ => false
  }

  /** An attempt for which this RPC may still ask for an admission, of whichever breaker. */
  predicate MayAsk(p: Proc, k: nat) {
    match p
    case Arriving(_) => k == 0
    case Choosing(_, i) => i <= k
    case Installing(_, i, _) => i < k
    case Relaying(_, i, _) => i < k
    case _ => false
  }

  /** The candidates are in range. Two of them may well share a breaker: past its limit the registry gives
      every new name the same one. */
  ghost predicate WellFormed(p: Proc, bs: set<Breaker>) {
    match p
    case Arriving(b) => b in bs
    case Handling(b) => b in bs
    case Choosing(cands, i) => i < |cands| && forall k :: 0 <= k < |cands| ==> cands[k] in bs
    case Installing(cands, i, _) => i < |cands| && forall k :: 0 <= k < |cands| ==> cands[k] in bs
    case Relaying(cands, i, _) => i < |cands| && forall k :: 0 <= k < |cands| ==> cands[k] in bs
    case Finished => true
  }

  // ----- steps

  predicate Able(p: Proc, a: Act) {
    match (p, a)
    case (Arriving(_), Intercept(_, _)) => true
    case (Handling(_), HandlerReturns(_, _)) => true
    case (Handling(_), HandlerPanics(_)) => true
    case (Choosing(cands, i), Reserve(_, _, _, _)) => i < |cands|
    case (Installing(cands, i, _), InstallRefused) => i < |cands|
    case (Installing(cands, i, _), InstallFails(_, retry, _)) => i < |cands| && (retry ==> i + 1 < |cands|)
    case (Installing(cands, i, _), InstallWorks) => i < |cands|
    case (Relaying(cands, i, _), RelayEnds(_, retry, _)) => i < |cands| && (retry ==> i + 1 < |cands|)
    case _ => false
  }

  /** What a step asks of which breaker, if anything. */
  datatype Ask = Nothing | Ask(b: Breaker, op: Op)

  /** exchange.record: an outcome on the returned probe, or a stray one when nothing was admitted. */
  function Recorded(t: Ticket, b: Breaker, held: bool, code: Code, now: int): Ask {
    Ask(b, if held then Finish(t, IsFailure(code), now) else Stray(IsFailure(code), now))
  }

  function AskOf(pid: Rpc, p: Proc, a: Act): (q: Ask)
    requires Able(p, a)
    ensures q.Ask? ==> q.op.Stray? || ((q.op.Take? || q.op.Finish? || q.op.Abandon?) && q.op.ticket.rpc == pid)
  {
    match (p, a)
    case (Arriving(b), Intercept(now, raced)) => Ask(b, Take(Ticket(pid, 0), now, raced))
    case (Handling(b), HandlerReturns(code, now)) => Ask(b, Finish(Ticket(pid, 0), IsFailure(code), now))
    case (Handling(b), HandlerPanics(now)) => Ask(b, Finish(Ticket(pid, 0), true, now))
    case (Choosing(cands, i), Reserve(healthy, enabled, now, raced)) =>
      if healthy && enabled then Ask(cands[i], Take(Ticket(pid, i), now, raced)) else Nothing
    case (Installing(cands, i, held), InstallRefused) => 
      if held then Ask(cands[i], Abandon(Ticket(pid, i))) else Nothing
    case (Installing(cands, i, held), InstallFails(code, _, now)) => Recorded(Ticket(pid, i), cands[i], held, code, now)
    case (Relaying(cands, i, held), RelayEnds(code, _, now)) => Recorded(Ticket(pid, i), cands[i], held, code, now)
    case _ => Nothing
  }

  /** Where the RPC goes next; `granted` says whether this step's Admit succeeded. */
  function NextProc(p: Proc, a: Act, granted: bool): Proc
    requires Able(p, a)
  {
    match (p, a)
    case (Arriving(b), Intercept(_, _)) => if granted then Handling(b) else Finished
    case (Choosing(cands, i), Reserve(healthy, enabled, _, _)) =>
      if !(healthy && (!enabled || granted)) && i + 1 < |cands| then Choosing(cands, i + 1)
      else Installing(cands, i, granted)
    case (Installing(cands, i, _), InstallFails(_, retry, _)) => if retry then Choosing(cands, i + 1) else Finished
    case (Installing(cands, i, held), InstallWorks) => Relaying(cands, i, held)
    case (Relaying(cands, i, _), RelayEnds(_, retry, _)) => if retry then Choosing(cands, i + 1) else Finished
    case _ => Finished
  }

  /** The clock readings of a step are fine. Everything else a ledger demands of a step is proved. */
  ghost predicate OnTime(f: Fleet, a: Ask) {
    a.Ask? && !a.op.Abandon? && a.b in f.ledgers ==> a.op.now >= f.ledgers[a.b].clock
  }

  ghost predicate Possible(f: Fleet, e: Event) {
    match e
    case Begin(pid, p) =>
      pid !in f.procs && (p.Arriving? || (p.Choosing? && p.i == 0)) && WellFormed(p, f.ledgers.Keys)
    case Run(pid, a) => pid in f.procs && Able(f.procs[pid], a) && OnTime(f, AskOf(pid, f.procs[pid], a))
    case Outside(b, op) => b in f.ledgers && !op.Take? && !op.Finish? && !op.Abandon? && OnTime(f, Ask(b, op))
  }

  predicate Usables(cfg: Config, f: Fleet) {
    cfg.Keys == f.ledgers.Keys && forall b :: b in cfg ==> Usable(cfg[b])
  }

  // ----- the invariant

  /** The ledger of breaker `b` and the RPC agree on what the RPC holds, and the attempts to come have not
      been granted anything yet. */
  ghost predicate Linked(l: Ledger, pid: Rpc, p: Proc, b: Breaker) {
    forall k: nat ::
      && (Holds(p, b, k) <==> Ticket(pid, k) in l.out)
      && (MayAsk(p, k) ==> Ticket(pid, k) !in l.granted)
  }

  ghost predicate Inv(cfg: Config, f: Fleet)
    requires Usables(cfg, f)
  {
    && (forall b :: b in f.ledgers ==> ProbeLedger.Inv(cfg[b], f.ledgers[b]))
    && (forall b, t :: b in f.ledgers && t in f.ledgers[b].granted ==> t.rpc in f.procs)
    && (forall b, p :: b in f.ledgers && p in f.procs ==> Linked(f.ledgers[b], p, f.procs[p], b))
    && (forall p :: p in f.procs ==> WellFormed(f.procs[p], f.ledgers.Keys))
  }

  /** Every step asks its breaker only what the ledger allows: a fresh ticket is taken, and only an
      outstanding one is resolved. */
  lemma AskIsLegal(cfg: Config, f: Fleet, pid: Rpc, a: Act)
    requires Usables(cfg, f) && Inv(cfg, f) && Possible(f, Run(pid, a))
    ensures var q := AskOf(pid, f.procs[pid], a);
            q.Ask? ==> q.b in f.ledgers && Enabled(f.ledgers[q.b], q.op)
  {
    var p, q := f.procs[pid], AskOf(pid, f.procs[pid], a);
    assert WellFormed(p, f.ledgers.Keys);
    if q.Ask? {
      assert q.b in f.ledgers;
      assert Linked(f.ledgers[q.b], pid, p, q.b);
      if q.op.Take? {
        assert MayAsk(p, q.op.ticket.attempt);
      } else if !q.op.Stray? {
        assert Holds(p, q.b, q.op.ticket.attempt);
      }
    }
  }

  ghost function Asked(cfg: Config, f: Fleet, q: Ask): map<Breaker, Ledger>
    requires Usables(cfg, f) && (q.Ask? ==> q.b in f.ledgers && Enabled(f.ledgers[q.b], q.op))
  {
    if q.Nothing? then f.ledgers else f.ledgers[q.b := Apply(cfg[q.b], f.ledgers[q.b], q.op)]
  }

  ghost predicate Granted(cfg: Config, f: Fleet, q: Ask)
    requires Usables(cfg, f)
  {
    q.Ask? && q.b in f.ledgers && Admits(cfg[q.b], f.ledgers[q.b], q.op)
  }

  ghost function Advance(cfg: Config, f: Fleet, e: Event): Fleet
    requires Usables(cfg, f) && Inv(cfg, f) && Possible(f, e)
  {
    match e
    case Begin(pid, p) => Fleet(f.ledgers, f.procs[pid := p])
    case Outside(b, op) => Fleet(Asked(cfg, f, Ask(b, op)), f.procs)
    case Run(pid, a) =>
      AskIsLegal(cfg, f, pid, a);
      var q := AskOf(pid, f.procs[pid], a);
      Fleet(Asked(cfg, f, q), f.procs[pid := NextProc(f.procs[pid], a, Granted(cfg, f, q))])
  }

  // ----- every step keeps the invariant

  /** How one ledger step changes who is granted and who is outstanding. */
  lemma LedgerEffect(cfg: Settings, l: Ledger, op: Op)
    requires Usable(cfg) && ProbeLedger.Inv(cfg, l) && Enabled(l, op)
    ensures var n := Apply(cfg, l, op);
            && ProbeLedger.Inv(cfg, n)
            && (Admits(cfg, l, op) ==> op.Take?)
            && n.granted == l.granted + (if Admits(cfg, l, op) then {op.ticket} else {})
            && n.out.Keys == l.out.Keys + (if Admits(cfg, l, op) then {op.ticket} else {})
                             - (if op.Finish? || op.Abandon? then {op.ticket} else {})
  {
    hide Record, Admit, Release, Poll, Reset, Roll, Bookkeeping, Conserved;
    StepKeeps(cfg, l, op);
  }

  /** The steps of an RPC, seen from breaker `b` and attempt `k`: it holds what it took and did not resolve,
      and it never comes back to an attempt for which it was admitted. */
  lemma ProcEffect(pid: Rpc, p: Proc, a: Act, granted: bool, b: Breaker, k: nat, bs: set<Breaker>)
    requires Able(p, a) && WellFormed(p, bs)
    requires granted ==> AskOf(pid, p, a).Ask? && AskOf(pid, p, a).op.Take?
    ensures var q := AskOf(pid, p, a);
            var n := NextProc(p, a, granted);
            var mine := q.Ask? && !q.op.Stray? && q.op.ticket.attempt == k;
            && WellFormed(n, bs)
            && (Holds(n, b, k) <==> (mine && q.b == b && granted)
                                    || (Holds(p, b, k) && !(mine && q.b == b && (q.op.Finish? || q.op.Abandon?))))
            && (MayAsk(n, k) ==> MayAsk(p, k) && !(mine && granted))
  {}

  /** A ledger step moves only its own ticket. */
  lemma OthersLinked(cfg: Settings, l: Ledger, op: Op, pid: Rpc, p: Proc, b: Breaker)
    requires Usable(cfg) && ProbeLedger.Inv(cfg, l) && Enabled(l, op) && Linked(l, pid, p, b)
    requires op.Take? || op.Finish? || op.Abandon? ==> op.ticket.rpc != pid
    ensures Linked(Apply(cfg, l, op), pid, p, b)
  {
    hide Apply, Admits, Holds, MayAsk, ProbeLedger.Inv;
    LedgerEffect(cfg, l, op);
  }

  lemma SelfLinked(cfg: Config, f: Fleet, pid: Rpc, a: Act, b: Breaker)
    requires Usables(cfg, f) && Inv(cfg, f) && Possible(f, Run(pid, a)) && b in f.ledgers
    ensures var n := Advance(cfg, f, Run(pid, a));
            Linked(n.ledgers[b], pid, n.procs[pid], b) && WellFormed(n.procs[pid], f.ledgers.Keys)
  {
    hide Holds, MayAsk, WellFormed, AskOf, NextProc, Apply, Admits, ProbeLedger.Inv;
    AskIsLegal(cfg, f, pid, a);
    var p, q := f.procs[pid], AskOf(pid, f.procs[pid], a);
    assert Linked(f.ledgers[b], pid, p, b) && WellFormed(p, f.ledgers.Keys);
    if q.Ask? { LedgerEffect(cfg[q.b], f.ledgers[q.b], q.op); }
    var n := Advance(cfg, f, Run(pid, a));
    ProcEffect(pid, p, a, Granted(cfg, f, q), b, 0, f.ledgers.Keys);
    forall k: nat
      ensures Holds(n.procs[pid], b, k) <==> Ticket(pid, k) in n.ledgers[b].out
      ensures MayAsk(n.procs[pid], k) ==> Ticket(pid, k) !in n.ledgers[b].granted
    {
      ProcEffect(pid, p, a, Granted(cfg, f, q), b, k, f.ledgers.Keys);
    }
  }

  lemma RunKeepsInv(cfg: Config, f: Fleet, pid: Rpc, a: Act)
    requires Usables(cfg, f) && Inv(cfg, f) && Possible(f, Run(pid, a))
    ensures Usables(cfg, Advance(cfg, f, Run(pid, a))) && Inv(cfg, Advance(cfg, f, Run(pid, a)))
  {
    hide Linked, WellFormed, AskOf, NextProc, Apply, Admits, ProbeLedger.Inv;
    AskIsLegal(cfg, f, pid, a);
    var q, n := AskOf(pid, f.procs[pid], a), Advance(cfg, f, Run(pid, a));
    forall b | b in f.ledgers
      ensures ProbeLedger.Inv(cfg[b], n.ledgers[b])
      ensures forall t :: t in n.ledgers[b].granted ==> t.rpc in n.procs
    {
      if q.Ask? && q.b == b { LedgerEffect(cfg[b], f.ledgers[b], q.op); }
    }
    forall b, p | b in f.ledgers && p in n.procs
      ensures Linked(n.ledgers[b], p, n.procs[p], b) && WellFormed(n.procs[p], f.ledgers.Keys)
    {
      if p == pid {
        SelfLinked(cfg, f, pid, a, b);
      } else if q.Ask? && q.b == b {
        OthersLinked(cfg[b], f.ledgers[b], q.op, p, f.procs[p], b);
      }
    }
    if f.ledgers == map[] { NoBreakers(cfg, f, pid, a); }
  }

  lemma NoBreakers(cfg: Config, f: Fleet, pid: Rpc, a: Act)
    requires Usables(cfg, f) && Inv(cfg, f) && Possible(f, Run(pid, a))
    ensures WellFormed(NextProc(f.procs[pid], a, Granted(cfg, f, AskOf(pid, f.procs[pid], a))), f.ledgers.Keys)
  {
    ProcEffect(pid, f.procs[pid], a, Granted(cfg, f, AskOf(pid, f.procs[pid], a)), 0, 0, f.ledgers.Keys);
  }

  lemma BeginKeepsInv(cfg: Config, f: Fleet, pid: Rpc, p: Proc)
    requires Usables(cfg, f) && Inv(cfg, f) && Possible(f, Begin(pid, p))
    ensures Inv(cfg, Fleet(f.ledgers, f.procs[pid := p]))
  {
    hide ProbeLedger.Inv, MayAsk, WellFormed;
    forall b | b in f.ledgers ensures Linked(f.ledgers[b], pid, p, b) {
      BooksOf(cfg[b], f.ledgers[b]);
    }
  }

  lemma BooksOf(cfg: Settings, l: Ledger)
    requires ProbeLedger.Inv(cfg, l)
    ensures forall t :: t in l.out ==> t in l.granted
  {}

  lemma OutsideKeepsInv(cfg: Config, f: Fleet, b: Breaker, op: Op)
    requires Usables(cfg, f) && Inv(cfg, f) && Possible(f, Outside(b, op))
    ensures var n := Fleet(Asked(cfg, f, Ask(b, op)), f.procs); Usables(cfg, n) && Inv(cfg, n)
  {
    hide Linked, WellFormed, Apply, Admits, ProbeLedger.Inv;
    LedgerEffect(cfg[b], f.ledgers[b], op);
    forall p | p in f.procs ensures Linked(Apply(cfg[b], f.ledgers[b], op), p, f.procs[p], b) {
      OthersLinked(cfg[b], f.ledgers[b], op, p, f.procs[p], b);
    }
  }

  lemma StepKeepsInv(cfg: Config, f: Fleet, e: Event)
    requires Usables(cfg, f) && Inv(cfg, f) && Possible(f, e)
    ensures Usables(cfg, Advance(cfg, f, e)) && Inv(cfg, Advance(cfg, f, e))
  {
    hide Inv, Possible;
    match e {
      case Begin(pid, p) => BeginKeepsInv(cfg, f, pid, p);
      case Outside(b, op) => OutsideKeepsInv(cfg, f, b, op);
      case Run(pid, a) => RunKeepsInv(cfg, f, pid, a);
    }
  }

  // ----- every run

  ghost predicate Legal(cfg: Config, f: Fleet, es: seq<Event>)
    requires Usables(cfg, f) && Inv(cfg, f)
    decreases |es|
  {
    if es == [] then true
    else Possible(f, es[0]) && (StepKeepsInv(cfg, f, es[0]); Legal(cfg, Advance(cfg, f, es[0]), es[1..]))
  }

  ghost function Replay(cfg: Config, f: Fleet, es: seq<Event>): (r: Fleet)
    requires Usables(cfg, f) && Inv(cfg, f) && Legal(cfg, f, es)
    ensures Usables(cfg, r) && Inv(cfg, r)
    decreases |es|
  {
    if es == [] then f
    else
      StepKeepsInv(cfg, f, es[0]);
      Replay(cfg, Advance(cfg, f, es[0]), es[1..])
  }

  /** All breakers new, no RPC yet. */
  ghost predicate Pristine(cfg: Config, f: Fleet): (ok: bool)
    ensures ok ==> Usables(cfg, f) && Inv(cfg, f)
  {
    Usables(cfg, f) && f.procs == map[] && forall b :: b in f.ledgers ==> f.ledgers[b] == Opening(f.ledgers[b].clock)
  }

  /** RPC `p` is in flight with a probe of breaker b's running episode in its hand. */
  ghost predicate Probing(f: Fleet, b: Breaker, p: Rpc)
    requires b in f.ledgers && p in f.procs
  {
    var l := f.ledgers[b];
    exists k: nat :: Holds(f.procs[p], b, k) && Ticket(p, k) in l.out && l.out[Ticket(p, k)] == Token(l.m.gen, true)
  }

  ghost function InFlight(f: Fleet, b: Breaker): set<Rpc>
    requires b in f.ledgers
  {
    set p | p in f.procs && Probing(f, b, p)
  }

  /** With any number of interleaved RPCs, a half-open breaker's `probes` is exactly the number of RPCs in
      flight that hold a token of the running episode, and never exceeds HalfOpenMax. */
  lemma ProbesAreInFlightRpcs(cfg: Config, f: Fleet, es: seq<Event>, b: Breaker)
    requires Pristine(cfg, f) && Legal(cfg, f, es) && b in f.ledgers
    ensures var n := Replay(cfg, f, es);
            b in n.ledgers &&
            (n.ledgers[b].m.state == HalfOpen ==>
               n.ledgers[b].m.probes == |InFlight(n, b)| <= cfg[b].halfOpenMax)
  {
    hide Inv, Legal, Holds;
    SlotsMatch(cfg, Replay(cfg, f, es), b);
  }

  lemma SlotsMatch(cfg: Config, n: Fleet, b: Breaker)
    requires Usables(cfg, n) && Inv(cfg, n) && b in n.ledgers
    ensures n.ledgers[b].m.state == HalfOpen ==> n.ledgers[b].m.probes == |InFlight(n, b)| <= cfg[b].halfOpenMax
  {
    hide WellFormed, MayAsk, Holds, Bookkeeping;
    var l := n.ledgers[b];
    assert ProbeLedger.Inv(cfg[b], l);
    BooksOf(cfg[b], l);
    var mine := Holding(l.out, l.m.gen);
    forall t | t in l.out ensures t.rpc in n.procs && Holds(n.procs[t.rpc], b, t.attempt) {
      assert Linked(l, t.rpc, n.procs[t.rpc], b);
      assert t == Ticket(t.rpc, t.attempt);
    }
    forall t, u | t in mine && u in mine && t.rpc == u.rpc ensures t == u {
      OneAtATime(n.procs[t.rpc], b, t.attempt, u.attempt);
    }
    forall t | t in mine ensures t.rpc in InFlight(n, b) {
      assert t == Ticket(t.rpc, t.attempt);
    }
    OneEach(mine, InFlight(n, b));
  }

  /** An RPC holds at most one admission of a breaker at a time, even if its candidates share that breaker. */
  lemma OneAtATime(p: Proc, b: Breaker, j: nat, k: nat)
    requires Holds(p, b, j) && Holds(p, b, k)
    ensures j == k
  {}

  /** Tickets of different RPCs are as many as the RPCs. */
  lemma OneEach(ts: set<Ticket>, ps: set<Rpc>)
    requires forall t, u :: t in ts && u in ts && t.rpc == u.rpc ==> t == u
    requires forall t :: t in ts ==> t.rpc in ps
    requires forall p :: p in ps ==> exists k: nat :: Ticket(p, k) in ts
    ensures |ts| == |ps|
    decreases |ts|
  {
    if ts == {} {
      assert ps == {};
    } else {
      var t :| t in ts;
      OneEach(ts - {t}, ps - {t.rpc});
    }
  }

  /** Every admission an RPC took, for whichever attempt, is resolved exactly once by the time the RPC is
      over, whichever way it ended: rejected, returned, panicked in the wrapped handler, refused by install,
      failed or relayed. */
  lemma ResolvedExactlyOnce(cfg: Config, f: Fleet, es: seq<Event>)
    requires Pristine(cfg, f) && Legal(cfg, f, es)
    ensures var n := Replay(cfg, f, es);
            forall p, b :: p in n.procs && n.procs[p].Finished? && b in n.ledgers ==> Settled(n.ledgers[b], p)
  {
    hide Inv, Legal, Holds, Settled;
    var n := Replay(cfg, f, es);
    forall p, b | p in n.procs && n.procs[p].Finished? && b in n.ledgers ensures Settled(n.ledgers[b], p) {
      NothingHeld(cfg, n, p, b);
    }
  }

  /** None of the RPC's admissions is outstanding, and each one granted was resolved exactly once. */
  ghost predicate Settled(l: Ledger, p: Rpc) {
    forall k: nat ::
      Ticket(p, k) !in l.out && Resolutions(l.done, Ticket(p, k)) == (if Ticket(p, k) in l.granted then 1 else 0)
  }

  lemma NothingHeld(cfg: Config, n: Fleet, p: Rpc, b: Breaker)
    requires Usables(cfg, n) && Inv(cfg, n) && b in n.ledgers && p in n.procs && n.procs[p].Finished?
    ensures Settled(n.ledgers[b], p)
  {
    hide WellFormed, MayAsk, Conserved;
    var l := n.ledgers[b];
    assert ProbeLedger.Inv(cfg[b], l);
    assert Linked(l, p, n.procs[p], b);
    forall k: nat
      ensures Ticket(p, k) !in l.out && Resolutions(l.done, Ticket(p, k)) == (if Ticket(p, k) in l.granted then 1 else 0)
    {
      assert !Holds(n.procs[p], b, k);
      UniqueResolutions(l.done, Ticket(p, k));
    }
  }

  lemma NeverBegun(cfg: Config, n: Fleet, p: Rpc, b: Breaker)
    requires Usables(cfg, n) && Inv(cfg, n) && b in n.ledgers && p !in n.procs
    ensures Settled(n.ledgers[b], p)
  {
    hide WellFormed, MayAsk, Conserved;
    var l := n.ledgers[b];
    assert ProbeLedger.Inv(cfg[b], l);
    forall k: nat ensures Ticket(p, k) !in l.granted && Ticket(p, k) !in l.out && Resolutions(l.done, Ticket(p, k)) == 0 {
      UniqueResolutions(l.done, Ticket(p, k));
    }
  }

  // ----- who gets through

  /** The breaker lets a request through: it is closed, or open with its timeout over, or half-open with fewer than
      HalfOpenMax RPCs in flight on its probes. */
  ghost predicate LetsThrough(cfg: Config, f: Fleet, b: Breaker, now: int)
    requires Usables(cfg, f) && b in f.ledgers
  {
    match f.ledgers[b].m.state
    case Closed => true
    case Open => now - f.ledgers[b].m.openedAt >= cfg[b].openTimeout
    case HalfOpen => |InFlight(f, b)| < cfg[b].halfOpenMax
  }

  lemma GrantedExactly(cfg: Config, f: Fleet, b: Breaker, t: Ticket, now: int, raced: bool)
    requires Usables(cfg, f) && Inv(cfg, f) && b in f.ledgers
    ensures Granted(cfg, f, Ask(b, Take(t, now, raced))) <==> LetsThrough(cfg, f, b, now)
  {
    SlotsMatch(cfg, f, b);
    AdmitsExactly(cfg[b], f.ledgers[b].m, now, raced);
    hide Inv, InFlight, Admit;
  }

  /** The interceptor runs the handler exactly if the method's breaker lets the request through, and rejects it
      otherwise. */
  lemma InterceptorGates(cfg: Config, f: Fleet, pid: Rpc, now: int, raced: bool)
    requires Usables(cfg, f) && Inv(cfg, f) && Possible(f, Run(pid, Intercept(now, raced)))
    ensures var p, n := f.procs[pid], Advance(cfg, f, Run(pid, Intercept(now, raced))).procs[pid];
            && p.Arriving? && p.b in f.ledgers
            && n == if LetsThrough(cfg, f, p.b, now) then Handling(p.b) else Finished
  {
    var p := f.procs[pid];
    assert WellFormed(p, f.ledgers.Keys);
    GrantedExactly(cfg, f, p.b, Ticket(pid, 0), now, raced);
    hide Inv, LetsThrough, Granted;
  }

  /** The attempt loop tries a candidate exactly if its backend is healthy and, where the breaker gates, let through,
      or it is the last one; and it holds an admission exactly if the breaker was asked and let it through. */
  lemma ReserveGates(cfg: Config, f: Fleet, pid: Rpc, a: Act)
    requires Usables(cfg, f) && Inv(cfg, f) && Possible(f, Run(pid, a)) && a.Reserve?
    ensures var p, n := f.procs[pid], Advance(cfg, f, Run(pid, a)).procs[pid];
            && p.Choosing? && p.i < |p.cands| && p.cands[p.i] in f.ledgers
            && var through := LetsThrough(cfg, f, p.cands[p.i], a.now);
            n == if (a.healthy && (a.enabled ==> through)) || p.i + 1 == |p.cands|
                 then Installing(p.cands, p.i, a.healthy && a.enabled && through)
                 else Choosing(p.cands, p.i + 1)
  {
    var p := f.procs[pid];
    assert WellFormed(p, f.ledgers.Keys);
    GrantedExactly(cfg, f, p.cands[p.i], Ticket(pid, p.i), a.now, a.raced);
    hide Inv, LetsThrough, Granted;
  }

  // ----- which outcome is recorded

  /** What a status says about the server that returned it. */
  function Judge(code: Code): Verdict {
    match code
    case Unavailable | DeadlineExceeded | Internal | ResourceExhausted | Unknown => Failed
    case _ => Succeeded
  }

  /** The steps that end a handler or an attempt. */
  predicate Ends(a: Act) {
    a.HandlerPanics? || a.HandlerReturns? || a.InstallRefused? || a.InstallFails? || a.RelayEnds?
  }

  /** What such a step says about the server. */
  function Earned(a: Act): Verdict
    requires Ends(a)
  {
    match a
    case HandlerPanics(_) => Failed
    case HandlerReturns(code, _) => Judge(code)
    case InstallFails(code, _, _) => Judge(code)
    case RelayEnds(code, _, _) => Judge(code)
    case InstallRefused => Abandoned
  }

  /** The breaker and the attempt of an RPC that is in a handler or an attempt. */
  predicate At(p: Proc, b: Breaker, k: nat) {
    match p
    case Handling(c) => b == c && k == 0
    case Installing(cands, i, _) => k == i < |cands| && cands[i] == b
    case Relaying(cands, i, _) => k == i < |cands| && cands[i] == b
    case _ => false
  }

  /** The end of a handler or an attempt resolves the admission it holds with that verdict. */
  lemma ExitResolves(cfg: Config, f: Fleet, pid: Rpc, a: Act, b: Breaker, k: nat)
    requires Usables(cfg, f) && Inv(cfg, f) && Possible(f, Run(pid, a)) && Ends(a) && b in f.ledgers
    requires Holds(f.procs[pid], b, k)
    ensures Ticket(pid, k) in f.ledgers[b].out
    ensures Advance(cfg, f, Run(pid, a)).ledgers[b].done
         == f.ledgers[b].done + [Resolution(Ticket(pid, k), f.ledgers[b].out[Ticket(pid, k)], Earned(a))]
  {
    hide ProbeLedger.Inv, WellFormed, MayAsk, Record, Release;
    AskIsLegal(cfg, f, pid, a);
    assert Linked(f.ledgers[b], pid, f.procs[pid], b);
  }

  /** And it logs one outcome with the breaker, admitted or not, unless it was refused by install: then none. */
  lemma ExitLogs(cfg: Config, f: Fleet, pid: Rpc, a: Act, b: Breaker, k: nat)
    requires Usables(cfg, f) && Inv(cfg, f) && Possible(f, Run(pid, a)) && Ends(a) && b in f.ledgers
    requires At(f.procs[pid], b, k)
    ensures var l, n := f.ledgers[b], Advance(cfg, f, Run(pid, a)).ledgers[b];
            && n.m.log == (if a.InstallRefused? then l.m.log
                           else if l.m.state != Closed && n.m.state == Closed then []
                           else l.m.log + [Outcome(a.now, Earned(a) == Failed)])
            && forall c :: c in f.ledgers && c != b ==> Advance(cfg, f, Run(pid, a)).ledgers[c] == f.ledgers[c]
  {
    hide ProbeLedger.Inv, WellFormed, MayAsk, Record;
    AskIsLegal(cfg, f, pid, a);
    var l := f.ledgers[b];
    if !a.InstallRefused? {
      var q := AskOf(pid, f.procs[pid], a);
      RecordLogs(cfg[b], l.m, q.op.failed, if q.op.Finish? then l.out[q.op.ticket] else UNATTRIBUTED, a.now);
    }
  }

  /** No other step of an RPC logs anything. */
  lemma QuietStep(cfg: Config, f: Fleet, pid: Rpc, a: Act, b: Breaker)
    requires Usables(cfg, f) && Inv(cfg, f) && Possible(f, Run(pid, a)) && b in f.ledgers
    requires a.InstallRefused? || !Ends(a)
    ensures b in Advance(cfg, f, Run(pid, a)).ledgers
    ensures Advance(cfg, f, Run(pid, a)).ledgers[b].m.log == f.ledgers[b].m.log
  {
    hide ProbeLedger.Inv, WellFormed, MayAsk, Roll;
    AskIsLegal(cfg, f, pid, a);
  }

  lemma DoneGrows(cfg: Config, f: Fleet, e: Event, b: Breaker)
    requires Usables(cfg, f) && Inv(cfg, f) && Possible(f, e) && b in f.ledgers
    ensures b in Advance(cfg, f, e).ledgers && f.ledgers[b].done <= Advance(cfg, f, e).ledgers[b].done
  {
    hide Inv, AskOf, NextProc, Able, Admit, Record, Release, Poll, Reset, Roll;
    if e.Run? { AskIsLegal(cfg, f, e.pid, e.act); }
  }

  lemma {:induction false} DoneIsKept(cfg: Config, f: Fleet, es: seq<Event>, b: Breaker)
    requires Usables(cfg, f) && Inv(cfg, f) && Legal(cfg, f, es) && b in f.ledgers
    ensures b in Replay(cfg, f, es).ledgers && f.ledgers[b].done <= Replay(cfg, f, es).ledgers[b].done
    decreases |es|
  {
    hide Inv, Advance, Possible;
    if es != [] {
      DoneGrows(cfg, f, es[0], b);
      StepKeepsInv(cfg, f, es[0]);
      DoneIsKept(cfg, Advance(cfg, f, es[0]), es[1..], b);
    }
  }

  lemma {:induction false} Split(cfg: Config, f: Fleet, pre: seq<Event>, post: seq<Event>)
    requires Usables(cfg, f) && Inv(cfg, f) && Legal(cfg, f, pre + post)
    ensures Legal(cfg, f, pre) && Legal(cfg, Replay(cfg, f, pre), post)
    ensures Replay(cfg, f, pre + post) == Replay(cfg, Replay(cfg, f, pre), post)
    decreases |pre|
  {
    hide Inv, Advance, Possible;
    if pre == [] {
      assert pre + post == post;
    } else {
      assert (pre + post)[1..] == pre[1..] + post;
      StepKeepsInv(cfg, f, pre[0]);
      Split(cfg, Advance(cfg, f, pre[0]), pre[1..], post);
    }
  }

  /** Over every run: the verdict on an admission is the one its handler or attempt earned. Once a step ends it, the
      breaker's books hold for its ticket, now and for the rest of the run, that verdict and no other: failed
      exactly if the wrapped handler panicked or the status was one of the five that blame the server. */
  lemma VerdictIsEarned(cfg: Config, f: Fleet, pre: seq<Event>, pid: Rpc, a: Act, post: seq<Event>, b: Breaker, k: nat)
    requires Pristine(cfg, f) && Legal(cfg, f, pre + ([Run(pid, a)] + post)) && b in f.ledgers && Ends(a)
    requires Legal(cfg, f, pre) && pid in Replay(cfg, f, pre).procs && Holds(Replay(cfg, f, pre).procs[pid], b, k)
    ensures var done := Replay(cfg, f, pre + ([Run(pid, a)] + post)).ledgers[b].done;
            && (exists r :: r in done && r.ticket == Ticket(pid, k))
            && (forall r :: r in done && r.ticket == Ticket(pid, k) ==> r.verdict == Earned(a))
  {
    hide Inv, Legal, Replay, Advance, Possible, Holds, Earned, Resolutions;
    var mid := Replay(cfg, f, pre);
    Split(cfg, f, pre, [Run(pid, a)] + post);
    StepsOn(cfg, mid, Run(pid, a), post);
    var next := Advance(cfg, mid, Run(pid, a));
    ExitResolves(cfg, mid, pid, a, b, k);
    DoneIsKept(cfg, next, post, b);
    OneVerdict(cfg, Replay(cfg, next, post), b, next.ledgers[b].done, |mid.ledgers[b].done|);
  }

  lemma StepsOn(cfg: Config, f: Fleet, e: Event, post: seq<Event>)
    requires Usables(cfg, f) && Inv(cfg, f) && Legal(cfg, f, [e] + post)
    ensures Possible(f, e) && Usables(cfg, Advance(cfg, f, e)) && Inv(cfg, Advance(cfg, f, e))
    ensures Legal(cfg, Advance(cfg, f, e), post)
    ensures Replay(cfg, f, [e] + post) == Replay(cfg, Advance(cfg, f, e), post)
  {
    hide Inv, Advance, Possible;
    assert ([e] + post)[1..] == post;
    StepKeepsInv(cfg, f, e);
  }

  /** Tickets are resolved once, so a resolution on the books is the only one of its ticket. */
  lemma OneVerdict(cfg: Config, n: Fleet, b: Breaker, done: seq<Resolution>, i: nat)
    requires Usables(cfg, n) && Inv(cfg, n) && b in n.ledgers && done <= n.ledgers[b].done && i < |done|
    ensures done[i] in n.ledgers[b].done
    ensures forall r :: r in n.ledgers[b].done && r.ticket == done[i].ticket ==> r == done[i]
  {
    hide WellFormed, Linked, Conserved;
    assert ProbeLedger.Inv(cfg[b], n.ledgers[b]);
  }

  /** The interceptor in particular: when a handler it admitted is over, the method's breaker has been told of a
      failure exactly if the handler panicked or returned one of the five codes, and of a success otherwise. */
  lemma InterceptorTellsTheTruth(cfg: Config, f: Fleet, pre: seq<Event>, pid: Rpc, a: Act, post: seq<Event>)
    requires Pristine(cfg, f) && Legal(cfg, f, pre) && Legal(cfg, f, pre + ([Run(pid, a)] + post))
    requires a.HandlerReturns? || a.HandlerPanics?
    ensures var mid, n := Replay(cfg, f, pre), Replay(cfg, f, pre + ([Run(pid, a)] + post));
            && pid in mid.procs && mid.procs[pid].Handling? && mid.procs[pid].b in n.ledgers
            && var done := n.ledgers[mid.procs[pid].b].done;
            && (exists r :: r in done && r.ticket == Ticket(pid, 0))
            && (forall r :: r in done && r.ticket == Ticket(pid, 0) ==>
                  r.verdict == if a.HandlerPanics? || a.code in {Unavailable, DeadlineExceeded, Internal, ResourceExhausted, Unknown}
                               then Failed else Succeeded)
  {
    hide Inv, Legal, Replay, Advance, Possible, Holds, Pristine, OnTime, AskOf, Able;
    var mid := Replay(cfg, f, pre);
    Split(cfg, f, pre, [Run(pid, a)] + post);
    StepsOn(cfg, mid, Run(pid, a), post);
    InHandler(cfg, mid, pid, a);
    VerdictIsEarned(cfg, f, pre, pid, a, post, mid.procs[pid].b, 0);
  }

  lemma InHandler(cfg: Config, f: Fleet, pid: Rpc, a: Act)
    requires Usables(cfg, f) && Inv(cfg, f) && Possible(f, Run(pid, a)) && (a.HandlerReturns? || a.HandlerPanics?)
    ensures pid in f.procs && f.procs[pid].Handling? && f.procs[pid].b in f.ledgers && Holds(f.procs[pid], f.procs[pid].b, 0)
  {
    assert WellFormed(f.procs[pid], f.ledgers.Keys);
  }
}
