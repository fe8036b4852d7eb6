/** When a failed attempt is followed by another one, and which status the client gets in the end. */
module ExchangeFailover {
  import opened StatusCodes
  import opened Exchange
  import opened ExchangeSafety
  import opened ExchangeClient
  import opened ExchangeTheorems

  // ----- what takes away the right to retry

  /** The pump took a second client message, or found the client's send side broken. */
  predicate MovedOn(acts: seq<Action>) {
    PumpLockMsg in acts || (PumpEnd(false) in acts && PumpLockEnd in acts)
  }

  /** A pump that has stopped reading does nothing of that kind. */
  lemma {:induction false} PumpIsDone(c: Rpc, x: State, acts: seq<Action>)
    requires Legal(c, x, acts) && (x.pump.HalfClosing? || x.pump.Stopped?)
    ensures PumpLockMsg !in acts && PumpLockEnd !in acts && PumpEnd(false) !in acts
    decreases |acts|
  {
    if acts != [] {
      PumpStays(c, x, acts[0]);
      hide Enabled, Step;
      PumpIsDone(c, Step(c, x, acts[0]), acts[1..]);
      assert acts == [acts[0]] + acts[1..];
    }
  }

  lemma PumpStays(c: Rpc, x: State, a: Action)
    requires Enabled(c, x, a) && (x.pump.HalfClosing? || x.pump.Stopped?)
    ensures Step(c, x, a).pump.HalfClosing? || Step(c, x, a).pump.Stopped?
    ensures a != PumpLockMsg && a != PumpLockEnd && a != PumpEnd(false)
  {
    hide Freed, Received, Marshalled, Offer, CloseSend, Produce, End, ForwardHeader, CanRetry;
  }

  /** How a step to `y` changes `committed` and the pump's bad end. */
  ghost predicate Commits(x: State, a: Action, y: State) {
    && (y.mu.committed <==> x.mu.committed || a == PumpLockMsg || (a == PumpLockEnd && x.pump == GotEnd(false)))
    && (y.pump == GotEnd(false) <==> a == PumpEnd(false) || (x.pump == GotEnd(false) && a != PumpLockEnd))
    && (a == PumpLockEnd && x.pump != GotEnd(false) ==> y.pump.HalfClosing?)
  }

  lemma CommitsLoop(c: Rpc, x: State, a: Action)
    requires Enabled(c, x, a) && PhaseOf(a) == InLoop
    ensures Commits(x, a, LoopStep(c, x, a))
  {
    hide Freed, Received, CanRetry;
  }

  lemma CommitsInstall(c: Rpc, x: State, a: Action)
    requires Enabled(c, x, a) && PhaseOf(a) == InInstall
    ensures Commits(x, a, InstallStep(c, x, a))
  {
    hide Freed, Received, Marshalled, Offer, CloseSend, End;
  }

  lemma CommitsRelay(c: Rpc, x: State, a: Action)
    requires Enabled(c, x, a) && PhaseOf(a) == InRelay
    ensures Commits(x, a, RelayStep(c, x, a))
  {
    RelayFrame(c, x, a);
    hide RelayStep, Enabled;
  }

  lemma CommitsPump(c: Rpc, x: State, a: Action)
    requires Enabled(c, x, a) && PhaseOf(a) == InPump
    ensures Commits(x, a, PumpStep(c, x, a))
  {
    hide Freed, Received, Marshalled, Offer, CloseSend;
  }

  lemma CommitStep(c: Rpc, x: State, a: Action)
    requires Enabled(c, x, a)
    ensures Commits(x, a, Step(c, x, a))
  {
    hide Commits, LoopStep, InstallStep, RelayStep, PumpStep, Enabled;
    match PhaseOf(a) {
      case InLoop => CommitsLoop(c, x, a);
      case InInstall => CommitsInstall(c, x, a);
      case InRelay => CommitsRelay(c, x, a);
      case InPump => CommitsPump(c, x, a);
    }
  }

  lemma {:induction false} CommittedMeans(c: Rpc, x: State, acts: seq<Action>)
    requires Legal(c, x, acts)
    ensures Replayed(c, x, acts).mu.committed
            <==> x.mu.committed || PumpLockMsg in acts
                 || (PumpLockEnd in acts && (x.pump == GotEnd(false) || PumpEnd(false) in acts))
    decreases |acts|
  {
    if acts != [] {
      var a, rest := acts[0], acts[1..];
      CommitStep(c, x, a);
      if a == PumpLockEnd && x.pump != GotEnd(false) { PumpIsDone(c, Step(c, x, a), rest); }
      hide Enabled, Step;
      CommittedMeans(c, Step(c, x, a), rest);
      assert acts == [a] + rest;
    }
  }

  /** At the end of an attempt the client has seen nothing exactly if neither header nor message was sent. */
  lemma NothingSeen(c: Rpc, x: State)
    requires Inv(c, x) && (x.h.SetupFailed? || x.h.Relayed?)
    ensures x.view.seen == [] <==> !x.view.sentHeader && !x.view.sentMsg
  {
    hide Messages, HalfClose, Complete, ExchangeAttempts.Tried, ExchangeAttempts.Reach, ExchangeAttempts.Buffers;
  }

  // ----- failover

  /** What is retried under which policy: the policy, whether the stream could not be set up, and the status. */
  const RETRIED: set<(Policy, bool, Code)> :=
    {(RetryConnectFailure, true, Unavailable), (RetryUnavailable, true, Unavailable),
     (RetryUnavailable, false, Unavailable), (RetryUnavailable, false, ResourceExhausted)}

  /** The next candidate is tried exactly when there is one, the client has seen nothing, the pump has not moved on,
      the caller is still there, and the policy retries this status at this stage, a backend's own deadline only
      while the caller's leaves time. Otherwise the status of this attempt is final. */
  lemma FailoverExactly(c: Rpc, acts: seq<Action>, a: Action)
    requires c.n >= 1 && Legal(c, Init(), acts) && Enabled(c, Replayed(c, Init(), acts), a)
    requires a.DecideSetup? || a.DecideRelay?
    ensures var x := Replayed(c, Init(), acts);
            var y := Step(c, x, a);
            var row := (c.policy, a.DecideSetup?, x.h.code);
            && (y.h == Choosing(x.h.i + 1)
                <==> && x.h.i + 1 < c.n && x.view.seen == [] && !MovedOn(acts) && !a.ctxErr
                     && (row in RETRIED || (row == (RetryUnavailable, false, DeadlineExceeded) && a.budget)))
            && (y.h != Choosing(x.h.i + 1) ==>
                  y.h == if a.DecideSetup? then Returned(Upstream(x.h.code)) else Closing(x.h.i, x.h.s, x.h.code))
  {
    Reachable(c, acts);
    CommittedMeans(c, Init(), acts);
    var x := Replayed(c, Init(), acts);
    hide Legal, Replayed, Inv, Step;
    Decides(c, x, a);
    NothingSeen(c, x);
  }

  /** The same in terms of the handler's own fields. */
  lemma Decides(c: Rpc, x: State, a: Action)
    requires Enabled(c, x, a) && (a.DecideSetup? || a.DecideRelay?)
    ensures var y := Step(c, x, a);
            var row := (c.policy, a.DecideSetup?, x.h.code);
            && (x.h.SetupFailed? || x.h.Relayed?)
            && (y.h == Choosing(x.h.i + 1)
                <==> && x.h.i + 1 < c.n && !x.view.sentHeader && !x.view.sentMsg && !x.mu.committed && !a.ctxErr
                     && (row in RETRIED || (row == (RetryUnavailable, false, DeadlineExceeded) && a.budget)))
            && (y.h != Choosing(x.h.i + 1) ==>
                  y.h == if a.DecideSetup? then Returned(Upstream(x.h.code)) else Closing(x.h.i, x.h.s, x.h.code))
  {
    hide Freed;
  }

  // ----- every candidate gets its chance

  /** No backend can be reached, and the caller waits. */
  predicate Unreachable(a: Action) {
    && (a.Dial? ==> !a.ok && a.code == Unavailable)
    && (a.DecideSetup? ==> !a.ctxErr)
    && !a.FirstErr?
  }

  /** How many candidates were asked, and whether all of them let the attempt pass. */
  function Asked(acts: seq<Action>): nat {
    if acts == [] then 0 else (if acts[0].Reserve? then 1 else 0) + Asked(acts[1..])
  }

  predicate AllAdmitted(acts: seq<Action>) {
    forall i :: 0 <= i < |acts| && acts[i].Reserve? ==> acts[i].admitted
  }

  /** Where the handler is when `asked` candidates have been asked. */
  ghost predicate Knocking(c: Rpc, x: State, asked: nat, admitted: bool) {
    && x.pump.Idle? && !x.mu.committed && !x.view.sentHeader && !x.view.sentMsg
    && (match x.h
        case Starting => asked == 0
        case Choosing(i) => asked == i < c.n
        case Locking(i) => asked == i + 1 <= c.n
        case Dialing(i) => asked == i + 1 <= c.n
        case SetupFailed(i, code) => asked == i + 1 <= c.n && code == Unavailable
        case Returned(status) => asked == c.n && status == Upstream(Unavailable)
        case _ => false)
    && (admitted ==> x.tally.attempts == asked)
  }

  lemma Knocks(c: Rpc, x: State, a: Action, asked: nat, admitted: bool)
    requires c.n >= 1 && c.policy != RetryNone && Knocking(c, x, asked, admitted) && Enabled(c, x, a) && Unreachable(a)
    ensures Knocking(c, Step(c, x, a), asked + (if a.Reserve? then 1 else 0), admitted && (a.Reserve? ==> a.admitted))
  {
    hide Freed, Received, Marshalled, Offer, CloseSend, Produce, End, ForwardHeader;
  }

  lemma {:induction false} KeepsKnocking(c: Rpc, x: State, acts: seq<Action>, asked: nat, admitted: bool)
    requires c.n >= 1 && c.policy != RetryNone && Knocking(c, x, asked, admitted) && Legal(c, x, acts)
    requires forall i :: 0 <= i < |acts| ==> Unreachable(acts[i])
    ensures Knocking(c, Replayed(c, x, acts), asked + Asked(acts), admitted && AllAdmitted(acts))
    decreases |acts|
  {
    hide Knocking, Enabled, Step, Unreachable;
    if acts != [] {
      var a, rest := acts[0], acts[1..];
      assert acts == [a] + rest;
      Knocks(c, x, a, asked, admitted);
      KeepsKnocking(c, Step(c, x, a), rest, asked + (if a.Reserve? then 1 else 0), admitted && (a.Reserve? ==> a.admitted));
      assert AllAdmitted(acts) <==> (a.Reserve? ==> a.admitted) && AllAdmitted(rest);
    }
  }

  /** Under connect-failure and unavailable alike, if no backend can be reached every candidate is asked before the
      client is told so, and an attempt is made on each one that was admitted. */
  lemma EveryCandidateIsTried(c: Rpc, acts: seq<Action>)
    requires c.n >= 1 && c.policy != RetryNone && Legal(c, Init(), acts)
    requires forall i :: 0 <= i < |acts| ==> Unreachable(acts[i])
    ensures var x := Replayed(c, Init(), acts);
            x.h.Returned? ==>
              && x.h == Returned(Upstream(Unavailable)) && Asked(acts) == c.n
              && (AllAdmitted(acts) ==> x.tally.attempts == c.n)
  {
    KeepsKnocking(c, Init(), acts, 0, true);
  }

  // ----- attempts

  /** The attempts a run makes: one for each candidate that was admitted, and one for the last of the n even if it
      was not; `asked` candidates were asked before. */
  function Attempts(acts: seq<Action>, asked: nat, n: nat): nat {
    if acts == [] then 0
    else if acts[0].Reserve? then
      (if acts[0].admitted || asked + 1 == n then 1 else 0) + Attempts(acts[1..], asked + 1, n)
    else Attempts(acts[1..], asked, n)
  }

  /** Candidates are asked in order, each once. */
  ghost predicate InTurn(x: State, asked: nat) {
    (x.h.Starting? ==> asked == 0) && (!x.h.Starting? && !x.h.Returned? ==> asked == x.h.i + if x.h.Choosing? then 0 else 1)
  }

  lemma TakesTurns(c: Rpc, x: State, a: Action, asked: nat)
    requires Enabled(c, x, a) && InTurn(x, asked)
    ensures InTurn(Step(c, x, a), asked + if a.Reserve? then 1 else 0)
    ensures Step(c, x, a).tally.attempts
         == x.tally.attempts + if a.Reserve? && (a.admitted || asked + 1 >= c.n) then 1 else 0
  {
    hide Freed, Received, Marshalled, Offer, CloseSend, Produce, End, ForwardHeader, CanRetry;
  }

  lemma {:induction false} CountsAttempts(c: Rpc, x: State, acts: seq<Action>, asked: nat)
    requires Legal(c, x, acts) && InTurn(x, asked) && c.n >= 1 && Inv(c, x)
    ensures Replayed(c, x, acts).tally.attempts == x.tally.attempts + Attempts(acts, asked, c.n)
    decreases |acts|
  {
    hide Enabled, Step, Inv;
    if acts != [] {
      var a := acts[0];
      TakesTurns(c, x, a, asked);
      if a.Reserve? { AsksInRange(c, x, a); }
      StepKeeps(c, x, a);
      CountsAttempts(c, Step(c, x, a), acts[1..], asked + if a.Reserve? then 1 else 0);
    }
  }

  lemma AsksInRange(c: Rpc, x: State, a: Action)
    requires Enabled(c, x, a) && a.Reserve?
    ensures x.h.Choosing? && x.h.i < c.n
  {}

  /** Over every run a candidate gets an attempt exactly if it was admitted or is the last one. */
  lemma AttemptsExactly(c: Rpc, acts: seq<Action>)
    requires c.n >= 1 && Legal(c, Init(), acts)
    ensures Replayed(c, Init(), acts).tally.attempts == Attempts(acts, 0, c.n)
  {
    CountsAttempts(c, Init(), acts, 0);
  }

  // ----- no step is missing

  predicate OfHandler(a: Action) {
    PhaseOf(a) != InPump
  }

  /** A step the handler can take. */
  function HandlerStep(x: State): Action
    requires !x.h.Returned?
  {
    match x.h
    case Starting => FirstMsg
    case Choosing(_) => Reserve(true)
    case Locking(_) => Lock
    case Dialing(_) => Dial(true, OK)
    case Replaying(_, _) => Replay(true, false, OK)
    case Recovering(_, _) => Recover(true, OK)
    case Publishing(_, _) => Publish
    case SetupFailed(_, _) => DecideSetup(false, true)
    case Receiving(_, _) => RecvMsg
    case Heading(_, _, _) => HeaderSent
    case Delivering(_, _, _) => Deliver(true, true, OK)
    case Ending(_, _) => EndHeader(true)
    case Relayed(_, _, _) => DecideRelay(false, true)
    case Closing(_, _, _) => Close(true)
  }

  /** A step the pump can take. */
  function PumpsStep(x: State): Action
    requires !x.pump.Idle? && !x.pump.Stopped?
  {
    match x.pump
    case Reading => PumpMsg
    case GotMsg(_) => PumpLockMsg
    case GotEnd(_) => PumpLockEnd
    case Sending(_, _) => PumpSend(true)
    case HalfClosing(_) => PumpCloseSend
  }

  /** Nothing gets stuck: in every reachable state the handler can take a step until it has returned, and the pump
      until it has stopped, unless it waits for the lock, which the handler holds and will give up. The pump has
      been started once a stream is installed, unless the client had nothing more to send from the beginning. */
  lemma NeverStuck(c: Rpc, acts: seq<Action>)
    requires c.n >= 1 && Legal(c, Init(), acts)
    ensures var x := Replayed(c, Init(), acts);
            && (!x.h.Returned? ==> Enabled(c, x, HandlerStep(x)) && OfHandler(HandlerStep(x)))
            && (!x.pump.Idle? && !x.pump.Stopped? ==> Enabled(c, x, PumpsStep(x)) || (MuHeld(x) && !x.h.Returned?))
            && (x.mu.cs.Some? && x.pump.Idle? ==> x.mu.halfClosed)
  {
    Reachable(c, acts);
    hide Legal, Replayed, HalfClose, Viewed, Complete, ExchangeAttempts.Reach, ExchangeAttempts.Buffers;
    StaysEnabled(c, Replayed(c, Init(), acts));
  }

  lemma StaysEnabled(c: Rpc, x: State)
    requires Control(c, x) && (x.h.Replaying? ==> x.first.Some?)
    ensures !x.h.Returned? ==> Enabled(c, x, HandlerStep(x)) && OfHandler(HandlerStep(x))
    ensures !x.pump.Idle? && !x.pump.Stopped? ==> Enabled(c, x, PumpsStep(x)) || (MuHeld(x) && !x.h.Returned?)
  {}

  // ----- the status the client gets

  /** The status a step reports, if it ends the first receive, a set-up or a relay. */
  function Reports(a: Action): Option<Code> {
    match a
    case FirstErr(code) => Some(code)
    case Dial(ok, code) => if ok then None else Some(code)
    case Replay(ok, eof, code) => if ok || eof then None else Some(code)
    case Recover(got, code) => Some(if got then Unknown else code)
    case RecvEOF => Some(OK)
    case RecvErr(code) => Some(code)
    case HeaderErr(code) => Some(code)
    case HeaderUnsent(code) => Some(code)
    case Deliver(ok, _, code) => if ok then None else Some(code)
    case _ => None
  }

  /** The last status reported in a run. */
  function LastReport(acts: seq<Action>): Option<Code> {
    if acts == [] then None
    else if Reports(acts[|acts| - 1]).Some? then Reports(acts[|acts| - 1])
    else LastReport(acts[..|acts| - 1])
  }

  /** The handler keeps the last reported status. */
  ghost predicate Told(x: State, last: Option<Code>) {
    match x.h
    case Starting => last == None && x.tally.lastErr == None
    case Choosing(_) => x.tally.lastErr == last
    case Locking(_) => x.tally.lastErr == last
    case SetupFailed(_, code) => last == Some(code)
    case Ending(_, _) => last == Some(OK)
    case Relayed(_, _, code) => last == Some(code)
    case Closing(_, _, code) => last == Some(code)
    case Returned(status) => status.Upstream? ==> last == Some(status.code)
    case _ => true
  }

  lemma Tells(c: Rpc, x: State, a: Action, last: Option<Code>)
    requires Enabled(c, x, a) && Told(x, last)
    ensures Told(Step(c, x, a), if Reports(a).Some? then Reports(a) else last)
  {
    hide Freed, Received, Marshalled, Offer, CloseSend, Produce, End, ForwardHeader, CanRetry;
  }

  lemma {:induction false} Keeps(c: Rpc, acts: seq<Action>)
    requires Legal(c, Init(), acts)
    ensures Told(Replayed(c, Init(), acts), LastReport(acts))
    decreases |acts|
  {
    if acts != [] {
      var rest, a := acts[..|acts| - 1], acts[|acts| - 1];
      assert acts == rest + [a];
      Uncompose(c, Init(), rest, a);
      Keeps(c, rest);
      Tells(c, Replayed(c, Init(), rest), a, LastReport(rest));
    }
  }

  lemma {:induction false} Uncompose(c: Rpc, x: State, p: seq<Action>, a: Action)
    requires Legal(c, x, p + [a])
    ensures Legal(c, x, p) && Enabled(c, Replayed(c, x, p), a)
    ensures Replayed(c, x, p + [a]) == Step(c, Replayed(c, x, p), a)
    decreases |p|
  {
    hide Enabled, Step;
    if p == [] {
      assert p + [a] == [a] && [a][1..] == [];
    } else {
      assert (p + [a])[1..] == p[1..] + [a];
      Uncompose(c, Step(c, x, p[0]), p[1..], a);
    }
  }

  /** A stream's last words reach the client whether the RPC succeeded or failed: if the stream reported its end, the
      trailer follows everything else, and the header before it if it could be sent; if not, nothing is added. */
  lemma LastWords(c: Rpc, acts: seq<Action>, a: Action)
    requires c.n >= 1 && Legal(c, Init(), acts) && Enabled(c, Replayed(c, Init(), acts), a) && a.Close?
    ensures var x := Replayed(c, Init(), acts);
            var y := Step(c, x, a);
            && x.h.Closing? && x.h.s < |x.down| && x.view.seen <= y.view.seen
            && (if x.down[x.h.s].ended then Trailer(x.h.s) in y.view.seen && (a.sent ==> Header(x.h.s) in y.view.seen)
                else y.view.seen == x.view.seen)
  {
    Reachable(c, acts);
    hide Legal, Replayed, Messages, HalfClose, Complete, ExchangeAttempts.Tried, ExchangeAttempts.Reach, ExchangeAttempts.Buffers;
    hide Freed;
  }

  /** The client gets exactly the last status any backend, or its own first receive, came back with. */
  lemma LastStatusIsReturned(c: Rpc, acts: seq<Action>)
    requires c.n >= 1 && Legal(c, Init(), acts) && Replayed(c, Init(), acts).h.Returned?
    ensures LastReport(acts).Some? && Replayed(c, Init(), acts).h == Returned(Upstream(LastReport(acts).value))
  {
    hide Legal, Replayed;
    Keeps(c, acts);
    FallbackUnreachable(c, acts);
    var x := Replayed(c, Init(), acts);
    assert x.h == Returned(x.h.status) && x.h.status.Upstream?;
  }
}
