/** internal/proxy: one proxied RPC as a transition system of two goroutines, the handler, which owns
    the upstream-to-client direction and every retry decision, and the pump, which owns the
    client-to-upstream direction. Every send, receive and critical section is one step; what the peers
    do is chosen by the environment, and logs record what each stream and the client got to see.

    Messages are opaque, so a message is identified with the buffer it arrived in. */
module Exchange {
  import opened StatusCodes

  datatype Option<T> = None | Some(value: T)

  datatype Policy = RetryNone | RetryConnectFailure | RetryUnavailable

  /** One RPC: how many candidates `Pick` returned, and the configured retry policy. */
  datatype Rpc = Rpc(n: nat, policy: Policy)

  type Buf = nat
  type StreamId = nat

  /** A reference-counted message buffer: `refs` is its count, `wire` how many of these belong to gRPC
      for messages being written, `frees` how often the proxy released its own. */
  datatype Buffer = Buffer(refs: int, wire: int, frees: nat)

  /** The client-to-upstream side of a stream: `offered` is what was handed to SendMsg, `accepted` the part
      SendMsg reported as taken, `closes` counts CloseSend. */
  datatype Up = Up(offered: seq<Buf>, accepted: seq<Buf>, closes: nat)

  /** The upstream-to-client side: what the relay read, and whether the final status was reported. */
  datatype Down = Down(produced: seq<Buf>, ended: bool)

  datatype Seen = Header(s: StreamId) | Message(s: StreamId, m: Buf) | Trailer(s: StreamId)

  datatype Status = Upstream(code: Code) | NoBackends

  datatype Handler =
    | Starting                                          // handle: RecvMsg(&e.first)
    | Choosing(i: nat)                                  // run: top of the loop
    | Locking(i: nat)                                   // install: about to take mu
    | Dialing(i: nat)                                   // NewClientStream, mu held
    | Replaying(i: nat, s: StreamId)                    // SendMsg(e.first), mu held
    | Recovering(i: nat, s: StreamId)                   // firstSendError, mu held
    | Publishing(i: nat, s: StreamId)                   // e.cs = cs, mu held
    | SetupFailed(i: nat, code: Code)                   // record, then canRetry
    | Receiving(i: nat, s: StreamId)                    // relay: cs.RecvMsg
    | Heading(i: nat, s: StreamId, m: Buf)              // relay: header before the first message
    | Delivering(i: nat, s: StreamId, m: Buf)           // relay: stream.SendMsg
    | Ending(i: nat, s: StreamId)                       // relay: EOF, forwardHeader
    | Relayed(i: nat, s: StreamId, code: Code)          // record, then canRetry
    | Closing(i: nat, s: StreamId, code: Code)          // forwardHeader and SetTrailer
    | Returned(status: Status)

  datatype Pump =
    | Idle                                              // not started
    | Reading                                           // stream.RecvMsg
    | GotMsg(m: Buf)                                    // about to take mu
    | GotEnd(eof: bool)                                 // about to take mu
    | Sending(m: Buf, s: StreamId)                      // cs.SendMsg
    | HalfClosing(s: StreamId)                          // cs.CloseSend
    | Stopped

  /** The fields under mu: e.cs, committed and halfClosed; pumping is `pump` not being Idle. */
  datatype Shared = Shared(cs: Option<StreamId>, committed: bool, halfClosed: bool)

  /** The handler's record of what reached the client, and the log of what the client observed. */
  datatype View = View(sentHeader: bool, sentMsg: bool, upstreamDone: bool, seen: seq<Seen>, shown: nat, trailed: bool)

  datatype Tally = Tally(lastErr: Option<Code>, attempts: nat, published: nat)

  /** `up` and `down` hold the two sides of every stream opened so far; `client` is every message received
      from the client, in order. */
  datatype State = State(h: Handler, pump: Pump, first: Option<Buf>, mu: Shared, up: seq<Up>, down: seq<Down>,
                         client: seq<Buf>, bufs: seq<Buffer>, view: View, tally: Tally)

  datatype Action =
    | FirstMsg | FirstEOF | FirstErr(code: Code)
    | Reserve(admitted: bool)
    | FallThrough
    | Lock
    | Dial(ok: bool, code: Code)
    | Replay(ok: bool, eof: bool, code: Code)
    | Recover(got: bool, code: Code)
    | Publish
    | DecideSetup(ctxErr: bool, budget: bool)
    | RecvMsg | RecvEOF | RecvErr(code: Code)
    | HeaderErr(code: Code) | HeaderUnsent(code: Code) | HeaderSent
    | Deliver(ok: bool, observed: bool, code: Code)
    | EndHeader(sent: bool)
    | DecideRelay(ctxErr: bool, budget: bool)
    | Close(sent: bool)
    | PumpMsg | PumpEnd(eof: bool)
    | PumpLockMsg | PumpLockEnd
    | PumpSend(ok: bool)
    | PumpCloseSend
    | WireFree(b: Buf)

  // ----- buffers and streams

  function Received(bufs: seq<Buffer>): seq<Buffer> {
    bufs + [Buffer(1, 0, 0)]
  }

  /** Codec.Marshal: SendMsg takes a reference of its own. */
  function Marshalled(bufs: seq<Buffer>, b: Buf): seq<Buffer> {
    if b < |bufs| then bufs[b := bufs[b].(refs := bufs[b].refs + 1, wire := bufs[b].wire + 1)] else bufs
  }

  function Freed(bufs: seq<Buffer>, b: Buf): seq<Buffer> {
    if b < |bufs| then bufs[b := bufs[b].(refs := bufs[b].refs - 1, frees := bufs[b].frees + 1)] else bufs
  }

  function Offer(up: seq<Up>, s: StreamId, m: Buf, ok: bool): seq<Up> {
    if s < |up| then
      up[s := up[s].(offered := up[s].offered + [m], accepted := if ok then up[s].accepted + [m] else up[s].accepted)]
    else up
  }

  function CloseSend(up: seq<Up>, s: StreamId): seq<Up> {
    if s < |up| then up[s := up[s].(closes := up[s].closes + 1)] else up
  }

  function Produce(down: seq<Down>, s: StreamId, m: Buf): seq<Down> {
    if s < |down| then down[s := down[s].(produced := down[s].produced + [m])] else down
  }

  function End(down: seq<Down>, s: StreamId): seq<Down> {
    if s < |down| then down[s := down[s].(ended := true)] else down
  }

  // ----- the retry rule

  predicate CanRetry(c: Rpc, x: State, code: Code, i: nat, fromSetup: bool, ctxErr: bool, budget: bool) {
    && i + 1 < c.n
    && !x.view.sentHeader && !x.view.sentMsg
    && !ctxErr
    && !x.mu.committed
    && c.policy != RetryNone
    && if fromSetup then code == Unavailable
       else c.policy == RetryUnavailable
            && (code == Unavailable || code == ResourceExhausted || (code == DeadlineExceeded && budget))
  }

  // ----- steps

  /** The handler returns; the deferred Free releases the buffered first message. */
  function Return(x: State, st: Status): State {
    x.(h := Returned(st), bufs := if x.first.Some? then Freed(x.bufs, x.first.value) else x.bufs)
  }

  function OrUnavailable(err: Option<Code>): Status {
    if err.Some? then Upstream(err.value) else NoBackends
  }

  function ForwardHeader(v: View, s: StreamId, sent: bool): View {
    if !v.sentHeader && sent then v.(sentHeader := true, seen := v.seen + [Header(s)]) else v
  }

  /** mu is held by the handler throughout install. */
  predicate MuHeld(x: State) {
    x.h.Dialing? || x.h.Replaying? || x.h.Recovering? || x.h.Publishing?
  }

  /** When a step can happen; an error never has the code OK. */
  predicate Enabled(c: Rpc, x: State, a: Action) {
    match a
    case FirstMsg => x.h.Starting?
    case FirstEOF => x.h.Starting?
    case FirstErr(code) => x.h.Starting? && code != OK
    case Reserve(_) => x.h.Choosing? && x.h.i < c.n
    case FallThrough => x.h.Choosing? && x.h.i >= c.n
    case Lock => x.h.Locking?
    case Dial(ok, code) => x.h.Dialing? && (!ok ==> code != OK)
    case Replay(ok, eof, code) => x.h.Replaying? && x.first.Some? && (!ok && !eof ==> code != OK)
    case Recover(got, code) => x.h.Recovering? && (!got ==> code != OK)
    case Publish => x.h.Publishing?
    case DecideSetup(_, _) => x.h.SetupFailed?
    case RecvMsg => x.h.Receiving?
    case RecvEOF => x.h.Receiving?
    case RecvErr(code) => x.h.Receiving? && code != OK
    case HeaderErr(code) => x.h.Heading? && code != OK
    case HeaderUnsent(code) => x.h.Heading? && code != OK
    case HeaderSent => x.h.Heading?
    case Deliver(ok, observed, code) => x.h.Delivering? && (ok ==> observed) && (!ok ==> code != OK)
    case EndHeader(_) => x.h.Ending?
    case DecideRelay(_, _) => x.h.Relayed?
    case Close(_) => x.h.Closing?
    case PumpMsg => x.pump.Reading?
    case PumpEnd(_) => x.pump.Reading?
    case PumpLockMsg => x.pump.GotMsg? && !MuHeld(x) && x.mu.cs.Some?
    case PumpLockEnd => x.pump.GotEnd? && !MuHeld(x) && x.mu.cs.Some?
    case PumpSend(_) => x.pump.Sending?
    case PumpCloseSend => x.pump.HalfClosing?
    case WireFree(b) => b < |x.bufs| && x.bufs[b].wire > 0
  }

  /** The first message, the candidate loop, and the decision after a failed install. */
  function LoopStep(c: Rpc, x: State, a: Action): State
    requires Enabled(c, x, a)
  {
    match a
    case FirstMsg =>
      x.(h := Choosing(0), first := Some(|x.bufs|), client := x.client + [|x.bufs|], bufs := Received(x.bufs))
    case FirstEOF => x.(h := Choosing(0), mu := x.mu.(halfClosed := true))
    case FirstErr(code) => Return(x, Upstream(code))
    case Reserve(admitted) =>
      if !admitted && x.h.i + 1 < c.n then x.(h := Choosing(x.h.i + 1))
      else x.(h := Locking(x.h.i), tally := x.tally.(attempts := x.tally.attempts + 1))
    case FallThrough => Return(x, OrUnavailable(x.tally.lastErr))
    case Lock => if x.mu.committed then Return(x, OrUnavailable(x.tally.lastErr)) else x.(h := Dialing(x.h.i))
    case DecideSetup(ctxErr, budget) =>
      var y := x.(tally := x.tally.(lastErr := Some(x.h.code)));
      if CanRetry(c, x, x.h.code, x.h.i, true, ctxErr, budget) then y.(h := Choosing(x.h.i + 1))
      else Return(y, Upstream(x.h.code))
    case _ => x
  }

  /** install, with mu held throughout. */
  function InstallStep(c: Rpc, x: State, a: Action): State
    requires Enabled(c, x, a)
  {
    match a
    case Dial(ok, code) =>
      if !ok then x.(h := SetupFailed(x.h.i, code))
      else
        var s := |x.up|;
        x.(up := x.up + [Up([], [], 0)], down := x.down + [Down([], false)],
           h := if x.first.Some? then Replaying(x.h.i, s) else Publishing(x.h.i, s))
    case Replay(ok, eof, code) =>
      var s, m := x.h.s, x.first.value;
      x.(up := Offer(x.up, s, m, ok), bufs := Marshalled(x.bufs, m),
         h := if ok then Publishing(x.h.i, s) else if eof then Recovering(x.h.i, s) else SetupFailed(x.h.i, code))
    case Recover(got, code) =>
      if got then x.(h := SetupFailed(x.h.i, Unknown), bufs := Freed(Received(x.bufs), |x.bufs|))
      else x.(h := SetupFailed(x.h.i, code), down := End(x.down, x.h.s))
    case Publish =>
      var s := x.h.s;
      x.(mu := x.mu.(cs := Some(s)), tally := x.tally.(published := x.tally.published + 1),
         view := x.view.(upstreamDone := false), h := Receiving(x.h.i, s),
         up := if x.mu.halfClosed then CloseSend(x.up, s) else x.up,
         pump := if !x.mu.halfClosed && x.pump.Idle? then Reading else x.pump)
    case _ => x
  }

  /** relay, and the end of an attempt. */
  function RelayStep(c: Rpc, x: State, a: Action): State
    requires Enabled(c, x, a)
  {
    match a
    case RecvMsg =>
      var s, m := x.h.s, |x.bufs|;
      x.(bufs := Received(x.bufs), down := Produce(x.down, s, m),
         h := if x.view.sentHeader then Delivering(x.h.i, s, m) else Heading(x.h.i, s, m))
    case RecvEOF =>
      x.(view := x.view.(upstreamDone := true), h := Ending(x.h.i, x.h.s), down := End(x.down, x.h.s))
    case RecvErr(code) =>
      x.(view := x.view.(upstreamDone := true), h := Relayed(x.h.i, x.h.s, code), down := End(x.down, x.h.s))
    case HeaderErr(code) =>
      x.(view := x.view.(upstreamDone := true), h := Relayed(x.h.i, x.h.s, code), down := End(x.down, x.h.s),
         bufs := Freed(x.bufs, x.h.m))
    case HeaderUnsent(code) => x.(h := Relayed(x.h.i, x.h.s, code), bufs := Freed(x.bufs, x.h.m))
    case HeaderSent =>
      x.(h := Delivering(x.h.i, x.h.s, x.h.m), view := ForwardHeader(x.view, x.h.s, true))
    case Deliver(ok, observed, code) =>
      var v := if observed then x.view.(seen := x.view.seen + [Message(x.h.s, x.h.m)], shown := x.view.shown + 1) else x.view;
      x.(bufs := Freed(Marshalled(x.bufs, x.h.m), x.h.m),
         view := if ok then v.(sentMsg := true) else v,
         h := if ok then Receiving(x.h.i, x.h.s) else Relayed(x.h.i, x.h.s, code))
    case EndHeader(sent) => x.(view := ForwardHeader(x.view, x.h.s, sent), h := Relayed(x.h.i, x.h.s, OK))
    case DecideRelay(ctxErr, budget) =>
      if x.h.code != OK && CanRetry(c, x, x.h.code, x.h.i, false, ctxErr, budget)
      then x.(tally := x.tally.(lastErr := Some(x.h.code)), h := Choosing(x.h.i + 1))
      else x.(h := Closing(x.h.i, x.h.s, x.h.code))
    case Close(sent) =>
      var v := ForwardHeader(x.view, x.h.s, sent);
      Return(if x.view.upstreamDone then x.(view := v.(seen := v.seen + [Trailer(x.h.s)], trailed := true)) else x,
             Upstream(x.h.code))
    case _ => x
  }

  function PumpStep(c: Rpc, x: State, a: Action): State
    requires Enabled(c, x, a)
  {
    match a
    case PumpMsg => x.(bufs := Received(x.bufs), client := x.client + [|x.bufs|], pump := GotMsg(|x.bufs|))
    case PumpEnd(eof) => x.(pump := GotEnd(eof))
    case PumpLockMsg => x.(mu := x.mu.(committed := true), pump := Sending(x.pump.m, x.mu.cs.value))
    case PumpLockEnd =>
      if x.pump.eof then x.(mu := x.mu.(halfClosed := true), pump := HalfClosing(x.mu.cs.value))
      else x.(mu := x.mu.(committed := true), pump := Stopped)
    case PumpSend(ok) =>
      var s, m := x.pump.s, x.pump.m;
      x.(up := Offer(x.up, s, m, ok), bufs := Freed(Marshalled(x.bufs, m), m), pump := if ok then Reading else Stopped)
    case PumpCloseSend => x.(up := CloseSend(x.up, x.pump.s), pump := Stopped)
    case WireFree(b) =>
      x.(bufs := x.bufs[b := x.bufs[b].(refs := x.bufs[b].refs - 1, wire := x.bufs[b].wire - 1)])
    case _ => x
  }

  datatype Phase = InLoop | InInstall | InRelay | InPump

  function PhaseOf(a: Action): Phase {
    match a
    case FirstMsg | FirstEOF | FirstErr(_) | Reserve(_) | FallThrough | Lock | DecideSetup(_, _) => InLoop
    case Dial(_, _) | Replay(_, _, _) | Recover(_, _) | Publish => InInstall
    case PumpMsg | PumpEnd(_) | PumpLockMsg | PumpLockEnd | PumpSend(_) | PumpCloseSend | WireFree(_) => InPump
    case _ => InRelay
  }

  function Step(c: Rpc, x: State, a: Action): State
    requires Enabled(c, x, a)
  {
    match PhaseOf(a)
    case InLoop => LoopStep(c, x, a)
    case InInstall => InstallStep(c, x, a)
    case InRelay => RelayStep(c, x, a)
    case InPump => PumpStep(c, x, a)
  }

  function Init(): State {
    State(Starting, Idle, None, Shared(None, false, false), [], [], [], [],
          View(false, false, false, [], 0, false), Tally(None, 0, 0))
  }
}
