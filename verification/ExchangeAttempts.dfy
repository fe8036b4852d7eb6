/** How many attempts an RPC makes, how many backends it can reach, and who owns which buffer. */
module ExchangeAttempts {
  import opened Exchange
  import opened ExchangeSafety

  // ----- attempts

  ghost predicate Tried(c: Rpc, x: State) {
    var t := x.tally;
    && (t.published > 0 <==> x.mu.cs.Some?)
    && (Before(x.h) && x.mu.cs.Some? ==> t.lastErr.Some?)
    && (x.h.Returned? ==> x.h.status.Upstream?)
    && (x.h.Starting? || x.h.Choosing? || x.h.Returned? || t.attempts >= 1)
    && (x.h.Returned? && t.attempts == 0 ==> x.first.None? && !x.mu.halfClosed)
    && (x.h.Starting? || x.h.Returned? || x.first.Some? || x.mu.halfClosed)
    && (x.mu.cs.Some? ==> t.attempts >= 1)
    && t.attempts <= c.n
    && (!x.h.Starting? && !x.h.Returned? ==> t.attempts <= x.h.i + if x.h.Choosing? then 0 else 1)
    && (x.h.Starting? ==> t.attempts == 0)
    && (x.h.Replaying? ==> x.first.Some?)
    && (c.policy == RetryNone ==> t.attempts <= if x.h.Choosing? then 0 else 1)
    && |x.up| + (if x.h.Locking? || x.h.Dialing? then 1 else 0) <= t.attempts
  }

  lemma TriedLoop(c: Rpc, x: State, a: Action)
    requires c.n >= 1 && Control(c, x) && Tried(c, x) && Enabled(c, x, a) && PhaseOf(a) == InLoop
    ensures Tried(c, LoopStep(c, x, a))
  {
    hide Freed, Received;
  }

  lemma TriedInstall(c: Rpc, x: State, a: Action)
    requires Control(c, x) && Tried(c, x) && Enabled(c, x, a) && PhaseOf(a) == InInstall
    ensures Tried(c, InstallStep(c, x, a))
  {
    hide Freed, Marshalled, Received;
  }

  lemma TriedRelay(c: Rpc, x: State, a: Action)
    requires Control(c, x) && Tried(c, x) && Enabled(c, x, a) && PhaseOf(a) == InRelay
    ensures Tried(c, RelayStep(c, x, a))
  {
    hide Freed, Marshalled, Received, Produce, End, ForwardHeader;
  }

  lemma TriedPump(c: Rpc, x: State, a: Action)
    requires Control(c, x) && Tried(c, x) && Enabled(c, x, a) && PhaseOf(a) == InPump
    ensures Tried(c, PumpStep(c, x, a))
  {
    hide Freed, Marshalled, Received;
  }

  // ----- reach: without the `unavailable` policy nothing is retried once a stream was published

  ghost predicate Reach(c: Rpc, x: State) {
    c.policy != RetryUnavailable ==>
      && x.tally.published <= (if Before(x.h) then 0 else 1)
      && (forall k :: 0 <= k < |x.up| && x.up[k].accepted != [] ==>
            x.mu.cs == Some(k) || (x.h.Publishing? && x.h.s == k))
  }

  lemma ReachLoop(c: Rpc, x: State, a: Action)
    requires c.n >= 1 && Control(c, x) && Reach(c, x) && Enabled(c, x, a) && PhaseOf(a) == InLoop
    ensures Reach(c, LoopStep(c, x, a))
  {
    LoopFrame(c, x, a);
    hide Freed, Received;
  }

  lemma ReachInstall(c: Rpc, x: State, a: Action)
    requires Control(c, x) && Messages(x) && Tried(c, x) && Reach(c, x) && Enabled(c, x, a) && PhaseOf(a) == InInstall
    ensures Reach(c, InstallStep(c, x, a))
  {
    hide Freed, Marshalled, Received, Messages;
  }

  lemma ReachRelay(c: Rpc, x: State, a: Action)
    requires Control(c, x) && Reach(c, x) && Enabled(c, x, a) && PhaseOf(a) == InRelay
    ensures Reach(c, RelayStep(c, x, a))
  {
    RelayFrame(c, x, a);
    hide Freed, Marshalled, Received, Produce, End, ForwardHeader;
  }

  lemma ReachPump(c: Rpc, x: State, a: Action)
    requires Control(c, x) && Reach(c, x) && Enabled(c, x, a) && PhaseOf(a) == InPump
    ensures Reach(c, PumpStep(c, x, a))
  {
    hide Freed, Marshalled, Received;
  }

  // ----- buffers

  /** The upstream message the relay holds. */
  function RelayBuf(h: Handler): Option<Buf> {
    match h
    case Heading(_, _, m) => Some(m)
    case Delivering(_, _, m) => Some(m)
    case _ => None
  }

  /** The buffered first message, which is owned until the handler returns. */
  function FirstBuf(x: State): Option<Buf> {
    if x.h.Returned? then None else x.first
  }

  /** A buffer has one proxy reference while it is in someone's hand and none afterwards, given back exactly
      once; whatever else the count says belongs to gRPC. */
  ghost predicate Right(r: Buffer, owned: bool) {
    && r.frees == (if owned then 0 else 1)
    && r.wire >= 0
    && r.refs == r.wire + (if owned then 1 else 0)
  }

  /** No buffer is in two hands, and every count is right. */
  ghost predicate Held(bufs: seq<Buffer>, f: Option<Buf>, p: Option<Buf>, r: Option<Buf>) {
    && (f.Some? ==> f.value < |bufs| && f != p && f != r)
    && (p.Some? ==> p.value < |bufs| && p != r)
    && (r.Some? ==> r.value < |bufs|)
    && (forall b :: 0 <= b < |bufs| ==> Right(bufs[b], f == Some(b) || p == Some(b) || r == Some(b)))
  }

  ghost predicate Buffers(x: State) {
    Held(x.bufs, FirstBuf(x), PumpBuf(x.pump), RelayBuf(x.h))
  }

  lemma HeldReceive(bufs: seq<Buffer>, f: Option<Buf>, p: Option<Buf>, r: Option<Buf>)
    requires Held(bufs, f, p, r)
    ensures f.None? ==> Held(Received(bufs), Some(|bufs|), p, r)
    ensures p.None? ==> Held(Received(bufs), f, Some(|bufs|), r)
    ensures r.None? ==> Held(Received(bufs), f, p, Some(|bufs|))
  {}

  lemma HeldFree(bufs: seq<Buffer>, f: Option<Buf>, p: Option<Buf>, r: Option<Buf>, m: Buf)
    requires Held(bufs, f, p, r)
    ensures f == Some(m) ==> Held(Freed(bufs, m), None, p, r)
    ensures p == Some(m) ==> Held(Freed(bufs, m), f, None, r)
    ensures r == Some(m) ==> Held(Freed(bufs, m), f, p, None)
  {}

  lemma HeldSend(bufs: seq<Buffer>, f: Option<Buf>, p: Option<Buf>, r: Option<Buf>, m: Buf)
    requires Held(bufs, f, p, r)
    ensures Held(Marshalled(bufs, m), f, p, r)
  {}

  lemma HeldWire(bufs: seq<Buffer>, f: Option<Buf>, p: Option<Buf>, r: Option<Buf>, b: Buf)
    requires Held(bufs, f, p, r) && b < |bufs| && bufs[b].wire > 0
    ensures Held(bufs[b := bufs[b].(refs := bufs[b].refs - 1, wire := bufs[b].wire - 1)], f, p, r)
  {}

  lemma BuffersLoop(c: Rpc, x: State, a: Action)
    requires c.n >= 1 && Control(c, x) && Buffers(x) && Enabled(c, x, a) && PhaseOf(a) == InLoop
    ensures Buffers(LoopStep(c, x, a))
  {
    hide Held, Freed, Received;
    var f, p, r := FirstBuf(x), PumpBuf(x.pump), RelayBuf(x.h);
    if a.FirstMsg? {
      HeldReceive(x.bufs, f, p, r);
    } else if x.first.Some? {
      HeldFree(x.bufs, f, p, r, x.first.value);
    }
  }

  lemma BuffersInstall(c: Rpc, x: State, a: Action)
    requires Control(c, x) && Buffers(x) && Enabled(c, x, a) && PhaseOf(a) == InInstall
    ensures Buffers(InstallStep(c, x, a))
  {
    hide Held, Freed, Received, Marshalled, Offer, CloseSend, End;
    var f, p, r := FirstBuf(x), PumpBuf(x.pump), RelayBuf(x.h);
    if a.Replay? {
      HeldSend(x.bufs, f, p, r, x.first.value);
    } else if a.Recover? {
      HeldReceive(x.bufs, f, p, r);
      HeldFree(Received(x.bufs), f, p, Some(|x.bufs|), |x.bufs|);
    }
  }

  lemma BuffersRelay(c: Rpc, x: State, a: Action)
    requires Control(c, x) && Buffers(x) && Enabled(c, x, a) && PhaseOf(a) == InRelay
    ensures Buffers(RelayStep(c, x, a))
  {
    hide Held, Freed, Received, Marshalled, Produce, End, ForwardHeader, CanRetry;
    var f, p, r := FirstBuf(x), PumpBuf(x.pump), RelayBuf(x.h);
    if a.RecvMsg? {
      HeldReceive(x.bufs, f, p, r);
    } else if a.HeaderErr? || a.HeaderUnsent? {
      HeldFree(x.bufs, f, p, r, x.h.m);
    } else if a.Deliver? {
      HeldSend(x.bufs, f, p, r, x.h.m);
      HeldFree(Marshalled(x.bufs, x.h.m), f, p, r, x.h.m);
    } else if a.Close? && x.first.Some? {
      HeldFree(x.bufs, f, p, r, x.first.value);
    }
  }

  lemma BuffersPump(c: Rpc, x: State, a: Action)
    requires Control(c, x) && Buffers(x) && Enabled(c, x, a) && PhaseOf(a) == InPump
    ensures Buffers(PumpStep(c, x, a))
  {
    hide Held, Freed, Received, Marshalled, Offer, CloseSend;
    var f, p, r := FirstBuf(x), PumpBuf(x.pump), RelayBuf(x.h);
    match a {
      case PumpMsg => HeldReceive(x.bufs, f, p, r);
      case PumpSend(_) =>
        HeldSend(x.bufs, f, p, r, x.pump.m);
        HeldFree(Marshalled(x.bufs, x.pump.m), f, p, r, x.pump.m);
      case WireFree(b) => HeldWire(x.bufs, f, p, r, b);
      case _ =>
    }
  }
}
