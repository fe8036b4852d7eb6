/** The guarantees of one proxied RPC, over every interleaving of handler and pump and every behaviour of
    the client and the backends. */
module ExchangeTheorems {
  import opened StatusCodes
  import opened Exchange
  import opened ExchangeSafety
  import opened ExchangeClient
  import opened ExchangeAttempts

  ghost predicate Inv(c: Rpc, x: State) {
    Control(c, x) && Messages(x) && HalfClose(x) && Viewed(x) && Complete(x) && Tried(c, x) && Reach(c, x)
    && Buffers(x)
  }

  lemma StepKeeps(c: Rpc, x: State, a: Action)
    requires c.n >= 1 && Inv(c, x) && Enabled(c, x, a)
    ensures Inv(c, Step(c, x, a))
  {
    hide Control, Messages, HalfClose, Viewed, Complete, Tried, Reach, Buffers, LoopStep, InstallStep, RelayStep, PumpStep, Enabled;
    match PhaseOf(a) {
      case InLoop =>
        ControlLoop(c, x, a); MessagesLoop(c, x, a); HalfCloseLoop(c, x, a);
        ViewedLoop(c, x, a); CompleteLoop(c, x, a); TriedLoop(c, x, a); ReachLoop(c, x, a); BuffersLoop(c, x, a);
      case InInstall =>
        ControlInstall(c, x, a); MessagesInstall(c, x, a); HalfCloseInstall(c, x, a);
        ViewedInstall(c, x, a); CompleteInstall(c, x, a); TriedInstall(c, x, a); ReachInstall(c, x, a); BuffersInstall(c, x, a);
      case InRelay =>
        ControlRelay(c, x, a); MessagesRelay(c, x, a); HalfCloseRelay(c, x, a);
        ViewedRelay(c, x, a); CompleteRelay(c, x, a); TriedRelay(c, x, a); ReachRelay(c, x, a); BuffersRelay(c, x, a);
      case InPump =>
        ControlPump(c, x, a); MessagesPump(c, x, a); HalfClosePump(c, x, a);
        ViewedPump(c, x, a); CompletePump(c, x, a); TriedPump(c, x, a); ReachPump(c, x, a); BuffersPump(c, x, a);
    }
  }

  // ----- runs

  predicate Legal(c: Rpc, x: State, acts: seq<Action>)
    decreases |acts|
  {
    acts == [] || (Enabled(c, x, acts[0]) && Legal(c, Step(c, x, acts[0]), acts[1..]))
  }

  function Replayed(c: Rpc, x: State, acts: seq<Action>): State
    requires Legal(c, x, acts)
    decreases |acts|
  {
    if acts == [] then x else Replayed(c, Step(c, x, acts[0]), acts[1..])
  }

  lemma {:induction false} RunKeeps(c: Rpc, x: State, acts: seq<Action>)
    requires c.n >= 1 && Inv(c, x) && Legal(c, x, acts)
    ensures Inv(c, Replayed(c, x, acts))
    decreases |acts|
  {
    if acts != [] {
      StepKeeps(c, x, acts[0]);
      RunKeeps(c, Step(c, x, acts[0]), acts[1..]);
    }
  }

  lemma Reachable(c: Rpc, acts: seq<Action>)
    requires c.n >= 1 && Legal(c, Init(), acts)
    ensures Inv(c, Replayed(c, Init(), acts))
  {
    RunKeeps(c, Init(), acts);
  }

  // ----- the guarantees

  /** A retry never loses, reorders or splits the client's messages: what any stream was offered is a prefix
      of what the client sent, what it accepted a prefix of that; only the stream installed last was offered
      more than the first message; and that one was offered everything but what the pump still holds. */
  lemma RetriesKeepTheMessages(c: Rpc, acts: seq<Action>)
    requires c.n >= 1 && Legal(c, Init(), acts)
    ensures var x := Replayed(c, Init(), acts);
            && (forall k :: 0 <= k < |x.up| ==>
                  && x.up[k].accepted <= x.up[k].offered <= x.client
                  && (|x.up[k].offered| > 1 ==> x.mu.cs == Some(k)))
            && (x.mu.cs.Some? ==>
                  x.mu.cs.value < |x.up| && x.client == x.up[x.mu.cs.value].offered + Hand(x.pump))
  {
    Reachable(c, acts);
    var x := Replayed(c, Init(), acts);
    forall k | 0 <= k < |x.up| ensures x.up[k].offered <= x.client && (|x.up[k].offered| > 1 ==> x.mu.cs == Some(k)) {
      assert x.mu.cs == Some(k) || x.up[k].offered <= Base(x);
    }
  }

  /** Everything the client observes comes from the one stream installed last: at most one header, before
      any message, then a prefix of the messages that stream produced, in order, then a trailer only if
      that stream had reported its end. */
  lemma ClientSeesOneStream(c: Rpc, acts: seq<Action>)
    requires c.n >= 1 && Legal(c, Init(), acts)
    ensures var x := Replayed(c, Init(), acts);
            x.view.seen != [] ==>
              && x.mu.cs.Some? && x.mu.cs.value < |x.down|
              && x.view.shown <= |x.down[x.mu.cs.value].produced|
              && x.view.seen == Transcript(x.mu.cs.value, x.view.sentHeader,
                                           x.down[x.mu.cs.value].produced[..x.view.shown], x.view.trailed)
              && (x.view.shown > 0 ==> x.view.sentHeader)
              && (x.view.trailed ==> x.down[x.mu.cs.value].ended)
  {
    Reachable(c, acts);
  }

  /** An RPC that returns OK is complete: the installed stream ended in order, the client was shown every message
      it produced, and then its trailer. */
  lemma SuccessIsComplete(c: Rpc, acts: seq<Action>)
    requires c.n >= 1 && Legal(c, Init(), acts)
    ensures var x := Replayed(c, Init(), acts);
            x.h == Returned(Upstream(OK)) ==>
              && x.mu.cs.Some? && x.mu.cs.value < |x.down| && x.down[x.mu.cs.value].ended
              && x.view.seen == Transcript(x.mu.cs.value, x.view.sentHeader, x.down[x.mu.cs.value].produced, true)
  {
    Reachable(c, acts);
    hide Legal, Replayed, Messages, HalfClose, Tried, Reach, Buffers;
    var x := Replayed(c, Init(), acts);
    if x.h == Returned(Upstream(OK)) {
      var p := x.down[x.mu.cs.value].produced;
      assert p[..x.view.shown] == p;
    }
  }

  /** No attempt starts once the client has seen anything. */
  lemma NoAttemptAfterDelivery(c: Rpc, acts: seq<Action>, a: Action)
    requires c.n >= 1 && Legal(c, Init(), acts) && Enabled(c, Replayed(c, Init(), acts), a)
    requires a.Reserve? || a.Lock? || a.Dial? || a.Replay? || a.Publish?
    ensures Replayed(c, Init(), acts).view.seen == []
  {
    Reachable(c, acts);
  }

  /** Half-close is forwarded exactly: no stream gets CloseSend twice, none before the client's EOF was
      processed, and once it was and the pump has nothing left to do the installed stream has been closed,
      whichever of pump and install came first. */
  lemma HalfCloseForwardedOnce(c: Rpc, acts: seq<Action>)
    requires c.n >= 1 && Legal(c, Init(), acts)
    ensures var x := Replayed(c, Init(), acts);
            && (forall k :: 0 <= k < |x.up| ==> x.up[k].closes <= if x.mu.halfClosed then 1 else 0)
            && (x.mu.halfClosed && x.mu.cs.Some? && !x.pump.HalfClosing? ==>
                  x.mu.cs.value < |x.up| && x.up[x.mu.cs.value].closes == 1)
  {
    Reachable(c, acts);
  }

  /** Under the policies none and connect-failure at most one attempt gets past install, and the first
      message is accepted by at most one backend. Under none there is only one attempt at all. */
  lemma FirstMessageAcceptedOnce(c: Rpc, acts: seq<Action>)
    requires c.n >= 1 && Legal(c, Init(), acts) && c.policy != RetryUnavailable
    ensures var x := Replayed(c, Init(), acts);
            && x.tally.published <= 1
            && (c.policy == RetryNone ==> x.tally.attempts <= 1)
            && (forall j, k :: 0 <= j < |x.up| && 0 <= k < |x.up| && x.up[j].accepted != [] && x.up[k].accepted != [] ==> j == k)
  {
    Reachable(c, acts);
  }

  /** Every RPC whose first receive did not fail makes at least one attempt and at most one per candidate, and
      neither use of the "no backends available" fallback in run is ever reached. */
  lemma FallbackUnreachable(c: Rpc, acts: seq<Action>)
    requires c.n >= 1 && Legal(c, Init(), acts)
    ensures var x := Replayed(c, Init(), acts);
            && !Enabled(c, x, FallThrough)
            && x.h != Returned(NoBackends)
            && x.tally.attempts <= c.n
            && (x.h.Returned? && (x.first.Some? || x.mu.halfClosed) ==> x.tally.attempts >= 1)
  {
    Reachable(c, acts);
    hide Legal, Replayed, Messages, HalfClose, Viewed, Complete, Reach, Buffers;
  }

  /** The buffers a step hands to SendMsg or frees. */
  function Uses(x: State, a: Action): Option<Buf> {
    match a
    case Replay(_, _, _) => x.first
    case Deliver(_, _, _) => RelayBuf(x.h)
    case HeaderErr(_) => RelayBuf(x.h)
    case HeaderUnsent(_) => RelayBuf(x.h)
    case PumpSend(_) => PumpBuf(x.pump)
    case _ => None
  }

  /** No buffer is used after the proxy gave up its reference, no reference is given up twice, a count
      never drops below what gRPC still holds, and when both goroutines are done every buffer ever received
      has been released exactly once. */
  lemma BuffersReleasedOnce(c: Rpc, acts: seq<Action>, a: Action)
    requires c.n >= 1 && Legal(c, Init(), acts) && Enabled(c, Replayed(c, Init(), acts), a)
    ensures var x := Replayed(c, Init(), acts);
            && (Uses(x, a).Some? ==>
                  var b := Uses(x, a).value; b < |x.bufs| && x.bufs[b].frees == 0 && x.bufs[b].refs >= 1)
            && (forall b :: 0 <= b < |x.bufs| ==> x.bufs[b].frees <= 1 && x.bufs[b].refs >= x.bufs[b].wire >= 0)
            && (x.h.Returned? && (x.pump.Idle? || x.pump.Stopped?) ==>
                  forall b :: 0 <= b < |x.bufs| ==> x.bufs[b].frees == 1 && x.bufs[b].refs == x.bufs[b].wire)
  {
    Reachable(c, acts);
    hide Legal, Replayed, Control, Messages, HalfClose, Viewed, Complete, Tried, Reach;
    BufferFacts(c, Replayed(c, Init(), acts), a);
  }

  lemma BufferFacts(c: Rpc, x: State, a: Action)
    requires Buffers(x) && Enabled(c, x, a)
    ensures Uses(x, a).Some? ==>
              var b := Uses(x, a).value; b < |x.bufs| && x.bufs[b].frees == 0 && x.bufs[b].refs >= 1
    ensures forall b :: 0 <= b < |x.bufs| ==> x.bufs[b].frees <= 1 && x.bufs[b].refs >= x.bufs[b].wire >= 0
    ensures x.h.Returned? && (x.pump.Idle? || x.pump.Stopped?) ==>
              forall b :: 0 <= b < |x.bufs| ==> x.bufs[b].frees == 1 && x.bufs[b].refs == x.bufs[b].wire
  {}

  // ----- the policy `unavailable` is weaker

  lemma {:induction false} Compose(c: Rpc, x: State, p: seq<Action>, q: seq<Action>)
    requires Legal(c, x, p) && Legal(c, Replayed(c, x, p), q)
    ensures Legal(c, x, p + q) && Replayed(c, x, p + q) == Replayed(c, Replayed(c, x, p), q)
    decreases |p|
  {
    if p == [] {
      assert p + q == q;
    } else {
      assert (p + q)[1..] == p[1..] + q;
      Compose(c, Step(c, x, p[0]), p[1..], q);
    }
  }

  lemma One(c: Rpc, x: State, a: Action)
    requires Enabled(c, x, a)
    ensures Legal(c, x, [a]) && Replayed(c, x, [a]) == Step(c, x, a)
  {
    assert [a][1..] == [];
  }

  lemma OfferFresh(up: seq<Up>, m: Buf)
    ensures Offer(up + [Up([], [], 0)], |up|, m, true) == up + [Up([m], [m], 0)]
  {
    assert [] + [m] == [m];
  }

  lemma ReserveAndLock(c: Rpc, x: State)
    requires x.h.Choosing? && x.h.i < c.n && !x.mu.committed
    ensures Legal(c, x, [Reserve(true)] + [Lock])
    ensures Replayed(c, x, [Reserve(true)] + [Lock])
         == x.(h := Dialing(x.h.i), tally := x.tally.(attempts := x.tally.attempts + 1))
  {
    var x1 := x.(h := Locking(x.h.i), tally := x.tally.(attempts := x.tally.attempts + 1));
    assert Step(c, x, Reserve(true)) == x1;
    One(c, x, Reserve(true));
    One(c, x1, Lock);
    Compose(c, x, [Reserve(true)], [Lock]);
  }

  lemma DialAndReplay(c: Rpc, x: State)
    requires x.h.Dialing? && x.first.Some?
    ensures Legal(c, x, [Dial(true, OK)] + [Replay(true, false, OK)])
    ensures var y := Replayed(c, x, [Dial(true, OK)] + [Replay(true, false, OK)]);
            && y.h == Publishing(x.h.i, |x.up|) && y.mu == x.mu && y.view == x.view && y.first == x.first
            && y.up == x.up + [Up([x.first.value], [x.first.value], 0)]
  {
    var x1 := x.(up := x.up + [Up([], [], 0)], down := x.down + [Down([], false)], h := Replaying(x.h.i, |x.up|));
    assert Step(c, x, Dial(true, OK)) == x1;
    One(c, x, Dial(true, OK));
    One(c, x1, Replay(true, false, OK));
    Compose(c, x, [Dial(true, OK)], [Replay(true, false, OK)]);
    OfferFresh(x.up, x.first.value);
  }

  /** An attempt that gets its first message accepted takes these four steps. */
  lemma Accepted(c: Rpc, x: State) returns (acts: seq<Action>)
    requires x.h.Choosing? && x.h.i < c.n && !x.mu.committed && x.first.Some?
    ensures Legal(c, x, acts)
    ensures var y := Replayed(c, x, acts);
            && y.h == Publishing(x.h.i, |x.up|) && y.mu == x.mu && y.view == x.view && y.first == x.first
            && y.up == x.up + [Up([x.first.value], [x.first.value], 0)]
  {
    var x1 := x.(h := Locking(x.h.i), tally := x.tally.(attempts := x.tally.attempts + 1));
    var x2 := x1.(h := Dialing(x.h.i));
    ReserveAndLock(c, x);
    DialAndReplay(c, x2);
    hide Legal, Replayed, Step, Enabled;
    Compose(c, x, [Reserve(true)] + [Lock], [Dial(true, OK)] + [Replay(true, false, OK)]);
    acts := ([Reserve(true)] + [Lock]) + ([Dial(true, OK)] + [Replay(true, false, OK)]);
  }

  /** The published stream fails with Unavailable before producing anything, and the policy allows a retry. */
  lemma Retried(c: Rpc, x: State) returns (acts: seq<Action>)
    requires x.h.Publishing? && x.h.i + 1 < c.n && c.policy == RetryUnavailable
    requires !x.mu.committed && !x.mu.halfClosed && !x.view.sentHeader && !x.view.sentMsg
    ensures Legal(c, x, acts)
    ensures var y := Replayed(c, x, acts);
            y.h == Choosing(x.h.i + 1) && !y.mu.committed && y.first == x.first && y.up == x.up
  {
    var i, s := x.h.i, x.h.s;
    var x1 := Step(c, x, Publish);
    var x2 := x1.(view := x1.view.(upstreamDone := true), h := Relayed(i, s, Unavailable), down := End(x1.down, s));
    One(c, x, Publish);
    One(c, x1, RecvErr(Unavailable));
    One(c, x2, DecideRelay(false, true));
    hide Legal, Replayed, Step, Enabled;
    Compose(c, x1, [RecvErr(Unavailable)], [DecideRelay(false, true)]);
    Compose(c, x, [Publish], [RecvErr(Unavailable)] + [DecideRelay(false, true)]);
    acts := [Publish] + ([RecvErr(Unavailable)] + [DecideRelay(false, true)]);
  }

  /** The bound of FirstMessageAcceptedOnce is tight: under `unavailable`, with two candidates or more, there is
      a run in which two backends accept the first message. */
  lemma UnavailableMayDuplicate(c: Rpc) returns (acts: seq<Action>)
    requires c.policy == RetryUnavailable && c.n >= 2
    ensures Legal(c, Init(), acts)
    ensures var x := Replayed(c, Init(), acts);
            |x.up| == 2 && x.up[0].accepted != [] && x.up[1].accepted != []
  {
    var x1 := Step(c, Init(), FirstMsg);
    One(c, Init(), FirstMsg);
    assert x1.h == Choosing(0) && x1.first == Some(0) && x1.mu == Shared(None, false, false) && x1.up == []
           && !x1.view.sentHeader && !x1.view.sentMsg;
    hide Legal, Replayed, Step, Enabled;
    var a := Accepted(c, x1);
    var x2 := Replayed(c, x1, a);
    var b := Retried(c, x2);
    var x3 := Replayed(c, x2, b);
    var d := Accepted(c, x3);
    Compose(c, x2, b, d);
    Compose(c, x1, a, b + d);
    Compose(c, Init(), [FirstMsg], a + (b + d));
    acts := [FirstMsg] + (a + (b + d));
  }

  /** Two different streams took the first message. */
  predicate Duplicated(x: State) {
    exists j, k :: 0 <= j < k < |x.up| && x.up[j].accepted != [] && x.up[k].accepted != []
  }

  /** Exactly when can two backends accept the first message of one RPC: under the policy `unavailable` with at
      least two candidates, and in no other configuration. */
  lemma DuplicatesExactlyWhen(c: Rpc)
    requires c.n >= 1
    ensures (exists acts :: Legal(c, Init(), acts) && Duplicated(Replayed(c, Init(), acts)))
            <==> c.policy == RetryUnavailable && c.n >= 2
  {
    if c.policy == RetryUnavailable && c.n >= 2 {
      var acts := UnavailableMayDuplicate(c);
      hide Legal, Replayed;
      assert Duplicated(Replayed(c, Init(), acts));
    } else {
      hide Legal, Replayed, Duplicated;
      forall acts | Legal(c, Init(), acts) ensures !Duplicated(Replayed(c, Init(), acts)) {
        NoDuplicate(c, acts);
      }
    }
  }

  lemma NoDuplicate(c: Rpc, acts: seq<Action>)
    requires c.n >= 1 && Legal(c, Init(), acts) && (c.policy != RetryUnavailable || c.n == 1)
    ensures !Duplicated(Replayed(c, Init(), acts))
  {
    hide Legal, Replayed, Messages, HalfClose, Viewed, Complete, Buffers;
    Reachable(c, acts);
    if c.policy != RetryUnavailable { FirstMessageAcceptedOnce(c, acts); }
  }
}
