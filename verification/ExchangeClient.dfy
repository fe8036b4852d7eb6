/** What the downstream client sees, and how many attempts and backends an RPC gets to. */
module ExchangeClient {
  import opened StatusCodes
  import opened Exchange
  import opened ExchangeSafety

  // ----- the client's view

  function MessagesOf(s: StreamId, ms: seq<Buf>): seq<Seen> {
    seq(|ms|, i requires 0 <= i < |ms| => Message(s, ms[i]))
  }

  /** A header if there was one, then messages, then the trailer if there was one, all of stream `s`. */
  function Transcript(s: StreamId, header: bool, ms: seq<Buf>, trailer: bool): seq<Seen> {
    (if header then [Header(s)] else []) + MessagesOf(s, ms) + (if trailer then [Trailer(s)] else [])
  }

  lemma TranscriptMessage(s: StreamId, header: bool, ms: seq<Buf>, m: Buf)
    ensures Transcript(s, header, ms + [m], false) == Transcript(s, header, ms, false) + [Message(s, m)]
  {
    assert MessagesOf(s, ms + [m]) == MessagesOf(s, ms) + [Message(s, m)];
  }

  ghost predicate Fits(v: View, s: StreamId, produced: seq<Buf>) {
    && v.shown <= |produced|
    && v.seen == Transcript(s, v.sentHeader, produced[..v.shown], v.trailed)
    && (v.shown > 0 ==> v.sentHeader)
  }

  /** Where the relay stands with the messages its stream produced. */
  ghost predicate Progress(h: Handler, v: View, d: Down) {
    && (During(h) ==> !v.trailed)
    && (h.Receiving? ==> v.shown == |d.produced| && !v.upstreamDone)
    && (h.Heading? ==> !v.sentHeader && !v.upstreamDone && d.produced != []
                       && v.shown == |d.produced| - 1 && d.produced[v.shown] == h.m)
    && (h.Delivering? ==> v.sentHeader && !v.upstreamDone && d.produced != []
                          && v.shown == |d.produced| - 1 && d.produced[v.shown] == h.m)
    && (h.Ending? ==> v.upstreamDone)
    && (During(h) ==> (v.upstreamDone <==> d.ended))
    && (v.trailed ==> d.ended)
  }

  ghost predicate Untouched(v: View) {
    !v.sentHeader && !v.sentMsg && v.seen == [] && v.shown == 0 && !v.trailed
  }

  ghost predicate Viewed(x: State) {
    && (Before(x.h) ==> Untouched(x.view))
    && (x.view.sentMsg ==> x.view.sentHeader)
    && (x.mu.cs.Some? && x.mu.cs.value < |x.down| ==>
          && Fits(x.view, x.mu.cs.value, x.down[x.mu.cs.value].produced)
          && Progress(x.h, x.view, x.down[x.mu.cs.value]))
    && (x.mu.cs.None? ==> Untouched(x.view))
    && (Setting(x.h) && x.h.s < |x.down| ==> x.down[x.h.s] == Down([], false))
  }

  lemma ViewedLoop(c: Rpc, x: State, a: Action)
    requires c.n >= 1 && Control(c, x) && Viewed(x) && Enabled(c, x, a) && PhaseOf(a) == InLoop
    ensures Viewed(LoopStep(c, x, a))
  {
    LoopFrame(c, x, a);
    hide Fits;
    if !x.h.Starting? { hide LoopStep; }
  }

  lemma ViewedInstall(c: Rpc, x: State, a: Action)
    requires Control(c, x) && Viewed(x) && Enabled(c, x, a) && PhaseOf(a) == InInstall
    ensures Viewed(InstallStep(c, x, a))
  {
    hide Freed, Marshalled, Received, Offer;
    assert Untouched(x.view) ==> forall s: StreamId, p: seq<Buf> :: Fits(x.view, s, p);
  }

  lemma ViewedPump(c: Rpc, x: State, a: Action)
    requires Control(c, x) && Viewed(x) && Enabled(c, x, a) && PhaseOf(a) == InPump
    ensures Viewed(PumpStep(c, x, a))
  {
    hide Freed, Marshalled, Received, Offer, CloseSend, Fits, Progress;
  }

  /** Nothing is seen of an RPC whose header was not sent, and so nothing when it is retried. */
  lemma UnsentUnseen(v: View, s: StreamId, produced: seq<Buf>)
    requires Fits(v, s, produced) && !v.sentHeader && !v.trailed
    ensures v.seen == [] && v.shown == 0
  {}

  lemma FitsHeader(v: View, s: StreamId, produced: seq<Buf>)
    requires Fits(v, s, produced) && !v.sentHeader && !v.trailed
    ensures Fits(v.(sentHeader := true, seen := v.seen + [Header(s)]), s, produced)
  {
    assert MessagesOf(s, produced[..0]) == [];
  }

  lemma FitsMessage(v: View, s: StreamId, produced: seq<Buf>)
    requires Fits(v, s, produced) && v.sentHeader && !v.trailed && v.shown < |produced|
    ensures Fits(v.(seen := v.seen + [Message(s, produced[v.shown])], shown := v.shown + 1), s, produced)
  {
    TranscriptMessage(s, true, produced[..v.shown], produced[v.shown]);
    assert produced[..v.shown] + [produced[v.shown]] == produced[..v.shown + 1];
  }

  lemma FitsTrailer(v: View, s: StreamId, produced: seq<Buf>)
    requires Fits(v, s, produced) && !v.trailed
    ensures Fits(v.(seen := v.seen + [Trailer(s)], trailed := true), s, produced)
  {}

  /** The view depends on its flags no further than Fits says. */
  lemma FitsFlags(v: View, w: View, s: StreamId, produced: seq<Buf>)
    requires Fits(v, s, produced) && w == v.(sentMsg := w.sentMsg, upstreamDone := w.upstreamDone)
    ensures Fits(w, s, produced)
  {}

  lemma FitsMore(v: View, s: StreamId, produced: seq<Buf>, m: Buf)
    requires Fits(v, s, produced)
    ensures Fits(v, s, produced + [m])
  {
    assert (produced + [m])[..v.shown] == produced[..v.shown];
  }

  lemma ViewedRecv(c: Rpc, x: State, a: Action)
    requires Control(c, x) && Viewed(x) && Enabled(c, x, a) && (a.RecvMsg? || a.RecvEOF? || a.RecvErr?)
    ensures Viewed(RelayStep(c, x, a))
  {
    if a.RecvMsg? { ViewedMessage(c, x, a); } else { ViewedLast(c, x, a); }
    hide RelayStep, Viewed, Enabled;
  }

  lemma ViewedMessage(c: Rpc, x: State, a: Action)
    requires Control(c, x) && Viewed(x) && Enabled(c, x, a) && a.RecvMsg?
    ensures Viewed(RelayStep(c, x, a))
  {
    hide Received, Fits;
    FitsMore(x.view, x.h.s, x.down[x.h.s].produced, |x.bufs|);
  }

  lemma ViewedLast(c: Rpc, x: State, a: Action)
    requires Control(c, x) && Viewed(x) && Enabled(c, x, a) && (a.RecvEOF? || a.RecvErr?)
    ensures Viewed(RelayStep(c, x, a))
  {
    hide Received, Fits;
    FitsFlags(x.view, x.view.(upstreamDone := true), x.h.s, x.down[x.h.s].produced);
  }

  lemma ViewedHeader(c: Rpc, x: State, a: Action)
    requires Control(c, x) && Viewed(x) && Enabled(c, x, a) && (a.HeaderErr? || a.HeaderUnsent? || a.HeaderSent?)
    ensures Viewed(RelayStep(c, x, a))
  {
    hide Freed, Fits;
    var s := x.h.s;
    FitsHeader(x.view, s, x.down[s].produced);
    FitsFlags(x.view, x.view.(upstreamDone := true), s, x.down[s].produced);
  }

  lemma ViewedDeliver(c: Rpc, x: State, a: Action)
    requires Control(c, x) && Viewed(x) && Enabled(c, x, a) && a.Deliver?
    ensures Viewed(RelayStep(c, x, a))
  {
    hide Freed, Marshalled, Fits;
    var s := x.h.s;
    FitsMessage(x.view, s, x.down[s].produced);
    var v := x.view.(seen := x.view.seen + [Message(s, x.h.m)], shown := x.view.shown + 1);
    FitsFlags(v, v.(sentMsg := true), s, x.down[s].produced);
    UnfinishedShown(x.view, s, x.down[s].produced);
  }

  lemma UnfinishedShown(v: View, s: StreamId, produced: seq<Buf>)
    requires Fits(v, s, produced)
    ensures v.shown <= |produced|
  {}

  lemma ViewedEnd(c: Rpc, x: State, a: Action)
    requires Control(c, x) && Viewed(x) && Enabled(c, x, a) && (a.EndHeader? || a.DecideRelay?)
    ensures Viewed(RelayStep(c, x, a))
  {
    hide Freed, Fits;
    var s := x.h.s;
    if !x.view.sentHeader {
      UnsentUnseen(x.view, s, x.down[s].produced);
      FitsHeader(x.view, s, x.down[s].produced);
    }
  }

  lemma ViewedClose(c: Rpc, x: State, a: Action)
    requires Control(c, x) && Viewed(x) && Enabled(c, x, a) && a.Close?
    ensures Viewed(RelayStep(c, x, a))
  {
    hide Freed, Fits;
    var s := x.h.s;
    var p, v := x.down[s].produced, ForwardHeader(x.view, s, a.sent);
    if !x.view.sentHeader { FitsHeader(x.view, s, p); }
    FitsTrailer(v, s, p);
  }

  lemma ViewedRelay(c: Rpc, x: State, a: Action)
    requires Control(c, x) && Viewed(x) && Enabled(c, x, a) && PhaseOf(a) == InRelay
    ensures Viewed(RelayStep(c, x, a))
  {
    hide Viewed, Control, RelayStep;
    if a.RecvMsg? || a.RecvEOF? || a.RecvErr? {
      ViewedRecv(c, x, a);
    } else if a.HeaderErr? || a.HeaderUnsent? || a.HeaderSent? {
      ViewedHeader(c, x, a);
    } else if a.Deliver? {
      ViewedDeliver(c, x, a);
    } else if a.Close? {
      ViewedClose(c, x, a);
    } else {
      ViewedEnd(c, x, a);
    }
  }

  // ----- success is complete

  /** The stream ended in order, and everything it produced has been passed on. */
  ghost predicate Relieved(v: View, d: Down) {
    v.upstreamDone && d.ended && v.shown == |d.produced|
  }

  /** Code OK is only ever reached through the orderly end of the installed stream. */
  ghost predicate Complete(x: State) {
    && (x.h.SetupFailed? ==> x.h.code != OK)
    && (x.tally.lastErr.Some? ==> x.tally.lastErr.value != OK)
    && ((x.h.Ending? || ((x.h.Relayed? || x.h.Closing?) && x.h.code == OK)) && x.h.s < |x.down| ==>
          Relieved(x.view, x.down[x.h.s]))
    && (x.h == Returned(Upstream(OK)) ==>
          && x.mu.cs.Some? && x.mu.cs.value < |x.down|
          && Relieved(x.view, x.down[x.mu.cs.value]) && x.view.trailed)
  }

  lemma CompleteLoop(c: Rpc, x: State, a: Action)
    requires c.n >= 1 && Control(c, x) && Complete(x) && Enabled(c, x, a) && PhaseOf(a) == InLoop
    ensures Complete(LoopStep(c, x, a))
  {
    hide Freed, Received;
  }

  lemma CompleteInstall(c: Rpc, x: State, a: Action)
    requires Control(c, x) && Complete(x) && Enabled(c, x, a) && PhaseOf(a) == InInstall
    ensures Complete(InstallStep(c, x, a))
  {
    hide Freed, Marshalled, Received, Offer, CloseSend, End;
  }

  lemma CompleteRelay(c: Rpc, x: State, a: Action)
    requires Control(c, x) && Viewed(x) && Complete(x) && Enabled(c, x, a) && PhaseOf(a) == InRelay
    ensures Complete(RelayStep(c, x, a))
  {
    hide Freed, Marshalled, Received, Fits, CanRetry;
  }

  lemma CompletePump(c: Rpc, x: State, a: Action)
    requires Control(c, x) && Complete(x) && Enabled(c, x, a) && PhaseOf(a) == InPump
    ensures Complete(PumpStep(c, x, a))
  {
    hide Freed, Marshalled, Received, Offer, CloseSend;
  }
}
