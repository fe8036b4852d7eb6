/** What every interleaving of handler and pump keeps. */
module ExchangeSafety {
  import opened Exchange

  // ----- phases

  /** Before the current attempt has published a stream. */
  predicate Before(h: Handler) {
    || h.Starting? || h.Choosing? || h.Locking? || h.Dialing? || h.Replaying? || h.Recovering? || h.Publishing?
    || h.SetupFailed?
  }

  /** The relay and what follows it. */
  predicate During(h: Handler) {
    h.Receiving? || h.Heading? || h.Delivering? || h.Ending? || h.Relayed? || h.Closing?
  }

  /** A stream is being set up and not yet published. */
  predicate Setting(h: Handler) {
    h.Replaying? || h.Recovering? || h.Publishing?
  }

  function Base(x: State): seq<Buf> {
    if x.first.Some? then [x.first.value] else []
  }

  /** The client message the pump has read and not yet handed on. */
  function PumpBuf(p: Pump): Option<Buf> {
    match p
    case GotMsg(m) => Some(m)
    case Sending(m, _) => Some(m)
    case _ => None
  }

  function Hand(p: Pump): seq<Buf> {
    if PumpBuf(p).Some? then [PumpBuf(p).value] else []
  }

  // ----- what each group of steps leaves alone

  ghost predicate SameSync(x: State, y: State) {
    y.pump == x.pump && y.mu == x.mu && y.up == x.up && |y.down| == |x.down|
  }

  /** The relay touches nothing the pump uses; it goes on with its stream, back to the loop, or returns. */
  lemma RelayFrame(c: Rpc, x: State, a: Action)
    requires Enabled(c, x, a) && PhaseOf(a) == InRelay
    ensures var y := RelayStep(c, x, a);
            && During(x.h) && SameSync(x, y) && y.first == x.first && y.client == x.client
            && ((During(y.h) && y.h.s == x.h.s && y.h.i == x.h.i)
                || (y.h == Choosing(x.h.i + 1) && x.h.i + 1 < c.n)
                || y.h.Returned?)
  {
    hide Freed, Marshalled, Received;
  }

  lemma LoopFrame(c: Rpc, x: State, a: Action)
    requires Enabled(c, x, a) && PhaseOf(a) == InLoop
    ensures var y := LoopStep(c, x, a);
            && Before(x.h) && !MuHeld(x) && y.view == x.view && y.down == x.down
            && (x.h.Starting? ==> y.pump == x.pump && y.up == x.up && (y.h == Choosing(0) || y.h.Returned?))
            && (!x.h.Starting? ==> SameSync(x, y) && y.first == x.first && y.client == x.client)
            && !Setting(y.h) && !During(y.h) && !y.h.Starting? && (y.h.Dialing? ==> !x.mu.committed)
            && (!x.h.Starting? && !y.h.Returned? ==> y.h.i < c.n || y.h.i == x.h.i)
  {
    hide Freed, Received;
  }

  // ----- control

  ghost predicate Control(c: Rpc, x: State) {
    && |x.up| == |x.down|
    && (x.h.Starting? ==> x == Init())
    && (!x.h.Starting? && !x.h.Returned? ==> x.h.i < c.n)
    && (x.mu.cs.Some? ==> x.mu.cs.value < |x.up|)
    && (Setting(x.h) ==> x.h.s + 1 == |x.up| && (x.mu.cs.Some? ==> x.mu.cs.value < x.h.s))
    && (During(x.h) ==> x.mu.cs == Some(x.h.s))
    && (if x.pump.Idle? then !x.mu.committed && (x.mu.cs.Some? ==> x.mu.halfClosed) else x.mu.cs.Some?)
    && (x.mu.committed ==> !MuHeld(x))
    && (x.pump.Sending? ==> x.mu.committed && x.mu.cs == Some(x.pump.s))
    && (x.pump.HalfClosing? ==> x.mu.halfClosed && x.pump.s <= x.mu.cs.value)
    && (x.mu.halfClosed ==> x.pump.Idle? || x.pump.HalfClosing? || x.pump.Stopped?)
  }

  lemma ControlLoop(c: Rpc, x: State, a: Action)
    requires c.n >= 1 && Control(c, x) && Enabled(c, x, a) && PhaseOf(a) == InLoop
    ensures Control(c, LoopStep(c, x, a))
  {
    LoopFrame(c, x, a);
    if !x.h.Starting? { hide LoopStep; }
  }

  lemma ControlInstall(c: Rpc, x: State, a: Action)
    requires Control(c, x) && Enabled(c, x, a) && PhaseOf(a) == InInstall
    ensures Control(c, InstallStep(c, x, a))
  {
    hide Freed, Marshalled, Received;
  }

  lemma ControlRelay(c: Rpc, x: State, a: Action)
    requires Control(c, x) && Enabled(c, x, a) && PhaseOf(a) == InRelay
    ensures Control(c, RelayStep(c, x, a))
  {
    RelayFrame(c, x, a);
    hide RelayStep;
  }

  lemma ControlPump(c: Rpc, x: State, a: Action)
    requires Control(c, x) && Enabled(c, x, a) && PhaseOf(a) == InPump
    ensures Control(c, PumpStep(c, x, a))
  {
    hide Freed, Marshalled, Received;
  }

  // ----- client to upstream

  ghost predicate Messages(x: State) {
    && Base(x) <= x.client
    && (!x.mu.committed ==> x.client == Base(x) + Hand(x.pump))
    && (forall k :: 0 <= k < |x.up| ==>
          && x.up[k].accepted <= x.up[k].offered
          && (if x.mu.cs == Some(k) then x.client == x.up[k].offered + Hand(x.pump)
              else x.up[k].offered <= Base(x)))
    && (x.h.Replaying? && x.h.s < |x.up| ==> x.up[x.h.s].offered == x.up[x.h.s].accepted == [])
    && (x.h.Publishing? && x.h.s < |x.up| ==> x.up[x.h.s].offered == x.up[x.h.s].accepted == Base(x))
    && (x.mu.cs.Some? && x.mu.cs.value < |x.up| && !x.pump.Stopped? && !x.pump.HalfClosing? ==>
          x.up[x.mu.cs.value].accepted == x.up[x.mu.cs.value].offered)
  }

  lemma MessagesLoop(c: Rpc, x: State, a: Action)
    requires c.n >= 1 && Control(c, x) && Messages(x) && Enabled(c, x, a) && PhaseOf(a) == InLoop
    ensures Messages(LoopStep(c, x, a))
  {
    LoopFrame(c, x, a);
    if !x.h.Starting? { hide LoopStep; }
  }

  lemma MessagesDial(c: Rpc, x: State, a: Action)
    requires Control(c, x) && Messages(x) && Enabled(c, x, a) && a.Dial?
    ensures Messages(InstallStep(c, x, a))
  {
    hide Freed, Marshalled, Received;
  }

  lemma MessagesReplay(c: Rpc, x: State, a: Action)
    requires Control(c, x) && Messages(x) && Enabled(c, x, a) && a.Replay?
    ensures Messages(InstallStep(c, x, a))
  {
    hide Freed, Marshalled, Received;
  }

  lemma MessagesRecover(c: Rpc, x: State, a: Action)
    requires Control(c, x) && Messages(x) && Enabled(c, x, a) && a.Recover?
    ensures Messages(InstallStep(c, x, a))
  {
    hide Freed, Marshalled, Received;
  }

  lemma MessagesPublish(c: Rpc, x: State, a: Action)
    requires Control(c, x) && Messages(x) && Enabled(c, x, a) && a.Publish?
    ensures Messages(InstallStep(c, x, a))
  {
    hide Freed, Marshalled, Received;
    if x.mu.cs.Some? {
      CancelRight(x.up[x.mu.cs.value].offered, Base(x), Hand(x.pump));
    }
  }

  lemma CancelRight(a: seq<Buf>, b: seq<Buf>, h: seq<Buf>)
    requires a + h == b + h
    ensures a == b
  {
    assert |a| == |b|;
    assert a == (a + h)[..|a|] && b == (b + h)[..|b|];
  }

  lemma MessagesInstall(c: Rpc, x: State, a: Action)
    requires Control(c, x) && Messages(x) && Enabled(c, x, a) && PhaseOf(a) == InInstall
    ensures Messages(InstallStep(c, x, a))
  {
    hide Messages, Control, InstallStep;
    match a {
      case Dial(_, _) => MessagesDial(c, x, a);
      case Replay(_, _, _) => MessagesReplay(c, x, a);
      case Recover(_, _) => MessagesRecover(c, x, a);
      case _ => MessagesPublish(c, x, a);
    }
  }

  lemma MessagesRelay(c: Rpc, x: State, a: Action)
    requires Control(c, x) && Messages(x) && Enabled(c, x, a) && PhaseOf(a) == InRelay
    ensures Messages(RelayStep(c, x, a))
  {
    RelayFrame(c, x, a);
    hide RelayStep;
  }

  lemma MessagesSend(c: Rpc, x: State, a: Action)
    requires Control(c, x) && Messages(x) && Enabled(c, x, a) && a.PumpSend?
    ensures Messages(PumpStep(c, x, a))
  {
    hide Freed, Marshalled, Received;
  }

  lemma MessagesRead(c: Rpc, x: State, a: Action)
    requires Control(c, x) && Messages(x) && Enabled(c, x, a) && (a.PumpMsg? || a.PumpEnd? || a.WireFree?)
    ensures Messages(PumpStep(c, x, a))
  {
    hide Received;
  }

  lemma MessagesLock(c: Rpc, x: State, a: Action)
    requires Control(c, x) && Messages(x) && Enabled(c, x, a)
    requires a.PumpLockMsg? || a.PumpLockEnd?
    ensures Messages(PumpStep(c, x, a))
  {
    var y := PumpStep(c, x, a);
    assert y.up == x.up && y.client == x.client && Hand(y.pump) == Hand(x.pump);
  }

  lemma MessagesClose(c: Rpc, x: State, a: Action)
    requires Control(c, x) && Messages(x) && Enabled(c, x, a) && a.PumpCloseSend?
    ensures Messages(PumpStep(c, x, a))
  {
    var y := PumpStep(c, x, a);
    assert forall k :: 0 <= k < |x.up| ==> y.up[k].offered == x.up[k].offered && y.up[k].accepted == x.up[k].accepted;
  }

  lemma MessagesPump(c: Rpc, x: State, a: Action)
    requires Control(c, x) && Messages(x) && Enabled(c, x, a) && PhaseOf(a) == InPump
    ensures Messages(PumpStep(c, x, a))
  {
    hide Messages, Control, PumpStep;
    if a.PumpSend? {
      MessagesSend(c, x, a);
    } else if a.PumpMsg? || a.PumpEnd? || a.WireFree? {
      MessagesRead(c, x, a);
    } else if a.PumpCloseSend? {
      MessagesClose(c, x, a);
    } else {
      MessagesLock(c, x, a);
    }
  }

  // ----- half-close

  ghost predicate HalfClose(x: State) {
    && (forall k :: 0 <= k < |x.up| ==> x.up[k].closes <= if x.mu.halfClosed then 1 else 0)
    && (Setting(x.h) && x.h.s < |x.up| ==> x.up[x.h.s].closes == 0)
    && (x.pump.HalfClosing? && x.pump.s < |x.up| ==> x.up[x.pump.s].closes == 0)
    && (x.mu.halfClosed && x.mu.cs.Some? && x.mu.cs.value < |x.up| ==>
          x.up[x.mu.cs.value].closes == 1 || x.pump == HalfClosing(x.mu.cs.value))
  }

  lemma HalfCloseLoop(c: Rpc, x: State, a: Action)
    requires c.n >= 1 && Control(c, x) && HalfClose(x) && Enabled(c, x, a) && PhaseOf(a) == InLoop
    ensures HalfClose(LoopStep(c, x, a))
  {
    LoopFrame(c, x, a);
    if !x.h.Starting? { hide LoopStep; }
  }

  lemma HalfCloseInstall(c: Rpc, x: State, a: Action)
    requires Control(c, x) && HalfClose(x) && Enabled(c, x, a) && PhaseOf(a) == InInstall
    ensures HalfClose(InstallStep(c, x, a))
  {
    hide Freed, Marshalled, Received;
  }

  lemma HalfCloseRelay(c: Rpc, x: State, a: Action)
    requires Control(c, x) && HalfClose(x) && Enabled(c, x, a) && PhaseOf(a) == InRelay
    ensures HalfClose(RelayStep(c, x, a))
  {
    RelayFrame(c, x, a);
    hide RelayStep;
  }

  lemma HalfClosePump(c: Rpc, x: State, a: Action)
    requires Control(c, x) && HalfClose(x) && Enabled(c, x, a) && PhaseOf(a) == InPump
    ensures HalfClose(PumpStep(c, x, a))
  {
    hide Freed, Marshalled, Received;
  }
}
