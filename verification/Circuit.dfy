/** internal/circuit: the breaker itself, a circular array of buckets with running totals, three states
    and generation-stamped probes. Every method is proved against the log-based model. */
module Circuit {
  import opened Arithmetic
  import opened CircuitModel

  // ----- circular buckets against the log

  /** The array position of the bucket that is `k` bucket widths behind the current one. */
  function Slot(idx: nat, k: nat, n: nat): (i: nat)
    requires idx < n && k < n
    ensures i < n
  {
    if k <= idx then idx - k else idx + n - k
  }

  function Plus(a: Tally, b: Tally): Tally {
    Tally(a.requests + b.requests, a.failures + b.failures)
  }

  function Minus(a: Tally, b: Tally): Tally {
    Tally(a.requests - b.requests, a.failures - b.failures)
  }

  function One(failed: bool): Tally {
    Tally(1, if failed then 1 else 0)
  }

  /** The outcomes logged at `lo` or later but before `hi`. */
  function Between(log: seq<Outcome>, lo: int, hi: int): Tally {
    Minus(TallyFrom(log, lo), TallyFrom(log, hi))
  }

  /** Where the bucket `k` widths behind the current one began. */
  function Edge(start: int, d: int, k: int): int {
    start - k * d
  }

  lemma EdgeBelow(start: int, d: int, k: int)
    requires d >= 1 && k >= 0
    ensures Edge(start, d, k) <= start
    ensures if k == 0 then Edge(start, d, k) == start else Edge(start, d, k) + d <= start
  {
    MulMono(0, k, d);
    if k >= 1 { MulMono(1, k, d); }
  }

  /** Bucket k counts exactly the outcomes of the k-th bucket width back from the current one. */
  ghost predicate Holds(bs: seq<Tally>, idx: nat, log: seq<Outcome>, start: int, d: int) {
    && idx < |bs|
    && forall k :: 0 <= k < |bs| ==>
         bs[Slot(idx, k, |bs|)] == Between(log, Edge(start, d, k), Edge(start, d, k) + d)
  }

  ghost predicate AllBefore(log: seq<Outcome>, t: int) {
    forall i :: 0 <= i < |log| ==> log[i].at < t
  }

  /** The whole window state is right for the log: the buckets, the running total, and no outcome later
      than the current bucket. */
  ghost predicate Exact(bs: seq<Tally>, idx: nat, total: Tally, log: seq<Outcome>, start: int, d: int) {
    && d >= 1
    && AllBefore(log, start + d)
    && Holds(bs, idx, log, start, d)
    && total == TallyFrom(log, Edge(start, d, |bs| - 1))
  }

  lemma TallyAppend(log: seq<Outcome>, e: Outcome, lo: int)
    ensures TallyFrom(log + [e], lo)
         == if e.at < lo then TallyFrom(log, lo) else Plus(TallyFrom(log, lo), One(e.failed))
  {
    assert (log + [e])[..|log + [e]| - 1] == log;
  }

  /** Counting an outcome of the current bucket width bumps one bucket and no other. */
  lemma CountKeeps(bs: seq<Tally>, idx: nat, total: Tally, log: seq<Outcome>, start: int, d: int, e: Outcome)
    requires Exact(bs, idx, total, log, start, d) && start <= e.at < start + d
    ensures Exact(bs[idx := Plus(bs[idx], One(e.failed))], idx, Plus(total, One(e.failed)), log + [e], start, d)
  {
    hide TallyFrom, Edge, Between;
    var cs := bs[idx := Plus(bs[idx], One(e.failed))];
    forall k | 0 <= k < |cs|
      ensures cs[Slot(idx, k, |cs|)] == Between(log + [e], Edge(start, d, k), Edge(start, d, k) + d)
    {
      assert bs[Slot(idx, k, |bs|)] == Between(log, Edge(start, d, k), Edge(start, d, k) + d);
      EdgeBelow(start, d, k);
      BetweenAppend(log, e, start, d, Edge(start, d, k), k == 0);
    }
    EdgeBelow(start, d, |bs| - 1);
    TallyAppend(log, e, Edge(start, d, |bs| - 1));
  }

  lemma BetweenAppend(log: seq<Outcome>, e: Outcome, start: int, d: int, lo: int, current: bool)
    requires start <= e.at < start + d && if current then lo == start else lo + d <= start
    ensures Between(log + [e], lo, lo + d)
         == if current then Plus(Between(log, lo, lo + d), One(e.failed)) else Between(log, lo, lo + d)
  {
    hide TallyFrom;
    TallyAppend(log, e, lo);
    TallyAppend(log, e, lo + d);
  }

  function NextIdx(idx: nat, n: nat): nat
    requires idx < n
  {
    if idx + 1 == n then 0 else idx + 1
  }

  lemma NextIdxIsMod(idx: nat, n: nat)
    requires idx < n
    ensures (idx + 1) % n == NextIdx(idx, n)
  {}

  /** Retiring the oldest bucket moves the window forward by one bucket width. */
  lemma RotateKeeps(bs: seq<Tally>, idx: nat, total: Tally, log: seq<Outcome>, start: int, d: int)
    requires Exact(bs, idx, total, log, start, d)
    ensures var next := NextIdx(idx, |bs|);
            Exact(bs[next := Tally(0, 0)], next, Minus(total, bs[next]), log, start + d, d)
  {
    hide TallyFrom;
    var n, next := |bs|, NextIdx(idx, |bs|);
    var cs := bs[next := Tally(0, 0)];
    assert Slot(idx, n - 1, n) == next;
    assert bs[Slot(idx, n - 1, n)] == Between(log, Edge(start, d, n - 1), Edge(start, d, n - 1) + d);
    forall k | 0 <= k < n
      ensures cs[Slot(next, k, n)] == Between(log, Edge(start + d, d, k), Edge(start + d, d, k) + d)
    {
      if k == 0 {
        TallyEmpty(log, start + d);
        TallyEmpty(log, start + d + d);
      } else {
        assert Slot(next, k, n) == Slot(idx, k - 1, n);
        assert bs[Slot(idx, k - 1, n)] == Between(log, Edge(start, d, k - 1), Edge(start, d, k - 1) + d);
        assert (k - 1) * d == k * d - d;
      }
    }
  }

  /** An all-zero array is right for any log that ends before the window begins. */
  lemma ClearHolds(bs: seq<Tally>, log: seq<Outcome>, start: int, d: int)
    requires d >= 1 && |bs| >= 1 && (forall i :: 0 <= i < |bs| ==> bs[i] == Tally(0, 0))
    requires AllBefore(log, Edge(start, d, |bs| - 1))
    ensures Exact(bs, 0, Tally(0, 0), log, start, d)
  {
    MulMono(0, |bs| - 1, d);
    forall k | 0 <= k < |bs|
      ensures bs[Slot(0, k, |bs|)] == Between(log, Edge(start, d, k), Edge(start, d, k) + d)
    {
      MulMono(k, |bs| - 1, d);
      TallyEmpty(log, Edge(start, d, k));
      TallyEmpty(log, Edge(start, d, k) + d);
    }
    TallyEmpty(log, Edge(start, d, |bs| - 1));
  }

  /** The sum of the k most recent buckets. */
  function SlotSum(bs: seq<Tally>, idx: nat, k: nat): Tally
    requires idx < |bs| && k <= |bs|
  {
    if k == 0 then Tally(0, 0) else Plus(SlotSum(bs, idx, k - 1), bs[Slot(idx, k - 1, |bs|)])
  }

  lemma {:induction false} SlotSumIs(bs: seq<Tally>, idx: nat, log: seq<Outcome>, start: int, d: int, k: nat)
    requires d >= 1 && Holds(bs, idx, log, start, d) && AllBefore(log, start + d) && 1 <= k <= |bs|
    ensures SlotSum(bs, idx, k) == TallyFrom(log, Edge(start, d, k - 1))
  {
    hide TallyFrom;
    assert bs[Slot(idx, k - 1, |bs|)] == Between(log, Edge(start, d, k - 1), Edge(start, d, k - 1) + d);
    if k == 1 {
      TallyEmpty(log, start + d);
      assert SlotSum(bs, idx, 0) == Tally(0, 0);
    } else {
      SlotSumIs(bs, idx, log, start, d, k - 1);
      assert Edge(start, d, k - 2) == Edge(start, d, k - 1) + d by { assert (k - 1) * d == (k - 2) * d + d; }
    }
  }

  /** The running total is the sum of all buckets. */
  lemma TotalIsBucketSum(bs: seq<Tally>, idx: nat, total: Tally, log: seq<Outcome>, start: int, d: int)
    requires Exact(bs, idx, total, log, start, d)
    ensures total == SlotSum(bs, idx, |bs|)
  {
    SlotSumIs(bs, idx, log, start, d, |bs|);
  }

  // ----- the breaker

  class Breaker {
    const cfg: Settings
    const bucketDur: int

    /** Mirror of `state` for the lock-free read path. */
    var fastState: State

    var state: State
    const buckets: array<Tally>
    var idx: nat
    var start: int
    var total: Tally
    var openedAt: int
    var probes: int
    var successes: int
    var gen: nat

    /** Every outcome recorded since the last close or Reset. */
    ghost var log: seq<Outcome>

    ghost function View(): Model
      reads this
    {
      Model(state, start, log, openedAt, probes, successes, gen)
    }

    ghost predicate Sized()
      reads this
    {
      && Usable(cfg) && bucketDur == BucketDur(cfg)
      && buckets.Length == cfg.buckets && idx < buckets.Length
      && fastState == state
    }

    ghost predicate Valid()
      reads this, buckets
    {
      && Sized()
      && Exact(buckets[..], idx, total, log, start, bucketDur)
    }

    constructor (s: Settings, now: int)
      ensures Valid() && fresh(buckets)
      ensures cfg == Normalize(s) && View() == Initial(now)
    {
      cfg := Normalize(s);
      bucketDur := BucketDur(Normalize(s));
      fastState, state := Closed, Closed;
      buckets := new Tally[Normalize(s).buckets](_ => Tally(0, 0));
      idx, start, total := 0, now, Tally(0, 0);
      openedAt, probes, successes, gen := 0, 0, 0, 0;
      log := [];
      new;
      ClearHolds(buckets[..], [], now, bucketDur);
    }

    method ClearLocked(now: int)
      requires Sized() && AllBefore(log, Cut(cfg, now))
      modifies this`total, this`idx, this`start, buckets
      ensures Valid() && View() == old(View()).(start := now)
    {
      forall i | 0 <= i < buckets.Length { buckets[i] := Tally(0, 0); }
      total := Tally(0, 0);
      idx := 0;
      start := now;
      MulMono(0, buckets.Length - 1, bucketDur);
      ClearHolds(buckets[..], log, now, bucketDur);
    }

    method AdvanceLocked(now: int)
      requires Valid()
      modifies this`total, this`idx, this`start, buckets
      ensures Valid() && View() == old(View()).(start := Roll(cfg, old(start), now))
    {
      var elapsed := now - start;
      if elapsed < bucketDur { return; }
      var n := elapsed / bucketDur;
      if n >= buckets.Length {
        GapPassed(cfg, start, now);
        ClearLocked(now);
        return;
      }
      assert Roll(cfg, start, now) == start + n * bucketDur;
      Rotate(n);
    }

    /** Retires the `n` oldest buckets one after the other. */
    method Rotate(n: nat)
      requires Valid()
      modifies this`total, this`idx, this`start, buckets
      ensures Valid() && View() == old(View()).(start := old(start) + n * bucketDur)
    {
      hide Exact;
      for i := 0 to n
        invariant Sized() && start == old(start)
        invariant Exact(buckets[..], idx, total, log, start + i * bucketDur, bucketDur)
      {
        ghost var at := start + i * bucketDur;
        RotateKeeps(buckets[..], idx, total, log, at, bucketDur);
        assert start + (i + 1) * bucketDur == at + bucketDur;
        RetireNext();
      }
      start := start + n * bucketDur;
    }

    method RetireNext()
      requires Sized()
      modifies this`total, this`idx, buckets
      ensures idx == NextIdx(old(idx), buckets.Length)
      ensures total == Minus(old(total), old(buckets[..])[idx])
      ensures buckets[..] == old(buckets[..])[idx := Tally(0, 0)]
    {
      NextIdxIsMod(idx, buckets.Length);
      idx := (idx + 1) % buckets.Length;
      total := Minus(total, buckets[idx]);
      buckets[idx] := Tally(0, 0);
    }

    method CountLocked(failed: bool, now: int)
      requires Valid() && start <= now < start + bucketDur
      modifies this`total, this`log, buckets
      ensures Valid() && View() == old(View()).(log := old(log) + [Outcome(now, failed)])
    {
      hide Exact;
      CountKeeps(buckets[..], idx, total, log, start, bucketDur, Outcome(now, failed));
      Bump(failed, now);
    }

    method Bump(failed: bool, now: int)
      requires Sized()
      modifies this`total, this`log, buckets
      ensures buckets[..] == old(buckets[..])[idx := Plus(old(buckets[..])[idx], One(failed))]
      ensures total == Plus(old(total), One(failed))
      ensures log == old(log) + [Outcome(now, failed)]
    {
      buckets[idx] := Plus(buckets[idx], One(failed));
      total := Plus(total, One(failed));
      log := log + [Outcome(now, failed)];
    }

    method SetStateLocked(trs: seq<Transition>, to: State, now: int) returns (r: seq<Transition>)
      requires Valid()
      modifies this, buckets
      ensures Valid()
      ensures Step(View(), r) == Then(trs, SetState(old(View()), to, now))
    {
      var from := state;
      if from == to { return trs; }
      state := to;
      fastState := to;
      probes, successes := 0, 0;
      match to {
        case HalfOpen => gen := gen + 1;
        case Open => openedAt := now;
        case Closed =>
          log := [];
          ClearLocked(now);
      }
      r := trs + [Transition(from, to)];
    }

    method RefreshLocked(now: int) returns (trs: seq<Transition>)
      requires Valid()
      modifies this, buckets
      ensures Valid() && Step(View(), trs) == Refresh(cfg, old(View()), now)
      ensures old(start) <= now ==> start <= now < start + bucketDur
    {
      AdvanceLocked(now);
      trs := [];
      if state == Open && now - openedAt >= cfg.openTimeout {
        trs := SetStateLocked(trs, HalfOpen, now);
      }
    }

    /** The State method: it performs the open to half-open transition itself. */
    method PollState(now: int) returns (s: State, trs: seq<Transition>)
      requires Valid()
      modifies this, buckets
      ensures Valid() && Step(View(), trs) == Poll(cfg, old(View()), now, false) && s == state
    {
      if fastState == Closed { return Closed, []; }
      trs := RefreshLocked(now);
      s := state;
    }

    method Ready(now: int) returns (ready: bool, trs: seq<Transition>)
      requires Valid()
      modifies this, buckets
      ensures Valid() && Step(View(), trs) == Poll(cfg, old(View()), now, false)
      ensures ready <==> CircuitModel.Admit(cfg, old(View()), now, false).ok
    {
      if fastState == Closed { return true, []; }
      trs := RefreshLocked(now);
      ready := state == Closed || (state == HalfOpen && probes < cfg.halfOpenMax);
    }

    method AdmitWithLock(now: int) returns (p: Token, allowed: bool, trs: seq<Transition>)
      requires Valid()
      modifies this, buckets
      ensures Valid() && Admission(View(), trs, p, allowed) == AdmitLocked(cfg, old(View()), now)
    {
      trs := RefreshLocked(now);
      p, allowed := UNATTRIBUTED, false;
      match state {
        case Closed => allowed := true;
        case HalfOpen =>
          if probes < cfg.halfOpenMax {
            probes := probes + 1;
            p, allowed := Token(gen, true), true;
          }
        case Open =>
      }
    }

    method Admit(now: int) returns (p: Token, allowed: bool, trs: seq<Transition>)
      requires Valid()
      modifies this, buckets
      ensures Valid()
      ensures Admission(View(), trs, p, allowed) == CircuitModel.Admit(cfg, old(View()), now, false)
      ensures allowed <==> match old(state)
                           case Closed => true
                           case Open => now - old(openedAt) >= cfg.openTimeout
                           case HalfOpen => old(probes) < cfg.halfOpenMax
    {
      AdmitsExactly(cfg, View(), now, false);
      if fastState == Closed { return UNATTRIBUTED, true, []; }
      p, allowed, trs := AdmitWithLock(now);
    }

    /** The clock is read under the lock and does not run backwards. */
    method Record(failed: bool, p: Token, now: int) returns (trs: seq<Transition>)
      requires Valid() && start <= now
      modifies this, buckets
      ensures Valid() && Step(View(), trs) == CircuitModel.Record(cfg, old(View()), failed, p, now)
      ensures old(state) == Closed ==>
                && log == old(log) + [Outcome(now, failed)]
                && exists cut :: WindowCut(cfg, now, cut) && state == if TooManyFailures(cfg, log, cut) then Open else Closed
    {
      if state == Closed {
        ghost var cut := TripsExactly(cfg, View(), failed, p, now);
      }
      trs := RefreshLocked(now);
      CountLocked(failed, now);
      var more := SettleLocked(failed, p, now);
      trs := trs + more;
    }

    method SettleLocked(failed: bool, p: Token, now: int) returns (trs: seq<Transition>)
      requires Valid()
      modifies this, buckets
      ensures Valid() && Step(View(), trs) == Settle(cfg, old(View()), failed, p, now)
    {
      assert total == Live(cfg, View());
      hide Exact, Live;
      var current := p.probe && p.gen == gen && state == HalfOpen;
      trs := [];
      match state {
        case Closed =>
          if total.requests >= cfg.minRequests
             && total.failures as real / total.requests as real >= cfg.failureRatio {
            trs := SetStateLocked(trs, Open, now);
          }
        case HalfOpen =>
          if current {
            if probes > 0 { probes := probes - 1; }
            if failed {
              trs := SetStateLocked(trs, Open, now);
            } else {
              successes := successes + 1;
              if successes >= cfg.halfOpenMax {
                trs := SetStateLocked(trs, Closed, now);
              }
            }
          }
        case Open =>
      }
    }

    method Release(p: Token)
      requires Valid()
      modifies this`probes
      ensures Valid() && View() == if p.probe then CircuitModel.Release(old(View()), p) else old(View())
    {
      if !p.probe { return; }
      if p.gen == gen && state == HalfOpen && probes > 0 {
        probes := probes - 1;
      }
    }

    /** The reported counts are those of the outcomes in the window, of all recorded since the last close or Reset. */
    method Counts(now: int) returns (requests: int, failures: int, ghost cut: int)
      requires Valid() && start <= now
      modifies this`total, this`idx, this`start, buckets
      ensures Valid() && View() == old(View()).(start := Roll(cfg, old(start), now))
      ensures requests == |Since(log, cut)| && failures == |FailedSince(log, cut)| && WindowCut(cfg, now, cut)
    {
      WindowBounds(cfg, View(), now);
      AdvanceLocked(now);
      requests, failures, cut := total.requests, total.failures, Cut(cfg, start);
    }

    method Reset(now: int) returns (trs: seq<Transition>)
      requires Valid()
      modifies this, buckets
      ensures Valid() && Step(View(), trs) == CircuitModel.Reset(old(View()), now)
      ensures state == Closed && log == [] && start == now && probes == successes == 0
      ensures gen == old(gen) && trs == if old(state) == Closed then [] else [Transition(old(state), Closed)]
    {
      trs := SetStateLocked([], Closed, now);
      log := [];
      ClearLocked(now);
      probes, successes := 0, 0;
    }
  }

  /** After a gap of a whole window the new cut-off lies past the end of the old current bucket. */
  lemma GapPassed(cfg: Settings, start: int, now: int)
    requires Usable(cfg) && start <= now && (now - start) / BucketDur(cfg) >= cfg.buckets
    ensures start + BucketDur(cfg) <= Cut(cfg, now)
  {
    var d, B := BucketDur(cfg), cfg.buckets;
    var n := (now - start) / d;
    assert n * d <= now - start;
    MulMono(B, n, d);
    assert B * d == (B - 1) * d + d;
  }
}
