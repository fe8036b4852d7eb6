/** internal/balancer: `Pick`, which ranks the backends for one request, and `Rebuild`. */
module Balancer {
  import opened Arithmetic
  import opened RingOrder
  import opened HashRing
  import opened Pool

  /** The rungs of the fallback ladder. */
  datatype Filter = FilterAvailable | FilterHealthy | FilterAny

  /** What the t-th check of a backend answers. Health and breakers change while Pick runs, so nothing
      relates one answer to the next. */
  type Oracle = (nat, Filter, Backend) -> bool

  predicate Admits(ask: Oracle, t: nat, f: Filter, b: Backend) {
    f == FilterAny || ask(t, f, b)
  }

  datatype Snap = Snap(backends: seq<Backend>, byID: map<Id, Backend>)

  ghost predicate NoDup(bs: seq<Backend>) {
    forall i, j :: 0 <= i < j < |bs| ==> bs[i] != bs[j]
  }

  ghost predicate Within(bs: seq<Backend>, all: seq<Backend>) {
    forall b :: b in bs ==> b in all
  }

  /** The index agrees with the list, whose ids the pool keeps unique. */
  ghost predicate Indexed(s: Snap) {
    && NoDup(s.backends)
    && (forall b :: b in s.backends ==> b.id in s.byID && s.byID[b.id] == b)
    && (forall id :: id in s.byID ==> s.byID[id] in s.backends && s.byID[id].id == id)
  }

  /** The answers of rung f do not change during the call. */
  ghost predicate Steady(ask: Oracle, f: Filter, ok: Backend -> bool, all: seq<Backend>) {
    forall t: nat, b :: b in all ==> ok(b) == (f == FilterAny || ask(t, f, b))
  }

  lemma SteadyAnswer(ask: Oracle, f: Filter, ok: Backend -> bool, all: seq<Backend>, t: nat, b: Backend)
    requires Steady(ask, f, ok, all) && b in all
    ensures Admits(ask, t, f, b) == ok(b)
  {
    assert ok(b) == (f == FilterAny || ask(t, f, b));
  }

  // ----- the simple specification

  function Filtered(bs: seq<Backend>, ok: Backend -> bool): seq<Backend> {
    if bs == [] then []
    else
      var r := Filtered(bs[..|bs| - 1], ok);
      if ok(bs[|bs| - 1]) then r + [bs[|bs| - 1]] else r
  }

  function Take<T>(s: seq<T>, n: nat): seq<T> {
    if n <= |s| then s[..n] else s
  }

  /** The first rung that is not empty, filtered over the whole order, cut to max. */
  function Ladder(order: seq<Backend>, max: nat, available: Backend -> bool, healthy: Backend -> bool): seq<Backend> {
    var a, h := Filtered(order, available), Filtered(order, healthy);
    Take(if a != [] then a else if h != [] then h else order, max)
  }

  /** The backends of these ids, in order, those the snapshot does not know left out. */
  function Known(s: Snap, ids: seq<Id>): seq<Backend> {
    if ids == [] then []
    else
      var r := Known(s, ids[..|ids| - 1]);
      var id := ids[|ids| - 1];
      if id in s.byID then r + [s.byID[id]] else r
  }

  // ----- what the ladder serves

  /** The rung a request is served from: the available backends if there is one, else the healthy ones if there is
      one, else all. */
  ghost predicate OnRung(bs: seq<Backend>, b: Backend, available: Backend -> bool, healthy: Backend -> bool) {
    if exists a :: a in bs && available(a) then available(b)
    else if exists a :: a in bs && healthy(a) then healthy(b)
    else true
  }

  ghost function Rung(bs: seq<Backend>, available: Backend -> bool, healthy: Backend -> bool): set<Backend> {
    set b | b in bs && OnRung(bs, b, available, healthy)
  }

  /** `out` is taken from the rung, passing nothing over that comes earlier in the order, and is in that order. */
  ghost predicate HeadOf(order: seq<Backend>, rung: set<Backend>, out: seq<Backend>) {
    && (forall p :: 0 <= p < |out| ==> out[p] in rung)
    && (forall i, j :: 0 <= i < j < |order| && order[i] in rung && order[j] in out ==> order[i] in out)
    && (forall p, q, i, j ::
          (0 <= p < |out| && 0 <= q < |out| && 0 <= i < j < |order| && out[p] == order[i] && out[q] == order[j]) ==> p < q)
  }

  /** `out` is the head of the rung in the given order: as many as are wanted, at least one, or all there are. */
  ghost predicate Serves(order: seq<Backend>, out: seq<Backend>, maxAttempts: int, available: Backend -> bool,
                         healthy: Backend -> bool)
  {
    var rung := Rung(order, available, healthy);
    HeadOf(order, rung, out) && |out| == Min(if maxAttempts < 1 then 1 else maxAttempts, |rung|)
  }

  lemma {:induction false} FilteredCount(bs: seq<Backend>, ok: Backend -> bool)
    requires NoDup(bs)
    ensures |Filtered(bs, ok)| == |Passing(bs, ok)|
  {
    if bs != [] {
      var rest, last := bs[..|bs| - 1], bs[|bs| - 1];
      FilteredCount(rest, ok);
      assert bs == rest + [last] && last !in rest;
      hide Passing;
      PassingAppend(rest, last, ok);
    }
  }

  ghost function Passing(bs: seq<Backend>, ok: Backend -> bool): set<Backend> {
    set b | b in bs && ok(b)
  }

  lemma PassingAppend(bs: seq<Backend>, last: Backend, ok: Backend -> bool)
    requires last !in bs
    ensures |Passing(bs + [last], ok)| == |Passing(bs, ok)| + if ok(last) then 1 else 0
  {
    assert forall b :: b in bs + [last] <==> b in bs || b == last;
    if ok(last) {
      assert Passing(bs + [last], ok) == Passing(bs, ok) + {last};
    } else {
      assert Passing(bs + [last], ok) == Passing(bs, ok);
    }
  }

  lemma {:induction false} FilteredInOrder(bs: seq<Backend>, ok: Backend -> bool, p: nat, q: nat, i: nat, j: nat)
    requires NoDup(bs) && p < |Filtered(bs, ok)| && q < |Filtered(bs, ok)| && i < j < |bs|
    requires Filtered(bs, ok)[p] == bs[i] && Filtered(bs, ok)[q] == bs[j]
    ensures p < q
  {
    var rest, last := bs[..|bs| - 1], bs[|bs| - 1];
    var f := Filtered(rest, ok);
    assert last !in rest;
    if p < |f| && q < |f| {
      FilteredMembers(rest, ok, f[q]);
      FilteredInOrder(rest, ok, p, q, i, j);
    }
  }

  lemma FilteredServes(bs: seq<Backend>, ok: Backend -> bool, m: nat, i: nat, j: nat)
    requires NoDup(bs) && i < j < |bs| && ok(bs[i]) && bs[j] in Take(Filtered(bs, ok), m)
    ensures bs[i] in Take(Filtered(bs, ok), m)
  {
    hide Filtered;
    var f := Filtered(bs, ok);
    var q :| 0 <= q < |Take(f, m)| && Take(f, m)[q] == bs[j];
    FilteredMembers(bs, ok, bs[i]);
    var p :| 0 <= p < |f| && f[p] == bs[i];
    FilteredInOrder(bs, ok, p, q, i, j);
    assert Take(f, m)[p] == bs[i];
  }

  lemma {:induction false} FilteredSame(bs: seq<Backend>, f: Backend -> bool, g: Backend -> bool)
    requires forall b :: b in bs ==> f(b) == g(b)
    ensures Filtered(bs, f) == Filtered(bs, g)
  {
    if bs != [] {
      assert forall b :: b in bs[..|bs| - 1] ==> b in bs;
      FilteredSame(bs[..|bs| - 1], f, g);
      assert bs[|bs| - 1] in bs;
    }
  }

  lemma SomeFiltered(bs: seq<Backend>, ok: Backend -> bool)
    ensures Filtered(bs, ok) != [] <==> exists b :: b in bs && ok(b)
  {
    if Filtered(bs, ok) != [] { FilteredMembers(bs, ok, Filtered(bs, ok)[0]); }
    if b :| b in bs && ok(b) { FilteredMembers(bs, ok, b); }
  }

  lemma LadderIsRung(order: seq<Backend>, max: nat, available: Backend -> bool, healthy: Backend -> bool, ok: Backend -> bool)
    requires forall b :: b in order ==> ok(b) == OnRung(order, b, available, healthy)
    ensures Ladder(order, max, available, healthy) == Take(Filtered(order, ok), max)
  {
    hide Filtered;
    SomeFiltered(order, available);
    SomeFiltered(order, healthy);
    if Filtered(order, available) != [] {
      FilteredSame(order, ok, available);
    } else if Filtered(order, healthy) != [] {
      FilteredSame(order, ok, healthy);
    } else {
      AllFiltered(order, ok);
    }
  }

  /** The ladder cut to the attempts serves the request. */
  lemma LadderServes(order: seq<Backend>, maxAttempts: int, available: Backend -> bool, healthy: Backend -> bool)
    requires order != [] && NoDup(order)
    ensures Serves(order, Ladder(order, Cap(maxAttempts, |order|), available, healthy), maxAttempts, available, healthy)
  {
    hide Filtered, OnRung, Ladder;
    var rung := Rung(order, available, healthy);
    var ok: Backend -> bool := b => b in rung;
    LadderIsRung(order, Cap(maxAttempts, |order|), available, healthy, ok);
    FilteredCount(order, ok);
    FilteredShort(order, ok);
    assert Passing(order, ok) == rung;
    hide Rung;
    RungHead(order, rung, ok, Cap(maxAttempts, |order|));
  }

  lemma {:induction false} FilteredShort(bs: seq<Backend>, ok: Backend -> bool)
    ensures |Filtered(bs, ok)| <= |bs|
  {
    if bs != [] { FilteredShort(bs[..|bs| - 1], ok); }
  }

  lemma RungHead(order: seq<Backend>, rung: set<Backend>, ok: Backend -> bool, max: nat)
    requires NoDup(order) && forall b :: b in order ==> ok(b) == (b in rung)
    ensures HeadOf(order, rung, Take(Filtered(order, ok), max))
  {
    hide Filtered, NoDup;
    var f := Filtered(order, ok);
    var out := Take(f, max);
    forall p | 0 <= p < |out| ensures out[p] in rung {
      FilteredMembers(order, ok, f[p]);
    }
    forall i, j | 0 <= i < j < |order| && order[i] in rung && order[j] in out ensures order[i] in out {
      FilteredServes(order, ok, max, i, j);
    }
    forall p, q, i, j | 0 <= p < |out| && 0 <= q < |out| && 0 <= i < j < |order| && out[p] == order[i] && out[q] == order[j]
      ensures p < q
    {
      FilteredInOrder(order, ok, p, q, i, j);
    }
  }

  // ----- scanning

  /** What a scan over the backends bs adds to acc when nothing stops it. */
  function Extend(acc: seq<Backend>, bs: seq<Backend>, ok: Backend -> bool): seq<Backend> {
    if bs == [] then acc
    else
      var r := Extend(acc, bs[..|bs| - 1], ok);
      var b := bs[|bs| - 1];
      if b !in r && ok(b) then r + [b] else r
  }

  lemma FilteredAppend(bs: seq<Backend>, b: Backend, ok: Backend -> bool)
    ensures Filtered(bs + [b], ok) == if ok(b) then Filtered(bs, ok) + [b] else Filtered(bs, ok)
  {
    assert (bs + [b])[..|bs + [b]| - 1] == bs;
  }

  lemma ExtendAppend(acc: seq<Backend>, bs: seq<Backend>, b: Backend, ok: Backend -> bool)
    ensures Extend(acc, bs + [b], ok)
         == var r := Extend(acc, bs, ok); if b !in r && ok(b) then r + [b] else r
  {
    assert (bs + [b])[..|bs + [b]| - 1] == bs;
  }

  lemma KnownAppend(s: Snap, ids: seq<Id>, id: Id)
    ensures Known(s, ids + [id]) == if id in s.byID then Known(s, ids) + [s.byID[id]] else Known(s, ids)
  {
    assert (ids + [id])[..|ids + [id]| - 1] == ids;
  }

  lemma {:induction false} ExtendGrows(acc: seq<Backend>, bs: seq<Backend>, cs: seq<Backend>, ok: Backend -> bool)
    ensures acc <= Extend(acc, bs, ok)
    ensures Extend(acc, bs, ok) <= Extend(acc, bs + cs, ok)
    decreases |bs| + |cs|
  {
    if cs == [] {
      assert bs + cs == bs;
      if bs != [] { ExtendGrows(acc, bs[..|bs| - 1], [], ok); }
    } else {
      var rest, last := cs[..|cs| - 1], cs[|cs| - 1];
      assert bs + cs == (bs + rest) + [last];
      ExtendGrows(acc, bs, rest, ok);
      ExtendAppend(acc, bs + rest, last, ok);
    }
  }

  lemma {:induction false} FilteredMembers(bs: seq<Backend>, ok: Backend -> bool, b: Backend)
    ensures b in Filtered(bs, ok) <==> b in bs && ok(b)
  {
    if bs != [] {
      FilteredMembers(bs[..|bs| - 1], ok, b);
      assert bs == bs[..|bs| - 1] + [bs[|bs| - 1]];
    }
  }

  /** Scanning from nothing over distinct backends is filtering. */
  lemma {:induction false} ExtendIsFilter(bs: seq<Backend>, ok: Backend -> bool)
    requires NoDup(bs)
    ensures Extend([], bs, ok) == Filtered(bs, ok)
  {
    if bs != [] {
      var rest, last := bs[..|bs| - 1], bs[|bs| - 1];
      ExtendIsFilter(rest, ok);
      FilteredMembers(rest, ok, last);
      assert last !in rest;
    }
  }

  /** Scanning again over a list whose beginning has been scanned adds only what comes after it. */
  lemma {:induction false} ExtendResumes(bs: seq<Backend>, cs: seq<Backend>, ok: Backend -> bool)
    requires NoDup(bs + cs)
    ensures Extend(Filtered(bs, ok), bs + cs, ok) == Filtered(bs + cs, ok)
  {
    if cs == [] {
      assert bs + cs == bs;
      forall b | b in bs && ok(b) ensures b in Filtered(bs, ok) { FilteredMembers(bs, ok, b); }
      ExtendIdle(Filtered(bs, ok), bs, ok);
    } else {
      var rest, last := cs[..|cs| - 1], cs[|cs| - 1];
      assert bs + cs == (bs + rest) + [last];
      assert NoDup(bs + rest) by {
        assert forall i :: 0 <= i < |bs + rest| ==> (bs + rest)[i] == (bs + cs)[i];
      }
      ExtendResumes(bs, rest, ok);
      ExtendAppend(Filtered(bs, ok), bs + rest, last, ok);
      FilteredAppend(bs + rest, last, ok);
      FilteredMembers(bs + rest, ok, last);
      assert last !in bs + rest by {
        assert forall i :: 0 <= i < |bs + rest| ==> (bs + rest)[i] == (bs + cs)[i];
        assert (bs + cs)[|bs + cs| - 1] == last;
      }
    }
  }

  lemma {:induction false} ExtendIdle(acc: seq<Backend>, bs: seq<Backend>, ok: Backend -> bool)
    requires forall b :: b in bs && ok(b) ==> b in acc
    ensures Extend(acc, bs, ok) == acc
  {
    if bs != [] {
      var rest := bs[..|bs| - 1];
      assert bs[|bs| - 1] in bs;
      assert forall b :: b in rest ==> b in bs;
      ExtendIdle(acc, rest, ok);
    }
  }

  // ----- the scans

  /** collectRing. Whatever the answers are, it only ever adds backends of the snapshot it does not hold yet,
      up to max. With steady answers it is the scan over the known backends, cut to max. */
  method CollectRing(out0: seq<Backend>, s: Snap, ids: seq<Id>, max: nat, f: Filter, ask: Oracle, t0: nat,
                     ghost ok: Backend -> bool)
    returns (out: seq<Backend>, t: nat)
    requires Indexed(s) && NoDup(out0) && Within(out0, s.backends) && |out0| < max
    ensures NoDup(out) && Within(out, s.backends) && |out| <= max && out0 <= out
    ensures Steady(ask, f, ok, s.backends) ==> out == Take(Extend(out0, Known(s, ids), ok), max)
  {
    hide Extend, Known;
    out, t := out0, t0;
    assert Extend(out0, Known(s, ids[..0]), ok) == out0 by { ScanStart(out0, s, ids, ok); }
    for k := 0 to |ids|
      invariant NoDup(out) && Within(out, s.backends) && |out| < max && out0 <= out
      invariant Steady(ask, f, ok, s.backends) ==> out == Extend(out0, Known(s, ids[..k]), ok)
    {
      var id := ids[k];
      ScanStep(out0, s, ids, k, ok);
      if id in s.byID {
        var bk := s.byID[id];
        if bk !in out {
          var yes := Admits(ask, t, f, bk);
          if Steady(ask, f, ok, s.backends) { SteadyAnswer(ask, f, ok, s.backends, t, bk); }
          t := t + 1;
          if yes {
            out := out + [bk];
            if |out| == max {
              ScanRest(out0, s, ids, k + 1, ok);
              return;
            }
          }
        }
      }
    }
    assert ids[..|ids|] == ids;
  }

  lemma ScanStart(out0: seq<Backend>, s: Snap, ids: seq<Id>, ok: Backend -> bool)
    ensures Extend(out0, Known(s, ids[..0]), ok) == out0
  {}

  lemma ScanStep(out0: seq<Backend>, s: Snap, ids: seq<Id>, k: nat, ok: Backend -> bool)
    requires k < |ids|
    ensures var r := Extend(out0, Known(s, ids[..k]), ok);
            Extend(out0, Known(s, ids[..k + 1]), ok)
            == if ids[k] in s.byID && s.byID[ids[k]] !in r && ok(s.byID[ids[k]]) then r + [s.byID[ids[k]]] else r
  {
    assert ids[..k + 1] == ids[..k] + [ids[k]];
    KnownAppend(s, ids[..k], ids[k]);
    if ids[k] in s.byID { ExtendAppend(out0, Known(s, ids[..k]), s.byID[ids[k]], ok); }
  }

  lemma {:induction false} KnownPrefix(s: Snap, a: seq<Id>, b: seq<Id>)
    ensures Known(s, a) <= Known(s, a + b)
  {
    if b == [] {
      assert a + b == a;
    } else {
      var rest, last := b[..|b| - 1], b[|b| - 1];
      assert a + b == (a + rest) + [last];
      KnownPrefix(s, a, rest);
      KnownAppend(s, a + rest, last);
    }
  }

  lemma ScanRest(out0: seq<Backend>, s: Snap, ids: seq<Id>, k: nat, ok: Backend -> bool)
    requires k <= |ids|
    ensures Extend(out0, Known(s, ids[..k]), ok) <= Extend(out0, Known(s, ids), ok)
  {
    assert ids == ids[..k] + ids[k..];
    KnownPrefix(s, ids[..k], ids[k..]);
    var a, b := Known(s, ids[..k]), Known(s, ids);
    assert b == a + b[|a|..];
    ExtendGrows(out0, a, b[|a|..], ok);
  }

  function Rotated(bs: seq<Backend>, start: nat): seq<Backend>
    requires start <= |bs|
  {
    bs[start..] + bs[..start]
  }

  /** collectRotation: walks the list once around, beginning at `start`. */
  method CollectRotation(backends: seq<Backend>, start: nat, max: nat, f: Filter, ask: Oracle, t0: nat,
                         ghost ok: Backend -> bool)
    returns (out: seq<Backend>, t: nat)
    requires NoDup(backends) && start < |backends| && max >= 1
    ensures NoDup(out) && Within(out, backends) && |out| <= max
    ensures Steady(ask, f, ok, backends) ==> out == Take(Filtered(Rotated(backends, start), ok), max)
  {
    hide Filtered;
    out, t := [], t0;
    ghost var lap := Rotated(backends, start);
    assert Filtered(lap[..0], ok) == [] by { NoneFiltered(lap, ok); }
    for i := 0 to |backends|
      invariant NoDup(out) && |out| < max && (forall b :: b in out ==> b in lap[..i])
      invariant Steady(ask, f, ok, backends) ==> out == Filtered(lap[..i], ok)
    {
      BackendLap(backends, start, i);
      var bk := backends[(start + i) % |backends|];
      assert lap[..i + 1] == lap[..i] + [lap[i]];
      FilteredAppend(lap[..i], lap[i], ok);
      LapDistinct(backends, start, i);
      var yes := Admits(ask, t, f, bk);
      if Steady(ask, f, ok, backends) { SteadyAnswer(ask, f, ok, backends, t, bk); }
      t := t + 1;
      if yes {
        out := out + [bk];
        if |out| == max {
          FilteredPrefix(lap, i + 1, ok);
          return;
        }
      }
    }
    assert lap[..|backends|] == lap;
  }

  lemma NoneFiltered(lap: seq<Backend>, ok: Backend -> bool)
    ensures Filtered(lap[..0], ok) == []
  {}

  lemma BackendLap(bs: seq<Backend>, start: nat, i: nat)
    requires start < |bs| && i < |bs|
    ensures Rotated(bs, start)[i] == bs[(start + i) % |bs|]
  {
    WrapIs(start + i, |bs|);
  }

  lemma LapDistinct(bs: seq<Backend>, start: nat, i: nat)
    requires NoDup(bs) && start < |bs| && i < |bs|
    ensures Rotated(bs, start)[i] !in Rotated(bs, start)[..i]
    ensures forall k :: 0 <= k < |bs| ==> Rotated(bs, start)[k] in bs
  {}

  lemma RotatedNoDup(bs: seq<Backend>, start: nat)
    requires NoDup(bs) && start < |bs|
    ensures NoDup(Rotated(bs, start)) && |Rotated(bs, start)| == |bs|
  {}

  lemma {:induction false} FilteredPrefix(bs: seq<Backend>, k: nat, ok: Backend -> bool)
    requires k <= |bs|
    ensures Filtered(bs[..k], ok) <= Filtered(bs, ok)
    decreases |bs|
  {
    if k < |bs| {
      FilteredPrefix(bs[..|bs| - 1], k, ok);
      assert bs[..|bs| - 1][..k] == bs[..k];
    } else {
      assert bs[..k] == bs;
    }
  }

  // ----- the two-step scan

  /** maxAttempts clamped into [1, n]. */
  function Cap(maxAttempts: int, n: nat): nat
    requires n >= 1
  {
    var m := if maxAttempts <= 0 then 1 else maxAttempts;
    if m > n then n else m
  }

  ghost predicate AllKnown(s: Snap, ids: seq<Id>) {
    && (forall i :: 0 <= i < |ids| ==> ids[i] in s.byID)
    && (forall i, j :: 0 <= i < j < |ids| ==> ids[i] != ids[j])
  }

  lemma {:induction false} KnownAll(s: Snap, ids: seq<Id>)
    requires AllKnown(s, ids)
    ensures |Known(s, ids)| == |ids|
    ensures forall i :: 0 <= i < |ids| ==> Known(s, ids)[i] == s.byID[ids[i]]
  {
    if ids != [] {
      KnownAll(s, ids[..|ids| - 1]);
    }
  }

  lemma KnownDistinct(s: Snap, ids: seq<Id>)
    requires Indexed(s) && AllKnown(s, ids)
    ensures NoDup(Known(s, ids)) && Within(Known(s, ids), s.backends)
    ensures |Known(s, ids)| == |ids|
    ensures forall m :: 0 <= m <= |ids| ==> Known(s, ids[..m]) == Known(s, ids)[..m]
  {
    hide Known;
    KnownAll(s, ids);
    forall i, j | 0 <= i < j < |ids| ensures Known(s, ids)[i] != Known(s, ids)[j] {
      assert s.byID[ids[i]].id == ids[i] && s.byID[ids[j]].id == ids[j];
    }
    forall m | 0 <= m <= |ids| ensures Known(s, ids[..m]) == Known(s, ids)[..m] {
      KnownAll(s, ids[..m]);
    }
  }

  /** Scanning the first m and, only if that leaves room, resuming over the whole order, is filtering the
      whole order. */
  lemma TwoStep(order: seq<Backend>, m: nat, max: nat, ok: Backend -> bool)
    requires NoDup(order) && m <= |order|
    ensures var one := Take(Extend([], order[..m], ok), max);
            (if |one| < max && m < |order| then Take(Extend(one, order, ok), max) else one) == Take(Filtered(order, ok), max)
  {
    hide Extend, Filtered;
    ExtendIsFilter(order[..m], ok);
    FilteredPrefix(order, m, ok);
    assert order == order[..m] + order[m..];
    ExtendResumes(order[..m], order[m..], ok);
    if m == |order| { assert order[..m] == order; }
  }

  /** The ring lists exactly the backends of the snapshot. */
  ghost predicate Synced(s: Snap, w1: map<Id, int>, r1: Snapshot, w2: map<Id, int>, r2: Snapshot) {
    w1.Keys == s.byID.Keys && w1 == w2 && r1 == r2
  }

  /** Rung one of the keyed path: the first maxAttempts of the preference order and, only if something was
      filtered out, the rest of it. */
  method ScanAvailable(s: Snap, H: Hasher, v: int, ghost w1: map<Id, int>, r1: Snapshot, ghost w2: map<Id, int>, r2: Snapshot,
                       key: string, max: nat, ask: Oracle, ghost ok: Backend -> bool)
    returns (out: seq<Backend>, ids: seq<Id>, t: nat)
    requires Indexed(s) && IsBuild(H, v, w1, r1) && IsBuild(H, v, w2, r2) && 1 <= max <= |s.backends|
    ensures NoDup(out) && Within(out, s.backends) && |out| <= max
    ensures Synced(s, w1, r1, w2, r2) && Steady(ask, FilterAvailable, ok, s.backends) ==>
              var order := Known(s, Prefer(r1, H.key(key)));
              out == Take(Filtered(order, ok), max) && (out == [] ==> Known(s, ids) == order)
  {
    hide Extend, Filtered, Known, IsBuild, Prefer, Steady, Indexed;
    ids := GetN(H, v, w1, r1, key, max);
    out, t := CollectRing([], s, ids, max, FilterAvailable, ask, 0, ok);
    if Synced(s, w1, r1, w2, r2) {
      SyncedOrder(s, H, v, w1, r1, H.key(key));
      assert Prefer(r1, H.key(key))[..|s.backends|] == Prefer(r1, H.key(key));
      TwoStep(Known(s, Prefer(r1, H.key(key))), |ids|, max, ok);
    }
    if |out| < max && |ids| < |s.backends| {
      ids := GetN(H, v, w2, r2, key, |s.backends|);
      out, t := CollectRing(out, s, ids, max, FilterAvailable, ask, t, ok);
    }
  }

  /** The rest of the ladder. It cannot come back empty-handed. */
  method FallBack(s: Snap, ids: seq<Id>, max: nat, ask: Oracle, t0: nat, ghost healthy: Backend -> bool)
    returns (out: seq<Backend>)
    requires Indexed(s) && 1 <= max <= |s.backends|
    ensures out != [] && NoDup(out) && Within(out, s.backends) && |out| <= max
    ensures Steady(ask, FilterHealthy, healthy, s.backends) && NoDup(Known(s, ids)) && Known(s, ids) != [] ==>
              var h := Filtered(Known(s, ids), healthy);
              out == Take(if h != [] then h else Known(s, ids), max)
  {
    hide Extend, Filtered, Known, Indexed;
    ghost var all: Backend -> bool := b => true;
    if NoDup(Known(s, ids)) {
      ExtendIsFilter(Known(s, ids), healthy);
      ExtendIsFilter(Known(s, ids), all);
      AllFiltered(Known(s, ids), all);
    }
    var t := t0;
    out, t := CollectRing([], s, ids, max, FilterHealthy, ask, t, healthy);
    if |out| > 0 { return; }
    out, t := CollectRing([], s, ids, max, FilterAny, ask, t, all);
    if |out| > 0 { return; }
    IndexedDistinct(s);
    out, t := CollectRotation(s.backends, 0, max, FilterAny, ask, t, all);
    AllFiltered(Rotated(s.backends, 0), all);
  }

  lemma IndexedDistinct(s: Snap)
    requires Indexed(s)
    ensures NoDup(s.backends)
  {}

  /** Pick for a keyed request. `r1` and `r2` are the ring snapshots its two GetN calls load; they may lag
      behind the backend snapshot and differ from each other.

      Whatever the answers, the result is a non-empty, duplicate-free list of at most maxAttempts backends
      of the snapshot. With steady answers and a ring that matches the snapshot it is the ladder applied to
      the whole preference order. */
  method PickKeyed(s: Snap, H: Hasher, v: int, ghost w1: map<Id, int>, r1: Snapshot, ghost w2: map<Id, int>, r2: Snapshot,
                   key: string, maxAttempts: int, ask: Oracle,
                   ghost available: Backend -> bool, ghost healthy: Backend -> bool)
    returns (out: seq<Backend>)
    requires Indexed(s) && IsBuild(H, v, w1, r1) && IsBuild(H, v, w2, r2)
    ensures s.backends == [] ==> out == []
    ensures s.backends != [] ==> out != [] && |out| <= (if maxAttempts < 1 then 1 else maxAttempts)
    ensures NoDup(out) && Within(out, s.backends)
    ensures s.backends != [] && Synced(s, w1, r1, w2, r2)
            && Steady(ask, FilterAvailable, available, s.backends) && Steady(ask, FilterHealthy, healthy, s.backends)
            ==> var order := Known(s, Prefer(r1, H.key(key)));
                && out == Ladder(order, Cap(maxAttempts, |s.backends|), available, healthy)
                && Serves(order, out, maxAttempts, available, healthy)
  {
    hide Filtered, Known, IsBuild, Prefer, Steady, Indexed, Serves;
    if |s.backends| == 0 { return []; }
    var max := Cap(maxAttempts, |s.backends|);
    if Synced(s, w1, r1, w2, r2) {
      SyncedOrder(s, H, v, w1, r1, H.key(key));
      LadderServes(Known(s, Prefer(r1, H.key(key))), maxAttempts, available, healthy);
    }
    var ids, t;
    out, ids, t := ScanAvailable(s, H, v, w1, r1, w2, r2, key, max, ask, available);
    if |out| > 0 { return; }
    out := FallBack(s, ids, max, ask, t, healthy);
  }

  lemma {:induction false} AllFiltered(bs: seq<Backend>, ok: Backend -> bool)
    requires forall b :: b in bs ==> ok(b)
    ensures Filtered(bs, ok) == bs
  {
    if bs != [] {
      assert forall b :: b in bs[..|bs| - 1] ==> b in bs;
      AllFiltered(bs[..|bs| - 1], ok);
      assert bs[|bs| - 1] in bs;
    }
  }

  /** On a ring that matches the snapshot the preference order lists every backend once. */
  lemma SyncedOrder(s: Snap, H: Hasher, v: int, w: map<Id, int>, r: Snapshot, h: nat)
    requires Indexed(s) && IsBuild(H, v, w, r) && w.Keys == s.byID.Keys
    ensures AllKnown(s, Prefer(r, h)) && |Prefer(r, h)| == |s.backends| == |w|
    ensures NoDup(Known(s, Prefer(r, h))) && |Known(s, Prefer(r, h))| == |s.backends|
    ensures forall m :: 0 <= m <= |s.backends| ==> Known(s, Prefer(r, h)[..m]) == Known(s, Prefer(r, h))[..m]
  {
    hide Prefer, IsBuild, Known;
    PreferIsPermutation(H, v, w, r, h);
    forall i | 0 <= i < |Prefer(r, h)| ensures Prefer(r, h)[i] in s.byID {
      assert Prefer(r, h)[i] in Prefer(r, h);
      assert Prefer(r, h)[i] in w.Keys;
    }
    BackendCount(s);
    assert |w| == |w.Keys|;
    KnownDistinct(s, Prefer(r, h));
  }

  lemma BackendCount(s: Snap)
    requires Indexed(s)
    ensures |s.backends| == |s.byID.Keys|
  {
    var ids := seq(|s.backends|, i requires 0 <= i < |s.backends| => s.backends[i].id);
    forall i, j | 0 <= i < j < |ids| ensures ids[i] != ids[j] {
      assert s.byID[s.backends[i].id] == s.backends[i] && s.byID[s.backends[j].id] == s.backends[j];
    }
    forall id ensures id in ids <==> id in s.byID.Keys {
      if id in s.byID {
        var i :| 0 <= i < |s.backends| && s.backends[i] == s.byID[id];
        assert ids[i] == id;
      }
    }
    DistinctCount(ids, s.byID.Keys);
  }

  // ----- keyless requests

  const WRAP := 0x1_0000_0000_0000_0000

  /** What a keyless request gets when the counter stands at `rr`. */
  function Keyless(bs: seq<Backend>, rr: nat, maxAttempts: int, available: Backend -> bool, healthy: Backend -> bool): seq<Backend>
    requires bs != []
  {
    Ladder(Rotated(bs, rr % |bs|), Cap(maxAttempts, |bs|), available, healthy)
  }

  /** Pick for a request without a key: the ladder over the backends, rotated by the counter. */
  method PickKeyless(s: Snap, rr: nat, maxAttempts: int, ask: Oracle,
                     ghost available: Backend -> bool, ghost healthy: Backend -> bool)
    returns (out: seq<Backend>, next: nat)
    requires Indexed(s) && rr < WRAP
    ensures s.backends == [] ==> out == [] && next == rr
    ensures s.backends != [] ==> out != [] && |out| <= (if maxAttempts < 1 then 1 else maxAttempts) && next == Later(rr, 1)
    ensures NoDup(out) && Within(out, s.backends)
    ensures s.backends != []
            && Steady(ask, FilterAvailable, available, s.backends) && Steady(ask, FilterHealthy, healthy, s.backends)
            ==> && out == Keyless(s.backends, rr, maxAttempts, available, healthy)
                && Serves(Rotated(s.backends, rr % |s.backends|), out, maxAttempts, available, healthy)
  {
    hide Filtered, Indexed, Serves;
    if |s.backends| == 0 { return [], rr; }
    IndexedDistinct(s);
    RotatedNoDup(s.backends, rr % |s.backends|);
    LadderServes(Rotated(s.backends, rr % |s.backends|), maxAttempts, available, healthy);
    var max := Cap(maxAttempts, |s.backends|);
    next := Later(rr, 1);
    var start := rr % |s.backends|;
    ghost var all: Backend -> bool := b => true;
    AllFiltered(Rotated(s.backends, start), all);
    var t := 0;
    out, t := CollectRotation(s.backends, start, max, FilterAvailable, ask, t, available);
    if |out| > 0 { return; }
    out, t := CollectRotation(s.backends, start, max, FilterHealthy, ask, t, healthy);
    if |out| > 0 { return; }
    out, t := CollectRotation(s.backends, start, max, FilterAny, ask, t, all);
  }

  /** Where the counter stands `i` keyless requests after `rr`. */
  function Later(rr: nat, i: nat): (r: nat)
    ensures r < WRAP
  {
    (rr + i) % WRAP
  }

  lemma KeylessHead(bs: seq<Backend>, rr: nat, maxAttempts: int, available: Backend -> bool, healthy: Backend -> bool)
    requires bs != [] && forall b :: b in bs ==> available(b)
    ensures var out := Keyless(bs, rr, maxAttempts, available, healthy); out != [] && out[0] == bs[rr % |bs|]
  {
    var order := Rotated(bs, rr % |bs|);
    AllFiltered(order, available);
    assert order[0] == bs[rr % |bs|];
  }

  /** The first choices of one lap of keyless requests, as many as there are backends, are all different. */
  ghost predicate EvenLap(bs: seq<Backend>, rr: nat, maxAttempts: int, available: Backend -> bool, healthy: Backend -> bool)
    requires bs != []
  {
    forall i, j :: 0 <= i < j < |bs| ==>
      Take(Keyless(bs, Later(rr, i), maxAttempts, available, healthy), 1)
        != Take(Keyless(bs, Later(rr, j), maxAttempts, available, healthy), 1)
  }

  /** While all N backends stay available, N keyless requests in a row go to N different backends, except across
      the wrap-around of the 64-bit counter, where they do exactly if N divides 2^64. */
  lemma KeylessLapIsEven(bs: seq<Backend>, rr: nat, maxAttempts: int, available: Backend -> bool, healthy: Backend -> bool)
    requires bs != [] && NoDup(bs) && rr < WRAP && forall b :: b in bs ==> available(b)
    ensures EvenLap(bs, rr, maxAttempts, available, healthy) <==> rr + |bs| <= WRAP || WRAP % |bs| == 0
  {
    hide Keyless;
    var n := |bs|;
    forall i: nat
      ensures Take(Keyless(bs, Later(rr, i), maxAttempts, available, healthy), 1) == [bs[Later(rr, i) % n]]
    {
      KeylessHead(bs, Later(rr, i), maxAttempts, available, healthy);
    }
    if rr + n <= WRAP || WRAP % n == 0 {
      forall i, j | 0 <= i < j < n ensures bs[Later(rr, i) % n] != bs[Later(rr, j) % n] {
        LapSpreads(rr, n, i, j);
      }
    } else {
      var i, j := LapCollides(rr, n);
    }
  }

  /** With three backends the lap across the wrap-around is not even. */
  lemma UnevenAtTheWrap(bs: seq<Backend>, maxAttempts: int, available: Backend -> bool, healthy: Backend -> bool)
    requires |bs| == 3 && NoDup(bs) && forall b :: b in bs ==> available(b)
    ensures !EvenLap(bs, WRAP - 1, maxAttempts, available, healthy)
  {
    KeylessLapIsEven(bs, WRAP - 1, maxAttempts, available, healthy);
  }

  lemma LapSpreads(rr: nat, n: nat, i: nat, j: nat)
    requires rr < WRAP && i < j < n && (rr + n <= WRAP || WRAP % n == 0)
    ensures Later(rr, i) % n != Later(rr, j) % n
  {
    RotationIsEven(rr, n, i, j);
    if rr + n <= WRAP {
      WrapIs(rr + i, WRAP);
      WrapIs(rr + j, WRAP);
    } else {
      ModMod(rr + i, n);
      ModMod(rr + j, n);
    }
  }

  /** Across the wrap-around two requests of a lap start at the same backend. */
  lemma LapCollides(rr: nat, n: nat) returns (i: nat, j: nat)
    requires n >= 1 && rr < WRAP < rr + n && WRAP % n != 0
    ensures i < j < n && Later(rr, i) % n == Later(rr, j) % n
  {
    var k := WRAP - rr;
    var q, r := DivMod(WRAP, n);
    if n > WRAP {
      i, j := 0, WRAP;
      WrapIs(rr, WRAP);
      WrapIs(rr + WRAP, WRAP);
    } else if k <= r {
      i, j := 0, r;
      WrapIs(rr, WRAP);
      WrapIs(rr + r, WRAP);
      RemainderIs(rr, q, r - k, n);
      RemainderIs(r - k, 0, r - k, n);
    } else {
      i, j := k - r, k;
      WrapIs(rr + i, WRAP);
      WrapIs(rr + k, WRAP);
      RemainderIs(WRAP - r, q, 0, n);
      RemainderIs(0, 0, 0, n);
    }
  }

  lemma ModMod(x: nat, n: nat)
    requires n >= 1 && WRAP % n == 0
    ensures (x % WRAP) % n == x % n
  {
    var q, p := x / WRAP, WRAP / n;
    var y := x % WRAP;
    assert WRAP == p * n;
    assert x == q * WRAP + y;
    assert y == (y / n) * n + y % n;
    assert x == (q * p + y / n) * n + y % n by {
      assert q * WRAP == q * (p * n) == (q * p) * n;
      assert (q * p + y / n) * n == (q * p) * n + (y / n) * n;
    }
    RemainderIs(x, q * p + y / n, y % n, n);
  }

  lemma RotationIsEven(c: nat, n: nat, i: nat, j: nat)
    requires n >= 1 && i < j < n
    ensures (c + i) % n != (c + j) % n
  {
    var r := c % n;
    assert c == (c / n) * n + r;
    ShiftMod(c, n, i);
    ShiftMod(c, n, j);
    WrapIs(r + i, n);
    WrapIs(r + j, n);
  }

  lemma ShiftMod(c: nat, n: nat, i: nat)
    requires n >= 1
    ensures (c + i) % n == (c % n + i) % n
  {
    var q, p := c / n, (c % n + i) / n;
    assert c + i == (q + p) * n + (c % n + i) % n by {
      assert c == q * n + c % n;
      assert c % n + i == p * n + (c % n + i) % n;
      assert (q + p) * n == q * n + p * n;
    }
    RemainderIs(c + i, q + p, (c % n + i) % n, n);
  }

  // ----- session affinity

  function Ids(bs: seq<Backend>): seq<Id> {
    seq(|bs|, i requires 0 <= i < |bs| => bs[i].id)
  }

  /** The ids of the backends that are available. */
  ghost function Up(s: Snap, available: Backend -> bool): set<Id> {
    set id | id in s.byID && available(s.byID[id])
  }

  lemma {:induction false} FilteredIds(s: Snap, ids: seq<Id>, available: Backend -> bool)
    requires Indexed(s) && forall i :: 0 <= i < |ids| ==> ids[i] in s.byID
    ensures Ids(Filtered(Known(s, ids), available)) == KeepIds(ids, Up(s, available))
  {
    if ids != [] {
      var rest, last := ids[..|ids| - 1], ids[|ids| - 1];
      FilteredIds(s, rest, available);
      var b := s.byID[last];
      FilteredAppend(Known(s, rest), b, available);
      if available(b) {
        assert Ids(Filtered(Known(s, rest), available) + [b]) == Ids(Filtered(Known(s, rest), available)) + [b.id];
      }
    }
  }

  /** As long as some backend is available, a keyed request is routed exactly as by a ring that had been
      rebuilt from the available backends only: to the first maxAttempts of its preference order. */
  lemma RoutesLikeRebuiltRing(s: Snap, H: Hasher, v: int, w: map<Id, int>, r: Snapshot, u: Snapshot, h: nat, maxAttempts: int,
                              available: Backend -> bool, healthy: Backend -> bool)
    requires Indexed(s) && s.backends != [] && w.Keys == s.byID.Keys && IsBuild(H, v, w, r)
    requires Up(s, available) != {} && IsBuild(H, v, Only(w, Up(s, available)), u)
    ensures var want := if maxAttempts < 1 then 1 else maxAttempts;
            Ids(Ladder(Known(s, Prefer(r, h)), Cap(maxAttempts, |s.backends|), available, healthy))
            == Prefer(u, h)[..Min(want, |Prefer(u, h)|)]
  {
    hide Prefer, IsBuild, Indexed, Known, Filtered, Up;
    SyncedOrder(s, H, v, w, r, h);
    FilteredIds(s, Prefer(r, h), available);
    FilterIsRebuild(H, v, w, Up(s, available), r, u, h);
    SomeAvailable(s, H, v, w, available, u, h);
    var a, max := Filtered(Known(s, Prefer(r, h)), available), Cap(maxAttempts, |s.backends|);
    FilteredShort(Known(s, Prefer(r, h)), available);
    assert |Ids(a)| == |a| && a != [];
    assert Ids(Take(a, max)) == Take(Ids(a), max);
  }

  lemma SomebodyIsUp(s: Snap, available: Backend -> bool)
    requires Indexed(s) && Up(s, available) != {}
    ensures s.backends != []
  {
    var id :| id in Up(s, available);
    assert s.byID[id] in s.backends;
  }

  lemma SomeAvailable(s: Snap, H: Hasher, v: int, w: map<Id, int>, available: Backend -> bool, u: Snapshot, h: nat)
    requires w.Keys == s.byID.Keys && Up(s, available) != {} && IsBuild(H, v, Only(w, Up(s, available)), u)
    ensures Prefer(u, h) != []
  {
    hide Prefer, IsBuild;
    var id :| id in Up(s, available);
    PreferIsPermutation(H, v, Only(w, Up(s, available)), u, h);
    assert id in Only(w, Up(s, available));
    assert id in Prefer(u, h);
  }

  lemma {:induction false} FilteredHead(bs: seq<Backend>, ok: Backend -> bool, fewer: Backend -> bool)
    requires forall b :: b in bs && fewer(b) ==> ok(b)
    requires Filtered(bs, ok) != [] && fewer(Filtered(bs, ok)[0])
    ensures Filtered(bs, fewer) != [] && Filtered(bs, fewer)[0] == Filtered(bs, ok)[0]
  {
    var rest := bs[..|bs| - 1];
    assert forall b :: b in rest ==> b in bs;
    if Filtered(rest, ok) != [] {
      FilteredHead(rest, ok, fewer);
    } else {
      NothingFewer(rest, ok, fewer);
    }
  }

  lemma {:induction false} NothingFewer(bs: seq<Backend>, ok: Backend -> bool, fewer: Backend -> bool)
    requires (forall b :: b in bs && fewer(b) ==> ok(b)) && Filtered(bs, ok) == []
    ensures Filtered(bs, fewer) == []
  {
    if bs != [] {
      assert forall b :: b in bs[..|bs| - 1] ==> b in bs;
      NothingFewer(bs[..|bs| - 1], ok, fewer);
      assert bs[|bs| - 1] in bs;
    }
  }

  /** Backends going down move only the keys they served: a key whose first choice is still up keeps it. */
  lemma OutageMovesOnlyItsKeys(order: seq<Backend>, max: nat, before: Backend -> bool, after: Backend -> bool,
                               healthy: Backend -> bool, healthy': Backend -> bool)
    requires max >= 1 && Filtered(order, before) != []
    requires forall b :: b in order && after(b) ==> before(b)
    requires after(Ladder(order, max, before, healthy)[0])
    ensures Ladder(order, max, after, healthy') != []
    ensures Ladder(order, max, after, healthy')[0] == Ladder(order, max, before, healthy)[0]
  {
    FilteredHead(order, before, after);
  }

  // ----- the balancer object

  function MembersOf(bs: seq<Backend>): seq<Member> {
    seq(|bs|, i requires 0 <= i < |bs| => Member(bs[i].id, bs[i].weight))
  }

  ghost predicate UniqueIds(bs: seq<Backend>) {
    forall i, j :: 0 <= i < j < |bs| ==> bs[i].id != bs[j].id
  }

  method SameMembership(cur: seq<Backend>, next: seq<Backend>) returns (same: bool)
    ensures same <==> cur == next
  {
    if |cur| != |next| { return false; }
    for i := 0 to |next|
      invariant cur[..i] == next[..i]
    {
      if cur[i] != next[i] { return false; }
    }
    return true;
  }

  method IndexById(bs: seq<Backend>) returns (byID: map<Id, Backend>)
    requires UniqueIds(bs)
    ensures Indexed(Snap(bs, byID))
  {
    byID := map[];
    for i := 0 to |bs|
      invariant forall k :: 0 <= k < i ==> bs[k].id in byID && byID[bs[k].id] == bs[k]
      invariant forall id :: id in byID ==> byID[id] in bs[..i] && byID[id].id == id
    {
      byID := byID[bs[i].id := bs[i]];
    }
  }

  lemma {:induction false} FinalKeys(ms: seq<Member>, id: Id)
    ensures id in Final(ms) <==> exists i :: 0 <= i < |ms| && ms[i].id == id
  {
    if ms != [] {
      FinalKeys(ms[..|ms| - 1], id);
    }
  }

  class Balancer {
    const ring: Ring
    var snap: Snap
    var rr: nat
    var closed: bool

    /** The ring holds every configured backend, whatever its health. */
    ghost predicate Valid()
      reads this, ring
    {
      && ring.Valid() && Indexed(snap) && rr < WRAP
      && ring.weights == Final(MembersOf(snap.backends))
    }

    constructor (ring: Ring)
      requires ring.Valid() && ring.weights == map[]
      ensures Valid() && this.ring == ring && snap.backends == [] && !closed
    {
      this.ring := ring;
      snap, rr, closed := Snap([], map[]), 0, false;
    }

    lemma RingMatches()
      requires Valid()
      ensures Synced(snap, ring.weights, ring.snap, ring.weights, ring.snap)
    {
      forall id ensures id in ring.weights <==> id in snap.byID {
        FinalKeys(MembersOf(snap.backends), id);
        if id in snap.byID {
          var i :| 0 <= i < |snap.backends| && snap.backends[i] == snap.byID[id];
          assert MembersOf(snap.backends)[i].id == id;
        }
      }
    }

    /** Rebuild: afterwards ring and snapshot are those of the pool, unless the balancer was closed. */
    method Rebuild(backends: seq<Backend>)
      requires Valid() && UniqueIds(backends)
      modifies this`snap, ring
      ensures Valid() && snap.backends == if closed then old(snap.backends) else backends
      ensures closed || old(snap.backends) == backends ==> ring.snap == old(ring.snap)
    {
      if closed { return; }
      var same := SameMembership(snap.backends, backends);
      if !same {
        var byID := IndexById(backends);
        ring.Set(MembersOf(backends));
        snap := Snap(backends, byID);
      }
    }

    /** Pick. Never empty unless the pool is, duplicate-free, at most maxAttempts, drawn from the pool; and with
        steady health and breakers exactly the ladder over the key's preference order, or over the rotation. */
    method Pick(key: string, maxAttempts: int, ask: Oracle, ghost available: Backend -> bool, ghost healthy: Backend -> bool)
      returns (out: seq<Backend>)
      requires Valid()
      modifies this`rr
      ensures Valid()
      ensures out == [] <==> snap.backends == []
      ensures |out| <= if maxAttempts < 1 then 1 else maxAttempts
      ensures NoDup(out) && Within(out, snap.backends)
      ensures rr == if key != "" || snap.backends == [] then old(rr) else Later(old(rr), 1)
      ensures snap.backends != []
              && Steady(ask, FilterAvailable, available, snap.backends) && Steady(ask, FilterHealthy, healthy, snap.backends)
              ==> && Serves(if key == "" then Rotated(snap.backends, old(rr) % |snap.backends|)
                            else Known(snap, Prefer(ring.snap, ring.H.key(key))), out, maxAttempts, available, healthy)
                  && (key == "" ==> out == Keyless(snap.backends, old(rr), maxAttempts, available, healthy))
      ensures key != "" && Up(snap, available) != {}
              && Steady(ask, FilterAvailable, available, snap.backends) && Steady(ask, FilterHealthy, healthy, snap.backends)
              ==> forall u :: IsBuild(ring.H, ring.virtualNodes, Only(ring.weights, Up(snap, available)), u) ==>
                    var pref := Prefer(u, ring.H.key(key));
                    Ids(out) == pref[..Min(if maxAttempts < 1 then 1 else maxAttempts, |pref|)]
    {
      hide Ladder, Prefer, Known, Indexed, Steady, IsBuild, Serves, Up, Only, Ids;
      if key == "" {
        var next;
        out, next := PickKeyless(snap, rr, maxAttempts, ask, available, healthy);
        rr := next;
        return;
      }
      RingMatches();
      out := PickKeyed(snap, ring.H, ring.virtualNodes, ring.weights, ring.snap, ring.weights, ring.snap,
                       key, maxAttempts, ask, available, healthy);
      if Up(snap, available) != {} {
        SomebodyIsUp(snap, available);
        forall u | IsBuild(ring.H, ring.virtualNodes, Only(ring.weights, Up(snap, available)), u)
          ensures var pref := Prefer(u, ring.H.key(key));
                  Ids(Ladder(Known(snap, Prefer(ring.snap, ring.H.key(key))), Cap(maxAttempts, |snap.backends|), available, healthy))
                  == pref[..Min(if maxAttempts < 1 then 1 else maxAttempts, |pref|)]
        {
          RoutesLikeRebuiltRing(snap, ring.H, ring.virtualNodes, ring.weights, ring.snap, u, ring.H.key(key), maxAttempts,
                                available, healthy);
        }
      }
    }
  }
}
