/** Points on the ring, their order, and the clockwise walk over distinct owners. The hash functions are
    parameters: nothing here depends on what they compute, and collisions are allowed. */
module RingOrder {
  import opened Sorting

  type Id = string

  /** Lexicographic order on ids, as cmp.Compare orders strings. */
  predicate IdLe(a: Id, b: Id) {
    a == [] || (b != [] && (a[0] < b[0] || (a[0] == b[0] && IdLe(a[1..], b[1..]))))
  }

  datatype Point = Point(hash: nat, owner: Id)

  /** The sort order of the ring: by hash, ties by owner. */
  predicate PointLe(p: Point, q: Point) {
    p.hash < q.hash || (p.hash == q.hash && IdLe(p.owner, q.owner))
  }

  lemma {:induction false} IdTotal(a: Id, b: Id)
    ensures IdLe(a, b) || IdLe(b, a)
    ensures IdLe(a, b) && IdLe(b, a) ==> a == b
  {
    if a != [] && b != [] {
      IdTotal(a[1..], b[1..]);
      assert a == [a[0]] + a[1..] && b == [b[0]] + b[1..];
    }
  }

  lemma {:induction false} IdTransitive(a: Id, b: Id, c: Id)
    requires IdLe(a, b) && IdLe(b, c)
    ensures IdLe(a, c)
  {
    if a != [] && b != [] && c != [] && a[0] == b[0] == c[0] {
      IdTransitive(a[1..], b[1..], c[1..]);
    }
  }

  lemma IdOrder()
    ensures TotalOrder(IdLe)
  {
    forall a, b ensures IdLe(a, b) || IdLe(b, a) ensures IdLe(a, b) && IdLe(b, a) ==> a == b { IdTotal(a, b); }
    forall a, b, c | IdLe(a, b) && IdLe(b, c) ensures IdLe(a, c) { IdTransitive(a, b, c); }
  }

  lemma PointOrder()
    ensures TotalOrder(PointLe)
  {
    hide IdLe;
    IdOrder();
    forall p, q ensures PointLe(p, q) || PointLe(q, p) ensures PointLe(p, q) && PointLe(q, p) ==> p == q {}
    forall p, q, r | PointLe(p, q) && PointLe(q, r) ensures PointLe(p, r) {}
  }

  // ----- filtering

  /** The points of the owners in `A`, in order. */
  function Keep(ps: seq<Point>, A: set<Id>): (r: seq<Point>)
  {
    if ps == [] then []
    else
      var r := Keep(ps[..|ps| - 1], A);
      if ps[|ps| - 1].owner in A then r + [ps[|ps| - 1]] else r
  }

  function KeepIds(ids: seq<Id>, A: set<Id>): (r: seq<Id>)
    ensures |r| <= |ids|
  {
    if ids == [] then []
    else
      var r := KeepIds(ids[..|ids| - 1], A);
      if ids[|ids| - 1] in A then r + [ids[|ids| - 1]] else r
  }

  /** The points at or after `h`, and those before it. */
  function From(ps: seq<Point>, h: nat): (r: seq<Point>)
  {
    if ps == [] then []
    else
      var r := From(ps[..|ps| - 1], h);
      if ps[|ps| - 1].hash >= h then r + [ps[|ps| - 1]] else r
  }

  function Below(ps: seq<Point>, h: nat): (r: seq<Point>)
  {
    if ps == [] then []
    else
      var r := Below(ps[..|ps| - 1], h);
      if ps[|ps| - 1].hash < h then r + [ps[|ps| - 1]] else r
  }

  /** The ring read clockwise from position `h`. */
  function Around(ps: seq<Point>, h: nat): seq<Point> {
    From(ps, h) + Below(ps, h)
  }

  /** The distinct owners in the order they are first met. */
  function Walk(ps: seq<Point>): (r: seq<Id>)
  {
    if ps == [] then []
    else
      var last := ps[|ps| - 1];
      var r := Walk(ps[..|ps| - 1]);
      if last.owner in r then r else r + [last.owner]
  }

  lemma {:induction false} KeepIdsMembers(ids: seq<Id>, A: set<Id>, x: Id)
    ensures x in KeepIds(ids, A) <==> x in ids && x in A
  {
    if ids != [] {
      KeepIdsMembers(ids[..|ids| - 1], A, x);
      assert ids == ids[..|ids| - 1] + [ids[|ids| - 1]];
    }
  }

  /** The walk meets every owner, and each of them once. */
  lemma {:induction false} WalkMembers(ps: seq<Point>, x: Id)
    ensures x in Walk(ps) <==> exists p :: p in ps && p.owner == x
  {
    if ps != [] {
      var rest, last := ps[..|ps| - 1], ps[|ps| - 1];
      WalkMembers(rest, x);
      assert forall p :: p in ps <==> p in rest || p == last by { assert ps == rest + [last]; }
    }
  }

  lemma {:induction false} WalkDistinct(ps: seq<Point>)
    ensures forall i, j :: 0 <= i < j < |Walk(ps)| ==> Walk(ps)[i] != Walk(ps)[j]
  {
    if ps != [] { WalkDistinct(ps[..|ps| - 1]); }
  }

  lemma KeepAppend(ps: seq<Point>, p: Point, A: set<Id>)
    ensures Keep(ps + [p], A) == if p.owner in A then Keep(ps, A) + [p] else Keep(ps, A)
  {
    assert (ps + [p])[..|ps + [p]| - 1] == ps;
  }

  lemma {:induction false} KeepConcat(ps: seq<Point>, qs: seq<Point>, A: set<Id>)
    ensures Keep(ps + qs, A) == Keep(ps, A) + Keep(qs, A)
  {
    if qs == [] {
      assert ps + qs == ps;
    } else {
      var rest, last := qs[..|qs| - 1], qs[|qs| - 1];
      assert qs == rest + [last] && ps + qs == (ps + rest) + [last];
      KeepConcat(ps, rest, A);
      KeepAppend(ps + rest, last, A);
      KeepAppend(rest, last, A);
    }
  }

  lemma FromAppend(ps: seq<Point>, p: Point, h: nat)
    ensures From(ps + [p], h) == if p.hash >= h then From(ps, h) + [p] else From(ps, h)
    ensures Below(ps + [p], h) == if p.hash < h then Below(ps, h) + [p] else Below(ps, h)
  {
    assert (ps + [p])[..|ps + [p]| - 1] == ps;
  }

  lemma {:induction false} KeepSplits(ps: seq<Point>, h: nat, A: set<Id>)
    ensures From(Keep(ps, A), h) == Keep(From(ps, h), A)
    ensures Below(Keep(ps, A), h) == Keep(Below(ps, h), A)
  {
    if ps != [] {
      var rest, last := ps[..|ps| - 1], ps[|ps| - 1];
      KeepSplits(rest, h, A);
      FromAppend(Keep(rest, A), last, h);
      KeepAppend(From(rest, h), last, A);
      KeepAppend(Below(rest, h), last, A);
    }
  }

  /** Filtering commutes with reading the ring from a position. */
  lemma KeepAround(ps: seq<Point>, h: nat, A: set<Id>)
    ensures Around(Keep(ps, A), h) == Keep(Around(ps, h), A)
  {
    KeepSplits(ps, h, A);
    KeepConcat(From(ps, h), Below(ps, h), A);
  }

  lemma WalkAppend(ps: seq<Point>, p: Point)
    ensures Walk(ps + [p]) == if p.owner in Walk(ps) then Walk(ps) else Walk(ps) + [p.owner]
  {
    assert (ps + [p])[..|ps + [p]| - 1] == ps;
  }

  lemma KeepIdsAppend(ids: seq<Id>, x: Id, A: set<Id>)
    ensures KeepIds(ids + [x], A) == if x in A then KeepIds(ids, A) + [x] else KeepIds(ids, A)
  {
    assert (ids + [x])[..|ids + [x]| - 1] == ids;
  }

  /** Walking over some owners only is the whole walk with the others left out. */
  lemma {:induction false} WalkKeep(ps: seq<Point>, A: set<Id>)
    ensures Walk(Keep(ps, A)) == KeepIds(Walk(ps), A)
  {
    if ps != [] {
      var rest, last := ps[..|ps| - 1], ps[|ps| - 1];
      WalkKeep(rest, A);
      WalkAppend(Keep(rest, A), last);
      KeepIdsAppend(Walk(rest), last.owner, A);
      KeepIdsMembers(Walk(rest), A, last.owner);
    }
  }

  lemma {:induction false} WalkPrefix(ps: seq<Point>, qs: seq<Point>)
    ensures Walk(ps) <= Walk(ps + qs)
  {
    if qs == [] {
      assert ps + qs == ps;
    } else {
      var rest, last := qs[..|qs| - 1], qs[|qs| - 1];
      assert ps + qs == (ps + rest) + [last];
      WalkPrefix(ps, rest);
      WalkAppend(ps + rest, last);
    }
  }

  // ----- positions

  /** The index the binary search returns: the first point at or after h, wrapping to 0. */
  ghost predicate IsIndex(ps: seq<Point>, h: nat, i: nat) {
    && i < |ps|
    && if ps[i].hash >= h then forall j :: 0 <= j < i ==> ps[j].hash < h
       else i == 0 && forall j :: 0 <= j < |ps| ==> ps[j].hash < h
  }

  lemma {:induction false} AllFrom(ps: seq<Point>, h: nat)
    requires forall j :: 0 <= j < |ps| ==> ps[j].hash >= h
    ensures From(ps, h) == ps && Below(ps, h) == []
  {
    if ps != [] { AllFrom(ps[..|ps| - 1], h); }
  }

  lemma {:induction false} AllBelow(ps: seq<Point>, h: nat)
    requires forall j :: 0 <= j < |ps| ==> ps[j].hash < h
    ensures From(ps, h) == [] && Below(ps, h) == ps
  {
    if ps != [] { AllBelow(ps[..|ps| - 1], h); }
  }

  lemma {:induction false} SplitConcat(ps: seq<Point>, qs: seq<Point>, h: nat)
    ensures From(ps + qs, h) == From(ps, h) + From(qs, h)
    ensures Below(ps + qs, h) == Below(ps, h) + Below(qs, h)
  {
    if qs == [] {
      assert ps + qs == ps;
    } else {
      var rest, last := qs[..|qs| - 1], qs[|qs| - 1];
      assert qs == rest + [last] && ps + qs == (ps + rest) + [last];
      SplitConcat(ps, rest, h);
      FromAppend(ps + rest, last, h);
      FromAppend(rest, last, h);
      hide From, Below;
      assert (From(ps, h) + From(rest, h)) + [last] == From(ps, h) + (From(rest, h) + [last]);
      assert (Below(ps, h) + Below(rest, h)) + [last] == Below(ps, h) + (Below(rest, h) + [last]);
    }
  }

  /** On a sorted ring, going round from the index is reading from the position. */
  lemma RotationIsAround(ps: seq<Point>, h: nat, i: nat)
    requires Sorted(ps, PointLe) && IsIndex(ps, h, i)
    ensures ps[i..] + ps[..i] == Around(ps, h)
  {
    hide IdLe, From, Below;
    if ps[i].hash >= h {
      assert forall j :: i <= j < |ps| ==> ps[j].hash >= h by {
        forall j | i < j < |ps| ensures ps[j].hash >= h { assert PointLe(ps[i], ps[j]); }
      }
      hide Sorted;
      AllBelow(ps[..i], h);
      AllFrom(ps[i..], h);
      assert ps == ps[..i] + ps[i..];
      SplitConcat(ps[..i], ps[i..], h);
    } else {
      AllBelow(ps, h);
    }
  }

  /** Clockwise distance order from position h: p is met no later than q. */
  predicate Sooner(h: nat, p: Point, q: Point) {
    if (p.hash >= h) == (q.hash >= h) then PointLe(p, q) else p.hash >= h
  }

  /** The point at the index is the clockwise successor of the position: no point is met before it. */
  lemma IndexIsSuccessor(ps: seq<Point>, h: nat, i: nat)
    requires Sorted(ps, PointLe) && IsIndex(ps, h, i)
    ensures forall q :: q in ps ==> Sooner(h, ps[i], q)
  {
    hide IdLe;
    PointOrder();
    forall q | q in ps ensures Sooner(h, ps[i], q) {
      var j :| 0 <= j < |ps| && ps[j] == q;
      if i < j { assert PointLe(ps[i], ps[j]); }
    }
  }

  lemma SoonerAntisymmetric(h: nat, p: Point, q: Point)
    requires Sooner(h, p, q) && Sooner(h, q, p)
    ensures p == q
  {
    hide IdLe;
    PointOrder();
  }
}
