/** internal/hashring: the weighted consistent hash ring. */
module HashRing {
  import opened Arithmetic
  import opened Sorting
  import opened RingOrder

  datatype Member = Member(id: Id, weight: int)

  /** `points` stands for the parallel arrays of hashes and owners. */
  datatype Snapshot = Snapshot(points: seq<Point>, members: seq<Member>)

  /** xxhash of a key, and of the label of a member's i-th virtual node. */
  datatype Hasher = Hasher(key: string -> nat, node: (Id, nat) -> nat)

  function VnodeCount(virtualNodes: int, weight: int): (n: nat)
    ensures n >= 1
  {
    var w := if weight <= 0 then 100 else weight;
    var n := virtualNodes * w / 100;
    if n < 1 then 1 else n
  }

  // ----- what a snapshot has to be

  /** The last weight given for each id. */
  function Final(ms: seq<Member>): map<Id, int> {
    if ms == [] then map[] else Final(ms[..|ms| - 1])[ms[|ms| - 1].id := ms[|ms| - 1].weight]
  }

  /** How many of the first n virtual nodes of `id` hash to `h`. */
  function Hits(node: (Id, nat) -> nat, id: Id, n: nat, h: nat): nat {
    if n == 0 then 0 else Hits(node, id, n - 1, h) + if node(id, n - 1) == h then 1 else 0
  }

  /** How often point `p` belongs on the ring of these weights. */
  function Copies(H: Hasher, v: int, weights: map<Id, int>, p: Point): nat {
    if p.owner in weights then Hits(H.node, p.owner, VnodeCount(v, weights[p.owner]), p.hash) else 0
  }

  ghost predicate Roster(ms: seq<Member>, weights: map<Id, int>) {
    && (forall i, j :: 0 <= i < j < |ms| ==> IdLe(ms[i].id, ms[j].id) && ms[i].id != ms[j].id)
    && (forall i :: 0 <= i < |ms| ==> ms[i].id in weights && weights[ms[i].id] == ms[i].weight)
    && (forall id :: id in weights ==> exists i :: 0 <= i < |ms| && ms[i].id == id)
  }

  ghost predicate Placed(H: Hasher, v: int, weights: map<Id, int>, ps: seq<Point>) {
    forall p: Point :: multiset(ps)[p] == Copies(H, v, weights, p)
  }

  /** The ring of a weight map: every virtual node of every member, sorted, and the members sorted by id. */
  ghost predicate IsBuild(H: Hasher, v: int, weights: map<Id, int>, s: Snapshot) {
    Sorted(s.points, PointLe) && Placed(H, v, weights, s.points) && Roster(s.members, weights)
  }

  // ----- build

  predicate MemberLe(a: Member, b: Member) {
    IdLe(a.id, b.id) && (a.id == b.id ==> a.weight <= b.weight)
  }

  lemma MemberOrder()
    ensures TotalOrder(MemberLe)
  {
    hide IdLe;
    IdOrder();
  }

  lemma FinalAppend(ms: seq<Member>, m: Member)
    ensures Final(ms + [m]) == Final(ms)[m.id := m.weight]
  {
    assert (ms + [m])[..|ms + [m]| - 1] == ms;
  }

  method Collapse(members: seq<Member>) returns (uniq: map<Id, int>)
    ensures uniq == Final(members)
  {
    uniq := map[];
    for i := 0 to |members|
      invariant uniq == Final(members[..i])
    {
      assert members[..i + 1] == members[..i] + [members[i]];
      FinalAppend(members[..i], members[i]);
      uniq := uniq[members[i].id := members[i].weight];
    }
    assert members[..|members|] == members;
  }

  /** The members of a map, in whatever order the map is iterated. */
  method Listing(uniq: map<Id, int>) returns (ms: seq<Member>)
    ensures forall i, j :: 0 <= i < j < |ms| ==> ms[i].id != ms[j].id
    ensures forall i :: 0 <= i < |ms| ==> ms[i].id in uniq && uniq[ms[i].id] == ms[i].weight
    ensures forall id :: id in uniq ==> Member(id, uniq[id]) in ms
  {
    ms := [];
    var keys := uniq.Keys;
    while keys != {}
      invariant keys <= uniq.Keys
      invariant forall i, j :: 0 <= i < j < |ms| ==> ms[i].id != ms[j].id
      invariant forall i :: 0 <= i < |ms| ==> ms[i].id in uniq && ms[i].id !in keys && uniq[ms[i].id] == ms[i].weight
      invariant forall id :: id in uniq && id !in keys ==> Member(id, uniq[id]) in ms
      decreases |keys|
    {
      var id :| id in keys;
      ms := ms + [Member(id, uniq[id])];
      keys := keys - {id};
    }
  }

  /** Sorting a listing by id gives the roster. */
  lemma SortedRoster(ms: seq<Member>, uniq: map<Id, int>)
    requires forall i, j :: 0 <= i < j < |ms| ==> ms[i].id != ms[j].id
    requires forall i :: 0 <= i < |ms| ==> ms[i].id in uniq && uniq[ms[i].id] == ms[i].weight
    requires forall id :: id in uniq ==> Member(id, uniq[id]) in ms
    ensures Roster(Sort(ms, MemberLe), uniq)
  {
    hide IdLe, Sort, TotalOrder, Sorted, MemberLe;
    MemberOrder();
    SortSorted(ms, MemberLe);
    SameContents(ms, Sort(ms, MemberLe), uniq);
    StrictlySorted(ms, Sort(ms, MemberLe));
  }

  lemma StrictlySorted(ms: seq<Member>, r: seq<Member>)
    requires forall i, j :: 0 <= i < j < |ms| ==> ms[i].id != ms[j].id
    requires multiset(r) == multiset(ms) && Sorted(r, MemberLe)
    ensures forall i, j :: 0 <= i < j < |r| ==> IdLe(r[i].id, r[j].id) && r[i].id != r[j].id
  {
    hide IdLe;
    forall i, j | 0 <= i < j < |r| ensures IdLe(r[i].id, r[j].id) && r[i].id != r[j].id {
      assert MemberLe(r[i], r[j]);
      StaysDistinct(ms, r, i, j);
    }
  }

  lemma SameContents(ms: seq<Member>, r: seq<Member>, uniq: map<Id, int>)
    requires multiset(r) == multiset(ms)
    requires forall i :: 0 <= i < |ms| ==> ms[i].id in uniq && uniq[ms[i].id] == ms[i].weight
    requires forall id :: id in uniq ==> Member(id, uniq[id]) in ms
    ensures forall i :: 0 <= i < |r| ==> r[i].id in uniq && uniq[r[i].id] == r[i].weight
    ensures forall id :: id in uniq ==> exists i :: 0 <= i < |r| && r[i].id == id
  {
    forall i | 0 <= i < |r| ensures r[i] in ms { assert r[i] in multiset(r); }
    forall id | id in uniq ensures exists i :: 0 <= i < |r| && r[i].id == id {
      assert Member(id, uniq[id]) in multiset(r);
    }
  }

  lemma StaysDistinct(ms: seq<Member>, r: seq<Member>, i: nat, j: nat)
    requires forall i, j :: 0 <= i < j < |ms| ==> ms[i].id != ms[j].id
    requires multiset(r) == multiset(ms) && i < j < |r|
    ensures r[i].id != r[j].id
  {
    DistinctOnce(ms, r[i]);
    if r[i].id == r[j].id {
      assert r[i] in multiset(r) && r[j] in multiset(r);
      assert r[i] in ms && r[j] in ms;
      TwiceCounted(r, i, j);
    }
  }

  lemma {:induction false} DistinctOnce(ms: seq<Member>, m: Member)
    requires forall i, j :: 0 <= i < j < |ms| ==> ms[i].id != ms[j].id
    ensures multiset(ms)[m] <= 1
  {
    if ms != [] {
      var rest, last := ms[..|ms| - 1], ms[|ms| - 1];
      assert ms == rest + [last];
      DistinctOnce(rest, m);
      assert last !in rest;
    }
  }

  lemma TwiceCounted<T>(s: seq<T>, i: nat, j: nat)
    requires i < j < |s| && s[i] == s[j]
    ensures multiset(s)[s[i]] >= 2
  {
    assert s == s[..i] + [s[i]] + s[i + 1..j] + [s[j]] + s[j + 1..];
  }

  method PlaceMember(H: Hasher, v: int, points: seq<Point>, m: Member) returns (r: seq<Point>)
    ensures forall p: Point :: multiset(r)[p] == multiset(points)[p]
              + if p.owner == m.id then Hits(H.node, m.id, VnodeCount(v, m.weight), p.hash) else 0
  {
    r := points;
    for i := 0 to VnodeCount(v, m.weight)
      invariant forall p: Point :: multiset(r)[p] == multiset(points)[p]
                  + if p.owner == m.id then Hits(H.node, m.id, i, p.hash) else 0
    {
      r := r + [Point(H.node(m.id, i), m.id)];
    }
  }

  method PlaceAll(H: Hasher, v: int, sorted: seq<Member>, ghost weights: map<Id, int>) returns (points: seq<Point>)
    requires Roster(sorted, weights)
    ensures Placed(H, v, weights, points)
  {
    hide Placed, Roster, Final, Hits, VnodeCount;
    points := [];
    EmptyPlaced(H, v);
    for k := 0 to |sorted|
      invariant Placed(H, v, Final(sorted[..k]), points)
    {
      ghost var before := points;
      points := PlaceMember(H, v, points, sorted[k]);
      FreshNext(sorted, weights, k);
      PlacedNext(H, v, Final(sorted[..k]), before, sorted[k], points);
    }
    assert sorted[..|sorted|] == sorted;
    FinalIsRoster(sorted, weights);
  }

  lemma FinalIsRoster(ms: seq<Member>, weights: map<Id, int>)
    requires Roster(ms, weights)
    ensures Final(ms) == weights
  {
    hide IdLe, Final;
    FinalOfRoster(ms, weights);
  }

  lemma FreshNext(ms: seq<Member>, weights: map<Id, int>, k: nat)
    requires Roster(ms, weights) && k < |ms|
    ensures ms[k].id !in Final(ms[..k])
    ensures Final(ms[..k + 1]) == Final(ms[..k])[ms[k].id := ms[k].weight]
  {
    hide IdLe, Final;
    FinalOfRoster(ms[..k], weights);
    assert ms[..k + 1] == ms[..k] + [ms[k]];
    FinalAppend(ms[..k], ms[k]);
  }

  lemma EmptyPlaced(H: Hasher, v: int)
    ensures Placed(H, v, Final([]), [])
  {}

  lemma PlacedNext(H: Hasher, v: int, weights: map<Id, int>, ps: seq<Point>, m: Member, qs: seq<Point>)
    requires Placed(H, v, weights, ps) && m.id !in weights
    requires forall p: Point :: multiset(qs)[p] == multiset(ps)[p]
               + if p.owner == m.id then Hits(H.node, m.id, VnodeCount(v, m.weight), p.hash) else 0
    ensures Placed(H, v, weights[m.id := m.weight], qs)
  {
    hide Hits, VnodeCount;
    forall p: Point ensures multiset(qs)[p] == Copies(H, v, weights[m.id := m.weight], p) {
      assert multiset(ps)[p] == Copies(H, v, weights, p);
    }
  }

  method Build(H: Hasher, v: int, members: seq<Member>) returns (s: Snapshot)
    ensures IsBuild(H, v, Final(members), s)
  {
    hide Roster, Sort, TotalOrder;
    var uniq := Collapse(members);
    if |uniq| == 0 {
      s := Snapshot([], []);
      EmptyBuild(H, v, uniq);
      return;
    }
    var listing := Listing(uniq);
    var sorted := Sort(listing, MemberLe);
    SortedRoster(listing, uniq);
    var points := PlaceAll(H, v, sorted, uniq);
    PointOrder();
    SortSorted(points, PointLe);
    s := Snapshot(Sort(points, PointLe), sorted);
  }

  lemma EmptyBuild(H: Hasher, v: int, uniq: map<Id, int>)
    requires |uniq| == 0
    ensures IsBuild(H, v, uniq, Snapshot([], []))
  {
    assert uniq.Keys == {};
  }

  // ----- build depends only on the weights

  lemma RosterIds(a: seq<Member>, b: seq<Member>, weights: map<Id, int>)
    requires Roster(a, weights) && Roster(b, weights)
    ensures a == b
  {
    hide IdLe, TotalOrder;
    MemberOrder();
    forall m ensures multiset(a)[m] == multiset(b)[m] {
      DistinctOnce(a, m);
      DistinctOnce(b, m);
      RosterMember(a, weights, m);
      RosterMember(b, weights, m);
    }
    RosterSorted(a, weights);
    RosterSorted(b, weights);
    SortedUnique(a, b, MemberLe);
  }

  lemma RosterMember(ms: seq<Member>, weights: map<Id, int>, m: Member)
    requires Roster(ms, weights)
    ensures m in multiset(ms) <==> m.id in weights && weights[m.id] == m.weight
  {}

  lemma RosterSorted(ms: seq<Member>, weights: map<Id, int>)
    requires Roster(ms, weights)
    ensures Sorted(ms, MemberLe)
  {}

  /** The ring is a function of the id-to-weight map alone: the order in which members were supplied, and
      hash collisions, make no difference. */
  lemma BuildIsUnique(H: Hasher, v: int, weights: map<Id, int>, s: Snapshot, t: Snapshot)
    requires IsBuild(H, v, weights, s) && IsBuild(H, v, weights, t)
    ensures s == t
  {
    hide Roster, TotalOrder;
    PointOrder();
    assert multiset(s.points) == multiset(t.points);
    SortedUnique(s.points, t.points, PointLe);
    RosterIds(s.members, t.members, weights);
  }

  // ----- looking up

  /** sort.Search over the hashes, then the wrap to 0. */
  method Index(points: seq<Point>, h: nat) returns (i: nat)
    requires points != [] && Sorted(points, PointLe)
    ensures IsIndex(points, h, i)
  {
    hide IdLe;
    var lo, hi := 0, |points|;
    while lo < hi
      invariant 0 <= lo <= hi <= |points|
      invariant forall j :: 0 <= j < lo ==> points[j].hash < h
      invariant hi < |points| ==> points[hi].hash >= h
    {
      var mid := (lo + hi) / 2;
      if points[mid].hash >= h {
        hi := mid;
      } else {
        forall j | 0 <= j < mid ensures points[j].hash < h { assert PointLe(points[j], points[mid]); }
        lo := mid + 1;
      }
    }
    i := if lo == |points| then 0 else lo;
  }

  /** The preference order of a position: the distinct owners, clockwise. */
  function Prefer(s: Snapshot, h: nat): seq<Id> {
    Walk(Around(s.points, h))
  }

  lemma {:induction false} SomeHit(node: (Id, nat) -> nat, id: Id, n: nat)
    requires n >= 1
    ensures Hits(node, id, n, node(id, 0)) >= 1
  {
    if n > 1 { SomeHit(node, id, n - 1); }
  }

  /** Every member has a point, and every point a member. */
  lemma OwnersAreMembers(H: Hasher, v: int, weights: map<Id, int>, s: Snapshot, id: Id)
    requires IsBuild(H, v, weights, s)
    ensures id in weights <==> exists p :: p in s.points && p.owner == id
  {
    if id in weights {
      var p := Point(H.node(id, 0), id);
      SomeHit(H.node, id, VnodeCount(v, weights[id]));
      assert multiset(s.points)[p] == Copies(H, v, weights, p);
      assert p in s.points;
    }
    forall p | p in s.points && p.owner == id ensures id in weights {
      assert p in multiset(s.points) && multiset(s.points)[p] == Copies(H, v, weights, p);
    }
  }

  lemma AroundMembers(ps: seq<Point>, h: nat, p: Point)
    ensures p in Around(ps, h) <==> p in ps
  {
    SplitMembers(ps, h, p);
  }

  lemma {:induction false} SplitMembers(ps: seq<Point>, h: nat, p: Point)
    ensures p in From(ps, h) <==> p in ps && p.hash >= h
    ensures p in Below(ps, h) <==> p in ps && p.hash < h
  {
    if ps != [] {
      SplitMembers(ps[..|ps| - 1], h, p);
      assert ps == ps[..|ps| - 1] + [ps[|ps| - 1]];
    }
  }

  /** The preference order is a permutation of the members. */
  lemma PreferIsPermutation(H: Hasher, v: int, weights: map<Id, int>, s: Snapshot, h: nat)
    requires IsBuild(H, v, weights, s)
    ensures forall id :: id in Prefer(s, h) <==> id in weights
    ensures forall i, j :: 0 <= i < j < |Prefer(s, h)| ==> Prefer(s, h)[i] != Prefer(s, h)[j]
    ensures |Prefer(s, h)| == |s.members| == |weights|
  {
    hide Sorted, Walk, Around, Roster;
    var ps := Around(s.points, h);
    WalkDistinct(ps);
    forall id ensures id in Walk(ps) <==> id in weights {
      WalkMembers(ps, id);
      OwnersAreMembers(H, v, weights, s, id);
      forall p ensures p in ps <==> p in s.points { AroundMembers(s.points, h, p); }
    }
    DistinctCount(Walk(ps), weights.Keys);
    RosterCount(s.members, weights);
  }

  lemma RosterCount(ms: seq<Member>, weights: map<Id, int>)
    requires Roster(ms, weights)
    ensures |ms| == |weights|
  {
    hide IdLe;
    var ids := seq(|ms|, i requires 0 <= i < |ms| => ms[i].id);
    forall id ensures id in ids <==> id in weights.Keys {
      if id in weights {
        var i :| 0 <= i < |ms| && ms[i].id == id;
        assert ids[i] == id;
      }
    }
    DistinctCount(ids, weights.Keys);
  }

  lemma {:induction false} DistinctCount(ids: seq<Id>, S: set<Id>)
    requires forall i, j :: 0 <= i < j < |ids| ==> ids[i] != ids[j]
    requires forall id :: id in ids <==> id in S
    ensures |ids| == |S|
  {
    if ids == [] {
      assert S == {};
    } else {
      var rest, last := ids[..|ids| - 1], ids[|ids| - 1];
      assert ids == rest + [last];
      assert last !in rest;
      DistinctCount(rest, S - {last});
    }
  }

  /** Get: the owner of the clockwise successor of the key, which heads the preference order. */
  method Get(H: Hasher, v: int, ghost weights: map<Id, int>, s: Snapshot, key: string) returns (owner: Id, ok: bool)
    requires IsBuild(H, v, weights, s)
    ensures ok <==> weights != map[]
    ensures ok ==> Prefer(s, H.key(key)) != [] && owner == Prefer(s, H.key(key))[0]
    ensures ok ==> exists p :: p in s.points && p.owner == owner && forall q :: q in s.points ==> Sooner(H.key(key), p, q)
  {
    var h := H.key(key);
    PreferIsPermutation(H, v, weights, s, h);
    if s.points == [] {
      assert Prefer(s, h) == [];
      return "", false;
    }
    assert s.points[0].owner in weights by { OwnersAreMembers(H, v, weights, s, s.points[0].owner); }
    var i := Index(s.points, h);
    RotationIsAround(s.points, h, i);
    IndexIsSuccessor(s.points, h, i);
    HeadOfWalk(s.points, h, i);
    return s.points[i].owner, true;
  }

  lemma HeadOfWalk(ps: seq<Point>, h: nat, i: nat)
    requires Sorted(ps, PointLe) && IsIndex(ps, h, i)
    ensures Walk(Around(ps, h)) != [] && Walk(Around(ps, h))[0] == ps[i].owner
  {
    hide IdLe, Sorted, From, Below;
    RotationIsAround(ps, h, i);
    var a := ps[i..] + ps[..i];
    assert a == [ps[i]] + a[1..];
    WalkPrefix([ps[i]], a[1..]);
    WalkAppend([], ps[i]);
    assert [] + [ps[i]] == [ps[i]];
  }

  /** GetN: exactly the first min(n, members) entries of the preference order. So the result is distinct,
      prefix-stable in n and headed by what Get returns. */
  method GetN(H: Hasher, v: int, ghost weights: map<Id, int>, s: Snapshot, key: string, n: int) returns (out: seq<Id>)
    requires IsBuild(H, v, weights, s)
    ensures var m := if n <= 0 then 0 else Min(n, |weights|);
            0 <= m <= |Prefer(s, H.key(key))| && out == Prefer(s, H.key(key))[..m]
  {
    hide Walk, Around, Sorted, Roster, Placed, Sooner;
    var h := H.key(key);
    PreferIsPermutation(H, v, weights, s, h);
    if n <= 0 || |s.points| == 0 {
      if |s.points| == 0 { NoPoints(H, v, weights, s); }
      return [];
    }
    var want := Min(n, |s.members|);
    out := [];
    var start := Index(s.points, h);
    RotationIsAround(s.points, h, start);
    ghost var lap := Around(s.points, h);
    assert lap[..|s.points|] == lap;
    assert Walk([]) == [] by { WalkDistinct([]); EmptyWalk(); }
    assert want >= 1 by { MembersExist(H, v, weights, s); }
    for i := 0 to |s.points|
      invariant out == Walk(lap[..i]) && |out| < want
    {
      LapIndex(s.points, start, i);
      var owner := s.points[(start + i) % |s.points|].owner;
      assert lap[..i + 1] == lap[..i] + [lap[i]];
      WalkAppend(lap[..i], lap[i]);
      if owner !in out {
        out := out + [owner];
        if |out| == want {
          assert lap == lap[..i + 1] + lap[i + 1..];
          WalkPrefix(lap[..i + 1], lap[i + 1..]);
          return;
        }
      }
    }
    assert false;
  }

  lemma EmptyWalk()
    ensures Walk([]) == []
  {}

  lemma LapIndex(ps: seq<Point>, start: nat, i: nat)
    requires start < |ps| && i < |ps|
    ensures (ps[start..] + ps[..start])[i] == ps[(start + i) % |ps|]
  {
    WrapIs(start + i, |ps|);
  }

  lemma NoPoints(H: Hasher, v: int, weights: map<Id, int>, s: Snapshot)
    requires IsBuild(H, v, weights, s) && s.points == []
    ensures |weights| == 0
  {
    forall id ensures id !in weights { OwnersAreMembers(H, v, weights, s, id); }
    assert weights.Keys == {};
  }

  lemma MembersExist(H: Hasher, v: int, weights: map<Id, int>, s: Snapshot)
    requires IsBuild(H, v, weights, s) && s.points != []
    ensures |s.members| >= 1
  {
    OwnersAreMembers(H, v, weights, s, s.points[0].owner);
    RosterCount(s.members, weights);
    assert s.points[0].owner in weights.Keys;
  }

  // ----- which keys move

  ghost function Only(weights: map<Id, int>, A: set<Id>): map<Id, int> {
    map id | id in weights && id in A :: weights[id]
  }

  lemma {:induction false} KeepCounts(ps: seq<Point>, A: set<Id>, p: Point)
    ensures multiset(Keep(ps, A))[p] == if p.owner in A then multiset(ps)[p] else 0
  {
    if ps != [] {
      KeepCounts(ps[..|ps| - 1], A, p);
      assert ps == ps[..|ps| - 1] + [ps[|ps| - 1]];
    }
  }

  lemma {:induction false} KeepSorted(ps: seq<Point>, A: set<Id>)
    requires Sorted(ps, PointLe)
    ensures Sorted(Keep(ps, A), PointLe)
    ensures forall q :: q in Keep(ps, A) ==> q in ps
  {
    hide PointLe;
    if ps != [] {
      var rest, last := ps[..|ps| - 1], ps[|ps| - 1];
      KeepSorted(rest, A);
      assert forall q :: q in rest ==> q in ps;
      var r := Keep(rest, A);
      forall i | 0 <= i < |r| ensures PointLe(r[i], last) {
        assert r[i] in rest;
      }
    }
  }

  /** A ring rebuilt from some of the members has exactly their points, in the same order. */
  lemma KeepRebuilds(H: Hasher, v: int, weights: map<Id, int>, A: set<Id>, s: Snapshot, t: Snapshot)
    requires IsBuild(H, v, weights, s) && IsBuild(H, v, Only(weights, A), t)
    ensures t.points == Keep(s.points, A)
  {
    hide PointLe, TotalOrder, Roster, Hits, VnodeCount;
    PointOrder();
    KeepSorted(s.points, A);
    forall p ensures multiset(t.points)[p] == multiset(Keep(s.points, A))[p] {
      KeepCounts(s.points, A, p);
      assert multiset(s.points)[p] == Copies(H, v, weights, p);
      assert multiset(t.points)[p] == Copies(H, v, Only(weights, A), p);
    }
    assert multiset(t.points) == multiset(Keep(s.points, A));
    SortedUnique(t.points, Keep(s.points, A), PointLe);
  }

  /** Filtering the preference order by a set of members is the preference order of a ring rebuilt from just
      those members: skipping a backend is as good as rebuilding without it. */
  lemma FilterIsRebuild(H: Hasher, v: int, weights: map<Id, int>, A: set<Id>, s: Snapshot, t: Snapshot, h: nat)
    requires IsBuild(H, v, weights, s) && IsBuild(H, v, Only(weights, A), t)
    ensures KeepIds(Prefer(s, h), A) == Prefer(t, h)
  {
    KeepRebuilds(H, v, weights, A, s, t);
    KeepAround(s.points, h, A);
    WalkKeep(Around(s.points, h), A);
  }

  lemma {:induction false} KeepIdsHead(ids: seq<Id>, A: set<Id>)
    requires ids != [] && ids[0] in A
    ensures KeepIds(ids, A) != [] && KeepIds(ids, A)[0] == ids[0]
  {
    if |ids| > 1 { KeepIdsHead(ids[..|ids| - 1], A); }
  }

  /** Removing a member, or losing it to a failed health check, moves only the keys it owned. */
  lemma RemovalMovesOnlyItsKeys(H: Hasher, v: int, weights: map<Id, int>, gone: Id, s: Snapshot, t: Snapshot, h: nat)
    requires IsBuild(H, v, weights, s) && IsBuild(H, v, weights - {gone}, t)
    requires Prefer(s, h) != [] && Prefer(s, h)[0] != gone
    ensures Prefer(t, h) != [] && Prefer(t, h)[0] == Prefer(s, h)[0]
  {
    hide Prefer, IsBuild;
    var A := weights.Keys - {gone};
    assert Only(weights, A) == weights - {gone};
    FilterIsRebuild(H, v, weights, A, s, t, h);
    PreferIsPermutation(H, v, weights, s, h);
    assert Prefer(s, h)[0] in weights;
    KeepIdsHead(Prefer(s, h), A);
  }

  lemma {:induction false} HitsGrow(node: (Id, nat) -> nat, id: Id, m: nat, n: nat, h: nat)
    requires m <= n
    ensures Hits(node, id, m, h) <= Hits(node, id, n, h)
  {
    if m < n { HitsGrow(node, id, m, n - 1, h); }
  }

  /** More weight never means fewer virtual nodes. */
  lemma VnodesGrow(v: int, w: int, w': int)
    requires 0 < w <= w'
    ensures VnodeCount(v, w) <= VnodeCount(v, w')
  {
    if v >= 0 { assert v * w <= v * w'; } else { assert v * w < 0; }
  }

  /** The virtual nodes of any weight: the configured number per hundred, rounded down, and never none. */
  lemma VnodesFloor(v: int, w: int)
    requires w > 0
    ensures if v * w < 100 then VnodeCount(v, w) == 1
            else 100 * VnodeCount(v, w) <= v * w < 100 * (VnodeCount(v, w) + 1)
  {}

  /** Weight is relative to 100: k hundred means k times the configured virtual nodes, and no weight means 100. */
  lemma VnodesScale(v: int, k: int)
    requires v >= 1 && k >= 1
    ensures VnodeCount(v, 100 * k) == k * v
    ensures VnodeCount(v, -k) == VnodeCount(v, 0) == v
  {
    assert v * (100 * k) == (k * v) * 100;
    DivIs(v * (100 * k), k * v, 100);
    MulMono(1, k, v);
  }

  /** Adding a member, or giving one more virtual nodes, moves keys only onto that member. */
  lemma GrowthMovesOnlyOntoIt(H: Hasher, v: int, weights: map<Id, int>, x: Id, w: int, s: Snapshot, t: Snapshot, h: nat)
    requires IsBuild(H, v, weights, s) && IsBuild(H, v, weights[x := w], t)
    requires x in weights ==> VnodeCount(v, weights[x]) <= VnodeCount(v, w)
    requires Prefer(s, h) != []
    ensures Prefer(t, h) != []
    ensures Prefer(t, h)[0] == x || Prefer(t, h)[0] == Prefer(s, h)[0]
  {
    hide Hits, VnodeCount, Roster, PointLe, Sooner, TotalOrder, Around, Walk;
    var i := IndexOf(H, v, weights, s, h);
    forall p | p in s.points ensures p in t.points {
      assert multiset(s.points)[p] == Copies(H, v, weights, p) > 0;
      assert multiset(t.points)[p] == Copies(H, v, weights[x := w], p);
      if p.owner == x { HitsGrow(H.node, x, VnodeCount(v, weights[x]), VnodeCount(v, w), p.hash); }
      assert p in multiset(t.points);
    }
    assert s.points[i] in t.points;
    var j := Successor(t.points, h);
    HeadOfWalk(s.points, h, i);
    HeadOfWalk(t.points, h, j);
    var q := t.points[j];
    if q.owner != x {
      assert q in multiset(t.points);
      assert multiset(t.points)[q] == Copies(H, v, weights[x := w], q);
      assert multiset(s.points)[q] == Copies(H, v, weights, q);
      assert q in multiset(s.points);
      IndexIsSuccessor(s.points, h, i);
      IndexIsSuccessor(t.points, h, j);
      SoonerAntisymmetric(h, s.points[i], q);
    }
  }

  /** Whatever happens to one member, the others keep their relative order for every key. */
  lemma OthersKeepTheirOrder(H: Hasher, v: int, weights: map<Id, int>, x: Id, w: int, s: Snapshot, t: Snapshot, h: nat)
    requires IsBuild(H, v, weights, s) && IsBuild(H, v, weights[x := w], t)
    ensures KeepIds(Prefer(s, h), weights.Keys - {x}) == KeepIds(Prefer(t, h), weights.Keys - {x})
  {
    hide PointLe, TotalOrder, Roster, Hits, VnodeCount, Walk, Around;
    var A := weights.Keys - {x};
    PointOrder();
    KeepSorted(s.points, A);
    KeepSorted(t.points, A);
    forall p ensures multiset(Keep(s.points, A))[p] == multiset(Keep(t.points, A))[p] {
      KeepCounts(s.points, A, p);
      KeepCounts(t.points, A, p);
      assert multiset(s.points)[p] == Copies(H, v, weights, p);
      assert multiset(t.points)[p] == Copies(H, v, weights[x := w], p);
    }
    assert multiset(Keep(s.points, A)) == multiset(Keep(t.points, A));
    SortedUnique(Keep(s.points, A), Keep(t.points, A), PointLe);
    KeepAround(s.points, h, A);
    KeepAround(t.points, h, A);
    WalkKeep(Around(s.points, h), A);
    WalkKeep(Around(t.points, h), A);
  }

  lemma Successor(ps: seq<Point>, h: nat) returns (i: nat)
    requires ps != [] && Sorted(ps, PointLe)
    ensures IsIndex(ps, h, i)
  {
    i := 0;
    while i < |ps| && ps[i].hash < h
      invariant i <= |ps| && forall j :: 0 <= j < i ==> ps[j].hash < h
    {
      i := i + 1;
    }
    if i == |ps| { i := 0; }
  }

  lemma IndexOf(H: Hasher, v: int, weights: map<Id, int>, s: Snapshot, h: nat) returns (i: nat)
    requires IsBuild(H, v, weights, s) && Prefer(s, h) != []
    ensures s.points != [] && IsIndex(s.points, h, i)
  {
    if s.points == [] {
      assert false;
    }
    i := Successor(s.points, h);
  }

  // ----- the ring object

  lemma {:induction false} FinalOfRoster(ms: seq<Member>, weights: map<Id, int>)
    requires forall i, j :: 0 <= i < j < |ms| ==> ms[i].id != ms[j].id
    requires forall i :: 0 <= i < |ms| ==> ms[i].id in weights && weights[ms[i].id] == ms[i].weight
    ensures forall id :: id in Final(ms) <==> exists i :: 0 <= i < |ms| && ms[i].id == id
    ensures forall id :: id in Final(ms) ==> id in weights && Final(ms)[id] == weights[id]
  {
    if ms != [] {
      FinalOfRoster(ms[..|ms| - 1], weights);
    }
  }

  class Ring {
    const H: Hasher
    const virtualNodes: int
    var snap: Snapshot

    /** The membership: the last weight set for each id. */
    ghost var weights: map<Id, int>

    ghost predicate Valid()
      reads this
    {
      IsBuild(H, virtualNodes, weights, snap)
    }

    constructor (H: Hasher, virtualNodes: int, members: seq<Member>)
      ensures Valid() && this.H == H && this.virtualNodes == virtualNodes && weights == Final(members)
    {
      this.H, this.virtualNodes := H, virtualNodes;
      var s := Build(H, virtualNodes, members);
      snap, weights := s, Final(members);
    }

    method Set(members: seq<Member>)
      modifies this
      ensures Valid() && weights == Final(members)
    {
      var s := Build(H, virtualNodes, members);
      snap, weights := s, Final(members);
    }

    method Add(m: Member)
      requires Valid()
      modifies this
      ensures Valid() && weights == old(weights)[m.id := m.weight]
    {
      var cur := snap.members;
      FinalAppend(cur, m);
      FinalIsRoster(cur, weights);
      Set(cur + [m]);
    }

    method Remove(id: Id)
      requires Valid()
      modifies this
      ensures Valid() && weights == old(weights) - {id}
    {
      var cur := snap.members;
      var next := Others(cur, id);
      FinalWithout(cur, id);
      FinalIsRoster(cur, weights);
      if |next| == |cur| { return; }
      Set(next);
    }

    method Lookup(key: string) returns (owner: Id, ok: bool)
      requires Valid()
      ensures ok <==> weights != map[]
      ensures ok ==> Prefer(snap, H.key(key)) != [] && owner == Prefer(snap, H.key(key))[0]
    {
      owner, ok := Get(H, virtualNodes, weights, snap, key);
    }
  }

  function Without(ms: seq<Member>, id: Id): seq<Member> {
    if ms == [] then []
    else
      var r := Without(ms[..|ms| - 1], id);
      if ms[|ms| - 1].id != id then r + [ms[|ms| - 1]] else r
  }

  /** Dropping the entries of one id drops it from the map; nothing is dropped exactly when it is not there. */
  lemma {:induction false} FinalWithout(ms: seq<Member>, id: Id)
    ensures Final(Without(ms, id)) == Final(ms) - {id}
    ensures |Without(ms, id)| <= |ms|
    ensures |Without(ms, id)| == |ms| <==> id !in Final(ms)
  {
    if ms != [] {
      var rest, last := ms[..|ms| - 1], ms[|ms| - 1];
      FinalWithout(rest, id);
      assert Final(ms) == Final(rest)[last.id := last.weight];
      assert Without(ms, id) == if last.id != id then Without(rest, id) + [last] else Without(rest, id);
      if last.id != id { FinalAppend(Without(rest, id), last); }
      hide Final, Without;
      UpdateWithout(Final(rest), last.id, last.weight, id);
    }
  }

  lemma UpdateWithout(m: map<Id, int>, id: Id, w: int, gone: Id)
    ensures m[id := w] - {gone} == if id == gone then m - {gone} else (m - {gone})[id := w]
  {}

  method Others(cur: seq<Member>, id: Id) returns (next: seq<Member>)
    ensures next == Without(cur, id)
  {
    next := [];
    for k := 0 to |cur|
      invariant next == Without(cur[..k], id)
    {
      assert cur[..k + 1][..k] == cur[..k];
      if cur[k].id != id {
        next := next + [cur[k]];
      }
    }
    assert cur[..|cur|] == cur;
  }
}
