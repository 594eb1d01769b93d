/**
 Exactly which swaps keep the replay order causal.

 A resolver that swaps one pair of unrelated vertices and leaves everything else alone gives a causal
 order on every topological order of the graph if and only if the second vertex may pass the first.
 */
module Overtaking {
  import opened HashGraphs
  import opened TopologicalSort
  import opened PairLinearizer
  import opened BarrierLinearizer
  import opened Linearization
  import opened LinearOrder

  /** The resolvers swap `l` with a later `r` and are idle otherwise. */
  ghost predicate OnlySwaps(pol: Policy, s: Graph, l: Hash, r: Hash) {
    && l in s && r in s && pol.swaps >= 1 && Resolve(pol, s[l], s[r]) == Swap
    && forall a, b :: a in s && b in s && !(a == l && b == r) ==> Idle(Resolve(pol, s[a], s[b]))
  }

  lemma IdleAt(pol: Policy, s: Graph, l: Hash, r: Hash, a: Hash, b: Hash)
    requires OnlySwaps(pol, s, l, r) && a in s && b in s && !(a == l && b == r)
    ensures Idle(Resolve(pol, s[a], s[b]))
  {}

  // ---------------------------------------------------------------- ancestors first

  /** The members of `T`, in their order. */
  function Picked(order: seq<Hash>, T: set<Hash>): seq<Hash> {
    if order == [] then [] else (if order[0] in T then [order[0]] else []) + Picked(order[1..], T)
  }

  lemma {:induction false} PickedMembers(order: seq<Hash>, T: set<Hash>)
    ensures forall h :: h in Picked(order, T) <==> h in order && h in T
  {
    if order != [] { PickedMembers(order[1..], T); }
  }

  lemma {:induction false} PickedCausal(s: Graph, order: seq<Hash>, T: set<Hash>)
    requires Causal(s, order) && Distinct(order)
    ensures Causal(s, Picked(order, T)) && Distinct(Picked(order, T))
  {
    hide Below;
    if order != [] {
      var rest := Picked(order[1..], T);
      PickedCausal(s, order[1..], T);
      PickedMembers(order[1..], T);
      forall y | 0 <= y < |rest| ensures !Below(s, rest[y], order[0]) && rest[y] != order[0] {
        assert rest[y] in order[1..];
      }
    }
  }

  ghost function PastOf(s: Graph, v: Hash): set<Hash> {
    set h | h in s && AtMost(s, h, v)
  }

  /** The same vertices, with `v` and everything below it moved to the front. */
  ghost function PastFirst(s: Graph, order: seq<Hash>, v: Hash): seq<Hash> {
    Picked(order, PastOf(s, v)) + Picked(order, s.Keys - PastOf(s, v))
  }

  lemma PastFirstSorted(s: Graph, order: seq<Hash>, v: Hash)
    requires Sorted(s, order)
    ensures Sorted(s, PastFirst(s, order, v)) && Causal(s, PastFirst(s, order, v))
  {
    var P := PastOf(s, v);
    var front, back := Picked(order, P), Picked(order, s.Keys - P);
    SortedCausal(s, order);
    PickedMembers(order, P);
    PickedMembers(order, s.Keys - P);
    PickedCausal(s, order, P);
    PickedCausal(s, order, s.Keys - P);
    forall a, b | a in front && b in back ensures a != b && !Below(s, b, a) { NotBelowPast(s, v, a, b); }
    hide Acyclic, Below, Picked, PastOf;
    JoinCausal(s, front, back);
    CausalTopological(s, front + back);
  }

  lemma NotBelowPast(s: Graph, v: Hash, a: Hash, b: Hash)
    requires a in PastOf(s, v) && b in s && b !in PastOf(s, v)
    ensures a != b && !Below(s, b, a)
  {
    hide Below;
    if Below(s, b, a) { BelowTrans(s, b, a, v); }
  }

  lemma JoinCausal(s: Graph, front: seq<Hash>, back: seq<Hash>)
    requires Causal(s, front) && Distinct(front) && Causal(s, back) && Distinct(back)
    requires forall a, b :: a in front && b in back ==> a != b && !Below(s, b, a)
    ensures Causal(s, front + back) && Distinct(front + back)
  {
    hide Below;
    var all := front + back;
    forall i, j | 0 <= i < j < |all| ensures !Below(s, all[j], all[i]) && all[i] != all[j] {
      if i < |front| <= j { assert all[i] in front && all[j] in back; }
    }
  }

  lemma CausalTopological(s: Graph, order: seq<Hash>)
    requires Causal(s, order)
    ensures Topological(s, order)
  {
    forall i, j | 0 <= i < j < |order| ensures order[j] !in Deps(s, order[i]) {
      assert AtMost(s, order[j], order[j]);
      BelowLast(s, order[j], order[i]);
    }
  }

  // ---------------------------------------------------------------- one vertex between the two

  /** `l`, `w` and `r` stand in this order. */
  ghost predicate InTurn(order: seq<Hash>, l: Hash, w: Hash, r: Hash, i: nat, m: nat, j: nat) {
    i < m < j < |order| && order[i] == l && order[m] == w && order[j] == r
  }

  /** Some `w` that `r` may not pass on its way to the front. */
  ghost predicate Blocks(s: Graph, l: Hash, r: Hash, w: Hash) {
    w in s && ((Below(s, w, r) && !Below(s, w, l)) || (Below(s, l, w) && !Below(s, r, w)))
  }

  /** A vertex that blocks a swap stands between the two in some topological order. */
  lemma Between(s: Graph, known: seq<Hash>, l: Hash, r: Hash, w: Hash)
    returns (order: seq<Hash>, i: nat, m: nat, j: nat)
    requires Sorted(s, known) && l in s && r in s && Unrelated(s, l, r) && Blocks(s, l, r, w)
    ensures Sorted(s, order) && Causal(s, order) && InTurn(order, l, w, r, i, m, j)
  {
    hide PastFirst, Acyclic, Topological, Below;
    var v := if Below(s, w, r) && !Below(s, w, l) then l else w;
    order := PastFirst(s, known, v);
    PastFirstSorted(s, known, v);
    BlockerApart(s, l, r, w);
    i, m, j :| i < |order| && order[i] == l && m < |order| && order[m] == w && j < |order| && order[j] == r;
    if v == l { PastEarlier(s, known, v, i, m); } else { PastEarlier(s, known, v, m, j); }
  }

  lemma BlockerApart(s: Graph, l: Hash, r: Hash, w: Hash)
    requires Acyclic(s) && Unrelated(s, l, r) && Blocks(s, l, r, w)
    ensures w != l && w != r
  {
    hide Below;
  }

  lemma PastEarlier(s: Graph, known: seq<Hash>, v: Hash, i: nat, j: nat)
    requires var order := PastFirst(s, known, v);
             i < |order| && j < |order| && AtMost(s, order[i], v) && !AtMost(s, order[j], v) && order[i] in s
    ensures i < j
  {
    hide AtMost, PastFirst, Picked;
    PastSide(s, known, v, i);
    PastSide(s, known, v, j);
  }

  lemma PastSide(s: Graph, known: seq<Hash>, v: Hash, k: nat)
    requires k < |PastFirst(s, known, v)|
    ensures var h := PastFirst(s, known, v)[k]; h in s && AtMost(s, h, v) <==> k < |Picked(known, PastOf(s, v))|
  {
    var P := PastOf(s, v);
    PickedMembers(known, P);
    PickedMembers(known, s.Keys - P);
    hide AtMost, Picked;
    var h := PastFirst(s, known, v)[k];
    if k < |Picked(known, P)| { assert h in Picked(known, P); } else { assert h in Picked(known, s.Keys - P); }
  }

  // ---------------------------------------------------------------- the scan

  lemma {:induction false} IdleAnchor(pol: Policy, s: Graph, l: Hash, r: Hash, sc: Scan, i: nat, j: nat, fuel: nat)
    requires OnlySwaps(pol, s, l, r) && ScanOK(s, sc) && i < j && i < |sc.order|
    requires forall b :: j <= b < |sc.order| ==> !(sc.order[i] == l && sc.order[b] == r)
    ensures Inner(pol, s, sc, i, j, fuel) == Some(sc)
    decreases |sc.order| - j
  {
    hide OnlySwaps;
    if j < |sc.order| {
      IdleAt(pol, s, l, r, sc.order[i], sc.order[j]);
      IdleInner(pol, s, sc, i, j, fuel);
      hide Inner;
      IdleAnchor(pol, s, l, r, sc, i, j + 1, fuel);
    }
  }

  /** One anchor after which the scan is `next`, in front of the rest. */
  lemma OuterNext(pol: Policy, s: Graph, origin: Hash, sc: Scan, k: nat, next: Scan)
    requires ScanOK(s, sc) && k < |sc.order| && !sc.dropped[k] && ScanOK(s, next) && |next.order| == |sc.order|
    requires Inner(pol, s, sc, k, k + 1, pol.swaps) == Some(next) && !next.dropped[k]
    requires (sc.order[k] == origin || next.order[k] == origin ==> next == sc)
    requires Outer(pol, s, origin, next, k + 1, |sc.order|).Some?
    ensures var rest := Outer(pol, s, origin, next, k + 1, |sc.order|).value;
            Outer(pol, s, origin, sc, k, |sc.order|)
            == Some(Linear(rest.scan, (if next.order[k] == origin then [] else [next.order[k]]) + rest.out))
  {
    hide Inner;
    var rest := Outer(pol, s, origin, next, k + 1, |sc.order|).value;
    assert [] + rest.out == rest.out;
  }

  lemma WithoutNext(q: seq<Hash>, k: nat, origin: Hash)
    requires k < |q|
    ensures Without(q[k..], origin) == (if q[k] == origin then [] else [q[k]]) + Without(q[k + 1..], origin)
  {
    assert q[k..][1..] == q[k + 1..];
  }

  lemma {:induction false} IdleOuter(pol: Policy, s: Graph, origin: Hash, l: Hash, r: Hash, sc: Scan, i: nat)
    requires OnlySwaps(pol, s, l, r) && ScanOK(s, sc) && i <= |sc.order|
    requires forall x :: 0 <= x < |sc.order| ==> !sc.dropped[x]
    requires forall a, b :: i <= a < b < |sc.order| ==> !(sc.order[a] == l && sc.order[b] == r)
    ensures Outer(pol, s, origin, sc, i, |sc.order|) == Some(Linear(sc, Without(sc.order[i..], origin)))
    decreases |sc.order| - i
  {
    hide OnlySwaps, Inner;
    if i < |sc.order| {
      IdleOuter(pol, s, origin, l, r, sc, i + 1);
      IdleAnchor(pol, s, l, r, sc, i, i + 1, pol.swaps);
      OuterNext(pol, s, origin, sc, i, sc);
      WithoutNext(sc.order, i, origin);
    }
  }

  /** The anchor `l` passes everything up to `r` and changes places with it. */
  lemma {:induction false} AnchorSwaps(pol: Policy, s: Graph, l: Hash, r: Hash, sc: Scan, i: nat, j: nat, b: nat)
    requires OnlySwaps(pol, s, l, r) && ScanOK(s, sc) && Distinct(sc.order) && i < b <= j < |sc.order|
    requires sc.order[i] == l && sc.order[j] == r && !sc.dropped[j] && !Related(sc.rows, l, r)
    ensures ScanOK(s, SwapAt(sc, i, j)) && Inner(pol, s, sc, i, b, pol.swaps) == Some(SwapAt(sc, i, j))
    decreases j - b
  {
    if b < j {
      IdleAt(pol, s, l, r, l, sc.order[b]);
      IdleInner(pol, s, sc, i, b, pol.swaps);
      hide Inner;
      AnchorSwaps(pol, s, l, r, sc, i, j, b + 1);
    } else {
      SwapOK(s, sc, i, j);
      IdleAnchor(pol, s, l, r, SwapAt(sc, i, j), i, i + 2, pol.swaps - 1);
    }
  }

  /** Anchors in front of `l` change nothing. */
  lemma {:induction false} OuterSwaps(pol: Policy, s: Graph, origin: Hash, l: Hash, r: Hash, sc: Scan, i: nat, j: nat,
                                      k: nat)
    requires OnlySwaps(pol, s, l, r) && ScanOK(s, sc) && Distinct(sc.order) && k <= i < j < |sc.order|
    requires forall x :: 0 <= x < |sc.order| ==> !sc.dropped[x]
    requires sc.order[i] == l && sc.order[j] == r && !Related(sc.rows, l, r) && origin != l && origin != r
    ensures var after := SwapAt(sc, i, j);
            Outer(pol, s, origin, sc, k, |sc.order|) == Some(Linear(after, Without(after.order[k..], origin)))
    decreases i - k
  {
    hide OnlySwaps, Inner, Outer, Without, Related;
    var after := SwapAt(sc, i, j);
    WithoutNext(after.order, k, origin);
    if k < i {
      OuterSwaps(pol, s, origin, l, r, sc, i, j, k + 1);
      IdleAnchor(pol, s, l, r, sc, k, k + 1, pol.swaps);
      OuterNext(pol, s, origin, sc, k, sc);
    } else {
      AnchorSwaps(pol, s, l, r, sc, i, j, i + 1);
      IdleOuter(pol, s, origin, l, r, after, i + 1);
      OuterNext(pol, s, origin, sc, k, after);
    }
  }

  lemma StartUnrelated(s: Graph, order: seq<Hash>, i: nat, j: nat)
    requires Sorted(s, order) && i < j < |order| && Unrelated(s, order[i], order[j])
    ensures var sc := Start(s, order);
            && ScanOK(s, sc) && sc.order == order && Distinct(sc.order) && !Related(sc.rows, order[i], order[j])
            && (forall x :: 0 <= x < |order| ==> !sc.dropped[x])
  {
    StartFresh(s, order);
    hide Sorted, Start, Below;
    StartSize(s, order);
    assert !RowBit(Start(s, order), i, j) && !RowBit(Start(s, order), j, i);
  }

  /** The replay order exchanges the two and keeps the rest. */
  lemma SwappedOrder(pol: Policy, s: Graph, origin: Hash, l: Hash, r: Hash, order: seq<Hash>, i: nat, j: nat)
    requires OnlySwaps(pol, s, l, r) && Sorted(s, order) && Unrelated(s, l, r) && origin != l && origin != r
    requires i < j < |order| && order[i] == l && order[j] == r
    ensures forall h :: h in order ==> h in s
    ensures PairLinearize(pol, s, order, origin) == Some(Without(order[i := r][j := l], origin))
  {
    ScanDecides(pol, s, order, origin);
    StartUnrelated(s, order, i, j);
    hide OnlySwaps, Sorted, PairLinearize, Start, Outer;
    OuterSwaps(pol, s, origin, l, r, Start(s, order), i, j, 0);
    var q := order[i := r][j := l];
    assert q[0..] == q;
  }

  lemma {:induction false} WithoutCausal(s: Graph, q: seq<Hash>, origin: Hash, a: nat, b: nat)
    requires a < b < |q| && q[a] != origin && q[b] != origin && Causal(s, Without(q, origin))
    ensures !Below(s, q[b], q[a])
  {
    hide Below;
    var rest, all := Without(q[1..], origin), Without(q, origin);
    if a == 0 {
      assert q[b] in q[1..];
      var y :| 0 <= y < |rest| && rest[y] == q[b];
      assert all[y + 1] == q[b] && all[0] == q[0];
    } else {
      assert all == rest || all == [q[0]] + rest;
      assert all == [q[0]] + rest ==> forall y :: 0 <= y < |rest| ==> rest[y] == all[y + 1];
      WithoutCausal(s, q[1..], origin, a - 1, b - 1);
    }
  }

  // ---------------------------------------------------------------- the exact condition

  /** The order replayed for a topological order exists and is causal. */
  ghost predicate StaysCausal(pol: Policy, s: Graph, order: seq<Hash>, origin: Hash)
    requires Sorted(s, order)
  {
    var out := PairLinearize(pol, s, order, origin);
    out.Some? && Causal(s, out.value)
  }

  lemma OriginApart(s: Graph, origin: Hash, l: Hash, r: Hash, w: Hash)
    requires Acyclic(s) && RootedAt(s, origin) && l in s && r in s && Unrelated(s, l, r) && Blocks(s, l, r, w)
    ensures origin != l && origin != r && origin != w
  {
    hide Below;
    assert AtMost(s, origin, l) && AtMost(s, origin, r);
    if origin == w && Below(s, l, w) { BelowTrans(s, l, w, l); }
  }

  lemma BlockedSwap(pol: Policy, s: Graph, origin: Hash, l: Hash, r: Hash, known: seq<Hash>, w: Hash)
    returns (order: seq<Hash>)
    requires OnlySwaps(pol, s, l, r) && Unrelated(s, l, r) && RootedAt(s, origin) && Sorted(s, known)
    requires Blocks(s, l, r, w)
    ensures Sorted(s, order) && !StaysCausal(pol, s, order, origin)
  {
    hide *;
    BlockedParts(pol, s, l, r, known);
    OriginApart(s, origin, l, r, w);
    var i, m, j;
    order, i, m, j := Between(s, known, l, r, w);
    TurnEnds(order, l, w, r, i, m, j);
    SwappedOrder(pol, s, origin, l, r, order, i, j);
    OutOfOrder(s, origin, l, r, w, order, i, m, j);
    NotCausal(pol, s, order, origin, Without(order[i := r][j := l], origin));
  }

  lemma BlockedParts(pol: Policy, s: Graph, l: Hash, r: Hash, known: seq<Hash>)
    requires OnlySwaps(pol, s, l, r) && Sorted(s, known)
    ensures l in s && r in s && Acyclic(s)
  {}

  lemma TurnEnds(order: seq<Hash>, l: Hash, w: Hash, r: Hash, i: nat, m: nat, j: nat)
    requires InTurn(order, l, w, r, i, m, j)
    ensures i < j < |order| && order[i] == l && order[j] == r
  {}

  lemma NotCausal(pol: Policy, s: Graph, order: seq<Hash>, origin: Hash, out: seq<Hash>)
    requires Sorted(s, order) && PairLinearize(pol, s, order, origin) == Some(out) && !Causal(s, out)
    ensures !StaysCausal(pol, s, order, origin)
  {
    hide Sorted, PairLinearize, Causal;
  }

  /** Exchanging the two ends puts one of them on the wrong side of what stands between. */
  lemma OutOfOrder(s: Graph, origin: Hash, l: Hash, r: Hash, w: Hash, order: seq<Hash>, i: nat, m: nat, j: nat)
    requires InTurn(order, l, w, r, i, m, j) && Blocks(s, l, r, w) && origin != l && origin != r && origin != w
    ensures !Causal(s, Without(order[i := r][j := l], origin))
  {
    hide Below, Without, Causal;
    var q := order[i := r][j := l];
    assert q[i] == r && q[m] == w && q[j] == l;
    if Causal(s, Without(q, origin)) {
      WithoutCausal(s, q, origin, i, m);
      WithoutCausal(s, q, origin, m, j);
    }
  }

  lemma OriginFirst(s: Graph, origin: Hash, order: seq<Hash>)
    requires Sorted(s, order) && RootedAt(s, origin)
    ensures order != [] && order[0] == origin
  {
    hide Below, Acyclic;
    SortedCausal(s, order);
    var k :| 0 <= k < |order| && order[k] == origin;
    assert AtMost(s, origin, order[0]);
  }

  lemma PassingSwap(pol: Policy, s: Graph, origin: Hash, l: Hash, r: Hash, order: seq<Hash>)
    requires OnlySwaps(pol, s, l, r) && l != r && MayPass(s, l, r) && RootedAt(s, origin) && Sorted(s, order)
    ensures StaysCausal(pol, s, order, origin)
  {
    OnlySwapsFair(pol, s, l, r);
    OriginFirst(s, origin, order);
    ScanDecides(pol, s, order, origin);
    hide OnlySwaps, FairSwaps, PairLinearize, Outer, Start, Causal, MayPass, CalmSwap;
    StartSize(s, order);
    OuterReturns(pol, s, origin, Start(s, order), 0, |order|);
    ReplayOrderCausal(pol, s, order, origin);
  }

  lemma OnlySwapsFair(pol: Policy, s: Graph, l: Hash, r: Hash)
    requires OnlySwaps(pol, s, l, r) && MayPass(s, l, r) && l != r
    ensures FairSwaps(pol, s) && Settled(pol, s)
  {
    hide MayPass, Below;
    assert NoSwap(pol, s, r);
  }

  /** With one swapped pair every replay order is causal exactly when the later one may pass the earlier. */
  lemma SwapStaysCausal(pol: Policy, s: Graph, origin: Hash, l: Hash, r: Hash, known: seq<Hash>)
    requires OnlySwaps(pol, s, l, r) && Unrelated(s, l, r) && RootedAt(s, origin) && Sorted(s, known)
    ensures (forall order :: Sorted(s, order) ==> StaysCausal(pol, s, order, origin)) <==> MayPass(s, l, r)
  {
    hide OnlySwaps, Sorted, StaysCausal, RootedAt, Below;
    if MayPass(s, l, r) {
      forall order | Sorted(s, order) ensures StaysCausal(pol, s, order, origin) {
        PassingSwap(pol, s, origin, l, r, order);
      }
    } else {
      var w :| w in s && !((Below(s, w, r) ==> Below(s, w, l)) && (Below(s, l, w) ==> Below(s, r, w)));
      var order := BlockedSwap(pol, s, origin, l, r, known, w);
    }
  }
}
