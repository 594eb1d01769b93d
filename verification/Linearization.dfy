/**
 The replay order of a rooted sub-graph: the topological sort followed by pair linearization.

 `BarrierLinearize` is what makes checkpoints possible: across a causal barrier the replay order of
 the whole is the replay order of the prefix followed by that of the suffix.
 */
module Linearization {
  import opened HashGraphs
  import opened Children
  import opened TopologicalSort
  import opened CausalBarrier
  import opened PairLinearizer
  import opened BarrierLinearizer

  /** Resolvers whose comparisons return on the vertices of `s`, and whose swaps settle. */
  ghost predicate Settled(pol: Policy, s: Graph) {
    CalmSwap(pol, s) && pol.swaps >= 1
  }

  lemma SettledSub(pol: Policy, s: Graph, T: set<Hash>)
    requires Settled(pol, s)
    ensures Settled(pol, Sub(s, T))
  {
    CalmSub(pol, s, T);
  }

  lemma OrderMembers(s: Graph, origin: Hash)
    requires RootedAt(s, origin)
    ensures |Sort(s, origin).order| >= |s|
    ensures forall h :: h in DfsOrder(s, origin) ==> h in s
  {
    hide Sort;
    SortFills(s, origin);
    var full := Sort(s, origin).order;
    var r := full[|full| - |s|..];
    assert forall i :: 0 <= i < |r| ==> r[i] in full;
  }

  /** The replay order of `s` after `origin`; None when a comparison does not return. */
  ghost function Linearize(pol: Policy, s: Graph, origin: Hash): (r: Option<seq<Hash>>)
    requires RootedAt(s, origin)
    ensures r.Some? ==> forall h :: h in r.value ==> h in s
  {
    OrderMembers(s, origin);
    PairLinearize(pol, s, DfsOrder(s, origin), origin)
  }

  // ---------------------------------------------------------------- the scan decides alone

  lemma StartOK(s: Graph, order: seq<Hash>)
    requires forall h :: h in order ==> h in s
    ensures ScanOK(s, Start(s, order))
  {}

  lemma {:induction false} QuietOuter(pol: Policy, s: Graph, origin: Hash, sc: Scan, i: nat)
    requires ScanOK(s, sc) && i <= |sc.order|
    requires forall x :: 0 <= x < |sc.order| ==> !sc.dropped[x]
    requires forall h :: h in sc.order && h != origin ==> Chosen(pol, s[h]).None?
    ensures Outer(pol, s, origin, sc, i, |sc.order|) == Some(Linear(sc, Without(sc.order[i..], origin)))
    decreases |sc.order| - i
  {
    if i < |sc.order| {
      assert sc.order[i..][1..] == sc.order[i + 1..];
      QuietOuter(pol, s, origin, sc, i + 1);
      var rest := Without(sc.order[i + 1..], origin);
      assert [] + rest == rest;
      if sc.order[i] != origin {
        assert Chosen(pol, s[sc.order[i]]).None?;
        QuietInner(pol, s, sc, i, i + 1, pol.swaps);
      }
    }
  }

  /** Skipping the scan when no resolver is installed changes nothing. */
  lemma ScanDecides(pol: Policy, s: Graph, order: seq<Hash>, origin: Hash)
    requires forall h :: h in order ==> h in s
    ensures ScanOK(s, Start(s, order))
    ensures PairLinearize(pol, s, order, origin)
            == match Outer(pol, s, origin, Start(s, order), 0, |order|) case None => None case Some(l) => Some(l.out)
  {
    if !NeedsResolution(pol, s, order, origin) {
      QuietOuter(pol, s, origin, Start(s, order), 0);
      assert order[0..] == order;
    }
  }

  // ---------------------------------------------------------------- comparisons return

  /** An anchor that asks for no swap is compared to the end. */
  lemma {:induction false} SteadyReturns(pol: Policy, s: Graph, sc: Scan, i: nat, j: nat, fuel: nat)
    requires ScanOK(s, sc) && i < j && i < |sc.order| && sc.order[i] in s && NoSwap(pol, s, sc.order[i])
    ensures Inner(pol, s, sc, i, j, fuel).Some?
    decreases |sc.order| - j
  {
    if j < |sc.order| {
      match Verdict(pol, s, sc, i, j) {
        case DropLeft =>
        case DropRight => SteadyReturns(pol, s, DropAt(sc, j), i, j + 1, fuel);
        case Swap =>
        case Nop => SteadyReturns(pol, s, sc, i, j + 1, fuel);
        case Drop => SteadyReturns(pol, s, sc, i, j + 1, fuel);
      }
    }
  }

  lemma {:induction false} InnerReturns(pol: Policy, s: Graph, sc: Scan, i: nat, j: nat, fuel: nat)
    requires CalmSwap(pol, s) && fuel >= 1 && ScanOK(s, sc) && i < j && i < |sc.order|
    ensures Inner(pol, s, sc, i, j, fuel).Some?
    decreases |sc.order| - j
  {
    hide CalmSwap;
    if j < |sc.order| {
      match Verdict(pol, s, sc, i, j) {
        case DropLeft =>
        case DropRight => InnerReturns(pol, s, DropAt(sc, j), i, j + 1, fuel);
        case Swap =>
          SwapOK(s, sc, i, j);
          var r := SwapAt(sc, i, j);
          assert r.order[i] == sc.order[j];
          CalmAt(pol, s, sc.order[i], sc.order[j]);
          SteadyReturns(pol, s, r, i, i + 2, fuel - 1);
        case _ => InnerReturns(pol, s, sc, i, j + 1, fuel);
      }
    }
  }

  lemma {:induction false} OuterReturns(pol: Policy, s: Graph, origin: Hash, sc: Scan, i: nat, hi: nat)
    requires Settled(pol, s) && ScanOK(s, sc) && i <= hi <= |sc.order|
    ensures Outer(pol, s, origin, sc, i, hi).Some?
    decreases hi - i
  {
    if i < hi {
      if sc.order[i] == origin || sc.dropped[i] {
        OuterReturns(pol, s, origin, sc, i + 1, hi);
      } else {
        InnerReturns(pol, s, sc, i, i + 1, pol.swaps);
        OuterReturns(pol, s, origin, Inner(pol, s, sc, i, i + 1, pol.swaps).value, i + 1, hi);
      }
    }
  }

  /** With settled resolvers linearization always returns. */
  lemma LinearizeReturns(pol: Policy, s: Graph, origin: Hash)
    requires Settled(pol, s) && RootedAt(s, origin)
    ensures Linearize(pol, s, origin).Some?
  {
    hide Settled, Outer, Start, Sort, DfsOrder;
    OrderMembers(s, origin);
    var order := DfsOrder(s, origin);
    StartOK(s, order);
    StartSize(s, order);
    OuterReturns(pol, s, origin, Start(s, order), 0, |order|);
  }

  // ---------------------------------------------------------------- the two stretches of a barrier

  /** Inside the suffix the causal order does not depend on the prefix. */
  lemma {:induction false} SuffixStepsSame(t: Graph, P: set<Hash>, o: Hash, a: Hash, b: Hash, n: nat)
    requires P <= t.Keys && DownClosed(t, P) && a !in P && b in t && b !in P && Closed(t) && Steps(t, a, b, n)
    ensures Steps(Sub(t, (t.Keys - P) + {o}), a, b, n)
    decreases n
  {
    if n > 0 {
      var q := Sub(t, (t.Keys - P) + {o});
      var d :| d in Deps(t, b) && Steps(t, a, d, n - 1);
      if d in P {
        assert AtMost(t, a, d) by { AtMostSteps(t, a, d); }
        BelowInClosed(t, P, a, d);
      }
      SuffixStepsSame(t, P, o, a, d, n - 1);
      assert d in Deps(q, b);
    }
  }

  lemma SuffixBelow(t: Graph, P: set<Hash>, o: Hash, a: Hash, b: Hash)
    requires P <= t.Keys && DownClosed(t, P) && a !in P && b in t && b !in P && Closed(t)
    ensures Below(Sub(t, (t.Keys - P) + {o}), a, b) <==> Below(t, a, b)
  {
    if Below(t, a, b) {
      var n: nat :| n > 0 && Steps(t, a, b, n);
      SuffixStepsSame(t, P, o, a, b, n);
    }
    if Below(Sub(t, (t.Keys - P) + {o}), a, b) { BelowSub(t, (t.Keys - P) + {o}, a, b); }
  }

  /** `order` lists the members of `s` once each, dependencies first. */
  ghost predicate Sorted(s: Graph, order: seq<Hash>) {
    && Acyclic(s) && Distinct(order) && Topological(s, order) && (forall h :: h in order <==> h in s)
  }

  /** Column of entry `y` in the row of entry `z`. */
  predicate RowBit(sc: Scan, z: nat, y: nat)
    requires z < |sc.order| && y < |sc.order| && sc.order[z] in sc.rows
  {
    sc.order[y] in sc.rows[sc.order[z]]
  }

  /** From entry `at` on the scan still is what a fresh scan of `order` would be. */
  ghost predicate FreshFrom(s: Graph, sc: Scan, at: nat, order: seq<Hash>) {
    && ScanOK(s, sc) && Distinct(sc.order) && |sc.order| == |order|
    && (forall z :: at <= z < |order| ==> sc.order[z] == order[z] && !sc.dropped[z])
    && (forall z, y :: at <= z < |order| && at <= y < |order| && y != z ==>
          (RowBit(sc, z, y) <==> Below(s, order[y], order[z])))
  }

  lemma StartFresh(s: Graph, order: seq<Hash>)
    requires Sorted(s, order)
    ensures FreshFrom(s, Start(s, order), 0, order)
  {
    MatrixIsCausal(s, order, |order|);
    var sc := Start(s, order);
    StartOK(s, order);
    hide BuildRows;
    forall z, y | 0 <= z < |order| && 0 <= y < |order| && y != z
      ensures RowBit(sc, z, y) <==> Below(s, order[y], order[z])
    {
      assert Complete(s, sc.rows[order[z]], order[z]);
      assert order[y] in s && order[y] != order[z];
    }
  }

  /** A scan framed outside its first `at` entries is fresh from there on. */
  lemma FramedFresh(s: Graph, sc: Scan, order: seq<Hash>, at: nat, mid: Scan)
    requires FreshFrom(s, sc, 0, order) && at <= |order| && |sc.dropped| == |sc.order|
    requires Framed(Stretch(sc, 0, at), mid) && ScanOK(s, mid) && Distinct(mid.order)
    ensures FreshFrom(s, mid, at, order)
  {
    forall z, y | at <= z < |order| && at <= y < |order| && y != z
      ensures RowBit(mid, z, y) <==> Below(s, order[y], order[z])
    {
      assert RowBit(mid, z, y) == RowBit(sc, z, y);
    }
  }

  /** Entry `x` counted from `at`. */
  function At(order: seq<Hash>, at: nat, x: nat): Hash
    requires at + x < |order|
  {
    order[at + x]
  }

  /** Everything after the stretch of `len` entries at `at` descends from it. */
  ghost predicate Covers(s: Graph, order: seq<Hash>, at: nat, len: nat)
    requires at + len <= |order|
  {
    forall x, z :: 0 <= x < len && len <= z && at + z < |order| ==> Below(s, At(order, at, x), At(order, at, z))
  }

  /** Two orders that share the stretch of `len` entries at `at1` and at `at2`, with its causal order. */
  ghost predicate SharedStretch(s1: Graph, order1: seq<Hash>, at1: nat, s2: Graph, order2: seq<Hash>, at2: nat,
                                len: nat) {
    && at1 + len <= |order1| && at2 + len <= |order2|
    && (forall x :: 0 <= x < len ==> At(order1, at1, x) == At(order2, at2, x))
    && (forall x, y :: 0 <= x < len && 0 <= y < len ==>
          (Below(s1, At(order1, at1, y), At(order1, at1, x)) <==> Below(s2, At(order2, at2, y), At(order2, at2, x))))
    && Covers(s1, order1, at1, len) && Covers(s2, order2, at2, len)
  }

  lemma FreshFits(s: Graph, sc: Scan, order: seq<Hash>, at: nat, len: nat)
    requires FreshFrom(s, sc, at, order) && at + len <= |order|
    ensures Stretch(sc, at, len).Fits(s)
  {}

  lemma FreshTail(s: Graph, sc: Scan, order: seq<Hash>, at: nat, len: nat)
    requires FreshFrom(s, sc, at, order) && at + len <= |order|
    requires Covers(s, order, at, len)
    ensures Stretch(sc, at, len).Fits(s) && Stretch(sc, at, len).TailBelow(s, 0)
  {
    FreshFits(s, sc, order, at, len);
    hide Distinct;
    var a := Stretch(sc, at, len);
    forall x, z | 0 <= x < len && len <= z && at + z < |sc.order| ensures a.Bit(z, x) {
      assert Below(s, At(order, at, x), At(order, at, z));
      assert RowBit(sc, at + z, at + x);
    }
  }

  lemma FreshAgree(s1: Graph, sc1: Scan, order1: seq<Hash>, at1: nat, s2: Graph, sc2: Scan, order2: seq<Hash>,
                   at2: nat, len: nat)
    requires FreshFrom(s1, sc1, at1, order1) && FreshFrom(s2, sc2, at2, order2)
    requires SharedStretch(s1, order1, at1, s2, order2, at2, len)
    ensures Stretch(sc1, at1, len).Fits(s1) && Stretch(sc2, at2, len).Fits(s2)
    ensures Agree(s1, Stretch(sc1, at1, len), s2, Stretch(sc2, at2, len), 0, 0)
  {
    FreshFits(s1, sc1, order1, at1, len);
    FreshFits(s2, sc2, order2, at2, len);
    hide Distinct;
    var a, b := Stretch(sc1, at1, len), Stretch(sc2, at2, len);
    forall x | 0 <= x < len ensures a.Entry(x) == b.Entry(x) && a.Mark(x) == b.Mark(x) {
      assert At(order1, at1, x) == At(order2, at2, x);
    }
    forall x, y | 0 <= x < len && 0 <= y < len && x != y ensures a.Bit(x, y) == b.Bit(x, y) {
      assert Below(s1, At(order1, at1, y), At(order1, at1, x)) <==> Below(s2, At(order2, at2, y), At(order2, at2, x));
      assert a.Bit(x, y) == RowBit(sc1, at1 + x, at1 + y) && b.Bit(x, y) == RowBit(sc2, at2 + x, at2 + y);
    }
  }

  lemma FreshPaired(s1: Graph, sc1: Scan, order1: seq<Hash>, at1: nat, s2: Graph, sc2: Scan, order2: seq<Hash>,
                    at2: nat, len: nat)
    requires FreshFrom(s1, sc1, at1, order1) && FreshFrom(s2, sc2, at2, order2)
    requires SharedStretch(s1, order1, at1, s2, order2, at2, len)
    ensures Paired(s1, Stretch(sc1, at1, len), s2, Stretch(sc2, at2, len), 0, 0)
  {
    FreshAgree(s1, sc1, order1, at1, s2, sc2, order2, at2, len);
    FreshTail(s1, sc1, order1, at1, len);
    FreshTail(s2, sc2, order2, at2, len);
  }

  lemma FreshInside(s1: Graph, sc1: Scan, order1: seq<Hash>, at1: nat, s2: Graph, sc2: Scan, order2: seq<Hash>,
                    at2: nat, len: nat, M: set<Hash>)
    requires FreshFrom(s1, sc1, at1, order1) && FreshFrom(s2, sc2, at2, order2)
    requires SharedStretch(s1, order1, at1, s2, order2, at2, len)
    requires forall x :: 0 <= x < len ==> At(order1, at1, x) in M
    ensures Stretch(sc1, at1, len).Fits(s1) && Stretch(sc2, at2, len).Fits(s2)
    ensures Inside(Stretch(sc1, at1, len), M) && Inside(Stretch(sc2, at2, len), M)
  {
    FreshFits(s1, sc1, order1, at1, len);
    FreshFits(s2, sc2, order2, at2, len);
    hide Distinct;
    var a, b := Stretch(sc1, at1, len), Stretch(sc2, at2, len);
    forall x | 0 <= x < len ensures a.Entry(x) in M && b.Entry(x) in M {
      assert At(order1, at1, x) == At(order2, at2, x);
    }
  }

  /** Scanning a shared stretch has the same outcome in both. */
  lemma StretchSim(pol: Policy, s1: Graph, o1: Hash, sc1: Scan, order1: seq<Hash>, at1: nat,
                   s2: Graph, o2: Hash, sc2: Scan, order2: seq<Hash>, at2: nat, len: nat, M: set<Hash>)
    requires CalmSwap(pol, s1) && Shares(s1, o1, s2, o2, M)
    requires FreshFrom(s1, sc1, at1, order1) && FreshFrom(s2, sc2, at2, order2)
    requires SharedStretch(s1, order1, at1, s2, order2, at2, len)
    requires forall x :: 0 <= x < len ==> At(order1, at1, x) in M
    ensures Stretch(sc1, at1, len).Fits(s1)
    ensures SameOuter(s1, Stretch(sc1, at1, len), s2, Stretch(sc2, at2, len),
                      Outer(pol, s1, o1, sc1, at1, at1 + len), Outer(pol, s2, o2, sc2, at2, at2 + len))
  {
    hide FreshFrom, SharedStretch, Paired, SameOuter, Outer, Shares, CalmSwap, Inside, ScanOK, Distinct;
    FreshPaired(s1, sc1, order1, at1, s2, sc2, order2, at2, len);
    FreshInside(s1, sc1, order1, at1, s2, sc2, order2, at2, len, M);
    var a, b := Stretch(sc1, at1, len), Stretch(sc2, at2, len);
    OuterSim(pol, s1, o1, a, s2, o2, b, M, 0);
  }

  /** What both halves of the proof know about a barrier and its orders. */
  ghost predicate Halves(t: Graph, P: set<Hash>, o: Hash, front: seq<Hash>, back: seq<Hash>) {
    && GraphOK(t) && Reduced(t) && Barrier(t, P) && o in Heads(t, P)
    && Sorted(Sub(t, P), front) && Sorted(t, front + back)
    && Sorted(Sub(t, (t.Keys - P) + {o}), [o] + back)
  }

  lemma PrefixEntry(t: Graph, P: set<Hash>, o: Hash, front: seq<Hash>, back: seq<Hash>, x: nat)
    requires Halves(t, P, o, front, back) && x < |front|
    ensures (front + back)[x] == front[x] && front[x] in t && front[x] in P
  {
    hide Acyclic, Reduced, Topological, GraphOK, Barrier, Heads;
    assert front[x] in Sub(t, P);
  }

  lemma SuffixEntry(t: Graph, P: set<Hash>, o: Hash, front: seq<Hash>, back: seq<Hash>, x: nat)
    requires Halves(t, P, o, front, back) && x < |back|
    ensures (front + back)[|front| + x] == back[x] == ([o] + back)[1 + x]
    ensures back[x] in t && back[x] !in P
  {
    hide Acyclic, Reduced, Topological, GraphOK, Barrier, Heads;
    var all, q := front + back, [o] + back;
    assert all[|front| + x] == back[x] && q[1 + x] == back[x] && q[0] == o;
    assert q[0] != q[1 + x];
    assert q[1 + x] in Sub(t, (t.Keys - P) + {o});
  }

  lemma PrefixAt(t: Graph, P: set<Hash>, o: Hash, front: seq<Hash>, back: seq<Hash>, x: nat)
    requires Halves(t, P, o, front, back) && x < |front|
    ensures At(front + back, 0, x) == At(front, 0, x) && At(front, 0, x) in P && At(front, 0, x) in t
  {
    PrefixEntry(t, P, o, front, back, x);
  }

  lemma SuffixAt(t: Graph, P: set<Hash>, o: Hash, front: seq<Hash>, back: seq<Hash>, x: nat)
    requires Halves(t, P, o, front, back) && x < |back|
    ensures At(front + back, |front|, x) == At([o] + back, 1, x) == At(front + back, 0, |front| + x)
    ensures At([o] + back, 1, x) in t && At([o] + back, 1, x) !in P
  {
    SuffixEntry(t, P, o, front, back, x);
  }

  lemma BarrierFacts(t: Graph, P: set<Hash>, o: Hash, front: seq<Hash>, back: seq<Hash>)
    requires Halves(t, P, o, front, back)
    ensures Closed(t) && DownClosed(t, P) && P <= t.Keys && ROOT_HASH in P && o in P
    ensures forall x, z :: x in P && z in t && z !in P ==> Below(t, x, z)
  {}

  lemma PrefixShared(t: Graph, P: set<Hash>, o: Hash, front: seq<Hash>, back: seq<Hash>)
    requires Halves(t, P, o, front, back)
    ensures SharedStretch(t, front + back, 0, Sub(t, P), front, 0, |front|)
    ensures forall x :: 0 <= x < |front| ==> At(front + back, 0, x) in P
  {
    BarrierFacts(t, P, o, front, back);
    hide Halves, Below, DownClosed, Closed, Sub, At;
    var all := front + back;
    forall x | 0 <= x < |front|
      ensures At(all, 0, x) == At(front, 0, x) && At(front, 0, x) in P && At(front, 0, x) in t
    {
      PrefixAt(t, P, o, front, back, x);
    }
    forall x, y | 0 <= x < |front| && 0 <= y < |front|
      ensures Below(t, At(all, 0, y), At(all, 0, x)) <==> Below(Sub(t, P), At(front, 0, y), At(front, 0, x))
    {
      BelowInClosed(t, P, At(front, 0, y), At(front, 0, x));
    }
    PrefixCovers(t, P, o, front, back);
    hide Covers;
  }

  lemma PrefixCovers(t: Graph, P: set<Hash>, o: Hash, front: seq<Hash>, back: seq<Hash>)
    requires Halves(t, P, o, front, back)
    ensures Covers(t, front + back, 0, |front|) && Covers(Sub(t, P), front, 0, |front|)
  {
    hide Halves, Below, Sub, At;
    var all := front + back;
    forall x, z | 0 <= x < |front| && |front| <= z && 0 + z < |all| ensures Below(t, At(all, 0, x), At(all, 0, z)) {
      BarrierFacts(t, P, o, front, back);
      PrefixAt(t, P, o, front, back, x);
      SuffixAt(t, P, o, front, back, z - |front|);
    }
  }

  lemma SuffixShared(t: Graph, P: set<Hash>, o: Hash, front: seq<Hash>, back: seq<Hash>)
    requires Halves(t, P, o, front, back)
    ensures SharedStretch(t, front + back, |front|, Sub(t, (t.Keys - P) + {o}), [o] + back, 1, |back|)
    ensures forall x :: 0 <= x < |back| ==> At(front + back, |front|, x) in t.Keys - P
  {
    BarrierFacts(t, P, o, front, back);
    hide Halves, Below, DownClosed, Closed, Sub, At;
    var all, q := front + back, [o] + back;
    forall x | 0 <= x < |back|
      ensures At(all, |front|, x) == At(q, 1, x) && At(q, 1, x) in t && At(q, 1, x) !in P
    {
      SuffixAt(t, P, o, front, back, x);
    }
    forall x, y | 0 <= x < |back| && 0 <= y < |back|
      ensures Below(t, At(all, |front|, y), At(all, |front|, x))
              <==> Below(Sub(t, (t.Keys - P) + {o}), At(q, 1, y), At(q, 1, x))
    {
      SuffixBelow(t, P, o, At(q, 1, y), At(q, 1, x));
    }
  }

  // ---------------------------------------------------------------- the theorem

  ghost function ScanAll(pol: Policy, s: Graph, order: seq<Hash>, origin: Hash): Option<Linear>
    requires forall h :: h in order ==> h in s
  {
    StartOK(s, order);
    Outer(pol, s, origin, Start(s, order), 0, |order|)
  }

  lemma PrefixShares(t: Graph, P: set<Hash>)
    requires P <= t.Keys
    ensures Shares(t, ROOT_HASH, Sub(t, P), ROOT_HASH, P)
  {}

  lemma SuffixShares(t: Graph, P: set<Hash>, o: Hash)
    requires ROOT_HASH in P && o in P
    ensures Shares(t, ROOT_HASH, Sub(t, (t.Keys - P) + {o}), o, t.Keys - P)
  {}

  lemma HalvesFresh(t: Graph, P: set<Hash>, o: Hash, front: seq<Hash>, back: seq<Hash>)
    requires Halves(t, P, o, front, back)
    ensures FreshFrom(t, Start(t, front + back), 0, front + back)
    ensures FreshFrom(Sub(t, P), Start(Sub(t, P), front), 0, front)
    ensures var q := Sub(t, (t.Keys - P) + {o}); FreshFrom(q, Start(q, [o] + back), 1, [o] + back)
  {
    var q := Sub(t, (t.Keys - P) + {o});
    assert Sorted(t, front + back) && Sorted(Sub(t, P), front) && Sorted(q, [o] + back);
    hide *;
    StartFresh(t, front + back);
    StartFresh(Sub(t, P), front);
    StartFresh(q, [o] + back);
    FreshLater(q, Start(q, [o] + back), [o] + back);
  }

  lemma SameGives(s1: Graph, a: Stretch, s2: Graph, b: Stretch, r1: Option<Linear>, r2: Option<Linear>)
    requires a.Fits(s1) && SameOuter(s1, a, s2, b, r1, r2)
    ensures r1.Some? <==> r2.Some?
    ensures r1.Some? ==> r1.value.out == r2.value.out && Framed(a, r1.value.scan) && Distinct(r1.value.scan.order)
  {}

  lemma StartSize(s: Graph, order: seq<Hash>)
    ensures Start(s, order).order == order && |Start(s, order).dropped| == |order|
  {}

  /** The prefix half: same output, and a scan that is still fresh from there on. */
  lemma PrefixHalf(pol: Policy, t: Graph, P: set<Hash>, o: Hash, front: seq<Hash>, back: seq<Hash>)
    requires CalmSwap(pol, t) && Halves(t, P, o, front, back)
    requires (forall h :: h in front ==> h in Sub(t, P)) && ScanOK(t, Start(t, front + back))
    ensures |front + back| == |Start(t, front + back).order|
    ensures var r := Outer(pol, t, ROOT_HASH, Start(t, front + back), 0, |front|);
            var r' := ScanAll(pol, Sub(t, P), front, ROOT_HASH);
            && (r.Some? <==> r'.Some?)
            && (r.Some? ==> r.value.out == r'.value.out && FreshFrom(t, r.value.scan, |front|, front + back))
  {
    hide Halves, CalmSwap, Shares, SharedStretch, Outer, FreshFrom, SameOuter, Framed, Distinct, Start, Sub, ScanOK;
    var p, all := Sub(t, P), front + back;
    BarrierFacts(t, P, o, front, back);
    PrefixShared(t, P, o, front, back);
    PrefixShares(t, P);
    HalvesFresh(t, P, o, front, back);
    StartSize(t, all);
    StartSize(p, front);
    StretchSim(pol, t, ROOT_HASH, Start(t, all), all, 0, p, ROOT_HASH, Start(p, front), front, 0, |front|, P);
    var r := Outer(pol, t, ROOT_HASH, Start(t, all), 0, |front|);
    SameGives(t, Stretch(Start(t, all), 0, |front|), p, Stretch(Start(p, front), 0, |front|), r,
              ScanAll(pol, p, front, ROOT_HASH));
    if r.Some? { FramedFresh(t, Start(t, all), all, |front|, r.value.scan); }
  }

  /** The suffix half, from whatever scan the prefix half left. */
  lemma SuffixHalf(pol: Policy, t: Graph, P: set<Hash>, o: Hash, front: seq<Hash>, back: seq<Hash>, mid: Scan)
    requires CalmSwap(pol, t) && Halves(t, P, o, front, back) && FreshFrom(t, mid, |front|, front + back)
    requires ScanOK(t, mid) && |mid.order| == |front + back|
    requires forall h :: h in [o] + back ==> h in Sub(t, (t.Keys - P) + {o})
    ensures var q := Sub(t, (t.Keys - P) + {o});
            var r, r' := Outer(pol, t, ROOT_HASH, mid, |front|, |front + back|), ScanAll(pol, q, [o] + back, o);
            (r.Some? <==> r'.Some?) && (r.Some? ==> r.value.out == r'.value.out)
  {
    hide Halves, CalmSwap, Shares, SharedStretch, FreshFrom, Outer, SameOuter, Framed, Distinct, Start, Sub, ScanOK;
    var q, M := Sub(t, (t.Keys - P) + {o}), t.Keys - P;
    BarrierFacts(t, P, o, front, back);
    SuffixShares(t, P, o);
    SuffixShared(t, P, o, front, back);
    HalvesFresh(t, P, o, front, back);
    var sc := Start(q, [o] + back);
    StartSize(q, [o] + back);
    StretchSim(pol, t, ROOT_HASH, mid, front + back, |front|, q, o, sc, [o] + back, 1, |back|, M);
    StartOK(q, [o] + back);
    SkipOrigin(pol, q, o, sc, |[o] + back|);
    SameGives(t, Stretch(mid, |front|, |back|), q, Stretch(sc, 1, |back|),
              Outer(pol, t, ROOT_HASH, mid, |front|, |front| + |back|), Outer(pol, q, o, sc, 1, 1 + |back|));
  }

  lemma SkipOrigin(pol: Policy, s: Graph, origin: Hash, sc: Scan, hi: nat)
    requires ScanOK(s, sc) && 0 < hi <= |sc.order| && sc.order[0] == origin
    ensures Outer(pol, s, origin, sc, 0, hi) == Outer(pol, s, origin, sc, 1, hi)
  {}

  lemma FreshLater(s: Graph, sc: Scan, order: seq<Hash>)
    requires FreshFrom(s, sc, 0, order)
    ensures FreshFrom(s, sc, 1, order)
  {}

  /** The orders of a barrier. */
  lemma BarrierHalves(t: Graph, P: set<Hash>, o: Hash) returns (front: seq<Hash>, back: seq<Hash>)
    requires GraphOK(t) && Reduced(t) && Barrier(t, P) && o in Heads(t, P)
    ensures RootedAt(t, ROOT_HASH) && RootedAt(Sub(t, P), ROOT_HASH) && RootedAt(Sub(t, (t.Keys - P) + {o}), o)
    ensures Halves(t, P, o, front, back)
    ensures |Sort(t, ROOT_HASH).order| >= |t| && DfsOrder(t, ROOT_HASH) == front + back
    ensures |Sort(Sub(t, P), ROOT_HASH).order| >= |Sub(t, P)| && DfsOrder(Sub(t, P), ROOT_HASH) == front
    ensures var q := Sub(t, (t.Keys - P) + {o}); |Sort(q, o).order| >= |q| && DfsOrder(q, o) == [o] + back
  {
    hide *;
    var p, q := Sub(t, P), Sub(t, (t.Keys - P) + {o});
    BarrierGraphs(t, P, o);
    SortedOrder(t, ROOT_HASH);
    SortedOrder(p, ROOT_HASH);
    SortedOrder(q, o);
    BarrierSort(t, P, o);
    front, back := DfsOrder(p, ROOT_HASH), DfsOrder(q, o)[1..];
    assert DfsOrder(q, o) == [o] + back;
    MakeHalves(t, P, o, front, back);
  }

  lemma MakeHalves(t: Graph, P: set<Hash>, o: Hash, front: seq<Hash>, back: seq<Hash>)
    requires GraphOK(t) && Reduced(t) && Barrier(t, P) && o in Heads(t, P)
    requires Sorted(Sub(t, P), front) && Sorted(t, front + back) && Sorted(Sub(t, (t.Keys - P) + {o}), [o] + back)
    ensures Halves(t, P, o, front, back)
  {
    hide GraphOK, Reduced, Barrier, Heads, Sorted;
  }

  /** Whole, prefix and suffix can all be sorted. */
  lemma BarrierGraphs(t: Graph, P: set<Hash>, o: Hash)
    requires GraphOK(t) && Reduced(t) && Barrier(t, P) && o in Heads(t, P)
    ensures Acyclic(t) && RootedAt(t, ROOT_HASH)
    ensures var p := Sub(t, P); Acyclic(p) && Reduced(p) && RootedAt(p, ROOT_HASH)
    ensures var q := Sub(t, (t.Keys - P) + {o}); Acyclic(q) && Reduced(q) && RootedAt(q, o)
    ensures ROOT_HASH in t && ROOT_HASH in Sub(t, P) && o in Sub(t, (t.Keys - P) + {o})
  {
    hide Acyclic, Reduced, Barrier, Heads;
    BarrierPrefixOK(t, P);
    RootRooted(t);
    RootRooted(Sub(t, P));
    SuffixRooted(t, P, o);
    AcyclicSub(t, (t.Keys - P) + {o});
    ReducedSub(t, P);
    ReducedSub(t, (t.Keys - P) + {o});
  }

  lemma BarrierPrefixOK(t: Graph, P: set<Hash>)
    requires GraphOK(t) && Barrier(t, P)
    ensures GraphOK(Sub(t, P))
  {
    SubOK(t, P);
  }

  lemma SortedOrder(s: Graph, origin: Hash)
    requires Acyclic(s) && Reduced(s) && RootedAt(s, origin)
    ensures |Sort(s, origin).order| >= |s| && DfsOrder(s, origin) == Sort(s, origin).order
    ensures Sorted(s, DfsOrder(s, origin))
  {
    hide Sort, DfsOrder, Acyclic, Reduced, RootedAt;
    SortIsTopological(s, origin);
  }

  /**
   Across a causal barrier the replay order of the whole is the replay order of the prefix followed
   by the replay order of the suffix started at any one head of the prefix.
   */
  lemma BarrierLinearize(pol: Policy, t: Graph, P: set<Hash>, o: Hash)
    requires Settled(pol, t) && GraphOK(t) && Reduced(t) && Barrier(t, P) && o in Heads(t, P)
    ensures var p, q := Sub(t, P), Sub(t, (t.Keys - P) + {o});
            && RootedAt(t, ROOT_HASH) && RootedAt(p, ROOT_HASH) && RootedAt(q, o)
            && Linearize(pol, p, ROOT_HASH).Some? && Linearize(pol, q, o).Some?
            && Linearize(pol, t, ROOT_HASH)
               == Some(Linearize(pol, p, ROOT_HASH).value + Linearize(pol, q, o).value)
  {
    hide Sort, DfsOrder, Acyclic, Reduced, Outer, Start, CalmSwap, PairLinearize;
    var p, q := Sub(t, P), Sub(t, (t.Keys - P) + {o});
    var front, back := BarrierHalves(t, P, o);
    SettledSub(pol, t, P);
    SettledSub(pol, t, (t.Keys - P) + {o});
    LinearizeReturns(pol, t, ROOT_HASH);
    LinearizeReturns(pol, p, ROOT_HASH);
    LinearizeReturns(pol, q, o);
    ScanDecides(pol, t, front + back, ROOT_HASH);
    ScanDecides(pol, p, front, ROOT_HASH);
    ScanDecides(pol, q, [o] + back, o);
    JoinHalves(pol, t, P, o, front, back);
  }

  lemma JoinHalves(pol: Policy, t: Graph, P: set<Hash>, o: Hash, front: seq<Hash>, back: seq<Hash>)
    requires CalmSwap(pol, t) && Halves(t, P, o, front, back)
    requires ScanAll(pol, t, front + back, ROOT_HASH).Some?
    ensures var q := Sub(t, (t.Keys - P) + {o});
            var a, b := ScanAll(pol, Sub(t, P), front, ROOT_HASH), ScanAll(pol, q, [o] + back, o);
            && a.Some? && b.Some?
            && ScanAll(pol, t, front + back, ROOT_HASH).value.out == a.value.out + b.value.out
  {
    HalvesOrder(t, P, o, front, back);
    hide Acyclic, Reduced, Outer, CalmSwap, Halves, FreshFrom;
    var all := front + back;
    StartOK(t, all);
    PrefixHalf(pol, t, P, o, front, back);
    OuterSplit(pol, t, ROOT_HASH, Start(t, all), 0, |front|, |all|);
    var r := Outer(pol, t, ROOT_HASH, Start(t, all), 0, |front|);
    if r.Some? {
      SuffixHalf(pol, t, P, o, front, back, r.value.scan);
    }
  }

  lemma HalvesOrder(t: Graph, P: set<Hash>, o: Hash, front: seq<Hash>, back: seq<Hash>)
    requires Halves(t, P, o, front, back)
    ensures forall h :: h in front + back <==> h in t
    ensures forall h :: h in front <==> h in Sub(t, P)
    ensures forall h :: h in [o] + back <==> h in Sub(t, (t.Keys - P) + {o})
  {}
}
