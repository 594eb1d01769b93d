/**
 Linearizing across a causal barrier.

 Two scans agree on a common stretch of their orders when they hold the same entries there, the
 same dropped marks, and rows that relate any two different entries of the stretch alike.  Scanning
 the anchors of the stretch then has the same outcome in both, provided everything after the
 stretch descends from it.  The stretch is first the prefix of a barrier and then its suffix.
 */
module BarrierLinearizer {
  import opened HashGraphs
  import opened TopologicalSort
  import opened CausalBarrier
  import opened PairLinearizer

  // ---------------------------------------------------------------- a scan and its stretch

  /** A scan, where its stretch starts and how long the stretch is. */
  datatype Stretch = Stretch(sc: Scan, at: nat, len: nat) {
    ghost predicate Fits(s: Graph) {
      && ScanOK(s, sc) && Distinct(sc.order) && at + len <= |sc.order|
    }

    function Entry(x: nat): Hash
      requires at + x < |sc.order|
    {
      sc.order[at + x]
    }

    predicate Mark(x: nat)
      requires at + x < |sc.dropped|
    {
      sc.dropped[at + x]
    }

    /** Column of entry `y` in the row of entry `x`. */
    predicate Bit(x: nat, y: nat)
      requires at + x < |sc.order| && at + y < |sc.order| && Entry(x) in sc.rows
    {
      Entry(y) in sc.rows[Entry(x)]
    }

    /** Everything after the stretch descends from the entries of the stretch from `k` on. */
    ghost predicate TailBelow(s: Graph, k: nat)
      requires Fits(s)
    {
      forall x, z :: k <= x < len && len <= z && at + z < |sc.order| ==> Bit(z, x)
    }
  }

  lemma Sized(s: Graph, a: Stretch)
    requires a.Fits(s)
    ensures |a.sc.dropped| == |a.sc.order|
  {}

  /** Two different entries, other than the anchor `k` and the entry `m` it changed places with. */
  predicate Apart(k: nat, m: nat, x: nat, y: nat) {
    x != y && !(x == k && y == m) && !(x == m && y == k)
  }

  /**
   The two stretches agree from their `k`-th entry on, except on whether the anchor `k` and the entry
   `m` are related; `m == k` when the anchor has not moved.
   */
  ghost predicate Agree(s1: Graph, a: Stretch, s2: Graph, b: Stretch, k: nat, m: nat)
    requires a.Fits(s1) && b.Fits(s2) && a.len == b.len
  {
    && (forall x :: k <= x < a.len ==> a.Entry(x) == b.Entry(x))
    && (forall x :: k <= x < a.len ==> a.Mark(x) == b.Mark(x))
    && (forall x, y :: k <= x < a.len && k <= y < a.len && Apart(k, m, x, y) ==> a.Bit(x, y) == b.Bit(x, y))
  }

  /** Everything the simulation of one anchor keeps. */
  ghost predicate Paired(s1: Graph, a: Stretch, s2: Graph, b: Stretch, k: nat, m: nat) {
    && a.Fits(s1) && b.Fits(s2) && a.len == b.len
    && Agree(s1, a, s2, b, k, m) && a.TailBelow(s1, k) && b.TailBelow(s2, k)
  }

  /** An anchor that changed places with `m` conflicts with it no more and swaps with nothing. */
  ghost predicate Steady(pol: Policy, s: Graph, a: Stretch, k: nat, m: nat)
    requires a.Fits(s) && k < a.len
  {
    m == k || (k < m < a.len && a.Entry(k) in s && a.Entry(m) in s
               && Idle(Resolve(pol, s[a.Entry(k)], s[a.Entry(m)])) && NoSwap(pol, s, a.Entry(k)))
  }

  /** The vertices the two graphs share, and how the two origins look from there. */
  ghost predicate Shares(s1: Graph, o1: Hash, s2: Graph, o2: Hash, M: set<Hash>) {
    forall h :: h in M ==> h in s1 && h in s2 && s1[h] == s2[h] && (h == o1 <==> h == o2)
  }

  ghost predicate Inside(a: Stretch, M: set<Hash>)
    requires a.at + a.len <= |a.sc.order|
  {
    forall x :: 0 <= x < a.len ==> a.Entry(x) in M
  }

  /** Nothing outside the stretch changed. */
  ghost predicate Framed(a: Stretch, r: Scan)
    requires a.at + a.len <= |a.sc.order| == |a.sc.dropped|
  {
    && |r.order| == |a.sc.order| && |r.dropped| == |a.sc.order|
    && (forall z :: 0 <= z < |a.sc.order| && !(a.at <= z < a.at + a.len) ==>
          && r.order[z] == a.sc.order[z] && r.dropped[z] == a.sc.dropped[z]
          && (a.sc.order[z] in a.sc.rows ==> r.order[z] in r.rows && r.rows[r.order[z]] == a.sc.rows[r.order[z]]))
  }

  // ---------------------------------------------------------------- single steps

  lemma FitsSwap(s: Graph, a: Stretch, k: nat, m: nat)
    requires a.Fits(s) && k < m < a.len
    ensures Stretch(SwapAt(a.sc, a.at + k, a.at + m), a.at, a.len).Fits(s)
  {
    SwapOK(s, a.sc, a.at + k, a.at + m);
  }

  /** The row of each entry after a swap. */
  lemma SwapRow(s: Graph, a: Stretch, k: nat, m: nat, x: nat)
    requires a.Fits(s) && k < m < a.len && a.at + x < |a.sc.order|
    ensures var r := SwapAt(a.sc, a.at + k, a.at + m);
            && r.order[a.at + x] == (if x == k then a.Entry(m) else if x == m then a.Entry(k) else a.Entry(x))
            && r.order[a.at + x] in r.rows
            && r.rows[r.order[a.at + x]] == a.sc.rows[a.Entry(x)]
  {
    assert a.Entry(x) in a.sc.order && a.Entry(k) in a.sc.order && a.Entry(m) in a.sc.order;
  }

  /** The stretch after entries `k` and `m` were swapped. */
  function Swapped(a: Stretch, k: nat, m: nat): Stretch
    requires k < m < a.len && a.at + a.len <= |a.sc.order| && a.Entry(k) in a.sc.rows && a.Entry(m) in a.sc.rows
  {
    Stretch(SwapAt(a.sc, a.at + k, a.at + m), a.at, a.len)
  }

  /** Positions keep their rows; a column follows its hash. */
  lemma SwapBit(s: Graph, a: Stretch, k: nat, m: nat, x: nat, y: nat)
    requires a.Fits(s) && k < m < a.len && a.at + x < |a.sc.order| && a.at + y < |a.sc.order|
    ensures Swapped(a, k, m).Fits(s)
    ensures Swapped(a, k, m).Bit(x, y) == a.Bit(x, if y == m then k else if y == k then m else y)
  {
    FitsSwap(s, a, k, m);
    SwapRow(s, a, k, m, x);
    SwapRow(s, a, k, m, y);
  }

  lemma SwapEntry(s: Graph, a: Stretch, k: nat, m: nat, x: nat)
    requires a.Fits(s) && k < m < a.len && a.at + x < |a.sc.order|
    ensures Swapped(a, k, m).Fits(s)
    ensures Swapped(a, k, m).Entry(x) == a.Entry(if x == k then m else if x == m then k else x)
    ensures Swapped(a, k, m).Mark(x) == a.Mark(x)
  {
    FitsSwap(s, a, k, m);
    SwapRow(s, a, k, m, x);
  }

  /** After a swap of `k` and `m` only the relation between these two may differ. */
  lemma SwapAgree(s1: Graph, a: Stretch, s2: Graph, b: Stretch, k: nat, m: nat)
    requires Paired(s1, a, s2, b, k, k) && k < m < a.len
    ensures Swapped(a, k, m).Fits(s1) && Swapped(b, k, m).Fits(s2)
    ensures Agree(s1, Swapped(a, k, m), s2, Swapped(b, k, m), k, m)
  {
    FitsSwap(s1, a, k, m);
    FitsSwap(s2, b, k, m);
    var a', b' := Swapped(a, k, m), Swapped(b, k, m);
    forall x | k <= x < a.len ensures a'.Entry(x) == b'.Entry(x) && a'.Mark(x) == b'.Mark(x) {
      SwapAgreeEntry(s1, a, s2, b, k, m, x);
    }
    forall x, y | k <= x < a.len && k <= y < a.len && Apart(k, m, x, y) ensures a'.Bit(x, y) == b'.Bit(x, y) {
      SwapAgreeBit(s1, a, s2, b, k, m, x, y);
    }
  }

  lemma SwapAgreeEntry(s1: Graph, a: Stretch, s2: Graph, b: Stretch, k: nat, m: nat, x: nat)
    requires Paired(s1, a, s2, b, k, k) && k < m < a.len && k <= x < a.len
    ensures Swapped(a, k, m).Fits(s1) && Swapped(b, k, m).Fits(s2)
    ensures Swapped(a, k, m).Entry(x) == Swapped(b, k, m).Entry(x)
    ensures Swapped(a, k, m).Mark(x) == Swapped(b, k, m).Mark(x)
  {
    hide Swapped;
    SwapEntry(s1, a, k, m, x);
    SwapEntry(s2, b, k, m, x);
    var y := if x == k then m else if x == m then k else x;
    assert a.Entry(y) == b.Entry(y) && a.Mark(x) == b.Mark(x);
  }

  lemma SwapAgreeBit(s1: Graph, a: Stretch, s2: Graph, b: Stretch, k: nat, m: nat, x: nat, y: nat)
    requires Paired(s1, a, s2, b, k, k) && k < m < a.len
    requires k <= x < a.len && k <= y < a.len && Apart(k, m, x, y)
    ensures Swapped(a, k, m).Fits(s1) && Swapped(b, k, m).Fits(s2)
    ensures Swapped(a, k, m).Bit(x, y) == Swapped(b, k, m).Bit(x, y)
  {
    hide Swapped;
    SwapBit(s1, a, k, m, x, y);
    SwapBit(s2, b, k, m, x, y);
    var z := if y == m then k else if y == k then m else y;
    assert Apart(k, k, x, z);
    assert a.Bit(x, z) == b.Bit(x, z);
  }

  lemma SwapTail(s: Graph, a: Stretch, k: nat, m: nat)
    requires a.Fits(s) && a.TailBelow(s, k) && k < m < a.len
    ensures Swapped(a, k, m).Fits(s) && Swapped(a, k, m).TailBelow(s, k) && Framed(a, Swapped(a, k, m).sc)
  {
    FitsSwap(s, a, k, m);
    var a' := Swapped(a, k, m);
    forall x, z | k <= x < a.len && a.len <= z && a.at + z < |a.sc.order| ensures a'.Bit(z, x) {
      SwapBit(s, a, k, m, z, x);
      assert a.Bit(z, if x == m then k else if x == k then m else x);
    }
    forall z | 0 <= z < |a.sc.order| && !(a.at <= z < a.at + a.len)
      ensures a'.sc.order[z] == a.sc.order[z] && a'.sc.rows[a.sc.order[z]] == a.sc.rows[a.sc.order[z]]
    {
      assert a.sc.order[z] != a.Entry(k) && a.sc.order[z] != a.Entry(m);
    }
  }

  lemma SwapInside(s: Graph, a: Stretch, k: nat, m: nat, M: set<Hash>)
    requires a.Fits(s) && k < m < a.len && Inside(a, M)
    ensures Inside(Swapped(a, k, m), M)
  {
    var a' := Swapped(a, k, m);
    forall x | 0 <= x < a.len ensures a'.Entry(x) in M { SwapEntry(s, a, k, m, x); }
  }

  /** An anchor that conflicts with nothing changes nothing. */
  lemma {:induction false} QuietInner(pol: Policy, s: Graph, sc: Scan, i: nat, j: nat, fuel: nat)
    requires ScanOK(s, sc) && i < j && i < |sc.order|
    requires forall z :: j <= z < |sc.order| ==> Verdict(pol, s, sc, i, z) == Nop
    ensures Inner(pol, s, sc, i, j, fuel) == Some(sc)
    decreases |sc.order| - j
  {
    if j < |sc.order| { QuietInner(pol, s, sc, i, j + 1, fuel); }
  }

  // ---------------------------------------------------------------- one anchor

  /** How two outcomes of scanning the anchor `k` correspond. */
  ghost predicate SameInner(s1: Graph, a: Stretch, s2: Graph, b: Stretch, k: nat, M: set<Hash>,
                            r1: Option<Scan>, r2: Option<Scan>)
    requires a.Fits(s1) && b.Fits(s2) && a.len == b.len && k < a.len
  {
    && (r1.Some? <==> r2.Some?)
    && (r1.Some? ==>
          var a' := Stretch(r1.value, a.at, a.len);
          var b' := Stretch(r2.value, b.at, b.len);
          && Framed(a, r1.value) && Framed(b, r2.value)
          && Paired(s1, a', s2, b', k + 1, k + 1) && Inside(a', M) && Inside(b', M)
          && a'.Entry(k) == b'.Entry(k) && a'.Mark(k) == b'.Mark(k))
  }

  lemma NoneSame(s1: Graph, a: Stretch, s2: Graph, b: Stretch, k: nat, M: set<Hash>)
    requires a.Fits(s1) && b.Fits(s2) && a.len == b.len && k < a.len
    ensures SameInner(s1, a, s2, b, k, M, None, None)
  {}

  /** The stretch after entry `m` was dropped. */
  function Dropped(a: Stretch, m: nat): Stretch
    requires a.at + m < |a.sc.dropped|
  {
    Stretch(DropAt(a.sc, a.at + m), a.at, a.len)
  }

  lemma DropSame(s: Graph, a: Stretch, m: nat, k: nat, M: set<Hash>)
    requires a.Fits(s) && m < a.len && a.TailBelow(s, k) && Inside(a, M)
    ensures var a' := Dropped(a, m);
            && a'.at == a.at && a'.len == a.len
            && a'.Fits(s) && Framed(a, a'.sc) && Inside(a', M) && a'.TailBelow(s, k)
            && (forall x :: 0 <= x < a.len ==> a'.Entry(x) == a.Entry(x))
            && (forall x :: 0 <= x < a.len ==> a'.Mark(x) == (x == m || a.Mark(x)))
            && (forall x, y :: 0 <= x < a.len && 0 <= y < a.len ==> a'.Bit(x, y) == a.Bit(x, y))
  {
    var a' := Dropped(a, m);
    forall x | 0 <= x < a.len ensures a'.Entry(x) == a.Entry(x) && a'.Entry(x) in M {}
    forall x, z | k <= x < a.len && a.len <= z && a.at + z < |a.sc.order| ensures a'.Bit(z, x) {
      assert a.Bit(z, x);
    }
  }

  lemma DropPaired(s1: Graph, a: Stretch, s2: Graph, b: Stretch, k: nat, m: nat, j: nat, M: set<Hash>)
    requires Paired(s1, a, s2, b, k, m) && k <= j < a.len && Inside(a, M) && Inside(b, M)
    ensures Paired(s1, Dropped(a, j), s2, Dropped(b, j), k, m)
    ensures Framed(a, Dropped(a, j).sc) && Framed(b, Dropped(b, j).sc)
    ensures Inside(Dropped(a, j), M) && Inside(Dropped(b, j), M)
  {
    hide Dropped, Framed, Inside, Stretch.TailBelow;
    Sized(s1, a);
    Sized(s2, b);
    DropSame(s1, a, j, k, M);
    DropSame(s2, b, j, k, M);
    DropAgree(s1, a, Dropped(a, j), s2, b, Dropped(b, j), k, m, j);
  }

  lemma DropAgree(s1: Graph, a: Stretch, a': Stretch, s2: Graph, b: Stretch, b': Stretch, k: nat, m: nat, j: nat)
    requires a.Fits(s1) && b.Fits(s2) && a.len == b.len && Agree(s1, a, s2, b, k, m) && k <= j < a.len
    requires a'.Fits(s1) && b'.Fits(s2) && a'.len == a.len && b'.len == b.len
    requires forall x :: 0 <= x < a.len ==> a'.Entry(x) == a.Entry(x) && b'.Entry(x) == b.Entry(x)
    requires forall x :: 0 <= x < a.len ==> a'.Mark(x) == (x == j || a.Mark(x))
    requires forall x :: 0 <= x < a.len ==> b'.Mark(x) == (x == j || b.Mark(x))
    requires forall x, y :: 0 <= x < a.len && 0 <= y < a.len ==> a'.Bit(x, y) == a.Bit(x, y)
    requires forall x, y :: 0 <= x < a.len && 0 <= y < a.len ==> b'.Bit(x, y) == b.Bit(x, y)
    ensures Agree(s1, a', s2, b', k, m)
  {
    forall x | k <= x < a.len ensures a'.Mark(x) == b'.Mark(x) { assert a.Mark(x) == b.Mark(x); }
  }

  lemma PairedNext(s1: Graph, a: Stretch, s2: Graph, b: Stretch, k: nat, m: nat)
    requires Paired(s1, a, s2, b, k, m)
    ensures Paired(s1, a, s2, b, k + 1, k + 1)
  {
    forall x, y | k + 1 <= x < a.len && k + 1 <= y < a.len && x != y ensures a.Bit(x, y) == b.Bit(x, y) {
      assert Apart(k, m, x, y);
    }
  }

  /** A swap leaves the stretches paired up to the two that changed places, and the anchor steady. */
  lemma SwapPaired(pol: Policy, s1: Graph, a: Stretch, s2: Graph, b: Stretch, M: set<Hash>, k: nat, m: nat)
    requires CalmSwap(pol, s1) && Paired(s1, a, s2, b, k, k) && k < m < a.len && Inside(a, M) && Inside(b, M)
    requires Verdict(pol, s1, a.sc, a.at + k, a.at + m) == Swap
    ensures var a', b' := Swapped(a, k, m), Swapped(b, k, m);
            && Paired(s1, a', s2, b', k, m) && Inside(a', M) && Inside(b', M)
            && Framed(a, a'.sc) && Framed(b, b'.sc) && Steady(pol, s1, a', k, m)
  {
    hide Framed, Inside, CalmSwap, Verdict, SwapAt, Steady;
    SwapAgree(s1, a, s2, b, k, m);
    SwapTail(s1, a, k, m);
    SwapTail(s2, b, k, m);
    SwapInside(s1, a, k, m, M);
    SwapInside(s2, b, k, m, M);
    SwapSteady(pol, s1, a, k, m);
  }

  lemma SwapSteady(pol: Policy, s: Graph, a: Stretch, k: nat, m: nat)
    requires CalmSwap(pol, s) && a.Fits(s) && k < m < a.len
    requires Verdict(pol, s, a.sc, a.at + k, a.at + m) == Swap
    ensures Swapped(a, k, m).Fits(s) && Steady(pol, s, Swapped(a, k, m), k, m)
  {
    hide CalmSwap, NoSwap;
    SwapEntry(s, a, k, m, k);
    SwapEntry(s, a, k, m, m);
    CalmAt(pol, s, a.Entry(k), a.Entry(m));
  }

  lemma CalmAt(pol: Policy, s: Graph, l: Hash, r: Hash)
    requires CalmSwap(pol, s) && l in s && r in s && Resolve(pol, s[l], s[r]) == Swap
    ensures Idle(Resolve(pol, s[r], s[l])) && NoSwap(pol, s, r)
  {}

  lemma TailQuiet(pol: Policy, s: Graph, a: Stretch, k: nat, fuel: nat)
    requires a.Fits(s) && a.TailBelow(s, k) && k < a.len
    ensures Inner(pol, s, a.sc, a.at + k, a.at + a.len, fuel) == Some(a.sc)
  {
    var i := a.at + k;
    forall z | a.at + a.len <= z < |a.sc.order| ensures Verdict(pol, s, a.sc, i, z) == Nop {
      assert a.Bit(z - a.at, k);
    }
    QuietInner(pol, s, a.sc, i, a.at + a.len, fuel);
  }

  lemma SameFrom(s1: Graph, a: Stretch, a0: Stretch, s2: Graph, b: Stretch, b0: Stretch, k: nat, M: set<Hash>,
                 r1: Option<Scan>, r2: Option<Scan>)
    requires a.Fits(s1) && b.Fits(s2) && a.len == b.len && k < a.len
    requires a0.Fits(s1) && b0.Fits(s2) && a0.at == a.at && b0.at == b.at && a0.len == a.len == b0.len
    requires Framed(a0, a.sc) && Framed(b0, b.sc) && SameInner(s1, a, s2, b, k, M, r1, r2)
    ensures SameInner(s1, a0, s2, b0, k, M, r1, r2)
  {}

  lemma SameVerdict(pol: Policy, s1: Graph, o1: Hash, a: Stretch, s2: Graph, o2: Hash, b: Stretch,
                    M: set<Hash>, k: nat, m: nat, j: nat)
    requires Shares(s1, o1, s2, o2, M) && Paired(s1, a, s2, b, k, m) && k < j < a.len && Inside(a, M)
    requires j != m && Steady(pol, s1, a, k, m)
    ensures Verdict(pol, s1, a.sc, a.at + k, a.at + j) == Verdict(pol, s2, b.sc, b.at + k, b.at + j)
    ensures m != k ==> Verdict(pol, s1, a.sc, a.at + k, a.at + j) != Swap
  {
    assert Apart(k, m, k, j) && Apart(k, m, j, k);
    assert a.Bit(k, j) == b.Bit(k, j) && a.Bit(j, k) == b.Bit(j, k);
    assert a.Entry(k) == b.Entry(k) && a.Entry(j) == b.Entry(j) && a.Mark(j) == b.Mark(j);
    assert a.Entry(k) in M && a.Entry(j) in M;
  }

  /** The one comparison on which the two scans may differ changes nothing in either. */
  lemma IdleVerdict(pol: Policy, s1: Graph, o1: Hash, a: Stretch, s2: Graph, o2: Hash, b: Stretch,
                    M: set<Hash>, k: nat, m: nat, fuel: nat)
    requires Shares(s1, o1, s2, o2, M) && Paired(s1, a, s2, b, k, m) && k < m < a.len && Inside(a, M)
    requires Steady(pol, s1, a, k, m)
    ensures Inner(pol, s1, a.sc, a.at + k, a.at + m, fuel) == Inner(pol, s1, a.sc, a.at + k, a.at + m + 1, fuel)
    ensures Inner(pol, s2, b.sc, b.at + k, b.at + m, fuel) == Inner(pol, s2, b.sc, b.at + k, b.at + m + 1, fuel)
  {
    assert a.Entry(k) == b.Entry(k) && a.Entry(m) == b.Entry(m);
    assert a.Entry(k) in M && a.Entry(m) in M;
    IdleInner(pol, s1, a.sc, a.at + k, a.at + m, fuel);
    IdleInner(pol, s2, b.sc, b.at + k, b.at + m, fuel);
  }

  lemma IdleInner(pol: Policy, s: Graph, sc: Scan, i: nat, j: nat, fuel: nat)
    requires ScanOK(s, sc) && i < j < |sc.order| && sc.order[i] in s && sc.order[j] in s
    requires Idle(Resolve(pol, s[sc.order[i]], s[sc.order[j]]))
    ensures Inner(pol, s, sc, i, j, fuel) == Inner(pol, s, sc, i, j + 1, fuel)
  {}

  lemma SameDropLeft(s1: Graph, a: Stretch, s2: Graph, b: Stretch, M: set<Hash>, k: nat, m: nat)
    requires Paired(s1, a, s2, b, k, m) && k < a.len && Inside(a, M) && Inside(b, M)
    ensures SameInner(s1, a, s2, b, k, M, Some(DropAt(a.sc, a.at + k)), Some(DropAt(b.sc, b.at + k)))
  {
    DropPaired(s1, a, s2, b, k, m, k, M);
    var a', b' := Dropped(a, k), Dropped(b, k);
    assert a'.Entry(k) == b'.Entry(k);
    PairedNext(s1, a', s2, b', k, m);
  }

  lemma SameEnd(pol: Policy, s1: Graph, a: Stretch, s2: Graph, b: Stretch, M: set<Hash>, k: nat, m: nat, fuel: nat)
    requires Paired(s1, a, s2, b, k, m) && k < a.len && Inside(a, M) && Inside(b, M)
    ensures SameInner(s1, a, s2, b, k, M, Inner(pol, s1, a.sc, a.at + k, a.at + a.len, fuel),
                      Inner(pol, s2, b.sc, b.at + k, b.at + a.len, fuel))
  {
    TailQuiet(pol, s1, a, k, fuel);
    TailQuiet(pol, s2, b, k, fuel);
    assert a.Entry(k) == b.Entry(k) && a.Mark(k) == b.Mark(k);
    PairedNext(s1, a, s2, b, k, m);
  }

  lemma SteadyStart(pol: Policy, s: Graph, a: Stretch, k: nat)
    requires a.Fits(s) && k < a.len
    ensures Steady(pol, s, a, k, k)
  {}

  lemma SteadyDrop(pol: Policy, s: Graph, a: Stretch, k: nat, m: nat, j: nat)
    requires a.Fits(s) && k < a.len && j < a.len && Steady(pol, s, a, k, m)
    ensures Dropped(a, j).Fits(s) && Steady(pol, s, Dropped(a, j), k, m)
  {}

  /** Scanning one anchor of the stretch has the same outcome in both scans. */
  lemma {:induction false} InnerSim(pol: Policy, s1: Graph, o1: Hash, a: Stretch, s2: Graph, o2: Hash, b: Stretch,
                                    M: set<Hash>, k: nat, m: nat, j: nat, fuel: nat)
    requires CalmSwap(pol, s1) && Shares(s1, o1, s2, o2, M)
    requires Paired(s1, a, s2, b, k, m) && Inside(a, M) && Inside(b, M) && k < j <= a.len && Steady(pol, s1, a, k, m)
    ensures SameInner(s1, a, s2, b, k, M,
                      Inner(pol, s1, a.sc, a.at + k, a.at + j, fuel), Inner(pol, s2, b.sc, b.at + k, b.at + j, fuel))
    decreases m == k, a.len - j, 1
  {
    hide Framed, Agree, Shares, Inside, SameInner, CalmSwap, Distinct, ScanOK, Verdict, SwapAt, DropAt, Steady,
         Stretch.TailBelow;
    Sized(s1, a);
    Sized(s2, b);
    if j == a.len {
      SameEnd(pol, s1, a, s2, b, M, k, m, fuel);
    } else if j == m {
      IdleVerdict(pol, s1, o1, a, s2, o2, b, M, k, m, fuel);
      InnerSim(pol, s1, o1, a, s2, o2, b, M, k, m, j + 1, fuel);
    } else {
      SameVerdict(pol, s1, o1, a, s2, o2, b, M, k, m, j);
      match Verdict(pol, s1, a.sc, a.at + k, a.at + j) {
        case DropLeft =>
          SameDropLeft(s1, a, s2, b, M, k, m);
        case DropRight =>
          SimDropRight(pol, s1, o1, a, s2, o2, b, M, k, m, j, fuel);
        case Swap =>
          if fuel == 0 {
            NoneSame(s1, a, s2, b, k, M);
          } else {
            SimSwap(pol, s1, o1, a, s2, o2, b, M, k, j, fuel - 1);
          }
        case _ =>
          InnerSim(pol, s1, o1, a, s2, o2, b, M, k, m, j + 1, fuel);
      }
    }
  }

  lemma {:induction false} SimDropRight(pol: Policy, s1: Graph, o1: Hash, a: Stretch, s2: Graph, o2: Hash, b: Stretch,
                                        M: set<Hash>, k: nat, m: nat, j: nat, fuel: nat)
    requires CalmSwap(pol, s1) && Shares(s1, o1, s2, o2, M)
    requires Paired(s1, a, s2, b, k, m) && Inside(a, M) && Inside(b, M) && k < j < a.len && Steady(pol, s1, a, k, m)
    ensures ScanOK(s1, DropAt(a.sc, a.at + j)) && ScanOK(s2, DropAt(b.sc, b.at + j))
    ensures SameInner(s1, a, s2, b, k, M,
                      Inner(pol, s1, DropAt(a.sc, a.at + j), a.at + k, a.at + j + 1, fuel),
                      Inner(pol, s2, DropAt(b.sc, b.at + j), b.at + k, b.at + j + 1, fuel))
    decreases m == k, a.len - j, 0
  {
    hide Framed, Agree, Shares, Inside, SameInner, CalmSwap, Distinct, Steady, Inner, Stretch.TailBelow;
    Sized(s1, a);
    Sized(s2, b);
    DropPaired(s1, a, s2, b, k, m, j, M);
    SteadyDrop(pol, s1, a, k, m, j);
    var a', b' := Dropped(a, j), Dropped(b, j);
    InnerSim(pol, s1, o1, a', s2, o2, b', M, k, m, j + 1, fuel);
    SameFrom(s1, a', a, s2, b', b, k, M, Inner(pol, s1, a'.sc, a.at + k, a.at + j + 1, fuel),
             Inner(pol, s2, b'.sc, b.at + k, b.at + j + 1, fuel));
  }

  lemma {:induction false} SimSwap(pol: Policy, s1: Graph, o1: Hash, a: Stretch, s2: Graph, o2: Hash, b: Stretch,
                                   M: set<Hash>, k: nat, j: nat, fuel: nat)
    requires CalmSwap(pol, s1) && Shares(s1, o1, s2, o2, M)
    requires Paired(s1, a, s2, b, k, k) && Inside(a, M) && Inside(b, M) && k < j < a.len
    requires Verdict(pol, s1, a.sc, a.at + k, a.at + j) == Swap
    ensures ScanOK(s1, Swapped(a, k, j).sc) && ScanOK(s2, Swapped(b, k, j).sc)
    ensures SameInner(s1, a, s2, b, k, M,
                      Inner(pol, s1, Swapped(a, k, j).sc, a.at + k, a.at + k + 2, fuel),
                      Inner(pol, s2, Swapped(b, k, j).sc, b.at + k, b.at + k + 2, fuel))
    decreases true, a.len - j, 0
  {
    hide Framed, Agree, Shares, Inside, SameInner, CalmSwap, Distinct, Steady, Inner, Verdict, Stretch.TailBelow;
    SwapPaired(pol, s1, a, s2, b, M, k, j);
    var a', b' := Swapped(a, k, j), Swapped(b, k, j);
    Sized(s1, a);
    Sized(s2, b);
    InnerSim(pol, s1, o1, a', s2, o2, b', M, k, j, k + 2, fuel);
    SameFrom(s1, a', a, s2, b', b, k, M, Inner(pol, s1, a'.sc, a.at + k, a.at + k + 2, fuel),
             Inner(pol, s2, b'.sc, b.at + k, b.at + k + 2, fuel));
  }

  // ---------------------------------------------------------------- all anchors of the stretch

  ghost predicate SameOuter(s1: Graph, a: Stretch, s2: Graph, b: Stretch, r1: Option<Linear>, r2: Option<Linear>)
    requires a.Fits(s1)
  {
    && (r1.Some? <==> r2.Some?)
    && (r1.Some? ==> r1.value.out == r2.value.out && Framed(a, r1.value.scan) && Distinct(r1.value.scan.order))
  }

  lemma OuterStep(pol: Policy, s1: Graph, o1: Hash, a: Stretch, s2: Graph, o2: Hash, b: Stretch, k: nat,
                  a': Stretch, b': Stretch)
    requires a.Fits(s1) && b.Fits(s2) && a.len == b.len && k < a.len
    requires a.Entry(k) == b.Entry(k) && a.Mark(k) == b.Mark(k)
    requires a.Entry(k) != o1 && b.Entry(k) != o2 && !a.Mark(k)
    requires a'.Fits(s1) && b'.Fits(s2) && a'.at == a.at && b'.at == b.at && a'.len == a.len && b'.len == b.len
    requires Inner(pol, s1, a.sc, a.at + k, a.at + k + 1, pol.swaps) == Some(a'.sc)
    requires Inner(pol, s2, b.sc, b.at + k, b.at + k + 1, pol.swaps) == Some(b'.sc)
    requires Framed(a, a'.sc) && a'.Entry(k) == b'.Entry(k) && a'.Mark(k) == b'.Mark(k)
    requires SameOuter(s1, a', s2, b', Outer(pol, s1, o1, a'.sc, a.at + k + 1, a.at + a.len),
                       Outer(pol, s2, o2, b'.sc, b.at + k + 1, b.at + b.len))
    ensures SameOuter(s1, a, s2, b, Outer(pol, s1, o1, a.sc, a.at + k, a.at + a.len),
                      Outer(pol, s2, o2, b.sc, b.at + k, b.at + b.len))
  {
    hide Framed, Inner;
    var r1 := Outer(pol, s1, o1, a'.sc, a.at + k + 1, a.at + a.len);
    if r1.Some? { FramedTrans(s1, a, a', r1.value.scan); }
  }

  lemma FramedTrans(s: Graph, a: Stretch, a': Stretch, r: Scan)
    requires a.Fits(s) && a'.Fits(s) && a'.at == a.at && a'.len == a.len
    requires Framed(a, a'.sc) && Framed(a', r)
    ensures Framed(a, r)
  {}

  lemma OuterSkip(pol: Policy, s1: Graph, o1: Hash, a: Stretch, s2: Graph, o2: Hash, b: Stretch, M: set<Hash>, k: nat)
    requires Shares(s1, o1, s2, o2, M) && Paired(s1, a, s2, b, k, k) && Inside(a, M) && k < a.len
    ensures a.Entry(k) == b.Entry(k) && a.Mark(k) == b.Mark(k) && (a.Entry(k) == o1 <==> b.Entry(k) == o2)
  {
    assert a.Entry(k) in M;
  }

  lemma OuterDone(s1: Graph, a: Stretch, s2: Graph, b: Stretch)
    requires a.Fits(s1) && b.Fits(s2)
    ensures SameOuter(s1, a, s2, b, None, None)
    ensures SameOuter(s1, a, s2, b, Some(Linear(a.sc, [])), Some(Linear(b.sc, [])))
  {}

  /** What one compared anchor leaves for the rest of the scan. */
  lemma InnerGives(s1: Graph, a: Stretch, s2: Graph, b: Stretch, M: set<Hash>, k: nat, r1: Option<Scan>,
                   r2: Option<Scan>)
    requires a.Fits(s1) && b.Fits(s2) && a.len == b.len && k < a.len && SameInner(s1, a, s2, b, k, M, r1, r2)
    ensures r1.Some? <==> r2.Some?
    ensures r1.Some? ==>
              var a' := Stretch(r1.value, a.at, a.len);
              var b' := Stretch(r2.value, b.at, b.len);
              && Paired(s1, a', s2, b', k + 1, k + 1) && Inside(a', M) && Inside(b', M) && Framed(a, r1.value)
              && a'.Entry(k) == b'.Entry(k) && a'.Mark(k) == b'.Mark(k)
  {}

  /** How the scan goes on from entry `i`. */
  lemma OuterCases(pol: Policy, s: Graph, origin: Hash, sc: Scan, i: nat, hi: nat)
    requires ScanOK(s, sc) && i <= hi <= |sc.order|
    ensures i == hi ==> Outer(pol, s, origin, sc, i, hi) == Some(Linear(sc, []))
    ensures i < hi && (sc.order[i] == origin || sc.dropped[i])
            ==> Outer(pol, s, origin, sc, i, hi) == Outer(pol, s, origin, sc, i + 1, hi)
    ensures i < hi && sc.order[i] != origin && !sc.dropped[i] && Inner(pol, s, sc, i, i + 1, pol.swaps) == None
            ==> Outer(pol, s, origin, sc, i, hi) == None
  {
    hide Inner;
  }

  /** Scanning all anchors of the stretch gives the same output in both scans. */
  lemma {:induction false} OuterSim(pol: Policy, s1: Graph, o1: Hash, a: Stretch, s2: Graph, o2: Hash, b: Stretch,
                                    M: set<Hash>, k: nat)
    requires CalmSwap(pol, s1) && Shares(s1, o1, s2, o2, M)
    requires Paired(s1, a, s2, b, k, k) && Inside(a, M) && Inside(b, M) && k <= a.len
    ensures SameOuter(s1, a, s2, b, Outer(pol, s1, o1, a.sc, a.at + k, a.at + a.len),
                      Outer(pol, s2, o2, b.sc, b.at + k, b.at + b.len))
    decreases a.len - k
  {
    hide Framed, Agree, Shares, Inside, SameInner, SameOuter, CalmSwap, Distinct, ScanOK, Inner, Steady,
         Outer, Stretch.TailBelow;
    Sized(s1, a);
    Sized(s2, b);
    OuterDone(s1, a, s2, b);
    OuterCases(pol, s1, o1, a.sc, a.at + k, a.at + a.len);
    OuterCases(pol, s2, o2, b.sc, b.at + k, b.at + b.len);
    if k < a.len {
      OuterSkip(pol, s1, o1, a, s2, o2, b, M, k);
      if a.Entry(k) == o1 || a.Mark(k) {
        PairedNext(s1, a, s2, b, k, k);
        OuterSim(pol, s1, o1, a, s2, o2, b, M, k + 1);
      } else {
        SteadyStart(pol, s1, a, k);
        InnerSim(pol, s1, o1, a, s2, o2, b, M, k, k, k + 1, pol.swaps);
        var r1 := Inner(pol, s1, a.sc, a.at + k, a.at + k + 1, pol.swaps);
        var r2 := Inner(pol, s2, b.sc, b.at + k, b.at + k + 1, pol.swaps);
        InnerGives(s1, a, s2, b, M, k, r1, r2);
        if r1.Some? {
          var a', b' := Stretch(r1.value, a.at, a.len), Stretch(r2.value, b.at, b.len);
          OuterSim(pol, s1, o1, a', s2, o2, b', M, k + 1);
          OuterStep(pol, s1, o1, a, s2, o2, b, k, a', b');
        }
      }
    }
  }

  /** Scanning to `hi` is scanning to `mid` and going on from there. */
  lemma {:induction false} OuterSplit(pol: Policy, s: Graph, origin: Hash, sc: Scan, i: nat, mid: nat, hi: nat)
    requires ScanOK(s, sc) && i <= mid <= hi <= |sc.order|
    ensures var r := Outer(pol, s, origin, sc, i, mid);
            match r
            case None => Outer(pol, s, origin, sc, i, hi) == None
            case Some(l) =>
              match Outer(pol, s, origin, l.scan, mid, hi)
              case None => Outer(pol, s, origin, sc, i, hi) == None
              case Some(m) => Outer(pol, s, origin, sc, i, hi) == Some(Linear(m.scan, l.out + m.out))
    decreases mid - i
  {
    hide Inner;
    if i == mid {
      var m := Outer(pol, s, origin, sc, mid, hi);
      assert m.Some? ==> [] + m.value.out == m.value.out;
    } else if sc.order[i] == origin || sc.dropped[i] {
      OuterSplit(pol, s, origin, sc, i + 1, mid, hi);
    } else {
      var r := Inner(pol, s, sc, i, i + 1, pol.swaps);
      if r.Some? {
        OuterSplit(pol, s, origin, r.value, i + 1, mid, hi);
        ConcatAssoc(if r.value.dropped[i] then [] else [r.value.order[i]], pol, s, origin, r.value, i + 1, mid, hi);
      }
    }
  }

  lemma ConcatAssoc(x: seq<Hash>, pol: Policy, s: Graph, origin: Hash, sc: Scan, i: nat, mid: nat, hi: nat)
    requires ScanOK(s, sc) && i <= mid <= hi <= |sc.order|
    ensures var r := Outer(pol, s, origin, sc, i, mid);
            r.Some? ==> var t := Outer(pol, s, origin, r.value.scan, mid, hi);
                        t.Some? ==> x + (r.value.out + t.value.out) == (x + r.value.out) + t.value.out
  {}
}
