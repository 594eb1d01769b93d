/**
 What becomes of the resolvers' verdicts.

 A vertex that no resolver swaps stays where the topological order put it, and so do its row and
 column among such vertices.  Of two unrelated ones that are both replayed no resolver had asked to
 drop either, and one that is missing was asked for.  Without any swaps the scan drops exactly what
 taking every pair once, in order, drops.  For an access control list this settles which of two
 concurrent operations on a peer is replayed.
 */
module Verdicts {
  import opened HashGraphs
  import opened TopologicalSort
  import opened PairLinearizer
  import opened BarrierLinearizer
  import opened Linearization
  import opened LinearOrder
  import opened Resolvers

  /** No resolver swaps `h` with a vertex of `s`. */
  ghost predicate Unswapped(pol: Policy, s: Graph, h: Hash)
    requires h in s
  {
    forall z :: z in s ==> Resolve(pol, s[h], s[z]) != Swap && Resolve(pol, s[z], s[h]) != Swap
  }

  /** The verdict leaves both vertices in the replay. */
  predicate Spares(action: Action) {
    action != DropLeft && action != DropRight
  }

  /** Some vertex has a resolver drop `h`; an unswapped one does so only when the two are unrelated. */
  ghost predicate Blamed(pol: Policy, s: Graph, h: Hash)
    requires h in s
  {
    exists w :: w in s && (Unswapped(pol, s, h) && Unswapped(pol, s, w) ==> Unrelated(s, h, w))
                && (Resolve(pol, s[h], s[w]) == DropLeft || Resolve(pol, s[w], s[h]) == DropRight)
  }

  // ---------------------------------------------------------------- what every scan keeps

  /** Unswapped vertices stand where `order` has them, and have their rows and columns. */
  ghost predicate Anchored(pol: Policy, s: Graph, order: seq<Hash>, sc: Scan)
    requires ScanOK(s, sc)
  {
    && |sc.order| == |order| && (forall h :: h in order ==> h in s)
    && (forall x :: 0 <= x < |order| && (Unswapped(pol, s, order[x]) || Unswapped(pol, s, sc.order[x])) ==>
          sc.order[x] == order[x])
    && (forall x, y :: 0 <= x < |order| && 0 <= y < |order| && x != y
                       && Unswapped(pol, s, sc.order[x]) && Unswapped(pol, s, sc.order[y]) ==>
          (RowBit(sc, x, y) <==> Below(s, sc.order[y], sc.order[x])))
  }

  ghost predicate MarksBlamed(pol: Policy, s: Graph, sc: Scan)
    requires ScanOK(s, sc)
  {
    forall x :: 0 <= x < |sc.order| && sc.dropped[x] ==> Blamed(pol, s, sc.order[x])
  }

  ghost predicate Tracked(pol: Policy, s: Graph, order: seq<Hash>, sc: Scan) {
    ScanOK(s, sc) && Distinct(sc.order) && Anchored(pol, s, order, sc) && MarksBlamed(pol, s, sc)
  }

  /** When both entries are unswapped, unrelated and still there, the resolver spared both. */
  ghost predicate Obeyed(pol: Policy, s: Graph, order: seq<Hash>, dropped: seq<bool>, x: nat, y: nat)
    requires x < |order| == |dropped| && y < |order| && (forall h :: h in order ==> h in s)
  {
    && !dropped[x] && !dropped[y]
    && Unswapped(pol, s, order[x]) && Unswapped(pol, s, order[y]) && Unrelated(s, order[x], order[y])
    ==> Spares(Resolve(pol, s[order[x]], s[order[y]]))
  }

  /** Every pair compared before anchor `i` came to entry `j` has been obeyed. */
  ghost predicate Decided(pol: Policy, s: Graph, order: seq<Hash>, dropped: seq<bool>, i: nat, j: nat)
    requires |order| == |dropped| && (forall h :: h in order ==> h in s)
  {
    forall x, y :: 1 <= x < y < |order| && (x < i || (x == i && y < j)) ==> Obeyed(pol, s, order, dropped, x, y)
  }

  lemma VerdictMeans(pol: Policy, s: Graph, order: seq<Hash>, sc: Scan, i: nat, j: nat)
    requires Tracked(pol, s, order, sc) && i < j < |order| && !sc.dropped[j]
    ensures var l, r := sc.order[i], sc.order[j];
            && (Verdict(pol, s, sc, i, j) != Nop ==>
                  && Verdict(pol, s, sc, i, j) == Resolve(pol, s[l], s[r])
                  && (Unswapped(pol, s, l) && Unswapped(pol, s, r) ==> Unrelated(s, l, r)))
            && (Unswapped(pol, s, l) && Unswapped(pol, s, r) && Unrelated(s, l, r) ==>
                  Verdict(pol, s, sc, i, j) == Resolve(pol, s[l], s[r]))
  {
    hide Below, MarksBlamed, Unswapped, Resolve;
    var l, r := sc.order[i], sc.order[j];
    if Unswapped(pol, s, l) && Unswapped(pol, s, r) {
      assert RowBit(sc, i, j) <==> Below(s, r, l);
      assert RowBit(sc, j, i) <==> Below(s, l, r);
    }
  }

  lemma BlamedBy(pol: Policy, s: Graph, h: Hash, w: Hash)
    requires h in s && w in s && (Unswapped(pol, s, h) && Unswapped(pol, s, w) ==> Unrelated(s, h, w))
    requires Resolve(pol, s[h], s[w]) == DropLeft || Resolve(pol, s[w], s[h]) == DropRight
    ensures Blamed(pol, s, h)
  {
    hide Below, Unswapped;
  }

  lemma DropTracked(pol: Policy, s: Graph, order: seq<Hash>, sc: Scan, i: nat, j: nat)
    requires Tracked(pol, s, order, sc) && i <= j < |order| && Blamed(pol, s, sc.order[j])
    ensures Tracked(pol, s, order, DropAt(sc, j)) && Later(sc, DropAt(sc, j), i)
  {
    hide Below, Blamed, Unswapped;
    var r := DropAt(sc, j);
    forall x | 0 <= x < |r.order| && r.dropped[x] ensures Blamed(pol, s, r.order[x]) {
      if x != j { assert sc.dropped[x]; }
    }
    forall x, y | 0 <= x < |order| && 0 <= y < |order| && x != y
                  && Unswapped(pol, s, r.order[x]) && Unswapped(pol, s, r.order[y])
      ensures RowBit(r, x, y) <==> Below(s, r.order[y], r.order[x])
    {
      assert RowBit(sc, x, y) <==> Below(s, sc.order[y], sc.order[x]);
    }
  }

  /** A swap touches no unswapped vertex. */
  lemma SwapTracked(pol: Policy, s: Graph, order: seq<Hash>, sc: Scan, i: nat, j: nat)
    requires Tracked(pol, s, order, sc) && i < j < |order| && !sc.dropped[i] && !sc.dropped[j]
    requires Resolve(pol, s[sc.order[i]], s[sc.order[j]]) == Swap
    ensures Tracked(pol, s, order, SwapAt(sc, i, j)) && Later(sc, SwapAt(sc, i, j), i)
    ensures !Unswapped(pol, s, order[i])
  {
    SwapOK(s, sc, i, j);
    SwapMembers(s, sc, i, j);
    SwapDistinct(s, sc, i, j);
    assert !Unswapped(pol, s, sc.order[i]) && !Unswapped(pol, s, sc.order[j]);
    hide Below, Blamed, Unswapped, Resolve;
    var t := SwapAt(sc, i, j);
    SwapAnchored(pol, s, order, sc, i, j);
    assert !Unswapped(pol, s, order[i]);
    hide Anchored, Distinct;
    forall x | 0 <= x < |t.order| && t.dropped[x] ensures Blamed(pol, s, t.order[x]) {
      assert x != i && x != j && t.order[x] == sc.order[x];
    }
  }

  lemma SwapAnchored(pol: Policy, s: Graph, order: seq<Hash>, sc: Scan, i: nat, j: nat)
    requires ScanOK(s, sc) && Distinct(sc.order) && Anchored(pol, s, order, sc) && i < j < |order|
    requires !Unswapped(pol, s, sc.order[i]) && !Unswapped(pol, s, sc.order[j])
    requires ScanOK(s, SwapAt(sc, i, j))
    ensures Anchored(pol, s, order, SwapAt(sc, i, j))
  {
    hide Below, Unswapped;
    var t := SwapAt(sc, i, j);
    forall x | 0 <= x < |order| && (Unswapped(pol, s, order[x]) || Unswapped(pol, s, t.order[x]))
      ensures t.order[x] == order[x]
    {
      assert x != i && x != j;
    }
    forall x, y | 0 <= x < |order| && 0 <= y < |order| && x != y
                  && Unswapped(pol, s, t.order[x]) && Unswapped(pol, s, t.order[y])
      ensures RowBit(t, x, y) <==> Below(s, t.order[y], t.order[x])
    {
      assert x != i && x != j && y != i && y != j;
      assert RowBit(sc, x, y) <==> Below(s, sc.order[y], sc.order[x]);
    }
  }

  // ---------------------------------------------------------------- one anchor

  lemma LastCompared(pol: Policy, s: Graph, order: seq<Hash>, dropped: seq<bool>, i: nat, j: nat)
    requires |order| == |dropped| <= j && (forall h :: h in order ==> h in s)
    requires Decided(pol, s, order, dropped, i, j)
    ensures Decided(pol, s, order, dropped, i + 1, i + 2)
  {
    hide Obeyed;
  }

  lemma MoreDropped(pol: Policy, s: Graph, order: seq<Hash>, dropped: seq<bool>, k: nat, x: nat, y: nat)
    requires x < |order| == |dropped| && y < |order| && k < |order| && (forall h :: h in order ==> h in s)
    requires Obeyed(pol, s, order, dropped, x, y) || k == x || k == y
    ensures Obeyed(pol, s, order, dropped[k := true], x, y)
  {
    hide Unswapped, Unrelated, Resolve, Spares;
  }

  lemma LeftDropped(pol: Policy, s: Graph, order: seq<Hash>, dropped: seq<bool>, i: nat, j: nat)
    requires i < |order| == |dropped| && (forall h :: h in order ==> h in s)
    requires Decided(pol, s, order, dropped, i, j)
    ensures Decided(pol, s, order, dropped[i := true], i + 1, i + 2)
  {
    hide Obeyed;
    var after := dropped[i := true];
    forall x, y | 1 <= x < y < |order| && x < i + 1 ensures Obeyed(pol, s, order, after, x, y) {
      MoreDropped(pol, s, order, dropped, i, x, y);
    }
  }

  lemma RightDropped(pol: Policy, s: Graph, order: seq<Hash>, dropped: seq<bool>, i: nat, j: nat)
    requires j < |order| == |dropped| && (forall h :: h in order ==> h in s)
    requires Decided(pol, s, order, dropped, i, j)
    ensures Decided(pol, s, order, dropped[j := true], i, j + 1)
  {
    hide Obeyed;
    var after := dropped[j := true];
    forall x, y | 1 <= x < y < |order| && (x < i || (x == i && y < j + 1))
      ensures Obeyed(pol, s, order, after, x, y)
    {
      MoreDropped(pol, s, order, dropped, j, x, y);
    }
  }

  lemma AnchorSwapped(pol: Policy, s: Graph, order: seq<Hash>, dropped: seq<bool>, i: nat, j: nat)
    requires i < |order| == |dropped| && (forall h :: h in order ==> h in s) && !Unswapped(pol, s, order[i])
    requires Decided(pol, s, order, dropped, i, j)
    ensures Decided(pol, s, order, dropped, i, i + 2)
  {
    hide Unswapped, Unrelated, Resolve;
  }

  /** A verdict that drops nothing leaves an obeyed pair behind. */
  lemma PairSpared(pol: Policy, s: Graph, order: seq<Hash>, sc: Scan, i: nat, j: nat)
    requires Tracked(pol, s, order, sc) && i < j < |order|
    requires Verdict(pol, s, sc, i, j) == Nop || Verdict(pol, s, sc, i, j) == Drop
    requires Decided(pol, s, order, sc.dropped, i, j)
    ensures Decided(pol, s, order, sc.dropped, i, j + 1)
  {
    assert Obeyed(pol, s, order, sc.dropped, i, j) by {
      if !sc.dropped[j] { VerdictMeans(pol, s, order, sc, i, j); }
      hide Below, MarksBlamed, Unswapped, Resolve, Verdict;
    }
    hide Obeyed, Tracked;
  }

  lemma DroppedNop(pol: Policy, s: Graph, sc: Scan, i: nat, j: nat)
    requires ScanOK(s, sc) && i < j < |sc.order| && sc.dropped[j]
    ensures Verdict(pol, s, sc, i, j) == Nop
  {}

  /** What scanning the anchor at `i` brings about. */
  ghost predicate Settles(pol: Policy, s: Graph, order: seq<Hash>, sc: Scan, i: nat, r: Option<Scan>) {
    r.Some? ==> && Tracked(pol, s, order, r.value) && Later(sc, r.value, i)
                && |r.value.dropped| == |order| && (forall h :: h in order ==> h in s)
                && Decided(pol, s, order, r.value.dropped, i + 1, i + 2)
  }

  lemma MakeSettles(pol: Policy, s: Graph, order: seq<Hash>, sc: Scan, i: nat, r: Scan)
    requires Tracked(pol, s, order, r) && Later(sc, r, i)
    requires |r.dropped| == |order| && (forall h :: h in order ==> h in s)
    requires Decided(pol, s, order, r.dropped, i + 1, i + 2)
    ensures Settles(pol, s, order, sc, i, Some(r))
  {
    hide Tracked, Later, Decided;
  }

  lemma SettlesLater(pol: Policy, s: Graph, order: seq<Hash>, sc: Scan, mid: Scan, i: nat, r: Option<Scan>)
    requires Settles(pol, s, order, mid, i, r) && Later(sc, mid, i)
    ensures Settles(pol, s, order, sc, i, r)
  {
    hide Tracked, Decided;
  }

  lemma LaterSelf(sc: Scan, i: nat)
    requires i <= |sc.order| == |sc.dropped|
    ensures Later(sc, sc, i)
  {}

  /** Comparing one anchor with the rest obeys every verdict on it. */
  lemma {:induction false} InnerDecides(pol: Policy, s: Graph, order: seq<Hash>, sc: Scan, i: nat, j: nat, fuel: nat)
    requires Tracked(pol, s, order, sc) && ScanOK(s, sc) && |sc.order| == |order| == |sc.dropped|
    requires (forall h :: h in order ==> h in s) && 1 <= i < j && i < |order| && !sc.dropped[i]
    requires Decided(pol, s, order, sc.dropped, i, j)
    ensures Settles(pol, s, order, sc, i, Inner(pol, s, sc, i, j, fuel))
    decreases fuel, |order| - j
  {
    hide *;
    if j >= |order| {
      InnerEnd(pol, s, sc, i, j, fuel);
      LastCompared(pol, s, order, sc.dropped, i, j);
      LaterSelf(sc, i);
      MakeSettles(pol, s, order, sc, i, sc);
    } else {
      InnerNext(pol, s, sc, i, j, fuel);
      if sc.dropped[j] { DroppedNop(pol, s, sc, i, j); }
      match Verdict(pol, s, sc, i, j) {
        case DropLeft =>
          LeftFalls(pol, s, order, sc, i, j);
        case DropRight =>
          RightFalls(pol, s, order, sc, i, j);
          InnerDecides(pol, s, order, DropAt(sc, j), i, j + 1, fuel);
          SettlesLater(pol, s, order, sc, DropAt(sc, j), i, Inner(pol, s, sc, i, j, fuel));
        case Swap =>
          if fuel == 0 {
            NotReturning(pol, s, order, sc, i);
          } else {
            BothMove(pol, s, order, sc, i, j);
            InnerDecides(pol, s, order, SwapAt(sc, i, j), i, i + 2, fuel - 1);
            SettlesLater(pol, s, order, sc, SwapAt(sc, i, j), i, Inner(pol, s, sc, i, j, fuel));
          }
        case Nop =>
          PairSpared(pol, s, order, sc, i, j);
          InnerDecides(pol, s, order, sc, i, j + 1, fuel);
        case Drop =>
          PairSpared(pol, s, order, sc, i, j);
          InnerDecides(pol, s, order, sc, i, j + 1, fuel);
      }
    }
  }

  lemma InnerEnd(pol: Policy, s: Graph, sc: Scan, i: nat, j: nat, fuel: nat)
    requires ScanOK(s, sc) && i < |sc.order| <= j
    ensures Inner(pol, s, sc, i, j, fuel) == Some(sc)
  {}

  lemma InnerNext(pol: Policy, s: Graph, sc: Scan, i: nat, j: nat, fuel: nat)
    requires ScanOK(s, sc) && i < j < |sc.order| == |sc.dropped|
    ensures sc.order[i] in s && sc.order[j] in s && ScanOK(s, DropAt(sc, j))
    ensures sc.order[i] in sc.rows && sc.order[j] in sc.rows && ScanOK(s, SwapAt(sc, i, j))
    ensures Inner(pol, s, sc, i, j, fuel)
            == match Verdict(pol, s, sc, i, j)
               case DropLeft => Some(DropAt(sc, i))
               case DropRight => Inner(pol, s, DropAt(sc, j), i, j + 1, fuel)
               case Swap => if fuel == 0 then None else Inner(pol, s, SwapAt(sc, i, j), i, i + 2, fuel - 1)
               case Nop => Inner(pol, s, sc, i, j + 1, fuel)
               case Drop => Inner(pol, s, sc, i, j + 1, fuel)
  {
    SwapOK(s, sc, i, j);
    hide Verdict;
  }

  lemma NotReturning(pol: Policy, s: Graph, order: seq<Hash>, sc: Scan, i: nat)
    ensures Settles(pol, s, order, sc, i, None)
  {}

  lemma LeftFalls(pol: Policy, s: Graph, order: seq<Hash>, sc: Scan, i: nat, j: nat)
    requires Tracked(pol, s, order, sc) && ScanOK(s, sc) && |sc.order| == |order| == |sc.dropped|
    requires i < j < |order| && Verdict(pol, s, sc, i, j) == DropLeft && !sc.dropped[j]
    requires (forall h :: h in order ==> h in s) && Decided(pol, s, order, sc.dropped, i, j)
    ensures Settles(pol, s, order, sc, i, Some(DropAt(sc, i)))
  {
    VerdictMeans(pol, s, order, sc, i, j);
    hide Tracked, Verdict, Unswapped, Unrelated, Blamed, Decided, Resolve, Later, Settles;
    BlamedBy(pol, s, sc.order[i], sc.order[j]);
    DropTracked(pol, s, order, sc, i, i);
    LeftDropped(pol, s, order, sc.dropped, i, j);
    MakeSettles(pol, s, order, sc, i, DropAt(sc, i));
  }

  lemma RightFalls(pol: Policy, s: Graph, order: seq<Hash>, sc: Scan, i: nat, j: nat)
    requires Tracked(pol, s, order, sc) && ScanOK(s, sc) && |sc.order| == |order| == |sc.dropped|
    requires i < j < |order| && Verdict(pol, s, sc, i, j) == DropRight && !sc.dropped[j]
    requires (forall h :: h in order ==> h in s) && Decided(pol, s, order, sc.dropped, i, j)
    ensures var r := DropAt(sc, j);
            && Tracked(pol, s, order, r) && Later(sc, r, i) && ScanOK(s, r)
            && |r.order| == |order| == |r.dropped| && r.dropped[i] == sc.dropped[i]
            && Decided(pol, s, order, r.dropped, i, j + 1)
  {
    VerdictMeans(pol, s, order, sc, i, j);
    hide Tracked, Verdict, Unswapped, Unrelated, Blamed, Decided, Resolve, Later;
    BlamedBy(pol, s, sc.order[j], sc.order[i]);
    DropTracked(pol, s, order, sc, i, j);
    RightDropped(pol, s, order, sc.dropped, i, j);
  }

  lemma BothMove(pol: Policy, s: Graph, order: seq<Hash>, sc: Scan, i: nat, j: nat)
    requires Tracked(pol, s, order, sc) && ScanOK(s, sc) && |sc.order| == |order| == |sc.dropped|
    requires i < j < |order| && Verdict(pol, s, sc, i, j) == Swap && !sc.dropped[i] && !sc.dropped[j]
    requires (forall h :: h in order ==> h in s) && Decided(pol, s, order, sc.dropped, i, j)
    ensures var r := SwapAt(sc, i, j);
            && Tracked(pol, s, order, r) && Later(sc, r, i) && ScanOK(s, r)
            && |r.order| == |order| == |r.dropped| && !r.dropped[i]
            && Decided(pol, s, order, r.dropped, i, i + 2)
  {
    VerdictMeans(pol, s, order, sc, i, j);
    SwapOK(s, sc, i, j);
    hide Tracked, Verdict, Unswapped, Unrelated, Blamed, Decided, Resolve, Later;
    SwapTracked(pol, s, order, sc, i, j);
    AnchorSwapped(pol, s, order, sc.dropped, i, j);
  }

  lemma Sizes(pol: Policy, s: Graph, order: seq<Hash>, sc: Scan)
    requires Tracked(pol, s, order, sc)
    ensures ScanOK(s, sc) && |sc.order| == |order| == |sc.dropped| && Distinct(sc.order)
    ensures forall h :: h in order ==> h in s
  {
    hide Below, Unswapped, Blamed;
  }

  // ---------------------------------------------------------------- the whole scan

  ghost predicate Decides(pol: Policy, s: Graph, order: seq<Hash>, origin: Hash, sc: Scan, i: nat,
                          r: Option<Linear>)
    requires i <= |order|
  {
    r.Some? ==>
      var end := r.value.scan;
      && Tracked(pol, s, order, end) && Later(sc, end, i) && |end.order| == |end.dropped| == |order|
      && r.value.out == Survivors(end, i, |order|, origin)
      && (forall h :: h in order ==> h in s) && Decided(pol, s, order, end.dropped, |order|, |order|)
  }

  /** The output is what stands undropped at the end, and every verdict has been obeyed. */
  lemma {:induction false} OuterDecides(pol: Policy, s: Graph, order: seq<Hash>, origin: Hash, sc: Scan, i: nat)
    requires Tracked(pol, s, order, sc) && ScanOK(s, sc) && |sc.order| == |order| == |sc.dropped|
    requires (forall h :: h in order ==> h in s) && 1 <= i <= |order| && sc.order[0] == origin
    requires Decided(pol, s, order, sc.dropped, i, i + 1)
    ensures Decides(pol, s, order, origin, sc, i, Outer(pol, s, origin, sc, i, |order|))
    decreases |order| - i
  {
    hide *;
    OuterNext(pol, s, order, origin, sc, i);
    if i == |order| {
      AllCompared(pol, s, order, sc.dropped);
      OuterEnd(pol, s, order, origin, sc);
    } else if sc.dropped[i] {
      AnchorGone(pol, s, order, sc.dropped, i);
      OuterDecides(pol, s, order, origin, sc, i + 1);
      SkipDropped(pol, s, order, origin, sc, i, Outer(pol, s, origin, sc, i, |order|));
    } else {
      InnerDecides(pol, s, order, sc, i, i + 1, pol.swaps);
      var r := Inner(pol, s, sc, i, i + 1, pol.swaps);
      if r.None? {
        OuterStops(pol, s, order, origin, sc, i);
      } else {
        SettlesParts(pol, s, order, sc, i, r.value);
        OuterDecides(pol, s, order, origin, r.value, i + 1);
        KeepAnchor(pol, s, order, origin, sc, i, r.value, Outer(pol, s, origin, r.value, i + 1, |order|));
      }
    }
  }

  lemma OuterNext(pol: Policy, s: Graph, order: seq<Hash>, origin: Hash, sc: Scan, i: nat)
    requires Tracked(pol, s, order, sc) && ScanOK(s, sc) && |sc.order| == |order| == |sc.dropped|
    requires 1 <= i <= |order| && sc.order[0] == origin
    ensures i == |order| ==> Outer(pol, s, origin, sc, i, |order|) == Some(Linear(sc, []))
    ensures i < |order| ==>
              && sc.order[i] != origin
              && Outer(pol, s, origin, sc, i, |order|)
                 == if sc.dropped[i] then Outer(pol, s, origin, sc, i + 1, |order|)
                    else Extended(pol, s, origin, i, |order|, Inner(pol, s, sc, i, i + 1, pol.swaps))
  {
    Sizes(pol, s, order, sc);
    hide Tracked, Inner;
  }

  /** The anchor's own part in front of what the later anchors leave. */
  function Extended(pol: Policy, s: Graph, origin: Hash, i: nat, hi: nat, r: Option<Scan>): Option<Linear>
    requires i < hi && (r.Some? ==> ScanOK(s, r.value) && hi <= |r.value.order|)
  {
    match r
    case None => None
    case Some(next) =>
      match Outer(pol, s, origin, next, i + 1, hi)
      case None => None
      case Some(rest) => Some(Linear(rest.scan, (if next.dropped[i] then [] else [next.order[i]]) + rest.out))
  }

  lemma OuterEnd(pol: Policy, s: Graph, order: seq<Hash>, origin: Hash, sc: Scan)
    requires Tracked(pol, s, order, sc) && |sc.order| == |order| == |sc.dropped|
    requires (forall h :: h in order ==> h in s) && Decided(pol, s, order, sc.dropped, |order|, |order|)
    ensures Decides(pol, s, order, origin, sc, |order|, Some(Linear(sc, [])))
  {
    hide Tracked, Decided;
  }

  lemma OuterStops(pol: Policy, s: Graph, order: seq<Hash>, origin: Hash, sc: Scan, i: nat)
    requires i < |order|
    ensures Decides(pol, s, order, origin, sc, i, Extended(pol, s, origin, i, |order|, None))
  {}

  lemma SkipDropped(pol: Policy, s: Graph, order: seq<Hash>, origin: Hash, sc: Scan, i: nat, r: Option<Linear>)
    requires i < |order| && |sc.dropped| == |order| && sc.dropped[i]
    requires Decides(pol, s, order, origin, sc, i + 1, r)
    ensures Decides(pol, s, order, origin, sc, i, r)
  {
    hide Tracked, Decided;
  }

  lemma SettlesParts(pol: Policy, s: Graph, order: seq<Hash>, sc: Scan, i: nat, r: Scan)
    requires Settles(pol, s, order, sc, i, Some(r)) && 1 <= i < |sc.order| == |sc.dropped|
    ensures Tracked(pol, s, order, r) && ScanOK(s, r) && |r.order| == |order| == |r.dropped|
    ensures r.order[0] == sc.order[0] && Decided(pol, s, order, r.dropped, i + 1, i + 2)
  {
    Sizes(pol, s, order, r);
    hide Tracked, Decided;
  }

  lemma KeepAnchor(pol: Policy, s: Graph, order: seq<Hash>, origin: Hash, sc: Scan, i: nat, mid: Scan,
                   r: Option<Linear>)
    requires 1 <= i < |order| && Settles(pol, s, order, sc, i, Some(mid)) && ScanOK(s, mid)
    requires |mid.order| == |order| && mid.order[0] == origin
    requires r == Outer(pol, s, origin, mid, i + 1, |order|) && Decides(pol, s, order, origin, mid, i + 1, r)
    ensures Decides(pol, s, order, origin, sc, i, Extended(pol, s, origin, i, |order|, Some(mid)))
  {
    Sizes(pol, s, order, mid);
    hide Tracked, Decided, Outer;
    assert mid.order[i] != origin;
  }

  lemma AllCompared(pol: Policy, s: Graph, order: seq<Hash>, dropped: seq<bool>)
    requires |order| == |dropped| && (forall h :: h in order ==> h in s)
    requires Decided(pol, s, order, dropped, |order|, |order| + 1)
    ensures Decided(pol, s, order, dropped, |order|, |order|)
  {
    hide Obeyed;
  }

  lemma AnchorGone(pol: Policy, s: Graph, order: seq<Hash>, dropped: seq<bool>, i: nat)
    requires i < |order| == |dropped| && (forall h :: h in order ==> h in s) && dropped[i]
    requires Decided(pol, s, order, dropped, i, i + 1)
    ensures Decided(pol, s, order, dropped, i + 1, i + 2)
  {
    hide Unswapped, Unrelated, Resolve;
  }

  lemma StartTracked(pol: Policy, s: Graph, order: seq<Hash>)
    requires Sorted(s, order)
    ensures Tracked(pol, s, order, Start(s, order))
    ensures Decided(pol, s, order, Start(s, order).dropped, 1, 2)
  {
    StartFresh(s, order);
    hide Acyclic, Unswapped, Below, BuildRows;
  }

  /** Two entries of the output, and where they stand. */
  lemma {:induction false} SurvivorAt(sc: Scan, i: nat, hi: nat, origin: Hash, x: nat) returns (p: nat)
    requires i <= hi <= |sc.order| == |sc.dropped| && x < |Survivors(sc, i, hi, origin)|
    ensures i <= p < hi && sc.order[p] == Survivors(sc, i, hi, origin)[x] && !sc.dropped[p]
    decreases hi - i
  {
    if sc.order[i] == origin || sc.dropped[i] {
      p := SurvivorAt(sc, i + 1, hi, origin, x);
    } else if x == 0 {
      p := i;
    } else {
      p := SurvivorAt(sc, i + 1, hi, origin, x - 1);
    }
  }

  lemma {:induction false} SurvivorPair(sc: Scan, i: nat, hi: nat, origin: Hash, x: nat, y: nat)
    returns (p: nat, q: nat)
    requires i <= hi <= |sc.order| == |sc.dropped| && x < y < |Survivors(sc, i, hi, origin)|
    ensures i <= p < q < hi && !sc.dropped[p] && !sc.dropped[q]
    ensures sc.order[p] == Survivors(sc, i, hi, origin)[x] && sc.order[q] == Survivors(sc, i, hi, origin)[y]
    decreases hi - i
  {
    if sc.order[i] == origin || sc.dropped[i] {
      p, q := SurvivorPair(sc, i + 1, hi, origin, x, y);
    } else if x == 0 {
      p := i;
      q := SurvivorAt(sc, i + 1, hi, origin, y - 1);
    } else {
      p, q := SurvivorPair(sc, i + 1, hi, origin, x - 1, y - 1);
    }
  }

  /** Of two unrelated unswapped vertices that are both replayed, the resolver spared both. */
  ghost predicate Spared(pol: Policy, s: Graph, out: seq<Hash>)
    requires forall h :: h in out ==> h in s
  {
    forall x, y :: 0 <= x < y < |out| ==>
      (Unswapped(pol, s, out[x]) && Unswapped(pol, s, out[y]) && Unrelated(s, out[x], out[y]) ==>
         Spares(Resolve(pol, s[out[x]], s[out[y]])))
  }

  lemma SurvivorsSpared(pol: Policy, s: Graph, order: seq<Hash>, origin: Hash, sc: Scan)
    requires Tracked(pol, s, order, sc) && 1 <= |order|
    requires |sc.order| == |order| && Decided(pol, s, order, sc.dropped, |order|, |order|)
    ensures var out := Survivors(sc, 1, |order|, origin); (forall h :: h in out ==> h in s) && Spared(pol, s, out)
  {
    Sizes(pol, s, order, sc);
    var out := Survivors(sc, 1, |order|, origin);
    forall h | h in out ensures h in s { SurvivorsMembers(sc, 1, |order|, origin, h); }
    forall x, y | 0 <= x < y < |out| && Unswapped(pol, s, out[x]) && Unswapped(pol, s, out[y])
                  && Unrelated(s, out[x], out[y])
      ensures Spares(Resolve(pol, s[out[x]], s[out[y]]))
    {
      hide Unswapped, Unrelated, Resolve, Spares, Survivors, Below, MarksBlamed, Distinct;
      var p, q := SurvivorPair(sc, 1, |order|, origin, x, y);
      assert sc.order[p] == order[p] && sc.order[q] == order[q];
      assert Obeyed(pol, s, order, sc.dropped, p, q);
    }
  }

  /**
   Whatever the resolvers: the replay order keeps no vertex that a verdict on two unrelated unswapped
   vertices drops, and lacks only the origin and vertices that a resolver drops.
   */
  lemma ReplayOrderObeys(pol: Policy, s: Graph, order: seq<Hash>, origin: Hash)
    requires Sorted(s, order) && order != [] && order[0] == origin
    ensures forall h :: h in order ==> h in s
    ensures var r := PairLinearize(pol, s, order, origin);
            r.Some? ==> Spared(pol, s, r.value)
                        && forall h :: h in s && h != origin && h !in r.value ==> Blamed(pol, s, h)
  {
    ScanDecides(pol, s, order, origin);
    StartTracked(pol, s, order);
    StartSize(s, order);
    var sc := Start(s, order);
    hide PairLinearize, Start, Outer, Survivors, Tracked, Decided, Spared, Blamed;
    SkipOrigin(pol, s, origin, sc, |order|);
    OuterDecides(pol, s, order, origin, sc, 1);
    var r := Outer(pol, s, origin, sc, 1, |order|);
    if r.Some? {
      assert Later(sc, r.value.scan, 1);
      SurvivorsSpared(pol, s, order, origin, r.value.scan);
      MissingBlamed(pol, s, order, origin, r.value.scan);
    }
  }

  lemma MissingBlamed(pol: Policy, s: Graph, order: seq<Hash>, origin: Hash, sc: Scan)
    requires Tracked(pol, s, order, sc) && order != [] && |sc.order| == |order| && sc.order[0] == origin
    requires forall h :: h in s ==> h in sc.order
    ensures forall h :: h in s && h != origin && h !in Survivors(sc, 1, |order|, origin) ==> Blamed(pol, s, h)
  {
    Sizes(pol, s, order, sc);
    hide Blamed, Anchored, Survivors;
    forall h | h in s && h != origin && h !in Survivors(sc, 1, |order|, origin) ensures Blamed(pol, s, h) {
      SurvivorsMembers(sc, 1, |order|, origin, h);
      var x :| 0 <= x < |sc.order| && sc.order[x] == h;
      assert x != 0 && sc.dropped[x];
    }
  }

  // ---------------------------------------------------------------- without swaps

  lemma SwaplessAll(pol: Policy, s: Graph, h: Hash)
    requires Swapless(pol, s) && h in s
    ensures Unswapped(pol, s, h)
  {
    assert NoSwap(pol, s, h);
    forall z | z in s ensures Resolve(pol, s[z], s[h]) != Swap { assert NoSwap(pol, s, z); }
  }

  /** No resolver has asked to drop either of two unrelated vertices of `out`. */
  ghost predicate NoConflict(pol: Policy, s: Graph, out: seq<Hash>)
    requires forall h :: h in out ==> h in s
  {
    forall x, y :: 0 <= x < y < |out| && Unrelated(s, out[x], out[y]) ==>
      Resolve(pol, s[out[x]], s[out[y]]) != DropLeft && Resolve(pol, s[out[x]], s[out[y]]) != DropRight
  }

  /** Without swaps, no two unrelated vertices of the replay order are in conflict. */
  lemma ReplayOrderNoConflict(pol: Policy, s: Graph, order: seq<Hash>, origin: Hash)
    requires Swapless(pol, s) && Sorted(s, order) && order != [] && order[0] == origin
    ensures forall h :: h in order ==> h in s
    ensures var r := PairLinearize(pol, s, order, origin); r.Some? ==> NoConflict(pol, s, r.value)
  {
    ReplayOrderObeys(pol, s, order, origin);
    hide PairLinearize, Sorted, Swapless, Unrelated, Resolve, Unswapped;
    var r := PairLinearize(pol, s, order, origin);
    if r.Some? {
      var out := r.value;
      forall x, y | 0 <= x < y < |out| && Unrelated(s, out[x], out[y])
        ensures Spares(Resolve(pol, s[out[x]], s[out[y]]))
      {
        SwaplessAll(pol, s, out[x]);
        SwaplessAll(pol, s, out[y]);
      }
    }
  }

  lemma LinearizeNoConflict(pol: Policy, s: Graph, origin: Hash)
    requires Swapless(pol, s) && Acyclic(s) && Reduced(s) && RootedAt(s, origin)
    ensures var r := Linearize(pol, s, origin); r.Some? ==> NoConflict(pol, s, r.value)
  {
    hide Acyclic, Reduced, Sort, DfsOrder, PairLinearize, Swapless, NoConflict;
    SortIsTopological(s, origin);
    ReplayOrderNoConflict(pol, s, DfsOrder(s, origin), origin);
  }

  /** One comparison of the entries `i` and `j`, given the entries that are gone. */
  ghost function Judge(pol: Policy, s: Graph, order: seq<Hash>, gone: set<nat>, i: nat, j: nat): set<nat>
    requires i < |order| && j < |order| && (forall h :: h in order ==> h in s)
  {
    if i in gone || j in gone || !Unrelated(s, order[i], order[j]) then gone
    else match Resolve(pol, s[order[i]], s[order[j]])
      case DropLeft => gone + {i}
      case DropRight => gone + {j}
      case _ => gone
  }

  /** Every pair once, in order, from the pair of `i` and `j` on. */
  ghost function Sweep(pol: Policy, s: Graph, order: seq<Hash>, gone: set<nat>, i: nat, j: nat): set<nat>
    requires forall h :: h in order ==> h in s
    decreases |order| - i, |order| - j
  {
    if i >= |order| then gone
    else if j >= |order| then Sweep(pol, s, order, gone, i + 1, i + 2)
    else Sweep(pol, s, order, Judge(pol, s, order, gone, i, j), i, j + 1)
  }

  /** The entries from `i` on that are not gone. */
  ghost function Left(order: seq<Hash>, gone: set<nat>, i: nat): seq<Hash>
    requires i <= |order|
    decreases |order| - i
  {
    if i == |order| then [] else (if i in gone then [] else [order[i]]) + Left(order, gone, i + 1)
  }

  function Marks(dropped: seq<bool>): set<nat> {
    set x: nat | x < |dropped| && dropped[x]
  }

  ghost predicate InPlace(s: Graph, order: seq<Hash>, sc: Scan) {
    && ScanOK(s, sc) && Distinct(order) && sc.order == order
    && (forall x, y :: 0 <= x < |order| && 0 <= y < |order| && x != y ==>
          (RowBit(sc, x, y) <==> Below(s, order[y], order[x])))
  }

  lemma InPlaceVerdict(pol: Policy, s: Graph, order: seq<Hash>, sc: Scan, i: nat, j: nat)
    requires InPlace(s, order, sc) && i < j < |order|
    ensures Verdict(pol, s, sc, i, j)
            == if sc.dropped[j] || !Unrelated(s, order[i], order[j]) then Nop
               else Resolve(pol, s[order[i]], s[order[j]])
  {
    hide Below, Resolve;
    assert RowBit(sc, i, j) <==> Below(s, order[j], order[i]);
    assert RowBit(sc, j, i) <==> Below(s, order[i], order[j]);
  }

  lemma {:induction false} AnchorIsGone(pol: Policy, s: Graph, order: seq<Hash>, gone: set<nat>, i: nat, j: nat)
    requires (forall h :: h in order ==> h in s) && i < |order| && i in gone
    ensures Sweep(pol, s, order, gone, i, j) == Sweep(pol, s, order, gone, i + 1, i + 2)
    decreases |order| - j
  {
    if j < |order| { AnchorIsGone(pol, s, order, gone, i, j + 1); }
  }

  lemma DropInPlace(s: Graph, order: seq<Hash>, sc: Scan, k: nat)
    requires InPlace(s, order, sc) && k < |order|
    ensures InPlace(s, order, DropAt(sc, k)) && Marks(DropAt(sc, k).dropped) == Marks(sc.dropped) + {k}
  {
    hide Below;
    var r := DropAt(sc, k);
    forall x, y | 0 <= x < |order| && 0 <= y < |order| && x != y
      ensures RowBit(r, x, y) <==> Below(s, order[y], order[x])
    {
      assert RowBit(sc, x, y) <==> Below(s, order[y], order[x]);
    }
  }

  /** One comparison marks what `Judge` takes away. */
  lemma JudgeMarks(pol: Policy, s: Graph, order: seq<Hash>, sc: Scan, i: nat, j: nat)
    requires InPlace(s, order, sc) && i < j < |order| && !sc.dropped[i]
    ensures Judge(pol, s, order, Marks(sc.dropped), i, j)
            == match Verdict(pol, s, sc, i, j)
               case DropLeft => Marks(sc.dropped) + {i}
               case DropRight => Marks(sc.dropped) + {j}
               case _ => Marks(sc.dropped)
  {
    InPlaceVerdict(pol, s, order, sc, i, j);
    hide Unrelated, Resolve, Verdict;
  }

  /** The scan of the anchor at `i` does what the sweep does up to the next anchor. */
  ghost predicate Sweeps(pol: Policy, s: Graph, order: seq<Hash>, gone: set<nat>, i: nat, j: nat, r: Option<Scan>)
    requires forall h :: h in order ==> h in s
  {
    && r.Some? && InPlace(s, order, r.value)
    && Sweep(pol, s, order, gone, i, j) == Sweep(pol, s, order, Marks(r.value.dropped), i + 1, i + 2)
  }

  lemma {:induction false} InnerSweeps(pol: Policy, s: Graph, order: seq<Hash>, sc: Scan, i: nat, j: nat, fuel: nat)
    requires Swapless(pol, s) && InPlace(s, order, sc) && ScanOK(s, sc) && |sc.order| == |order| == |sc.dropped|
    requires (forall h :: h in order ==> h in s) && i < j && i < |order| && !sc.dropped[i]
    ensures Sweeps(pol, s, order, Marks(sc.dropped), i, j, Inner(pol, s, sc, i, j, fuel))
    decreases |order| - j
  {
    hide *;
    if j >= |order| {
      InnerEnd(pol, s, sc, i, j, fuel);
      SweepsEnd(pol, s, order, sc, i, j);
    } else {
      NeverSwap(pol, s, order, sc, i, j);
      InnerNext(pol, s, sc, i, j, fuel);
      JudgeMarks(pol, s, order, sc, i, j);
      var r := Inner(pol, s, sc, i, j, fuel);
      match Verdict(pol, s, sc, i, j) {
        case DropLeft =>
          DropInPlace(s, order, sc, i);
          SweepsOut(pol, s, order, sc, i, j);
        case DropRight =>
          DropInPlace(s, order, sc, j);
          DropKeepsMark(sc, i, j);
          InnerSweeps(pol, s, order, DropAt(sc, j), i, j + 1, fuel);
          SweepsNext(pol, s, order, Marks(sc.dropped), i, j, r);
        case Swap =>
        case Nop =>
          InnerSweeps(pol, s, order, sc, i, j + 1, fuel);
          SweepsNext(pol, s, order, Marks(sc.dropped), i, j, r);
        case Drop =>
          InnerSweeps(pol, s, order, sc, i, j + 1, fuel);
          SweepsNext(pol, s, order, Marks(sc.dropped), i, j, r);
      }
    }
  }

  lemma SweepsEnd(pol: Policy, s: Graph, order: seq<Hash>, sc: Scan, i: nat, j: nat)
    requires InPlace(s, order, sc) && (forall h :: h in order ==> h in s) && i < |order| <= j
    ensures Sweeps(pol, s, order, Marks(sc.dropped), i, j, Some(sc))
  {
    hide InPlace, Marks;
  }

  lemma SweepsNext(pol: Policy, s: Graph, order: seq<Hash>, gone: set<nat>, i: nat, j: nat, r: Option<Scan>)
    requires (forall h :: h in order ==> h in s) && i < |order| && j < |order|
    requires Sweeps(pol, s, order, Judge(pol, s, order, gone, i, j), i, j + 1, r)
    ensures Sweeps(pol, s, order, gone, i, j, r)
  {
    hide InPlace, Marks, Judge;
  }

  lemma SweepsOut(pol: Policy, s: Graph, order: seq<Hash>, sc: Scan, i: nat, j: nat)
    requires (forall h :: h in order ==> h in s) && i < j < |order| && i < |sc.dropped|
    requires InPlace(s, order, DropAt(sc, i)) && Marks(DropAt(sc, i).dropped) == Marks(sc.dropped) + {i}
    requires Judge(pol, s, order, Marks(sc.dropped), i, j) == Marks(sc.dropped) + {i}
    ensures Sweeps(pol, s, order, Marks(sc.dropped), i, j, Some(DropAt(sc, i)))
  {
    hide InPlace, Marks, Judge, DropAt;
    AnchorIsGone(pol, s, order, Marks(sc.dropped) + {i}, i, j + 1);
  }

  lemma DropKeepsMark(sc: Scan, i: nat, j: nat)
    requires i < j < |sc.dropped|
    ensures DropAt(sc, j).order == sc.order && |DropAt(sc, j).dropped| == |sc.dropped|
    ensures DropAt(sc, j).dropped[i] == sc.dropped[i]
  {}

  lemma NeverSwap(pol: Policy, s: Graph, order: seq<Hash>, sc: Scan, i: nat, j: nat)
    requires Swapless(pol, s) && InPlace(s, order, sc) && i < j < |order|
    ensures Verdict(pol, s, sc, i, j) != Swap
  {
    hide Below, Resolve;
    assert NoSwap(pol, s, sc.order[i]);
  }

  lemma {:induction false} OuterSweeps(pol: Policy, s: Graph, order: seq<Hash>, origin: Hash, sc: Scan, i: nat)
    requires Swapless(pol, s) && InPlace(s, order, sc) && 1 <= i <= |order| && order[0] == origin
    ensures var r := Outer(pol, s, origin, sc, i, |order|);
            && r.Some? && |r.value.scan.dropped| == |order|
            && Marks(r.value.scan.dropped) == Sweep(pol, s, order, Marks(sc.dropped), i, i + 1)
    decreases |order| - i
  {
    if i < |order| {
      assert sc.order[i] != origin;
      hide InPlace, Swapless, Judge, Inner;
      if sc.dropped[i] {
        AnchorIsGone(pol, s, order, Marks(sc.dropped), i, i + 1);
        OuterSweeps(pol, s, order, origin, sc, i + 1);
      } else {
        InnerSweeps(pol, s, order, sc, i, i + 1, pol.swaps);
        OuterSweeps(pol, s, order, origin, Inner(pol, s, sc, i, i + 1, pol.swaps).value, i + 1);
      }
    }
  }

  lemma {:induction false} SurvivorsLeft(order: seq<Hash>, origin: Hash, sc: Scan, i: nat)
    requires Distinct(order) && sc.order == order && |sc.dropped| == |order| && 1 <= i <= |order| && order[0] == origin
    ensures Survivors(sc, i, |order|, origin) == Left(order, Marks(sc.dropped), i)
    decreases |order| - i
  {
    if i < |order| { SurvivorsLeft(order, origin, sc, i + 1); }
  }

  lemma StartInPlace(s: Graph, order: seq<Hash>)
    requires Sorted(s, order)
    ensures InPlace(s, order, Start(s, order)) && Marks(Start(s, order).dropped) == {}
  {
    StartFresh(s, order);
    hide Acyclic, Below, BuildRows;
  }

  /**
   Without swaps the scan, with its matrix, marks and early exits, leaves exactly what taking every
   pair of the topological order once, in order, leaves: a pair counts when both are still there and
   unrelated.
   */
  lemma ReplayOrderSwept(pol: Policy, s: Graph, order: seq<Hash>, origin: Hash)
    requires Swapless(pol, s) && Sorted(s, order) && order != [] && order[0] == origin
    ensures forall h :: h in order ==> h in s
    ensures PairLinearize(pol, s, order, origin) == Some(Left(order, Sweep(pol, s, order, {}, 1, 2), 1))
  {
    ScanDecides(pol, s, order, origin);
    StartTracked(pol, s, order);
    StartSize(s, order);
    StartInPlace(s, order);
    var sc := Start(s, order);
    hide PairLinearize, Start, Outer, Survivors, Tracked, Decided, Sweep, Left, InPlace, Swapless, Marks;
    SkipOrigin(pol, s, origin, sc, |order|);
    OuterDecides(pol, s, order, origin, sc, 1);
    OuterInPlace(pol, s, origin, sc, 1);
    OuterSweeps(pol, s, order, origin, sc, 1);
    SurvivorsLeft(order, origin, Outer(pol, s, origin, sc, 1, |order|).value.scan, 1);
  }

  // ---------------------------------------------------------------- the access control list

  /** An operation of the kind that the list lets win: grant or revoke. */
  predicate Winning(grantWins: bool, v: Vertex) {
    IsACL(v) && OpType(v) == if grantWins then "grant" else "revoke"
  }

  predicate Losing(grantWins: bool, v: Vertex) {
    IsACL(v) && OpType(v) == if grantWins then "revoke" else "grant"
  }

  predicate SamePeer(first: string -> string, v: Vertex, w: Vertex) {
    v.operation.Some? && w.operation.Some? && first(v.operation.value.value) == first(w.operation.value.value)
  }

  /** `w` is an unrelated winning operation on the peer of `h`. */
  ghost predicate Beats(grantWins: bool, first: string -> string, s: Graph, w: Hash, h: Hash)
    requires h in s
  {
    w in s && Unrelated(s, h, w) && Winning(grantWins, s[w]) && SamePeer(first, s[h], s[w])
  }

  /** `h` loses against a concurrent operation on the same peer. */
  ghost predicate Beaten(grantWins: bool, first: string -> string, s: Graph, h: Hash)
    requires h in s
  {
    Losing(grantWins, s[h]) && exists w :: Beats(grantWins, first, s, w, h)
  }

  /** No operation on the object itself has a peer of the list as its first argument. */
  ghost predicate PeersApart(first: string -> string, s: Graph) {
    forall h, w :: h in s && w in s && IsACL(s[h]) && !IsACL(s[w]) ==> !SamePeer(first, s[h], s[w])
  }

  lemma ACLUnswapped(grantWins: bool, first: string -> string, swaps: nat, s: Graph, h: Hash)
    requires OrdinaryACL(s) && h in s && IsACL(s[h])
    ensures Unswapped(Register(grantWins, first, swaps), s, h)
  {}

  /** What the resolvers of the register answer when one of the two is an operation of the list. */
  lemma ACLVerdict(grantWins: bool, first: string -> string, swaps: nat, s: Graph, l: Hash, r: Hash)
    requires OrdinaryACL(s) && l in s && r in s && (IsACL(s[l]) || IsACL(s[r]))
    ensures var a := Resolve(Register(grantWins, first, swaps), s[l], s[r]);
            && (a == DropLeft ==> Losing(grantWins, s[l]) && SamePeer(first, s[l], s[r])
                                  && (IsACL(s[r]) ==> Winning(grantWins, s[r])))
            && (a == DropRight && IsACL(s[r]) ==>
                  Winning(grantWins, s[l]) && Losing(grantWins, s[r]) && SamePeer(first, s[l], s[r]))
            && (Winning(grantWins, s[l]) && Losing(grantWins, s[r]) && SamePeer(first, s[l], s[r]) ==> a == DropRight)
            && (Losing(grantWins, s[l]) && Winning(grantWins, s[r]) && SamePeer(first, s[l], s[r]) ==> a == DropLeft)
  {
    assert IsACL(s[l]) ==> OpType(s[l]) in {"grant", "revoke", "setKey"};
    assert IsACL(s[r]) ==> OpType(s[r]) in {"grant", "revoke", "setKey"};
    assert "grant" != "revoke" && "setKey" != "grant" && "setKey" != "revoke";
  }

  /** An operation of the list is dropped only when it is of the losing kind, by an operation on its peer. */
  lemma BlamedLoses(grantWins: bool, first: string -> string, swaps: nat, s: Graph, h: Hash)
    requires OrdinaryACL(s) && h in s && IsACL(s[h]) && Blamed(Register(grantWins, first, swaps), s, h)
    ensures Losing(grantWins, s[h]) && (PeersApart(first, s) ==> Beaten(grantWins, first, s, h))
  {
    var pol := Register(grantWins, first, swaps);
    var w :| w in s && (Unswapped(pol, s, h) && Unswapped(pol, s, w) ==> Unrelated(s, h, w))
             && (Resolve(pol, s[h], s[w]) == DropLeft || Resolve(pol, s[w], s[h]) == DropRight);
    ACLVerdict(grantWins, first, swaps, s, h, w);
    ACLVerdict(grantWins, first, swaps, s, w, h);
    ACLUnswapped(grantWins, first, swaps, s, h);
    hide Unrelated, Unswapped, Register, Resolve, OrdinaryACL, Blamed, OpType, Losing, Winning;
    if PeersApart(first, s) {
      assert SamePeer(first, s[h], s[w]) && IsACL(s[w]);
      ACLUnswapped(grantWins, first, swaps, s, w);
      assert Beats(grantWins, first, s, w, h);
    }
  }

  /** Of two unrelated vertices that are both kept, the one in front spared the other. */
  lemma OneSpared(pol: Policy, s: Graph, out: seq<Hash>, a: Hash, b: Hash)
    requires (forall h :: h in out ==> h in s) && Spared(pol, s, out) && a in out && b in out
    requires Unswapped(pol, s, a) && Unswapped(pol, s, b) && Unrelated(s, a, b)
    ensures Spares(Resolve(pol, s[a], s[b])) || Spares(Resolve(pol, s[b], s[a]))
  {
    assert Unrelated(s, b, a);
    hide Unswapped, Resolve, Spares, Below;
    var x :| 0 <= x < |out| && out[x] == a;
    var y :| 0 <= y < |out| && out[y] == b;
  }

  /** Of a losing operation and an unrelated winning one on its peer, a spared order has at most one. */
  lemma NotBoth(grantWins: bool, first: string -> string, swaps: nat, s: Graph, out: seq<Hash>, w: Hash, h: Hash)
    requires OrdinaryACL(s) && h in s && (forall x :: x in out ==> x in s)
    requires Spared(Register(grantWins, first, swaps), s, out)
    requires Losing(grantWins, s[h]) && Beats(grantWins, first, s, w, h)
    ensures w !in out || h !in out
  {
    var pol := Register(grantWins, first, swaps);
    ACLVerdict(grantWins, first, swaps, s, h, w);
    ACLVerdict(grantWins, first, swaps, s, w, h);
    ACLUnswapped(grantWins, first, swaps, s, h);
    ACLUnswapped(grantWins, first, swaps, s, w);
    hide Unswapped, Register, Resolve, OrdinaryACL, OpType, Below;
    if w in out && h in out { OneSpared(pol, s, out, w, h); }
  }

  lemma OneKind(grantWins: bool, v: Vertex)
    ensures !(Winning(grantWins, v) && Losing(grantWins, v))
  {
    assert "grant" != "revoke";
  }

  /** A concurrent winning operation on the same peer keeps a losing operation out of the replay. */
  lemma BeatenMissing(grantWins: bool, first: string -> string, swaps: nat, s: Graph, origin: Hash, out: seq<Hash>,
                      h: Hash)
    requires OrdinaryACL(s) && RootedAt(s, origin) && h in s && (forall x :: x in out ==> x in s)
    requires Spared(Register(grantWins, first, swaps), s, out) && Beaten(grantWins, first, s, h)
    requires forall x :: x in s && x != origin && x !in out ==> Blamed(Register(grantWins, first, swaps), s, x)
    ensures h !in out
  {
    var w :| Beats(grantWins, first, s, w, h);
    assert w != origin by { assert AtMost(s, origin, h); }
    hide Unswapped, Register, Resolve, OrdinaryACL, OpType, Below, Blamed, RootedAt, Spared;
    NotBoth(grantWins, first, swaps, s, out, w, h);
    if w !in out {
      BlamedLoses(grantWins, first, swaps, s, w);
      OneKind(grantWins, s[w]);
    }
  }

  /**
   With the resolvers of the register, an operation of the access control list is missing from the
   replay when an unrelated operation of the winning kind is about the same peer, and only losing
   operations are ever missing.  When moreover no operation on the object has a peer as its first
   argument, such a rival is the only reason.
   */
  lemma ACLReplay(grantWins: bool, first: string -> string, swaps: nat, s: Graph, origin: Hash)
    requires OrdinaryACL(s) && swaps >= 1 && Acyclic(s) && Reduced(s) && RootedAt(s, origin)
    ensures var r := Linearize(Register(grantWins, first, swaps), s, origin);
            r.Some? && forall h :: h in s && IsACL(s[h]) && h != origin ==>
              && (Beaten(grantWins, first, s, h) ==> h !in r.value)
              && (h !in r.value ==> Losing(grantWins, s[h]))
              && (h !in r.value && PeersApart(first, s) ==> Beaten(grantWins, first, s, h))
  {
    var pol := Register(grantWins, first, swaps);
    RegisterSettles(grantWins, first, swaps, s);
    LinearizeReturns(pol, s, origin);
    SortIsTopological(s, origin);
    hide Acyclic, Reduced, Sort, DfsOrder, PairLinearize, Spared, Blamed, Beaten, PeersApart, Register, OrdinaryACL,
         RootedAt, Settled, Losing;
    ReplayOrderObeys(pol, s, DfsOrder(s, origin), origin);
    var out := Linearize(pol, s, origin).value;
    forall h | h in s && IsACL(s[h]) && h != origin
      ensures Beaten(grantWins, first, s, h) ==> h !in out
      ensures h !in out ==> Losing(grantWins, s[h])
      ensures h !in out && PeersApart(first, s) ==> Beaten(grantWins, first, s, h)
    {
      if Beaten(grantWins, first, s, h) { BeatenMissing(grantWins, first, swaps, s, origin, out, h); }
      if h !in out { BlamedLoses(grantWins, first, swaps, s, h); }
    }
  }
}
