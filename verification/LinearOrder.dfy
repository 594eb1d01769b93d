/**
 What linearization returns.

 When a vertex only changes places with unrelated vertices that may pass it, the replay order is causal
 and a vertex is missing only because a resolver dropped it against an unrelated one.  Without any
 swaps it is moreover the topological order with the dropped vertices left out.
 */
module LinearOrder {
  import opened HashGraphs
  import opened TopologicalSort
  import opened PairLinearizer
  import opened BarrierLinearizer
  import opened Linearization

  ghost predicate Unrelated(s: Graph, a: Hash, b: Hash) {
    a != b && !Below(s, a, b) && !Below(s, b, a)
  }

  /** What is below `r` is below `l`, and what is above `l` is above `r`. */
  ghost predicate MayPass(s: Graph, l: Hash, r: Hash) {
    forall w :: w in s ==> (Below(s, w, r) ==> Below(s, w, l)) && (Below(s, l, w) ==> Below(s, r, w))
  }

  /** A swap moves a vertex only in front of one that it may pass. */
  ghost predicate FairSwaps(pol: Policy, s: Graph) {
    forall l, r :: l in s && r in s && Unrelated(s, l, r) && Resolve(pol, s[l], s[r]) == Swap ==> MayPass(s, l, r)
  }

  /** Nothing comes before one of its ancestors. */
  ghost predicate Causal(s: Graph, order: seq<Hash>) {
    forall i, j :: 0 <= i < j < |order| ==> !Below(s, order[j], order[i])
  }

  /** Some unrelated vertex has a resolver drop `h`. */
  ghost predicate Refused(pol: Policy, s: Graph, h: Hash)
    requires h in s
  {
    exists w :: w in s && Unrelated(s, h, w)
                && (Resolve(pol, s[h], s[w]) == DropLeft || Resolve(pol, s[w], s[h]) == DropRight)
  }

  // ---------------------------------------------------------------- what the scan keeps

  /** From position `i` on, every ancestor is set in the row. */
  ghost predicate RowsCover(s: Graph, sc: Scan, i: nat)
    requires ScanOK(s, sc)
  {
    forall x, y :: i <= x < |sc.order| && i <= y < |sc.order| && x != y && Below(s, sc.order[x], sc.order[y]) ==>
      RowBit(sc, y, x)
  }

  ghost predicate MarksRefused(pol: Policy, s: Graph, sc: Scan)
    requires ScanOK(s, sc)
  {
    forall x :: 0 <= x < |sc.order| && sc.dropped[x] ==> Refused(pol, s, sc.order[x])
  }

  /** What holds when the anchor at `i` is scanned. */
  ghost predicate Fair(pol: Policy, s: Graph, sc: Scan, i: nat) {
    ScanOK(s, sc) && Distinct(sc.order) && Causal(s, sc.order) && RowsCover(s, sc, i) && MarksRefused(pol, s, sc)
  }

  lemma FairNext(pol: Policy, s: Graph, sc: Scan, i: nat)
    requires Fair(pol, s, sc, i)
    ensures Fair(pol, s, sc, i + 1)
  {
    hide Causal, MarksRefused, Below;
  }

  /** Scanning position `i` leaves the earlier positions, and which hashes there are. */
  ghost predicate Later(sc: Scan, r: Scan, i: nat) {
    && |r.order| == |sc.order| == |sc.dropped| == |r.dropped| && i <= |sc.order|
    && (forall x :: 0 <= x < i ==> r.order[x] == sc.order[x] && r.dropped[x] == sc.dropped[x])
    && (forall h :: h in r.order <==> h in sc.order)
  }

  lemma VerdictUnrelated(pol: Policy, s: Graph, sc: Scan, i: nat, j: nat)
    requires Fair(pol, s, sc, i) && i < j < |sc.order| && Verdict(pol, s, sc, i, j) != Nop
    ensures Unrelated(s, sc.order[i], sc.order[j]) && !sc.dropped[j]
    ensures Verdict(pol, s, sc, i, j) == Resolve(pol, s[sc.order[i]], s[sc.order[j]])
  {
    hide Below, MarksRefused;
    assert Below(s, sc.order[i], sc.order[j]) ==> RowBit(sc, j, i);
  }

  lemma DropFair(pol: Policy, s: Graph, sc: Scan, i: nat, j: nat)
    requires Fair(pol, s, sc, i) && i <= j < |sc.order| && Refused(pol, s, sc.order[j])
    ensures Fair(pol, s, DropAt(sc, j), i) && Later(sc, DropAt(sc, j), i)
  {
    hide Below, Refused;
    var r := DropAt(sc, j);
    forall x | 0 <= x < |r.order| && r.dropped[x] ensures Refused(pol, s, r.order[x]) {
      if x != j { assert sc.dropped[x]; }
    }
    forall x, y | i <= x < |r.order| && i <= y < |r.order| && x != y && Below(s, r.order[x], r.order[y])
      ensures RowBit(r, y, x)
    {
      assert RowBit(sc, y, x);
    }
  }

  lemma SwapCausal(s: Graph, order: seq<Hash>, i: nat, j: nat)
    requires Distinct(order) && Causal(s, order) && i < j < |order| && (forall h :: h in order ==> h in s)
    requires Unrelated(s, order[i], order[j]) && MayPass(s, order[i], order[j])
    ensures Causal(s, order[i := order[j]][j := order[i]])
  {
    hide Below;
    var l, r := order[i], order[j];
    var after := order[i := r][j := l];
    forall x, y | 0 <= x < y < |after| ensures !Below(s, after[y], after[x]) {
      assert order[x] in s && order[y] in s;
      assert y < j ==> !Below(s, r, order[y]);
      assert i < x ==> !Below(s, order[x], l);
      assert i < y ==> !Below(s, order[y], l);
      assert x < j ==> !Below(s, r, order[x]);
    }
  }

  lemma SwapFair(pol: Policy, s: Graph, sc: Scan, i: nat, j: nat)
    requires Fair(pol, s, sc, i) && i < j < |sc.order| && !sc.dropped[i] && !sc.dropped[j]
    requires Unrelated(s, sc.order[i], sc.order[j]) && MayPass(s, sc.order[i], sc.order[j])
    ensures Fair(pol, s, SwapAt(sc, i, j), i) && Later(sc, SwapAt(sc, i, j), i)
  {
    SwapOK(s, sc, i, j);
    SwapCausal(s, sc.order, i, j);
    hide Below, Refused, Causal;
    var r := SwapAt(sc, i, j);
    SwapMembers(s, sc, i, j);
    SwapDistinct(s, sc, i, j);
    hide Distinct;
    forall x, y | i <= x < |r.order| && i <= y < |r.order| && x != y && Below(s, r.order[x], r.order[y])
      ensures RowBit(r, y, x)
    {
      SwapCovers(s, sc, i, j, x, y);
    }
    forall x | 0 <= x < |r.order| && r.dropped[x] ensures Refused(pol, s, r.order[x]) {
      assert x != i && x != j && r.order[x] == sc.order[x];
    }
  }

  lemma SwapMembers(s: Graph, sc: Scan, i: nat, j: nat)
    requires ScanOK(s, sc) && i < j < |sc.order|
    ensures forall h :: h in SwapAt(sc, i, j).order <==> h in sc.order
  {
    var r := SwapAt(sc, i, j);
    hide ScanOK;
    forall x | 0 <= x < |r.order| ensures r.order[x] in sc.order && sc.order[x] in r.order {
      assert r.order[x] == sc.order[if x == i then j else if x == j then i else x];
      assert sc.order[x] == r.order[if x == i then j else if x == j then i else x];
    }
  }

  lemma SwapDistinct(s: Graph, sc: Scan, i: nat, j: nat)
    requires ScanOK(s, sc) && i < j < |sc.order| && Distinct(sc.order)
    ensures Distinct(SwapAt(sc, i, j).order)
  {
    hide ScanOK;
  }

  /** What is below either of the two stood in front of them, so their exchanged rows lose nothing. */
  lemma SwapCovers(s: Graph, sc: Scan, i: nat, j: nat, x: nat, y: nat)
    requires ScanOK(s, sc) && Distinct(sc.order) && Causal(s, sc.order) && RowsCover(s, sc, i) && i < j < |sc.order|
    requires Unrelated(s, sc.order[i], sc.order[j]) && MayPass(s, sc.order[i], sc.order[j])
    requires i <= x < |sc.order| && i <= y < |sc.order| && x != y && ScanOK(s, SwapAt(sc, i, j))
    requires Below(s, SwapAt(sc, i, j).order[x], SwapAt(sc, i, j).order[y])
    ensures RowBit(SwapAt(sc, i, j), y, x)
  {
    hide Below, MayPass;
    var l, r := sc.order[i], sc.order[j];
    var x', y' := Moved(i, j, x), Moved(i, j, y);
    assert Below(s, sc.order[x'], sc.order[y']);
    if y' == j { PassAt(s, l, r, sc.order[x']); }
    assert y' != i && y' != j;
    assert RowBit(sc, y', x');
  }

  /** Where an exchange of the positions `i` and `j` takes the entry at `x` from. */
  function Moved(i: nat, j: nat, x: nat): nat {
    if x == i then j else if x == j then i else x
  }

  lemma PassAt(s: Graph, l: Hash, r: Hash, w: Hash)
    requires MayPass(s, l, r) && w in s
    ensures (Below(s, w, r) ==> Below(s, w, l)) && (Below(s, l, w) ==> Below(s, r, w))
  {}

  lemma {:induction false} InnerFair(pol: Policy, s: Graph, sc: Scan, i: nat, j: nat, fuel: nat)
    requires FairSwaps(pol, s) && Fair(pol, s, sc, i) && i < j && i < |sc.order| && !sc.dropped[i]
    ensures var r := Inner(pol, s, sc, i, j, fuel); r.Some? ==> Fair(pol, s, r.value, i) && Later(sc, r.value, i)
    decreases fuel, |sc.order| - j
  {
    hide Causal, RowsCover, MarksRefused, Below, FairSwaps, Refused, Verdict;
    if j < |sc.order| {
      var l, r := sc.order[i], sc.order[j];
      if Verdict(pol, s, sc, i, j) != Nop { VerdictUnrelated(pol, s, sc, i, j); }
      match Verdict(pol, s, sc, i, j) {
        case DropLeft =>
          RefusedBy(pol, s, l, r);
          DropFair(pol, s, sc, i, i);
        case DropRight =>
          RefusedBy(pol, s, r, l);
          DropFair(pol, s, sc, i, j);
          InnerFair(pol, s, DropAt(sc, j), i, j + 1, fuel);
        case Swap =>
          PassesAt(pol, s, l, r);
          SwapFair(pol, s, sc, i, j);
          if fuel > 0 { InnerFair(pol, s, SwapAt(sc, i, j), i, i + 2, fuel - 1); }
        case Nop => InnerFair(pol, s, sc, i, j + 1, fuel);
        case Drop => InnerFair(pol, s, sc, i, j + 1, fuel);
      }
    }
  }

  lemma RefusedBy(pol: Policy, s: Graph, h: Hash, w: Hash)
    requires h in s && w in s && Unrelated(s, h, w)
    requires Resolve(pol, s[h], s[w]) == DropLeft || Resolve(pol, s[w], s[h]) == DropRight
    ensures Refused(pol, s, h)
  {
    hide Below;
  }

  lemma PassesAt(pol: Policy, s: Graph, l: Hash, r: Hash)
    requires FairSwaps(pol, s) && l in s && r in s && Unrelated(s, l, r) && Resolve(pol, s[l], s[r]) == Swap
    ensures MayPass(s, l, r)
  {}

  /** What stands undropped between two positions. */
  function Survivors(sc: Scan, i: nat, hi: nat, origin: Hash): seq<Hash>
    requires i <= hi <= |sc.order| == |sc.dropped|
    decreases hi - i
  {
    if i == hi then []
    else (if sc.order[i] == origin || sc.dropped[i] then [] else [sc.order[i]]) + Survivors(sc, i + 1, hi, origin)
  }

  /** The output is what stands undropped at the end. */
  lemma {:induction false} OuterFair(pol: Policy, s: Graph, origin: Hash, sc: Scan, i: nat)
    requires FairSwaps(pol, s) && Fair(pol, s, sc, i) && 1 <= i <= |sc.order| && sc.order[0] == origin
    ensures var r := Outer(pol, s, origin, sc, i, |sc.order|);
            r.Some? ==> && Fair(pol, s, r.value.scan, |sc.order|) && Later(sc, r.value.scan, i)
                        && r.value.out == Survivors(r.value.scan, i, |sc.order|, origin)
    decreases |sc.order| - i
  {
    hide Causal, RowsCover, MarksRefused, FairSwaps, Inner;
    if i < |sc.order| {
      assert sc.order[i] != origin;
      if sc.dropped[i] {
        FairNext(pol, s, sc, i);
        OuterFair(pol, s, origin, sc, i + 1);
      } else {
        InnerFair(pol, s, sc, i, i + 1, pol.swaps);
        var r := Inner(pol, s, sc, i, i + 1, pol.swaps);
        if r.Some? {
          assert r.value.order[0] == origin && r.value.order[i] != origin;
          FairNext(pol, s, r.value, i);
          OuterFair(pol, s, origin, r.value, i + 1);
        }
      }
    }
  }

  // ---------------------------------------------------------------- the replay order

  lemma StartFair(pol: Policy, s: Graph, order: seq<Hash>)
    requires Sorted(s, order)
    ensures Fair(pol, s, Start(s, order), 0)
  {
    hide Acyclic, Refused;
    StartFresh(s, order);
    var sc := Start(s, order);
    SortedCausal(s, order);
  }

  /** A topological order of all members puts every ancestor first, not only direct dependencies. */
  lemma SortedCausal(s: Graph, order: seq<Hash>)
    requires Sorted(s, order)
    ensures Causal(s, order)
  {
    forall i, j | 0 <= i < j < |order| ensures !Below(s, order[j], order[i]) { AncestorFirst(s, order, i, j); }
  }

  lemma {:induction false} AncestorFirst(s: Graph, order: seq<Hash>, i: nat, j: nat)
    requires Sorted(s, order) && i < j < |order|
    ensures !Below(s, order[j], order[i])
    decreases i
  {
    if Below(s, order[j], order[i]) {
      BelowLast(s, order[j], order[i]);
      var d :| d in Deps(s, order[i]) && AtMost(s, order[j], d);
      if d == order[j] {
      } else {
        BelowLast(s, order[j], d);
        assert d in s;
        var k :| 0 <= k < |order| && order[k] == d;
        assert k != i by { BelowLast(s, d, d); }
        assert k < i;
        AncestorFirst(s, order, k, j);
      }
    }
  }

  /** `h` is in the output exactly when it stands undropped somewhere. */
  lemma {:induction false} SurvivorsMembers(sc: Scan, i: nat, hi: nat, origin: Hash, h: Hash)
    requires i <= hi <= |sc.order| == |sc.dropped|
    ensures h in Survivors(sc, i, hi, origin)
            <==> h != origin && exists x :: i <= x < hi && sc.order[x] == h && !sc.dropped[x]
    decreases hi - i
  {
    if i < hi { SurvivorsMembers(sc, i + 1, hi, origin, h); }
  }

  lemma {:induction false} SurvivorsCausal(s: Graph, sc: Scan, i: nat, hi: nat, origin: Hash)
    requires i <= hi <= |sc.order| == |sc.dropped| && Causal(s, sc.order) && Distinct(sc.order)
    ensures Causal(s, Survivors(sc, i, hi, origin)) && Distinct(Survivors(sc, i, hi, origin))
    decreases hi - i
  {
    hide Below;
    if i < hi {
      SurvivorsCausal(s, sc, i + 1, hi, origin);
      var rest := Survivors(sc, i + 1, hi, origin);
      forall y | 0 <= y < |rest| ensures !Below(s, rest[y], sc.order[i]) && rest[y] != sc.order[i] {
        SurvivorsMembers(sc, i + 1, hi, origin, rest[y]);
      }
    }
  }

  /**
   With fair swaps the replay order is causal, names no vertex twice, and misses only the origin and
   vertices that a resolver drops against an unrelated one.
   */
  lemma ReplayOrderCausal(pol: Policy, s: Graph, order: seq<Hash>, origin: Hash)
    requires FairSwaps(pol, s) && Sorted(s, order) && order != [] && order[0] == origin
    ensures (forall h :: h in order ==> h in s)
    ensures var r := PairLinearize(pol, s, order, origin);
            r.Some? ==> && Causal(s, r.value) && Distinct(r.value)
                        && (forall h :: h in r.value ==> h in s && h != origin)
                        && (forall h :: h in s && h != origin && h !in r.value ==> Refused(pol, s, h))
  {
    ScanDecides(pol, s, order, origin);
    hide PairLinearize, Causal, Refused, FairSwaps, Start, Outer, Survivors;
    var sc := Start(s, order);
    StartFair(pol, s, order);
    FairNext(pol, s, sc, 0);
    StartSize(s, order);
    SkipOrigin(pol, s, origin, sc, |order|);
    OuterFair(pol, s, origin, sc, 1);
    var r := Outer(pol, s, origin, sc, 1, |order|);
    if r.Some? { SurvivorsAll(pol, s, order, origin, r.value.scan); }
  }

  lemma SurvivorsAll(pol: Policy, s: Graph, order: seq<Hash>, origin: Hash, sc: Scan)
    requires Fair(pol, s, sc, |order|) && order != [] && order[0] == origin && |sc.order| == |order|
    requires sc.order[0] == origin && (forall h :: h in sc.order <==> h in order)
             && (forall h :: h in order <==> h in s)
    ensures var out := Survivors(sc, 1, |order|, origin);
            && Causal(s, out) && Distinct(out) && (forall h :: h in out ==> h in s && h != origin)
            && (forall h :: h in s && h != origin && h !in out ==> Refused(pol, s, h))
  {
    hide Causal, Refused, RowsCover;
    SurvivorsCausal(s, sc, 1, |order|, origin);
    var out := Survivors(sc, 1, |order|, origin);
    forall h ensures h in out ==> h in s && h != origin { SurvivorsMembers(sc, 1, |order|, origin, h); }
    forall h | h in s && h != origin && h !in out ensures Refused(pol, s, h) {
      SurvivorsMembers(sc, 1, |order|, origin, h);
      var x :| 0 <= x < |sc.order| && sc.order[x] == h;
      assert x != 0 && sc.dropped[x];
    }
  }

  /** The same of the linearization of a reduced sub-graph. */
  lemma LinearizeCausal(pol: Policy, s: Graph, origin: Hash)
    requires FairSwaps(pol, s) && Acyclic(s) && Reduced(s) && RootedAt(s, origin)
    ensures var r := Linearize(pol, s, origin);
            r.Some? ==> && Causal(s, r.value) && Distinct(r.value)
                        && (forall h :: h in r.value ==> h in s && h != origin)
                        && (forall h :: h in s && h != origin && h !in r.value ==> Refused(pol, s, h))
  {
    hide Acyclic, Reduced, Causal, Refused, FairSwaps, Sort, DfsOrder, PairLinearize;
    SortIsTopological(s, origin);
    ReplayOrderCausal(pol, s, DfsOrder(s, origin), origin);
  }

  // ---------------------------------------------------------------- without swaps

  /** No resolver of the graph asks for a swap. */
  ghost predicate Swapless(pol: Policy, s: Graph) {
    forall h :: h in s ==> NoSwap(pol, s, h)
  }

  lemma SwaplessFair(pol: Policy, s: Graph)
    requires Swapless(pol, s)
    ensures FairSwaps(pol, s)
  {
    hide Below;
    forall l, r | l in s && r in s ensures Resolve(pol, s[l], s[r]) != Swap { assert NoSwap(pol, s, l); }
  }

  lemma {:induction false} InnerInPlace(pol: Policy, s: Graph, sc: Scan, i: nat, j: nat, fuel: nat)
    requires Swapless(pol, s) && ScanOK(s, sc) && i < j && i < |sc.order|
    ensures var r := Inner(pol, s, sc, i, j, fuel); r.Some? && r.value.order == sc.order
    decreases |sc.order| - j
  {
    if j < |sc.order| {
      assert NoSwap(pol, s, sc.order[i]);
      match Verdict(pol, s, sc, i, j) {
        case DropLeft =>
        case DropRight => InnerInPlace(pol, s, DropAt(sc, j), i, j + 1, fuel);
        case Swap =>
        case Nop => InnerInPlace(pol, s, sc, i, j + 1, fuel);
        case Drop => InnerInPlace(pol, s, sc, i, j + 1, fuel);
      }
    }
  }

  lemma {:induction false} OuterInPlace(pol: Policy, s: Graph, origin: Hash, sc: Scan, i: nat)
    requires Swapless(pol, s) && ScanOK(s, sc) && i <= |sc.order|
    ensures var r := Outer(pol, s, origin, sc, i, |sc.order|); r.Some? && r.value.scan.order == sc.order
    decreases |sc.order| - i
  {
    hide Swapless, Inner;
    if i < |sc.order| {
      if sc.order[i] == origin || sc.dropped[i] {
        OuterInPlace(pol, s, origin, sc, i + 1);
      } else {
        InnerInPlace(pol, s, sc, i, i + 1, pol.swaps);
        OuterInPlace(pol, s, origin, Inner(pol, s, sc, i, i + 1, pol.swaps).value, i + 1);
      }
    }
  }

  /** The order without the origin and the entries that are marked. */
  function Unmarked(order: seq<Hash>, marks: seq<bool>, i: nat, origin: Hash): seq<Hash>
    requires i <= |order| == |marks|
    decreases |order| - i
  {
    if i == |order| then []
    else (if order[i] == origin || marks[i] then [] else [order[i]]) + Unmarked(order, marks, i + 1, origin)
  }

  lemma {:induction false} SurvivorsUnmarked(sc: Scan, i: nat, origin: Hash)
    requires i <= |sc.order| == |sc.dropped|
    ensures Survivors(sc, i, |sc.order|, origin) == Unmarked(sc.order, sc.dropped, i, origin)
    decreases |sc.order| - i
  {
    if i < |sc.order| { SurvivorsUnmarked(sc, i + 1, origin); }
  }

  /**
   Without swaps the replay order is the topological order with some vertices left out, each of them
   because a resolver drops it against an unrelated one.
   */
  lemma ReplayOrderKept(pol: Policy, s: Graph, order: seq<Hash>, origin: Hash) returns (marks: seq<bool>)
    requires Swapless(pol, s) && Sorted(s, order) && order != [] && order[0] == origin
    ensures |marks| == |order| && (forall h :: h in order ==> h in s)
    ensures PairLinearize(pol, s, order, origin) == Some(Unmarked(order, marks, 1, origin))
    ensures forall x :: 0 <= x < |order| && marks[x] ==> Refused(pol, s, order[x])
  {
    SwaplessFair(pol, s);
    ScanDecides(pol, s, order, origin);
    hide PairLinearize, Causal, Refused, FairSwaps, Swapless, Start, Outer, Survivors, Unmarked;
    var sc := Start(s, order);
    StartFair(pol, s, order);
    FairNext(pol, s, sc, 0);
    StartSize(s, order);
    SkipOrigin(pol, s, origin, sc, |order|);
    OuterFair(pol, s, origin, sc, 1);
    OuterInPlace(pol, s, origin, sc, 1);
    var r := Outer(pol, s, origin, sc, 1, |order|).value.scan;
    SurvivorsUnmarked(r, 1, origin);
    marks := r.dropped;
    assert MarksRefused(pol, s, r);
  }
}
