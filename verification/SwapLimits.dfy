/**
 Where swaps break the guarantees of linearization.

 A resolver that drops the vertex it has just swapped to the front breaks the split at every causal
 barrier above three concurrent vertices; a swap with the dependent of a third vertex replays that
 dependent before its dependency.  Both hold of every policy that answers so.
 */
module SwapLimits {
  import opened HashGraphs
  import opened Children
  import opened TopologicalSort
  import opened CausalBarrier
  import opened PairLinearizer
  import opened BarrierLinearizer
  import opened Linearization
  import opened LinearOrder
  import opened Overtaking
  import opened Replay
  import opened Resolvers
  import opened Limits

  // ---------------------------------------------------------------- the two shapes

  ghost predicate Apart3(x: Hash, y: Hash, z: Hash) {
    ROOT_HASH != x && ROOT_HASH != y && ROOT_HASH != z && x != y && x != z && y != z
  }

  /** Three vertices beside each other on the root. */
  ghost predicate Level(s: Graph, x: Hash, y: Hash, z: Hash) {
    && s.Keys == {ROOT_HASH, x, y, z} && Apart3(x, y, z) && x < y < z
    && Deps(s, ROOT_HASH) == [] && Deps(s, x) == [ROOT_HASH] && Deps(s, y) == [ROOT_HASH] && Deps(s, z) == [ROOT_HASH]
  }

  /** Two vertices on the root, and one on the second of them. */
  ghost predicate Chain(s: Graph, x: Hash, y: Hash, z: Hash) {
    && s.Keys == {ROOT_HASH, x, y, z} && Apart3(x, y, z) && x < y
    && Deps(s, ROOT_HASH) == [] && Deps(s, x) == [ROOT_HASH] && Deps(s, y) == [ROOT_HASH] && Deps(s, z) == [y]
  }

  function Line(x: Hash, y: Hash, z: Hash): seq<Hash> { [ROOT_HASH, x, y, z] }

  lemma LineSorted(s: Graph, x: Hash, y: Hash, z: Hash)
    requires Acyclic(s) && (Level(s, x, y, z) || Chain(s, x, y, z))
    ensures Sorted(s, Line(x, y, z))
  {
    hide Acyclic;
  }

  lemma LevelKids(s: Graph, x: Hash, y: Hash, z: Hash)
    requires Level(s, x, y, z)
    ensures Kids(s, ROOT_HASH) == [x, y, z] && Kids(s, x) == [] && Kids(s, y) == [] && Kids(s, z) == []
  {
    hide Kids;
    forall h, n ensures Links(s, h, n) == if n == ROOT_HASH && (h == x || h == y || h == z) then 1 else 0 {
      assert Deps(s, h) == if h == x || h == y || h == z then [ROOT_HASH] else [];
    }
    hide Links;
    KidsUnique(s, ROOT_HASH, [x, y, z]);
    KidsUnique(s, x, []);
    KidsUnique(s, y, []);
    KidsUnique(s, z, []);
  }

  lemma ChainKids(s: Graph, x: Hash, y: Hash, z: Hash)
    requires Chain(s, x, y, z)
    ensures Kids(s, ROOT_HASH) == [x, y] && Kids(s, x) == [] && Kids(s, y) == [z] && Kids(s, z) == []
  {
    hide Kids;
    forall h, n
      ensures Links(s, h, n) == if (n == ROOT_HASH && (h == x || h == y)) || (n == y && h == z) then 1 else 0
    {
      assert Deps(s, h) == if h == x || h == y then [ROOT_HASH] else if h == z then [y] else [];
    }
    hide Links;
    KidsUnique(s, ROOT_HASH, [x, y]);
    KidsUnique(s, x, []);
    KidsUnique(s, y, [z]);
    KidsUnique(s, z, []);
  }

  /** A run that has only childless vertices left on its stack. */
  lemma LastOne(T: set<Hash>, f: Edges, vis: set<Hash>, x: Hash)
    requires Into(T, f) && Within(T, [ROOT_HASH, x]) && ROOT_HASH in vis && x !in vis && f(x) == []
    ensures Dfs(T, f, vis, [ROOT_HASH, x]).order == [ROOT_HASH, x]
  {
    hide *;
    Close(T, f, vis, [ROOT_HASH], x, [ROOT_HASH, x]);
    Pop(T, f, vis + {x}, [], ROOT_HASH, [ROOT_HASH]);
    DfsEmpty(T, f, vis + {x});
  }

  lemma LevelRun(T: set<Hash>, f: Edges, x: Hash, y: Hash, z: Hash)
    requires Into(T, f) && Within(T, Line(x, y, z)) && Within(T, []) && Within(T, [ROOT_HASH]) && Apart3(x, y, z)
    requires f(ROOT_HASH) == [x, y, z] && f(x) == [] && f(y) == [] && f(z) == []
    ensures Dfs(T, f, {}, [ROOT_HASH]).order == Line(x, y, z)
  {
    var R := ROOT_HASH;
    assert R in Line(x, y, z);
    hide Dfs, Into;
    assert [] + [R] == [R] && [] + [R] + [x, y, z] == Line(x, y, z) == [R, x, y] + [z] && {} + {R} == {R};
    Expand(T, f, {}, [], R, [x, y, z]);
    Close(T, f, {R}, [R, x, y], z, Line(x, y, z));
    Close(T, f, {R} + {z}, [R, x], y, [R, x, y]);
    LastOne(T, f, {R} + {z} + {y}, x);
  }

  lemma ChainRun(T: set<Hash>, f: Edges, x: Hash, y: Hash, z: Hash)
    requires Into(T, f) && Within(T, Line(x, y, z)) && Within(T, []) && Within(T, [ROOT_HASH]) && Apart3(x, y, z)
    requires f(ROOT_HASH) == [x, y] && f(x) == [] && f(y) == [z] && f(z) == []
    ensures Dfs(T, f, {}, [ROOT_HASH]).order == Line(x, y, z)
  {
    ChainHead(T, f, x, y, z);
    var R, vis := ROOT_HASH, {ROOT_HASH, y};
    hide Dfs, Into, Within;
    Close(T, f, vis, [R, x, y], z, Line(x, y, z));
    Pop(T, f, vis + {z}, [R, x], y, [R, x, y]);
    LastOne(T, f, vis + {z}, x);
  }

  lemma ChainHead(T: set<Hash>, f: Edges, x: Hash, y: Hash, z: Hash)
    requires Into(T, f) && Within(T, Line(x, y, z)) && Within(T, []) && Within(T, [ROOT_HASH]) && Apart3(x, y, z)
    requires f(ROOT_HASH) == [x, y] && f(y) == [z]
    ensures Dfs(T, f, {}, [ROOT_HASH]) == Dfs(T, f, {ROOT_HASH, y}, Line(x, y, z))
  {
    var R := ROOT_HASH;
    assert R in Line(x, y, z) && y in Line(x, y, z) && x in Line(x, y, z) && Within(T, [R, x]);
    hide Dfs, Into, Within;
    assert [] + [R] == [R] && [] + [R] + [x, y] == [R, x] + [y] && [R, x] + [y] + [z] == Line(x, y, z);
    assert {} + {R} == {R} && {R} + {y} == {R, y};
    Expand(T, f, {}, [], R, [x, y]);
    Expand(T, f, {R}, [R, x], y, [z]);
  }

  lemma LineWithin(s: Graph, x: Hash, y: Hash, z: Hash)
    requires Level(s, x, y, z) || Chain(s, x, y, z)
    ensures Within(s.Keys, Line(x, y, z)) && Within(s.Keys, []) && Within(s.Keys, [ROOT_HASH])
    ensures ROOT_HASH in s && |s| == 4 == |Line(x, y, z)| && Apart3(x, y, z)
  {
    assert |{ROOT_HASH, x, y, z}| == 4;
    assert |s| == |s.Keys|;
  }

  lemma FullOrder(s: Graph, origin: Hash, order: seq<Hash>)
    requires origin in s && Sort(s, origin).order == order && |order| == |s| && origin in order
    ensures |Sort(s, origin).order| >= |s| && DfsOrder(s, origin) == order
  {
    hide Sort;
    assert order[0..] == order;
  }

  /** Both shapes are sorted in the order of their names. */
  lemma LineOrder(s: Graph, x: Hash, y: Hash, z: Hash)
    requires GraphOK(s) && (Level(s, x, y, z) || Chain(s, x, y, z))
    ensures RootedAt(s, ROOT_HASH) && |Sort(s, ROOT_HASH).order| >= |s| && DfsOrder(s, ROOT_HASH) == Line(x, y, z)
  {
    LineWithin(s, x, y, z);
    assert ROOT_HASH in Line(x, y, z);
    hide *;
    RootRooted(s);
    SortRuns(s, ROOT_HASH);
    if Level(s, x, y, z) {
      LevelKids(s, x, y, z);
      LevelRun(s.Keys, EdgesOf(s), x, y, z);
    } else {
      ChainKids(s, x, y, z);
      ChainRun(s.Keys, EdgesOf(s), x, y, z);
    }
    FullOrder(s, ROOT_HASH, Line(x, y, z));
  }

  // ---------------------------------------------------------------- the scan of three vertices

  /** The three stand behind the root, undropped; everything later is related to each of them. */
  ghost predicate Row(s: Graph, sc: Scan, x: Hash, y: Hash, z: Hash) {
    && ScanOK(s, sc) && |sc.order| >= 4 && Apart3(x, y, z)
    && sc.order[0] == ROOT_HASH && sc.order[1] == x && sc.order[2] == y && sc.order[3] == z
    && !sc.dropped[1] && !sc.dropped[2] && !sc.dropped[3]
    && (forall k :: 4 <= k < |sc.order| ==> Crowns(sc, sc.order[k], x, y, z))
  }

  ghost predicate Crowns(sc: Scan, w: Hash, x: Hash, y: Hash, z: Hash) {
    w != x && w != y && w != z && w in sc.rows && x in sc.rows[w] && y in sc.rows[w] && z in sc.rows[w]
  }

  /** The scan after the first and the third changed places. */
  lemma Turned(s: Graph, sc: Scan, x: Hash, y: Hash, z: Hash) returns (t: Scan)
    requires Row(s, sc, x, y, z)
    ensures t == SwapAt(sc, 1, 3) && Row(s, t, z, y, x)
    ensures x in sc.rows && y in sc.rows && z in sc.rows
    ensures t.rows[y] == sc.rows[y] && t.rows[x] == sc.rows[z] && t.rows[z] == sc.rows[x]
  {
    t := SwapAt(sc, 1, 3);
    SwapOK(s, sc, 1, 3);
    forall k | 4 <= k < |t.order| ensures Crowns(t, t.order[k], z, y, x) {
      assert Crowns(sc, sc.order[k], x, y, z);
    }
  }

  /** Behind the third position nothing is compared. */
  lemma CrownIdle(pol: Policy, s: Graph, sc: Scan, x: Hash, y: Hash, z: Hash, i: nat, fuel: nat)
    requires Row(s, sc, x, y, z) && 1 <= i <= 3
    ensures Inner(pol, s, sc, i, 4, fuel) == Some(sc)
  {
    forall k | 4 <= k < |sc.order| ensures Verdict(pol, s, sc, i, k) == Nop {
      assert Crowns(sc, sc.order[k], x, y, z);
    }
    QuietInner(pol, s, sc, i, 4, fuel);
  }

  /** A comparison that leaves both in place. */
  ghost predicate Rests(pol: Policy, s: Graph, sc: Scan, a: Hash, b: Hash)
    requires ScanOK(s, sc) && a in sc.order && b in sc.order
  {
    Related(sc.rows, a, b) || Idle(Resolve(pol, s[a], s[b]))
  }

  lemma RestsInner(pol: Policy, s: Graph, sc: Scan, i: nat, j: nat, fuel: nat)
    requires ScanOK(s, sc) && i < j < |sc.order| && Rests(pol, s, sc, sc.order[i], sc.order[j])
    ensures Inner(pol, s, sc, i, j, fuel) == Inner(pol, s, sc, i, j + 1, fuel)
  {}

  /** Second and third anchor are kept when the comparison between them rests. */
  lemma LastAnchors(pol: Policy, s: Graph, sc: Scan, x: Hash, y: Hash, z: Hash)
    requires Row(s, sc, x, y, z) && Rests(pol, s, sc, y, z)
    ensures Outer(pol, s, ROOT_HASH, sc, 2, 4) == Some(Linear(sc, [y, z]))
  {
    hide Inner, Rests;
    RestsInner(pol, s, sc, 2, 3, pol.swaps);
    CrownIdle(pol, s, sc, x, y, z, 2, pol.swaps);
    CrownIdle(pol, s, sc, x, y, z, 3, pol.swaps);
    assert Outer(pol, s, ROOT_HASH, sc, 4, 4) == Some(Linear(sc, []));
    assert [z] + [] == [z] && [y] + [z] == [y, z];
    assert Outer(pol, s, ROOT_HASH, sc, 3, 4) == Some(Linear(sc, [z]));
  }

  /** The first anchor passes the second and changes places with the third. */
  lemma FirstTurns(pol: Policy, s: Graph, sc: Scan, x: Hash, y: Hash, z: Hash)
    requires Row(s, sc, x, y, z) && pol.swaps >= 1 && Idle(Resolve(pol, s[x], s[y]))
    requires !Related(sc.rows, x, z) && Resolve(pol, s[x], s[z]) == Swap
    ensures ScanOK(s, SwapAt(sc, 1, 3))
    ensures Inner(pol, s, sc, 1, 2, pol.swaps) == Inner(pol, s, SwapAt(sc, 1, 3), 1, 3, pol.swaps - 1)
  {
    SwapOK(s, sc, 1, 3);
    RestsInner(pol, s, sc, 1, 2, pol.swaps);
    assert Verdict(pol, s, sc, 1, 3) == Swap;
  }

  /** The third is moved to the front and stays. */
  lemma TurnKeeps(pol: Policy, s: Graph, sc: Scan, x: Hash, y: Hash, z: Hash)
    requires Row(s, sc, x, y, z) && pol.swaps >= 1 && Idle(Resolve(pol, s[x], s[y]))
    requires !Related(sc.rows, x, z) && Resolve(pol, s[x], s[z]) == Swap
    requires x in sc.rows[x] || z in sc.rows[z] || Idle(Resolve(pol, s[z], s[x]))
    requires y in sc.rows[z] || Idle(Resolve(pol, s[y], s[x]))
    ensures var r := Outer(pol, s, ROOT_HASH, sc, 0, 4); r.Some? && r.value.out == [z, y, x]
  {
    hide Inner, Row;
    var t := Turned(s, sc, x, y, z);
    RowFacts(s, sc, x, y, z);
    RowFacts(s, t, z, y, x);
    FirstTurns(pol, s, sc, x, y, z);
    RestsInner(pol, s, t, 1, 3, pol.swaps - 1);
    CrownIdle(pol, s, t, z, y, x, 1, pol.swaps - 1);
    LastAnchors(pol, s, t, z, y, x);
    SkipOrigin(pol, s, ROOT_HASH, sc, 4);
    assert [z] + [y, x] == [z, y, x];
  }

  /** The third is moved to the front and dropped there. */
  lemma TurnDrops(pol: Policy, s: Graph, sc: Scan, x: Hash, y: Hash, z: Hash)
    requires Row(s, sc, x, y, z) && pol.swaps >= 1 && Idle(Resolve(pol, s[x], s[y]))
    requires !Related(sc.rows, x, z) && Resolve(pol, s[x], s[z]) == Swap
    requires x !in sc.rows[x] && z !in sc.rows[z] && Resolve(pol, s[z], s[x]) == DropLeft
    requires Idle(Resolve(pol, s[y], s[x]))
    ensures var r := Outer(pol, s, ROOT_HASH, sc, 0, 4); r.Some? && r.value.out == [y, x]
  {
    var t := Turned(s, sc, x, y, z);
    RowFacts(s, t, z, y, x);
    assert Verdict(pol, s, t, 1, 3) == DropLeft;
    FirstTurns(pol, s, sc, x, y, z);
    var d := DropAt(t, 1);
    assert Inner(pol, s, t, 1, 3, pol.swaps - 1) == Some(d);
    hide Inner;
    DroppedAnchors(pol, s, t, d, z, y, x);
    SkipOrigin(pol, s, ROOT_HASH, sc, 4);
    assert [] + [y, x] == [y, x];
  }

  lemma DroppedAnchors(pol: Policy, s: Graph, sc: Scan, d: Scan, x: Hash, y: Hash, z: Hash)
    requires Row(s, sc, x, y, z) && d == DropAt(sc, 1) && Idle(Resolve(pol, s[y], s[z]))
    ensures ScanOK(s, d) && Outer(pol, s, ROOT_HASH, d, 2, 4) == Some(Linear(d, [y, z]))
  {
    RestsInner(pol, s, d, 2, 3, pol.swaps);
    forall i, k | 1 <= i <= 3 && 4 <= k < |sc.order| ensures Verdict(pol, s, d, i, k) == Nop {
      assert Crowns(sc, sc.order[k], x, y, z);
    }
    QuietInner(pol, s, d, 2, 4, pol.swaps);
    QuietInner(pol, s, d, 3, 4, pol.swaps);
    hide Inner;
    assert Outer(pol, s, ROOT_HASH, d, 4, 4) == Some(Linear(d, []));
    assert [z] + [] == [z] && [y] + [z] == [y, z];
    assert Outer(pol, s, ROOT_HASH, d, 3, 4) == Some(Linear(d, [z]));
  }

  lemma RowFacts(s: Graph, sc: Scan, x: Hash, y: Hash, z: Hash)
    requires Row(s, sc, x, y, z)
    ensures ScanOK(s, sc) && |sc.order| >= 4 && x in s && y in s && z in s
    ensures sc.order[0] == ROOT_HASH && sc.order[1] == x && sc.order[2] == y && sc.order[3] == z
    ensures x in sc.rows && y in sc.rows && z in sc.rows && x != ROOT_HASH && y != ROOT_HASH && z != ROOT_HASH
    ensures !sc.dropped[1] && !sc.dropped[2] && !sc.dropped[3]
  {
    assert sc.order[1] in sc.order && sc.order[2] in sc.order && sc.order[3] in sc.order;
  }

  // ---------------------------------------------------------------- the fresh scan

  /** Nothing but the root is below a vertex on the root. */
  lemma NotBelowRooted(s: Graph, p: Hash, q: Hash)
    requires Deps(s, ROOT_HASH) == [] && Deps(s, q) == [ROOT_HASH] && p != ROOT_HASH
    ensures !Below(s, p, q)
  {
    BelowLast(s, p, q);
    BelowLast(s, p, ROOT_HASH);
  }

  lemma StartRow(s: Graph, order: seq<Hash>, x: Hash, y: Hash, z: Hash)
    requires Sorted(s, order) && |order| >= 4 && order[..4] == Line(x, y, z) && Apart3(x, y, z)
    requires forall w :: w in s && w !in Line(x, y, z) ==> Below(s, x, w) && Below(s, y, w) && Below(s, z, w)
    ensures Row(s, Start(s, order), x, y, z)
  {
    StartFresh(s, order);
    StartSize(s, order);
    hide Start, Below, Acyclic, Topological;
    var sc := Start(s, order);
    assert order[0] == order[..4][0] && order[1] == order[..4][1] && order[2] == order[..4][2]
        && order[3] == order[..4][3];
    forall k | 4 <= k < |order| ensures Crowns(sc, order[k], x, y, z) {
      assert order[k] in s && order[k] !in Line(x, y, z);
      assert RowBit(sc, k, 1) && RowBit(sc, k, 2) && RowBit(sc, k, 3);
    }
  }

  /** Which of the comparisons a fresh scan of the three makes. */
  lemma StartRelated(s: Graph, order: seq<Hash>, i: nat, j: nat)
    requires Sorted(s, order) && i < |order| && j < |order| && i != j
    ensures order[i] in Start(s, order).rows && order[j] in Start(s, order).rows
    ensures order[j] in Start(s, order).rows[order[i]] <==> Below(s, order[j], order[i])
  {
    StartFresh(s, order);
    StartSize(s, order);
    hide Start, Below, Acyclic, Topological;
    assert RowBit(Start(s, order), i, j) <==> Below(s, order[j], order[i]);
  }

  lemma StartSelf(s: Graph, order: seq<Hash>, x: Hash)
    requires Sorted(s, order) && x in order
    ensures x in Start(s, order).rows && (x in Start(s, order).rows[x] <==> Named(s, order, |order|, x))
  {
    hide Acyclic, Topological, BuildRows, Named;
    SelfBit(s, order, |order|, x);
  }

  lemma LinearizeStarts(pol: Policy, s: Graph, order: seq<Hash>, out: seq<Hash>)
    requires RootedAt(s, ROOT_HASH) && |Sort(s, ROOT_HASH).order| >= |s| && DfsOrder(s, ROOT_HASH) == order
    requires Sorted(s, order) && |order| >= 4 && ScanOK(s, Start(s, order)) && Start(s, order).order == order
    requires var r := Outer(pol, s, ROOT_HASH, Start(s, order), 0, 4); r.Some? && r.value.out == out
    ensures var r := Linearize(pol, s, ROOT_HASH); r.Some? ==> out <= r.value
    ensures |order| == 4 ==> Linearize(pol, s, ROOT_HASH) == Some(out)
  {
    hide Outer, Start, Sort, DfsOrder, PairLinearize, RootedAt, Acyclic, Topological;
    ScanDecides(pol, s, order, ROOT_HASH);
    OuterSplit(pol, s, ROOT_HASH, Start(s, order), 0, 4, |order|);
  }

  // ---------------------------------------------------------------- dropped after the swap

  /** The first swaps with the third, and the third refuses itself in front of the first. */
  ghost predicate Restless(pol: Policy, x: Vertex, y: Vertex, z: Vertex) {
    && pol.swaps >= 1 && Resolve(pol, x, z) == Swap && Resolve(pol, z, x) == DropLeft
    && Idle(Resolve(pol, x, y)) && Idle(Resolve(pol, y, x))
  }

  /** Alone, the third vertex is swapped to the front and dropped. */
  lemma LevelDrops(pol: Policy, s: Graph, x: Hash, y: Hash, z: Hash)
    requires GraphOK(s) && Level(s, x, y, z) && Restless(pol, s[x], s[y], s[z])
    ensures RootedAt(s, ROOT_HASH) && Linearize(pol, s, ROOT_HASH) == Some([y, x])
  {
    hide *;
    var order := Line(x, y, z);
    GraphAcyclic(s);
    LineSorted(s, x, y, z);
    LineOrder(s, x, y, z);
    LevelParts(s, x, y, z);
    LevelBelow(s, x, y, z);
    StartRow(s, order, x, y, z);
    StartRelated(s, order, 1, 3);
    StartRelated(s, order, 3, 1);
    StartSelf(s, order, x);
    StartSelf(s, order, z);
    RestlessParts(pol, s[x], s[y], s[z]);
    NotRelated(Start(s, order).rows, x, z);
    TurnDrops(pol, s, Start(s, order), x, y, z);
    RowFacts(s, Start(s, order), x, y, z);
    StartSize(s, order);
    LinearizeStarts(pol, s, order, [y, x]);
  }

  lemma LevelParts(s: Graph, x: Hash, y: Hash, z: Hash)
    requires Level(s, x, y, z)
    ensures Apart3(x, y, z) && x in s && y in s && z in s && x in Line(x, y, z) && z in Line(x, y, z)
    ensures |Line(x, y, z)| == 4 && (forall w :: w in s ==> w in Line(x, y, z))
    ensures Line(x, y, z)[..4] == Line(x, y, z) && Line(x, y, z)[1] == x && Line(x, y, z)[3] == z
    ensures !Named(s, Line(x, y, z), 4, x) && !Named(s, Line(x, y, z), 4, z)
  {}

  lemma LevelBelow(s: Graph, x: Hash, y: Hash, z: Hash)
    requires Level(s, x, y, z)
    ensures !Below(s, x, z) && !Below(s, z, x)
  {
    NotBelowRooted(s, x, z);
    NotBelowRooted(s, z, x);
  }

  lemma GraphAcyclic(s: Graph)
    requires GraphOK(s)
    ensures Acyclic(s) && Closed(s)
  {}

  lemma RestlessParts(pol: Policy, x: Vertex, y: Vertex, z: Vertex)
    requires Restless(pol, x, y, z)
    ensures pol.swaps >= 1 && Resolve(pol, x, z) == Swap && Resolve(pol, z, x) == DropLeft
    ensures Idle(Resolve(pol, x, y)) && Idle(Resolve(pol, y, x))
  {}

  lemma NotRelated(rows: Rows, a: Hash, b: Hash)
    requires a in rows && b in rows && b !in rows[a] && a !in rows[b]
    ensures !Related(rows, a, b)
  {}

  /** Below the barrier stands the level; something stands above it. */
  ghost predicate Crowned(t: Graph, P: set<Hash>, x: Hash, y: Hash, z: Hash) {
    && GraphOK(t) && Reduced(t) && Barrier(t, P) && Level(Sub(t, P), x, y, z) && t.Keys != P
  }

  lemma CrownedParts(t: Graph, P: set<Hash>, x: Hash, y: Hash, z: Hash)
    requires Crowned(t, P, x, y, z)
    ensures GraphOK(t) && Reduced(t) && Barrier(t, P) && Level(Sub(t, P), x, y, z) && P == {ROOT_HASH, x, y, z}
    ensures x in t && y in t && z in t && Sub(t, P)[x] == t[x] && Sub(t, P)[y] == t[y] && Sub(t, P)[z] == t[z]
    ensures Closed(t) && DownClosed(t, P)
  {
    assert Sub(t, P).Keys == P;
  }

  /** A prefix vertex has its own bit set: something in the suffix depends on it or on its descendants. */
  lemma CrownedNamed(t: Graph, P: set<Hash>, x: Hash, y: Hash, z: Hash, order: seq<Hash>)
    requires Crowned(t, P, x, y, z) && Sorted(t, order)
    ensures Named(t, order, |order|, x)
  {
    CrownedParts(t, P, x, y, z);
    var w :| w in t && w !in P;
    assert Below(t, x, w);
    var c := BelowFirst(t, x, w);
    hide GraphOK, Reduced, Acyclic, Topological, Below, Barrier, Level;
    assert c in t && c in order;
    var k :| 0 <= k < |order| && order[k] == c;
  }

  lemma CrownedBelow(t: Graph, P: set<Hash>, x: Hash, y: Hash, z: Hash)
    requires Crowned(t, P, x, y, z)
    ensures !Below(t, x, z) && !Below(t, z, x)
    ensures forall w :: w in t && w !in Line(x, y, z) ==> Below(t, x, w) && Below(t, y, w) && Below(t, z, w)
  {
    CrownedParts(t, P, x, y, z);
    hide Reduced, Acyclic, Below, Sub;
    LevelBelow(Sub(t, P), x, y, z);
    BelowInClosed(t, P, x, z);
    BelowInClosed(t, P, z, x);
  }

  /** The order of the whole starts with the level. */
  lemma CrownedOrder(t: Graph, P: set<Hash>, x: Hash, y: Hash, z: Hash) returns (order: seq<Hash>)
    requires Crowned(t, P, x, y, z)
    ensures RootedAt(t, ROOT_HASH) && |Sort(t, ROOT_HASH).order| >= |t| && DfsOrder(t, ROOT_HASH) == order
    ensures Sorted(t, order) && |order| >= 4 && order[..4] == Line(x, y, z)
  {
    hide *;
    CrownedParts(t, P, x, y, z);
    LevelHead(t, P);
    var o := HeadAbove(t, P, ROOT_HASH);
    var front, back := BarrierHalves(t, P, o);
    HalvesSorted(t, P, o, front, back);
    BarrierPrefixOK(t, P);
    LineOrder(Sub(t, P), x, y, z);
    LevelParts(Sub(t, P), x, y, z);
    order := front + back;
    assert order[..4] == front;
  }

  lemma LevelHead(t: Graph, P: set<Hash>)
    requires GraphOK(t) && Barrier(t, P)
    ensures Acyclic(t) && ROOT_HASH in P && P <= t.Keys
  {}

  lemma HalvesSorted(t: Graph, P: set<Hash>, o: Hash, front: seq<Hash>, back: seq<Hash>)
    requires Halves(t, P, o, front, back)
    ensures Sorted(t, front + back)
  {
    hide GraphOK, Reduced, Barrier, Heads, Sorted;
  }

  /**
   With such answers no graph above the barrier is replayed as its prefix followed by anything: below
   the barrier the third vertex is dropped, with something above it it is replayed first.
   */
  lemma RestlessBarrier(pol: Policy, t: Graph, P: set<Hash>, x: Hash, y: Hash, z: Hash)
    requires Crowned(t, P, x, y, z) && Restless(pol, t[x], t[y], t[z])
    ensures RootedAt(Sub(t, P), ROOT_HASH) && Linearize(pol, Sub(t, P), ROOT_HASH) == Some([y, x])
    ensures RootedAt(t, ROOT_HASH)
    ensures var r := Linearize(pol, t, ROOT_HASH); r.Some? ==> [z, y, x] <= r.value && !([y, x] <= r.value)
    ensures !CalmSwap(pol, t)
  {
    hide *;
    CrownedParts(t, P, x, y, z);
    BarrierPrefixOK(t, P);
    LevelDrops(pol, Sub(t, P), x, y, z);
    RestlessParts(pol, t[x], t[y], t[z]);
    CrownedKeeps(pol, t, P, x, y, z);
    LevelParts(Sub(t, P), x, y, z);
    NotCalm(pol, t, x, z);
    var r := Linearize(pol, t, ROOT_HASH);
    if r.Some? { FirstDiffers(r.value, x, y, z); }
  }

  lemma FirstDiffers(q: seq<Hash>, x: Hash, y: Hash, z: Hash)
    requires [z, y, x] <= q && Apart3(x, y, z)
    ensures !([y, x] <= q)
  {
    assert q[0] == z;
  }

  lemma NotCalm(pol: Policy, t: Graph, x: Hash, z: Hash)
    requires x in t && z in t && Resolve(pol, t[x], t[z]) == Swap && Resolve(pol, t[z], t[x]) == DropLeft
    ensures !CalmSwap(pol, t)
  {}

  lemma CrownedKeeps(pol: Policy, t: Graph, P: set<Hash>, x: Hash, y: Hash, z: Hash)
    requires Crowned(t, P, x, y, z) && Restless(pol, t[x], t[y], t[z])
    ensures RootedAt(t, ROOT_HASH)
    ensures var r := Linearize(pol, t, ROOT_HASH); r.Some? ==> [z, y, x] <= r.value
  {
    hide *;
    CrownedParts(t, P, x, y, z);
    LevelParts(Sub(t, P), x, y, z);
    var order := CrownedOrder(t, P, x, y, z);
    LineEntries(order, x, y, z);
    CrownedBelow(t, P, x, y, z);
    CrownedNamed(t, P, x, y, z, order);
    StartRow(t, order, x, y, z);
    StartRelated(t, order, 1, 3);
    StartRelated(t, order, 3, 1);
    StartSelf(t, order, x);
    RestlessParts(pol, t[x], t[y], t[z]);
    NotRelated(Start(t, order).rows, x, z);
    RowFacts(t, Start(t, order), x, y, z);
    TurnKeeps(pol, t, Start(t, order), x, y, z);
    StartSize(t, order);
    LinearizeStarts(pol, t, order, [z, y, x]);
  }

  lemma LineEntries(order: seq<Hash>, x: Hash, y: Hash, z: Hash)
    requires |order| >= 4 && order[..4] == Line(x, y, z)
    ensures order[1] == x && order[2] == y && order[3] == z && x in order
  {
    assert order[..4][1] == order[1] && order[..4][2] == order[2] && order[..4][3] == order[3];
  }

  /** One vertex that depends on all three makes such a graph. */
  lemma CrownOne(s: Graph, v: Vertex, x: Hash, y: Hash, z: Hash)
    requires GraphOK(s) && Level(s, x, y, z) && v.hash !in s && v.dependencies == [x, y, z]
    ensures Crowned(s[v.hash := v], s.Keys, x, y, z)
  {
    var t := s[v.hash := v];
    AddOK(s, v);
    forall h | h in s ensures Below(t, h, v.hash) {
      var d := if h == ROOT_HASH then x else h;
      assert AtMost(s, h, h) && d in v.dependencies;
      BelowLast(s, h, x);
      assert AtMost(s, h, d);
      BelowNew(s, v, h);
    }
    TopBarrier(s, v, t);
    CrownReduced(s, v, x, y, z);
  }

  lemma CrownReduced(s: Graph, v: Vertex, x: Hash, y: Hash, z: Hash)
    requires GraphOK(s) && Level(s, x, y, z) && v.hash !in s && v.dependencies == [x, y, z]
    ensures Reduced(s[v.hash := v])
  {
    var t := s[v.hash := v];
    hide Below, Acyclic;
    forall h | h in t ensures Distinct(t[h].dependencies) && Antichain(t, t[h].dependencies) {
      var D := t[h].dependencies;
      assert D == if h == v.hash then [x, y, z] else Deps(s, h);
      forall p, q | p in D && q in D ensures !Below(t, p, q) {
        BelowAdd(s, v, p, q);
        if h == v.hash {
          NotBelowRooted(s, p, q);
        } else {
          assert D == [ROOT_HASH];
          BelowLast(s, p, q);
        }
      }
    }
  }

  // ---------------------------------------------------------------- replayed before its dependency

  lemma ChainParts(s: Graph, x: Hash, y: Hash, z: Hash)
    requires Chain(s, x, y, z)
    ensures Apart3(x, y, z) && x in s && y in s && z in s && |Line(x, y, z)| == 4 && y in Deps(s, z)
    ensures Line(x, y, z)[..4] == Line(x, y, z) && forall w :: w in s ==> w in Line(x, y, z)
  {}

  lemma ChainBelow(s: Graph, x: Hash, y: Hash, z: Hash)
    requires Chain(s, x, y, z)
    ensures !Below(s, x, z) && !Below(s, z, x) && Below(s, y, z)
  {
    NotBelowRooted(s, z, x);
    NotBelowRooted(s, x, y);
    BelowLast(s, x, z);
    assert AtMost(s, y, y);
    BelowLast(s, y, z);
  }

  /** Every policy that swaps the first with the dependent of the second replays that dependent first. */
  lemma DependentFirst(pol: Policy, s: Graph, x: Hash, y: Hash, z: Hash)
    requires GraphOK(s) && Chain(s, x, y, z) && pol.swaps >= 1
    requires Idle(Resolve(pol, s[x], s[y])) && Resolve(pol, s[x], s[z]) == Swap && Idle(Resolve(pol, s[z], s[x]))
    ensures RootedAt(s, ROOT_HASH) && Linearize(pol, s, ROOT_HASH) == Some([z, y, x])
    ensures y in Deps(s, z) && !Causal(s, [z, y, x])
  {
    hide *;
    var order := Line(x, y, z);
    GraphAcyclic(s);
    LineSorted(s, x, y, z);
    LineOrder(s, x, y, z);
    ChainParts(s, x, y, z);
    ChainBelow(s, x, y, z);
    LineEntries(order, x, y, z);
    StartRow(s, order, x, y, z);
    StartRelated(s, order, 1, 3);
    StartRelated(s, order, 3, 1);
    StartRelated(s, order, 3, 2);
    NotRelated(Start(s, order).rows, x, z);
    RowFacts(s, Start(s, order), x, y, z);
    TurnKeeps(pol, s, Start(s, order), x, y, z);
    StartSize(s, order);
    LinearizeStarts(pol, s, order, [z, y, x]);
    NotInOrder(s, x, y, z);
  }

  lemma NotInOrder(s: Graph, x: Hash, y: Hash, z: Hash)
    requires Below(s, y, z)
    ensures !Causal(s, [z, y, x])
  {
    var q := [z, y, x];
    assert q[0] == z && q[1] == y;
  }

  /** The register does so although its swaps are calm: two multiplications and an addition after the second. */
  lemma RegisterOvertakes(grantWins: bool, first: string -> string, swaps: nat, s: Graph, x: Hash, y: Hash, z: Hash)
    requires GraphOK(s) && Chain(s, x, y, z) && swaps >= 1
    requires !IsACL(s[x]) && !IsACL(s[y]) && !IsACL(s[z])
    requires OpType(s[x]) == "mul" && OpType(s[y]) == "mul" && OpType(s[z]) == "add"
    ensures var pol := Register(grantWins, first, swaps);
            && Settled(pol, s) && RootedAt(s, ROOT_HASH) && Linearize(pol, s, ROOT_HASH) == Some([z, y, x])
            && y in Deps(s, z) && !Causal(s, [z, y, x])
  {
    var pol := Register(grantWins, first, swaps);
    RegisterSettles(grantWins, first, swaps, s);
    assert s[x].hash == x && s[y].hash == y && s[z].hash == z;
    assert Resolve(pol, s[x], s[z]) == Swap;
    hide *;
    DependentFirst(pol, s, x, y, z);
  }
}
