/** The sort and the pair linearizer as the program runs them, with arrays and loops. */
module LinearizeMethods {
  import opened HashGraphs
  import opened Children
  import opened TopologicalSort
  import opened CausalBarrier
  import opened PairLinearizer
  import opened Linearization
  import opened BarrierTest
  import opened GraphStore
  import opened ReplaySearch

  // ---------------------------------------------------------------- topological sort

  lemma {:induction false} UpIsSub(g: Graph, T: set<Hash>, a: Hash, b: Hash, n: nat)
    requires T <= g.Keys
    ensures StepsUp(g, T, a, b, n) <==> Steps(Sub(g, T), a, b, n)
    decreases n
  {
    if n > 0 {
      var m := n - 1;
      forall d ensures StepsUp(g, T, a, d, m) <==> Steps(Sub(g, T), a, d, m) { UpIsSub(g, T, a, d, m); }
      if b in T { assert Deps(Sub(g, T), b) == Deps(g, b); }
    }
  }

  lemma ReachesIsRooted(g: Graph, T: set<Hash>, origin: Hash)
    requires T <= g.Keys && origin in T
    ensures (forall x :: x in T ==> Reaches(g, T, origin, x)) <==> RootedAt(Sub(g, T), origin)
  {
    var s := Sub(g, T);
    forall x ensures Reaches(g, T, origin, x) <==> AtMost(s, origin, x) { ReachIsAtMost(g, T, origin, x); }
  }

  lemma ReachIsAtMost(g: Graph, T: set<Hash>, origin: Hash, x: Hash)
    requires T <= g.Keys
    ensures Reaches(g, T, origin, x) <==> AtMost(Sub(g, T), origin, x)
  {
    AtMostSteps(Sub(g, T), origin, x);
    if n: nat :| StepsUp(g, T, origin, x, n) { UpIsSub(g, T, origin, x, n); assert Reaches(g, T, origin, x); }
    if n: nat :| Steps(Sub(g, T), origin, x, n) { UpIsSub(g, T, origin, x, n); }
  }

  /** The run so far: what is still to be written, then what has been written. */
  ghost predicate Sorting(s: Graph, origin: Hash, visited: set<Hash>, stack: seq<Hash>, result: seq<Hash>)
    requires origin in s
  {
    && Into(s.Keys, EdgesOf(s)) && Within(s.Keys, stack)
    && Dfs(s.Keys, EdgesOf(s), visited, stack).order + result == Sort(s, origin).order
  }

  lemma SortingStart(s: Graph, origin: Hash)
    requires origin in s
    ensures Sorting(s, origin, {}, [origin], [])
  {
    EdgesInto(s);
    assert Sort(s, origin).order + [] == Sort(s, origin).order;
  }

  lemma SortingNonEmpty(s: Graph, origin: Hash, visited: set<Hash>, stack: seq<Hash>, result: seq<Hash>)
    requires RootedAt(s, origin) && Sorting(s, origin, visited, stack, result) && |result| < |s|
    ensures stack != []
  {
    SortFills(s, origin);
    if stack == [] { DfsEmpty(s.Keys, EdgesOf(s), visited); }
  }

  lemma SortingPop(s: Graph, origin: Hash, visited: set<Hash>, rest: seq<Hash>, top: Hash, result: seq<Hash>)
    requires origin in s && Sorting(s, origin, visited, rest + [top], result) && top in visited
    ensures Sorting(s, origin, visited, rest, [top] + result)
  {
    hide Dfs, Sort, Into;
    assert top in rest + [top];
    assert Within(s.Keys, rest);
    DfsPop(s.Keys, EdgesOf(s), visited, rest, top);
    var r := Dfs(s.Keys, EdgesOf(s), visited, rest);
    assert (r.order + [top]) + result == r.order + ([top] + result);
  }

  lemma SortingPush(s: Graph, origin: Hash, visited: set<Hash>, rest: seq<Hash>, top: Hash, result: seq<Hash>)
    requires origin in s && Sorting(s, origin, visited, rest + [top], result) && top !in visited
    ensures Sorting(s, origin, visited + {top}, rest + [top] + Unseen(Kids(s, top), visited + {top}), result)
    ensures |s.Keys - (visited + {top})| < |s.Keys - visited|
  {
    hide Dfs, Sort, Into;
    assert top in rest + [top];
    assert Within(s.Keys, rest);
    Shrinks(s.Keys, visited, top);
    DfsPush(s.Keys, EdgesOf(s), visited, rest, top);
  }

  /** Everything above the stack entry of a node that is being processed descends from it. */
  ghost predicate OnPath(s: Graph, stack: seq<Hash>, p: Hash) {
    exists i :: 0 <= i < |stack| && AllAbove(s, stack, p, i)
  }

  ghost predicate AllAbove(s: Graph, stack: seq<Hash>, p: Hash, i: nat)
    requires i < |stack|
  {
    stack[i] == p && forall j :: i < j < |stack| ==> Below(s, p, stack[j])
  }

  ghost predicate Processing(s: Graph, stack: seq<Hash>, processing: set<Hash>) {
    forall p :: p in processing ==> OnPath(s, stack, p)
  }

  lemma ProcessingPop(s: Graph, rest: seq<Hash>, top: Hash, processing: set<Hash>)
    requires Processing(s, rest + [top], processing)
    ensures Processing(s, rest, processing - {top})
  {
    hide Below;
    var stack := rest + [top];
    forall p | p in processing - {top} ensures OnPath(s, rest, p) {
      var i :| 0 <= i < |stack| && AllAbove(s, stack, p, i);
      assert forall j :: i < j < |rest| ==> stack[j] == rest[j];
      assert AllAbove(s, rest, p, i);
    }
  }

  lemma ProcessingPush(s: Graph, rest: seq<Hash>, top: Hash, processing: set<Hash>, more: seq<Hash>)
    requires Acyclic(s) && Processing(s, rest + [top], processing)
    requires forall c :: c in more ==> c in Kids(s, top)
    ensures forall c :: c in Kids(s, top) ==> c !in processing + {top}
    ensures Processing(s, rest + [top] + more, processing + {top})
  {
    hide Below, Kids, Acyclic;
    var stack := rest + [top];
    forall c | c in Kids(s, top) ensures Below(s, top, c) && c !in processing + {top} {
      ChildAbove(s, top, c);
      NoCycle(s, stack, processing, top, c);
    }
    forall p | p in processing + {top} ensures OnPath(s, stack + more, p) {
      PathGrows(s, rest, top, processing, more, p);
    }
  }

  lemma PathGrows(s: Graph, rest: seq<Hash>, top: Hash, processing: set<Hash>, more: seq<Hash>, p: Hash)
    requires Processing(s, rest + [top], processing) && (forall c :: c in more ==> Below(s, top, c))
             && p in processing + {top}
    ensures OnPath(s, rest + [top] + more, p)
  {
    hide Below;
    var stack := rest + [top];
    var all := stack + more;
    var i := |rest|;
    if p in processing { i :| 0 <= i < |stack| && AllAbove(s, stack, p, i); }
    forall j | i < j < |all| ensures Below(s, p, all[j]) {
      if j < |stack| {
        assert all[j] == stack[j];
      } else {
        assert all[j] in more;
        if i < |rest| { assert stack[|rest|] == top; BelowTrans(s, p, top, all[j]); }
      }
    }
    assert AllAbove(s, all, p, i);
  }

  /** A child being processed would close a cycle. */
  lemma NoCycle(s: Graph, stack: seq<Hash>, processing: set<Hash>, top: Hash, c: Hash)
    requires Acyclic(s) && Processing(s, stack, processing) && stack != [] && stack[|stack| - 1] == top
             && Below(s, top, c)
    ensures c !in processing + {top}
  {
    if c in processing {
      var i :| 0 <= i < |stack| && AllAbove(s, stack, c, i);
      if i < |stack| - 1 { BelowTrans(s, c, top, c); }
    }
  }

  lemma ChildAbove(s: Graph, top: Hash, c: Hash)
    requires c in Kids(s, top)
    ensures Below(s, top, c)
  {
    KidsMembers(s, top);
    assert AtMost(s, top, top);
    BelowLast(s, top, c);
  }

  lemma SortingEnd(s: Graph, origin: Hash, visited: set<Hash>, stack: seq<Hash>, result: seq<Hash>)
    requires RootedAt(s, origin) && Sorting(s, origin, visited, stack, result) && |result| == |s|
    ensures |Sort(s, origin).order| >= |s|
    ensures DfsOrder(s, origin) == if origin in result then result else result[0 := origin]
  {
    SortFills(s, origin);
    hide Dfs, Sort;
    var full := Sort(s, origin).order;
    assert full[|full| - |s|..] == result;
  }

  /** Sort the sub-graph from its origin; None when the program throws. */
  method TopologicalSortIterative(graph: HashGraph, origin: Hash, subgraph: set<Hash>) returns (r: Option<seq<Hash>>)
    requires graph.Valid() && subgraph <= graph.vertices.Keys
    ensures var s := Sub(graph.vertices, subgraph);
            && (r.Some? <==> RootedAt(s, origin))
            && (r.Some? ==> |Sort(s, origin).order| >= |s| && r.value == DfsOrder(s, origin))
  {
    hide *;
    ghost var s := Sub(graph.vertices, subgraph);
    SubKeys(graph.vertices, subgraph);
    ValidParts(graph);
    if origin !in subgraph {
      RootedIn(s, origin);
      return None;
    }
    var reachable := ReachForward(graph, origin, subgraph);
    ReachesIsRooted(graph.vertices, subgraph, origin);
    if !(subgraph <= reachable) {
      return None;
    }
    assert forall x :: x in subgraph ==> Reaches(graph.vertices, subgraph, origin, x);
    var visited: set<Hash> := {};
    var processing: set<Hash> := {};
    var result: seq<Hash> := [];
    var stack := [origin];
    SortingStart(s, origin);
    AcyclicSub(graph.vertices, subgraph) by { ValidAcyclic(graph); }
    NothingProcessed(s, stack);
    assert |s| == |subgraph| by { assert |s| == |s.Keys|; }
    while |result| < |subgraph|
      invariant |result| <= |subgraph|
      invariant Sorting(s, origin, visited, stack, result)
      invariant Processing(s, stack, processing)
      decreases |s.Keys - visited|, |stack|
    {
      SortingNonEmpty(s, origin, visited, stack, result);
      var node := stack[|stack| - 1];
      var rest := stack[..|stack| - 1];
      assert stack == rest + [node];
      if node in visited {
        SortingPop(s, origin, visited, rest, node, result);
        ProcessingPop(s, rest, node, processing);
        result := [node] + result;
        stack := rest;
        processing := processing - {node};
      } else {
        var children := SortedInside(EdgeList(graph.forwardEdges, node), subgraph);
        SortedInsideIsKids(graph.vertices, graph.forwardEdges, subgraph, node);
        SortingPush(s, origin, visited, rest, node, result);
        ProcessingPush(s, rest, node, processing, Unseen(children, visited + {node}));
        processing := processing + {node};
        visited := visited + {node};
        if exists c :: c in children && c in processing { return None; }
        stack := stack + Unseen(children, visited);
      }
    }
    SortingEnd(s, origin, visited, stack, result);
    if origin !in result { result := result[0 := origin]; }
    r := Some(result);
  }

  lemma NothingProcessed(s: Graph, stack: seq<Hash>)
    ensures Processing(s, stack, {})
  {}

  lemma RootedIn(s: Graph, origin: Hash)
    ensures RootedAt(s, origin) ==> origin in s
  {}

  lemma ValidAcyclic(graph: HashGraph)
    requires graph.Valid()
    ensures Acyclic(graph.vertices)
  {}

  // ---------------------------------------------------------------- pair linearization

  method AddDependencies(rows: Rows, h: Hash, deps: seq<Hash>) returns (r: Rows)
    requires h in rows
    ensures r == AddDeps(rows, h, deps)
  {
    r := rows;
    for i := 0 to |deps|
      invariant h in r && AddDeps(rows, h, deps) == AddDeps(r, h, deps[i..])
    {
      assert deps[i..][1..] == deps[i + 1..];
      if deps[i] in r {
        var source := r[deps[i]] + {deps[i]};
        var marked := r[deps[i] := source];
        r := marked[h := marked[h] + source];
      }
    }
  }

  method MarkDependencies(rows: Rows, deps: seq<Hash>) returns (r: Rows)
    ensures r == MarkDeps(rows, deps)
  {
    r := rows;
    for i := 0 to |deps|
      invariant MarkDeps(rows, deps) == MarkDeps(r, deps[i..])
    {
      assert deps[i..][1..] == deps[i + 1..];
      if deps[i] in r { r := r[deps[i] := r[deps[i]] + {deps[i]}]; }
    }
  }

  /** Fill the predecessor rows in the order of the sort. */
  method BuildMatrix(s: Graph, order: seq<Hash>) returns (rows: Rows)
    ensures rows == BuildRows(s, order, |order|)
  {
    rows := map h | h in order :: {};
    for i := 0 to |order|
      invariant rows == BuildRows(s, order, i)
    {
      if LastAt(order, i) {
        rows := AddDependencies(rows, order[i], Deps(s, order[i]));
      } else {
        rows := MarkDependencies(rows, Deps(s, order[i]));
      }
    }
  }

  /** Compare one anchor with everything after it. */
  method CompareAnchor(pol: Policy, s: Graph, scan: Scan, i: nat) returns (r: Option<Scan>)
    requires ScanOK(s, scan) && i < |scan.order|
    ensures r == Inner(pol, s, scan, i, i + 1, pol.swaps)
  {
    var sc, j, fuel := scan, i + 1, pol.swaps;
    while j < |sc.order|
      invariant ScanOK(s, sc) && |sc.order| == |scan.order| && i < j
      invariant Inner(pol, s, scan, i, i + 1, pol.swaps) == Inner(pol, s, sc, i, j, fuel)
      decreases fuel, |sc.order| - j
    {
      match Verdict(pol, s, sc, i, j) {
        case DropLeft => return Some(DropAt(sc, i));
        case DropRight =>
          sc, j := DropAt(sc, j), j + 1;
        case Swap =>
          if fuel == 0 { return None; }
          SwapOK(s, sc, i, j);
          sc, j, fuel := SwapAt(sc, i, j), i + 2, fuel - 1;
        case _ => j := j + 1;
      }
    }
    r := Some(sc);
  }

  function Prepend(a: seq<Hash>, r: Option<Linear>): Option<seq<Hash>> {
    match r case None => None case Some(l) => Some(a + l.out)
  }

  lemma OuterStop(pol: Policy, s: Graph, origin: Hash, sc: Scan, i: nat, a: seq<Hash>)
    requires ScanOK(s, sc) && i < |sc.order| && sc.order[i] != origin && !sc.dropped[i]
    ensures match Inner(pol, s, sc, i, i + 1, pol.swaps)
            case None => Prepend(a, Outer(pol, s, origin, sc, i, |sc.order|)) == None
            case Some(next) =>
              Prepend(a, Outer(pol, s, origin, sc, i, |sc.order|))
              == Prepend(a + if next.dropped[i] then [] else [next.order[i]],
                         Outer(pol, s, origin, next, i + 1, |sc.order|))
  {
    var r := Inner(pol, s, sc, i, i + 1, pol.swaps);
    if r.Some? {
      var t := Outer(pol, s, origin, r.value, i + 1, |sc.order|);
      var mine := if r.value.dropped[i] then [] else [r.value.order[i]];
      if t.Some? { assert a + (mine + t.value.out) == (a + mine) + t.value.out; }
    }
  }

  /** Scan all anchors of the order. */
  method ScanAnchors(pol: Policy, s: Graph, origin: Hash, start: Scan) returns (r: Option<seq<Hash>>)
    requires ScanOK(s, start)
    ensures r == Prepend([], Outer(pol, s, origin, start, 0, |start.order|))
  {
    var sc := start;
    var result: seq<Hash> := [];
    for i := 0 to |start.order|
      invariant ScanOK(s, sc) && |sc.order| == |start.order|
      invariant Prepend([], Outer(pol, s, origin, start, 0, |start.order|))
                == Prepend(result, Outer(pol, s, origin, sc, i, |sc.order|))
    {
      if sc.order[i] != origin && !sc.dropped[i] {
        OuterStop(pol, s, origin, sc, i, result);
        var next := CompareAnchor(pol, s, sc, i);
        if next.None? { return None; }
        sc := next.value;
        if !sc.dropped[i] { result := result + [sc.order[i]]; }
        assert !sc.dropped[i] || result + [] == result;
      }
    }
    assert result + [] == result;
    r := Some(result);
  }

  lemma PrependNothing(r: Option<Linear>)
    ensures Prepend([], r) == match r case None => None case Some(l) => Some(l.out)
  {
    if r.Some? { assert [] + r.value.out == r.value.out; }
  }

  lemma {:induction false} WithoutAppend(a: seq<Hash>, x: Hash, origin: Hash)
    ensures Without(a + [x], origin) == Without(a, origin) + if x == origin then [] else [x]
    decreases |a|
  {
    if a == [] {
      assert a + [x] == [x];
    } else {
      assert (a + [x])[1..] == a[1..] + [x];
      WithoutAppend(a[1..], x, origin);
    }
  }

  method SkipOriginOnly(order: seq<Hash>, origin: Hash) returns (r: seq<Hash>)
    ensures r == Without(order, origin)
  {
    r := [];
    for i := 0 to |order|
      invariant r == Without(order[..i], origin)
    {
      assert order[..i + 1] == order[..i] + [order[i]];
      WithoutAppend(order[..i], order[i], origin);
      if order[i] != origin { r := r + [order[i]]; }
    }
    assert order[..|order|] == order;
  }

  /** Linearize a sub-graph from its origin; None when the program throws or does not return. */
  method LinearizeVertices(graph: HashGraph, pol: Policy, origin: Hash, subgraph: set<Hash>)
    returns (r: Option<seq<Hash>>)
    requires graph.Valid() && subgraph <= graph.vertices.Keys
    ensures forall h :: r.Some? && h in r.value ==> h in subgraph
    ensures var s := Sub(graph.vertices, subgraph);
            if RootedAt(s, origin) then r == Linearize(pol, s, origin) else r == None
  {
    hide Sort, Dfs, HashGraph.Valid, Outer, BuildRows, RootedAt, Reduced, DfsOrder;
    var sorted := TopologicalSortIterative(graph, origin, subgraph);
    if sorted.None? { return None; }
    var order := sorted.value;
    var s := Sub(graph.vertices, subgraph);
    SubKeys(graph.vertices, subgraph);
    OrderMembers(s, origin);
    ScanDecides(pol, s, order, origin);
    PrependNothing(Outer(pol, s, origin, Start(s, order), 0, |order|));
    if NeedsResolution(pol, s, order, origin) {
      var rows := BuildMatrix(s, order);
      r := ScanAnchors(pol, s, origin, Scan(order, rows, seq(|order|, _ => false)));
    } else {
      var all := SkipOriginOnly(order, origin);
      r := Some(all);
    }
  }
}
