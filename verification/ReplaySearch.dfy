/** The worklist searches that decide whether a checkpoint may seed a replay. */
module ReplaySearch {
  import opened HashGraphs
  import opened Children
  import opened TopologicalSort
  import opened BarrierTest
  import opened GraphStore

  // ---------------------------------------------------------------- closed sets hold what is reachable

  lemma {:induction false} BackwardClosed(g: Graph, X: set<Hash>, a: Hash, d: Hash, n: nat)
    requires d in X && (forall v, e :: v in X && e in Deps(g, v) ==> e in X) && Steps(g, a, d, n)
    ensures a in X
    decreases n
  {
    if n > 0 {
      var e :| e in Deps(g, d) && Steps(g, a, e, n - 1);
      BackwardClosed(g, X, a, e, n - 1);
    }
  }

  lemma {:induction false} AvoidClosed(g: Graph, B: set<Hash>, X: set<Hash>, h: Hash, d: Hash, n: nat)
    requires d in X && (forall v, e :: v in X && v !in B && e in Deps(g, v) ==> e in X) && StepsAvoid(g, B, h, d, n)
    ensures h in X && h !in B
    decreases n
  {
    if n > 0 {
      var e :| e in Deps(g, d) && StepsAvoid(g, B, h, e, n - 1);
      AvoidClosed(g, B, X, h, e, n - 1);
    }
  }

  lemma {:induction false} UpClosed(g: Graph, allowed: set<Hash>, X: set<Hash>, a: Hash, b: Hash, n: nat)
    requires a in X && (forall v, c :: v in X && c in allowed && v in Deps(g, c) ==> c in X)
             && StepsUp(g, allowed, a, b, n)
    ensures b in X
    decreases n
  {
    if n > 0 {
      var d :| d in Deps(g, b) && StepsUp(g, allowed, a, d, n - 1);
      UpClosed(g, allowed, X, a, d, n - 1);
    }
  }

  // ---------------------------------------------------------------- one worklist invariant

  /** What a stack-and-visited-set search from `start` along `next` keeps; `ok` holds of what it meets. */
  ghost predicate Searching(U: set<Hash>, start: seq<Hash>, next: Hash -> seq<Hash>, ok: Hash -> bool,
                            visited: set<Hash>, stack: seq<Hash>)
  {
    && (forall x :: x in start ==> x in visited || x in stack)
    && (forall x :: x in visited ==> x in U && ok(x))
    && (forall x :: x in stack ==> x in U && ok(x))
    && (forall v, e :: v in visited && e in next(v) ==> e in visited || e in stack)
  }

  lemma SearchStart(U: set<Hash>, start: seq<Hash>, next: Hash -> seq<Hash>, ok: Hash -> bool)
    requires forall x :: x in start ==> x in U && ok(x)
    ensures Searching(U, start, next, ok, {}, start)
  {}

  lemma SearchSkip(U: set<Hash>, start: seq<Hash>, next: Hash -> seq<Hash>, ok: Hash -> bool,
                   visited: set<Hash>, rest: seq<Hash>, h: Hash)
    requires Searching(U, start, next, ok, visited, rest + [h]) && h in visited
    ensures Searching(U, start, next, ok, visited, rest)
  {}

  lemma SearchVisit(U: set<Hash>, start: seq<Hash>, next: Hash -> seq<Hash>, ok: Hash -> bool,
                    visited: set<Hash>, rest: seq<Hash>, h: Hash, kids: seq<Hash>)
    requires Searching(U, start, next, ok, visited, rest + [h]) && h !in visited && kids == next(h)
    requires h in U && ok(h) ==> forall e :: e in kids ==> e in U && ok(e)
    ensures Searching(U, start, next, ok, visited + {h}, rest + kids)
    ensures |U - (visited + {h})| < |U - visited|
  {
    assert h in rest + [h];
    Shrinks(U, visited, h);
    assert forall v, e :: v in visited && e in next(v) ==> e in visited || e in rest || e == h;
  }

  lemma SearchDone(U: set<Hash>, start: seq<Hash>, next: Hash -> seq<Hash>, ok: Hash -> bool, visited: set<Hash>)
    requires Searching(U, start, next, ok, visited, [])
    ensures forall x :: x in start ==> x in visited
    ensures forall x :: x in visited ==> x in U && ok(x)
    ensures forall v, e :: v in visited && e in next(v) ==> e in visited
  {}

  // ---------------------------------------------------------------- covering a boundary

  function Back(g: Graph): Hash -> seq<Hash> {
    (h: Hash) => Deps(g, h)
  }

  ghost function PastOf(g: Graph, d: Hash): Hash -> bool {
    (x: Hash) => AtMost(g, x, d)
  }

  lemma BackLinks(g: Graph, d: Hash, h: Hash)
    requires Closed(g) && AtMost(g, h, d)
    ensures forall e :: e in Deps(g, h) ==> e in g && AtMost(g, e, d)
  {
    forall e | e in Deps(g, h) ensures AtMost(g, e, d) {
      assert AtMost(g, e, e);
      BelowLast(g, e, h);
      BelowTrans(g, e, h, d);
    }
  }

  ghost predicate Backward(g: Graph, d: Hash, visited: set<Hash>, stack: seq<Hash>) {
    Searching(g.Keys + {d}, [d], Back(g), PastOf(g, d), visited, stack)
  }

  lemma BackwardStart(g: Graph, d: Hash)
    ensures Backward(g, d, {}, [d])
  {
    SearchStart(g.Keys + {d}, [d], Back(g), PastOf(g, d));
  }

  lemma BackwardStep(g: Graph, d: Hash, visited: set<Hash>, rest: seq<Hash>, h: Hash)
    requires Closed(g) && Backward(g, d, visited, rest + [h])
    ensures h in visited ==> Backward(g, d, visited, rest)
    ensures h !in visited ==> Backward(g, d, visited + {h}, rest + Deps(g, h))
    ensures h !in visited ==> |(g.Keys + {d}) - (visited + {h})| < |(g.Keys + {d}) - visited|
  {
    var U, f, ok := g.Keys + {d}, Back(g), PastOf(g, d);
    if h in visited {
      SearchSkip(U, [d], f, ok, visited, rest, h);
    } else {
      if ok(h) { BackLinks(g, d, h); }
      SearchVisit(U, [d], f, ok, visited, rest, h, Deps(g, h));
    }
  }

  /** A finished search has visited exactly the past of `d`. */
  lemma BackwardDone(g: Graph, d: Hash, visited: set<Hash>, b: Hash)
    requires Backward(g, d, visited, [])
    ensures b in visited <==> AtMost(g, b, d)
  {
    SearchDone(g.Keys + {d}, [d], Back(g), PastOf(g, d), visited);
    assert PastOf(g, d)(b) == AtMost(g, b, d);
    if AtMost(g, b, d) {
      AtMostSteps(g, b, d);
      var n: nat :| Steps(g, b, d, n);
      assert forall v, e :: v in visited && e in Back(g)(v) ==> e in visited;
      assert d in [d];
      BackwardClosed(g, visited, b, d, n);
    }
  }

  lemma CoverVerdict(g: Graph, d: Hash, B: seq<Hash>, visited: set<Hash>, stack: seq<Hash>, remaining: set<Hash>)
    requires remaining == Elems(B) - visited && Backward(g, d, visited, stack) && (stack == [] || remaining == {})
    ensures remaining == {} <==> forall b :: b in B ==> AtMost(g, b, d)
  {
    if remaining == {} {
      forall b | b in B ensures AtMost(g, b, d) {
        assert b in Elems(B);
        assert b in visited || b in remaining;
        assert PastOf(g, d)(b);
      }
    } else {
      var b :| b in remaining;
      BackwardDone(g, d, visited, b);
    }
  }

  lemma ValidParts(graph: HashGraph)
    requires graph.Valid()
    ensures Closed(graph.vertices) && EdgesMatch(graph.vertices, graph.forwardEdges)
  {}

  /** Search back from `descendant` until nothing of the boundary remains or the past is exhausted. */
  method CoversBoundary(graph: HashGraph, descendant: Hash, boundary: seq<Hash>) returns (ok: bool)
    requires graph.Valid()
    ensures ok <==> forall b :: b in boundary ==> AtMost(graph.vertices, b, descendant)
  {
    hide *;
    ghost var g := graph.vertices;
    ValidParts(graph);
    var remaining := Elems(boundary);
    var visited: set<Hash> := {};
    var stack := [descendant];
    BackwardStart(g, descendant);
    while |stack| > 0 && remaining != {}
      invariant remaining == Elems(boundary) - visited
      invariant Backward(g, descendant, visited, stack)
      decreases |(g.Keys + {descendant}) - visited|, |stack|
    {
      var hash := stack[|stack| - 1];
      assert stack == stack[..|stack| - 1] + [hash];
      stack := stack[..|stack| - 1];
      BackwardStep(g, descendant, visited, stack, hash);
      if hash !in visited {
        visited := visited + {hash};
        remaining := remaining - {hash};
        stack := stack + Deps(graph.vertices, hash);
      }
    }
    ok := remaining == {};
    CoverVerdict(g, descendant, boundary, visited, stack, remaining);
  }

  /** Whether the dependencies are the boundary, or each lies above all of it. */
  method DependenciesCover(graph: HashGraph, dependencies: seq<Hash>, boundary: seq<Hash>) returns (ok: bool)
    requires graph.Valid()
    ensures ok <==> Cover(graph.vertices, dependencies, boundary)
  {
    if |Elems(dependencies)| == |boundary| && forall b :: b in boundary ==> b in dependencies { return true; }
    for i := 0 to |dependencies|
      invariant forall k, b :: 0 <= k < i && b in boundary ==> AtMost(graph.vertices, b, dependencies[k])
    {
      hide AtMost;
      var covers := CoversBoundary(graph, dependencies[i], boundary);
      if !covers {
        assert dependencies[i] in dependencies;
        return false;
      }
    }
    return true;
  }

  // ---------------------------------------------------------------- collecting a suffix

  lemma {:induction false} AvoidExtend(g: Graph, B: set<Hash>, h: Hash, e: Hash, d: Hash, n: nat)
    requires StepsAvoid(g, B, h, d, n) && e in Deps(g, h) && e !in B
    ensures StepsAvoid(g, B, e, d, n + 1)
    decreases n
  {
    if n == 0 {
      assert StepsAvoid(g, B, e, e, 0);
    } else {
      var f :| f in Deps(g, d) && StepsAvoid(g, B, h, f, n - 1);
      AvoidExtend(g, B, h, e, f, n - 1);
    }
  }

  lemma CollectsDep(g: Graph, D: seq<Hash>, B: set<Hash>, h: Hash, e: Hash)
    requires Collects(g, D, B, h) && e in Deps(g, h) && e !in B
    ensures Collects(g, D, B, e)
  {
    var d, n: nat :| d in D && StepsAvoid(g, B, h, d, n);
    AvoidExtend(g, B, h, e, d, n);
  }

  lemma CollectsSelf(g: Graph, D: seq<Hash>, B: set<Hash>, d: Hash)
    requires d in D && d !in B
    ensures Collects(g, D, B, d)
  {
    assert StepsAvoid(g, B, d, d, 0);
  }

  function BackUntil(g: Graph, B: set<Hash>): Hash -> seq<Hash> {
    (h: Hash) => if h in B then [] else Deps(g, h)
  }

  ghost function Met(g: Graph, D: seq<Hash>, B: set<Hash>): Hash -> bool {
    (x: Hash) => x in B || Collects(g, D, B, x)
  }

  ghost predicate Collecting(g: Graph, D: seq<Hash>, B: set<Hash>, visited: set<Hash>, stack: seq<Hash>) {
    Searching(g.Keys, D, BackUntil(g, B), Met(g, D, B), visited, stack)
  }

  lemma CollectStart(g: Graph, D: seq<Hash>, B: set<Hash>)
    requires Members(g, D)
    ensures Collecting(g, D, B, {}, D)
  {
    forall d | d in D ensures Met(g, D, B)(d) { if d !in B { CollectsSelf(g, D, B, d); } }
    SearchStart(g.Keys, D, BackUntil(g, B), Met(g, D, B));
  }

  lemma CollectStep(g: Graph, D: seq<Hash>, B: set<Hash>, visited: set<Hash>, rest: seq<Hash>, h: Hash)
    requires Closed(g) && Collecting(g, D, B, visited, rest + [h])
    ensures h in visited ==> Collecting(g, D, B, visited, rest)
    ensures h !in visited ==> Collecting(g, D, B, visited + {h}, if h in B then rest else rest + Deps(g, h))
    ensures h !in visited ==> |g.Keys - (visited + {h})| < |g.Keys - visited|
  {
    hide Collects, Deps, Searching, Met, BackUntil;
    var f, ok := BackUntil(g, B), Met(g, D, B);
    if h in visited {
      SearchSkip(g.Keys, D, f, ok, visited, rest, h);
    } else {
      if h in g && ok(h) { CollectLinks(g, D, B, h); }
      SearchVisit(g.Keys, D, f, ok, visited, rest, h, f(h));
      BackUntilIs(g, B, h);
      assert rest + [] == rest;
    }
  }

  lemma BackUntilIs(g: Graph, B: set<Hash>, h: Hash)
    ensures BackUntil(g, B)(h) == if h in B then [] else Deps(g, h)
  {}

  lemma MetIs(g: Graph, D: seq<Hash>, B: set<Hash>, h: Hash)
    ensures Met(g, D, B)(h) <==> h in B || Collects(g, D, B, h)
  {}

  lemma CollectLinks(g: Graph, D: seq<Hash>, B: set<Hash>, h: Hash)
    requires Closed(g) && h in g && Met(g, D, B)(h)
    ensures forall e :: e in BackUntil(g, B)(h) ==> e in g && Met(g, D, B)(e)
  {
    hide Collects;
    forall e | e in BackUntil(g, B)(h) ensures e in g && Met(g, D, B)(e) {
      if e !in B { CollectsDep(g, D, B, h, e); }
    }
  }

  lemma CollectDone(g: Graph, D: seq<Hash>, B: seq<Hash>, visited: set<Hash>)
    requires Collecting(g, D, Elems(B), visited, [])
    ensures IsCollected(g, D, B, Outside(visited, Elems(B))) && Outside(visited, Elems(B)) <= g.Keys
  {
    hide Collects, Met, BackUntil, Elems;
    var f, ok := BackUntil(g, Elems(B)), Met(g, D, Elems(B));
    SearchDone(g.Keys, D, f, ok, visited);
    forall h | h in Outside(visited, Elems(B)) ensures Collects(g, D, Elems(B), h) { MetIs(g, D, Elems(B), h); }
    forall v, e | v in visited && v !in Elems(B) && e in Deps(g, v) ensures e in visited {
      BackUntilIs(g, Elems(B), v);
    }
    forall h | Collects(g, D, Elems(B), h) ensures h in Outside(visited, Elems(B)) {
      CollectedVisited(g, D, Elems(B), visited, h);
    }
  }

  lemma CollectedVisited(g: Graph, D: seq<Hash>, B: set<Hash>, visited: set<Hash>, h: Hash)
    requires forall d :: d in D ==> d in visited
    requires forall v, e :: v in visited && v !in B && e in Deps(g, v) ==> e in visited
    requires Collects(g, D, B, h)
    ensures h in visited && h !in B
  {
    var d, n: nat :| d in D && StepsAvoid(g, B, h, d, n);
    hide StepsAvoid, Deps;
    AvoidClosed(g, B, visited, h, d, n);
  }

  ghost function Outside(visited: set<Hash>, B: set<Hash>): set<Hash> {
    visited - B
  }

  /** The sub-graph built so far. */
  ghost predicate Gathered(subgraph: set<Hash>, visited: set<Hash>, B: set<Hash>, origin: Hash) {
    subgraph == Outside(visited, B) + {origin}
  }

  lemma GatheredNone(B: set<Hash>, origin: Hash)
    ensures Gathered({origin}, {}, B, origin)
  {}

  lemma GatheredGrow(subgraph: set<Hash>, visited: set<Hash>, B: set<Hash>, origin: Hash, h: Hash)
    requires Gathered(subgraph, visited, B, origin)
    ensures Gathered(if h in B then subgraph else subgraph + {h}, visited + {h}, B, origin)
  {}

  lemma GatheredIs(subgraph: set<Hash>, visited: set<Hash>, B: set<Hash>, origin: Hash)
    requires Gathered(subgraph, visited, B, origin)
    ensures subgraph == Outside(visited, B) + {origin}
  {}

  /** Walk back from the dependencies, stopping at the boundary. */
  method CollectBackward(graph: HashGraph, dependencies: seq<Hash>, boundary: seq<Hash>, origin: Hash)
    returns (subgraph: set<Hash>, ghost S: set<Hash>)
    requires graph.Valid() && Members(graph.vertices, dependencies)
    ensures IsCollected(graph.vertices, dependencies, boundary, S) && subgraph == S + {origin}
    ensures S <= graph.vertices.Keys
  {
    hide *;
    ghost var g := graph.vertices;
    ValidParts(graph);
    var boundarySet := Elems(boundary);
    subgraph := {origin};
    var visited: set<Hash> := {};
    var stack := dependencies;
    GatheredNone(boundarySet, origin);
    CollectStart(g, dependencies, boundarySet);
    while |stack| > 0
      invariant Collecting(g, dependencies, boundarySet, visited, stack)
      invariant Gathered(subgraph, visited, boundarySet, origin)
      decreases |g.Keys - visited|, |stack|
    {
      var hash := stack[|stack| - 1];
      assert stack == stack[..|stack| - 1] + [hash];
      stack := stack[..|stack| - 1];
      CollectStep(g, dependencies, boundarySet, visited, stack, hash);
      if hash !in visited {
        GatheredGrow(subgraph, visited, boundarySet, origin, hash);
        visited := visited + {hash};
        if hash !in boundarySet {
          subgraph := subgraph + {hash};
          stack := stack + Deps(graph.vertices, hash);
        }
      }
    }
    assert stack == [];
    S := Outside(visited, boundarySet);
    CollectDone(g, dependencies, boundary, visited);
    GatheredIs(subgraph, visited, boundarySet, origin);
  }

  // ---------------------------------------------------------------- reaching the suffix from a head

  /** The members of `xs` that are in `T`, in order. */
  function Among(xs: seq<Hash>, T: set<Hash>): (r: seq<Hash>)
    ensures forall x :: x in r <==> x in xs && x in T
  {
    if xs == [] then [] else (if xs[0] in T then [xs[0]] else []) + Among(xs[1..], T)
  }

  lemma EdgeMembers(g: Graph, e: EdgeMap, n: Hash, x: Hash)
    requires EdgesMatch(g, e)
    ensures x in EdgeList(e, n) <==> x in g && n in Deps(g, x)
  {
    assert multiset(EdgeList(e, n))[x] == Links(g, x, n);
    assert x in EdgeList(e, n) <==> x in multiset(EdgeList(e, n));
    assert n in Deps(g, x) <==> n in multiset(Deps(g, x));
  }

  function Onward(e: EdgeMap, allowed: set<Hash>): Hash -> seq<Hash> {
    (h: Hash) => Among(EdgeList(e, h), allowed)
  }

  ghost function ReachedFrom(g: Graph, allowed: set<Hash>, head: Hash): Hash -> bool {
    (x: Hash) => Reaches(g, allowed, head, x)
  }

  ghost predicate Forward(g: Graph, e: EdgeMap, allowed: set<Hash>, head: Hash, reachable: set<Hash>,
                          stack: seq<Hash>) {
    Searching(g.Keys + {head}, [head], Onward(e, allowed), ReachedFrom(g, allowed, head), reachable, stack)
  }

  lemma ForwardStart(g: Graph, e: EdgeMap, allowed: set<Hash>, head: Hash)
    ensures Forward(g, e, allowed, head, {}, [head])
  {
    assert StepsUp(g, allowed, head, head, 0);
    SearchStart(g.Keys + {head}, [head], Onward(e, allowed), ReachedFrom(g, allowed, head));
  }

  lemma ReachesChild(g: Graph, allowed: set<Hash>, head: Hash, h: Hash, c: Hash)
    requires Reaches(g, allowed, head, h) && c in allowed && h in Deps(g, c)
    ensures Reaches(g, allowed, head, c)
  {
    var n: nat :| StepsUp(g, allowed, head, h, n);
    assert StepsUp(g, allowed, head, c, n + 1);
  }

  lemma ForwardStep(g: Graph, e: EdgeMap, allowed: set<Hash>, head: Hash, reachable: set<Hash>, rest: seq<Hash>,
                    h: Hash)
    requires EdgesMatch(g, e) && Forward(g, e, allowed, head, reachable, rest + [h])
    ensures h in reachable ==> Forward(g, e, allowed, head, reachable, rest)
    ensures h !in reachable ==> Forward(g, e, allowed, head, reachable + {h}, rest + Among(EdgeList(e, h), allowed))
    ensures h !in reachable ==> |(g.Keys + {head}) - (reachable + {h})| < |(g.Keys + {head}) - reachable|
  {
    var U, f, ok := g.Keys + {head}, Onward(e, allowed), ReachedFrom(g, allowed, head);
    if h in reachable {
      SearchSkip(U, [head], f, ok, reachable, rest, h);
    } else {
      if ok(h) {
        forall c | c in f(h) ensures c in g && ok(c) {
          EdgeMembers(g, e, h, c);
          ReachesChild(g, allowed, head, h, c);
        }
      }
      SearchVisit(U, [head], f, ok, reachable, rest, h, f(h));
    }
  }

  lemma ForwardDone(g: Graph, e: EdgeMap, allowed: set<Hash>, head: Hash, reachable: set<Hash>, x: Hash)
    requires EdgesMatch(g, e) && Forward(g, e, allowed, head, reachable, [])
    ensures x in reachable <==> Reaches(g, allowed, head, x)
  {
    var f, ok := Onward(e, allowed), ReachedFrom(g, allowed, head);
    SearchDone(g.Keys + {head}, [head], f, ok, reachable);
    assert ok(x) == Reaches(g, allowed, head, x);
    if Reaches(g, allowed, head, x) {
      var n: nat :| StepsUp(g, allowed, head, x, n);
      forall v, c | v in reachable && c in allowed && v in Deps(g, c) ensures c in reachable {
        EdgeMembers(g, e, v, c);
        assert c in f(v);
      }
      assert head in [head];
      UpClosed(g, allowed, reachable, head, x, n);
    }
  }

  /** Follow forward edges from `head` inside `allowed`. */
  method ReachForward(graph: HashGraph, head: Hash, allowed: set<Hash>) returns (reachable: set<Hash>)
    requires graph.Valid()
    ensures forall x :: x in reachable <==> Reaches(graph.vertices, allowed, head, x)
  {
    hide *;
    ghost var g := graph.vertices;
    ValidParts(graph);
    reachable := {};
    var stack := [head];
    ForwardStart(g, graph.forwardEdges, allowed, head);
    while |stack| > 0
      invariant Forward(g, graph.forwardEdges, allowed, head, reachable, stack)
      decreases |(g.Keys + {head}) - reachable|, |stack|
    {
      var hash := stack[|stack| - 1];
      assert stack == stack[..|stack| - 1] + [hash];
      stack := stack[..|stack| - 1];
      ForwardStep(g, graph.forwardEdges, allowed, head, reachable, stack, hash);
      if hash !in reachable {
        reachable := reachable + {hash};
        stack := stack + Among(EdgeList(graph.forwardEdges, hash), allowed);
      }
    }
    assert stack == [];
    forall x ensures x in reachable <==> Reaches(g, allowed, head, x) {
      ForwardDone(g, graph.forwardEdges, allowed, head, reachable, x);
    }
  }

  /** Collect a replay suffix when it is separated from the baked state by a causal barrier. */
  method CollectSuffixSubgraph(graph: HashGraph, dependencies: seq<Hash>, boundary: seq<Hash>, origin: Hash)
    returns (r: Option<set<Hash>>, ghost S: set<Hash>)
    requires graph.Valid() && Members(graph.vertices, dependencies) && origin in boundary
    ensures IsCollected(graph.vertices, dependencies, boundary, S) && S <= graph.vertices.Keys
    ensures r == if Accepts(graph.vertices, boundary, S) then Some(S + {origin}) else None
  {
    var subgraph;
    subgraph, S := CollectBackward(graph, dependencies, boundary, origin);
    ghost var g := graph.vertices;
    var boundarySet := Elems(boundary);
    var suffixMembers := subgraph - {origin};
    assert suffixMembers == S && boundarySet + subgraph == boundarySet + S by {
      OriginNotCollected(g, dependencies, boundary, S, origin);
    }
    hide IsCollected, Reaches, HashGraph.Valid, Members;
    for i := 0 to |boundary|
      invariant forall k, x :: 0 <= k < i && x in S ==> Reaches(g, boundarySet + S, boundary[k], x)
    {
      var reachable := ReachForward(graph, boundary[i], boundarySet + subgraph);
      if !(suffixMembers <= reachable) {
        ghost var x :| x in S && x !in reachable;
        assert boundary[i] in boundary;
        return None, S;
      }
    }
    r := Some(subgraph);
  }

  lemma OriginNotCollected(g: Graph, D: seq<Hash>, B: seq<Hash>, S: set<Hash>, o: Hash)
    requires IsCollected(g, D, B, S) && o in B
    ensures o !in S
  {
    if o in S {
      var d, n: nat :| d in D && StepsAvoid(g, Elems(B), o, d, n);
      AvoidSteps(g, Elems(B), o, d, n);
    }
  }
}
