/** The mutable hash graph: vertices in insertion order, their forward edges and the frontier. */
module GraphStore {
  import opened HashGraphs
  import opened Children
  import opened TopologicalSort
  import opened CausalBarrier
  import opened PairLinearizer
  import opened Linearization
  import opened BarrierTest

  type EdgeMap = map<Hash, seq<Hash>>

  function EdgeList(e: EdgeMap, d: Hash): seq<Hash> {
    if d in e then e[d] else []
  }

  /** The forward edges are the dependency links, reversed. */
  ghost predicate EdgesMatch(g: Graph, e: EdgeMap) {
    forall d, x :: multiset(EdgeList(e, d))[x] == Links(g, x, d)
  }

  /** `keys` lists the vertices in an order in which every vertex follows its dependencies. */
  ghost predicate Inserted(g: Graph, keys: seq<Hash>) {
    && Distinct(keys) && (forall h :: h in keys <==> h in g)
    && forall i, d :: 0 <= i < |keys| && d in Deps(g, keys[i]) ==> d in keys[..i]
  }

  /** The vertices nobody depends on, each listed once. */
  ghost predicate IsFrontier(g: Graph, frontier: seq<Hash>) {
    Distinct(frontier) && forall h :: h in frontier <==> h in Heads(g, g.Keys)
  }

  // ---------------------------------------------------------------- what adding a vertex does

  lemma HeadsAdd(g: Graph, v: Vertex, h: Hash)
    requires Closed(g) && v.hash !in g && forall d :: d in v.dependencies ==> d in g
    ensures var t := g[v.hash := v];
            h in Heads(t, t.Keys) <==> h == v.hash || (h in Heads(g, g.Keys) && h !in v.dependencies)
  {
    var t := g[v.hash := v];
    assert Deps(t, v.hash) == v.dependencies;
    assert forall x :: x in g ==> Deps(t, x) == Deps(g, x);
    if h == v.hash {
      forall x | x in t ensures h !in Deps(t, x) {}
    } else if h in Heads(t, t.Keys) {
      assert v.hash in t && h !in Deps(t, v.hash);
      forall x | x in g ensures h !in Deps(g, x) { assert h !in Deps(t, x); }
    }
  }

  lemma FrontierAdd(g: Graph, v: Vertex, frontier: seq<Hash>)
    requires Closed(g) && v.hash !in g && (forall d :: d in v.dependencies ==> d in g) && IsFrontier(g, frontier)
    ensures IsFrontier(g[v.hash := v], Unseen(frontier, Elems(v.dependencies)) + [v.hash])
  {
    var t := g[v.hash := v];
    var r := Unseen(frontier, Elems(v.dependencies)) + [v.hash];
    UnseenDistinct(frontier, Elems(v.dependencies));
    forall h ensures h in r <==> h in Heads(t, t.Keys) {
      HeadsAdd(g, v, h);
    }
    assert v.hash !in frontier;
  }

  lemma InsertedAdd(g: Graph, v: Vertex, keys: seq<Hash>)
    requires Closed(g) && v.hash !in g && (forall d :: d in v.dependencies ==> d in g) && Inserted(g, keys)
    ensures Inserted(g[v.hash := v], keys + [v.hash])
  {
    var t, ks := g[v.hash := v], keys + [v.hash];
    forall i, d | 0 <= i < |ks| && d in Deps(t, ks[i]) ensures d in ks[..i] {
      if i < |keys| {
        assert keys[i] in g && ks[..i] == keys[..i];
        assert d in Deps(g, keys[i]);
      } else {
        assert ks[..i] == keys;
      }
    }
  }

  /** A non-empty frontier: every finite graph has a head. */
  lemma FrontierNonEmpty(g: Graph, frontier: seq<Hash>)
    requires GraphOK(g) && IsFrontier(g, frontier)
    ensures frontier != [] && Frontier(g, frontier) && Past(g, Elems(frontier)) == g.Keys
  {
    hide Below, AtMost, Past, Heads, Distinct, Closed;
    var h := HeadAbove(g, g.Keys, ROOT_HASH);
    assert h in frontier && DownClosed(g, g.Keys) && Members(g, frontier) by { FrontierMembers(g, frontier); }
    forall p, q | p in frontier && q in frontier ensures !Below(g, p, q) { HeadMaximal(g, g.Keys, p, q); }
    forall x | x in g ensures x in Past(g, Elems(frontier)) {
      var m := HeadAbove(g, g.Keys, x);
      InPast(g, frontier, x);
    }
    PastWithin(g, Elems(frontier));
  }

  lemma PastWithin(g: Graph, D: set<Hash>)
    ensures Past(g, D) <= g.Keys
  {}

  lemma FrontierMembers(g: Graph, frontier: seq<Hash>)
    requires IsFrontier(g, frontier) && Closed(g)
    ensures Members(g, frontier) && DownClosed(g, g.Keys)
  {}

  /** The children a node has inside `T`, in ascending order, out of its raw forward edges. */
  function SortedInside(raw: seq<Hash>, T: set<Hash>): (r: seq<Hash>)
    ensures Ascending(r) && forall x :: multiset(r)[x] == if x in T then multiset(raw)[x] else 0
  {
    if raw == [] then []
    else
      var rest := SortedInside(raw[1..], T);
      assert raw == [raw[0]] + raw[1..];
      if raw[0] in T then Insert(raw[0], rest) else rest
  }

  function Insert(x: Hash, s: seq<Hash>): (r: seq<Hash>)
    requires Ascending(s)
    ensures Ascending(r) && multiset(r) == multiset(s) + multiset{x}
    ensures forall y :: y in r ==> y == x || y in s
  {
    if s == [] then [x]
    else if x <= s[0] then
      AscendingCons(x, s);
      [x] + s
    else
      assert s == [s[0]] + s[1..];
      var rest := Insert(x, s[1..]);
      AscendingCons(s[0], rest);
      [s[0]] + rest
  }

  lemma AscendingCons(x: Hash, s: seq<Hash>)
    requires Ascending(s) && forall y :: y in s ==> x <= y
    ensures Ascending([x] + s)
  {
    var r := [x] + s;
    forall i, j | 0 <= i < j < |r| ensures r[i] <= r[j] { assert s[j - 1] in s; }
  }

  lemma SortedInsideIsKids(g: Graph, e: EdgeMap, T: set<Hash>, n: Hash)
    requires EdgesMatch(g, e)
    ensures SortedInside(EdgeList(e, n), T) == Kids(Sub(g, T), n)
  {
    var r := SortedInside(EdgeList(e, n), T);
    forall x ensures multiset(r)[x] == Links(Sub(g, T), x, n) {
      assert multiset(EdgeList(e, n))[x] == Links(g, x, n);
      if x !in g || x !in T { assert Deps(Sub(g, T), x) == []; }
    }
    KidsUnique(Sub(g, T), n, r);
  }

  class HashGraph {
    var vertices: Graph
    var keys: seq<Hash>
    var frontier: seq<Hash>
    var forwardEdges: EdgeMap

    ghost predicate Valid()
      reads this
    {
      && GraphOK(vertices) && Inserted(vertices, keys)
      && IsFrontier(vertices, frontier) && EdgesMatch(vertices, forwardEdges)
    }

    constructor ()
      ensures Valid() && vertices == map[ROOT_HASH := ROOT_VERTEX] && keys == [ROOT_HASH]
    {
      vertices := map[ROOT_HASH := ROOT_VERTEX];
      keys := [ROOT_HASH];
      frontier := [ROOT_HASH];
      forwardEdges := map[ROOT_HASH := []];
      new;
      assert forall a, b :: !Below(vertices, a, b) by {
        forall a, b ensures !Below(vertices, a, b) { BelowLast(vertices, a, b); }
      }
    }

    /** Add a vertex whose dependencies are present. */
    method AddVertex(v: Vertex)
      requires Valid() && v.hash !in vertices
      requires v.dependencies != [] && forall d :: d in v.dependencies ==> d in vertices
      modifies this
      ensures Valid()
      ensures vertices == old(vertices)[v.hash := v] && keys == old(keys) + [v.hash]
    {
      ghost var g := vertices;
      AddOK(g, v);
      InsertedAdd(g, v, keys);
      FrontierAdd(g, v, frontier);
      vertices := vertices[v.hash := v];
      keys := keys + [v.hash];
      frontier := frontier + [v.hash];
      var e := AddEdges(g, v, forwardEdges);
      forwardEdges := e;
      UnseenAppend(frontier[..|frontier| - 1], v.hash, Elems(v.dependencies));
      assert frontier == frontier[..|frontier| - 1] + [v.hash];
      frontier := Unseen(frontier, Elems(v.dependencies));
    }
  }

  lemma {:induction false} UnseenAppend(xs: seq<Hash>, x: Hash, vis: set<Hash>)
    requires x !in vis
    ensures Unseen(xs + [x], vis) == Unseen(xs, vis) + [x]
    decreases |xs|
  {
    if xs == [] {
      assert xs + [x] == [x];
    } else {
      assert (xs + [x])[1..] == xs[1..] + [x];
      UnseenAppend(xs[1..], x, vis);
    }
  }

  /** Push the new vertex onto the list of each of its dependencies. */
  method AddEdges(ghost g: Graph, v: Vertex, edges: EdgeMap) returns (e: EdgeMap)
    requires EdgesMatch(g, edges) && v.hash !in g
    ensures EdgesMatch(g[v.hash := v], e)
  {
    hide *;
    e := edges;
    EdgesStart(g, v, edges);
    for i := 0 to |v.dependencies|
      invariant EdgesPartly(g, v, e, i)
    {
      var dep := v.dependencies[i];
      ghost var before := e;
      if dep !in e { e := e[dep := []]; }
      e := e[dep := e[dep] + [v.hash]];
      EdgesPushed(g, v, before, e, i);
    }
    EdgesDone(g, v, e);
  }

  lemma EdgesStart(g: Graph, v: Vertex, e: EdgeMap)
    requires EdgesMatch(g, e) && v.hash !in g
    ensures EdgesPartly(g, v, e, 0)
  {
    assert Deps(g, v.hash) == [];
  }

  /** The edges after the first `i` dependencies have been linked. */
  ghost predicate EdgesPartly(g: Graph, v: Vertex, e: EdgeMap, i: nat)
    requires i <= |v.dependencies|
  {
    forall d, x :: multiset(EdgeList(e, d))[x]
                   == if x == v.hash then multiset(v.dependencies[..i])[d] else Links(g, x, d)
  }

  lemma EdgesPushed(g: Graph, v: Vertex, before: EdgeMap, e: EdgeMap, i: nat)
    requires i < |v.dependencies| && EdgesPartly(g, v, before, i)
    requires var dep := v.dependencies[i];
             e == (if dep in before then before else before[dep := []])
                  [dep := (if dep in before then before[dep] else []) + [v.hash]]
    ensures EdgesPartly(g, v, e, i + 1)
  {
    assert v.dependencies[..i + 1] == v.dependencies[..i] + [v.dependencies[i]];
    forall d, x ensures multiset(EdgeList(e, d))[x]
                        == if x == v.hash then multiset(v.dependencies[..i + 1])[d] else Links(g, x, d)
    {
      EdgePushed(v, before, e, i, d, x);
      assert multiset(EdgeList(before, d))[x]
             == if x == v.hash then multiset(v.dependencies[..i])[d] else Links(g, x, d);
      hide EdgeList, Links;
    }
  }

  lemma EdgePushed(v: Vertex, before: EdgeMap, e: EdgeMap, i: nat, d: Hash, x: Hash)
    requires i < |v.dependencies|
    requires var dep := v.dependencies[i];
             e == (if dep in before then before else before[dep := []])
                  [dep := (if dep in before then before[dep] else []) + [v.hash]]
    ensures multiset(EdgeList(e, d))[x]
            == multiset(EdgeList(before, d))[x] + if d == v.dependencies[i] && x == v.hash then 1 else 0
  {
    if d == v.dependencies[i] {
      assert EdgeList(e, d) == EdgeList(before, d) + [v.hash];
    } else {
      assert EdgeList(e, d) == EdgeList(before, d);
    }
  }

  lemma EdgesDone(g: Graph, v: Vertex, e: EdgeMap)
    requires v.hash !in g && EdgesPartly(g, v, e, |v.dependencies|)
    ensures EdgesMatch(g[v.hash := v], e)
  {
    assert v.dependencies[..|v.dependencies|] == v.dependencies;
    var t := g[v.hash := v];
    forall d, x ensures multiset(EdgeList(e, d))[x] == Links(t, x, d) {
      if x == v.hash { assert Deps(t, x) == v.dependencies; } else { assert Deps(t, x) == Deps(g, x); }
    }
  }
}
