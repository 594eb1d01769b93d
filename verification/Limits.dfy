/**
 Where the topological sort stops being one: a graph with a redundant dependency.

 The lemmas on single steps of the sorting machine also evaluate it on other small graphs.
 */
module Limits {
  import opened HashGraphs
  import opened Children
  import opened TopologicalSort
  import opened CausalBarrier
  import opened ReplicaCache

  // ---------------------------------------------------------------- redundant dependencies

  function Node(h: Hash, dependencies: seq<Hash>): Vertex {
    Vertex(h, "peer", Some(Operation(DRP, "op", "")), dependencies, 0)
  }

  /** `b` names the root beside `a`, although `a` is already above the root. */
  function Redundant(c: Hash, b: Hash, a: Hash): Graph {
    START[c := Node(c, [ROOT_HASH])][a := Node(a, [ROOT_HASH])][b := Node(b, [ROOT_HASH, a])]
  }

  ghost predicate Fresh(c: Hash, b: Hash, a: Hash) {
    c < b < a && c != ROOT_HASH && b != ROOT_HASH && a != ROOT_HASH
  }

  lemma RedundantOK(c: Hash, b: Hash, a: Hash)
    requires Fresh(c, b, a)
    ensures GraphOK(Redundant(c, b, a)) && |Redundant(c, b, a)| == 4
  {
    hide GraphOK;
    StartGraph();
    var g1 := START[c := Node(c, [ROOT_HASH])];
    AddOK(START, Node(c, [ROOT_HASH]));
    var g2 := g1[a := Node(a, [ROOT_HASH])];
    AddOK(g1, Node(a, [ROOT_HASH]));
    AddOK(g2, Node(b, [ROOT_HASH, a]));
    assert Redundant(c, b, a).Keys == {ROOT_HASH, c, b, a};
    assert |{ROOT_HASH, c, b, a}| == 4;
  }

  /** Which vertex of the redundant graph names which. */
  lemma RedundantLinks(c: Hash, b: Hash, a: Hash, x: Hash, n: Hash)
    requires Fresh(c, b, a)
    ensures Links(Redundant(c, b, a), x, n)
            == if (n == ROOT_HASH && (x == c || x == b || x == a)) || (n == a && x == b) then 1 else 0
  {
    var g := Redundant(c, b, a);
    assert Deps(g, x) == if x == c || x == a then [ROOT_HASH] else if x == b then [ROOT_HASH, a] else [];
  }

  lemma RedundantKids(c: Hash, b: Hash, a: Hash)
    requires Fresh(c, b, a)
    ensures var g := Redundant(c, b, a);
            Kids(g, ROOT_HASH) == [c, b, a] && Kids(g, c) == [] && Kids(g, b) == [] && Kids(g, a) == [b]
  {
    hide Redundant, Links, Kids;
    var g := Redundant(c, b, a);
    forall x, n
      ensures Links(g, x, n) == if (n == ROOT_HASH && (x == c || x == b || x == a)) || (n == a && x == b) then 1 else 0
    {
      RedundantLinks(c, b, a, x, n);
    }
    KidsUnique(g, ROOT_HASH, [c, b, a]);
    KidsUnique(g, c, []);
    KidsUnique(g, b, []);
    KidsUnique(g, a, [b]);
  }

  /** Expanding a node none of whose children has been seen. */
  lemma Expand(T: set<Hash>, f: Edges, vis: set<Hash>, base: seq<Hash>, top: Hash, kids: seq<Hash>)
    requires Into(T, f) && Within(T, base) && top in T && top !in vis && f(top) == kids
    requires forall x :: x in kids ==> x !in vis && x != top
    ensures Within(T, base + [top] + kids)
    ensures Dfs(T, f, vis, base + [top]) == Dfs(T, f, vis + {top}, base + [top] + kids)
  {
    hide Dfs, Into, Within;
    DfsPush(T, f, vis, base, top);
    UnseenAll(kids, vis + {top});
  }

  /** Expanding a node whose children have all been seen: it is written at once. */
  lemma Close(T: set<Hash>, f: Edges, vis: set<Hash>, base: seq<Hash>, top: Hash, stack: seq<Hash>)
    requires Into(T, f) && Within(T, stack) && stack == base + [top] && top !in vis
    requires forall x :: x in f(top) ==> x in vis + {top}
    ensures Within(T, base) && Dfs(T, f, vis, stack).order == Dfs(T, f, vis + {top}, base).order + [top]
  {
    assert top in stack && forall x :: x in base ==> x in stack;
    hide Dfs, Into;
    DfsPush(T, f, vis, base, top);
    FirstMember(Unseen(f(top), vis + {top}));
    assert Unseen(f(top), vis + {top}) == [];
    assert stack + [] == stack;
    Pop(T, f, vis + {top}, base, top, stack);
  }

  lemma Pop(T: set<Hash>, f: Edges, vis: set<Hash>, base: seq<Hash>, top: Hash, stack: seq<Hash>)
    requires Into(T, f) && Within(T, stack) && stack == base + [top] && top in vis
    ensures Within(T, base) && Dfs(T, f, vis, stack).order == Dfs(T, f, vis, base).order + [top]
  {
    hide Dfs, Into;
    assert top in stack && forall x :: x in base ==> x in stack;
    DfsPop(T, f, vis, base, top);
  }

  lemma RedundantTail(T: set<Hash>, f: Edges, c: Hash, b: Hash, a: Hash, vis: set<Hash>)
    requires Into(T, f) && Within(T, [ROOT_HASH, c, b, a, b]) && f(c) == []
    requires ROOT_HASH in vis && a in vis && b in vis && c !in vis
    ensures Dfs(T, f, vis, [ROOT_HASH, c, b, a, b]).order == [ROOT_HASH, c, b, a, b]
  {
    hide *;
    var R := ROOT_HASH;
    Pop(T, f, vis, [R, c, b, a], b, [R, c, b, a, b]);
    Pop(T, f, vis, [R, c, b], a, [R, c, b, a]);
    Pop(T, f, vis, [R, c], b, [R, c, b]);
    RedundantLast(T, f, c, vis);
    assert [R, c] + [b] + [a] + [b] == [R, c, b, a, b];
  }

  lemma RedundantLast(T: set<Hash>, f: Edges, c: Hash, vis: set<Hash>)
    requires Into(T, f) && Within(T, [ROOT_HASH, c]) && f(c) == [] && ROOT_HASH in vis && c !in vis
    ensures Dfs(T, f, vis, [ROOT_HASH, c]).order == [ROOT_HASH, c]
  {
    var R := ROOT_HASH;
    assert c in [R, c] && R in [R, c] && Within(T, [R]);
    hide *;
    assert [R] + [c] == [R, c] && [R] + [c] + [] == [R, c] && [] + [R] == [R];
    Expand(T, f, vis, [R], c, []);
    Pop(T, f, vis + {c}, [R], c, [R, c]);
    Pop(T, f, vis + {c}, [], R, [R]);
    DfsEmpty(T, f, vis + {c});
  }

  /** The full run writes `b` twice, once in front of its own dependency. */
  lemma RedundantRun(c: Hash, b: Hash, a: Hash)
    requires Fresh(c, b, a)
    ensures Sort(Redundant(c, b, a), ROOT_HASH).order == [ROOT_HASH, c, b, a, b]
  {
    hide *;
    var g, R := Redundant(c, b, a), ROOT_HASH;
    RedundantKids(c, b, a);
    RedundantKeys(c, b, a);
    SortRuns(g, R);
    RedundantHead(g.Keys, EdgesOf(g), c, b, a);
    RedundantTail(g.Keys, EdgesOf(g), c, b, a, {R, a, b});
  }

  lemma RedundantKeys(c: Hash, b: Hash, a: Hash)
    requires Fresh(c, b, a)
    ensures Redundant(c, b, a).Keys == {ROOT_HASH, c, b, a} && c !in {ROOT_HASH, a, b}
  {}

  lemma SortRuns(s: Graph, origin: Hash)
    requires origin in s
    ensures Into(s.Keys, EdgesOf(s)) && Within(s.Keys, [origin])
    ensures Sort(s, origin) == Dfs(s.Keys, EdgesOf(s), {}, [origin])
    ensures forall n :: EdgesOf(s)(n) == Kids(s, n)
  {
    hide Dfs, Kids;
    EdgesInto(s);
  }

  lemma RedundantHead(T: set<Hash>, f: Edges, c: Hash, b: Hash, a: Hash)
    requires Fresh(c, b, a) && Into(T, f) && T == {ROOT_HASH, c, b, a}
    requires f(ROOT_HASH) == [c, b, a] && f(a) == [b] && f(b) == []
    ensures Within(T, [ROOT_HASH]) && Within(T, [ROOT_HASH, c, b, a, b])
    ensures Dfs(T, f, {}, [ROOT_HASH]) == Dfs(T, f, {ROOT_HASH, a, b}, [ROOT_HASH, c, b, a, b])
  {
    var R := ROOT_HASH;
    assert Within(T, [R, c, b, a]) && Within(T, [R, c, b]) && Within(T, []);
    hide *;
    RedundantFirst(T, f, c, b, a);
    assert [R, c, b, a] + [b] == [R, c, b, a, b];
    assert [R, c, b, a] + [b] + [] == [R, c, b, a] + [b];
    Expand(T, f, {R, a}, [R, c, b, a], b, []);
    assert {R, a} + {b} == {R, a, b};
  }

  lemma RedundantFirst(T: set<Hash>, f: Edges, c: Hash, b: Hash, a: Hash)
    requires Fresh(c, b, a) && Into(T, f) && T == {ROOT_HASH, c, b, a}
    requires f(ROOT_HASH) == [c, b, a] && f(a) == [b]
    ensures Within(T, [ROOT_HASH]) && Within(T, [ROOT_HASH, c, b, a, b])
    ensures Dfs(T, f, {}, [ROOT_HASH]) == Dfs(T, f, {ROOT_HASH, a}, [ROOT_HASH, c, b, a, b])
  {
    var R := ROOT_HASH;
    assert Within(T, [R, c, b, a, b]) && Within(T, [R, c, b]) && Within(T, []);
    hide *;
    assert [] + [R] == [R] && [] + [R] + [c, b, a] == [R, c, b] + [a];
    assert [R, c, b] + [a] + [b] == [R, c, b, a, b];
    Expand(T, f, {}, [], R, [c, b, a]);
    assert {} + {R} == {R} && {R} + {a} == {R, a};
    Expand(T, f, {R}, [R, c, b], a, [b]);
  }

  /**
   A valid graph with one redundant dependency: the sort stops when its array is full, loses `c`,
   and returns `b` twice, the first time before its dependency `a`.
   */
  lemma RedundantSort(c: Hash, b: Hash, a: Hash)
    requires Fresh(c, b, a)
    ensures var g := Redundant(c, b, a);
            GraphOK(g) && |Sort(g, ROOT_HASH).order| >= |g| && DfsOrder(g, ROOT_HASH) == [ROOT_HASH, b, a, b]
            && !TopologicalOrder(g, ROOT_HASH, DfsOrder(g, ROOT_HASH))
  {
    hide GraphOK, Sort;
    RedundantOK(c, b, a);
    RedundantRun(c, b, a);
    var full := [ROOT_HASH, c, b, a, b];
    assert full[1..] == [c, b, a, b];
    assert [ROOT_HASH, b, a, b][1] == [ROOT_HASH, b, a, b][3];
  }
}
