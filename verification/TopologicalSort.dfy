/**
 The depth-first topological sort of a sub-graph.

 The program runs one explicit stack.  A node met for the first time is marked and its unvisited
 children are pushed in ascending order; a node met again is written to the result, from the back.
 `Dfs` is that machine run until the stack is empty; the program stops it as soon as the result
 array is full (`DfsOrder`).  The two agree when no vertex is scheduled twice, and that is so when
 every dependency list is a duplicate-free antichain.
 */
module TopologicalSort {
  import opened HashGraphs
  import opened Children

  function Unseen(xs: seq<Hash>, vis: set<Hash>): (r: seq<Hash>)
    ensures forall x :: x in r <==> x in xs && x !in vis
  {
    if xs == [] then [] else
      (if xs[0] in vis then [] else [xs[0]]) + Unseen(xs[1..], vis)
  }

  lemma {:induction false} UnseenDistinct(xs: seq<Hash>, vis: set<Hash>)
    requires Distinct(xs)
    ensures Distinct(Unseen(xs, vis))
    decreases |xs|
  {
    if xs != [] {
      UnseenDistinct(xs[1..], vis);
    }
  }

  ghost predicate Within(T: set<Hash>, xs: seq<Hash>) {
    forall x :: x in xs ==> x in T
  }

  /** Every child is one of the nodes `T`. */
  ghost predicate Into(T: set<Hash>, f: Edges) {
    forall n :: Within(T, f(n))
  }

  datatype Run = Run(order: seq<Hash>, seen: set<Hash>)

  /** What expanding `top` pushes. */
  ghost function Push(f: Edges, vis: set<Hash>, top: Hash): seq<Hash> {
    Unseen(f(top), vis + {top})
  }

  /** Run the machine until its stack is empty: the write order, front to back, and the visited set. */
  ghost function Dfs(T: set<Hash>, f: Edges, vis: set<Hash>, stack: seq<Hash>): Run
    requires Into(T, f) && Within(T, stack)
    decreases |T - vis|, |stack|
  {
    if stack == [] then Run([], vis) else
      var top := stack[|stack| - 1];
      var rest := stack[..|stack| - 1];
      if top in vis then
        var r := Dfs(T, f, vis, rest);
        Run(r.order + [top], r.seen)
      else
        Shrinks(T, vis, top);
        assert Within(T, f(top));
        Dfs(T, f, vis + {top}, stack + Push(f, vis, top))
  }

  lemma Shrinks(T: set<Hash>, vis: set<Hash>, top: Hash)
    requires top in T && top !in vis
    ensures |T - (vis + {top})| < |T - vis|
  {
    assert T - vis == (T - (vis + {top})) + {top};
  }

  lemma PushWithin(T: set<Hash>, f: Edges, vis: set<Hash>, stack: seq<Hash>, top: Hash)
    requires Into(T, f) && Within(T, stack)
    ensures Within(T, stack + Push(f, vis, top))
  {
    assert Within(T, f(top));
  }

  lemma DfsEmpty(T: set<Hash>, f: Edges, vis: set<Hash>)
    requires Into(T, f)
    ensures Dfs(T, f, vis, []) == Run([], vis)
  {}

  lemma DfsPop(T: set<Hash>, f: Edges, vis: set<Hash>, base: seq<Hash>, top: Hash)
    requires Into(T, f) && Within(T, base) && top in T && top in vis
    ensures Within(T, base + [top])
    ensures var r := Dfs(T, f, vis, base); Dfs(T, f, vis, base + [top]) == Run(r.order + [top], r.seen)
  {
    assert (base + [top])[..|base|] == base;
  }

  lemma DfsPush(T: set<Hash>, f: Edges, vis: set<Hash>, base: seq<Hash>, top: Hash)
    requires Into(T, f) && Within(T, base) && top in T && top !in vis
    ensures Within(T, base + [top]) && Within(T, base + [top] + Push(f, vis, top))
    ensures Dfs(T, f, vis, base + [top]) == Dfs(T, f, vis + {top}, base + [top] + Push(f, vis, top))
  {
    PushWithin(T, f, vis, base + [top], top);
  }

  /** Work on top of the stack is finished before the rest is touched. */
  lemma {:induction false} DfsCompose(T: set<Hash>, f: Edges, vis: set<Hash>, base: seq<Hash>, tops: seq<Hash>)
    requires Into(T, f) && Within(T, base) && Within(T, tops)
    ensures Within(T, base + tops)
    ensures var r := Dfs(T, f, vis, tops);
            var q := Dfs(T, f, r.seen, base);
            Dfs(T, f, vis, base + tops) == Run(q.order + r.order, q.seen)
    decreases |T - vis|, |tops|, 0
  {
    if tops == [] {
      assert base + tops == base;
    } else {
      var less, top := tops[..|tops| - 1], tops[|tops| - 1];
      assert tops == less + [top];
      assert base + tops == (base + less) + [top];
      if top in vis {
        ComposePop(T, f, vis, base, less, top);
      } else {
        ComposePush(T, f, vis, base, less, top);
      }
    }
  }

  lemma {:induction false} ComposePop(T: set<Hash>, f: Edges, vis: set<Hash>, base: seq<Hash>, less: seq<Hash>,
                                      top: Hash)
    requires Into(T, f) && Within(T, base) && Within(T, less) && top in T && top in vis
    ensures Within(T, less + [top]) && Within(T, (base + less) + [top])
    ensures var r := Dfs(T, f, vis, less + [top]);
            var q := Dfs(T, f, r.seen, base);
            Dfs(T, f, vis, (base + less) + [top]) == Run(q.order + r.order, q.seen)
    decreases |T - vis|, |less|, 1
  {
    hide Dfs, Into, Within;
    DfsCompose(T, f, vis, base, less);
    DfsPop(T, f, vis, less, top);
    DfsPop(T, f, vis, base + less, top);
    var r := Dfs(T, f, vis, less);
    var q := Dfs(T, f, r.seen, base);
    assert (q.order + r.order) + [top] == q.order + (r.order + [top]);
  }

  lemma {:induction false} ComposePush(T: set<Hash>, f: Edges, vis: set<Hash>, base: seq<Hash>, less: seq<Hash>,
                                       top: Hash)
    requires Into(T, f) && Within(T, base) && Within(T, less) && top in T && top !in vis
    ensures Within(T, less + [top]) && Within(T, (base + less) + [top])
    ensures var r := Dfs(T, f, vis, less + [top]);
            var q := Dfs(T, f, r.seen, base);
            Dfs(T, f, vis, (base + less) + [top]) == Run(q.order + r.order, q.seen)
    decreases |T - vis|, |less|, 1
  {
    hide Dfs, Into, Push;
    Shrinks(T, vis, top);
    var kids := Push(f, vis, top);
    DfsPush(T, f, vis, less, top);
    DfsPush(T, f, vis, base + less, top);
    assert ((base + less) + [top]) + kids == base + (less + [top] + kids);
    DfsCompose(T, f, vis + {top}, base, less + [top] + kids);
  }

  /** What the machine writes and visits, for any child function. */
  lemma {:induction false} DfsVisits(T: set<Hash>, f: Edges, vis: set<Hash>, stack: seq<Hash>)
    requires Into(T, f) && Within(T, stack)
    ensures var r := Dfs(T, f, vis, stack);
            && vis <= r.seen && r.seen <= vis + T
            && (forall h :: h in r.order <==> h in stack || h in r.seen - vis)
            && (forall h :: h in stack ==> h in r.seen)
            && (forall h, c :: h in r.seen - vis && c in f(h) ==> c in r.seen)
    decreases |T - vis|, |stack|
  {
    if stack != [] {
      var top := stack[|stack| - 1];
      var rest := stack[..|stack| - 1];
      assert stack == rest + [top];
      if top in vis {
        DfsVisits(T, f, vis, rest);
      } else {
        Shrinks(T, vis, top);
        PushWithin(T, f, vis, stack, top);
        DfsVisits(T, f, vis + {top}, stack + Push(f, vis, top));
      }
    }
  }

  // ---------------------------------------------------------------- sorting a sub-graph

  lemma EdgesInto(s: Graph)
    ensures Into(s.Keys, EdgesOf(s))
    ensures Lists(s, EdgesOf(s))
  {
    EdgesList(s);
  }

  ghost predicate RootedAt(s: Graph, origin: Hash) {
    origin in s && forall h :: h in s ==> AtMost(s, origin, h)
  }

  /** The full run of the machine on `s` from `origin`. */
  ghost function Sort(s: Graph, origin: Hash): Run
    requires origin in s
  {
    EdgesInto(s);
    Dfs(s.Keys, EdgesOf(s), {}, [origin])
  }

  /** The order the program returns: the last |s| writes, with the origin put back if it fell off. */
  ghost function DfsOrder(s: Graph, origin: Hash): seq<Hash>
    requires origin in s && |Sort(s, origin).order| >= |s|
  {
    var full := Sort(s, origin).order;
    var r := full[|full| - |s|..];
    if origin in r then r else r[0 := origin]
  }

  lemma SortVisits(s: Graph, origin: Hash)
    requires origin in s
    ensures origin in Sort(s, origin).seen
    ensures Sort(s, origin).seen <= s.Keys
    ensures forall h :: h in Sort(s, origin).order <==> h in Sort(s, origin).seen
    ensures forall h, c :: h in Sort(s, origin).seen && c in s && h in Deps(s, c) ==> c in Sort(s, origin).seen
  {
    EdgesInto(s);
    var f := EdgesOf(s);
    DfsVisits(s.Keys, f, {}, [origin]);
    var r := Dfs(s.Keys, f, {}, [origin]);
    assert origin in [origin];
    forall h, c | h in r.seen && c in s && h in Deps(s, c) ensures c in r.seen {
      assert c in f(h);
    }
  }

  /** A set that holds the origin and is closed under children holds everything above the origin. */
  lemma {:induction false} UpwardReach(s: Graph, X: set<Hash>, origin: Hash, h: Hash, n: nat)
    requires origin in X && forall d, c :: d in X && c in s && d in Deps(s, c) ==> c in X
    requires Steps(s, origin, h, n)
    ensures h in X
    decreases n
  {
    if n > 0 {
      var d :| d in Deps(s, h) && Steps(s, origin, d, n - 1);
      UpwardReach(s, X, origin, d, n - 1);
    }
  }

  lemma {:induction false} CoverSize(xs: seq<Hash>, T: set<Hash>)
    requires forall x :: x in T ==> x in xs
    ensures |T| <= |xs|
    decreases |xs|
  {
    if xs == [] {
      assert T == {};
    } else {
      CoverSize(xs[1..], T - {xs[0]});
      assert T <= (T - {xs[0]}) + {xs[0]};
    }
  }

  lemma {:induction false} DistinctSize(xs: seq<Hash>, T: set<Hash>)
    requires Distinct(xs) && forall x :: x in xs <==> x in T
    ensures |T| == |xs|
    decreases |xs|
  {
    if xs == [] {
      assert T == {};
    } else {
      assert xs == [xs[0]] + xs[1..];
      DistinctSize(xs[1..], T - {xs[0]});
      assert xs[0] in T;
    }
  }

  /** The stack never runs dry before the result array is full. */
  lemma SortFills(s: Graph, origin: Hash)
    requires RootedAt(s, origin)
    ensures Sort(s, origin).seen == s.Keys
    ensures forall h :: h in Sort(s, origin).order <==> h in s
    ensures |Sort(s, origin).order| >= |s|
  {
    hide Sort, Deps;
    var r := Sort(s, origin);
    SortVisits(s, origin);
    forall h | h in s ensures h in r.seen {
      AtMostSteps(s, origin, h);
      var n: nat :| Steps(s, origin, h, n);
      UpwardReach(s, r.seen, origin, h, n);
    }
    CoverSize(r.order, s.Keys);
  }

  // ---------------------------------------------------------------- reduced graphs

  /** No entry of `order` depends on a later one. */
  ghost predicate Topological(s: Graph, order: seq<Hash>) {
    forall i, j :: 0 <= i < j < |order| ==> order[j] !in Deps(s, order[i])
  }

  /** Visited entries are a causal path; an unvisited one was pushed by a node on that path. */
  ghost predicate PathStack(s: Graph, vis: set<Hash>, stack: seq<Hash>) {
    forall i, j :: 0 <= i < j < |stack| ==> Pushed(s, vis, stack[i], stack[j])
  }

  ghost predicate Pushed(s: Graph, vis: set<Hash>, low: Hash, high: Hash) {
    if low in vis then Below(s, low, high)
    else exists p :: p in Deps(s, low) && Below(s, p, high)
  }

  /** The children of a visited entry are visited or wait above it. */
  ghost predicate KidsPending(f: Edges, vis: set<Hash>, stack: seq<Hash>) {
    forall i, c :: 0 <= i < |stack| && stack[i] in vis && c in f(stack[i])
                   ==> c in vis || c in stack[i + 1..]
  }

  ghost predicate StackOK(s: Graph, f: Edges, vis: set<Hash>, stack: seq<Hash>) {
    && Within(s.Keys, stack) && Distinct(stack)
    && PathStack(s, vis, stack) && KidsPending(f, vis, stack)
  }

  /** A graph whose sort schedules nothing twice, with its child function. */
  ghost predicate Sortable(s: Graph, f: Edges) {
    && Acyclic(s) && Reduced(s) && Lists(s, f) && Into(s.Keys, f)
    && forall n :: Distinct(f(n))
  }

  lemma StackPop(s: Graph, f: Edges, vis: set<Hash>, stack: seq<Hash>)
    requires StackOK(s, f, vis, stack) && stack != [] && stack[|stack| - 1] in vis
    ensures StackOK(s, f, vis, stack[..|stack| - 1])
  {
    var m := |stack| - 1;
    var rest := stack[..m];
    forall i, c | 0 <= i < m && rest[i] in vis && c in f(rest[i])
      ensures c in vis || c in rest[i + 1..]
    {
      assert stack[i + 1..] == rest[i + 1..] + [stack[m]];
      assert c in vis || c in stack[i + 1..];
    }
  }

  /** Pushing the unvisited children of an unvisited top schedules nothing twice. */
  lemma PushFresh(s: Graph, f: Edges, vis: set<Hash>, stack: seq<Hash>, top: Hash)
    requires Sortable(s, f) && StackOK(s, f, vis, stack)
    requires stack != [] && stack[|stack| - 1] == top && top !in vis
    ensures Distinct(stack + Push(f, vis, top))
  {
    var kids := Push(f, vis, top);
    UnseenDistinct(f(top), vis + {top});
    forall i | 0 <= i < |stack| ensures stack[i] !in kids {
      assert i < |stack| - 1 ==> Pushed(s, vis, stack[i], top);
      assert Antichain(s, s[stack[i]].dependencies);
    }
  }

  lemma PushPath(s: Graph, vis: set<Hash>, stack: seq<Hash>, top: Hash, kids: seq<Hash>)
    requires PathStack(s, vis, stack) && Distinct(stack)
    requires stack != [] && top == stack[|stack| - 1] && top !in vis
    requires forall c :: c in kids ==> top in Deps(s, c) && c !in vis && c != top
    ensures PathStack(s, vis + {top}, stack + kids)
  {
    var m := |stack| - 1;
    var st := stack + kids;
    forall i, j | 0 <= i < j < |st| ensures Pushed(s, vis + {top}, st[i], st[j]) {
      if j < |stack| {
        assert Pushed(s, vis, stack[i], stack[j]);
      } else {
        assert st[j] in kids;
        assert AtMost(s, top, top);
        BelowLast(s, top, st[j]);
        if i < m {
          assert Pushed(s, vis, stack[i], stack[m]);
          if st[i] in vis {
            BelowTrans(s, st[i], top, st[j]);
          } else {
            var p :| p in Deps(s, st[i]) && Below(s, p, top);
            BelowTrans(s, p, top, st[j]);
          }
        } else if i > m {
          assert st[i] in kids;
        }
      }
    }
  }

  lemma PushPending(f: Edges, vis: set<Hash>, stack: seq<Hash>, top: Hash)
    requires KidsPending(f, vis, stack) && Distinct(stack)
    requires stack != [] && top == stack[|stack| - 1]
    ensures KidsPending(f, vis + {top}, stack + Push(f, vis, top))
  {
    var m := |stack| - 1;
    var kids := Push(f, vis, top);
    var st := stack + kids;
    forall i, c | 0 <= i < |st| && st[i] in vis + {top} && c in f(st[i])
      ensures c in vis + {top} || c in st[i + 1..]
    {
      if i == m {
        assert st[i + 1..] == kids;
      } else if i < m {
        assert st[i + 1..] == stack[i + 1..] + kids;
        assert c in vis || c in stack[i + 1..];
      }
    }
  }

  lemma StackPush(s: Graph, f: Edges, vis: set<Hash>, stack: seq<Hash>, top: Hash)
    requires Sortable(s, f) && StackOK(s, f, vis, stack)
    requires stack != [] && stack[|stack| - 1] == top && top !in vis
    ensures StackOK(s, f, vis + {top}, stack + Push(f, vis, top))
  {
    PushFresh(s, f, vis, stack, top);
    PushPath(s, vis, stack, top, Push(f, vis, top));
    PushPending(f, vis, stack, top);
    PushWithin(s.Keys, f, vis, stack, top);
  }

  /** A popped node has no child among the nodes written before it. */
  lemma PopTopological(s: Graph, f: Edges, vis: set<Hash>, stack: seq<Hash>, top: Hash)
    requires Sortable(s, f) && StackOK(s, f, vis, stack)
    requires stack != [] && stack[|stack| - 1] == top && top in vis
    ensures forall x :: x in Dfs(s.Keys, f, vis, stack[..|stack| - 1]).order ==> x != top && top !in Deps(s, x)
  {
    var m := |stack| - 1;
    var rest := stack[..m];
    DfsVisits(s.Keys, f, vis, rest);
    forall x | x in Dfs(s.Keys, f, vis, rest).order ensures x != top && top !in Deps(s, x) {
      assert top !in rest;
      if top in Deps(s, x) {
        assert x in f(stack[m]);
        assert stack[m + 1..] == [];
        assert x in vis && x in rest;
        var i :| 0 <= i < m && rest[i] == x;
        assert Pushed(s, vis, stack[i], stack[m]);
        assert AtMost(s, top, top);
        BelowLast(s, top, x);
        BelowTrans(s, x, top, x);
        assert false;
      }
    }
  }

  lemma {:induction false} DfsSorted(s: Graph, f: Edges, vis: set<Hash>, stack: seq<Hash>)
    requires Sortable(s, f) && StackOK(s, f, vis, stack)
    ensures Distinct(Dfs(s.Keys, f, vis, stack).order) && Topological(s, Dfs(s.Keys, f, vis, stack).order)
    decreases |s.Keys - vis|, |stack|
  {
    if stack != [] {
      var top := stack[|stack| - 1];
      if top in vis {
        StackPop(s, f, vis, stack);
        PopTopological(s, f, vis, stack, top);
        DfsSorted(s, f, vis, stack[..|stack| - 1]);
      } else {
        StackPush(s, f, vis, stack, top);
        Shrinks(s.Keys, vis, top);
        DfsSorted(s, f, vis + {top}, stack + Push(f, vis, top));
      }
    }
  }

  /** `order` lists every member of `s` once, dependencies first, starting at `origin`. */
  ghost predicate TopologicalOrder(s: Graph, origin: Hash, order: seq<Hash>) {
    && Distinct(order) && (forall h :: h in order <==> h in s)
    && Topological(s, order)
    && |order| == |s| && order != [] && order[0] == origin
  }

  /** The first entry of a topological order is the origin: every other member depends on a member. */
  lemma OriginFirst(s: Graph, order: seq<Hash>, origin: Hash)
    requires Acyclic(s) && RootedAt(s, origin) && Topological(s, order)
    requires forall h :: h in order <==> h in s
    ensures order != [] && order[0] == origin
  {
    assert origin in order;
    var h := order[0];
    if h != origin {
      BelowLast(s, origin, h);
      var d :| d in Deps(s, h) && AtMost(s, origin, d);
      assert d in s by { if d != origin { BelowLast(s, origin, d); } }
      var j :| 0 <= j < |order| && order[j] == d;
      assert AtMost(s, d, d);
      BelowLast(s, d, h);
    }
  }

  lemma SortSorted(s: Graph, origin: Hash)
    requires Acyclic(s) && Reduced(s) && origin in s
    ensures Distinct(Sort(s, origin).order) && Topological(s, Sort(s, origin).order)
  {
    EdgesInto(s);
    forall n ensures Distinct(EdgesOf(s)(n)) { KidsDistinct(s, n); }
    hide Acyclic, Reduced, Lists, Into;
    DfsSorted(s, EdgesOf(s), {}, [origin]);
  }

  /**
   On a reduced graph the sort is a topological order of exactly the sub-graph, and stopping when
   the array is full loses nothing.
   */
  lemma SortIsTopological(s: Graph, origin: Hash)
    requires Acyclic(s) && Reduced(s) && RootedAt(s, origin)
    ensures |Sort(s, origin).order| >= |s|
    ensures DfsOrder(s, origin) == Sort(s, origin).order
    ensures TopologicalOrder(s, origin, DfsOrder(s, origin))
  {
    assert origin in s;
    hide Sort, Acyclic, Reduced, RootedAt, Distinct, Topological, Below;
    SortFills(s, origin);
    SortSorted(s, origin);
    var order := Sort(s, origin).order;
    DistinctSize(order, s.Keys);
    assert order[|order| - |s|..] == order;
    OriginFirst(s, order, origin);
  }
}
