/**
 Sorting across a causal barrier.

 A prefix `P` of a graph is a barrier when it is closed under dependencies and every other vertex
 descends from every member of `P`.  On a reduced graph the sort of the whole is then the sort of
 the prefix followed by the sort of the suffix started at any one head of the prefix.
 */
module CausalBarrier {
  import opened HashGraphs
  import opened Children
  import opened TopologicalSort

  // ---------------------------------------------------------------- the stack machine at a barrier

  /** Prefix, suffix, heads and one chosen head, with the child functions of the whole (`ft`), of
      the prefix (`fp`) and of the suffix together with the chosen head (`fq`). */
  datatype Parts = Parts(P: set<Hash>, S: set<Hash>, H: set<Hash>, o: Hash, ft: Edges, fp: Edges, fq: Edges) {
    ghost function T(): set<Hash> { P + S }
    ghost function Q(): set<Hash> { S + {o} }

    ghost predicate Typed() {
      && Into(T(), ft) && Into(P, fp) && Into(Q(), fq)
      && P !! S && H <= P && o in H
    }

    ghost predicate Split() {
      && Typed()
      && (forall n :: n in P - H ==> ft(n) == fp(n) && fp(n) != [])
      && (forall n :: n in H ==> fp(n) == [] && ft(n) == fq(o))
      && Within(S, fq(o))
      && (forall n :: n in S ==> ft(n) == fq(n) && Within(S, fq(n)))
    }

    /** What the suffix run writes after the chosen head. */
    ghost function Tail(): Run
      requires Typed()
    {
      assert Within(Q(), fq(o));
      Dfs(Q(), fq, {o}, fq(o))
    }
  }

  lemma {:induction false} UnseenAll(xs: seq<Hash>, vis: set<Hash>)
    requires forall x :: x in xs ==> x !in vis
    ensures Unseen(xs, vis) == xs
    decreases |xs|
  {
    if xs != [] { UnseenAll(xs[1..], vis); }
  }

  lemma {:induction false} UnseenSame(xs: seq<Hash>, u: set<Hash>, v: set<Hash>)
    requires forall x :: x in xs ==> (x in u <==> x in v)
    ensures Unseen(xs, u) == Unseen(xs, v)
    decreases |xs|
  {
    if xs != [] { UnseenSame(xs[1..], u, v); }
  }

  lemma FirstMember(xs: seq<Hash>)
    ensures xs == [] || xs[0] in xs
  {}

  lemma SuffixPush(x: Parts, W: set<Hash>, X: set<Hash>, top: Hash)
    requires x.Split() && W <= x.P && X <= x.S && top in x.S
    ensures Push(x.ft, W + X, top) == Push(x.fq, {x.o} + X, top)
    ensures Within(x.S, Push(x.ft, W + X, top))
  {
    UnseenSame(x.ft(top), W + X + {top}, {x.o} + X + {top});
  }

  /** The whole run and the suffix run agree on what they write and visit. */
  ghost predicate SameSuffix(x: Parts, W: set<Hash>, X: set<Hash>, stack: seq<Hash>)
    requires x.Typed() && Within(x.S, stack)
  {
    var t := Dfs(x.T(), x.ft, W + X, stack);
    var q := Dfs(x.Q(), x.fq, {x.o} + X, stack);
    t.order == q.order && t.seen == W + (q.seen - {x.o})
  }

  lemma SuffixPopped(x: Parts, W: set<Hash>, X: set<Hash>, rest: seq<Hash>, top: Hash)
    requires x.Typed() && Within(x.S, rest) && top in X && top in x.S && SameSuffix(x, W, X, rest)
    ensures Within(x.S, rest + [top]) && SameSuffix(x, W, X, rest + [top])
  {
    DfsPop(x.T(), x.ft, W + X, rest, top);
    DfsPop(x.Q(), x.fq, {x.o} + X, rest, top);
  }

  lemma SuffixPushed(x: Parts, W: set<Hash>, X: set<Hash>, rest: seq<Hash>, top: Hash, kids: seq<Hash>)
    requires x.Typed() && Within(x.S, rest) && top in x.S && W <= x.P && X <= x.S && top !in X
    requires kids == Push(x.ft, W + X, top) == Push(x.fq, {x.o} + X, top)
    requires Within(x.S, rest + [top] + kids) && SameSuffix(x, W, X + {top}, rest + [top] + kids)
    ensures Within(x.S, rest + [top]) && SameSuffix(x, W, X, rest + [top])
  {
    DfsPush(x.T(), x.ft, W + X, rest, top);
    DfsPush(x.Q(), x.fq, {x.o} + X, rest, top);
    assert W + X + {top} == W + (X + {top}) && {x.o} + X + {top} == {x.o} + (X + {top});
  }

  lemma SuffixEmpty(x: Parts, W: set<Hash>, X: set<Hash>)
    requires x.Typed() && X <= x.S
    ensures SameSuffix(x, W, X, [])
  {
    assert ({x.o} + X) - {x.o} == X;
  }

  /** Inside the suffix, the whole run does what the suffix run does. */
  lemma {:induction false} SuffixRun(x: Parts, W: set<Hash>, X: set<Hash>, stack: seq<Hash>)
    requires x.Split() && W <= x.P && X <= x.S && Within(x.S, stack)
    ensures SameSuffix(x, W, X, stack)
    decreases |x.S - X|, |stack|
  {
    hide Dfs, Push, Into, SameSuffix;
    if stack == [] {
      SuffixEmpty(x, W, X);
    } else {
      var rest, top := stack[..|stack| - 1], stack[|stack| - 1];
      assert stack == rest + [top];
      if top in X {
        SuffixRun(x, W, X, rest);
        SuffixPopped(x, W, X, rest, top);
      } else {
        Shrinks(x.S, X, top);
        SuffixPush(x, W, X, top);
        var kids := Push(x.ft, W + X, top);
        SuffixRun(x, W, X + {top}, rest + [top] + kids);
        SuffixPushed(x, W, X, rest, top, kids);
      }
    }
  }

  lemma RestPush(x: Parts, vis: set<Hash>, top: Hash)
    requires x.Split() && vis <= x.P && top in x.P
    ensures Push(x.ft, vis + x.S, top) == Push(x.fp, vis, top)
  {
    if top in x.H {
      var a, b := Push(x.ft, vis + x.S, top), Push(x.fp, vis, top);
      assert forall y :: y in a ==> y in x.fq(x.o) && y !in x.S;
      FirstMember(a);
      assert b == [];
    } else {
      assert Within(x.P, x.fp(top));
      UnseenSame(x.ft(top), vis + x.S + {top}, vis + {top});
    }
  }

  /** Once the suffix is visited, the whole run does what the prefix run does. */
  lemma {:induction false} PrefixRest(x: Parts, vis: set<Hash>, stack: seq<Hash>)
    requires x.Split() && vis <= x.P && Within(x.P, stack)
    ensures Dfs(x.T(), x.ft, vis + x.S, stack).order == Dfs(x.P, x.fp, vis, stack).order
    decreases |x.P - vis|, |stack|
  {
    hide Dfs, Push, Into;
    if stack == [] {
      DfsEmpty(x.T(), x.ft, vis + x.S);
      DfsEmpty(x.P, x.fp, vis);
    } else {
      var rest, top := stack[..|stack| - 1], stack[|stack| - 1];
      assert stack == rest + [top];
      if top in vis {
        PrefixRest(x, vis, rest);
        DfsPop(x.T(), x.ft, vis + x.S, rest, top);
        DfsPop(x.P, x.fp, vis, rest, top);
      } else {
        RestStep(x, vis, rest, top);
        PrefixRest(x, vis + {top}, rest + [top] + Push(x.fp, vis, top));
      }
    }
  }

  lemma RestStep(x: Parts, vis: set<Hash>, rest: seq<Hash>, top: Hash)
    requires x.Split() && vis <= x.P && Within(x.P, rest) && top in x.P && top !in vis
    ensures |x.P - (vis + {top})| < |x.P - vis|
    ensures Within(x.P, rest + [top]) && Within(x.P, rest + [top] + Push(x.fp, vis, top))
    ensures Dfs(x.T(), x.ft, vis + x.S, rest + [top])
            == Dfs(x.T(), x.ft, (vis + {top}) + x.S, rest + [top] + Push(x.fp, vis, top))
    ensures Dfs(x.P, x.fp, vis, rest + [top]) == Dfs(x.P, x.fp, vis + {top}, rest + [top] + Push(x.fp, vis, top))
  {
    hide Dfs, Push, Into;
    Shrinks(x.P, vis, top);
    RestPush(x, vis, top);
    DfsPush(x.T(), x.ft, vis + x.S, rest, top);
    DfsPush(x.P, x.fp, vis, rest, top);
    assert vis + x.S + {top} == (vis + {top}) + x.S;
  }

  /** The whole run writes what the prefix run writes, then the suffix. */
  ghost predicate Appends(x: Parts, vis: set<Hash>, stack: seq<Hash>)
    requires x.Typed() && Within(x.P, stack)
  {
    Dfs(x.T(), x.ft, vis, stack).order == Dfs(x.P, x.fp, vis, stack).order + x.Tail().order
  }

  /** Entering the first head finishes the whole suffix, then the prefix goes on alone. */
  lemma AtHead(x: Parts, vis: set<Hash>, base: seq<Hash>, top: Hash)
    requires x.Split() && x.Tail().seen == x.Q()
    requires vis <= x.P && Within(x.P, base) && top in x.H && top !in vis
    ensures Within(x.P, base + [top]) && Appends(x, vis, base + [top])
  {
    var stack := base + [top];
    var W := vis + {top};
    var K := x.fq(x.o);
    UnseenAll(x.ft(top), W);
    DfsPush(x.T(), x.ft, vis, base, top);
    assert Dfs(x.T(), x.ft, vis, stack) == Dfs(x.T(), x.ft, W, stack + K);
    DfsCompose(x.T(), x.ft, W, stack, K);
    SuffixRun(x, W, {}, K);
    assert W + {} == W && {x.o} + {} == {x.o};
    assert Dfs(x.T(), x.ft, W, K).seen == W + x.S;
    PrefixRest(x, W, stack);
    DfsPush(x.P, x.fp, vis, base, top);
    assert Push(x.fp, vis, top) == [];
    assert stack + [] == stack;
  }

  /** Expanding a prefix vertex that is not a head is the same step in both runs. */
  lemma DescentStep(x: Parts, vis: set<Hash>, base: seq<Hash>, top: Hash)
    requires x.Typed() && vis <= x.P && Within(x.P, base) && top in x.P && top !in vis
    requires x.ft(top) == x.fp(top) && forall c :: c in x.fp(top) ==> c !in vis + {top}
    requires Within(x.P, base + [top] + x.fp(top)) && Appends(x, vis + {top}, base + [top] + x.fp(top))
    ensures Within(x.P, base + [top]) && Appends(x, vis, base + [top])
  {
    UnseenAll(x.fp(top), vis + {top});
    DfsPush(x.T(), x.ft, vis, base, top);
    DfsPush(x.P, x.fp, vis, base, top);
  }

  lemma DescentKids(t: Graph, x: Parts, vis: set<Hash>, top: Hash)
    requires x.Split() && Acyclic(t) && Lists(t, x.ft) && top in x.P - x.H
    requires forall y :: y in vis ==> Below(t, y, top)
    ensures top !in vis && Within(x.P, x.fp(top))
    ensures forall c :: c in x.fp(top) ==> c !in vis + {top}
    ensures forall c, y :: c in x.fp(top) && y in vis + {top} ==> Below(t, y, c)
  {
    forall c | c in x.fp(top)
      ensures c !in vis + {top} && forall y :: y in vis + {top} ==> Below(t, y, c)
    {
      assert c in x.ft(top) && AtMost(t, top, top);
      BelowLast(t, top, c);
      forall y | y in vis ensures Below(t, y, c) { BelowTrans(t, y, top, c); }
    }
  }

  /** From the root the run descends, always to the greatest child, until it meets a head. */
  lemma {:induction false} Descent(t: Graph, x: Parts, vis: set<Hash>, base: seq<Hash>, top: Hash)
    requires x.Split() && x.Tail().seen == x.Q() && Acyclic(t) && Lists(t, x.ft)
    requires vis <= x.P && Within(x.P, base) && top in x.P
    requires forall y :: y in vis ==> Below(t, y, top)
    ensures Within(x.P, base + [top]) && Appends(x, vis, base + [top])
    decreases |x.P - vis|
  {
    assert top !in vis;
    if top in x.H {
      AtHead(x, vis, base, top);
    } else {
      DescentKids(t, x, vis, top);
      var kids := x.fp(top);
      var next := kids[|kids| - 1];
      assert next in kids;
      var base' := base + [top] + kids[..|kids| - 1];
      assert base + [top] + kids == base' + [next];
      Shrinks(x.P, vis, top);
      Descent(t, x, vis + {top}, base', next);
      DescentStep(x, vis, base, top);
    }
  }

  // ---------------------------------------------------------------- graphs

  /** `P` is a causal barrier of `t`. */
  ghost predicate Barrier(t: Graph, P: set<Hash>) {
    && P <= t.Keys && DownClosed(t, P) && ROOT_HASH in P
    && forall x, y :: x in t && x !in P && y in P ==> Below(t, y, x)
  }

  /** A suffix vertex depends on every head of the prefix or on none, and on no other prefix vertex. */
  lemma BarrierLinks(t: Graph, P: set<Hash>, x: Hash, n: Hash, h: Hash)
    requires GraphOK(t) && Reduced(t) && Barrier(t, P)
    requires x in t && x !in P && n in P && n in t[x].dependencies && h in Heads(t, P)
    ensures n in Heads(t, P) && h in t[x].dependencies
  {
    assert Antichain(t, t[x].dependencies);
    HeadLink(t, P, x, n, h);
    if n !in Heads(t, P) {
      var m := HeadAbove(t, P, n);
      HeadLink(t, P, x, n, m);
    }
  }

  /** A head other than a dependency of `x` would lie under one, but dependencies are an antichain. */
  lemma HeadLink(t: Graph, P: set<Hash>, x: Hash, n: Hash, h: Hash)
    requires GraphOK(t) && Barrier(t, P) && x in t && Antichain(t, t[x].dependencies)
    requires x !in P && n in P && n in t[x].dependencies && h in Heads(t, P)
    ensures h in t[x].dependencies
  {
    assert Below(t, h, x);
    BelowLast(t, h, x);
    var d :| d in t[x].dependencies && AtMost(t, h, d);
    assert d !in P ==> Below(t, n, d);
    if d in P && d != h {
      HeadMaximal(t, P, h, d);
    }
  }

  lemma DistinctLinks(t: Graph, x: Hash, n: Hash)
    requires Reduced(t)
    ensures Links(t, x, n) == if x in t && n in Deps(t, x) then 1 else 0
  {
    CountDistinct(Deps(t, x));
    assert n in Deps(t, x) <==> n in multiset(Deps(t, x));
  }

  lemma ReducedKids(t: Graph, n: Hash, q: Graph, m: Hash)
    requires Reduced(t) && Reduced(q)
    requires forall x :: x in t && n in Deps(t, x) <==> x in q && m in Deps(q, x)
    ensures Kids(t, n) == Kids(q, m)
  {
    forall x ensures Links(t, x, n) == Links(q, x, m) { DistinctLinks(t, x, n); DistinctLinks(q, x, m); }
    KidsSame(t, n, q, m);
  }

  ghost function PartsOf(t: Graph, P: set<Hash>, o: Hash): Parts {
    var S := t.Keys - P;
    Parts(P, S, Heads(t, P), o, EdgesOf(t), EdgesOf(Sub(t, P)), EdgesOf(Sub(t, S + {o})))
  }

  /** The three child functions at a barrier. */
  lemma BarrierSplit(t: Graph, P: set<Hash>, o: Hash)
    requires GraphOK(t) && Reduced(t) && Barrier(t, P) && o in Heads(t, P)
    ensures PartsOf(t, P, o).Split()
  {
    var x := PartsOf(t, P, o);
    var S := t.Keys - P;
    var p, q := Sub(t, P), Sub(t, S + {o});
    EdgesInto(t);
    EdgesInto(p);
    EdgesInto(q);
    assert t.Keys == x.T() && p.Keys == P && q.Keys == x.Q();
    forall n | n in P - x.H ensures x.ft(n) == x.fp(n) && x.fp(n) != [] { PrefixKids(t, P, n); }
    forall n | n in x.H ensures x.fp(n) == [] && x.ft(n) == x.fq(o) { HeadKids(t, P, o, n); }
    KidsMembers(q, o);
    forall n | n in S ensures x.ft(n) == x.fq(n) && Within(S, x.fq(n)) { SuffixKids(t, P, o, n); }
  }

  lemma SuffixKids(t: Graph, P: set<Hash>, o: Hash, n: Hash)
    requires GraphOK(t) && Reduced(t) && Barrier(t, P) && o in Heads(t, P) && n in t.Keys - P
    ensures var q := Sub(t, (t.Keys - P) + {o}); Kids(t, n) == Kids(q, n) && Within(t.Keys - P, Kids(q, n))
  {
    var q := Sub(t, (t.Keys - P) + {o});
    ReducedSub(t, (t.Keys - P) + {o});
    assert forall x :: x in P ==> n !in Deps(t, x);
    ReducedKids(t, n, q, n);
    KidsMembers(q, n);
  }

  lemma PrefixKids(t: Graph, P: set<Hash>, n: Hash)
    requires GraphOK(t) && Reduced(t) && Barrier(t, P) && n in P - Heads(t, P)
    ensures Kids(t, n) == Kids(Sub(t, P), n) && Kids(Sub(t, P), n) != []
  {
    var h := HeadAbove(t, P, n);
    forall x | x in t && n in Deps(t, x) ensures x in P {
      if x !in P { BarrierLinks(t, P, x, n, h); }
    }
    ReducedSub(t, P);
    ReducedKids(t, n, Sub(t, P), n);
    KidsMembers(Sub(t, P), n);
    var x :| x in P && n in Deps(t, x);
    assert x in Kids(Sub(t, P), n);
  }

  lemma HeadKids(t: Graph, P: set<Hash>, o: Hash, n: Hash)
    requires GraphOK(t) && Reduced(t) && Barrier(t, P) && o in Heads(t, P) && n in Heads(t, P)
    ensures Kids(Sub(t, P), n) == [] && Kids(t, n) == Kids(Sub(t, (t.Keys - P) + {o}), o)
  {
    var q := Sub(t, (t.Keys - P) + {o});
    ReducedSub(t, (t.Keys - P) + {o});
    forall x ensures x in t && n in Deps(t, x) <==> x in q && o in Deps(q, x) {
      if x in t && x !in P {
        if n in Deps(t, x) { BarrierLinks(t, P, x, n, o); }
        if o in Deps(t, x) { BarrierLinks(t, P, x, o, n); }
      }
    }
    ReducedKids(t, n, q, o);
    KidsMembers(Sub(t, P), n);
    FirstMember(Kids(Sub(t, P), n));
  }

  lemma {:induction false} SuffixSteps(t: Graph, P: set<Hash>, o: Hash, x: Hash, n: nat)
    requires GraphOK(t) && Reduced(t) && Barrier(t, P) && o in Heads(t, P)
    requires x in t && x !in P && Steps(t, o, x, n)
    ensures AtMost(Sub(t, (t.Keys - P) + {o}), o, x)
    decreases n
  {
    var q := Sub(t, (t.Keys - P) + {o});
    var d :| d in Deps(t, x) && Steps(t, o, d, n - 1);
    assert d in Deps(q, x);
    if d in P {
      BarrierLinks(t, P, x, d, o);
      assert o in Deps(q, x) && AtMost(q, o, o);
      BelowLast(q, o, x);
    } else {
      SuffixSteps(t, P, o, d, n - 1);
      BelowLast(q, o, x);
    }
  }

  /** The suffix with one head of the prefix is rooted at that head. */
  lemma SuffixRooted(t: Graph, P: set<Hash>, o: Hash)
    requires GraphOK(t) && Reduced(t) && Barrier(t, P) && o in Heads(t, P)
    ensures RootedAt(Sub(t, (t.Keys - P) + {o}), o)
  {
    var q := Sub(t, (t.Keys - P) + {o});
    forall x | x in q ensures AtMost(q, o, x) {
      if x != o {
        assert x !in P && Below(t, o, x);
        var n: nat :| n > 0 && Steps(t, o, x, n);
        SuffixSteps(t, P, o, x, n);
      }
    }
  }

  lemma RootRooted(t: Graph)
    requires GraphOK(t)
    ensures RootedAt(t, ROOT_HASH)
  {
    forall h | h in t ensures AtMost(t, ROOT_HASH, h) { RootBelow(t, h); }
  }

  /** A run from `o` writes `o` first and then what it writes for the children of `o`. */
  lemma OriginRun(T: set<Hash>, f: Edges, o: Hash)
    requires Into(T, f) && o in T && o !in f(o)
    ensures Within(T, f(o))
    ensures var r := Dfs(T, f, {o}, f(o));
            Dfs(T, f, {}, [o]) == Run([o] + r.order, r.seen)
  {
    UnseenAll(f(o), {o});
    assert {} + {o} == {o} && [] + [o] == [o];
    DfsPush(T, f, {}, [], o);
    assert Push(f, {}, o) == f(o);
    DfsCompose(T, f, {o}, [o], f(o));
    var r := Dfs(T, f, {o}, f(o));
    DfsVisits(T, f, {o}, f(o));
    DfsPop(T, f, r.seen, [], o);
  }

  lemma SuffixOrigin(q: Graph, o: Hash)
    requires Acyclic(q) && RootedAt(q, o)
    ensures var f := EdgesOf(q);
            && Into(q.Keys, f) && Within(q.Keys, f(o))
            && Sort(q, o).order == [o] + Dfs(q.Keys, f, {o}, f(o)).order
            && Dfs(q.Keys, f, {o}, f(o)).seen == q.Keys
  {
    EdgesInto(q);
    assert o !in EdgesOf(q)(o) by {
      assert AtMost(q, o, o);
      BelowLast(q, o, o);
    }
    OriginRun(q.Keys, EdgesOf(q), o);
    SortFills(q, o);
  }

  lemma BarrierRuns(t: Graph, P: set<Hash>, o: Hash, x: Parts)
    requires GraphOK(t) && Reduced(t) && Barrier(t, P) && o in Heads(t, P) && x == PartsOf(t, P, o)
    requires x.Split() && x.Tail().seen == x.Q()
    ensures Within(x.P, [ROOT_HASH]) && Appends(x, {}, [ROOT_HASH])
  {
    EdgesInto(t);
    assert [] + [ROOT_HASH] == [ROOT_HASH];
    Descent(t, x, {}, [], ROOT_HASH);
  }

  lemma PartKeys(t: Graph, P: set<Hash>, o: Hash)
    requires P <= t.Keys && o in P
    ensures var x := PartsOf(t, P, o);
            t.Keys == x.T() && Sub(t, P).Keys == x.P && Sub(t, (t.Keys - P) + {o}).Keys == x.Q()
  {}

  /** The sort of a graph with a barrier is the sort of its prefix followed by the sort of its suffix. */
  lemma BarrierSort(t: Graph, P: set<Hash>, o: Hash)
    requires GraphOK(t) && Reduced(t) && Barrier(t, P) && o in Heads(t, P)
    ensures var q := Sub(t, (t.Keys - P) + {o});
            && Sort(q, o).order != [] && Sort(q, o).order[0] == o
            && Sort(t, ROOT_HASH).order == Sort(Sub(t, P), ROOT_HASH).order + Sort(q, o).order[1..]
  {
    var q := Sub(t, (t.Keys - P) + {o});
    var x := PartsOf(t, P, o);
    BarrierSplit(t, P, o);
    PartKeys(t, P, o);
    SuffixRooted(t, P, o);
    AcyclicSub(t, (t.Keys - P) + {o});
    SuffixOrigin(q, o);
    assert x.Tail() == Dfs(q.Keys, EdgesOf(q), {o}, EdgesOf(q)(o));
    BarrierRuns(t, P, o, x);
  }
}
