/**
 Vertices, hash graphs and their causal order.

 A hash graph is a finite map from hashes to vertices.  `Below(g, a, b)` is the strict causal
 order: some chain of dependencies leads from `b` back to `a`.  Replicas and the replay code work
 on sub-maps of one such graph, so everything here is stated for arbitrary maps and specialised
 with `GraphOK` where well-formedness matters.
 */
module HashGraphs {

  datatype Option<+T> = None | Some(value: T)

  /** A digest.  The program sorts 64-digit lower-case hexadecimal strings, whose order is the
      order of the numbers they spell. */
  type Hash = nat

  const ROOT_HASH: Hash := 0x425d2b1f5243dbf23c685078034b06fbfa71dc31dcce30f614e28023f140ff13

  /** `drpType` is a string on the wire; only "ACL" and "DRP" mean something. */
  datatype DrpType = ACL | DRP | OtherType

  datatype Operation = Operation(drpType: DrpType, opType: string, value: string)

  /** The operation type of the root vertex. */
  const NOP: string := "-1"

  datatype Vertex = Vertex(hash: Hash, peerId: string, operation: Option<Operation>,
                           dependencies: seq<Hash>, timestamp: int)

  type Graph = map<Hash, Vertex>

  const ROOT_VERTEX: Vertex := Vertex(ROOT_HASH, "", Some(Operation(OtherType, NOP, "")), [], -1)

  function Deps(g: Graph, h: Hash): seq<Hash> {
    if h in g then g[h].dependencies else []
  }

  /** The vertices of `g` whose hash is in `T`. */
  function Sub(g: Graph, T: set<Hash>): Graph {
    map h | h in g && h in T :: g[h]
  }

  // ---------------------------------------------------------------- causal order

  /** Exactly `n` dependency links lead from `b` back to `a`. */
  ghost predicate Steps(g: Graph, a: Hash, b: Hash, n: nat)
    decreases n
  {
    if n == 0 then a == b else exists d :: d in Deps(g, b) && Steps(g, a, d, n - 1)
  }

  /** `a` is a proper ancestor of `b`. */
  ghost predicate Below(g: Graph, a: Hash, b: Hash) {
    exists n: nat :: n > 0 && Steps(g, a, b, n)
  }

  ghost predicate AtMost(g: Graph, a: Hash, b: Hash) {
    a == b || Below(g, a, b)
  }

  lemma AtMostSteps(g: Graph, a: Hash, b: Hash)
    ensures AtMost(g, a, b) <==> exists n: nat :: Steps(g, a, b, n)
  {
    if AtMost(g, a, b) {
      if a == b {
        assert Steps(g, a, b, 0);
      } else {
        var n: nat :| n > 0 && Steps(g, a, b, n);
        assert Steps(g, a, b, n);
      }
    }
  }

  /** The last link of a causal chain. */
  lemma BelowLast(g: Graph, a: Hash, b: Hash)
    ensures Below(g, a, b) <==> exists d :: d in Deps(g, b) && AtMost(g, a, d)
  {
    if Below(g, a, b) {
      var n: nat :| n > 0 && Steps(g, a, b, n);
      var d :| d in Deps(g, b) && Steps(g, a, d, n - 1);
      AtMostSteps(g, a, d);
    }
    if d :| d in Deps(g, b) && AtMost(g, a, d) {
      AtMostSteps(g, a, d);
      var n: nat :| Steps(g, a, d, n);
      assert Steps(g, a, b, n + 1);
    }
  }

  lemma {:induction false} StepsConcat(g: Graph, a: Hash, b: Hash, c: Hash, m: nat, n: nat)
    requires Steps(g, a, b, m) && Steps(g, b, c, n)
    ensures Steps(g, a, c, m + n)
    decreases n
  {
    if n > 0 {
      var d :| d in Deps(g, c) && Steps(g, b, d, n - 1);
      StepsConcat(g, a, b, d, m, n - 1);
      assert Steps(g, a, d, m + n - 1);
    }
  }

  lemma BelowTrans(g: Graph, a: Hash, b: Hash, c: Hash)
    requires AtMost(g, a, b) && AtMost(g, b, c)
    ensures AtMost(g, a, c)
    ensures Below(g, a, b) || Below(g, b, c) ==> Below(g, a, c)
  {
    if a != b && b != c {
      var m: nat :| m > 0 && Steps(g, a, b, m);
      var n: nat :| n > 0 && Steps(g, b, c, n);
      StepsConcat(g, a, b, c, m, n);
    }
  }

  /** The first link of a causal chain. */
  lemma {:induction false} StepsFirst(g: Graph, a: Hash, b: Hash, n: nat) returns (c: Hash)
    requires n > 0 && Steps(g, a, b, n)
    ensures a in Deps(g, c) && Steps(g, c, b, n - 1)
    decreases n
  {
    var d :| d in Deps(g, b) && Steps(g, a, d, n - 1);
    if n == 1 {
      c := b;
    } else {
      c := StepsFirst(g, a, d, n - 1);
      assert Steps(g, c, b, n - 1);
    }
  }

  lemma BelowFirst(g: Graph, a: Hash, b: Hash) returns (c: Hash)
    requires Below(g, a, b)
    ensures a in Deps(g, c) && AtMost(g, c, b)
  {
    var n: nat :| n > 0 && Steps(g, a, b, n);
    c := StepsFirst(g, a, b, n);
    AtMostSteps(g, c, b);
  }

  /** A sub-map only has chains of the whole map. */
  lemma {:induction false} StepsSub(g: Graph, T: set<Hash>, a: Hash, b: Hash, n: nat)
    requires Steps(Sub(g, T), a, b, n)
    ensures Steps(g, a, b, n)
    decreases n
  {
    if n > 0 {
      var d :| d in Deps(Sub(g, T), b) && Steps(Sub(g, T), a, d, n - 1);
      StepsSub(g, T, a, d, n - 1);
      assert d in Deps(g, b);
    }
  }

  lemma BelowSub(g: Graph, T: set<Hash>, a: Hash, b: Hash)
    requires Below(Sub(g, T), a, b)
    ensures Below(g, a, b)
  {
    var n: nat :| n > 0 && Steps(Sub(g, T), a, b, n);
    StepsSub(g, T, a, b, n);
  }

  // ---------------------------------------------------------------- well-formed graphs

  ghost predicate Acyclic(g: Graph) {
    forall h :: !Below(g, h, h)
  }

  /** Every dependency of a member is a member. */
  ghost predicate Closed(g: Graph) {
    forall h, d :: h in g && d in g[h].dependencies ==> d in g
  }

  ghost predicate GraphOK(g: Graph) {
    && ROOT_HASH in g && g[ROOT_HASH] == ROOT_VERTEX
    && (forall h :: h in g ==> g[h].hash == h)
    && (forall h :: h in g && h != ROOT_HASH ==> g[h].dependencies != [])
    && Closed(g)
    && Acyclic(g)
  }

  predicate Distinct(s: seq<Hash>) {
    forall i, j :: 0 <= i < j < |s| ==> s[i] != s[j]
  }

  /** No member of `D` is causally below another. */
  ghost predicate Antichain(g: Graph, D: seq<Hash>) {
    forall p, q :: p in D && q in D ==> !Below(g, p, q)
  }

  /**
   Every dependency list is a duplicate-free antichain.  Vertices minted by a replica depend on its
   whole frontier and always satisfy this; vertex validation does not enforce it.
   */
  ghost predicate Reduced(g: Graph) {
    forall h :: h in g ==> Distinct(g[h].dependencies) && Antichain(g, g[h].dependencies)
  }

  lemma ReducedSub(g: Graph, T: set<Hash>)
    requires Reduced(g)
    ensures Reduced(Sub(g, T))
  {
    forall h | h in Sub(g, T) ensures Antichain(Sub(g, T), g[h].dependencies) {
      forall p, q | p in g[h].dependencies && q in g[h].dependencies && Below(Sub(g, T), p, q)
        ensures false
      {
        assert Antichain(g, g[h].dependencies);
        BelowSub(g, T, p, q);
      }
    }
  }

  lemma AcyclicSub(g: Graph, T: set<Hash>)
    requires Acyclic(g)
    ensures Acyclic(Sub(g, T))
  {
    forall h | Below(Sub(g, T), h, h) ensures false { BelowSub(g, T, h, h); }
  }

  // ---------------------------------------------------------------- pasts

  /** The causal past of a set of hashes, themselves included. */
  ghost function Past(g: Graph, D: set<Hash>): set<Hash> {
    set h | h in g && exists d :: d in D && AtMost(g, h, d)
  }

  ghost predicate DownClosed(g: Graph, T: set<Hash>) {
    forall h, d :: h in T && d in Deps(g, h) ==> d in T
  }

  lemma PastClosed(g: Graph, D: set<Hash>)
    requires Closed(g)
    ensures DownClosed(g, Past(g, D))
    ensures forall h :: h in D && h in g ==> h in Past(g, D)
  {
    forall h, d | h in Past(g, D) && d in Deps(g, h) ensures d in Past(g, D) {
      var x :| x in D && AtMost(g, h, x);
      assert AtMost(g, d, d);
      BelowLast(g, d, h);
      BelowTrans(g, d, h, x);
    }
  }

  lemma {:induction false} StepsIntoClosed(g: Graph, T: set<Hash>, a: Hash, b: Hash, n: nat)
    requires DownClosed(g, T) && b in T && b in g && Closed(g)
    requires Steps(g, a, b, n)
    ensures a in T && a in g && Steps(Sub(g, T), a, b, n)
    decreases n
  {
    if n > 0 {
      var d :| d in Deps(g, b) && Steps(g, a, d, n - 1);
      StepsIntoClosed(g, T, a, d, n - 1);
      assert d in Deps(Sub(g, T), b);
    }
  }

  /** Inside a downward-closed set the causal order is the order of the whole graph. */
  lemma BelowInClosed(g: Graph, T: set<Hash>, a: Hash, b: Hash)
    requires Closed(g) && DownClosed(g, T) && b in T && b in g
    ensures Below(Sub(g, T), a, b) <==> Below(g, a, b)
    ensures AtMost(g, a, b) ==> a in T && a in g
  {
    if Below(g, a, b) {
      var n: nat :| n > 0 && Steps(g, a, b, n);
      StepsIntoClosed(g, T, a, b, n);
    }
    if Below(Sub(g, T), a, b) { BelowSub(g, T, a, b); }
  }

  lemma BelowMember(g: Graph, a: Hash, b: Hash)
    requires Closed(g) && b in g && AtMost(g, a, b)
    ensures a in g
  {
    BelowInClosed(g, g.Keys, a, b);
  }

  /** A past is a well-formed graph when it holds the root. */
  lemma SubOK(g: Graph, T: set<Hash>)
    requires GraphOK(g) && DownClosed(g, T) && ROOT_HASH in T
    ensures GraphOK(Sub(g, T))
  {
    AcyclicSub(g, T);
  }

  ghost function Ancestors(g: Graph, b: Hash): set<Hash> {
    set a | a in g && Below(g, a, b)
  }

  lemma AncestorsShrink(g: Graph, d: Hash, h: Hash)
    requires GraphOK(g) && h in g && d in g[h].dependencies
    ensures Below(g, d, h) && Ancestors(g, d) < Ancestors(g, h)
  {
    assert AtMost(g, d, d);
    BelowLast(g, d, h);
    forall x | x in Ancestors(g, d) ensures x in Ancestors(g, h) { BelowTrans(g, x, d, h); }
    assert d in Ancestors(g, h) && d !in Ancestors(g, d);
  }

  lemma SmallerSet<T>(a: set<T>, b: set<T>)
    requires a < b
    ensures |a| < |b|
  {
    assert |b - a| > 0;
    assert b == a + (b - a);
  }

  /** Every vertex descends from the root. */
  lemma {:induction false} RootBelow(g: Graph, h: Hash)
    requires GraphOK(g) && h in g
    ensures AtMost(g, ROOT_HASH, h)
    decreases |Ancestors(g, h)|
  {
    if h != ROOT_HASH {
      var d := g[h].dependencies[0];
      AncestorsShrink(g, d, h);
      SmallerSet(Ancestors(g, d), Ancestors(g, h));
      RootBelow(g, d);
      BelowTrans(g, ROOT_HASH, d, h);
    }
  }

  /** The members of `T` that no member of `T` depends on. */
  ghost function Heads(g: Graph, T: set<Hash>): set<Hash> {
    set h | h in T && forall x :: x in T ==> h !in Deps(g, x)
  }

  ghost function Above(g: Graph, T: set<Hash>, h: Hash): set<Hash> {
    set x | x in T && Below(g, h, x)
  }

  /** Every member of a finite set of vertices is below some head of the set. */
  lemma {:induction false} HeadAbove(g: Graph, T: set<Hash>, h: Hash) returns (head: Hash)
    requires Acyclic(g) && h in T
    ensures head in Heads(g, T) && AtMost(g, h, head)
    decreases |Above(g, T, h)|
  {
    if h in Heads(g, T) {
      head := h;
    } else {
      var x :| x in T && h in Deps(g, x);
      assert AtMost(g, h, h);
      BelowLast(g, h, x);
      forall y | y in Above(g, T, x) ensures y in Above(g, T, h) { BelowTrans(g, h, x, y); }
      assert x in Above(g, T, h) && x !in Above(g, T, x);
      SmallerSet(Above(g, T, x), Above(g, T, h));
      head := HeadAbove(g, T, x);
      BelowTrans(g, h, x, head);
    }
  }

  /** In a downward-closed set nothing is above a head. */
  lemma HeadMaximal(g: Graph, T: set<Hash>, h: Hash, x: Hash)
    requires Closed(g) && DownClosed(g, T) && T <= g.Keys
    requires h in Heads(g, T) && x in T
    ensures !Below(g, h, x)
  {
    if Below(g, h, x) {
      var c := BelowFirst(g, h, x);
      BelowInClosed(g, T, c, x);
    }
  }

  // ---------------------------------------------------------------- adding a vertex

  lemma {:induction false} StepsAdd(g: Graph, v: Vertex, a: Hash, b: Hash, n: nat)
    requires Closed(g) && b in g && v.hash !in g
    ensures Steps(g[v.hash := v], a, b, n) <==> Steps(g, a, b, n)
    decreases n
  {
    var g' := g[v.hash := v];
    if n > 0 {
      assert Deps(g', b) == Deps(g, b);
      forall d | d in Deps(g, b) ensures Steps(g', a, d, n - 1) <==> Steps(g, a, d, n - 1) {
        StepsAdd(g, v, a, d, n - 1);
      }
    }
  }

  /** Adding a vertex leaves the order of the present vertices alone. */
  lemma BelowAdd(g: Graph, v: Vertex, a: Hash, b: Hash)
    requires Closed(g) && b in g && v.hash !in g
    ensures Below(g[v.hash := v], a, b) <==> Below(g, a, b)
  {
    if Below(g, a, b) {
      var n: nat :| n > 0 && Steps(g, a, b, n);
      StepsAdd(g, v, a, b, n);
    }
    if Below(g[v.hash := v], a, b) {
      var n: nat :| n > 0 && Steps(g[v.hash := v], a, b, n);
      StepsAdd(g, v, a, b, n);
    }
  }

  /** ... and places the new one above exactly the past of its dependencies. */
  lemma BelowNew(g: Graph, v: Vertex, a: Hash)
    requires Closed(g) && v.hash !in g && forall d :: d in v.dependencies ==> d in g
    ensures Below(g[v.hash := v], a, v.hash) <==> exists d :: d in v.dependencies && AtMost(g, a, d)
  {
    var g' := g[v.hash := v];
    BelowLast(g', a, v.hash);
    forall d | d in v.dependencies ensures AtMost(g', a, d) <==> AtMost(g, a, d) { BelowAdd(g, v, a, d); }
  }

  lemma AddOK(g: Graph, v: Vertex)
    requires GraphOK(g) && v.hash !in g
    requires v.dependencies != [] && forall d :: d in v.dependencies ==> d in g
    ensures GraphOK(g[v.hash := v])
  {
    var g' := g[v.hash := v];
    forall h | Below(g', h, h) ensures false {
      if h in g {
        BelowAdd(g, v, h, h);
      } else if h == v.hash {
        BelowNew(g, v, h);
        var d :| d in v.dependencies && AtMost(g, h, d);
        BelowMember(g, h, d);
      } else {
        BelowLast(g', h, h);
      }
    }
  }

  lemma PastAdd(g: Graph, v: Vertex, D: set<Hash>)
    requires Closed(g) && v.hash !in g && D <= g.Keys
    ensures Past(g[v.hash := v], D) == Past(g, D)
    ensures Sub(g[v.hash := v], Past(g, D)) == Sub(g, Past(g, D))
  {
    var g' := g[v.hash := v];
    forall h, d | d in D ensures AtMost(g', h, d) <==> AtMost(g, h, d) { BelowAdd(g, v, h, d); }
    forall h | h in Past(g', D) ensures h in Past(g, D) {
      var d :| d in D && AtMost(g', h, d);
      BelowMember(g, h, d);
    }
    forall h | h in Past(g, D) ensures h in Past(g', D) {
      var d :| d in D && AtMost(g, h, d);
      assert AtMost(g', h, d);
    }
    assert v.hash !in Past(g, D);
  }
}
