/** The sorted forward edges of a sub-graph. */
module Children {
  import opened HashGraphs

  ghost predicate Ascending(s: seq<Hash>) {
    forall i, j :: 0 <= i < j < |s| ==> s[i] <= s[j]
  }

  ghost function Least(T: set<Hash>): (m: Hash)
    requires T != {}
    ensures m in T && forall x :: x in T ==> m <= x
  {
    var x :| x in T;
    if T == {x} then x else
      var m := Least(T - {x});
      assert forall y :: y in T ==> y == x || y in T - {x};
      if x <= m then x else m
  }

  ghost function SortedKeys(T: set<Hash>): (r: seq<Hash>)
    ensures forall x :: x in r <==> x in T
    ensures Ascending(r) && Distinct(r)
  {
    if T == {} then [] else
      var m := Least(T);
      [m] + SortedKeys(T - {m})
  }

  /** How often vertex `x` of `s` names `n` among its dependencies. */
  function Links(s: Graph, x: Hash, n: Hash): nat {
    multiset(Deps(s, x))[n]
  }

  function Copies(k: nat, y: Hash): (r: seq<Hash>)
    ensures |r| == k && forall i :: 0 <= i < k ==> r[i] == y
  {
    seq(k, _ => y)
  }

  ghost function KidsFrom(s: Graph, keys: seq<Hash>, n: Hash): (r: seq<Hash>)
    requires Ascending(keys)
    ensures Ascending(r)
    ensures forall x :: x in r ==> x in keys
  {
    if keys == [] then [] else
      var here := Copies(Links(s, keys[0], n), keys[0]);
      var rest := KidsFrom(s, keys[1..], n);
      assert forall j :: 0 <= j < |rest| ==> rest[j] in keys[1..];
      here + rest
  }

  /** The forward edges of `n` inside `s`, sorted: one entry per link. */
  ghost function Kids(s: Graph, n: Hash): seq<Hash> {
    KidsFrom(s, SortedKeys(s.Keys), n)
  }

  lemma {:induction false} CopiesCount(k: nat, y: Hash, x: Hash)
    ensures multiset(Copies(k, y))[x] == if x == y then k else 0
    decreases k
  {
    if k > 0 {
      CopiesCount(k - 1, y, x);
      assert Copies(k, y) == Copies(k - 1, y) + [y];
    }
  }

  lemma {:induction false} KidsFromCount(s: Graph, keys: seq<Hash>, n: Hash, x: Hash)
    requires Ascending(keys) && Distinct(keys)
    ensures multiset(KidsFrom(s, keys, n))[x] == if x in keys then Links(s, x, n) else 0
    decreases |keys|
  {
    if keys != [] {
      KidsFromCount(s, keys[1..], n, x);
      CopiesCount(Links(s, keys[0], n), keys[0], x);
    }
  }

  lemma KidsCount(s: Graph, n: Hash, x: Hash)
    ensures multiset(Kids(s, n))[x] == Links(s, x, n)
    ensures x in Kids(s, n) <==> x in s && n in Deps(s, x)
  {
    KidsFromCount(s, SortedKeys(s.Keys), n, x);
    assert x in Kids(s, n) <==> x in multiset(Kids(s, n));
    assert n in Deps(s, x) <==> n in multiset(Deps(s, x));
  }

  lemma KidsMembers(s: Graph, n: Hash)
    ensures forall x :: x in Kids(s, n) <==> x in s && n in Deps(s, x)
    ensures Ascending(Kids(s, n))
  {
    forall x ensures x in Kids(s, n) <==> x in s && n in Deps(s, x) { KidsCount(s, n, x); }
  }

  /** An ascending sequence is determined by its elements. */
  lemma {:induction false} AscendingUnique(a: seq<Hash>, b: seq<Hash>)
    requires Ascending(a) && Ascending(b) && multiset(a) == multiset(b)
    ensures a == b
    decreases |a|
  {
    assert |a| == |multiset(a)| == |multiset(b)| == |b|;
    if a != [] {
      assert a[0] in multiset(b) && b[0] in multiset(a);
      assert a[0] == b[0];
      assert a == [a[0]] + a[1..] && b == [b[0]] + b[1..];
      assert multiset(a[1..]) == multiset(a) - multiset{a[0]};
      assert multiset(b[1..]) == multiset(b) - multiset{b[0]};
      AscendingUnique(a[1..], b[1..]);
    }
  }

  /** Sorting the raw forward-edge list of a node and keeping the members of `s` gives `Kids`. */
  lemma KidsUnique(s: Graph, n: Hash, r: seq<Hash>)
    requires Ascending(r) && forall x :: multiset(r)[x] == Links(s, x, n)
    ensures r == Kids(s, n)
  {
    KidsMembers(s, n);
    forall x ensures multiset(r)[x] == multiset(Kids(s, n))[x] { KidsCount(s, n, x); }
    assert multiset(r) == multiset(Kids(s, n));
    AscendingUnique(r, Kids(s, n));
  }

  lemma KidsSame(s: Graph, n: Hash, t: Graph, m: Hash)
    requires forall x :: Links(s, x, n) == Links(t, x, m)
    ensures Kids(s, n) == Kids(t, m)
  {
    KidsMembers(s, n);
    forall x ensures multiset(Kids(s, n))[x] == Links(t, x, m) { KidsCount(s, n, x); }
    KidsUnique(t, m, Kids(s, n));
  }

  lemma {:induction false} CountDistinct(s: seq<Hash>)
    ensures Distinct(s) <==> forall x :: multiset(s)[x] <= 1
    decreases |s|
  {
    if s != [] {
      CountDistinct(s[1..]);
      assert s == [s[0]] + s[1..];
      assert multiset(s) == multiset{s[0]} + multiset(s[1..]);
      assert s[0] in s[1..] <==> multiset(s[1..])[s[0]] > 0;
      assert Distinct(s) <==> Distinct(s[1..]) && s[0] !in s[1..];
      if forall x :: multiset(s)[x] <= 1 {
        forall x ensures multiset(s[1..])[x] <= 1 { assert multiset(s)[x] <= 1; }
        assert multiset(s)[s[0]] <= 1;
      }
    }
  }

  lemma KidsDistinct(s: Graph, n: Hash)
    requires Reduced(s)
    ensures Distinct(Kids(s, n))
  {
    forall x ensures multiset(Kids(s, n))[x] <= 1 {
      KidsCount(s, n, x);
      CountDistinct(Deps(s, x));
    }
    CountDistinct(Kids(s, n));
  }

  /** A child function: what the sort pushes for each node. */
  type Edges = Hash -> seq<Hash>

  ghost function EdgesOf(s: Graph): Edges {
    n => Kids(s, n)
  }

  /** `f` lists exactly the children inside `s`. */
  ghost predicate Lists(s: Graph, f: Edges) {
    forall n, x :: x in f(n) <==> x in s && n in Deps(s, x)
  }

  lemma EdgesList(s: Graph)
    ensures Lists(s, EdgesOf(s))
  {
    forall n, x ensures x in EdgesOf(s)(n) <==> x in s && n in Deps(s, x) { KidsMembers(s, n); }
  }
}
