/** The SYNC exchange: an inventory, the reply it causes, and the reply to that reply. */
module Sync {
  import opened HashGraphs
  import opened TopologicalSort
  import opened CausalBarrier
  import opened Replay
  import opened BarrierTest
  import opened GraphStore
  import opened ReplicaSpec
  import opened MergeSpec
  import opened Convergence

  /** The vertices a replica holds, in insertion order, and the hashes it remembers as invalid. */
  datatype Replica = Replica(g: Graph, keys: seq<Hash>, known: seq<Hash>)

  ghost predicate ReplicaOK(r: Replica) {
    GraphOK(r.g) && Inserted(r.g, r.keys)
  }

  /** The vertices listed by `keys` whose hash is not in `skip`, in that order. */
  function Pick(g: Graph, keys: seq<Hash>, skip: set<Hash>): (vs: seq<Vertex>) {
    if keys == [] then []
    else
      (if keys[0] in g && keys[0] !in skip then [g[keys[0]]] else []) + Pick(g, keys[1..], skip)
  }

  lemma {:induction false} PickMembers(g: Graph, keys: seq<Hash>, skip: set<Hash>)
    ensures forall v :: v in Pick(g, keys, skip) <==> exists h :: h in keys && h in g && h !in skip && v == g[h]
    decreases |keys|
  {
    if keys != [] {
      PickMembers(g, keys[1..], skip);
      assert keys == [keys[0]] + keys[1..];
    }
  }

  datatype Accept = Accept(requested: seq<Vertex>, requesting: seq<Hash>)

  /** The answer to an inventory: what the sender lacks and what this replica lacks. */
  function Answer(g: Graph, keys: seq<Hash>, hashes: seq<Hash>): Option<Accept> {
    var requested := Pick(g, keys, Elems(hashes));
    var requesting := Unresolved(g, hashes);
    if requested == [] && requesting == [] then None else Some(Accept(requested, requesting))
  }

  /** The requested hashes this replica can serve. */
  function Serve(g: Graph, requesting: seq<Hash>): seq<Vertex> {
    Pick(g, requesting, {})
  }

  /** Merge what arrived; an empty list is not merged. */
  function Absorb(c: Config, r: Replica, vs: seq<Vertex>, now: int): Tally {
    if vs == [] then Open(r.g, r.keys, r.known) else Merge(c, Open(r.g, r.keys, r.known), vs, now)
  }

  datatype Round = Round(a: Tally, b: Tally)

  /** One exchange opened by `a`: SYNC, SYNC_ACCEPT and the returned SYNC_ACCEPT. */
  function Exchange(c: Config, a: Replica, b: Replica, now: int): Round {
    match Answer(b.g, b.keys, a.keys)
    case None => Round(Open(a.g, a.keys, a.known), Open(b.g, b.keys, b.known))
    case Some(accept) =>
      var ta := Absorb(c, a, accept.requested, now);
      Round(ta, Absorb(c, b, Serve(ta.g, accept.requesting), now))
  }

  // ---------------------------------------------------------------- the handlers as loops

  lemma {:induction false} PickSnoc(g: Graph, keys: seq<Hash>, h: Hash, skip: set<Hash>)
    ensures Pick(g, keys + [h], skip) == Pick(g, keys, skip) + if h in g && h !in skip then [g[h]] else []
    decreases |keys|
  {
    if keys == [] {
      assert keys + [h] == [h];
    } else {
      assert (keys + [h])[1..] == keys[1..] + [h];
      PickSnoc(g, keys[1..], h, skip);
    }
  }

  /** A set in insertion order, without one of its members. */
  function Delete(vs: seq<Vertex>, h: Hash): seq<Vertex> {
    if vs == [] then [] else (if vs[0].hash == h then [] else [vs[0]]) + Delete(vs[1..], h)
  }

  lemma {:induction false} PickDelete(g: Graph, keys: seq<Hash>, skip: set<Hash>, h: Hash)
    requires forall x :: x in g ==> g[x].hash == x
    ensures Delete(Pick(g, keys, skip), h) == Pick(g, keys, skip + {h})
    decreases |keys|
  {
    if keys != [] {
      PickDelete(g, keys[1..], skip, h);
      DeleteCons(if keys[0] in g && keys[0] !in skip then [g[keys[0]]] else [], Pick(g, keys[1..], skip), h);
    }
  }

  lemma DeleteCons(a: seq<Vertex>, b: seq<Vertex>, h: Hash)
    requires |a| <= 1
    ensures Delete(a + b, h) == Delete(a, h) + Delete(b, h)
  {
    if a == [] {
      assert a + b == b;
    } else {
      assert (a + b)[1..] == b && a[1..] == [];
    }
  }

  lemma {:induction false} UnresolvedSnoc(g: Graph, hs: seq<Hash>, h: Hash)
    ensures Unresolved(g, hs + [h]) == Unresolved(g, hs) + if h in g then [] else [h]
    decreases |hs|
  {
    if hs == [] {
      assert hs + [h] == [h];
    } else {
      assert (hs + [h])[1..] == hs[1..] + [h];
      UnresolvedSnoc(g, hs[1..], h);
    }
  }

  /** Answer an inventory. */
  method SyncHandler(graph: HashGraph, hashes: seq<Hash>) returns (reply: Option<Accept>)
    requires graph.Valid()
    ensures reply == Answer(graph.vertices, graph.keys, hashes)
  {
    var g := graph.vertices;
    assert forall x :: x in g ==> g[x].hash == x;
    var requested := Pick(g, graph.keys, {});
    var requesting: seq<Hash> := [];
    assert hashes[..0] == [] && Elems([]) == {};
    hide *;
    NothingUnresolved(g);
    for i := 0 to |hashes|
      invariant requested == Pick(g, graph.keys, Elems(hashes[..i]))
      invariant requesting == Unresolved(g, hashes[..i])
    {
      var h := hashes[i];
      assert hashes[..i + 1] == hashes[..i] + [h];
      ElemsSnoc(hashes[..i], h);
      UnresolvedSnoc(g, hashes[..i], h);
      PickDelete(g, graph.keys, Elems(hashes[..i]), h);
      if h in g {
        requested := Delete(requested, h);
      } else {
        PickAbsent(g, graph.keys, Elems(hashes[..i]), h);
        requesting := requesting + [h];
      }
    }
    assert hashes[..|hashes|] == hashes;
    reply := if requested == [] && requesting == [] then None else Some(Accept(requested, requesting));
    AnswerIs(g, graph.keys, hashes);
  }

  lemma NothingUnresolved(g: Graph)
    ensures Unresolved(g, []) == []
  {}

  lemma ElemsSnoc(hs: seq<Hash>, h: Hash)
    ensures Elems(hs + [h]) == Elems(hs) + {h}
  {}

  lemma AnswerIs(g: Graph, keys: seq<Hash>, hashes: seq<Hash>)
    ensures var requested, requesting := Pick(g, keys, Elems(hashes)), Unresolved(g, hashes);
            Answer(g, keys, hashes)
            == if requested == [] && requesting == [] then None else Some(Accept(requested, requesting))
  {}

  lemma {:induction false} PickAbsent(g: Graph, keys: seq<Hash>, skip: set<Hash>, h: Hash)
    requires h !in g
    ensures Pick(g, keys, skip + {h}) == Pick(g, keys, skip)
    decreases |keys|
  {
    if keys != [] { PickAbsent(g, keys[1..], skip, h); }
  }

  /** Look the requested hashes up. */
  method ServeRequested(graph: HashGraph, requesting: seq<Hash>) returns (requested: seq<Vertex>)
    ensures requested == Serve(graph.vertices, requesting)
  {
    requested := [];
    for i := 0 to |requesting|
      invariant requested == Serve(graph.vertices, requesting[..i])
    {
      assert requesting[..i + 1] == requesting[..i] + [requesting[i]];
      PickSnoc(graph.vertices, requesting[..i], requesting[i], {});
      if requesting[i] in graph.vertices { requested := requested + [graph.vertices[requesting[i]]]; }
    }
    assert requesting[..|requesting|] == requesting;
  }

  // ---------------------------------------------------------------- the union of two replicas

  ghost predicate Compatible(a: Graph, b: Graph) {
    forall h :: h in a && h in b ==> a[h] == b[h]
  }

  lemma {:induction false} UnionSteps(a: Graph, b: Graph, x: Hash, y: Hash, n: nat)
    requires Closed(a) && Compatible(a, b) && y in a && Steps(a + b, x, y, n)
    ensures Steps(a, x, y, n)
    decreases n
  {
    if n > 0 {
      var d :| d in Deps(a + b, y) && Steps(a + b, x, d, n - 1);
      assert d in Deps(a, y);
      UnionSteps(a, b, x, d, n - 1);
    }
  }

  lemma UnionBelow(a: Graph, b: Graph, x: Hash, y: Hash)
    requires Closed(a) && Compatible(a, b) && y in a && Below(a + b, x, y)
    ensures Below(a, x, y)
  {
    var n: nat :| n > 0 && Steps(a + b, x, y, n);
    UnionSteps(a, b, x, y, n);
  }

  lemma UnionCommutes(a: Graph, b: Graph)
    requires Compatible(a, b)
    ensures a + b == b + a
  {}

  lemma UnionOK(a: Graph, b: Graph)
    requires GraphOK(a) && GraphOK(b) && Compatible(a, b)
    ensures GraphOK(a + b) && Grew(a, a + b) && Grew(b, a + b)
  {
    var u := a + b;
    UnionCommutes(a, b);
    forall h | Below(u, h, h) ensures false {
      BelowLast(u, h, h);
      if h in a { UnionBelow(a, b, h, h); } else { UnionBelow(b, a, h, h); }
    }
    forall h, d | h in u && d in u[h].dependencies ensures d in u {
      if h in b { assert d in b; } else { assert d in a; }
    }
  }

  // ---------------------------------------------------------------- both lists are in order

  lemma {:induction false} PickHashes(g: Graph, keys: seq<Hash>, skip: set<Hash>, h: Hash)
    requires forall x :: x in g ==> g[x].hash == x
    ensures h in Hashes(Pick(g, keys, skip)) <==> h in keys && h in g && h !in skip
  {
    var vs := Pick(g, keys, skip);
    PickMembers(g, keys, skip);
    if h in Hashes(vs) {
      var i :| 0 <= i < |vs| && Hashes(vs)[i] == h;
      assert vs[i] in vs;
    }
    if h in keys && h in g && h !in skip { HashIn(vs, g[h]); }
  }

  lemma {:induction false} PickDistinct(g: Graph, keys: seq<Hash>, skip: set<Hash>)
    requires (forall x :: x in g ==> g[x].hash == x) && Distinct(keys)
    ensures Distinct(Hashes(Pick(g, keys, skip)))
    decreases |keys|
  {
    if keys != [] {
      var rest := Pick(g, keys[1..], skip);
      PickDistinct(g, keys[1..], skip);
      if keys[0] in g && keys[0] !in skip {
        var vs := [g[keys[0]]] + rest;
        HashesCons(vs);
        PickHashes(g, keys[1..], skip, keys[0]);
        DistinctCons(keys[0], Hashes(rest)) by { NotInTail(keys); }
      } else {
        assert Pick(g, keys, skip) == rest;
      }
    }
  }

  lemma NotInTail(keys: seq<Hash>)
    requires keys != [] && Distinct(keys)
    ensures keys[0] !in keys[1..]
  {}

  lemma DistinctCons(h: Hash, hs: seq<Hash>)
    requires Distinct(hs) && h !in hs
    ensures Distinct([h] + hs)
  {}

  /** The picked vertex at `i` comes from a key whose predecessors pick exactly the vertices before it. */
  lemma {:induction false} PickPrefix(g: Graph, keys: seq<Hash>, skip: set<Hash>, i: nat) returns (k: nat)
    requires i < |Pick(g, keys, skip)|
    ensures k < |keys| && keys[k] in g && keys[k] !in skip && Pick(g, keys, skip)[i] == g[keys[k]]
    ensures Pick(g, keys[..k], skip) == Pick(g, keys, skip)[..i]
    decreases |keys|
  {
    var last := |keys| - 1;
    var less := keys[..last];
    assert keys == less + [keys[last]];
    PickSnoc(g, less, keys[last], skip);
    var vs, ws := Pick(g, keys, skip), Pick(g, less, skip);
    if i < |ws| {
      k := PickPrefix(g, less, skip, i);
      assert less[..k] == keys[..k] && vs[..i] == ws[..i];
    } else {
      k := last;
      assert keys[..k] == less && vs[..i] == ws;
    }
  }

  /** What a peer lacks, in this replica's insertion order, arrives with its dependencies first. */
  lemma PickOrdered(a: Graph, b: Replica)
    requires ReplicaOK(b) && Compatible(a, b.g)
    ensures Ordered(a, Pick(b.g, b.keys, a.Keys))
  {
    var vs := Pick(b.g, b.keys, a.Keys);
    PickDistinct(b.g, b.keys, a.Keys);
    PickMembers(b.g, b.keys, a.Keys);
    forall v | v in vs ensures v.hash !in a {
      var h :| h in b.keys && h in b.g && h !in a.Keys && v == b.g[h];
    }
    forall i, d | 0 <= i < |vs| && d in vs[i].dependencies ensures d in a || d in Hashes(vs[..i]) {
      PickDependency(a, b, vs, i, d);
    }
  }

  lemma PickDependency(a: Graph, b: Replica, vs: seq<Vertex>, i: nat, d: Hash)
    requires ReplicaOK(b) && vs == Pick(b.g, b.keys, a.Keys) && i < |vs| && d in vs[i].dependencies
    ensures d in a || d in Hashes(vs[..i])
  {
    var k := PickPrefix(b.g, b.keys, a.Keys, i);
    assert d in Deps(b.g, b.keys[k]);
    assert d in b.keys[..k];
    assert d in b.g;
    PickHashes(b.g, b.keys[..k], a.Keys, d);
  }

  lemma {:induction false} AddAllIs(g: Graph, vs: seq<Vertex>, u: Graph)
    requires Grew(g, u) && FromGraph(u, vs) && forall h :: h in u ==> h in g || h in Hashes(vs)
    ensures AddAll(g, vs) == u
    decreases |vs|
  {
    AddAllStep(g, vs);
    if vs == [] {
      assert Hashes(vs) == [] && g.Keys == u.Keys;
      assert g == u;
    } else {
      HashesCons(vs);
      FromGraphTail(u, vs);
      AddAllIs(g[vs[0].hash := vs[0]], vs[1..], u);
    }
  }

  lemma PickFromUnion(a: Graph, b: Replica, u: Graph)
    requires ReplicaOK(b) && GraphOK(a) && Compatible(a, b.g) && u == a + b.g && Grew(a, u) && Grew(b.g, u)
    ensures FromGraph(u, Pick(b.g, b.keys, a.Keys))
    ensures AddAll(a, Pick(b.g, b.keys, a.Keys)) == u
  {
    var vs := Pick(b.g, b.keys, a.Keys);
    PickMembers(b.g, b.keys, a.Keys);
    forall v | v in vs ensures v.hash in u && u[v.hash] == v {
      var h :| h in b.keys && h in b.g && h !in a.Keys && v == b.g[h];
    }
    forall h | h in u ensures h in a || h in Hashes(vs) {
      PickHashes(b.g, b.keys, a.Keys, h);
    }
    AddAllIs(a, vs, u);
  }

  /** Merging what the peer lists ends with the union and reports nothing. */
  lemma AbsorbUnion(c: Config, a: Replica, b: Replica, u: Graph, now: int)
    requires ReplicaOK(a) && ReplicaOK(b) && Compatible(a.g, b.g) && u == a.g + b.g && AllGenuine(c, u, now)
    requires forall h :: h in a.known ==> h !in u
    ensures var t := Absorb(c, a, Pick(b.g, b.keys, a.g.Keys), now);
            && t.g == u && t.missing == [] && t.invalid == [] && t.known == a.known && Inserted(u, t.keys)
  {
    hide *;
    UnionParts(a, b, u);
    PickOrdered(a.g, b);
    PickFromUnion(a.g, b, u);
    var vs := Pick(b.g, b.keys, a.g.Keys);
    var t := Open(a.g, a.keys, a.known);
    StartPart(u, a);
    DeliverOrdered(c, u, t, vs, now);
    AbsorbDelivered(c, a, u, vs, now);
    InsertedAll(a.g, a.keys, vs) by { ClosedOf(a.g); }
  }

  lemma UnionParts(a: Replica, b: Replica, u: Graph)
    requires ReplicaOK(a) && ReplicaOK(b) && Compatible(a.g, b.g) && u == a.g + b.g
    ensures GraphOK(a.g) && Inserted(a.g, a.keys) && Grew(a.g, u) && Grew(b.g, u) && GraphOK(u)
  {
    UnionOK(a.g, b.g);
  }

  lemma StartPart(u: Graph, a: Replica)
    requires GraphOK(a.g) && Grew(a.g, u) && forall h :: h in a.known ==> h !in u
    ensures PartOf(u, Open(a.g, a.keys, a.known)) && Open(a.g, a.keys, a.known).g == a.g
  {}

  lemma AbsorbDelivered(c: Config, a: Replica, u: Graph, vs: seq<Vertex>, now: int)
    requires var t := Open(a.g, a.keys, a.known);
             DeliverAll(c, t, vs, now) == t.(g := AddAll(t.g, vs), keys := t.keys + Hashes(vs))
    ensures var r := Absorb(c, a, vs, now);
            && r.g == AddAll(a.g, vs) && r.keys == a.keys + Hashes(vs) && r.known == a.known
            && r.missing == [] && r.invalid == []
  {
    var t := Open(a.g, a.keys, a.known);
    if vs == [] {
      assert a.keys + Hashes(vs) == a.keys;
    } else {
      assert Condemned(DeliverAll(c, t, vs, now), []) == [];
    }
  }

  lemma {:induction false} InsertedAll(g: Graph, keys: seq<Hash>, vs: seq<Vertex>)
    requires Closed(g) && Inserted(g, keys) && Ordered(g, vs)
    ensures Inserted(AddAll(g, vs), keys + Hashes(vs))
    decreases |vs|
  {
    hide *;
    AddAllStep(g, vs);
    if vs == [] {
      assert keys + Hashes(vs) == keys;
    } else {
      var v := vs[0];
      OrderedTail(g, vs);
      ReadyKeepsClosed(g, v);
      InsertedAdd(g, v, keys);
      HashesCons(vs);
      assert keys + Hashes(vs) == (keys + [v.hash]) + Hashes(vs[1..]);
      InsertedAll(g[v.hash := v], keys + [v.hash], vs[1..]);
    }
  }

  lemma ReadyKeepsClosed(g: Graph, v: Vertex)
    requires Closed(g) && Ready(g, v) && v.hash !in g
    ensures Closed(g[v.hash := v]) && forall d :: d in v.dependencies ==> d in g
  {}

  // ---------------------------------------------------------------- the theorem

  /** What the first replica serves is its own part that the second lacks. */
  lemma ServeIsPick(a: Replica, b: Graph, g: Graph)
    requires ReplicaOK(a) && Grew(a.g, g)
    ensures Serve(g, Unresolved(b, a.keys)) == Pick(a.g, a.keys, b.Keys)
  {
    assert forall h :: h in a.keys ==> h in a.g;
    ServeFilter(a.g, b, g, a.keys);
  }

  lemma {:induction false} ServeFilter(a: Graph, b: Graph, g: Graph, keys: seq<Hash>)
    requires Grew(a, g) && forall h :: h in keys ==> h in a
    ensures Serve(g, Unresolved(b, keys)) == Pick(a, keys, b.Keys)
    decreases |keys|
  {
    if keys != [] {
      assert keys[0] in keys;
      ServeFilter(a, b, g, keys[1..]);
      var rest := Unresolved(b, keys[1..]);
      if keys[0] in b {
        assert [] + rest == rest;
      } else {
        assert ([keys[0]] + rest)[1..] == rest;
      }
    }
  }

  /**
   A SYNC round converges: both replicas end with the union of their graphs, and no merge of the
   exchange reports a missing or an invalid vertex.
   */
  lemma SyncConverges(c: Config, a: Replica, b: Replica, now: int)
    requires ReplicaOK(a) && ReplicaOK(b) && Compatible(a.g, b.g) && AllGenuine(c, a.g + b.g, now)
    requires forall h :: h in a.known || h in b.known ==> h !in a.g + b.g
    ensures var r := Exchange(c, a, b, now);
            && r.a.g == a.g + b.g && r.b.g == a.g + b.g
            && r.a.missing == [] && r.a.invalid == [] && r.b.missing == [] && r.b.invalid == []
            && Inserted(r.a.g, r.a.keys) && Inserted(r.b.g, r.b.keys)
            && GraphOK(r.a.g)
  {
    hide *;
    var u := a.g + b.g;
    UnionParts(a, b, u);
    UnionCommutes(a.g, b.g);
    CompatibleSym(a.g, b.g);
    InventoryIsKeys(a);
    AbsorbUnion(c, a, b, u, now);
    AbsorbUnion(c, b, a, u, now);
    ServeIsPick(a, b.g, u);
    ExchangeCases(c, a, b, now, u);
  }

  lemma CompatibleSym(a: Graph, b: Graph)
    requires Compatible(a, b)
    ensures Compatible(b, a)
  {}

  lemma InventoryIsKeys(a: Replica)
    requires ReplicaOK(a)
    ensures Elems(a.keys) == a.g.Keys
  {}

  lemma ExchangeCases(c: Config, a: Replica, b: Replica, now: int, u: Graph)
    requires Elems(a.keys) == a.g.Keys
    requires Absorb(c, a, Pick(b.g, b.keys, a.g.Keys), now).g == u
    requires Serve(u, Unresolved(b.g, a.keys)) == Pick(a.g, a.keys, b.g.Keys)
    ensures var r := Exchange(c, a, b, now);
            && r.a == Absorb(c, a, Pick(b.g, b.keys, a.g.Keys), now)
            && r.b == Absorb(c, b, Pick(a.g, a.keys, b.g.Keys), now)
  {
    hide Merge;
  }
}
