/**
 The SYNC exchange and redelivery on whole replicas.

 Two replicas that exchange what the other lacks end with the same graph and the same live state, and
 so does one replica for every order in which the same vertices are delivered to it.
 */
module ReplicaSync {
  import opened HashGraphs
  import opened TopologicalSort
  import opened CausalBarrier
  import opened PairLinearizer
  import opened Linearization
  import opened Replay
  import opened BarrierTest
  import opened GraphStore
  import opened ReplicaSpec
  import opened ReplicaCache
  import opened MergeSpec
  import opened CacheSteps
  import opened Convergence
  import opened Sync
  import opened Applier

  // ---------------------------------------------------------------- parts of a graph

  lemma PartIsSub(g: Graph, u: Graph)
    requires GraphOK(g) && Grew(g, u)
    ensures g == Sub(u, g.Keys) && DownClosed(u, g.Keys)
  {
    assert Sub(u, g.Keys).Keys == g.Keys;
  }

  lemma PastSame(g: Graph, u: Graph, D: seq<Hash>)
    requires GraphOK(g) && GraphOK(u) && Grew(g, u) && Members(g, D)
    ensures Past(g, Elems(D)) == Past(u, Elems(D)) && Sub(g, Past(g, Elems(D))) == Sub(u, Past(u, Elems(D)))
  {
    PartIsSub(g, u);
    forall h ensures h in Past(g, Elems(D)) <==> h in Past(u, Elems(D)) {
      forall d | d in D ensures (h in g && AtMost(g, h, d)) <==> (h in u && AtMost(u, h, d)) {
        BelowInClosed(u, g.Keys, h, d);
      }
    }
  }

  /** A past is replayed in a part of the graph as in the whole. */
  lemma ReplaySame(c: Config, g: Graph, u: Graph, D: seq<Hash>)
    requires GraphOK(g) && GraphOK(u) && Grew(g, u) && D != [] && Members(g, D)
    ensures Members(u, D) && PastReplay(c, g, D) == PastReplay(c, u, D)
  {
    assert Members(u, D);
    hide *;
    PastSame(g, u, D);
    UnfoldPast(c, g, D);
    UnfoldPast(c, u, D);
  }

  lemma ExecutesSame(c: Config, g: Graph, u: Graph, v: Vertex)
    requires GraphOK(g) && GraphOK(u) && Grew(g, u) && v.dependencies != [] && Members(g, v.dependencies)
    ensures Members(u, v.dependencies) && (Executes(c, g, v) <==> Executes(c, u, v))
  {
    hide GraphOK, PastReplay, Grew, Members;
    ReplaySame(c, g, u, v.dependencies);
  }

  lemma ExactPart(c: Config, g: Graph, u: Graph)
    requires GraphOK(g) && Grew(g, u) && Exact(c, u)
    ensures Exact(c, g)
  {
    hide CalmSwap, Reduced, KeepsKeys, GraphOK;
    PartIsSub(g, u);
    SettledSub(c.pol, u, g.Keys);
    ReducedSub(u, g.Keys);
  }

  // ---------------------------------------------------------------- an ordered batch

  ghost predicate ExecutesIn(c: Config, u: Graph, v: Vertex)
    requires GraphOK(u)
  {
    v.dependencies != [] && Members(u, v.dependencies) && Executes(c, u, v)
  }

  lemma OrderedPrefix(g: Graph, vs: seq<Vertex>, i: nat)
    requires Ordered(g, vs) && i < |vs|
    ensures Ordered(g, vs[..i]) && vs[i].hash !in g && vs[i].hash !in Hashes(vs[..i])
    ensures forall d :: d in vs[i].dependencies ==> d in g || d in Hashes(vs[..i])
  {
    var ws := vs[..i];
    assert forall k :: 0 <= k < i ==> Hashes(ws)[k] == Hashes(vs)[k];
    assert Hashes(vs)[i] == vs[i].hash && vs[i] in vs;
    forall v | v in ws ensures v.hash !in g { assert v in vs; }
    forall k, d | 0 <= k < i && d in ws[k].dependencies ensures d in g || d in Hashes(ws[..k]) {
      assert ws[..k] == vs[..k];
    }
  }

  /** In an ordered batch the turn of a vertex throws exactly when the vertex does not execute in the end. */
  lemma OrderedAdmits(c: Config, u: Graph, t: Tally, vs: seq<Vertex>, now: int, i: nat)
    requires AllGenuine(c, u, now) && PartOf(u, t) && FromGraph(u, vs) && Ordered(t.g, vs) && i < |vs|
    ensures GraphOK(t.g) && GraphOK(u) && (AdmitsAt(c, t, vs, i, now) <==> ExecutesIn(c, u, vs[i]))
  {
    hide *;
    var v, front := vs[i], DeliverAll(c, t, vs[..i], now);
    PartParts(u, t);
    OrderedPrefix(t.g, vs, i);
    FromPrefix(u, vs, i);
    GenuineParts(c, u, v, now);
    DeliverOrdered(c, u, t, vs[..i], now);
    PartParts(u, front);
    AdmitsMeans(c, t, vs, i, now, front);
    TurnReady(c, u, t, vs, i, now);
    GenuineValidates(c, u, front, v, now);
    ValidParts(c, front.g, v, now);
    ExecutesSame(c, front.g, u, v);
    ExecutesInIs(c, u, v);
  }

  lemma PartParts(u: Graph, t: Tally)
    requires PartOf(u, t)
    ensures GraphOK(t.g) && Grew(t.g, u)
  {}

  lemma FromPrefix(u: Graph, vs: seq<Vertex>, i: nat)
    requires FromGraph(u, vs) && i < |vs|
    ensures FromGraph(u, vs[..i]) && vs[i].hash in u && u[vs[i].hash] == vs[i]
  {
    assert vs[i] in vs && forall w :: w in vs[..i] ==> w in vs;
  }

  lemma GenuineParts(c: Config, u: Graph, v: Vertex, now: int)
    requires AllGenuine(c, u, now) && v.hash in u && u[v.hash] == v
    ensures GraphOK(u) && (v.hash != ROOT_HASH ==> Genuine(c, u, v, now))
  {}

  lemma ValidParts(c: Config, g: Graph, v: Vertex, now: int)
    requires Validate(c, g, v, now).None? && v.hash !in g
    ensures v.dependencies != [] && Members(g, v.dependencies)
  {
    ValidAddable(c, g, v, now);
  }

  lemma ExecutesInIs(c: Config, u: Graph, v: Vertex)
    requires GraphOK(u) && v.dependencies != [] && Members(u, v.dependencies)
    ensures ExecutesIn(c, u, v) <==> Executes(c, u, v)
  {}

  lemma TurnReady(c: Config, u: Graph, t: Tally, vs: seq<Vertex>, i: nat, now: int)
    requires i < |vs| && GraphOK(t.g) && vs[i].hash !in t.g && vs[i].hash !in Hashes(vs[..i])
    requires forall d :: d in vs[i].dependencies ==> d in t.g || d in Hashes(vs[..i])
    requires vs[i].hash != ROOT_HASH ==> Genuine(c, u, vs[i], now)
    requires DeliverAll(c, t, vs[..i], now) == t.(g := AddAll(t.g, vs[..i]), keys := t.keys + Hashes(vs[..i]))
    ensures var g := DeliverAll(c, t, vs[..i], now).g;
            vs[i].hash != ROOT_HASH && vs[i].hash !in g && Ready(g, vs[i]) && !Skipped(g, vs[i])
  {
    assert ROOT_HASH in t.g;
  }

  /** An ordered batch runs exactly when everything in it executes in the resulting graph. */
  lemma OrderedRuns(c: Config, u: Graph, t: Tally, vs: seq<Vertex>, now: int)
    requires AllGenuine(c, u, now) && PartOf(u, t) && FromGraph(u, vs) && Ordered(t.g, vs)
    ensures GraphOK(t.g) && GraphOK(u)
    ensures Runs(c, t, vs, now) <==> forall v :: v in vs ==> ExecutesIn(c, u, v)
  {
    PartParts(u, t);
    assert GraphOK(u);
    hide AllGenuine, PartOf, FromGraph, Ordered, AdmitsAt, ExecutesIn, GraphOK;
    forall i | 0 <= i < |vs| ensures AdmitsAt(c, t, vs, i, now) <==> ExecutesIn(c, u, vs[i]) {
      OrderedAdmits(c, u, t, vs, now, i);
    }
    if Runs(c, t, vs, now) {
      forall v | v in vs ensures ExecutesIn(c, u, v) {
        var i :| 0 <= i < |vs| && vs[i] == v;
        assert AdmitsAt(c, t, vs, i, now);
      }
    }
  }

  /** A batch that completes `g` to `u`, dependencies first. */
  ghost predicate Completes(u: Graph, g: Graph, vs: seq<Vertex>) {
    FromGraph(u, vs) && Ordered(g, vs) && AddAll(g, vs) == u
  }

  /** What a batch that completes the graph does, up to any turn. */
  lemma CompletesTo(c: Config, u: Graph, t: Tally, vs: seq<Vertex>, now: int, turn: nat)
    requires AllGenuine(c, u, now) && PartOf(u, t) && Completes(u, t.g, vs) && turn <= |vs|
    ensures GraphOK(u) && GraphOK(t.g) && Grew(DeliverAll(c, t, vs[..turn], now).g, u)
    ensures GraphOK(DeliverAll(c, t, vs[..turn], now).g)
    ensures Runs(c, t, vs, now) <==> forall v :: v in vs ==> ExecutesIn(c, u, v)
    ensures turn == |vs| ==> DeliverAll(c, t, vs[..turn], now).g == u
  {
    hide *;
    CompletesParts(u, t.g, vs);
    OrderedRuns(c, u, t, vs, now);
    if turn == |vs| { assert vs[..turn] == vs; } else { OrderedPrefix(t.g, vs, turn); FromPrefix(u, vs, turn); }
    DeliverOrdered(c, u, t, vs[..turn], now);
    PartParts(u, DeliverAll(c, t, vs[..turn], now));
  }

  lemma CompletesParts(u: Graph, g: Graph, vs: seq<Vertex>)
    requires Completes(u, g, vs)
    ensures FromGraph(u, vs) && Ordered(g, vs) && AddAll(g, vs) == u
  {}

  /** A batch that completes the graph reports nothing. */
  lemma CompletesMerge(c: Config, u: Graph, g: Graph, keys: seq<Hash>, known: seq<Hash>, vs: seq<Vertex>, now: int)
    requires AllGenuine(c, u, now) && PartOf(u, Open(g, keys, known)) && Completes(u, g, vs)
    ensures var t := Merge(c, Open(g, keys, known), vs, now);
            t.g == u && t.missing == [] && t.invalid == [] && t.known == known && t.keys == keys + Hashes(vs)
  {
    hide *;
    var a := Replica(g, keys, known);
    CompletesParts(u, g, vs);
    OpenParts(g, keys, known);
    DeliverOrdered(c, u, Open(g, keys, known), vs, now);
    AbsorbDelivered(c, a, u, vs, now);
    AbsorbIs(c, a, vs, now);
  }

  lemma OpenParts(g: Graph, keys: seq<Hash>, known: seq<Hash>)
    ensures var t := Open(g, keys, known); t.g == g && t.keys == keys && t.known == known
  {}

  lemma AbsorbIs(c: Config, a: Replica, vs: seq<Vertex>, now: int)
    ensures Absorb(c, a, vs, now) == Merge(c, Open(a.g, a.keys, a.known), vs, now)
  {
    hide Deliver;
    if vs == [] { assert Merge(c, Open(a.g, a.keys, a.known), vs, now) == Open(a.g, a.keys, a.known); }
  }

  /** This replica holds a part of `u`. */
  ghost predicate Toward(r: DRPVertexApplier, u: Graph, now: int)
    reads r, r.graph
  {
    r.Valid() && AllGenuine(r.config, u, now) && PartOf(u, Open(r.graph.vertices, r.graph.keys, r.known))
  }

  lemma TowardParts(r: DRPVertexApplier, u: Graph, now: int)
    requires Toward(r, u, now)
    ensures r.Valid() && r.graph.Valid() && AllGenuine(r.config, u, now) && GraphOK(u)
    ensures GraphOK(r.graph.vertices) && Grew(r.graph.vertices, u)
    ensures PartOf(u, Open(r.graph.vertices, r.graph.keys, r.known))
  {
    ValidGraph(r);
    hide *;
    OpenParts(r.graph.vertices, r.graph.keys, r.known);
    TowardMeans(r, u, now);
    PartParts(u, Open(r.graph.vertices, r.graph.keys, r.known));
  }

  lemma TowardMeans(r: DRPVertexApplier, u: Graph, now: int)
    requires Toward(r, u, now)
    ensures AllGenuine(r.config, u, now) && GraphOK(u) && PartOf(u, Open(r.graph.vertices, r.graph.keys, r.known))
  {
    hide HashGraph.Valid, DRPVertexApplier.Valid, GraphOK, PartOf;
  }

  /** Merge what arrived; nothing is merged when nothing arrived. */
  method MergeArrived(r: DRPVertexApplier, vs: seq<Vertex>, now: int, ghost u: Graph)
    returns (done: bool, missing: seq<Hash>, invalid: seq<Hash>)
    requires Toward(r, u, now) && Completes(u, r.graph.vertices, vs)
    modifies r, r.graph
    ensures r.Valid() && r.graph.Valid() && GraphOK(u) && r.faithful == old(r.faithful) && old(r.graph.Valid())
    ensures done ==> && r.graph.vertices == u && r.known == old(r.known) && missing == [] && invalid == []
                     && (old(r.Live()) && r.faithful ==> r.Live())
    ensures r.faithful && Exact(r.config, u) && old(r.Live()) ==>
              (done <==> (forall v :: v in vs ==> ExecutesIn(r.config, u, v)) && FullReplay(r.config, u).Some?)
  {
    hide *;
    ghost var g, keys, known := r.graph.vertices, r.graph.keys, r.known;
    TowardParts(r, u, now);
    CompletesMerge(r.config, u, g, keys, known, vs, now);
    OpenParts(g, keys, known);
    if vs == [] {
      NothingAdded(u, g);
      if Exact(r.config, u) && r.Live() { LiveIs(r); }
      return true, [], [];
    }
    var result;
    ghost var turn;
    result, turn := r.MergeVertices(vs, now);
    ValidGraph(r);
    CompletesTo(r.config, u, Open(g, keys, known), vs, now, turn);
    if r.faithful && Exact(r.config, u) {
      ExactPart(r.config, r.graph.vertices, u);
      StopsRuns(r.config, Open(g, keys, known), vs, turn, now);
    }
    match result {
      case Merged(lacking, refused) => done, missing, invalid := true, lacking, refused;
      case Aborted => done, missing, invalid := false, [], [];
    }
  }

  lemma NothingAdded(u: Graph, g: Graph)
    requires Completes(u, g, [])
    ensures g == u
  {}

  lemma LiveIs(r: DRPVertexApplier)
    requires r.graph.Valid() && r.Live() && GraphOK(r.graph.vertices) && Exact(r.config, r.graph.vertices)
    ensures FullReplay(r.config, r.graph.vertices) == Some(Snapshot(r.liveDRP, r.liveACL))
  {
    hide HashGraph.Valid, GraphOK, Exact, FullReplay;
  }

  lemma ValidGraph(r: DRPVertexApplier)
    requires r.Valid()
    ensures r.graph.Valid()
  {}

  // ---------------------------------------------------------------- the exchange

  ghost function ReplicaOf(r: DRPVertexApplier): Replica
    reads r, r.graph
  {
    Replica(r.graph.vertices, r.graph.keys, r.known)
  }

  /** Two replicas of one object that agree on what both hold, and hold no member of the union to be invalid. */
  ghost predicate Partners(a: DRPVertexApplier, b: DRPVertexApplier, now: int)
    reads a, a.graph, b, b.graph
  {
    && a != b && a.graph != b.graph && a.config == b.config && a.Valid() && b.Valid()
    && Compatible(a.graph.vertices, b.graph.vertices)
    && AllGenuine(a.config, a.graph.vertices + b.graph.vertices, now)
    && (forall h :: h in a.known || h in b.known ==> h !in a.graph.vertices + b.graph.vertices)
  }

  /** Everything one of the two lacks executes in their union. */
  ghost predicate NewExecute(c: Config, a: Graph, b: Graph, u: Graph)
    requires GraphOK(u)
  {
    forall h :: h in u && !(h in a && h in b) ==> ExecutesIn(c, u, u[h])
  }

  lemma ReplicaIsOK(r: DRPVertexApplier)
    requires r.Valid()
    ensures ReplicaOK(ReplicaOf(r)) && r.graph.Valid()
  {
    hide GraphOK, CacheOK, HashGraph.Valid, Inserted;
    GraphValid(r.graph);
  }

  /** What `a` lacks of `b` completes it to the union. */
  lemma PickCompletes(a: Replica, b: Replica, u: Graph)
    requires ReplicaOK(a) && ReplicaOK(b) && Compatible(a.g, b.g) && u == a.g + b.g
    requires forall h :: h in a.known ==> h !in u
    ensures Completes(u, a.g, Pick(b.g, b.keys, a.g.Keys)) && PartOf(u, Open(a.g, a.keys, a.known))
    ensures GraphOK(u) && Grew(a.g, u)
  {
    hide *;
    UnionParts(a, b, u);
    PickOrdered(a.g, b);
    PickFromUnion(a.g, b, u);
    StartPart(u, a);
    MakeCompletes(u, a.g, Pick(b.g, b.keys, a.g.Keys));
  }

  lemma MakeCompletes(u: Graph, g: Graph, vs: seq<Vertex>)
    requires FromGraph(u, vs) && Ordered(g, vs) && AddAll(g, vs) == u
    ensures Completes(u, g, vs)
  {}

  /** The picked vertices are those of the union that the other graph lacks. */
  lemma PickExecutes(c: Config, a: Graph, b: Replica, u: Graph)
    requires GraphOK(u) && ReplicaOK(b) && Grew(b.g, u)
    ensures (forall v :: v in Pick(b.g, b.keys, a.Keys) ==> ExecutesIn(c, u, v))
            <==> forall h :: h in b.g && h !in a ==> ExecutesIn(c, u, u[h])
  {
    hide ExecutesIn, GraphOK, Pick;
    PickMembers(b.g, b.keys, a.Keys);
    if forall v :: v in Pick(b.g, b.keys, a.Keys) ==> ExecutesIn(c, u, v) {
      forall h | h in b.g && h !in a ensures ExecutesIn(c, u, u[h]) {
        assert h in b.keys && u[h] == b.g[h];
        assert u[h] in Pick(b.g, b.keys, a.Keys);
      }
    }
  }

  lemma NewSplit(c: Config, a: Graph, b: Graph, u: Graph)
    requires GraphOK(u) && u == a + b
    ensures NewExecute(c, a, b, u)
            <==> (forall h :: h in b && h !in a ==> ExecutesIn(c, u, u[h]))
                 && (forall h :: h in a && h !in b ==> ExecutesIn(c, u, u[h]))
  {
    hide ExecutesIn;
  }

  lemma PartnersParts(a: DRPVertexApplier, b: DRPVertexApplier, now: int, u: Graph)
    requires Partners(a, b, now) && u == a.graph.vertices + b.graph.vertices
    ensures a != b && a.graph != b.graph && a.config == b.config && a.Valid() && b.Valid()
    ensures ReplicaOK(ReplicaOf(a)) && ReplicaOK(ReplicaOf(b)) && GraphOK(u) && AllGenuine(a.config, u, now)
    ensures Compatible(a.graph.vertices, b.graph.vertices) && Compatible(b.graph.vertices, a.graph.vertices)
    ensures u == b.graph.vertices + a.graph.vertices && (forall h :: h in a.known || h in b.known ==> h !in u)
    ensures ReplicaOf(a) == Replica(a.graph.vertices, a.graph.keys, a.known)
    ensures ReplicaOf(b) == Replica(b.graph.vertices, b.graph.keys, b.known)
    ensures Elems(a.graph.keys) == a.graph.vertices.Keys
  {
    hide GraphOK, HashGraph.Valid, DRPVertexApplier.Valid, Compatible, Inserted, Genuine;
    ReplicaIsOK(a);
    ReplicaIsOK(b);
    UnionCommutes(a.graph.vertices, b.graph.vertices);
    CompatibleSym(a.graph.vertices, b.graph.vertices);
    InventoryIsKeys(ReplicaOf(a));
  }

  lemma MakeToward(r: DRPVertexApplier, u: Graph, now: int)
    requires r.Valid() && AllGenuine(r.config, u, now) && PartOf(u, Open(r.graph.vertices, r.graph.keys, r.known))
    ensures Toward(r, u, now)
  {}

  /**
   One SYNC exchange opened by `a`.  When both merges complete, both replicas hold the union, neither
   merge reports anything, and on an exact union both live states are its replay.  On an exact union
   of up-to-date replicas the exchange completes exactly when everything new executes and the union
   can be replayed.
   */
  method SyncReplicas(a: DRPVertexApplier, b: DRPVertexApplier, now: int) returns (done: bool, reported: seq<Hash>)
    requires Partners(a, b, now)
    modifies a, a.graph, b, b.graph
    ensures a.Valid() && b.Valid() && a.graph.Valid() && b.graph.Valid() && old(a.graph.Valid()) && old(b.graph.Valid())
    ensures a.faithful == old(a.faithful) && b.faithful == old(b.faithful)
    ensures var u := old(a.graph.vertices + b.graph.vertices);
            && GraphOK(u)
            && (done ==> && a.graph.vertices == u && b.graph.vertices == u && reported == []
                         && (old(a.Live()) && a.faithful ==> a.Live()) && (old(b.Live()) && b.faithful ==> b.Live()))
            && (done && Exact(a.config, u) && a.Live() && b.Live() ==> a.liveDRP == b.liveDRP && a.liveACL == b.liveACL)
            && (Exact(a.config, u) && a.faithful && b.faithful && old(a.Live()) && old(b.Live()) ==>
                  (done <==> NewExecute(a.config, old(a.graph.vertices), old(b.graph.vertices), u)
                             && FullReplay(a.config, u).Some?))
  {
    hide *;
    ghost var u := a.graph.vertices + b.graph.vertices;
    ghost var ra, rb := ReplicaOf(a), ReplicaOf(b);
    PartnersParts(a, b, now, u);
    ReplicaIsOK(a);
    ReplicaIsOK(b);
    PickCompletes(ra, rb, u);
    PickCompletes(rb, ra, u);
    MakeToward(a, u, now);
    MakeToward(b, u, now);
    PickExecutes(a.config, ra.g, rb, u);
    PickExecutes(a.config, rb.g, ra, u);
    NewSplit(a.config, ra.g, rb.g, u);
    AnswerIs(rb.g, rb.keys, ra.keys);
    var reply := SyncHandler(b.graph, a.graph.keys);
    ServeIsPick(ra, rb.g, u);
    if reply.None? {
      ServeNothing(u);
      NothingAdded(u, ra.g);
      NothingAdded(u, rb.g);
      if Exact(a.config, u) && a.Live() {
        LiveIs(a);
        if b.Live() { ReplicasAgree(a, b); }
      }
      return true, [];
    }
    var missing, invalid, more, wrong;
    done, missing, invalid := MergeArrived(a, reply.value.requested, now, u);
    if !done { return false, []; }
    var served := ServeRequested(a.graph, reply.value.requesting);
    done, more, wrong := MergeArrived(b, served, now, u);
    reported := missing + invalid + more + wrong;
    if done && Exact(a.config, u) && a.Live() && b.Live() { ReplicasAgree(a, b); }
  }

  lemma ServeNothing(g: Graph)
    ensures Serve(g, []) == []
  {}

  // ---------------------------------------------------------------- redelivery

  /** Every vertex of `u` executes, and every part of `u` can be replayed. */
  ghost predicate NeverThrows(c: Config, u: Graph)
    requires GraphOK(u)
  {
    && (forall h :: h in u && h != ROOT_HASH ==> ExecutesIn(c, u, u[h]))
    && (forall g :: GraphOK(g) && Grew(g, u) ==> FullReplay(c, g).Some?)
  }

  lemma PrefixPart(c: Config, u: Graph, t: Tally, vs: seq<Vertex>, now: int, i: nat)
    requires AllGenuine(c, u, now) && PartOf(u, t) && FromGraph(u, vs) && i <= |vs|
    ensures PartOf(u, DeliverAll(c, t, vs[..i], now))
  {
    assert FromGraph(u, vs[..i]);
    hide AllGenuine, PartOf, FromGraph, DeliverAll;
    DeliverAllGenuine(c, u, t, vs[..i], now);
  }

  /** In whatever order they come, vertices that execute in the end do so at their turn. */
  lemma AnyOrderAdmits(c: Config, u: Graph, t: Tally, vs: seq<Vertex>, now: int, i: nat)
    requires AllGenuine(c, u, now) && PartOf(u, t) && FromGraph(u, vs) && i < |vs| && GraphOK(u) && NeverThrows(c, u)
    ensures GraphOK(t.g) && AdmitsAt(c, t, vs, i, now)
  {
    hide *;
    var v, front := vs[i], DeliverAll(c, t, vs[..i], now);
    PartParts(u, t);
    PrefixPart(c, u, t, vs, now, i);
    PartParts(u, front);
    FromPrefix(u, vs, i);
    AdmitsMeans(c, t, vs, i, now, front);
    if !Skipped(front.g, v) && Validate(c, front.g, v, now).None? {
      SkippedPresent(front.g, v);
      RootHeld(front.g, v);
      ValidParts(c, front.g, v, now);
      NeverAt(c, u, v);
      ExecutesSame(c, front.g, u, v);
      ExecutesInIs(c, u, v);
    }
  }

  lemma RootHeld(g: Graph, v: Vertex)
    requires GraphOK(g) && v.hash !in g
    ensures v.hash != ROOT_HASH
  {}

  lemma NeverAt(c: Config, u: Graph, v: Vertex)
    requires GraphOK(u) && NeverThrows(c, u) && v.hash in u && u[v.hash] == v && v.hash != ROOT_HASH
    ensures ExecutesIn(c, u, v)
  {
    hide ExecutesIn, GraphOK, FullReplay;
  }

  lemma NeverPart(c: Config, u: Graph, g: Graph)
    requires GraphOK(u) && NeverThrows(c, u) && GraphOK(g) && Grew(g, u)
    ensures FullReplay(c, g).Some?
  {
    hide ExecutesIn, GraphOK, FullReplay;
  }

  lemma AnyOrderRuns(c: Config, u: Graph, t: Tally, vs: seq<Vertex>, now: int)
    requires AllGenuine(c, u, now) && PartOf(u, t) && FromGraph(u, vs) && GraphOK(u) && NeverThrows(c, u)
    ensures GraphOK(t.g) && Runs(c, t, vs, now)
  {
    PartParts(u, t);
    hide AllGenuine, PartOf, FromGraph, AdmitsAt, NeverThrows, GraphOK;
    forall i | 0 <= i < |vs| ensures AdmitsAt(c, t, vs, i, now) { AnyOrderAdmits(c, u, t, vs, now, i); }
  }

  /** One pass of redelivery. */
  method RedeliverOnce(r: DRPVertexApplier, p: Pass, ghost u: Graph) returns (done: bool)
    requires Toward(r, u, p.now) && FromGraph(u, p.batch)
    modifies r, r.graph
    ensures r.Valid() && r.graph.Valid() && r.faithful == old(r.faithful) && GraphOK(u)
    ensures PartOf(u, Open(r.graph.vertices, r.graph.keys, r.known))
    ensures done ==>
              var t := Merge(r.config, Open(old(r.graph.vertices), old(r.graph.keys), old(r.known)), p.batch, p.now);
              && r.graph.vertices == t.g && r.graph.keys == t.keys && r.known == t.known && (r.faithful ==> r.Live())
    ensures r.faithful && Exact(r.config, u) && NeverThrows(r.config, u) ==> done
  {
    hide *;
    ghost var t := Open(r.graph.vertices, r.graph.keys, r.known);
    OpenParts(r.graph.vertices, r.graph.keys, r.known);
    TowardParts(r, u, p.now);
    if NeverThrows(r.config, u) { AnyOrderRuns(r.config, u, t, p.batch, p.now); }
    PassGenuine(r.config, u, t.g, t.keys, t.known, p.batch, p.now);
    var result;
    ghost var turn;
    result, turn := r.MergeVertices(p.batch, p.now);
    ValidGraph(r);
    PrefixPart(r.config, u, t, p.batch, p.now, turn);
    var front := DeliverAll(r.config, t, p.batch[..turn], p.now);
    PartParts(u, front);
    if turn == |p.batch| {
      ReopenPart(u, Merge(r.config, t, p.batch, p.now));
    } else {
      ReopenPart(u, front);
    }
    if Exact(r.config, u) { ExactPart(r.config, r.graph.vertices, u); }
    if NeverThrows(r.config, u) { NeverPart(r.config, u, r.graph.vertices); }
    done := result.Merged?;
  }

  lemma RedeliverStep(c: Config, g: Graph, keys: seq<Hash>, known: seq<Hash>, passes: seq<Pass>, i: nat)
    requires i < |passes|
    ensures var t := Merge(c, Open(g, keys, known), passes[i].batch, passes[i].now);
            Redeliver(c, g, keys, known, passes[i..]) == Redeliver(c, t.g, t.keys, t.known, passes[i + 1..])
  {
    assert passes[i..][1..] == passes[i + 1..];
  }

  lemma RedeliverEnd(c: Config, g: Graph, keys: seq<Hash>, known: seq<Hash>)
    ensures Redeliver(c, g, keys, known, []) == Open(g, keys, known)
  {}

  lemma RedeliversParts(c: Config, u: Graph, g: Graph, p: Pass)
    requires Redelivers(c, u, g, p)
    ensures AllGenuine(c, u, p.now) && FromGraph(u, p.batch)
  {}

  /**
   Redelivery on a replica.  After as many completed passes as vertices were missing, in whatever
   order each pass lists them, the replica holds `u`, and on an exact `u` its live state is the replay
   of `u`: the same graph and state for every order.  When nothing in `u` throws, every pass completes.
   */
  method RedeliverAll(r: DRPVertexApplier, passes: seq<Pass>, ghost u: Graph) returns (done: bool)
    requires r.Valid() && GraphOK(u) && PartOf(u, Open(r.graph.vertices, r.graph.keys, r.known))
    requires forall p :: p in passes ==> Redelivers(r.config, u, r.graph.vertices, p)
    modifies r, r.graph
    ensures r.Valid() && r.graph.Valid() && old(r.graph.Valid()) && r.faithful == old(r.faithful)
    ensures PartOf(u, Open(r.graph.vertices, r.graph.keys, r.known))
    ensures done && |passes| >= |u| - old(|r.graph.vertices|) ==>
              && r.graph.vertices == u && r.known == old(r.known)
              && (Exact(r.config, u) && r.faithful && (passes == [] ==> old(r.Live())) ==>
                    FullReplay(r.config, u) == Some(Snapshot(r.liveDRP, r.liveACL)))
    ensures r.faithful && Exact(r.config, u) && NeverThrows(r.config, u) ==> done
  {
    hide *;
    ghost var c, g, keys, known := r.config, r.graph.vertices, r.graph.keys, r.known;
    ghost var end := Redeliver(c, g, keys, known, passes);
    RedeliveryConverges(c, u, g, keys, known, passes);
    ValidGraph(r);
    assert passes[0..] == passes;
    for i := 0 to |passes|
      invariant r.Valid() && r.graph.Valid() && r.faithful == old(r.faithful)
      invariant PartOf(u, Open(r.graph.vertices, r.graph.keys, r.known))
      invariant Redeliver(c, r.graph.vertices, r.graph.keys, r.known, passes[i..]) == end
      invariant r.faithful && (i == 0 ==> old(r.Live())) ==> r.Live()
    {
      assert passes[i] in passes;
      RedeliversParts(c, u, g, passes[i]);
      MakeToward(r, u, passes[i].now);
      RedeliverStep(c, r.graph.vertices, r.graph.keys, r.known, passes, i);
      done := RedeliverOnce(r, passes[i], u);
      if !done { return false; }
    }
    assert passes[|passes|..] == [];
    RedeliverEnd(c, r.graph.vertices, r.graph.keys, r.known);
    OpenParts(r.graph.vertices, r.graph.keys, r.known);
    if r.graph.vertices == u && Exact(c, u) && r.Live() { LiveIs(r); }
    done := true;
  }
}
