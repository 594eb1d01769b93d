/**
 Convergence of replicas: redelivery in any order, and the SYNC exchange.

 `u` is the graph the replicas converge to.  All statements are for every batch order and every
 starting graph below `u`.
 */
module Convergence {
  import opened HashGraphs
  import opened TopologicalSort
  import opened CausalBarrier
  import opened Replay
  import opened BarrierTest
  import opened GraphStore
  import opened ReplicaSpec
  import opened MergeSpec

  /** A vertex that validates once its dependencies are present. */
  ghost predicate Genuine(c: Config, u: Graph, v: Vertex, now: int) {
    && c.validHash(v) && v.operation.Some? && v.operation.value.opType != NOP
    && v.dependencies != [] && !TooEarly(v.timestamp, now)
    && forall d :: d in v.dependencies ==> d in u && !TooEarly(u[d].timestamp, v.timestamp)
  }

  /** A well-formed graph all of whose vertices validate. */
  ghost predicate AllGenuine(c: Config, u: Graph, now: int) {
    GraphOK(u) && forall h :: h in u && h != ROOT_HASH ==> Genuine(c, u, u[h], now)
  }

  /** A replica on its way to `u`: a well-formed part of it, with no member of `u` held to be invalid. */
  ghost predicate PartOf(u: Graph, t: Tally) {
    GraphOK(t.g) && Grew(t.g, u) && forall h :: h in t.known || h in t.bad ==> h !in u
  }

  ghost predicate Ready(g: Graph, v: Vertex) {
    forall d :: d in v.dependencies ==> d in g
  }

  lemma GenuineValidates(c: Config, u: Graph, t: Tally, v: Vertex, now: int)
    requires PartOf(u, t) && Genuine(c, u, v, now)
    ensures Validate(c, t.g, v, now) == if Ready(t.g, v) then None else Some(BadDependencies)
    ensures !Ready(t.g, v) ==> Waits(t.g, t.known, v, BadDependencies)
  {
    GenuineChecks(u, t.g, v.dependencies, v.timestamp);
    hide GraphOK, CheckDependencies;
    if !Ready(t.g, v) {
      var d :| d in v.dependencies && d !in t.g;
      assert d in Unresolved(t.g, v.dependencies) && d !in t.known;
    }
  }

  lemma GenuineChecks(u: Graph, g: Graph, deps: seq<Hash>, timestamp: int)
    requires Grew(g, u) && forall d :: d in deps ==> d in u && !TooEarly(u[d].timestamp, timestamp)
    ensures CheckDependencies(g, deps, timestamp)
            == if forall d :: d in deps ==> d in g then None else Some(BadDependencies)
  {
    CheckedDependencies(g, deps, timestamp);
    NoTimestampFailure(u, g, deps, timestamp);
    hide CheckDependencies;
    forall d | d in deps && d in g ensures !TooEarly(g[d].timestamp, timestamp) { assert g[d] == u[d]; }
    var r := CheckDependencies(g, deps, timestamp);
    assert r == None || r == Some(BadDependencies) by {
      if r.Some? { match r.value { case BadHash => case BadDependencies => case BadTimestamp => } }
    }
  }

  /** With timely dependencies the only possible failure is an absent one. */
  lemma {:induction false} NoTimestampFailure(u: Graph, g: Graph, deps: seq<Hash>, timestamp: int)
    requires Grew(g, u) && forall d :: d in deps ==> d in u && !TooEarly(u[d].timestamp, timestamp)
    ensures CheckDependencies(g, deps, timestamp) != Some(BadTimestamp)
    decreases |deps|
  {
    if deps != [] {
      assert deps[0] in deps;
      if deps[0] in g { assert g[deps[0]] == u[deps[0]]; }
      NoTimestampFailure(u, g, deps[1..], timestamp);
    }
  }

  /** Delivering a genuine vertex adds it when its dependencies are present, and holds it otherwise. */
  lemma DeliverGenuine(c: Config, u: Graph, t: Tally, v: Vertex, now: int)
    requires PartOf(u, t) && v.hash in u && u[v.hash] == v && (v.hash == ROOT_HASH || Genuine(c, u, v, now))
    ensures var r := Deliver(c, t, v, now);
            && PartOf(u, r) && Grew(t.g, r.g) && r.known == t.known && r.bad == t.bad && r.invalid == t.invalid
            && r == (if v.hash in t.g then t
                     else if Ready(t.g, v) then t.(g := t.g[v.hash := v], keys := t.keys + [v.hash])
                     else Hold(t, v))
  {
    if v.hash == ROOT_HASH {
      assert v.hash in t.g;
    } else if v.hash !in t.g {
      hide Validate, Waits, GraphOK;
      GenuineValidates(c, u, t, v, now);
      if Validate(c, t.g, v, now).None? {
        ValidAddable(c, t.g, v, now);
        GraphAdded(t.g, v);
      }
    }
  }

  // ---------------------------------------------------------------- redelivery

  /** The batch holds only vertices of `u`. */
  ghost predicate FromGraph(u: Graph, vs: seq<Vertex>) {
    forall v :: v in vs ==> v.hash in u && u[v.hash] == v
  }

  lemma {:induction false} DeliverAllGenuine(c: Config, u: Graph, t: Tally, vs: seq<Vertex>, now: int)
    requires AllGenuine(c, u, now) && PartOf(u, t) && FromGraph(u, vs)
    ensures var r := DeliverAll(c, t, vs, now);
            && PartOf(u, r) && Grew(t.g, r.g) && r.known == t.known && r.bad == t.bad && r.invalid == t.invalid
            && (forall v :: v in vs && Ready(t.g, v) ==> v.hash in r.g)
    decreases |vs|
  {
    if vs != [] {
      var v := vs[0];
      assert v in vs && vs == [v] + vs[1..];
      DeliverGenuine(c, u, t, v, now);
      var next := Deliver(c, t, v, now);
      assert FromGraph(u, vs[1..]);
      DeliverAllGenuine(c, u, next, vs[1..], now);
      hide Deliver, DeliverAll, Genuine, PartOf;
      forall w | w in vs && Ready(t.g, w)
        ensures w.hash in DeliverAll(c, next, vs[1..], now).g
      {
        if w != v { assert w in vs[1..]; }
      }
    }
  }

  /** Every held hash is a member of `u`, so nothing held is ever doomed. */
  ghost predicate HeldInside(u: Graph, t: Tally) {
    forall h :: h in t.held ==> Members(u, t.held[h].dependencies)
  }

  lemma NotDoomed(u: Graph, t: Tally, h: Hash)
    requires PartOf(u, t) && HeldInside(u, t)
    ensures !Doomed(t, h)
  {
    hide GraphOK;
    if h in t.held { FirstMember(Unresolved(t.g, t.held[h].dependencies)); }
  }

  lemma {:induction false} DeliverHeld(c: Config, u: Graph, t: Tally, vs: seq<Vertex>, now: int)
    requires AllGenuine(c, u, now) && PartOf(u, t) && FromGraph(u, vs) && HeldInside(u, t)
    ensures HeldInside(u, DeliverAll(c, t, vs, now))
    decreases |vs|
  {
    if vs != [] {
      var v := vs[0];
      assert v in vs && vs == [v] + vs[1..];
      assert FromGraph(u, vs[1..]);
      DeliverGenuine(c, u, t, v, now);
      hide Deliver, PartOf, FromGraph;
      assert Members(u, v.dependencies) by { GraphMembers(u, v.hash); }
      DeliverHeld(c, u, Deliver(c, t, v, now), vs[1..], now);
    }
  }

  lemma GraphMembers(u: Graph, h: Hash)
    requires GraphOK(u) && h in u
    ensures Members(u, u[h].dependencies)
  {}

  lemma NothingSettles(u: Graph, t: Tally, n: nat)
    requires PartOf(u, t) && HeldInside(u, t)
    ensures SettleAll(t, n) == t
  {
    forall h ensures !Doomed(t, h) { NotDoomed(u, t, h); }
    FirstMember(Condemned(t, t.missing));
  }

  /** One pass: nothing valid is rejected, nothing present is lost, and what can be added is added. */
  lemma PassGenuine(c: Config, u: Graph, g: Graph, keys: seq<Hash>, known: seq<Hash>, vs: seq<Vertex>, now: int)
    requires AllGenuine(c, u, now) && PartOf(u, Open(g, keys, known)) && FromGraph(u, vs)
    ensures var r := Merge(c, Open(g, keys, known), vs, now);
            && PartOf(u, r) && Grew(g, r.g) && r.known == known && r.invalid == [] && r.bad == {}
            && (forall v :: v in vs && Ready(g, v) ==> v.hash in r.g)
  {
    hide Deliver, DeliverAll, SettleAll, Genuine, GraphOK;
    var t := Open(g, keys, known);
    DeliverAllGenuine(c, u, t, vs, now);
    DeliverHeld(c, u, t, vs, now);
    NothingSettles(u, DeliverAll(c, t, vs, now), |vs|);
  }

  /** Some absent vertex has all its dependencies present. */
  lemma {:induction false} ReadyVertex(u: Graph, g: Graph, h: Hash) returns (r: Hash)
    requires GraphOK(u) && h in u && h !in g
    ensures r in u && r !in g && forall d :: d in u[r].dependencies ==> d in g
    decreases |Ancestors(u, h)|
  {
    if d :| d in u[h].dependencies && d !in g {
      AncestorsShrink(u, d, h);
      SmallerSet(Ancestors(u, d), Ancestors(u, h));
      r := ReadyVertex(u, g, d);
    } else {
      r := h;
    }
  }

  /** A pass over everything absent adds at least one vertex. */
  lemma PassProgress(c: Config, u: Graph, g: Graph, keys: seq<Hash>, known: seq<Hash>, vs: seq<Vertex>, now: int)
    requires AllGenuine(c, u, now) && PartOf(u, Open(g, keys, known)) && FromGraph(u, vs)
    requires forall h :: h in u && h !in g ==> u[h] in vs
    ensures g != u ==> |Merge(c, Open(g, keys, known), vs, now).g| > |g|
  {
    PassGenuine(c, u, g, keys, known, vs, now);
    if g != u {
      var h :| h in u && h !in g by { NotWhole(u, g); }
      var r := ReadyVertex(u, g, h);
      assert u[r] in vs && u[r].hash == r;
      hide Merge;
      var g' := Merge(c, Open(g, keys, known), vs, now).g;
      assert r in g' && g.Keys < g'.Keys;
      SmallerSet(g.Keys, g'.Keys);
      assert |g| == |g.Keys| && |g'| == |g'.Keys|;
    }
  }

  lemma NotWhole(u: Graph, g: Graph)
    requires Grew(g, u)
    ensures g == u || exists h :: h in u && h !in g
  {
    assert g.Keys == u.Keys ==> g == u;
  }

  datatype Pass = Pass(batch: seq<Vertex>, now: int)

  /** Merge the batches one after the other. */
  function Redeliver(c: Config, g: Graph, keys: seq<Hash>, known: seq<Hash>, passes: seq<Pass>): Tally
    decreases |passes|
  {
    if passes == [] then Open(g, keys, known)
    else
      var t := Merge(c, Open(g, keys, known), passes[0].batch, passes[0].now);
      Redeliver(c, t.g, t.keys, t.known, passes[1..])
  }

  ghost predicate Redelivers(c: Config, u: Graph, g: Graph, p: Pass) {
    AllGenuine(c, u, p.now) && FromGraph(u, p.batch) && forall h :: h in u && h !in g ==> u[h] in p.batch
  }

  /**
   Redelivery converges in any order: merging the missing vertices again and again, in any order
   each time, ends with the graph `u` within as many passes as vertices were missing, and never
   remembers a valid vertex as invalid.
   */
  lemma {:induction false} RedeliveryConverges(c: Config, u: Graph, g: Graph, keys: seq<Hash>, known: seq<Hash>,
                                               passes: seq<Pass>)
    requires PartOf(u, Open(g, keys, known)) && forall p :: p in passes ==> Redelivers(c, u, g, p)
    ensures var t := Redeliver(c, g, keys, known, passes);
            && PartOf(u, t) && t.known == known && Grew(g, t.g)
            && (|passes| >= |u| - |g| ==> t.g == u)
    decreases |passes|
  {
    if passes == [] {
      WholeBySize(u, g);
    } else {
      hide Merge, GraphOK, AllGenuine;
      var p := passes[0];
      assert p in passes && Redelivers(c, u, g, p);
      PassGenuine(c, u, g, keys, known, p.batch, p.now);
      PassProgress(c, u, g, keys, known, p.batch, p.now);
      var t := Merge(c, Open(g, keys, known), p.batch, p.now);
      forall q | q in passes[1..] ensures Redelivers(c, u, t.g, q) { assert q in passes; }
      ReopenPart(u, t);
      hide PartOf, Redelivers;
      RedeliveryConverges(c, u, t.g, t.keys, t.known, passes[1..]);
      var r := Redeliver(c, t.g, t.keys, t.known, passes[1..]);
      GrewTrans(g, t.g, r.g);
      assert |passes[1..]| == |passes| - 1;
      WholeBySize(u, g) by { PartGrew(u, g, keys, known); }
    }
  }

  lemma ReopenPart(u: Graph, t: Tally)
    requires PartOf(u, t)
    ensures PartOf(u, Open(t.g, t.keys, t.known))
  {}

  lemma PartGrew(u: Graph, g: Graph, keys: seq<Hash>, known: seq<Hash>)
    requires PartOf(u, Open(g, keys, known))
    ensures Grew(g, u)
  {}

  lemma GrewTrans(a: Graph, b: Graph, c: Graph)
    requires Grew(a, b) && Grew(b, c)
    ensures Grew(a, c)
  {}

  lemma WholeBySize(u: Graph, g: Graph)
    requires Grew(g, u)
    ensures |u| <= |g| ==> g == u
  {
    NotWhole(u, g);
    if g != u {
      assert g.Keys < u.Keys;
      SmallerSet(g.Keys, u.Keys);
      assert |g| == |g.Keys| && |u| == |u.Keys|;
    }
  }

  // ---------------------------------------------------------------- an ordered delivery

  /** Each vertex of the list is absent, and depends on what is present or earlier in the list. */
  ghost predicate Ordered(g: Graph, vs: seq<Vertex>) {
    && Distinct(Hashes(vs)) && (forall v :: v in vs ==> v.hash !in g)
    && forall i, d :: 0 <= i < |vs| && d in vs[i].dependencies ==> d in g || d in Hashes(vs[..i])
  }

  /** The graph with the listed vertices added. */
  function AddAll(g: Graph, vs: seq<Vertex>): (r: Graph)
    ensures forall h :: h in r <==> h in g || h in Hashes(vs)
    decreases |vs|
  {
    if vs == [] then g
    else
      assert Hashes(vs) == [vs[0].hash] + Hashes(vs[1..]);
      AddAll(g[vs[0].hash := vs[0]], vs[1..])
  }

  lemma OrderedTail(g: Graph, vs: seq<Vertex>)
    requires Ordered(g, vs) && vs != []
    ensures Ordered(g[vs[0].hash := vs[0]], vs[1..])
    ensures Ready(g, vs[0]) && vs[0].hash !in g
  {
    var v, rest := vs[0], vs[1..];
    assert v in vs && vs[..0] == [] && Hashes([]) == [];
    HashesCons(vs);
    assert Distinct(Hashes(rest)) && v.hash !in Hashes(rest) by { hide Hashes; DistinctTail(v.hash, Hashes(rest)); }
    forall w | w in rest ensures w.hash !in g[v.hash := v] { HashIn(rest, w); assert w in vs; }
    forall i, d | 0 <= i < |rest| && d in rest[i].dependencies ensures d in g[v.hash := v] || d in Hashes(rest[..i]) {
      OrderedShift(g, vs, i, d);
    }
  }

  lemma DistinctTail(h: Hash, hs: seq<Hash>)
    requires Distinct([h] + hs)
    ensures Distinct(hs) && h !in hs
  {
    var all := [h] + hs;
    assert forall i :: 0 <= i < |hs| ==> hs[i] == all[i + 1];
    assert all[0] == h;
  }

  lemma OrderedShift(g: Graph, vs: seq<Vertex>, i: nat, d: Hash)
    requires Ordered(g, vs) && i + 1 < |vs| && d in vs[i + 1].dependencies
    ensures d in g || d == vs[0].hash || d in Hashes(vs[1..][..i])
  {
    hide Distinct;
    var front := vs[..i + 1];
    assert front[1..] == vs[1..][..i];
    HashesCons(front);
  }

  /** Delivering an ordered list adds all of it and holds nothing back. */
  lemma {:induction false} DeliverOrdered(c: Config, u: Graph, t: Tally, vs: seq<Vertex>, now: int)
    requires AllGenuine(c, u, now) && PartOf(u, t) && FromGraph(u, vs) && Ordered(t.g, vs)
    ensures DeliverAll(c, t, vs, now) == t.(g := AddAll(t.g, vs), keys := t.keys + Hashes(vs))
    ensures PartOf(u, DeliverAll(c, t, vs, now))
    decreases |vs|
  {
    hide *;
    DeliverAllStep(c, t, vs, now);
    AddAllStep(t.g, vs);
    if vs == [] {
      assert t.keys + Hashes(vs) == t.keys;
    } else {
      var v := vs[0];
      OrderedTail(t.g, vs);
      FromGraphTail(u, vs);
      AllGenuineOf(c, u, v, now);
      DeliverGenuine(c, u, t, v, now);
      var next := Deliver(c, t, v, now);
      DeliverOrdered(c, u, next, vs[1..], now);
      HashesCons(vs);
      assert t.keys + Hashes(vs) == (t.keys + [v.hash]) + Hashes(vs[1..]);
    }
  }

  lemma DeliverAllStep(c: Config, t: Tally, vs: seq<Vertex>, now: int)
    ensures DeliverAll(c, t, vs, now) == if vs == [] then t else DeliverAll(c, Deliver(c, t, vs[0], now), vs[1..], now)
  {}

  lemma AddAllStep(g: Graph, vs: seq<Vertex>)
    ensures AddAll(g, vs) == if vs == [] then g else AddAll(g[vs[0].hash := vs[0]], vs[1..])
  {}

  lemma HashesCons(vs: seq<Vertex>)
    requires vs != []
    ensures Hashes(vs) == [vs[0].hash] + Hashes(vs[1..])
  {}

  lemma FromGraphTail(u: Graph, vs: seq<Vertex>)
    requires FromGraph(u, vs) && vs != []
    ensures FromGraph(u, vs[1..]) && vs[0].hash in u && u[vs[0].hash] == vs[0]
  {
    assert vs[0] in vs;
  }

  lemma AllGenuineOf(c: Config, u: Graph, v: Vertex, now: int)
    requires AllGenuine(c, u, now) && v.hash in u && u[v.hash] == v
    ensures v.hash == ROOT_HASH || Genuine(c, u, v, now)
  {}
}
