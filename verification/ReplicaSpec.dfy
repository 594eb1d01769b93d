/**
 What a replica's caches must hold, and why adding a vertex keeps it.

 A snapshot of a hash is the replay of that hash's past; a checkpoint's state is the replay of the
 past of its frontier.  Adding a vertex changes neither, and the new vertex is one step on top of
 the replay of its dependencies.
 */
module ReplicaSpec {
  import opened HashGraphs
  import opened TopologicalSort
  import opened CausalBarrier
  import opened PairLinearizer
  import opened Linearization
  import opened Replay
  import opened BarrierTest
  import opened GraphStore

  /** Application code that neither adds nor removes properties of its object. */
  ghost predicate KeepsKeys(bp: Blueprint) {
    && (forall st, p, op :: bp.applyDRP(st, p, op).Some? ==> bp.applyDRP(st, p, op).value.Keys == st.Keys)
    && (forall st, p, op :: bp.applyACL(st, p, op).Some? ==> bp.applyACL(st, p, op).value.Keys == st.Keys)
  }

  /** A configuration whose resolvers settle on the vertices of `g`, and whose methods keep property names. */
  ghost predicate Sound(c: Config, g: Graph) {
    Settled(c.pol, g) && KeepsKeys(c.bp)
  }

  /** Reduced dependency lists, and operations addressed to the DRP or the ACL. */
  ghost predicate Clean(g: Graph) {
    Reduced(g) && forall h :: h in g && h != ROOT_HASH ==> Typed(g[h])
  }

  // ---------------------------------------------------------------- applying a vertex

  /** The step a vertex takes when it is applied itself, rather than replayed. */
  function OwnStep(bp: Blueprint, st: Snapshot, v: Vertex): Option<Snapshot> {
    if IsACL(v) then
      match Run1(bp.applyACL, st.acl, v) case None => None case Some(acl) => Some(st.(acl := acl))
    else
      match Run1(bp.applyDRP, st.drp, v) case None => None case Some(drp) => Some(st.(drp := drp))
  }

  /** Copy the properties of `next` onto the live object. */
  function Assign(live: State, next: State): State {
    live + next
  }

  /** Copying leaves exactly the new state when, and only when, no property disappeared. */
  lemma AssignExact(live: State, next: State)
    ensures Assign(live, next) == next <==> live.Keys <= next.Keys
  {
    if live.Keys <= next.Keys {
      assert Assign(live, next).Keys == next.Keys;
    } else {
      var k :| k in live.Keys && k !in next.Keys;
      assert k in Assign(live, next);
    }
  }

  ghost predicate SameKeys(a: Snapshot, b: Snapshot) {
    a.drp.Keys == b.drp.Keys && a.acl.Keys == b.acl.Keys
  }

  lemma {:induction false} ReplayedKeys(bp: Blueprint, st: Snapshot, vs: seq<Vertex>)
    requires KeepsKeys(bp)
    ensures Replayed(bp, st, vs).Some? ==> SameKeys(Replayed(bp, st, vs).value, st)
    decreases |vs|
  {
    if vs != [] && Step(bp, st, vs[0]).Some? {
      StepKeys(bp, st, vs[0]);
      ReplayedKeys(bp, Step(bp, st, vs[0]).value, vs[1..]);
    }
  }

  lemma StepKeys(bp: Blueprint, st: Snapshot, v: Vertex)
    requires KeepsKeys(bp)
    ensures Step(bp, st, v).Some? ==> SameKeys(Step(bp, st, v).value, st)
    ensures OwnStep(bp, st, v).Some? ==> SameKeys(OwnStep(bp, st, v).value, st)
  {}

  // ---------------------------------------------------------------- adding a vertex

  ghost predicate Addable(g: Graph, v: Vertex) {
    v.hash !in g && v.dependencies != [] && Members(g, v.dependencies)
  }

  lemma CleanBefore(g: Graph, v: Vertex)
    requires GraphOK(g) && Addable(g, v) && Clean(g[v.hash := v])
    ensures Clean(g)
  {
    var t := g[v.hash := v];
    forall h | h in g ensures Distinct(g[h].dependencies) && Antichain(g, g[h].dependencies) {
      assert t[h] == g[h];
      forall p, q | p in g[h].dependencies && q in g[h].dependencies ensures !Below(g, p, q) {
        BelowAdd(g, v, p, q);
        assert Antichain(t, t[h].dependencies);
      }
    }
    forall h | h in g && h != ROOT_HASH ensures Typed(g[h]) { assert t[h] == g[h]; }
  }

  lemma FrontierKept(g: Graph, v: Vertex, B: seq<Hash>)
    requires GraphOK(g) && Addable(g, v) && Frontier(g, B)
    ensures Frontier(g[v.hash := v], B)
  {
    forall p, q | p in B && q in B ensures !Below(g[v.hash := v], p, q) { BelowAdd(g, v, p, q); }
  }

  /** The replay of a past does not depend on what is added elsewhere. */
  lemma PastReplayKept(c: Config, g: Graph, v: Vertex, D: seq<Hash>)
    requires GraphOK(g) && Addable(g, v) && D != [] && Members(g, D)
    ensures GraphOK(g[v.hash := v]) && Members(g[v.hash := v], D)
    ensures PastReplay(c, g[v.hash := v], D) == PastReplay(c, g, D)
  {
    var t := g[v.hash := v];
    AddOK(g, v);
    assert Elems(D) <= g.Keys;
    hide Past, Sub, FullReplay, GraphOK;
    PastAdd(g, v, Elems(D)) by { ClosedOf(g); }
  }

  lemma ClosedOf(g: Graph)
    requires GraphOK(g)
    ensures Closed(g)
  {}

  lemma InPastOne(g: Graph, x: Hash, h: Hash)
    ensures h in Past(g, {x}) <==> h in g && AtMost(g, h, x)
  {
    if h in g && AtMost(g, h, x) { assert x in {x}; }
  }

  /** The past of a new vertex is the past of its dependencies and the vertex itself. */
  lemma NewPast(g: Graph, v: Vertex)
    requires GraphOK(g) && Addable(g, v)
    ensures var t := g[v.hash := v];
            && Past(t, {v.hash}) == Past(g, Elems(v.dependencies)) + {v.hash}
            && Sub(t, Past(t, {v.hash})) == Sub(g, Past(g, Elems(v.dependencies)))[v.hash := v]
  {
    var t, D := g[v.hash := v], Elems(v.dependencies);
    forall h ensures h in Past(t, {v.hash}) <==> h in Past(g, D) || h == v.hash {
      InPastOne(t, v.hash, h);
      BelowNew(g, v, h);
      if h in g { InPast(g, v.dependencies, h); }
    }
    assert v.hash !in Past(g, D);
  }

  lemma NewAbove(g: Graph, v: Vertex, p: Graph, t: Graph)
    requires GraphOK(g) && Addable(g, v)
    requires p == Sub(g, Past(g, Elems(v.dependencies))) && t == p[v.hash := v] && GraphOK(p)
    ensures Addable(p, v) && forall h :: h in p ==> Below(t, h, v.hash)
  {
    var D := v.dependencies;
    PastOK(g, D);
    forall d | d in D ensures d in p { InPast(g, D, d); }
    forall h | h in p ensures Below(t, h, v.hash) {
      InPast(g, D, h);
      var d :| d in D && AtMost(g, h, d);
      BelowInClosed(g, Past(g, Elems(D)), h, d);
      BelowNew(p, v, h);
    }
  }

  /** A vertex is one step on top of the replay of its dependencies. */
  lemma NewReplay(c: Config, g: Graph, v: Vertex)
    requires Sound(c, g[v.hash := v]) && GraphOK(g) && Addable(g, v) && Clean(g[v.hash := v])
    ensures GraphOK(g[v.hash := v])
    ensures PastReplay(c, g[v.hash := v], [v.hash])
            == match PastReplay(c, g, v.dependencies) case None => None case Some(st) => OwnStep(c.bp, st, v)
  {
    hide *;
    var t := g[v.hash := v];
    GraphAdded(g, v);
    UnfoldPast(c, t, [v.hash]);
    UnfoldPast(c, g, v.dependencies);
    NewPast(g, v);
    SingleElem(v.hash);
    var p := Sub(g, Past(g, Elems(v.dependencies)));
    var q := p[v.hash := v];
    NewAbove(g, v, p, q);
    AddableNew(p, v);
    CleanParts(t);
    ReducedSub(t, Past(t, {v.hash}));
    SoundParts(c, t);
    SettledSub(c.pol, t, Past(t, {v.hash}));
    TopReplay(c, p, v, q);
    CleanTyped(g, v);
    forall st ensures OwnStep(c.bp, st, v) == Step(c.bp, st, v) { TypedStep(c.bp, st, v); }
  }

  lemma SingleElem(h: Hash)
    ensures Elems([h]) == {h}
  {}

  lemma AddableNew(g: Graph, v: Vertex)
    requires Addable(g, v)
    ensures v.hash !in g
  {}

  lemma CleanParts(g: Graph)
    requires Clean(g)
    ensures Reduced(g)
  {}

  lemma SoundParts(c: Config, g: Graph)
    requires Sound(c, g)
    ensures Settled(c.pol, g) && KeepsKeys(c.bp)
  {}

  lemma CleanTyped(g: Graph, v: Vertex)
    requires GraphOK(g) && Addable(g, v) && Clean(g[v.hash := v])
    ensures Typed(v)
  {
    assert v.hash in g[v.hash := v];
  }

  lemma GraphAdded(g: Graph, v: Vertex)
    requires GraphOK(g) && Addable(g, v)
    ensures v.dependencies != [] && Members(g, v.dependencies)
    ensures GraphOK(g[v.hash := v]) && Members(g[v.hash := v], [v.hash])
  {
    AddOK(g, v);
  }

  /** Applying an operation and replaying it agree exactly on operations addressed to DRP or ACL. */
  lemma TypedStep(bp: Blueprint, st: Snapshot, v: Vertex)
    requires Typed(v)
    ensures OwnStep(bp, st, v) == Step(bp, st, v)
  {}

  /** ... and differ for some application on every other operation. */
  lemma UntypedStepsDiffer(v: Vertex)
    requires v.operation.Some? && !Typed(v)
    ensures exists bp: Blueprint, st: Snapshot :: KeepsKeys(bp) && OwnStep(bp, st, v) != Step(bp, st, v)
  {
    var write: Apply := (s: State, p: string, op: Operation) => Some(map k | k in s :: "written");
    var keep: Apply := (s: State, p: string, op: Operation) => Some(s);
    var bp := Blueprint(write, keep, (s, p) => true);
    var st := Snapshot(map["x" := "old"], map["y" := "old"]);
    assert (map k | k in st.drp :: "written")["x"] == "written";
    assert OwnStep(bp, st, v).value.drp["x"] == "written" && Step(bp, st, v).value.drp["x"] == "old";
    assert KeepsKeys(bp);
  }

  /** A vertex on top of the whole frontier extends the replay of the whole graph by one step. */
  lemma LocalReplay(c: Config, g: Graph, v: Vertex)
    requires Sound(c, g[v.hash := v]) && GraphOK(g) && Addable(g, v) && Clean(g[v.hash := v])
    requires IsFrontier(g, v.dependencies)
    ensures GraphOK(g[v.hash := v])
    ensures PastReplay(c, g[v.hash := v], [v.hash]) == FullReplay(c, g[v.hash := v])
    ensures FullReplay(c, g[v.hash := v])
            == match FullReplay(c, g) case None => None case Some(st) => OwnStep(c.bp, st, v)
  {
    hide *;
    var t := g[v.hash := v];
    FrontierNonEmpty(g, v.dependencies);
    GraphAdded(g, v);
    NewReplay(c, g, v);
    UnfoldPast(c, g, v.dependencies);
    UnfoldPast(c, t, [v.hash]);
    SubAll(g);
    NewPast(g, v);
    SingleElem(v.hash);
  }

  lemma SubAll(g: Graph)
    ensures Sub(g, g.Keys) == g
  {}

  /** The replay of the past of the frontier is the replay of the graph. */
  lemma FrontierReplay(c: Config, g: Graph, frontier: seq<Hash>)
    requires GraphOK(g) && IsFrontier(g, frontier)
    ensures frontier != [] && Members(g, frontier) && Frontier(g, frontier)
    ensures PastReplay(c, g, frontier) == FullReplay(c, g)
  {
    hide *;
    FrontierNonEmpty(g, frontier);
    FrontierMembers(g, frontier) by { ClosedOf(g); }
    UnfoldPast(c, g, frontier);
    SubAll(g);
  }
}
