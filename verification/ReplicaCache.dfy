/** Checkpoints and snapshots: their shape, the values they must hold, and how both are kept. */
module ReplicaCache {
  import opened HashGraphs
  import opened TopologicalSort
  import opened CausalBarrier
  import opened PairLinearizer
  import opened Linearization
  import opened Replay
  import opened BarrierTest
  import opened GraphStore
  import opened ReplicaSpec

  const MAX_CHECKPOINTS: nat := 32

  datatype Checkpoint = Checkpoint(frontier: seq<Hash>, origin: Hash, vertexCount: nat, state: Snapshot)

  type States = map<Hash, State>

  /** The conditions under which the caches are exact. */
  ghost predicate Exact(c: Config, g: Graph) {
    Sound(c, g) && Clean(g)
  }

  // ---------------------------------------------------------------- shape

  ghost predicate CheckpointFits(g: Graph, cp: Checkpoint) {
    Frontier(g, cp.frontier) && cp.origin in cp.frontier && cp.vertexCount <= |g|
  }

  /** The root checkpoint is first, there are at most 32, and their vertex counts increase strictly. */
  ghost predicate CheckpointShape(g: Graph, cps: seq<Checkpoint>) {
    && 1 <= |cps| <= MAX_CHECKPOINTS
    && cps[0].frontier == [ROOT_HASH] && cps[0].vertexCount == 1
    && (forall i :: 0 <= i < |cps| ==> CheckpointFits(g, cps[i]))
    && (forall i, j :: 0 <= i < j < |cps| ==> cps[i].vertexCount < cps[j].vertexCount)
  }

  ghost predicate SnapshotShape(g: Graph, drps: States, acls: States) {
    drps.Keys == acls.Keys && drps.Keys <= g.Keys && ROOT_HASH in drps
  }

  lemma FitsParts(g: Graph, cp: Checkpoint)
    requires CheckpointFits(g, cp)
    ensures Frontier(g, cp.frontier) && cp.frontier != [] && Members(g, cp.frontier) && cp.origin in cp.frontier
            && cp.origin in g
  {}

  lemma FitsKept(g: Graph, v: Vertex, cp: Checkpoint)
    requires GraphOK(g) && Addable(g, v) && CheckpointFits(g, cp)
    ensures CheckpointFits(g[v.hash := v], cp)
  {
    FrontierKept(g, v, cp.frontier);
    assert |g[v.hash := v]| == |g| + 1 by {
      assert g[v.hash := v].Keys == g.Keys + {v.hash};
      assert |g| == |g.Keys| && |g[v.hash := v]| == |g[v.hash := v].Keys|;
    }
  }

  lemma ShapeKept(g: Graph, v: Vertex, cps: seq<Checkpoint>)
    requires GraphOK(g) && Addable(g, v) && CheckpointShape(g, cps)
    ensures CheckpointShape(g[v.hash := v], cps)
  {
    hide CheckpointFits, GraphOK;
    forall i | 0 <= i < |cps| ensures CheckpointFits(g[v.hash := v], cps[i]) { FitsKept(g, v, cps[i]); }
  }

  // ---------------------------------------------------------------- values

  /** The checkpoint holds the replay of the past of its frontier. */
  ghost predicate CheckpointHolds(c: Config, g: Graph, cp: Checkpoint)
    requires GraphOK(g)
  {
    CheckpointFits(g, cp) && (FitsParts(g, cp); PastReplay(c, g, cp.frontier) == Some(cp.state))
  }

  /** The snapshot of `h` is the replay of the past of `h`. */
  ghost predicate SnapshotHolds(c: Config, g: Graph, h: Hash, drp: State, acl: State)
    requires GraphOK(g)
  {
    h in g && PastReplay(c, g, [h]) == Some(Snapshot(drp, acl))
  }

  ghost predicate CheckpointsHold(c: Config, g: Graph, cps: seq<Checkpoint>)
    requires GraphOK(g)
  {
    forall i :: 0 <= i < |cps| ==> CheckpointHolds(c, g, cps[i])
  }

  ghost predicate SnapshotsHold(c: Config, g: Graph, drps: States, acls: States)
    requires GraphOK(g)
  {
    forall h :: h in drps && h in acls ==> SnapshotHolds(c, g, h, drps[h], acls[h])
  }

  lemma CheckpointKept(c: Config, g: Graph, v: Vertex, cp: Checkpoint)
    requires GraphOK(g) && Addable(g, v) && CheckpointHolds(c, g, cp)
    ensures GraphOK(g[v.hash := v]) && CheckpointHolds(c, g[v.hash := v], cp)
  {
    hide Addable, Frontier, Members, GraphOK, CheckpointFits, PastReplay;
    FitsParts(g, cp);
    GraphAdded(g, v);
    FitsKept(g, v, cp);
    FitsParts(g[v.hash := v], cp);
    PastReplayKept(c, g, v, cp.frontier);
  }

  lemma SnapshotKept(c: Config, g: Graph, v: Vertex, h: Hash, drp: State, acl: State)
    requires GraphOK(g) && Addable(g, v) && SnapshotHolds(c, g, h, drp, acl)
    ensures GraphOK(g[v.hash := v]) && SnapshotHolds(c, g[v.hash := v], h, drp, acl)
  {
    hide Addable, GraphOK, PastReplay;
    GraphAdded(g, v);
    PastReplayKept(c, g, v, [h]);
  }

  /** Adding a vertex leaves every cached state right. */
  lemma CacheKept(c: Config, g: Graph, v: Vertex, drps: States, acls: States, cps: seq<Checkpoint>)
    requires GraphOK(g) && Addable(g, v) && SnapshotsHold(c, g, drps, acls) && CheckpointsHold(c, g, cps)
    ensures GraphOK(g[v.hash := v])
    ensures SnapshotsHold(c, g[v.hash := v], drps, acls) && CheckpointsHold(c, g[v.hash := v], cps)
  {
    hide Addable, GraphOK, SnapshotHolds, CheckpointHolds;
    GraphAdded(g, v);
    forall h | h in drps && h in acls ensures SnapshotHolds(c, g[v.hash := v], h, drps[h], acls[h]) {
      SnapshotKept(c, g, v, h, drps[h], acls[h]);
    }
    forall i | 0 <= i < |cps| ensures CheckpointHolds(c, g[v.hash := v], cps[i]) { CheckpointKept(c, g, v, cps[i]); }
  }

  lemma ExactBefore(c: Config, g: Graph, v: Vertex)
    requires GraphOK(g) && Addable(g, v) && Exact(c, g[v.hash := v])
    ensures Exact(c, g)
  {
    hide Addable, GraphOK, Clean;
    CleanBefore(g, v);
    AddableNew(g, v);
    assert Sub(g[v.hash := v], g.Keys) == g;
    hide CalmSwap;
    SettledSub(c.pol, g[v.hash := v], g.Keys);
  }

  // ---------------------------------------------------------------- a new replica

  const START: Graph := map[ROOT_HASH := ROOT_VERTEX]

  lemma StartGraph()
    ensures GraphOK(START) && Acyclic(START) && Reduced(START) && IsFrontier(START, [ROOT_HASH])
  {
    forall a, b ensures !Below(START, a, b) { BelowLast(START, a, b); }
  }

  lemma StartReplay(c: Config)
    ensures GraphOK(START) && Members(START, [ROOT_HASH]) && Frontier(START, [ROOT_HASH])
    ensures FullReplay(c, START) == Some(c.genesis) && PastReplay(c, START, [ROOT_HASH]) == Some(c.genesis)
  {
    hide *;
    StartGraph();
    RootRooted(START);
    StartOrder();
    StartLinear(c.pol);
    StartFold(c);
    FrontierReplay(c, START, [ROOT_HASH]);
  }

  lemma StartFold(c: Config)
    requires GraphOK(START) && RootedAt(START, ROOT_HASH) && Linearize(c.pol, START, ROOT_HASH) == Some([])
    ensures FullReplay(c, START) == Some(c.genesis)
  {
    hide GraphOK, RootedAt, Linearize;
    assert Fetch(START, []) == [];
  }

  lemma StartOrder()
    requires Acyclic(START) && Reduced(START) && RootedAt(START, ROOT_HASH)
    ensures |Sort(START, ROOT_HASH).order| >= |START| && DfsOrder(START, ROOT_HASH) == [ROOT_HASH]
  {
    hide Sort, DfsOrder, Acyclic, Reduced;
    SortIsTopological(START, ROOT_HASH);
    assert |START| == 1;
  }

  lemma StartLinear(pol: Policy)
    requires RootedAt(START, ROOT_HASH)
    requires |Sort(START, ROOT_HASH).order| >= |START| && DfsOrder(START, ROOT_HASH) == [ROOT_HASH]
    ensures Linearize(pol, START, ROOT_HASH) == Some([])
  {
    hide Sort, DfsOrder;
    var order := [ROOT_HASH];
    assert !NeedsResolution(pol, START, order, ROOT_HASH);
    assert Without(order, ROOT_HASH) == [];
  }

  // ---------------------------------------------------------------- a new checkpoint

  function Smallest(hs: seq<Hash>): (m: Hash)
    requires hs != []
    ensures m in hs && forall h :: h in hs ==> m <= h
  {
    if |hs| == 1 then hs[0]
    else
      var m := Smallest(hs[1..]);
      assert hs == [hs[0]] + hs[1..];
      if hs[0] <= m then hs[0] else m
  }

  /** Append a checkpoint; the second oldest goes when there are too many, the root never does. */
  function Keep(cps: seq<Checkpoint>, cp: Checkpoint): seq<Checkpoint>
    requires |cps| >= 1
  {
    var more := cps + [cp];
    if |more| > MAX_CHECKPOINTS then more[..1] + more[2..] else more
  }

  lemma KeepMembers(cps: seq<Checkpoint>, cp: Checkpoint, i: nat)
    requires |cps| >= 1 && i < |Keep(cps, cp)|
    ensures Keep(cps, cp)[i] == cp || Keep(cps, cp)[i] in cps
  {}

  /** The root checkpoint survives every eviction, and the shape is kept. */
  lemma KeepShape(g: Graph, cps: seq<Checkpoint>, cp: Checkpoint)
    requires CheckpointShape(g, cps) && CheckpointFits(g, cp) && cps[|cps| - 1].vertexCount < cp.vertexCount
    ensures CheckpointShape(g, Keep(cps, cp)) && Keep(cps, cp)[0] == cps[0]
    ensures Keep(cps, cp) == if |cps| < 32 then cps + [cp] else [cps[0]] + cps[2..] + [cp]
  {
    hide CheckpointFits;
    var r := Keep(cps, cp);
    forall i | 0 <= i < |r| ensures CheckpointFits(g, r[i]) { KeepMembers(cps, cp, i); }
  }

  lemma KeepHolds(c: Config, g: Graph, cps: seq<Checkpoint>, cp: Checkpoint)
    requires GraphOK(g) && |cps| >= 1 && CheckpointsHold(c, g, cps) && CheckpointHolds(c, g, cp)
    ensures CheckpointsHold(c, g, Keep(cps, cp))
  {
    hide CheckpointHolds, GraphOK;
    var r := Keep(cps, cp);
    forall i | 0 <= i < |r| ensures CheckpointHolds(c, g, r[i]) { KeepMembers(cps, cp, i); }
  }

  /** The state of the whole graph, taken at its frontier, is a checkpoint. */
  lemma FrontierCheckpoint(c: Config, g: Graph, frontier: seq<Hash>, origin: Hash, st: Snapshot)
    requires GraphOK(g) && IsFrontier(g, frontier) && origin in frontier
    ensures CheckpointFits(g, Checkpoint(frontier, origin, |g|, st))
    ensures FullReplay(c, g) == Some(st) ==> CheckpointHolds(c, g, Checkpoint(frontier, origin, |g|, st))
  {
    hide GraphOK, FullReplay, PastReplay, IsFrontier, Frontier, Members;
    FrontierReplay(c, g, frontier);
  }
}
