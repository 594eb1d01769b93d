/** How each operation of a replica changes its caches, and why they stay right. */
module CacheSteps {
  import opened HashGraphs
  import opened TopologicalSort
  import opened Replay
  import opened BarrierTest
  import opened GraphStore
  import opened ReplicaSpec
  import opened ReplicaCache
  import opened MergeSpec

  /**
   Everything a replica caches beside its graph.  `faithful` records that no local call ran on a live
   state that an aborted merge had left behind the graph.
   */
  datatype Cache = Cache(drps: States, acls: States, live: Snapshot, cps: seq<Checkpoint>, known: seq<Hash>,
                         faithful: bool)

  ghost predicate CacheShape(g: Graph, k: Cache) {
    && SnapshotShape(g, k.drps, k.acls) && CheckpointShape(g, k.cps)
    && Distinct(k.known) && |k.known| <= MAX_KNOWN_INVALID
  }

  ghost predicate CacheHolds(c: Config, g: Graph, k: Cache)
    requires GraphOK(g)
  {
    && SnapshotsHold(c, g, k.drps, k.acls) && CheckpointsHold(c, g, k.cps) && SameKeys(k.live, c.genesis)
  }

  ghost predicate CacheOK(c: Config, g: Graph, k: Cache)
    requires GraphOK(g)
  {
    CacheShape(g, k) && (k.faithful && Exact(c, g) ==> CacheHolds(c, g, k))
  }

  /** The live state is the replay of the whole graph. */
  ghost predicate LiveOK(c: Config, g: Graph, live: Snapshot)
    requires GraphOK(g)
  {
    Exact(c, g) ==> FullReplay(c, g) == Some(live)
  }

  lemma StartCache(c: Config, k: Cache)
    requires k == Cache(map[ROOT_HASH := c.genesis.drp], map[ROOT_HASH := c.genesis.acl], c.genesis,
                        [Checkpoint([ROOT_HASH], ROOT_HASH, 1, c.genesis)], [], true)
    ensures GraphOK(START) && CacheOK(c, START, k) && LiveOK(c, START, k.live)
  {
    StartReplay(c);
    hide PastReplay, FullReplay, GraphOK, Frontier;
    assert |START| == 1;
    assert CheckpointFits(START, k.cps[0]);
    assert c.genesis == Snapshot(c.genesis.drp, c.genesis.acl);
  }

  // ---------------------------------------------------------------- adding a vertex

  /** The caches with the snapshot of a new vertex. */
  function WithSnapshot(k: Cache, h: Hash, st: Snapshot): (r: Cache)
    ensures r.faithful == k.faithful
  {
    k.(drps := k.drps[h := st.drp], acls := k.acls[h := st.acl])
  }

  lemma CacheAdd(c: Config, g: Graph, v: Vertex, k: Cache, st: Snapshot)
    requires GraphOK(g) && Addable(g, v) && CacheOK(c, g, k)
    requires GraphOK(g[v.hash := v])
    requires k.faithful && Exact(c, g[v.hash := v]) ==> SnapshotHolds(c, g[v.hash := v], v.hash, st.drp, st.acl)
    ensures CacheOK(c, g[v.hash := v], WithSnapshot(k, v.hash, st))
  {
    hide *;
    var t, r := g[v.hash := v], WithSnapshot(k, v.hash, st);
    OKParts(c, g, k);
    ShapeParts(g, k);
    ShapeKept(g, v, k.cps);
    ShapeAdd(g, v, k, st);
    if k.faithful && Exact(c, t) {
      ExactBefore(c, g, v);
      HoldParts(c, g, k);
      CacheKept(c, g, v, k.drps, k.acls, k.cps);
      HoldAdd(c, t, k, v.hash, st);
    }
    MakeOK(c, t, r);
  }

  lemma OKParts(c: Config, g: Graph, k: Cache)
    requires GraphOK(g) && CacheOK(c, g, k)
    ensures CacheShape(g, k) && (k.faithful && Exact(c, g) ==> CacheHolds(c, g, k))
  {}

  lemma MakeOK(c: Config, g: Graph, k: Cache)
    requires GraphOK(g) && CacheShape(g, k) && (k.faithful && Exact(c, g) ==> CacheHolds(c, g, k))
    ensures CacheOK(c, g, k)
  {}

  lemma ShapeParts(g: Graph, k: Cache)
    requires CacheShape(g, k)
    ensures SnapshotShape(g, k.drps, k.acls) && CheckpointShape(g, k.cps) && Distinct(k.known)
    ensures |k.known| <= MAX_KNOWN_INVALID
  {}

  lemma HoldParts(c: Config, g: Graph, k: Cache)
    requires GraphOK(g) && CacheHolds(c, g, k)
    ensures SnapshotsHold(c, g, k.drps, k.acls) && CheckpointsHold(c, g, k.cps) && SameKeys(k.live, c.genesis)
  {}

  lemma ShapeAdd(g: Graph, v: Vertex, k: Cache, st: Snapshot)
    requires CacheShape(g, k) && CheckpointShape(g[v.hash := v], k.cps)
    ensures CacheShape(g[v.hash := v], WithSnapshot(k, v.hash, st))
  {
    hide CheckpointShape, Distinct;
  }

  lemma HoldAdd(c: Config, t: Graph, k: Cache, h: Hash, st: Snapshot)
    requires GraphOK(t) && SnapshotsHold(c, t, k.drps, k.acls) && CheckpointsHold(c, t, k.cps)
             && SameKeys(k.live, c.genesis)
    requires SnapshotHolds(c, t, h, st.drp, st.acl)
    ensures CacheHolds(c, t, WithSnapshot(k, h, st))
  {
    hide GraphOK, SnapshotHolds, CheckpointsHold;
  }

  // ---------------------------------------------------------------- the live state and the memory of invalid hashes

  lemma CacheLive(c: Config, g: Graph, k: Cache, live: Snapshot)
    requires GraphOK(g) && CacheOK(c, g, k) && (k.faithful && Exact(c, g) ==> SameKeys(live, c.genesis))
    ensures CacheOK(c, g, k.(live := live))
  {
    hide GraphOK, SnapshotsHold, CheckpointsHold, Exact, SnapshotShape, CheckpointShape;
  }

  lemma CacheKnown(c: Config, g: Graph, k: Cache, known: seq<Hash>)
    requires GraphOK(g) && CacheOK(c, g, k) && Distinct(known) && |known| <= MAX_KNOWN_INVALID
    ensures CacheOK(c, g, k.(known := known))
  {
    hide GraphOK, SnapshotsHold, CheckpointsHold, Exact, SnapshotShape, CheckpointShape;
  }

  /** A replay keeps the property names of the genesis state. */
  lemma ReplayKeys(c: Config, g: Graph, live: Snapshot)
    requires GraphOK(g) && Exact(c, g) && FullReplay(c, g) == Some(live)
    ensures SameKeys(live, c.genesis)
  {
    hide GraphOK, Clean, Replayed, KeepsKeys;
    CausalRoot(g);
    ReplayedKeysOf(c, g, live);
  }

  lemma CausalRoot(g: Graph)
    requires GraphOK(g)
    ensures ROOT_HASH in g
  {}

  lemma ReplayedKeysOf(c: Config, g: Graph, live: Snapshot)
    requires GraphOK(g) && KeepsKeys(c.bp) && FullReplay(c, g) == Some(live)
    ensures SameKeys(live, c.genesis)
  {
    hide GraphOK, Replayed, KeepsKeys, SameKeys;
    forall vs ensures Replayed(c.bp, c.genesis, vs).Some? ==> SameKeys(Replayed(c.bp, c.genesis, vs).value, c.genesis) {
      ReplayedKeys(c.bp, c.genesis, vs);
    }
  }

  /** Copying a state with the same property names leaves exactly that state. */
  lemma AssignAll(old_: Snapshot, next: Snapshot)
    requires SameKeys(old_, next)
    ensures Assign(old_.drp, next.drp) == next.drp && Assign(old_.acl, next.acl) == next.acl
  {
    AssignExact(old_.drp, next.drp);
    AssignExact(old_.acl, next.acl);
  }

  // ---------------------------------------------------------------- checkpoints and pruning

  lemma CacheCheckpoint(c: Config, g: Graph, k: Cache, frontier: seq<Hash>, origin: Hash)
    requires GraphOK(g) && CacheOK(c, g, k) && (k.faithful ==> LiveOK(c, g, k.live)) && IsFrontier(g, frontier)
             && origin in frontier
    requires |k.cps| >= 1 && k.cps[|k.cps| - 1].vertexCount < |g|
    ensures CacheOK(c, g, k.(cps := Keep(k.cps, Checkpoint(frontier, origin, |g|, k.live))))
  {
    hide *;
    var cp := Checkpoint(frontier, origin, |g|, k.live);
    var r := k.(cps := Keep(k.cps, cp));
    OKParts(c, g, k);
    ShapeParts(g, k);
    FrontierCheckpoint(c, g, frontier, origin, k.live);
    KeepShape(g, k.cps, cp);
    MakeShape(g, r);
    if k.faithful && Exact(c, g) {
      LiveParts(c, g, k.live);
      HoldParts(c, g, k);
      KeepHolds(c, g, k.cps, cp);
      MakeHold(c, g, r);
    }
    MakeOK(c, g, r);
  }

  lemma MakeShape(g: Graph, k: Cache)
    requires SnapshotShape(g, k.drps, k.acls) && CheckpointShape(g, k.cps) && Distinct(k.known)
    requires |k.known| <= MAX_KNOWN_INVALID
    ensures CacheShape(g, k)
  {}

  lemma MakeHold(c: Config, g: Graph, k: Cache)
    requires GraphOK(g) && SnapshotsHold(c, g, k.drps, k.acls) && CheckpointsHold(c, g, k.cps)
             && SameKeys(k.live, c.genesis)
    ensures CacheHolds(c, g, k)
  {}

  lemma LiveParts(c: Config, g: Graph, live: Snapshot)
    requires GraphOK(g) && LiveOK(c, g, live) && Exact(c, g)
    ensures FullReplay(c, g) == Some(live)
  {}

  function Retain(m: States, retained: set<Hash>): (r: States)
    ensures r.Keys == m.Keys * retained && forall h :: h in r ==> r[h] == m[h]
  {
    map h | h in m && h in retained :: m[h]
  }

  /** Forgetting snapshots leaves the others right. */
  lemma CachePrune(c: Config, g: Graph, k: Cache, retained: set<Hash>)
    requires GraphOK(g) && CacheOK(c, g, k) && ROOT_HASH in retained
    ensures CacheOK(c, g, k.(drps := Retain(k.drps, retained), acls := Retain(k.acls, retained)))
  {
    hide GraphOK, CheckpointsHold, Exact, CheckpointShape, SnapshotHolds, Distinct;
  }

  function Entries(cps: seq<Checkpoint>): (r: set<Hash>) {
    set i, h | 0 <= i < |cps| && h in cps[i].frontier :: h
  }

  /** The keys inserted at the positions from `first` up to `last`. */
  function Recent(keys: seq<Hash>, first: nat, last: nat): (r: set<Hash>) {
    set i | first <= i < last && i < |keys| :: keys[i]
  }

  /** The heads of every checkpoint, and everything inserted after the newest one. */
  function Retained(keys: seq<Hash>, cps: seq<Checkpoint>): (r: set<Hash>)
    requires cps != []
    ensures ROOT_HASH in r
  {
    {ROOT_HASH} + Entries(cps) + Recent(keys, cps[|cps| - 1].vertexCount, |keys|)
  }

  /** `h` is the root, a head of a checkpoint, or was inserted after the newest checkpoint. */
  ghost predicate Kept(keys: seq<Hash>, cps: seq<Checkpoint>, h: Hash)
    requires cps != []
  {
    || h == ROOT_HASH || (exists i :: 0 <= i < |cps| && h in cps[i].frontier)
    || (exists i :: cps[|cps| - 1].vertexCount <= i < |keys| && keys[i] == h)
  }

  lemma RetainedMeans(keys: seq<Hash>, cps: seq<Checkpoint>)
    requires cps != []
    ensures forall h :: h in Retained(keys, cps) <==> Kept(keys, cps, h)
  {}

  lemma RetainedIs(keys: seq<Hash>, cps: seq<Checkpoint>)
    requires cps != []
    ensures Retained(keys, cps) == {ROOT_HASH} + Entries(cps) + Recent(keys, cps[|cps| - 1].vertexCount, |keys|)
  {}

  lemma EntriesSnoc(cps: seq<Checkpoint>, i: nat)
    requires i < |cps|
    ensures Entries(cps[..i + 1]) == Entries(cps[..i]) + Elems(cps[i].frontier)
  {
    forall h ensures h in Entries(cps[..i + 1]) <==> h in Entries(cps[..i]) || h in cps[i].frontier {
      if h in Entries(cps[..i]) {
        var j :| 0 <= j < i && h in cps[..i][j].frontier;
        assert cps[..i + 1][j] == cps[j];
      }
      if h in cps[i].frontier { assert cps[..i + 1][i] == cps[i]; }
      if h in Entries(cps[..i + 1]) {
        var j :| 0 <= j <= i && h in cps[..i + 1][j].frontier;
        if j < i { assert cps[..i][j] == cps[j]; }
      }
    }
  }

  lemma NothingYet(keys: seq<Hash>, first: nat)
    ensures Entries([]) == {} && Recent(keys, first, first) == {}
  {}

  lemma RecentSnoc(keys: seq<Hash>, first: nat, index: nat)
    requires first <= index < |keys|
    ensures Recent(keys, first, index + 1) == Recent(keys, first, index) + {keys[index]}
  {}

  lemma RecentAll(keys: seq<Hash>, first: nat, index: nat)
    requires index >= |keys|
    ensures Recent(keys, first, index) == Recent(keys, first, |keys|)
  {}

  /** Whether enough vertices were added since the newest checkpoint. */
  predicate Due(size: nat, count: nat, cps: seq<Checkpoint>)
    requires cps != []
  {
    count - cps[|cps| - 1].vertexCount >= size
  }

  /** The caches after a checkpoint at the frontier, entered at its smallest head, and pruning. */
  function Advanced(g: Graph, keys: seq<Hash>, frontier: seq<Hash>, k: Cache): (r: Cache)
    requires frontier != [] && k.cps != []
  {
    var cps := Keep(k.cps, Checkpoint(frontier, Smallest(frontier), |g|, k.live));
    var retained := Retained(keys, cps);
    k.(cps := cps, drps := Retain(k.drps, retained), acls := Retain(k.acls, retained))
  }

  /** Baking the live state into a checkpoint keeps every cache right and leaves nothing due. */
  lemma CacheAdvanced(c: Config, g: Graph, keys: seq<Hash>, frontier: seq<Hash>, k: Cache, size: nat)
    requires GraphOK(g) && CacheOK(c, g, k) && (k.faithful ==> LiveOK(c, g, k.live)) && IsFrontier(g, frontier)
    requires k.cps != [] && size > 0 && Due(size, |g|, k.cps)
    ensures frontier != []
    ensures var r := Advanced(g, keys, frontier, k);
            CacheOK(c, g, r) && r.live == k.live && r.known == k.known && r.cps != [] && !Due(size, |g|, r.cps)
  {
    hide *;
    FrontierNonEmpty(g, frontier);
    DueCount(size, |g|, k.cps);
    var cp := Checkpoint(frontier, Smallest(frontier), |g|, k.live);
    CacheCheckpoint(c, g, k, frontier, cp.origin);
    var kept := k.(cps := Keep(k.cps, cp));
    KeepLast(k.cps, cp);
    CachePrune(c, g, kept, Retained(keys, kept.cps));
    AdvancedIs(g, keys, frontier, k, kept);
    DueCount(size, |g|, kept.cps);
  }

  lemma DueCount(size: nat, count: nat, cps: seq<Checkpoint>)
    requires cps != []
    ensures Due(size, count, cps) <==> count - cps[|cps| - 1].vertexCount >= size
  {}

  lemma KeepLast(cps: seq<Checkpoint>, cp: Checkpoint)
    requires cps != []
    ensures var r := Keep(cps, cp); r != [] && r[|r| - 1] == cp
  {}

  lemma AdvancedIs(g: Graph, keys: seq<Hash>, frontier: seq<Hash>, k: Cache, kept: Cache)
    requires frontier != [] && k.cps != []
    requires kept == k.(cps := Keep(k.cps, Checkpoint(frontier, Smallest(frontier), |g|, k.live)))
    requires kept.cps != []
    ensures var retained := Retained(keys, kept.cps);
            Advanced(g, keys, frontier, k)
            == kept.(drps := Retain(kept.drps, retained), acls := Retain(kept.acls, retained))
  {
    hide Retain, Retained;
  }

  lemma CacheParts(c: Config, g: Graph, k: Cache)
    requires GraphOK(g) && CacheOK(c, g, k)
    ensures |k.cps| >= 1 && k.cps[0].frontier == [ROOT_HASH] && k.drps.Keys == k.acls.Keys
    ensures forall i :: 0 <= i < |k.cps| ==> CheckpointFits(g, k.cps[i])
    ensures Distinct(k.known) && |k.known| <= MAX_KNOWN_INVALID
    ensures k.faithful && Exact(c, g) ==>
              CheckpointsHold(c, g, k.cps) && SnapshotsHold(c, g, k.drps, k.acls) && SameKeys(k.live, c.genesis)
  {
    hide GraphOK, Exact, CheckpointFits, SnapshotsHold, CheckpointsHold, Distinct, SameKeys;
  }

  lemma SnapshotIs(c: Config, g: Graph, k: Cache, h: Hash)
    requires GraphOK(g) && SnapshotsHold(c, g, k.drps, k.acls) && h in k.drps && h in k.acls
    ensures h in g && Members(g, [h]) && PastReplay(c, g, [h]) == Some(Snapshot(k.drps[h], k.acls[h]))
  {
    hide GraphOK, PastReplay;
    assert SnapshotHolds(c, g, h, k.drps[h], k.acls[h]);
  }

  /** A completed recomputation: the live state is the replay of the whole graph again. */
  lemma CacheRecomputed(c: Config, g: Graph, k: Cache, frontier: seq<Hash>, next: Snapshot)
    requires GraphOK(g) && CacheOK(c, g, k) && IsFrontier(g, frontier) && frontier != [] && Members(g, frontier)
    requires k.faithful && Exact(c, g) ==> PastReplay(c, g, frontier) == Some(next)
    ensures var live := Snapshot(Assign(k.live.drp, next.drp), Assign(k.live.acl, next.acl));
            CacheOK(c, g, k.(live := live)) && (k.faithful ==> LiveOK(c, g, live))
  {
    hide *;
    var live := Snapshot(Assign(k.live.drp, next.drp), Assign(k.live.acl, next.acl));
    CacheParts(c, g, k);
    if k.faithful && Exact(c, g) {
      FrontierReplay(c, g, frontier);
      ReplayKeys(c, g, next);
      SameKeysJoin(k.live, next, c.genesis);
      AssignAll(k.live, next);
    }
    CacheLive(c, g, k, live);
    if k.faithful { MakeLive(c, g, live); }
  }

  lemma SameKeysJoin(a: Snapshot, b: Snapshot, c: Snapshot)
    requires SameKeys(a, c) && SameKeys(b, c)
    ensures SameKeys(a, b)
  {}

  lemma MakeLive(c: Config, g: Graph, live: Snapshot)
    requires GraphOK(g) && (Exact(c, g) ==> FullReplay(c, g) == Some(live))
    ensures LiveOK(c, g, live)
  {}

  /** Only the ACL was copied before the recomputation failed. */
  lemma CacheHalfway(c: Config, g: Graph, k: Cache, acl: State)
    requires GraphOK(g) && CacheOK(c, g, k) && (k.faithful && Exact(c, g) ==> acl.Keys == c.genesis.acl.Keys)
    ensures CacheOK(c, g, k.(live := Snapshot(k.live.drp, Assign(k.live.acl, acl))))
  {
    hide *;
    var live := Snapshot(k.live.drp, Assign(k.live.acl, acl));
    CacheParts(c, g, k);
    if k.faithful && Exact(c, g) { HalfKeys(k.live, acl, c.genesis); }
    CacheLive(c, g, k, live);
  }

  lemma HalfKeys(live: Snapshot, acl: State, genesis: Snapshot)
    requires SameKeys(live, genesis) && acl.Keys == genesis.acl.Keys
    ensures SameKeys(Snapshot(live.drp, Assign(live.acl, acl)), genesis)
  {}

  // ---------------------------------------------------------------- a remote vertex

  /** The snapshot a remote vertex leaves is the replay of its past. */
  lemma RemoteSnapshot(c: Config, g: Graph, v: Vertex, faithful: bool, before: Option<Snapshot>, st: Snapshot)
    requires GraphOK(g) && Addable(g, v) && Members(g, v.dependencies) && v.dependencies != []
    requires faithful && Exact(c, g) ==> before == PastReplay(c, g, v.dependencies)
    requires before.Some? && OwnStep(c.bp, before.value, v) == Some(st)
    ensures GraphOK(g[v.hash := v])
    ensures faithful && Exact(c, g[v.hash := v]) ==> SnapshotHolds(c, g[v.hash := v], v.hash, st.drp, st.acl)
  {
    hide *;
    GraphAdded(g, v);
    if faithful && Exact(c, g[v.hash := v]) {
      ExactBefore(c, g, v);
      ExactIs(c, g[v.hash := v]);
      NewReplay(c, g, v);
      MakeSnapshot(c, g[v.hash := v], v.hash, st);
    }
  }

  lemma ExactIs(c: Config, g: Graph)
    requires Exact(c, g)
    ensures Sound(c, g) && Clean(g)
  {}

  lemma MakeSnapshot(c: Config, g: Graph, h: Hash, st: Snapshot)
    requires GraphOK(g) && Members(g, [h]) && PastReplay(c, g, [h]) == Some(st)
    ensures SnapshotHolds(c, g, h, st.drp, st.acl)
  {
    hide GraphOK, PastReplay;
    assert h in [h];
    assert st == Snapshot(st.drp, st.acl);
  }

  // ---------------------------------------------------------------- a local vertex

  /** A local vertex extends the live state and its snapshot is the new live state. */
  lemma LocalSnapshot(c: Config, g: Graph, v: Vertex, live: Snapshot, st: Snapshot)
    requires GraphOK(g) && Addable(g, v) && IsFrontier(g, v.dependencies) && LiveOK(c, g, live)
    requires OwnStep(c.bp, live, v) == Some(st)
    ensures GraphOK(g[v.hash := v])
    ensures Exact(c, g[v.hash := v]) ==> SnapshotHolds(c, g[v.hash := v], v.hash, st.drp, st.acl)
    ensures LiveOK(c, g[v.hash := v], st)
  {
    hide *;
    var t := g[v.hash := v];
    GraphAdded(g, v);
    if Exact(c, t) {
      ExactBefore(c, g, v);
      ExactIs(c, t);
      LiveParts(c, g, live);
      LocalReplay(c, g, v);
      MakeSnapshot(c, t, v.hash, st);
    }
    MakeLive(c, t, st);
  }

  /** Everything a local call stores is right if the live state was. */
  lemma CacheLocal(c: Config, g: Graph, v: Vertex, k: Cache, st: Snapshot)
    requires GraphOK(g) && CacheOK(c, g, k) && (k.faithful ==> LiveOK(c, g, k.live))
    requires Addable(g, v) && IsFrontier(g, v.dependencies) && OwnStep(c.bp, k.live, v) == Some(st)
    ensures GraphOK(g[v.hash := v])
    ensures var live := Snapshot(Assign(k.live.drp, st.drp), Assign(k.live.acl, st.acl));
            && CacheOK(c, g[v.hash := v], WithSnapshot(k, v.hash, st).(live := live))
            && (k.faithful ==> LiveOK(c, g[v.hash := v], live))
  {
    hide *;
    var t := g[v.hash := v];
    var live := Snapshot(Assign(k.live.drp, st.drp), Assign(k.live.acl, st.acl));
    GraphAdded(g, v);
    StepKeepsKeys(c, g, k, v, st);
    if k.faithful { LocalSnapshot(c, g, v, k.live, st); }
    CacheAdd(c, g, v, k, st);
    if k.faithful && Exact(c, t) {
      ExactBefore(c, g, v);
      AssignAll(k.live, st);
    }
    CacheLive(c, t, WithSnapshot(k, v.hash, st), live);
    if k.faithful { LiveAssigned(c, t, st, live); }
  }

  lemma LiveAssigned(c: Config, t: Graph, st: Snapshot, live: Snapshot)
    requires GraphOK(t) && LiveOK(c, t, st) && (Exact(c, t) ==> live == st)
    ensures LiveOK(c, t, live)
  {}

  /** With collision-free hashes a vertex on the whole frontier is not in the graph yet. */
  lemma MintedFresh(g: Graph, v: Vertex)
    requires GraphOK(g) && IsFrontier(g, v.dependencies) && (v.hash in g ==> g[v.hash].dependencies == v.dependencies)
    ensures Addable(g, v) && forall d :: d in v.dependencies ==> d in g
  {
    hide GraphOK, Frontier, Past;
    FrontierNonEmpty(g, v.dependencies);
    FrontierMembers(g, v.dependencies) by { ClosedOf(g); }
    var d := v.dependencies[0];
    assert d in Heads(g, g.Keys);
    assert v.hash in g ==> d !in Deps(g, v.hash);
  }

  lemma CacheDoubt(c: Config, g: Graph, k: Cache, faithful: bool)
    requires GraphOK(g) && CacheOK(c, g, k) && (faithful ==> k.faithful)
    ensures CacheOK(c, g, k.(faithful := faithful))
  {
    hide GraphOK, SnapshotsHold, CheckpointsHold, Exact, SnapshotShape, CheckpointShape;
  }

  lemma StepKeepsKeys(c: Config, g: Graph, k: Cache, v: Vertex, st: Snapshot)
    requires GraphOK(g) && CacheOK(c, g, k) && OwnStep(c.bp, k.live, v) == Some(st)
    ensures k.faithful && Exact(c, g) ==> SameKeys(st, c.genesis) && SameKeys(k.live, st)
  {
    hide *;
    CacheParts(c, g, k);
    if k.faithful && Exact(c, g) {
      ExactIs(c, g);
      SoundParts(c, g);
      StepKeys(c.bp, k.live, v);
      SameKeysTrans(st, k.live, c.genesis);
    }
  }

  lemma SameKeysTrans(a: Snapshot, b: Snapshot, c: Snapshot)
    requires SameKeys(a, b) && SameKeys(b, c)
    ensures SameKeys(a, c) && SameKeys(b, a)
  {}

  /** A vertex on the whole frontier keeps a clean graph clean. */
  lemma LocalClean(g: Graph, v: Vertex)
    requires GraphOK(g) && Addable(g, v) && IsFrontier(g, v.dependencies) && Typed(v) && Clean(g)
    ensures Clean(g[v.hash := v])
  {
    hide *;
    FrontierNonEmpty(g, v.dependencies);
    FrontierParts(g, v.dependencies);
    AddableParts(g, v);
    ClosedOf(g);
    AntichainAdd(g, v, v.dependencies);
    MakeClean(g, v);
  }

  lemma FrontierParts(g: Graph, D: seq<Hash>)
    requires IsFrontier(g, D) && Frontier(g, D)
    ensures Distinct(D) && Antichain(g, D)
  {
    hide Below, Heads, Distinct;
  }

  lemma AddableParts(g: Graph, v: Vertex)
    requires Addable(g, v)
    ensures v.hash !in g && forall d :: d in v.dependencies ==> d in g
  {}

  lemma MakeClean(g: Graph, v: Vertex)
    requires Closed(g) && v.hash !in g && Clean(g) && Typed(v)
    requires Distinct(v.dependencies) && Antichain(g[v.hash := v], v.dependencies)
    ensures Clean(g[v.hash := v])
  {
    hide Typed, Distinct, Antichain;
    var t := g[v.hash := v];
    forall h | h in t ensures Distinct(t[h].dependencies) && Antichain(t, t[h].dependencies) {
      if h != v.hash { AntichainAdd(g, v, g[h].dependencies); }
    }
  }

  lemma AntichainAdd(g: Graph, v: Vertex, D: seq<Hash>)
    requires Closed(g) && v.hash !in g && Antichain(g, D) && forall d :: d in D ==> d in g
    ensures Antichain(g[v.hash := v], D)
  {
    hide Below;
    forall p, q | p in D && q in D ensures !Below(g[v.hash := v], p, q) { BelowAdd(g, v, p, q); }
  }

  // ---------------------------------------------------------------- property names

  /** Both objects, if neither replay threw. */
  function Both(drp: Option<State>, acl: Option<State>): Option<Snapshot> {
    if drp.Some? && acl.Some? then Some(Snapshot(drp.value, acl.value)) else None
  }

  lemma SplitIs(bp: Blueprint, st: Snapshot, vs: seq<Vertex>)
    ensures Both(Fold(bp.applyDRP, st.drp, DrpPart(vs)), Fold(bp.applyACL, st.acl, AclPart(vs))) == Replayed(bp, st, vs)
  {
    hide Replayed, Fold, DrpPart, AclPart;
    SplitIsInterleaved(bp, st, vs);
  }

  lemma {:induction false} FoldKeys(bp: Blueprint, st: State, vs: seq<Vertex>)
    requires KeepsKeys(bp)
    ensures Fold(bp.applyACL, st, vs).Some? ==> Fold(bp.applyACL, st, vs).value.Keys == st.Keys
    decreases |vs|
  {
    if vs != [] && Run1(bp.applyACL, st, vs[0]).Some? { FoldKeys(bp, Run1(bp.applyACL, st, vs[0]).value, vs[1..]); }
  }

  /** The state of a checkpoint has the property names of the genesis state. */
  lemma CheckpointKeys(c: Config, g: Graph, cp: Checkpoint)
    requires GraphOK(g) && Exact(c, g) && cp.frontier != [] && Members(g, cp.frontier)
    requires PastReplay(c, g, cp.frontier) == Some(cp.state)
    ensures SameKeys(cp.state, c.genesis)
  {
    hide *;
    ExactIs(c, g);
    SoundParts(c, g);
    UnfoldPast(c, g, cp.frontier);
    ReplayedKeysOf(c, Sub(g, Past(g, Elems(cp.frontier))), cp.state);
  }
}
