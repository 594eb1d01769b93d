/**
 The replica: a hash graph with its live state, snapshots and checkpoints.

 `Valid` says that every cached state is a replay; `Live` says that the live state is the replay of
 the whole graph.  Every operation keeps `Valid`, completed merges establish `Live`, and local calls
 keep it.  A merge that aborts half-way keeps `Valid` but may leave the live state behind the graph.
 */
module Applier {
  import opened HashGraphs
  import opened TopologicalSort
  import opened CausalBarrier
  import opened PairLinearizer
  import opened Linearization
  import opened Replay
  import opened BarrierTest
  import opened GraphStore
  import opened ReplaySearch
  import opened LinearizeMethods
  import opened ReplicaSpec
  import opened ReplicaCache
  import opened MergeSpec
  import opened CacheSteps

  // ---------------------------------------------------------------- replaying operations

  /** Apply the vertices in turn. */
  method ApplyVertices(f: Apply, start: State, vs: seq<Vertex>) returns (r: Option<State>)
    ensures r == Fold(f, start, vs)
  {
    var st := start;
    for i := 0 to |vs|
      invariant Fold(f, start, vs) == Fold(f, st, vs[i..])
    {
      assert vs[i..][1..] == vs[i + 1..];
      var next := Run1(f, st, vs[i]);
      if next.None? { return None; }
      st := next.value;
    }
    r := Some(st);
  }

  lemma {:induction false} PartsSnoc(vs: seq<Vertex>, v: Vertex)
    ensures DrpPart(vs + [v]) == DrpPart(vs) + DrpPart([v]) && AclPart(vs + [v]) == AclPart(vs) + AclPart([v])
    decreases |vs|
  {
    if vs == [] {
      assert vs + [v] == [v];
    } else {
      PartsSnoc(vs[1..], v);
      PartsCons(vs[0], vs[1..]);
      PartsCons(vs[0], vs[1..] + [v]);
      assert [vs[0]] + vs[1..] == vs && [vs[0]] + (vs[1..] + [v]) == vs + [v];
    }
  }

  lemma PartsCons(v: Vertex, vs: seq<Vertex>)
    ensures DrpPart([v] + vs) == DrpPart([v]) + DrpPart(vs) && AclPart([v] + vs) == AclPart([v]) + AclPart(vs)
  {
    assert ([v] + vs)[1..] == vs && [v][1..] == [];
  }

  /** Separate the DRP operations from all others. */
  method SplitOperation(vs: seq<Vertex>) returns (drp: seq<Vertex>, acl: seq<Vertex>)
    ensures drp == DrpPart(vs) && acl == AclPart(vs)
  {
    drp, acl := [], [];
    for i := 0 to |vs|
      invariant drp == DrpPart(vs[..i]) && acl == AclPart(vs[..i])
    {
      assert vs[..i + 1] == vs[..i] + [vs[i]];
      PartsSnoc(vs[..i], vs[i]);
      assert [vs[i]][1..] == [];
      if vs[i].operation.None? { continue; }
      if vs[i].operation.value.drpType == DRP {
        drp := drp + [vs[i]];
        continue;
      }
      acl := acl + [vs[i]];
    }
    assert vs[..|vs|] == vs;
  }

  lemma FetchSub(g: Graph, T: set<Hash>, hs: seq<Hash>)
    requires T <= g.Keys && forall h :: h in hs ==> h in T
    ensures (forall h :: h in hs ==> h in g && h in Sub(g, T)) && Fetch(g, hs) == Fetch(Sub(g, T), hs)
  {
    forall h | h in hs ensures h in g && h in Sub(g, T) && g[h] == Sub(g, T)[h] {}
  }

  /** `cp` is accepted for the dependencies, and no newer checkpoint is. */
  ghost predicate IsNewest(g: Graph, D: seq<Hash>, cps: seq<Checkpoint>, cp: Checkpoint) {
    exists i :: && 0 <= i < |cps| && cps[i] == cp && Accepted(g, D, cp.frontier)
                && forall j :: i < j < |cps| ==> !Accepted(g, D, cps[j].frontier)
  }

  lemma MakeNewest(g: Graph, D: seq<Hash>, cps: seq<Checkpoint>, i: nat)
    requires i < |cps| && Accepted(g, D, cps[i].frontier)
    requires forall j :: i < j < |cps| ==> !Accepted(g, D, cps[j].frontier)
    ensures IsNewest(g, D, cps, cps[i])
  {
    hide Accepted;
  }

  lemma NotCovered(g: Graph, D: seq<Hash>, B: seq<Hash>)
    requires !Cover(g, D, B)
    ensures !Accepted(g, D, B)
  {
    hide Cover;
  }

  /** What the replay of a chosen checkpoint computes. */
  lemma ReplayChosen(c: Config, g: Graph, D: seq<Hash>, cp: Checkpoint, S: set<Hash>, hs: seq<Hash>)
    requires GraphOK(g) && Exact(c, g) && D != [] && Members(g, D) && CheckpointHolds(c, g, cp)
    requires IsCollected(g, D, cp.frontier, S) && Cover(g, D, cp.frontier) && Accepts(g, cp.frontier, S)
    requires S + {cp.origin} <= g.Keys && (forall h :: h in hs ==> h in S + {cp.origin})
    requires RootedAt(Sub(g, S + {cp.origin}), cp.origin)
    requires Linearize(c.pol, Sub(g, S + {cp.origin}), cp.origin) == Some(hs)
    ensures (forall h :: h in hs ==> h in g)
    ensures Replayed(c.bp, cp.state, Fetch(g, hs)) == PastReplay(c, g, D)
  {
    hide *;
    HoldsParts(c, g, cp);
    ExactIs(c, g);
    SoundParts(c, g);
    CleanParts(g);
    CheckpointReplay(c, g, D, cp.frontier, cp.origin, S, cp.state);
    FetchSub(g, S + {cp.origin}, hs);
    ReplayOnIs(c, cp.state, Sub(g, S + {cp.origin}), cp.origin, hs);
  }

  lemma ReplayOnIs(c: Config, st: Snapshot, s: Graph, o: Hash, hs: seq<Hash>)
    requires RootedAt(s, o) && Linearize(c.pol, s, o) == Some(hs)
    ensures (forall h :: h in hs ==> h in s) && ReplayOn(c, st, s, o) == Replayed(c.bp, st, Fetch(s, hs))
  {
    hide Linearize, RootedAt, Replayed;
  }

  lemma HoldsParts(c: Config, g: Graph, cp: Checkpoint)
    requires GraphOK(g) && CheckpointHolds(c, g, cp)
    ensures CheckpointFits(g, cp) && Frontier(g, cp.frontier) && cp.frontier != [] && Members(g, cp.frontier)
    ensures cp.origin in cp.frontier && cp.origin in g && PastReplay(c, g, cp.frontier) == Some(cp.state)
  {
    hide GraphOK, PastReplay, Frontier, Members;
    FitsParts(g, cp);
  }

  /** The suffix of an accepted checkpoint can be sorted. */
  lemma SuffixSortable(c: Config, g: Graph, D: seq<Hash>, cp: Checkpoint, S: set<Hash>)
    requires GraphOK(g) && Exact(c, g) && D != [] && Members(g, D) && CheckpointHolds(c, g, cp)
    requires IsCollected(g, D, cp.frontier, S) && Cover(g, D, cp.frontier) && Accepts(g, cp.frontier, S)
    ensures var s := Sub(g, S + {cp.origin});
            RootedAt(s, cp.origin) && Reduced(s) && Linearize(c.pol, s, cp.origin).Some?
  {
    hide *;
    HoldsParts(c, g, cp);
    ExactIs(c, g);
    SoundParts(c, g);
    CleanParts(g);
    CheckpointReplay(c, g, D, cp.frontier, cp.origin, S, cp.state);
    ReducedSub(g, S + {cp.origin});
    SettledSub(c.pol, g, S + {cp.origin});
    LinearizeReturns(c.pol, Sub(g, S + {cp.origin}), cp.origin);
  }

  // ---------------------------------------------------------------- results

  datatype Outcome = Applied | Failed(failure: Failure) | Thrown

  /** `Aborted` is the rethrown application error. */
  datatype MergeResult = Merged(missing: seq<Hash>, invalid: seq<Hash>) | Aborted

  /** `Rejected` fails validation, `Threw` is an error of the writer check or the method, `Unchanged` wrote nothing. */
  datatype CallResult = Called | Unchanged | Rejected | Threw

  lemma GraphValid(graph: HashGraph)
    requires graph.Valid()
    ensures GraphOK(graph.vertices) && Inserted(graph.vertices, graph.keys)
            && IsFrontier(graph.vertices, graph.frontier)
  {}

  lemma MembersAre(g: Graph, v: Vertex)
    requires Members(g, v.dependencies)
    ensures forall d :: d in v.dependencies ==> d in g
  {}

  /** Whether applying a vertex succeeds is decided by its own past alone. */
  ghost predicate Executes(c: Config, g: Graph, v: Vertex)
    requires GraphOK(g) && v.dependencies != [] && Members(g, v.dependencies)
  {
    var st := PastReplay(c, g, v.dependencies);
    st.Some? && (IsACL(v) || c.bp.isWriter(st.value.acl, v.peerId)) && OwnStep(c.bp, st.value, v).Some?
  }

  /** Delivering `v` throws nothing: it is skipped, fails validation or executes. */
  ghost predicate Admits(c: Config, t: Tally, v: Vertex, now: int)
    requires GraphOK(t.g)
  {
    || Skipped(t.g, v) || Validate(c, t.g, v, now).Some?
    || (v.dependencies != [] && Members(t.g, v.dependencies) && Executes(c, t.g, v))
  }

  lemma {:induction false} DeliverAllOK(c: Config, t: Tally, vs: seq<Vertex>, now: int)
    requires GraphOK(t.g)
    ensures GraphOK(DeliverAll(c, t, vs, now).g)
    decreases |vs|
  {
    hide GraphOK, Validate, Skipped, Waits;
    if vs != [] {
      if !Skipped(t.g, vs[0]) && Validate(c, t.g, vs[0], now).None? {
        SkippedPresent(t.g, vs[0]);
        ValidAddable(c, t.g, vs[0], now);
        GraphAdded(t.g, vs[0]);
      }
      DeliverAllOK(c, Deliver(c, t, vs[0], now), vs[1..], now);
    }
  }

  /** Nothing throws when the turn of `vs[i]` comes. */
  ghost predicate AdmitsAt(c: Config, t: Tally, vs: seq<Vertex>, i: nat, now: int)
    requires GraphOK(t.g) && i < |vs|
  {
    DeliverAllOK(c, t, vs[..i], now);
    Admits(c, DeliverAll(c, t, vs[..i], now), vs[i], now)
  }

  /** No vertex among the first `n` that validates at its turn fails to execute. */
  ghost predicate RunsTo(c: Config, t: Tally, vs: seq<Vertex>, n: nat, now: int)
    requires GraphOK(t.g) && n <= |vs|
  {
    forall i :: 0 <= i < n ==> AdmitsAt(c, t, vs, i, now)
  }

  /** No vertex of the batch that validates at its turn fails to execute. */
  ghost predicate Runs(c: Config, t: Tally, vs: seq<Vertex>, now: int)
    requires GraphOK(t.g)
  {
    RunsTo(c, t, vs, |vs|, now)
  }

  /** Turn `n` is the first one that throws, or the end of the batch. */
  ghost predicate StopsAt(c: Config, t: Tally, vs: seq<Vertex>, n: nat, now: int)
    requires GraphOK(t.g)
  {
    n <= |vs| && RunsTo(c, t, vs, n, now) && (n < |vs| ==> !AdmitsAt(c, t, vs, n, now))
  }

  lemma StopsRuns(c: Config, t: Tally, vs: seq<Vertex>, n: nat, now: int)
    requires GraphOK(t.g) && StopsAt(c, t, vs, n, now)
    ensures n == |vs| <==> Runs(c, t, vs, now)
  {
    hide AdmitsAt;
  }

  lemma RunsNone(c: Config, t: Tally, vs: seq<Vertex>, now: int)
    requires GraphOK(t.g)
    ensures RunsTo(c, t, vs, 0, now)
  {}

  lemma RunsNext(c: Config, t: Tally, vs: seq<Vertex>, n: nat, now: int)
    requires GraphOK(t.g) && n < |vs|
    ensures RunsTo(c, t, vs, n + 1, now) <==> RunsTo(c, t, vs, n, now) && AdmitsAt(c, t, vs, n, now)
  {
    hide AdmitsAt;
  }

  lemma AdmitsMeans(c: Config, t: Tally, vs: seq<Vertex>, i: nat, now: int, u: Tally)
    requires GraphOK(t.g) && i < |vs| && u == DeliverAll(c, t, vs[..i], now)
    ensures GraphOK(u.g)
    ensures AdmitsAt(c, t, vs, i, now)
            <==> Skipped(u.g, vs[i]) || Validate(c, u.g, vs[i], now).Some?
                 || (vs[i].dependencies != [] && Members(u.g, vs[i].dependencies) && Executes(c, u.g, vs[i]))
  {
    DeliverAllOK(c, t, vs[..i], now);
    hide GraphOK, DeliverAll, Skipped, Validate, Members, Executes;
  }

  class DRPVertexApplier {
    const config: Config
    const suffixSize: nat
    const graph: HashGraph
    var drpStates: States
    var aclStates: States
    var liveDRP: State
    var liveACL: State
    var checkpoints: seq<Checkpoint>
    var known: seq<Hash>
    /** No local call ran while an aborted merge had left the live state behind the graph. */
    ghost var faithful: bool

    ghost function CacheNow(): Cache
      reads this
    {
      Cache(drpStates, aclStates, Snapshot(liveDRP, liveACL), checkpoints, known, faithful)
    }

    ghost predicate Valid()
      reads this, graph
    {
      && suffixSize > 0 && graph.Valid()
      && (GraphValid(graph); CacheOK(config, graph.vertices, CacheNow()))
    }

    /** The live state is the replay of the whole graph. */
    ghost predicate Live()
      requires graph.Valid()
      reads this, graph
    {
      GraphValid(graph);
      LiveOK(config, graph.vertices, Snapshot(liveDRP, liveACL))
    }

    constructor (config: Config, suffixSize: nat)
      requires suffixSize > 0
      ensures Valid() && Live() && fresh(graph) && this.config == config && this.suffixSize == suffixSize
      ensures graph.vertices == START && graph.keys == [ROOT_HASH] && known == [] && faithful
      ensures liveDRP == config.genesis.drp && liveACL == config.genesis.acl
    {
      this.config := config;
      this.suffixSize := suffixSize;
      graph := new HashGraph();
      drpStates := map[ROOT_HASH := config.genesis.drp];
      aclStates := map[ROOT_HASH := config.genesis.acl];
      liveDRP, liveACL := config.genesis.drp, config.genesis.acl;
      checkpoints := [Checkpoint([ROOT_HASH], ROOT_HASH, 1, config.genesis)];
      known := [];
      faithful := true;
      new;
      hide CacheOK, LiveOK, GraphOK, HashGraph.Valid;
      StartCache(config, CacheNow());
    }

    // ---------------------------------------------------------------- replay

    /** The newest checkpoint that may seed the replay of the dependencies, and the suffix after it. */
    method GetReplay(dependencies: seq<Hash>) returns (cp: Checkpoint, linear: Option<seq<Hash>>)
      requires Valid() && dependencies != [] && Members(graph.vertices, dependencies)
      ensures linear.Some? ==> forall h :: h in linear.value ==> h in graph.vertices
      ensures IsNewest(graph.vertices, dependencies, checkpoints, cp)
      ensures faithful && Exact(config, graph.vertices) ==>
                && linear.Some? && SameKeys(cp.state, config.genesis)
                && Replayed(config.bp, cp.state, Fetch(graph.vertices, linear.value))
                   == PastReplay(config, graph.vertices, dependencies)
    {
      hide *;
      ghost var g := graph.vertices;
      ReplayParts();
      var index := |checkpoints| - 1;
      while true
        invariant 0 <= index < |checkpoints|
        invariant forall j :: index < j < |checkpoints| ==> !Accepted(g, dependencies, checkpoints[j].frontier)
        decreases index
      {
        cp := checkpoints[index];
        FitsParts(g, cp);
        var covers := DependenciesCover(graph, dependencies, cp.frontier);
        if covers {
          var subgraph;
          ghost var S;
          subgraph, S := CollectSuffixSubgraph(graph, dependencies, cp.frontier, cp.origin);
          AcceptedIs(g, dependencies, cp.frontier, S);
          if subgraph.Some? {
            MakeNewest(g, dependencies, checkpoints, index);
            linear := LinearizeVertices(graph, config.pol, cp.origin, subgraph.value);
            if faithful && Exact(config, g) {
              HoldsAt(config, g, checkpoints, index);
              SuffixSortable(config, g, dependencies, cp, S);
              ReplayChosen(config, g, dependencies, cp, S, linear.value);
              HoldsParts(config, g, cp);
              CheckpointKeys(config, g, cp);
            }
            return;
          }
          if index == 0 { RootAlwaysAccepted(g, dependencies, S); }
        } else {
          NotCovered(g, dependencies, cp.frontier);
          RootCovers(g, dependencies, index, cp);
        }
        index := index - 1;
      }
    }

    lemma ReplayParts()
      requires Valid()
      ensures graph.Valid() && GraphOK(graph.vertices) && |checkpoints| >= 1 && checkpoints[0].frontier == [ROOT_HASH]
      ensures forall i :: 0 <= i < |checkpoints| ==> CheckpointFits(graph.vertices, checkpoints[i])
      ensures faithful && Exact(config, graph.vertices) ==> CheckpointsHold(config, graph.vertices, checkpoints)
    {
      hide HashGraph.Valid, GraphOK, CheckpointFits, CheckpointsHold, Exact;
      GraphValid(graph);
    }

    /** The states of both objects after everything in the past of the dependencies. */
    method ReplayPast(dependencies: seq<Hash>) returns (drp: Option<State>, acl: Option<State>)
      requires Valid() && dependencies != [] && Members(graph.vertices, dependencies)
      ensures faithful && Exact(config, graph.vertices) ==>
                && Both(drp, acl) == PastReplay(config, graph.vertices, dependencies)
                && (acl.Some? ==> acl.value.Keys == config.genesis.acl.Keys)
    {
      hide *;
      var cp, linear := GetReplay(dependencies);
      if linear.None? { return None, None; }
      var vs := Fetch(graph.vertices, linear.value);
      var drpVertices, aclVertices := SplitOperation(vs);
      acl := ApplyVertices(config.bp.applyACL, cp.state.acl, aclVertices);
      drp := ApplyVertices(config.bp.applyDRP, cp.state.drp, drpVertices);
      SplitIs(config.bp, cp.state, vs);
      if faithful && Exact(config, graph.vertices) {
        ExactIs(config, graph.vertices);
        SoundParts(config, graph.vertices);
        SameKeysParts(cp.state, config.genesis);
        FoldKeys(config.bp, cp.state.acl, aclVertices);
      }
    }

    /** The state a vertex is applied to: the snapshot of a single dependency, or a replay. */
    method StateBefore(dependencies: seq<Hash>) returns (st: Option<Snapshot>)
      requires Valid() && dependencies != [] && Members(graph.vertices, dependencies)
      ensures faithful && Exact(config, graph.vertices) ==> st == PastReplay(config, graph.vertices, dependencies)
    {
      hide *;
      if |dependencies| == 1 && dependencies[0] in drpStates && dependencies[0] in aclStates {
        var h := dependencies[0];
        assert dependencies == [h];
        SnapshotNow(h);
        return Some(Snapshot(drpStates[h], aclStates[h]));
      }
      var drp, acl := ReplayPast(dependencies);
      st := Both(drp, acl);
    }

    lemma SnapshotNow(h: Hash)
      requires Valid() && h in drpStates && h in aclStates && Members(graph.vertices, [h])
      ensures faithful && Exact(config, graph.vertices) ==>
                PastReplay(config, graph.vertices, [h]) == Some(Snapshot(drpStates[h], aclStates[h]))
    {
      hide CacheOK, HashGraph.Valid, GraphOK, PastReplay, Exact;
      GraphValid(graph);
      CacheParts(config, graph.vertices, CacheNow());
      if faithful && Exact(config, graph.vertices) { SnapshotIs(config, graph.vertices, CacheNow(), h); }
    }

    // ---------------------------------------------------------------- checkpoints

    /** The hashes whose snapshots pruning keeps. */
    method CollectRetained() returns (retained: set<Hash>)
      requires checkpoints != []
      ensures retained == Retained(graph.keys, checkpoints)
      ensures forall h :: h in retained <==> Kept(graph.keys, checkpoints, h)
    {
      RetainedMeans(graph.keys, checkpoints);
      hide Entries, Recent, Kept, Retained;
      RetainedIs(graph.keys, checkpoints);
      retained := {ROOT_HASH};
      NothingYet(graph.keys, checkpoints[|checkpoints| - 1].vertexCount);
      for i := 0 to |checkpoints|
        invariant retained == {ROOT_HASH} + Entries(checkpoints[..i])
      {
        EntriesSnoc(checkpoints, i);
        retained := retained + Elems(checkpoints[i].frontier);
      }
      assert checkpoints[..|checkpoints|] == checkpoints;
      var index := checkpoints[|checkpoints| - 1].vertexCount;
      ghost var first := index;
      while index < |graph.keys|
        invariant first <= index
        invariant retained == {ROOT_HASH} + Entries(checkpoints) + Recent(graph.keys, first, index)
      {
        RecentSnoc(graph.keys, first, index);
        retained := retained + {graph.keys[index]};
        index := index + 1;
      }
      RecentAll(graph.keys, first, index);
    }

    ghost predicate DueNow()
      reads this, graph
    {
      checkpoints != [] && Due(suffixSize, |graph.vertices|, checkpoints)
    }

    /** After enough new vertices, bake the live state into a checkpoint at the frontier. */
    method AdvanceCheckpointIfNeeded()
      requires Valid() && (faithful && DueNow() ==> Live())
      modifies this`checkpoints, this`drpStates, this`aclStates
      ensures Valid() && Live() == old(Live()) && 1 <= |old(checkpoints)| && graph.frontier != []
      ensures CacheNow() == if Due(suffixSize, |graph.vertices|, old(checkpoints))
                            then Advanced(graph.vertices, graph.keys, graph.frontier, old(CacheNow()))
                            else old(CacheNow())
      ensures checkpoints != [] && !Due(suffixSize, |graph.vertices|, checkpoints)
      ensures old(Due(suffixSize, |graph.vertices|, checkpoints)) ==>
                forall h :: h in drpStates <==> h in old(drpStates) && Kept(graph.keys, checkpoints, h)
      ensures old(Due(suffixSize, |graph.vertices|, checkpoints)) ==>
                var cp := checkpoints[|checkpoints| - 1];
                && cp.frontier == graph.frontier && cp.vertexCount == |graph.vertices|
                && cp.state == Snapshot(liveDRP, liveACL)
                && cp.origin in cp.frontier && (forall h :: h in cp.frontier ==> cp.origin <= h)
    {
      hide HashGraph.Valid, GraphOK, CacheOK, LiveOK, Retained, Retain, Keep, Frontier, Past, IsFrontier;
      CheckpointsNow();
      var latest := checkpoints[|checkpoints| - 1];
      if |graph.vertices| - latest.vertexCount < suffixSize { return; }
      GraphValid(graph);
      CacheAdvanced(config, graph.vertices, graph.keys, graph.frontier, CacheNow(), suffixSize);
      var state := Snapshot(liveDRP, liveACL);
      var checkpoint := Checkpoint(graph.frontier, Smallest(graph.frontier), |graph.vertices|, state);
      KeepLast(checkpoints, checkpoint);
      checkpoints := Keep(checkpoints, checkpoint);
      var retained := CollectRetained();
      drpStates, aclStates := Retain(drpStates, retained), Retain(aclStates, retained);
    }

    lemma CheckpointsNow()
      requires Valid()
      ensures checkpoints != [] && graph.frontier != []
    {
      hide CacheOK, HashGraph.Valid, GraphOK;
      GraphValid(graph);
      CacheParts(config, graph.vertices, CacheNow());
      FrontierNonEmpty(graph.vertices, graph.frontier);
    }

    // ---------------------------------------------------------------- a received vertex

    /** Validate, replay the past, check the writer, take the vertex's own step and store the result. */
    method ApplyRemote(v: Vertex, now: int) returns (o: Outcome)
      requires Valid() && v.hash !in graph.vertices
      modifies this`drpStates, this`aclStates, graph
      ensures Valid()
      ensures match Validate(config, old(graph.vertices), v, now)
              case Some(failure) => o == Failed(failure)
              case None => !o.Failed? && v.dependencies != [] && Members(old(graph.vertices), v.dependencies)
                           && (faithful && Exact(config, old(graph.vertices)) ==>
                                 (o.Applied? <==> Executes(config, old(graph.vertices), v)))
      ensures o.Applied? ==>
                && graph.vertices == old(graph.vertices)[v.hash := v] && graph.keys == old(graph.keys) + [v.hash]
                && v.hash in drpStates && v.hash in aclStates
      ensures !o.Applied? ==> unchanged(this, graph)
    {
      hide HashGraph.Valid, GraphOK, CacheOK, Validate, Members, Exact, PastReplay, OwnStep;
      ghost var g := graph.vertices;
      var failure := Validate(config, graph.vertices, v, now);
      if failure.Some? { return Failed(failure.value); }
      GraphValid(graph);
      assert v.dependencies != [] && Members(g, v.dependencies) && Addable(g, v) by { ValidAddable(config, g, v, now); }
      var before := StateBefore(v.dependencies);
      if before.None? { return Thrown; }
      if !IsACL(v) && !config.bp.isWriter(before.value.acl, v.peerId) { return Thrown; }
      var st := OwnStep(config.bp, before.value, v);
      if st.None? { return Thrown; }
      RemoteSnapshot(config, g, v, faithful, before, st.value);
      CacheAdd(config, g, v, CacheNow(), st.value);
      drpStates, aclStates := drpStates[v.hash := st.value.drp], aclStates[v.hash := st.value.acl];
      MembersAre(g, v);
      graph.AddVertex(v);
      o := Applied;
    }

    // ---------------------------------------------------------------- merging a batch

    /** Remember an invalid hash. */
    method RememberInvalid(h: Hash)
      requires Valid()
      modifies this`known
      ensures Valid() && known == Remember(old(known), h)
      ensures h in old(known) ==> known == old(known)
      ensures h !in old(known) ==> known == (old(known) + [h])[if |old(known)| < 10_000 then 0 else 1..]
    {
      GraphValid(graph);
      CacheParts(config, graph.vertices, CacheNow());
      CacheKnown(config, graph.vertices, CacheNow(), Remember(known, h));
      hide HashGraph.Valid, GraphOK, CacheOK;
      if h in known { return; }
      known := known + [h];
      if |known| <= MAX_KNOWN_INVALID { return; }
      known := known[1..];
    }

    /** This graph and memory with the lists of a merge. */
    function Lists(missing: seq<Hash>, invalid: seq<Hash>, held: map<Hash, Vertex>, bad: set<Hash>): Tally
      reads this, graph
    {
      Tally(graph.vertices, graph.keys, known, missing, invalid, held, bad)
    }

    /** Deliver a batch vertex by vertex.  It is cut short at the `turn` of a vertex whose application throws. */
    method DeliverBatch(vertices: seq<Vertex>, now: int)
      returns (done: bool, missing: seq<Hash>, invalid: seq<Hash>, held: map<Hash, Vertex>, bad: set<Hash>,
               ghost turn: nat)
      requires Valid()
      modifies this`drpStates, this`aclStates, this`known, graph
      ensures Valid() && Grew(old(graph.vertices), graph.vertices) && turn <= |vertices|
              && (done <==> turn == |vertices|)
      ensures Lists(missing, invalid, held, bad)
              == DeliverAll(config, Open(old(graph.vertices), old(graph.keys), old(known)), vertices[..turn], now)
      ensures !done ==>
                && !Skipped(graph.vertices, vertices[turn])
                && Validate(config, graph.vertices, vertices[turn], now).None?
      ensures GraphOK(old(graph.vertices))
      ensures faithful && Exact(config, graph.vertices) ==>
                StopsAt(config, Open(old(graph.vertices), old(graph.keys), old(known)), vertices, turn, now)
    {
      hide HashGraph.Valid, GraphOK, CacheOK, Validate, Valid, Skipped, Waits, Remember, DeliverAll, Grew, Exact,
           Executes, Members, RunsTo, AdmitsAt;
      missing, invalid, held, bad, turn := [], [], map[], {}, 0;
      ghost var start := Open(graph.vertices, graph.keys, known);
      GraphNow();
      GrewSame(graph.vertices);
      DeliverNone(config, start, now);
      RunsNone(config, start, vertices, now);
      for i := 0 to |vertices|
        invariant Valid() && Grew(old(graph.vertices), graph.vertices) && turn == i
        invariant Lists(missing, invalid, held, bad) == DeliverAll(config, start, vertices[..i], now)
        invariant faithful && Exact(config, graph.vertices) ==> RunsTo(config, start, vertices, i, now)
      {
        var v := vertices[i];
        ghost var g := graph.vertices;
        assert vertices[..i + 1] == vertices[..i] + [v];
        DeliverSnoc(config, start, vertices[..i], v, now);
        AdmitsMeans(config, start, vertices, i, now, Lists(missing, invalid, held, bad));
        RunsNext(config, start, vertices, i, now);
        if Skipped(graph.vertices, v) { turn := i + 1; continue; }
        SkippedPresent(graph.vertices, v);
        GrewMore(old(graph.vertices), graph.vertices, v);
        var outcome := ApplyRemote(v, now);
        match outcome {
          case Thrown => return false, missing, invalid, held, bad, i;
          case Applied =>
            StillExact(config, g, v, now);
          case Failed(failure) =>
            if Waits(graph.vertices, known, v, failure) {
              missing, held := missing + [v.hash], held[v.hash := v];
            } else {
              invalid, bad := invalid + [v.hash], bad + {v.hash};
              RememberInvalid(v.hash);
            }
        }
        turn := i + 1;
      }
      assert vertices[..|vertices|] == vertices;
      done := true;
    }

    lemma GraphNow()
      requires Valid()
      ensures GraphOK(graph.vertices)
    {
      hide HashGraph.Valid, GraphOK, CacheOK;
      GraphValid(graph);
    }

    /** Reject the condemned hashes one by one. */
    method RejectCondemned(condemned: seq<Hash>, ghost missing: seq<Hash>,
                           invalid0: seq<Hash>, held0: map<Hash, Vertex>, bad0: set<Hash>)
      returns (invalid: seq<Hash>, held: map<Hash, Vertex>, bad: set<Hash>)
      requires Valid()
      modifies this`known
      ensures Valid()
      ensures Lists(missing, invalid, held, bad) == RejectAll(old(Lists(missing, invalid0, held0, bad0)), condemned)
    {
      hide HashGraph.Valid, GraphOK, CacheOK, Valid, Remember;
      invalid, held, bad := invalid0, held0, bad0;
      ghost var t := Lists(missing, invalid, held, bad);
      for i := 0 to |condemned|
        invariant Valid()
        invariant RejectAll(Lists(missing, invalid, held, bad), condemned[i..]) == RejectAll(t, condemned)
      {
        assert condemned[i..][1..] == condemned[i + 1..];
        var h := condemned[i];
        invalid, bad, held := invalid + [h], bad + {h}, held - {h};
        RememberInvalid(h);
      }
    }

    /** Reject held vertices that can never be resolved, round by round. */
    method PropagateInvalid(rounds: nat, missing0: seq<Hash>, invalid0: seq<Hash>,
                            held0: map<Hash, Vertex>, bad0: set<Hash>)
      returns (missing: seq<Hash>, invalid: seq<Hash>)
      requires Valid()
      modifies this`known
      ensures Valid()
      ensures var t := SettleAll(old(Lists(missing0, invalid0, held0, bad0)), rounds);
              known == t.known && missing == t.missing && invalid == t.invalid
              && t.g == graph.vertices && t.keys == graph.keys
    {
      hide HashGraph.Valid, GraphOK, CacheOK, Valid, Doomed, RejectAll;
      missing, invalid := missing0, invalid0;
      var held, bad := held0, bad0;
      ghost var t := Lists(missing, invalid, held, bad);
      for round := 0 to rounds
        invariant Valid()
        invariant SettleAll(Lists(missing, invalid, held, bad), rounds - round) == SettleAll(t, rounds)
      {
        var condemned := Condemned(Lists(missing, invalid, held, bad), missing);
        if condemned == [] { break; }
        invalid, held, bad := RejectCondemned(condemned, missing, invalid, held, bad);
        missing := Unseen(missing, Elems(condemned));
      }
    }

    /** Replay the whole graph onto the live objects, the ACL first. */
    method Recompute() returns (done: bool)
      requires Valid()
      modifies this`liveDRP, this`liveACL
      ensures Valid() && (done && faithful ==> Live()) && (!done ==> liveDRP == old(liveDRP))
      ensures faithful && Exact(config, graph.vertices) ==> (done <==> FullReplay(config, graph.vertices).Some?)
    {
      hide HashGraph.Valid, GraphOK, CacheOK, LiveOK, PastReplay, FullReplay, Exact, Assign, Members;
      GraphValid(graph);
      ghost var g := graph.vertices;
      FrontierReplay(config, g, graph.frontier);
      var drp, acl := ReplayPast(graph.frontier);
      if acl.None? { return false; }
      ghost var before := CacheNow();
      liveACL := Assign(liveACL, acl.value);
      if drp.None? {
        CacheHalfway(config, g, before, acl.value);
        return false;
      }
      liveDRP := Assign(liveDRP, drp.value);
      CacheRecomputed(config, g, before, graph.frontier, Snapshot(drp.value, acl.value));
      done := true;
    }

    /**
     Merge a batch: deliver it, propagate invalidity, replay the whole graph and maybe checkpoint.
     A completed merge does to the graph and reports exactly what the specification says and leaves
     the live state the replay of the whole graph.  It completes exactly when no vertex that validates
     at its turn throws and neither does the replay of the resulting graph.  An aborted merge keeps
     what it delivered before the `turn` that threw, and leaves the live state as it was.
     */
    method MergeVertices(vertices: seq<Vertex>, now: int) returns (r: MergeResult, ghost turn: nat)
      requires Valid()
      modifies this, graph
      ensures Valid() && faithful == old(faithful) && Grew(old(graph.vertices), graph.vertices)
      ensures GraphOK(old(graph.vertices)) && GraphOK(graph.vertices) && turn <= |vertices|
      ensures var start := Open(old(graph.vertices), old(graph.keys), old(known));
              var t := DeliverAll(config, start, vertices[..turn], now);
              graph.vertices == t.g && graph.keys == t.keys && (turn < |vertices| ==> known == t.known)
      ensures faithful && Exact(config, graph.vertices) ==>
                var t := Open(old(graph.vertices), old(graph.keys), old(known));
                && StopsAt(config, t, vertices, turn, now)
                && (r.Merged? <==> Runs(config, t, vertices, now) && FullReplay(config, graph.vertices).Some?)
      ensures turn == |vertices| ==>
                var t := Merge(config, Open(old(graph.vertices), old(graph.keys), old(known)), vertices, now);
                graph.vertices == t.g && graph.keys == t.keys && known == t.known
      ensures r.Merged? ==>
                var t := Merge(config, Open(old(graph.vertices), old(graph.keys), old(known)), vertices, now);
                && turn == |vertices| && r == Merged(t.missing, t.invalid) && (faithful ==> Live())
                && checkpoints != [] && !Due(suffixSize, |graph.vertices|, checkpoints)
      ensures r.Aborted? ==> checkpoints == old(checkpoints)
      ensures r.Aborted? ==> liveDRP == old(liveDRP)
      ensures turn < |vertices| ==>
                && r.Aborted? && liveACL == old(liveACL)
                && !Skipped(graph.vertices, vertices[turn])
                && Validate(config, graph.vertices, vertices[turn], now).None?
    {
      hide HashGraph.Valid, GraphOK, Valid, Live, SettleAll, DeliverAll, Due, Grew, Exact, Runs, StopsAt, FullReplay,
           Skipped, Validate;
      var done, missing, invalid, held, bad;
      done, missing, invalid, held, bad, turn := DeliverBatch(vertices, now);
      GraphNow();
      ghost var t := Open(old(graph.vertices), old(graph.keys), old(known));
      if faithful && Exact(config, graph.vertices) { StopsRuns(config, t, vertices, turn, now); }
      if !done { return Aborted, turn; }
      assert vertices[..turn] == vertices;
      missing, invalid := PropagateInvalid(|vertices|, missing, invalid, held, bad);
      done := Recompute();
      if !done { return Aborted, turn; }
      AdvanceCheckpointIfNeeded();
      r := Merged(missing, invalid);
    }

    // ---------------------------------------------------------------- a local call

    /**
     A method called on the object here: mint a vertex on the whole frontier, take its step on the live
     state and, if the step wrote anything (`changed`), keep the result.

     The hash is collision-free: a stored vertex with the same hash has the same dependencies.  Storing
     something from a live state behind the graph, which only an aborted merge leaves, ends the
     faithfulness of the caches: a checkpoint that was due, or the call itself.
     */
    method CallFn(peerId: string, operation: Operation, hash: Hash, timestamp: int, now: int, changed: bool)
      returns (r: CallResult)
      requires Valid() && (hash in graph.vertices ==> graph.vertices[hash].dependencies == graph.frontier)
      modifies this, graph
      ensures Valid()
      ensures faithful == (old(faithful) && (old(Live()) || r.Rejected? || (!r.Called? && !old(DueNow()))))
      ensures faithful && old(Live()) ==> Live()
      ensures var v := old(Minted(peerId, operation, hash, timestamp));
              r.Rejected? <==> CheckVertex(old(graph.vertices), v, now).Some?
      ensures var v := old(Minted(peerId, operation, hash, timestamp));
              match old(Called(v))
              case None => r.Rejected? || r.Threw?
              case Some(st) =>
                if r.Called? then
                  && changed && old(hash !in graph.vertices)
                  && graph.vertices == old(graph.vertices)[hash := v] && graph.keys == old(graph.keys) + [hash]
                  && liveDRP == Assign(old(liveDRP), st.drp) && liveACL == Assign(old(liveACL), st.acl)
                  && hash in drpStates && hash in aclStates && drpStates[hash] == st.drp && aclStates[hash] == st.acl
                else r.Rejected? || (r.Unchanged? && !changed)
      ensures !r.Called? ==> unchanged(graph) && liveDRP == old(liveDRP) && liveACL == old(liveACL)
      ensures operation.drpType != OtherType && Clean(old(graph.vertices)) ==> Clean(graph.vertices)
    {
      hide HashGraph.Valid, GraphOK, CacheOK, LiveOK, CheckVertex, OwnStep, Addable, Advanced, Due, Exact, Clean,
           Assign, IsFrontier;
      ghost var g := graph.vertices;
      var v := Minted(peerId, operation, hash, timestamp);
      if CheckVertex(graph.vertices, v, now).Some? { return Rejected; }
      GraphValid(graph);
      Doubt(!DueNow() || Live());
      AdvanceCheckpointIfNeeded();
      if !IsACL(v) && !config.bp.isWriter(liveACL, peerId) { return Threw; }
      var st := OwnStep(config.bp, Snapshot(liveDRP, liveACL), v);
      if st.None? { return Threw; }
      if !changed { return Unchanged; }
      Doubt(Live());
      LocalVertex(v);
      StoreLocal(v, st.value);
      r := CallResult.Called;
    }

    /** Note that the caches may no longer be what they should. */
    ghost method Doubt(trusted: bool)
      requires Valid()
      modifies this`faithful
      ensures Valid() && faithful == (old(faithful) && trusted)
    {
      hide HashGraph.Valid, GraphOK, CacheOK;
      GraphValid(graph);
      CacheDoubt(config, graph.vertices, CacheNow(), faithful && trusted);
      faithful := faithful && trusted;
    }

    /** Copy the new states onto the live objects, keep them as snapshots and add the vertex. */
    method StoreLocal(v: Vertex, st: Snapshot)
      requires Valid() && (faithful ==> Live()) && Addable(graph.vertices, v) && v.dependencies == graph.frontier
      requires OwnStep(config.bp, Snapshot(liveDRP, liveACL), v) == Some(st)
      modifies this`liveDRP, this`liveACL, this`drpStates, this`aclStates, graph
      ensures Valid() && (faithful ==> Live())
      ensures graph.vertices == old(graph.vertices)[v.hash := v] && graph.keys == old(graph.keys) + [v.hash]
      ensures liveDRP == Assign(old(liveDRP), st.drp) && liveACL == Assign(old(liveACL), st.acl)
      ensures v.hash in drpStates && v.hash in aclStates && drpStates[v.hash] == st.drp && aclStates[v.hash] == st.acl
    {
      hide HashGraph.Valid, GraphOK, CacheOK, LiveOK, OwnStep, Assign;
      LocalStored(v, st);
      liveDRP, liveACL := Assign(liveDRP, st.drp), Assign(liveACL, st.acl);
      drpStates, aclStates := drpStates[v.hash := st.drp], aclStates[v.hash := st.acl];
      graph.AddVertex(v);
    }

    /** The vertex of a local call. */
    function Minted(peerId: string, operation: Operation, hash: Hash, timestamp: int): Vertex
      reads this, graph
    {
      Vertex(hash, peerId, Some(operation), graph.frontier, timestamp)
    }

    /** The states after the call, unless the caller may not write or the method throws. */
    function Called(v: Vertex): Option<Snapshot>
      reads this
    {
      if !IsACL(v) && !config.bp.isWriter(liveACL, v.peerId) then None
      else OwnStep(config.bp, Snapshot(liveDRP, liveACL), v)
    }

    /** A minted vertex is new: nothing in the graph depends on the whole frontier. */
    lemma LocalVertex(v: Vertex)
      requires Valid() && v.dependencies == graph.frontier
      requires v.hash in graph.vertices ==> graph.vertices[v.hash].dependencies == graph.frontier
      ensures Addable(graph.vertices, v) && v.hash !in graph.vertices
      ensures Typed(v) && Clean(graph.vertices) ==> Clean(graph.vertices[v.hash := v])
    {
      hide HashGraph.Valid, CacheOK, Clean, Typed, GraphOK;
      GraphValid(graph);
      MintedFresh(graph.vertices, v);
      if Typed(v) && Clean(graph.vertices) { LocalClean(graph.vertices, v); }
    }

    lemma LocalStored(v: Vertex, st: Snapshot)
      requires Valid() && (faithful ==> Live()) && Addable(graph.vertices, v) && v.dependencies == graph.frontier
      requires OwnStep(config.bp, Snapshot(liveDRP, liveACL), v) == Some(st)
      ensures GraphOK(graph.vertices[v.hash := v])
      ensures var live := Snapshot(Assign(liveDRP, st.drp), Assign(liveACL, st.acl));
              && CacheOK(config, graph.vertices[v.hash := v], WithSnapshot(CacheNow(), v.hash, st).(live := live))
              && (faithful ==> LiveOK(config, graph.vertices[v.hash := v], live))
    {
      hide HashGraph.Valid, CacheOK, GraphOK, LiveOK, OwnStep, Addable;
      GraphValid(graph);
      CacheLocal(config, graph.vertices, v, CacheNow(), st);
    }
  }

  lemma StillExact(c: Config, g: Graph, v: Vertex, now: int)
    requires GraphOK(g) && v.hash !in g && Validate(c, g, v, now).None?
    ensures Exact(c, g[v.hash := v]) ==> Exact(c, g)
  {
    hide GraphOK, Validate, Exact;
    ValidAddable(c, g, v, now);
    if Exact(c, g[v.hash := v]) { ExactBefore(c, g, v); }
  }

  lemma DeliverNone(c: Config, t: Tally, now: int)
    ensures DeliverAll(c, t, [], now) == t
  {}

  lemma SkippedPresent(g: Graph, v: Vertex)
    requires !Skipped(g, v)
    ensures v.hash !in g
  {}

  lemma GrewSame(g: Graph)
    ensures Grew(g, g)
  {}

  lemma GrewMore(g: Graph, h: Graph, v: Vertex)
    requires Grew(g, h) && v.hash !in h
    ensures Grew(g, h[v.hash := v])
  {}

  lemma HoldsAt(c: Config, g: Graph, cps: seq<Checkpoint>, i: nat)
    requires GraphOK(g) && CheckpointsHold(c, g, cps) && i < |cps|
    ensures CheckpointHolds(c, g, cps[i])
  {}

  /** The root checkpoint covers any dependencies in the graph. */
  lemma RootCovers(g: Graph, D: seq<Hash>, index: int, cp: Checkpoint)
    requires GraphOK(g) && Members(g, D) && !Cover(g, D, cp.frontier)
    ensures cp.frontier != [ROOT_HASH]
  {
    if cp.frontier == [ROOT_HASH] {
      forall d, b | d in D && b in cp.frontier ensures AtMost(g, b, d) { RootBelow(g, d); }
    }
  }

  lemma SameKeysParts(a: Snapshot, b: Snapshot)
    requires SameKeys(a, b)
    ensures a.drp.Keys == b.drp.Keys && a.acl.Keys == b.acl.Keys
  {}

  /** Replicas of one object with the same vertices have the same state, whatever they cached on the way. */
  lemma ReplicasAgree(a: DRPVertexApplier, b: DRPVertexApplier)
    requires a.Valid() && b.Valid() && a.Live() && b.Live()
    requires a.config == b.config && a.graph.vertices == b.graph.vertices && Exact(a.config, a.graph.vertices)
    ensures a.liveDRP == b.liveDRP && a.liveACL == b.liveACL
  {
    hide HashGraph.Valid, GraphOK, CacheOK, FullReplay, Exact;
    GraphValid(a.graph);
    GraphValid(b.graph);
  }
}
