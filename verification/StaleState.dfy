/** A local call right after an aborted merge: the snapshot it stores is wrong. */
module StaleState {
  import opened HashGraphs
  import opened TopologicalSort
  import opened PairLinearizer
  import opened Linearization
  import opened Replay
  import opened BarrierTest
  import opened GraphStore
  import opened ReplicaSpec
  import opened ReplicaCache
  import opened MergeSpec
  import opened CacheSteps
  import opened Applier

  /**
   The snapshot of a local vertex is right exactly when its step was taken on the replay of the
   whole graph, or gave the same result as that.
   */
  lemma LocalSnapshotExact(c: Config, g: Graph, v: Vertex, st: Snapshot)
    requires GraphOK(g) && Addable(g, v) && IsFrontier(g, v.dependencies)
    requires GraphOK(g[v.hash := v]) && Exact(c, g[v.hash := v])
    ensures SnapshotHolds(c, g[v.hash := v], v.hash, st.drp, st.acl)
            <==> FullReplay(c, g).Some? && OwnStep(c.bp, FullReplay(c, g).value, v) == Some(st)
  {
    hide *;
    ExactIs(c, g[v.hash := v]);
    LocalReplay(c, g, v);
    GraphAdded(g, v);
    SnapshotMeans(c, g[v.hash := v], v.hash, st);
  }

  lemma SnapshotMeans(c: Config, g: Graph, h: Hash, st: Snapshot)
    requires GraphOK(g) && Members(g, [h])
    ensures SnapshotHolds(c, g, h, st.drp, st.acl) <==> PastReplay(c, g, [h]) == Some(st)
  {
    hide GraphOK, PastReplay;
    assert h in [h];
    assert st == Snapshot(st.drp, st.acl);
  }

  // ---------------------------------------------------------------- a log that appends

  /** Appending; one operation throws. */
  function Append(s: State, p: string, op: Operation): Option<State> {
    if op.opType == "fail" then None else Some(map k | k in s :: s[k] + op.value)
  }

  function Keeps(s: State, p: string, op: Operation): Option<State> { Some(s) }

  function Log(value: string): Snapshot { Snapshot(map["log" := value], map[]) }

  function Logging(): Config {
    Config(Blueprint(Append, Keeps, (s, p) => true), Policy(None, None, 1), Log(""), v => true)
  }

  function Entry(h: Hash, opType: string, value: string): Vertex {
    Vertex(h, "peer", Some(Operation(DRP, opType, value)), [ROOT_HASH], 0)
  }

  lemma LoggingSound(g: Graph)
    ensures Sound(Logging(), g)
  {}

  lemma AppendStep(value: string, v: Vertex, more: string)
    requires v.operation == Some(Operation(DRP, "append", more))
    ensures OwnStep(Logging().bp, Log(value), v) == Some(Log(value + more))
  {
    assert (map k | k in Log(value).drp :: Log(value).drp[k] + more) == Log(value + more).drp;
  }

  lemma LongerLog(a: string, b: string)
    requires a != ""
    ensures Log(a + b) != Log("" + b)
  {
    assert |(a + b)| != |("" + b)|;
    assert Log(a + b).drp["log"] != Log("" + b).drp["log"];
  }

  // ---------------------------------------------------------------- vertices on the root

  lemma RootedAddable(g: Graph, v: Vertex)
    requires GraphOK(g) && v.hash !in g && v.dependencies == [ROOT_HASH]
    ensures Addable(g, v) && GraphOK(g[v.hash := v])
  {
    hide GraphOK;
    assert ROOT_HASH in g by { CausalRoot(g); }
    GraphAdded(g, v);
  }

  lemma RootedExact(g: Graph, v: Vertex)
    requires GraphOK(g) && Exact(Logging(), g) && v.hash !in g && v.dependencies == [ROOT_HASH] && Typed(v)
    ensures Exact(Logging(), g[v.hash := v])
  {
    hide *;
    ExactIs(Logging(), g);
    ClosedOf(g);
    RootedAddable(g, v);
    RootAlone(g[v.hash := v]);
    MakeClean(g, v);
    LoggingSound(g[v.hash := v]);
    MakeExact(Logging(), g[v.hash := v]);
  }

  lemma RootAlone(g: Graph)
    requires GraphOK(g)
    ensures Distinct([ROOT_HASH]) && Antichain(g, [ROOT_HASH])
  {}

  lemma MakeExact(c: Config, g: Graph)
    requires Sound(c, g) && Clean(g)
    ensures Exact(c, g)
  {}

  lemma StartExact()
    ensures GraphOK(START) && Exact(Logging(), START) && IsFrontier(START, [ROOT_HASH])
    ensures Members(START, [ROOT_HASH]) && PastReplay(Logging(), START, [ROOT_HASH]) == Some(Log(""))
  {
    hide FullReplay, PastReplay, IsFrontier, GraphOK, Reduced;
    StartGraph();
    LoggingSound(START);
    StartReplay(Logging());
    assert Logging().genesis == Log("");
  }

  lemma EntryValid(g: Graph, v: Vertex)
    requires GraphOK(g) && v.hash !in g && v.dependencies == [ROOT_HASH] && v.timestamp == 0
    ensures Validate(Logging(), g, v, 0).None?
  {
    CheckedDependencies(g, v.dependencies, v.timestamp);
  }

  // ---------------------------------------------------------------- the merge

  /** A batch of an entry and an operation that throws. */
  function Batch(first: Hash, second: Hash, a: string): seq<Vertex> {
    [Entry(first, "append", a), Entry(second, "fail", "")]
  }

  ghost predicate Names(first: Hash, second: Hash, third: Hash) {
    ROOT_HASH != first && ROOT_HASH != second && ROOT_HASH != third && first != second && first != third
        && second != third
  }

  lemma BatchDelivered(first: Hash, second: Hash, a: string, t: Tally)
    requires t == Open(START, [ROOT_HASH], []) && GraphOK(START) && ROOT_HASH != first && ROOT_HASH != second
             && first != second
    ensures var vs := Batch(first, second, a);
            && DeliverAll(Logging(), t, vs[..0], 0).g == START
            && DeliverAll(Logging(), t, vs[..1], 0).g == START[first := vs[0]] && GraphOK(START[first := vs[0]])
            && DeliverAll(Logging(), t, vs[..2], 0).g == START[first := vs[0]][second := vs[1]]
  {
    var c, vs := Logging(), Batch(first, second, a);
    assert vs[..0] == [] && vs[..1] == [] + [vs[0]] && vs[..2] == vs[..1] + [vs[1]];
    hide GraphOK, Validate;
    DeliverSnoc(c, t, [], vs[0], 0);
    DeliverSnoc(c, t, vs[..1], vs[1], 0);
    EntryValid(START, vs[0]);
    RootedAddable(START, vs[0]);
    EntryValid(START[first := vs[0]], vs[1]);
  }

  /** The first entry executes, the second throws. */
  lemma BatchThrows(first: Hash, second: Hash, a: string, t: Tally)
    requires t == Open(START, [ROOT_HASH], []) && GraphOK(START) && ROOT_HASH != first && ROOT_HASH != second
             && first != second
    ensures var vs := Batch(first, second, a);
            AdmitsAt(Logging(), t, vs, 0, 0) && !AdmitsAt(Logging(), t, vs, 1, 0)
  {
    var c, vs := Logging(), Batch(first, second, a);
    var v, w, g := vs[0], vs[1], START[first := vs[0]];
    AppendStep("", v, a);
    assert OwnStep(c.bp, Log(""), w).None? && v.hash == first && w.hash == second && !IsACL(v) && !IsACL(w);
    assert !Skipped(START, v) && !Skipped(g, w) && v.dependencies == [ROOT_HASH] && w.dependencies == [ROOT_HASH];
    assert c.bp.isWriter(Log("").acl, v.peerId);
    hide *;
    BatchDelivered(first, second, a, t);
    StartExact();
    RootedAddable(START, v);
    EntryValid(g, w);
    PastReplayKept(c, START, v, [ROOT_HASH]);
    AdmitsMeans(c, t, vs, 0, 0, DeliverAll(c, t, vs[..0], 0));
    AdmitsMeans(c, t, vs, 1, 0, DeliverAll(c, t, vs[..1], 0));
    ExecutesIs(c, START, v, Log(""));
    ExecutesIs(c, g, w, Log(""));
  }

  lemma ExecutesIs(c: Config, g: Graph, v: Vertex, st: Snapshot)
    requires GraphOK(g) && v.dependencies != [] && Members(g, v.dependencies)
             && PastReplay(c, g, v.dependencies) == Some(st)
    ensures Executes(c, g, v) <==> (IsACL(v) || c.bp.isWriter(st.acl, v.peerId)) && OwnStep(c.bp, st, v).Some?
  {}

  /** The merge is cut short at its second vertex, whatever the caches. */
  lemma BatchStops(first: Hash, second: Hash, a: string, t: Tally, turn: nat)
    requires t == Open(START, [ROOT_HASH], []) && GraphOK(START) && ROOT_HASH != first && ROOT_HASH != second
             && first != second
    requires var vs := Batch(first, second, a);
             turn <= |vs| && (Exact(Logging(), DeliverAll(Logging(), t, vs[..turn], 0).g) ==>
                                StopsAt(Logging(), t, vs, turn, 0))
    ensures turn == 1
  {
    hide *;
    var c, vs := Logging(), Batch(first, second, a);
    BatchIs(first, second, a);
    StartExact();
    BatchDelivered(first, second, a, t);
    BatchThrows(first, second, a, t);
    RootedExact(START, vs[0]);
    RootedExact(START[first := vs[0]], vs[1]);
    assert turn == 0 || turn == 1 || turn == 2;
    OpenIs(t);
    StopsIs(c, t, vs, turn);
  }

  lemma OpenIs(t: Tally)
    requires t == Open(START, [ROOT_HASH], [])
    ensures t.g == START
  {}

  lemma StopsIs(c: Config, t: Tally, vs: seq<Vertex>, turn: nat)
    requires GraphOK(t.g) && |vs| == 2 && StopsAt(c, t, vs, turn, 0)
    requires AdmitsAt(c, t, vs, 0, 0) && !AdmitsAt(c, t, vs, 1, 0)
    ensures turn == 1
  {
    hide AdmitsAt;
  }

  lemma BatchIs(first: Hash, second: Hash, a: string)
    ensures var vs := Batch(first, second, a);
            && |vs| == 2 && vs[0].hash == first && vs[1].hash == second && Typed(vs[0]) && Typed(vs[1])
            && vs[0].dependencies == [ROOT_HASH] && vs[1].dependencies == [ROOT_HASH]
            && vs[0] == Entry(first, "append", a)
    ensures Logging().genesis == Log("") && (ROOT_HASH != first ==> first !in START)
    ensures ROOT_HASH != second && first != second ==> second !in START[first := Batch(first, second, a)[0]]
    ensures START[first := Batch(first, second, a)[0]].Keys == {ROOT_HASH, first}
            && Batch(first, second, a)[0].timestamp == 0
  {}

  /** The replay of the graph the merge leaves holds the entry. */
  lemma FirstReplay(first: Hash, a: string, v: Vertex)
    requires first != ROOT_HASH && v == Entry(first, "append", a)
    ensures GraphOK(START[first := v]) && FullReplay(Logging(), START[first := v]) == Some(Log(a))
    ensures Exact(Logging(), START[first := v])
  {
    assert v.hash == first && v.dependencies == [ROOT_HASH] && first !in START && Typed(v) && "" + a == a;
    assert v.operation == Some(Operation(DRP, "append", a)) && Logging().genesis == Log("");
    hide *;
    var c := Logging();
    StartExact();
    StartReplay(c);
    RootedAddable(START, v);
    RootedExact(START, v);
    ExactIs(c, START[first := v]);
    AppendStep("", v, a);
    LocalReplay(c, START, v);
  }

  /** A local call on the frontier of that graph passes validation. */
  lemma CallValid(g: Graph, w: Vertex)
    requires GraphOK(g) && IsFrontier(g, w.dependencies) && w.timestamp == 0
    requires forall h :: h in g ==> g[h].timestamp <= 0
    ensures CheckVertex(g, w, 0).None?
  {
    hide *;
    FrontierNonEmpty(g, w.dependencies);
    FrontierMembers(g, w.dependencies) by { ClosedOf(g); }
    FrontierKnown(g, w.dependencies);
    CheckedDependencies(g, w.dependencies, 0);
    NotLate(g, w);
  }

  lemma FrontierKnown(g: Graph, frontier: seq<Hash>)
    requires Members(g, frontier) && forall h :: h in g ==> g[h].timestamp <= 0
    ensures forall d :: d in frontier ==> d in g && !TooEarly(g[d].timestamp, 0)
  {}

  lemma NotLate(g: Graph, w: Vertex)
    requires w.dependencies != [] && CheckDependencies(g, w.dependencies, 0).None? && w.timestamp == 0
    ensures CheckVertex(g, w, 0).None?
  {
    hide CheckDependencies;
  }

  /**
   An entry and a throwing operation arrive in one batch: the merge aborts with the entry in the graph
   and the live state behind it.  The next local call is taken on that live state and stored, and its
   snapshot is not the replay of its past.
   */
  method StaleCall(size: nat, first: Hash, second: Hash, third: Hash, a: string, b: string)
    returns (replica: DRPVertexApplier, merged: MergeResult, called: CallResult)
    requires size > 0 && Names(first, second, third) && a != ""
    ensures fresh(replica) && replica.Valid() && replica.config == Logging()
    ensures merged.Aborted? && called.Called?
    ensures GraphOK(replica.graph.vertices) && Exact(Logging(), replica.graph.vertices) && !replica.faithful
    ensures replica.graph.vertices.Keys == {ROOT_HASH, first, third}
    ensures third in replica.drpStates && third in replica.aclStates
    ensures !SnapshotHolds(Logging(), replica.graph.vertices, third, replica.drpStates[third], replica.aclStates[third])
  {
    hide *;
    var c, vs := Logging(), Batch(first, second, a);
    NamesParts(first, second, third);
    BatchIs(first, second, a);
    StartExact();
    replica := new DRPVertexApplier(c, size);
    ghost var turn;
    merged, turn := replica.MergeVertices(vs, 0);
    ghost var t := Open(START, [ROOT_HASH], []);
    OpenIs(t);
    BatchStops(first, second, a, t, turn);
    BatchDelivered(first, second, a, t);
    ghost var g := START[first := vs[0]];
    FirstReplay(first, a, vs[0]);
    Behind(replica, a);
    ghost var v := replica.Minted("peer", Operation(DRP, "append", b), third, 0);
    MintedIs(replica, v, Operation(DRP, "append", b), third);
    ExactIs(c, g);
    OnFrontier(replica, v, vs[0], first, third);
    ghost var st := CalledIs(replica, v, b);
    called := replica.CallFn("peer", Operation(DRP, "append", b), third, 0, 0, true);
    StaleSnapshot(g, v, a, b, third);
    StaleGraph(g, v, first, third);
  }

  lemma MintedIs(replica: DRPVertexApplier, v: Vertex, op: Operation, third: Hash)
    requires v == replica.Minted("peer", op, third, 0) && op.drpType == DRP
    ensures v.operation == Some(op) && Typed(v)
  {}

  lemma NamesParts(first: Hash, second: Hash, third: Hash)
    requires Names(first, second, third)
    ensures ROOT_HASH != first && ROOT_HASH != second && ROOT_HASH != third && first != second && first != third
  {}

  /** The live state is behind the graph. */
  lemma Behind(replica: DRPVertexApplier, a: string)
    requires replica.Valid() && replica.config == Logging() && GraphOK(replica.graph.vertices) && a != ""
    requires Exact(Logging(), replica.graph.vertices) && FullReplay(Logging(), replica.graph.vertices) == Some(Log(a))
    requires replica.liveDRP == Log("").drp && replica.liveACL == Log("").acl
    ensures !replica.Live()
  {
    hide HashGraph.Valid, GraphOK, CacheOK, FullReplay, Exact, LiveOK, Logging;
    LongerLog(a, "");
    assert a + "" == a && "" + "" == "";
    assert Snapshot(replica.liveDRP, replica.liveACL) == Log("");
    hide Log;
    NotLive(Logging(), replica.graph.vertices, Log(""), Log(a));
  }

  lemma NotLive(c: Config, g: Graph, live: Snapshot, full: Snapshot)
    requires GraphOK(g) && Exact(c, g) && FullReplay(c, g) == Some(full) && full != live
    ensures !LiveOK(c, g, live)
  {}

  lemma OnFrontier(replica: DRPVertexApplier, v: Vertex, entry: Vertex, first: Hash, third: Hash)
    requires replica.Valid() && first != ROOT_HASH && third != first && third != ROOT_HASH && entry.hash == first
             && entry.timestamp == 0
    requires replica.graph.vertices == START[first := entry] && GraphOK(START[first := entry])
             && Clean(START[first := entry])
    requires v.operation.Some? && Typed(v) && v == replica.Minted("peer", v.operation.value, third, 0)
    ensures third !in replica.graph.vertices && v.hash == third && v.dependencies == replica.graph.frontier
    ensures IsFrontier(replica.graph.vertices, v.dependencies) && Addable(replica.graph.vertices, v)
    ensures CheckVertex(replica.graph.vertices, v, 0).None?
    ensures GraphOK(replica.graph.vertices[third := v]) && Clean(replica.graph.vertices[third := v])
  {
    hide HashGraph.Valid, GraphOK, CacheOK, Clean, Typed, IsFrontier, Addable, CheckVertex;
    GraphValid(replica.graph);
    MintedFresh(replica.graph.vertices, v);
    CallValid(replica.graph.vertices, v);
    GraphAdded(replica.graph.vertices, v);
    LocalClean(replica.graph.vertices, v);
  }

  lemma CalledIs(replica: DRPVertexApplier, v: Vertex, b: string) returns (st: Snapshot)
    requires replica.config == Logging() && replica.liveDRP == Log("").drp && replica.liveACL == Log("").acl
    requires v.operation == Some(Operation(DRP, "append", b))
    ensures st == Log("" + b) && replica.Called(v) == Some(st)
  {
    AppendStep("", v, b);
    st := Log("" + b);
    assert Snapshot(replica.liveDRP, replica.liveACL) == Log("");
  }

  lemma StaleSnapshot(g: Graph, v: Vertex, a: string, b: string, third: Hash)
    requires GraphOK(g) && Exact(Logging(), g) && FullReplay(Logging(), g) == Some(Log(a)) && a != ""
    requires Addable(g, v) && IsFrontier(g, v.dependencies) && v.hash == third
    requires v.operation == Some(Operation(DRP, "append", b)) && GraphOK(g[third := v]) && Clean(g[third := v])
    ensures Exact(Logging(), g[third := v])
    ensures !SnapshotHolds(Logging(), g[third := v], third, Log("" + b).drp, Log("" + b).acl)
  {
    hide *;
    LoggingSound(g[third := v]);
    MakeExact(Logging(), g[third := v]);
    AppendStep(a, v, b);
    LongerLog(a, b);
    LocalSnapshotExact(Logging(), g, v, Log("" + b));
  }

  lemma StaleGraph(g: Graph, v: Vertex, first: Hash, third: Hash)
    requires g.Keys == {ROOT_HASH, first}
    ensures g[third := v].Keys == {ROOT_HASH, first, third}
  {}
}
