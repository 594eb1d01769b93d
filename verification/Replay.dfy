/**
 Replaying operations on the DRP state and the ACL state.

 A state is what an object's own properties hold; a snapshot is a copy of it.  Application code is
 an arbitrary deterministic step that may throw (None).
 */
module Replay {
  import opened HashGraphs
  import opened TopologicalSort
  import opened CausalBarrier
  import opened PairLinearizer
  import opened Linearization

  type State = map<string, string>

  type Apply = (State, string, Operation) -> Option<State>

  /** The application code of one object: its DRP and ACL methods and the writer check. */
  datatype Blueprint = Blueprint(applyDRP: Apply, applyACL: Apply, isWriter: (State, string) -> bool)

  datatype Snapshot = Snapshot(drp: State, acl: State)

  predicate Typed(v: Vertex) {
    v.operation.Some? && v.operation.value.drpType != OtherType
  }

  function Run1(f: Apply, st: State, v: Vertex): Option<State> {
    if v.operation.None? then None else f(st, v.peerId, v.operation.value)
  }

  /** Apply the vertices in turn to one object. */
  function Fold(f: Apply, st: State, vs: seq<Vertex>): Option<State>
    decreases |vs|
  {
    if vs == [] then Some(st)
    else match Run1(f, st, vs[0])
      case None => None
      case Some(next) => Fold(f, next, vs[1..])
  }

  /** The operations replayed on the DRP. */
  function DrpPart(vs: seq<Vertex>): seq<Vertex> {
    if vs == [] then []
    else (if vs[0].operation.Some? && vs[0].operation.value.drpType == DRP then [vs[0]] else []) + DrpPart(vs[1..])
  }

  /** The operations replayed on the ACL: every other one. */
  function AclPart(vs: seq<Vertex>): seq<Vertex> {
    if vs == [] then []
    else (if vs[0].operation.Some? && vs[0].operation.value.drpType != DRP then [vs[0]] else []) + AclPart(vs[1..])
  }

  /** Split the operations and replay each part on its own object. */
  function SplitReplay(bp: Blueprint, st: Snapshot, vs: seq<Vertex>): Option<Snapshot> {
    match (Fold(bp.applyDRP, st.drp, DrpPart(vs)), Fold(bp.applyACL, st.acl, AclPart(vs)))
    case (Some(drp), Some(acl)) => Some(Snapshot(drp, acl))
    case _ => None
  }

  /** One operation on the pair of objects, as it is replayed. */
  function Step(bp: Blueprint, st: Snapshot, v: Vertex): Option<Snapshot> {
    if v.operation.None? then Some(st)
    else if v.operation.value.drpType == DRP then
      match Run1(bp.applyDRP, st.drp, v) case None => None case Some(drp) => Some(st.(drp := drp))
    else
      match Run1(bp.applyACL, st.acl, v) case None => None case Some(acl) => Some(st.(acl := acl))
  }

  /** All operations in one interleaved pass. */
  function Replayed(bp: Blueprint, st: Snapshot, vs: seq<Vertex>): Option<Snapshot>
    decreases |vs|
  {
    if vs == [] then Some(st)
    else match Step(bp, st, vs[0])
      case None => None
      case Some(next) => Replayed(bp, next, vs[1..])
  }

  /** Folding DRP and ACL operations separately is the interleaved fold. */
  lemma {:induction false} SplitIsInterleaved(bp: Blueprint, st: Snapshot, vs: seq<Vertex>)
    ensures SplitReplay(bp, st, vs) == Replayed(bp, st, vs)
    decreases |vs|
  {
    if vs != [] {
      var v := vs[0];
      var drp, acl := DrpPart(vs[1..]), AclPart(vs[1..]);
      assert [] + drp == drp && [] + acl == acl;
      assert ([v] + drp)[1..] == drp && ([v] + acl)[1..] == acl;
      match Step(bp, st, v) {
        case None =>
        case Some(next) => SplitIsInterleaved(bp, next, vs[1..]);
      }
    }
  }

  /** `v` takes the pair of objects from `a` to `b`: its operation is called for its peer on one of the two. */
  predicate Moves(bp: Blueprint, a: Snapshot, v: Vertex, b: Snapshot) {
    match v.operation
    case None => a == b
    case Some(op) =>
      if op.drpType == DRP then bp.applyDRP(a.drp, v.peerId, op) == Some(b.drp) && b.acl == a.acl
      else bp.applyACL(a.acl, v.peerId, op) == Some(b.acl) && b.drp == a.drp
  }

  /** The states between the vertices, from `st` to `end`. */
  ghost predicate Trace(bp: Blueprint, st: Snapshot, vs: seq<Vertex>, end: Snapshot, states: seq<Snapshot>) {
    && |states| == |vs| + 1 && states[0] == st && states[|vs|] == end
    && forall i :: 0 <= i < |vs| ==> Moves(bp, states[i], vs[i], states[i + 1])
  }

  lemma StepMoves(bp: Blueprint, st: Snapshot, v: Vertex, next: Snapshot)
    ensures Step(bp, st, v) == Some(next) <==> Moves(bp, st, v, next)
  {}

  lemma {:induction false} ReplayedTraced(bp: Blueprint, st: Snapshot, vs: seq<Vertex>) returns (states: seq<Snapshot>)
    requires Replayed(bp, st, vs).Some?
    ensures Trace(bp, st, vs, Replayed(bp, st, vs).value, states)
    decreases |vs|
  {
    hide Step, Moves;
    if vs == [] {
      states := [st];
    } else {
      var next := Step(bp, st, vs[0]).value;
      StepMoves(bp, st, vs[0], next);
      var rest := ReplayedTraced(bp, next, vs[1..]);
      states := [st] + rest;
      forall i | 0 <= i < |vs| ensures Moves(bp, states[i], vs[i], states[i + 1]) {
        if i > 0 { assert Moves(bp, rest[i - 1], vs[1..][i - 1], rest[i - 1 + 1]); }
      }
    }
  }

  lemma {:induction false} TracedReplayed(bp: Blueprint, st: Snapshot, vs: seq<Vertex>, end: Snapshot,
                                          states: seq<Snapshot>)
    requires Trace(bp, st, vs, end, states)
    ensures Replayed(bp, st, vs) == Some(end)
    decreases |vs|
  {
    hide Step, Moves;
    if vs != [] {
      var rest, tail := states[1..], vs[1..];
      assert Moves(bp, states[0], vs[0], states[0 + 1]);
      StepMoves(bp, st, vs[0], states[1]);
      forall i | 0 <= i < |tail| ensures Moves(bp, rest[i], tail[i], rest[i + 1]) {
        assert Moves(bp, states[i + 1], vs[i + 1], states[i + 1 + 1]);
      }
      TracedReplayed(bp, states[1], tail, end, rest);
    }
  }

  /** A replay ends in `end` exactly when the operations, called in turn for their peers, lead there. */
  lemma ReplayedIsTraced(bp: Blueprint, st: Snapshot, vs: seq<Vertex>, end: Snapshot)
    ensures Replayed(bp, st, vs) == Some(end) <==> exists states :: Trace(bp, st, vs, end, states)
  {
    hide Replayed, Trace;
    if Replayed(bp, st, vs) == Some(end) { var states := ReplayedTraced(bp, st, vs); }
    if states :| Trace(bp, st, vs, end, states) { TracedReplayed(bp, st, vs, end, states); }
  }

  lemma {:induction false} ReplayedConcat(bp: Blueprint, st: Snapshot, a: seq<Vertex>, b: seq<Vertex>)
    ensures Replayed(bp, st, a + b)
            == match Replayed(bp, st, a) case None => None case Some(mid) => Replayed(bp, mid, b)
    decreases |a|
  {
    if a == [] {
      assert a + b == b;
    } else {
      assert (a + b)[1..] == a[1..] + b;
      match Step(bp, st, a[0]) {
        case None =>
        case Some(next) => ReplayedConcat(bp, next, a[1..], b);
      }
    }
  }

  // ---------------------------------------------------------------- the state of a graph

  function Fetch(g: Graph, hs: seq<Hash>): (vs: seq<Vertex>)
    requires forall h :: h in hs ==> h in g
    ensures |vs| == |hs| && forall i :: 0 <= i < |hs| ==> vs[i] == g[hs[i]]
  {
    seq(|hs|, i requires 0 <= i < |hs| => g[hs[i]])
  }

  /** Everything an object is configured with: application code, resolvers, genesis state and the
      test that a vertex carries the hash of its own content. */
  datatype Config = Config(bp: Blueprint, pol: Policy, genesis: Snapshot, validHash: Vertex -> bool)

  /** Replay `s` after `origin` on top of `st`. */
  ghost function ReplayOn(c: Config, st: Snapshot, s: Graph, origin: Hash): Option<Snapshot>
    requires RootedAt(s, origin)
  {
    match Linearize(c.pol, s, origin)
    case None => None
    case Some(hs) => Replayed(c.bp, st, Fetch(s, hs))
  }

  /** The state of a whole graph: its replay from the root. */
  ghost function FullReplay(c: Config, g: Graph): Option<Snapshot>
    requires GraphOK(g)
  {
    RootRooted(g);
    ReplayOn(c, c.genesis, g, ROOT_HASH)
  }

  lemma FetchConcat(t: Graph, p: Graph, q: Graph, a: seq<Hash>, b: seq<Hash>)
    requires (forall h :: h in a ==> h in p && h in t && p[h] == t[h])
    requires (forall h :: h in b ==> h in q && h in t && q[h] == t[h])
    ensures Fetch(t, a + b) == Fetch(p, a) + Fetch(q, b)
  {
    forall i | 0 <= i < |a + b| ensures Fetch(t, a + b)[i] == (Fetch(p, a) + Fetch(q, b))[i] {
      if i < |a| {
        assert (a + b)[i] == a[i] && a[i] in a;
      } else {
        assert (a + b)[i] == b[i - |a|] && b[i - |a|] in b;
      }
    }
  }

  /** Across a causal barrier: replay the prefix, then the suffix on top of it. */
  lemma BarrierReplay(c: Config, t: Graph, P: set<Hash>, o: Hash)
    requires Settled(c.pol, t) && GraphOK(t) && Reduced(t) && Barrier(t, P) && o in Heads(t, P)
    ensures GraphOK(Sub(t, P)) && RootedAt(Sub(t, (t.Keys - P) + {o}), o)
    ensures FullReplay(c, t)
            == match FullReplay(c, Sub(t, P))
               case None => None
               case Some(st) => ReplayOn(c, st, Sub(t, (t.Keys - P) + {o}), o)
  {
    var p, q := Sub(t, P), Sub(t, (t.Keys - P) + {o});
    BarrierPrefixOK(t, P);
    BarrierLinearize(c.pol, t, P, o);
    hide Settled, GraphOK, Reduced, Barrier, Heads, RootedAt, Linearize, Replayed;
    var a, b := Linearize(c.pol, p, ROOT_HASH).value, Linearize(c.pol, q, o).value;
    FetchConcat(t, p, q, a, b);
    ReplayedConcat(c.bp, c.genesis, Fetch(p, a), Fetch(q, b));
  }

  // ---------------------------------------------------------------- one vertex on top

  /** The graph of one vertex above one other linearizes to that vertex. */
  lemma TopAlone(pol: Policy, q: Graph, o: Hash, h: Hash)
    requires Acyclic(q) && Reduced(q) && RootedAt(q, o) && q.Keys == {o, h} && o != h
    ensures Linearize(pol, q, o) == Some([h])
  {
    TopOrder(q, o, h);
    hide DfsOrder, Sort, Outer, PairLinearize, Start;
    ScanDecides(pol, q, [o, h], o);
    TopScan(pol, q, o, h);
  }

  lemma TopOrder(q: Graph, o: Hash, h: Hash)
    requires Acyclic(q) && Reduced(q) && RootedAt(q, o) && q.Keys == {o, h} && o != h
    ensures |Sort(q, o).order| >= |q| && DfsOrder(q, o) == [o, h]
  {
    hide DfsOrder, Sort, Acyclic, Reduced;
    SortIsTopological(q, o);
    var order := DfsOrder(q, o);
    assert |q| == |q.Keys| == 2;
    assert order[1] in q && order[1] != order[0];
    assert order == [o, h];
  }

  lemma TopScan(pol: Policy, q: Graph, o: Hash, h: Hash)
    requires q.Keys == {o, h} && o != h
    requires ScanOK(q, Start(q, [o, h]))
    ensures Outer(pol, q, o, Start(q, [o, h]), 0, 2) == Some(Linear(Start(q, [o, h]), [h]))
  {
    var sc := Start(q, [o, h]);
    hide BuildRows;
    assert Outer(pol, q, o, sc, 2, 2) == Some(Linear(sc, []));
    assert Inner(pol, q, sc, 1, 2, pol.swaps) == Some(sc);
    assert [h] + [] == [h];
    assert Outer(pol, q, o, sc, 1, 2) == Some(Linear(sc, [h]));
  }

  lemma TopBarrier(g: Graph, v: Vertex, t: Graph)
    requires Closed(g) && ROOT_HASH in g && v.hash !in g && t == g[v.hash := v]
    requires forall h :: h in g ==> Below(t, h, v.hash)
    ensures Barrier(t, g.Keys) && Sub(t, g.Keys) == g && t.Keys == g.Keys + {v.hash}
  {
    hide Below;
    forall h, d | h in g.Keys && d in Deps(t, h) ensures d in g.Keys { assert d in g[h].dependencies; }
  }

  lemma TopHead(g: Graph, v: Vertex, t: Graph) returns (o: Hash)
    requires GraphOK(g) && v.hash !in g && t == g[v.hash := v] && GraphOK(t)
    requires forall h :: h in g ==> Below(t, h, v.hash)
    ensures Barrier(t, g.Keys) && Sub(t, g.Keys) == g && o in Heads(t, g.Keys) && o != v.hash
    ensures var q := Sub(t, (t.Keys - g.Keys) + {o}); q.Keys == {o, v.hash} && q[v.hash] == v
  {
    TopBarrier(g, v, t);
    o := HeadAbove(t, g.Keys, ROOT_HASH);
  }

  /** A vertex that descends from everything is replayed last. */
  lemma TopReplay(c: Config, g: Graph, v: Vertex, t: Graph)
    requires Settled(c.pol, t) && GraphOK(g) && v.hash !in g && t == g[v.hash := v] && GraphOK(t) && Reduced(t)
    requires forall h :: h in g ==> Below(t, h, v.hash)
    ensures FullReplay(c, t) == match FullReplay(c, g) case None => None case Some(st) => Step(c.bp, st, v)
  {
    hide *;
    var o := TopHead(g, v, t);
    var q := Sub(t, (t.Keys - g.Keys) + {o});
    BarrierReplay(c, t, g.Keys, o);
    BarrierGraphs(t, g.Keys, o);
    TopAlone(c.pol, q, o, v.hash);
    TopStep(c, q, o, v);
  }

  lemma TopStep(c: Config, q: Graph, o: Hash, v: Vertex)
    requires RootedAt(q, o) && v.hash in q && q[v.hash] == v && Linearize(c.pol, q, o) == Some([v.hash])
    ensures forall st :: ReplayOn(c, st, q, o) == Step(c.bp, st, v)
  {
    hide Linearize;
    forall st ensures ReplayOn(c, st, q, o) == Step(c.bp, st, v) {
      var vs := Fetch(q, [v.hash]);
      assert vs == [v] && vs[1..] == [];
      match Step(c.bp, st, v) {
        case None =>
        case Some(next) => assert Replayed(c.bp, next, []) == Some(next);
      }
    }
  }
}
