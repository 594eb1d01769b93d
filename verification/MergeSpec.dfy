/**
 What merging a batch of vertices does to the graph and to the lists it reports.

 A batch is delivered vertex by vertex: a vertex is skipped, added, held as missing or rejected as
 invalid.  Afterwards held vertices whose unresolved dependencies are all known to be invalid are
 rejected too, until nothing changes.
 */
module MergeSpec {
  import opened HashGraphs
  import opened TopologicalSort
  import opened Replay
  import opened BarrierTest
  import opened GraphStore
  import opened ReplicaSpec

  const FUTURE_TOLERANCE_MS: int := 60_000
  const MAX_KNOWN_INVALID: nat := 10_000

  // ---------------------------------------------------------------- validation

  datatype Failure = BadHash | BadDependencies | BadTimestamp

  predicate TooEarly(dependency: int, vertex: int) {
    dependency - vertex > FUTURE_TOLERANCE_MS
  }

  /** Check the dependencies in turn: presence first, then the timestamp. */
  function CheckDependencies(g: Graph, deps: seq<Hash>, timestamp: int): Option<Failure> {
    if deps == [] then None
    else if deps[0] !in g then Some(BadDependencies)
    else if TooEarly(g[deps[0]].timestamp, timestamp) then Some(BadTimestamp)
    else CheckDependencies(g, deps[1..], timestamp)
  }

  /** None when the vertex is valid. */
  function Validate(c: Config, g: Graph, v: Vertex, now: int): Option<Failure> {
    if !c.validHash(v) then Some(BadHash) else CheckVertex(g, v, now)
  }

  /** Everything but the hash, which a replica does not check on its own vertices. */
  function CheckVertex(g: Graph, v: Vertex, now: int): Option<Failure> {
    if v.dependencies == [] then Some(BadDependencies)
    else match CheckDependencies(g, v.dependencies, v.timestamp)
      case Some(failure) => Some(failure)
      case None => if TooEarly(v.timestamp, now) then Some(BadTimestamp) else None
  }

  lemma {:induction false} CheckedDependencies(g: Graph, deps: seq<Hash>, timestamp: int)
    ensures CheckDependencies(g, deps, timestamp).None?
            <==> forall d :: d in deps ==> d in g && !TooEarly(g[d].timestamp, timestamp)
    ensures CheckDependencies(g, deps, timestamp) != Some(BadHash)
    ensures CheckDependencies(g, deps, timestamp) == Some(BadDependencies) ==> exists d :: d in deps && d !in g
    decreases |deps|
  {
    if deps != [] {
      CheckedDependencies(g, deps[1..], timestamp);
      assert deps == [deps[0]] + deps[1..];
    }
  }

  lemma ValidAddable(c: Config, g: Graph, v: Vertex, now: int)
    requires Validate(c, g, v, now).None? && v.hash !in g
    ensures Addable(g, v)
  {
    CheckedDependencies(g, v.dependencies, v.timestamp);
  }

  // ---------------------------------------------------------------- delivering a batch

  function Unresolved(g: Graph, deps: seq<Hash>): (r: seq<Hash>)
    ensures forall d :: d in r <==> d in deps && d !in g
  {
    if deps == [] then [] else (if deps[0] in g then [] else [deps[0]]) + Unresolved(g, deps[1..])
  }

  /** Remember an invalid hash; the oldest is forgotten when there are too many. */
  function Remember(known: seq<Hash>, h: Hash): (r: seq<Hash>)
    ensures forall x :: x in r ==> x in known || x == h
    ensures |known| <= MAX_KNOWN_INVALID ==> |r| <= MAX_KNOWN_INVALID
    ensures Distinct(known) ==> Distinct(r)
  {
    if h in known then known
    else
      var more := known + [h];
      if |more| <= MAX_KNOWN_INVALID then more else more[1..]
  }

  /** The graph, the remembered invalid hashes and the lists of one merge. */
  datatype Tally = Tally(g: Graph, keys: seq<Hash>, known: seq<Hash>,
                         missing: seq<Hash>, invalid: seq<Hash>, held: map<Hash, Vertex>, bad: set<Hash>)

  predicate Skipped(g: Graph, v: Vertex) {
    v.operation.None? || v.operation.value.opType == NOP || v.hash in g
  }

  /** A failed vertex waits when a dependency is absent and not known to be invalid. */
  predicate Waits(g: Graph, known: seq<Hash>, v: Vertex, failure: Failure) {
    var unresolved := Unresolved(g, v.dependencies);
    failure == BadDependencies && unresolved != [] && !(forall d :: d in unresolved ==> d in known)
  }

  function Hold(t: Tally, v: Vertex): Tally {
    t.(missing := t.missing + [v.hash], held := t.held[v.hash := v])
  }

  function Reject(t: Tally, h: Hash): Tally {
    t.(invalid := t.invalid + [h], bad := t.bad + {h}, known := Remember(t.known, h))
  }

  function Deliver(c: Config, t: Tally, v: Vertex, now: int): Tally {
    if Skipped(t.g, v) then t
    else match Validate(c, t.g, v, now)
      case None => t.(g := t.g[v.hash := v], keys := t.keys + [v.hash])
      case Some(failure) => if Waits(t.g, t.known, v, failure) then Hold(t, v) else Reject(t, v.hash)
  }

  function DeliverAll(c: Config, t: Tally, vs: seq<Vertex>, now: int): Tally
    decreases |vs|
  {
    if vs == [] then t else DeliverAll(c, Deliver(c, t, vs[0], now), vs[1..], now)
  }

  lemma {:induction false} DeliverSnoc(c: Config, t: Tally, vs: seq<Vertex>, v: Vertex, now: int)
    ensures DeliverAll(c, t, vs + [v], now) == Deliver(c, DeliverAll(c, t, vs, now), v, now)
    decreases |vs|
  {
    if vs == [] {
      assert vs + [v] == [v];
      assert [v][1..] == [];
    } else {
      assert (vs + [v])[1..] == vs[1..] + [v];
      DeliverSnoc(c, Deliver(c, t, vs[0], now), vs[1..], v, now);
    }
  }

  // ---------------------------------------------------------------- propagating invalidity

  /** A held vertex whose unresolved dependencies are all known to be invalid. */
  predicate Doomed(t: Tally, h: Hash) {
    h in t.held &&
    var unresolved := Unresolved(t.g, t.held[h].dependencies);
    unresolved != [] && forall d :: d in unresolved ==> d in t.known || d in t.bad
  }

  function Condemned(t: Tally, hs: seq<Hash>): (r: seq<Hash>)
    ensures forall h :: h in r <==> h in hs && Doomed(t, h)
    ensures |r| <= |hs|
  {
    if hs == [] then [] else (if Doomed(t, hs[0]) then [hs[0]] else []) + Condemned(t, hs[1..])
  }

  function RejectAll(t: Tally, hs: seq<Hash>): (r: Tally)
    ensures r.g == t.g && r.keys == t.keys && r.missing == t.missing
    ensures r.invalid == t.invalid + hs && r.bad == t.bad + Elems(hs) && r.held == t.held - Elems(hs)
    decreases |hs|
  {
    if hs == [] then
      assert t.held - Elems([]) == t.held;
      t
    else
      var u := Reject(t, hs[0]);
      var r := RejectAll(u.(held := u.held - {hs[0]}), hs[1..]);
      assert t.invalid + hs == (t.invalid + [hs[0]]) + hs[1..];
      assert Elems(hs) == {hs[0]} + Elems(hs[1..]);
      assert (t.held - {hs[0]}) - Elems(hs[1..]) == t.held - Elems(hs);
      r
  }

  function Settle(t: Tally): Tally {
    var condemned := Condemned(t, t.missing);
    var r := RejectAll(t, condemned);
    r.(missing := Unseen(t.missing, Elems(condemned)))
  }

  /** At most `n` rounds of propagation. */
  function SettleAll(t: Tally, n: nat): Tally
    decreases n
  {
    if n == 0 || Condemned(t, t.missing) == [] then t else SettleAll(Settle(t), n - 1)
  }

  function Merge(c: Config, t: Tally, vs: seq<Vertex>, now: int): Tally {
    SettleAll(DeliverAll(c, t, vs, now), |vs|)
  }

  /** The tally a merge starts from. */
  function Open(g: Graph, keys: seq<Hash>, known: seq<Hash>): Tally {
    Tally(g, keys, known, [], [], map[], {})
  }

  // ---------------------------------------------------------------- the fixpoint

  /** Nothing held is doomed any more. */
  ghost predicate AtRest(t: Tally) {
    forall h :: h in t.missing ==> !Doomed(t, h)
  }

  lemma {:induction false} UnseenShrinks(xs: seq<Hash>, gone: set<Hash>, x: Hash)
    requires x in xs && x in gone
    ensures |Unseen(xs, gone)| < |xs|
    decreases |xs|
  {
    UnseenSize(xs[1..], gone);
    if xs[0] !in gone { UnseenShrinks(xs[1..], gone, x); }
  }

  lemma {:induction false} UnseenSize(xs: seq<Hash>, gone: set<Hash>)
    ensures |Unseen(xs, gone)| <= |xs|
    decreases |xs|
  {
    if xs != [] { UnseenSize(xs[1..], gone); }
  }

  lemma SettleShrinks(t: Tally)
    requires Condemned(t, t.missing) != []
    ensures |Settle(t).missing| < |t.missing|
  {
    var hs := Condemned(t, t.missing);
    assert hs[0] in hs;
    UnseenShrinks(t.missing, Elems(hs), hs[0]);
  }

  /** The propagation reaches its fixpoint within its iteration bound. */
  lemma {:induction false} SettleRests(t: Tally, n: nat)
    requires |t.missing| <= n
    ensures AtRest(SettleAll(t, n))
    decreases n
  {
    hide Doomed, Settle;
    if Condemned(t, t.missing) == [] {
      forall h | h in t.missing ensures !Doomed(t, h) { assert h !in Condemned(t, t.missing); }
    } else {
      SettleShrinks(t);
      SettleRests(Settle(t), n - 1);
    }
  }

  lemma {:induction false} DeliverMissing(c: Config, t: Tally, vs: seq<Vertex>, now: int)
    ensures |DeliverAll(c, t, vs, now).missing| <= |t.missing| + |vs|
    decreases |vs|
  {
    if vs != [] { DeliverMissing(c, Deliver(c, t, vs[0], now), vs[1..], now); }
  }

  /**
   On return no missing vertex has a non-empty set of unresolved dependencies that are all known to
   be invalid, whatever the memory of invalid hashes forgot on the way.
   */
  lemma MergeRests(c: Config, g: Graph, keys: seq<Hash>, known: seq<Hash>, vs: seq<Vertex>, now: int)
    ensures AtRest(Merge(c, Open(g, keys, known), vs, now))
  {
    var t := Open(g, keys, known);
    DeliverMissing(c, t, vs, now);
    SettleRests(DeliverAll(c, t, vs, now), |vs|);
  }

  // ---------------------------------------------------------------- the partition

  function Hashes(vs: seq<Vertex>): (r: seq<Hash>)
    ensures |r| == |vs| && forall i :: 0 <= i < |vs| ==> r[i] == vs[i].hash
  {
    seq(|vs|, i requires 0 <= i < |vs| => vs[i].hash)
  }

  /** Nothing present changed. */
  ghost predicate Grew(g: Graph, h: Graph) {
    g.Keys <= h.Keys && forall x :: x in g ==> h[x] == g[x]
  }

  /** The lists of a tally name batch vertices, each once and in one list only. */
  ghost predicate Listed(g: Graph, t: Tally, hs: seq<Hash>) {
    && Grew(g, t.g)
    && Distinct(t.missing) && Distinct(t.invalid) && t.bad == Elems(t.invalid)
    && t.held.Keys == Elems(t.missing)
    && (forall h :: h in t.missing ==> h in hs && h !in t.g && h !in t.invalid)
    && (forall h :: h in t.invalid ==> h in hs && h !in t.g)
    && (forall h :: h in t.g ==> h in g || h in hs)
  }

  /** `v` is in one of the four places: skipped, added, missing, invalid. */
  ghost predicate Placed(g: Graph, t: Tally, v: Vertex) {
    if Skipped(g, v) then v.hash !in t.missing && v.hash !in t.invalid && (v.hash in t.g ==> v.hash in g)
    else v.hash in t.g || v.hash in t.missing || v.hash in t.invalid
  }

  lemma DistinctAppend(xs: seq<Hash>, x: Hash)
    requires Distinct(xs) && x !in xs
    ensures Distinct(xs + [x]) && Elems(xs + [x]) == Elems(xs) + {x}
  {}

  lemma ListedMore(g: Graph, t: Tally, hs: seq<Hash>, h: Hash)
    requires Listed(g, t, hs)
    ensures Listed(g, t, hs + [h])
  {
    hide Distinct;
  }

  lemma ListedAdd(g: Graph, t: Tally, hs: seq<Hash>, v: Vertex)
    requires Listed(g, t, hs) && v.hash !in hs && v.hash !in t.g
    ensures Listed(g, t.(g := t.g[v.hash := v], keys := t.keys + [v.hash]), hs + [v.hash])
  {
    hide Distinct;
  }

  lemma ListedHold(g: Graph, t: Tally, hs: seq<Hash>, v: Vertex)
    requires Listed(g, t, hs) && v.hash !in hs && v.hash !in t.g
    ensures Listed(g, Hold(t, v), hs + [v.hash])
  {
    DistinctAppend(t.missing, v.hash);
    hide Distinct, Elems;
  }

  lemma ListedReject(g: Graph, t: Tally, hs: seq<Hash>, h: Hash)
    requires Listed(g, t, hs) && h !in hs && h !in t.g
    ensures Listed(g, Reject(t, h), hs + [h])
  {
    DistinctAppend(t.invalid, h);
    hide Distinct, Elems, Remember;
  }

  lemma ListedDeliver(c: Config, g: Graph, t: Tally, hs: seq<Hash>, v: Vertex, now: int)
    requires Listed(g, t, hs) && v.hash !in hs
    ensures Listed(g, Deliver(c, t, v, now), hs + [v.hash])
    ensures Placed(g, Deliver(c, t, v, now), v)
  {
    assert v.hash !in t.missing && v.hash !in t.invalid && (v.hash in t.g <==> v.hash in g);
    hide Validate, Waits, Remember, Listed;
    ListedMore(g, t, hs, v.hash);
    if !Skipped(t.g, v) {
      ListedAdd(g, t, hs, v);
      ListedHold(g, t, hs, v);
      ListedReject(g, t, hs, v.hash);
    }
  }

  lemma PlacedStays(c: Config, g: Graph, t: Tally, hs: seq<Hash>, v: Vertex, u: Vertex, now: int)
    requires Listed(g, t, hs) && Placed(g, t, u) && u.hash in hs && v.hash !in hs
    ensures Placed(g, Deliver(c, t, v, now), u)
  {
    hide Validate, Waits, Remember;
  }

  ghost predicate AllPlaced(g: Graph, t: Tally, vs: seq<Vertex>) {
    forall v :: v in vs ==> Placed(g, t, v)
  }

  lemma {:induction false} ListedAll(c: Config, g: Graph, t: Tally, vs: seq<Vertex>, now: int)
    requires Distinct(Hashes(vs)) && t.g == g && t.missing == [] && t.invalid == [] && t.held == map[] && t.bad == {}
    ensures Listed(g, DeliverAll(c, t, vs, now), Hashes(vs)) && AllPlaced(g, DeliverAll(c, t, vs, now), vs)
    decreases |vs|
  {
    if vs != [] {
      var less, v := vs[..|vs| - 1], vs[|vs| - 1];
      assert vs == less + [v] && Hashes(vs) == Hashes(less) + [v.hash];
      assert v.hash !in Hashes(less) by { LastFresh(vs); }
      assert Distinct(Hashes(less)) by { LastFresh(vs); }
      ListedAll(c, g, t, less, now);
      DeliverSnoc(c, t, less, v, now);
      hide Listed, Deliver, DeliverAll, Placed, Distinct;
      var u := DeliverAll(c, t, less, now);
      ListedDeliver(c, g, u, Hashes(less), v, now);
      forall w | w in less ensures Placed(g, Deliver(c, u, v, now), w) {
        HashIn(less, w);
        PlacedStays(c, g, u, Hashes(less), v, w, now);
      }
    } else {
      assert Elems([]) == {};
    }
  }

  lemma LastFresh(vs: seq<Vertex>)
    requires vs != [] && Distinct(Hashes(vs))
    ensures var less := vs[..|vs| - 1]; Distinct(Hashes(less)) && vs[|vs| - 1].hash !in Hashes(less)
  {
    var less := vs[..|vs| - 1];
    assert forall i :: 0 <= i < |less| ==> Hashes(less)[i] == Hashes(vs)[i];
    assert vs[|vs| - 1].hash == Hashes(vs)[|vs| - 1];
  }

  lemma HashIn(vs: seq<Vertex>, w: Vertex)
    requires w in vs
    ensures w.hash in Hashes(vs)
  {
    var i :| 0 <= i < |vs| && vs[i] == w;
    assert Hashes(vs)[i] == w.hash;
  }

  lemma {:induction false} CondemnedDistinct(t: Tally, hs: seq<Hash>)
    requires Distinct(hs)
    ensures Distinct(Condemned(t, hs))
    decreases |hs|
  {
    hide Doomed;
    if hs != [] { CondemnedDistinct(t, hs[1..]); }
  }

  lemma DistinctJoin(xs: seq<Hash>, ys: seq<Hash>)
    requires Distinct(xs) && Distinct(ys) && forall x :: x in ys ==> x !in xs
    ensures Distinct(xs + ys) && Elems(xs + ys) == Elems(xs) + Elems(ys)
  {
    var zs := xs + ys;
    forall i, j | 0 <= i < j < |zs| ensures zs[i] != zs[j] {
      if i < |xs| <= j { assert ys[j - |xs|] in ys && xs[i] in xs; }
    }
  }

  lemma ListedSettle(g: Graph, t: Tally, hs: seq<Hash>)
    requires Listed(g, t, hs)
    ensures Listed(g, Settle(t), hs)
  {
    var gone := Condemned(t, t.missing);
    CondemnedDistinct(t, t.missing);
    UnseenDistinct(t.missing, Elems(gone));
    DistinctJoin(t.invalid, gone);
    hide Doomed, Distinct;
    ListedMove(g, t, hs, gone, RejectAll(t, gone).known);
    var r := RejectAll(t, gone);
    assert r == Tally(t.g, t.keys, r.known, t.missing, t.invalid + gone, t.held - Elems(gone), t.bad + Elems(gone));
  }

  lemma ListedMove(g: Graph, t: Tally, hs: seq<Hash>, gone: seq<Hash>, known: seq<Hash>)
    requires Listed(g, t, hs) && (forall h :: h in gone ==> h in t.missing)
    requires Distinct(t.invalid + gone) && Elems(t.invalid + gone) == Elems(t.invalid) + Elems(gone)
    requires Distinct(Unseen(t.missing, Elems(gone)))
    ensures Listed(g, Tally(t.g, t.keys, known, Unseen(t.missing, Elems(gone)), t.invalid + gone,
                            t.held - Elems(gone), t.bad + Elems(gone)), hs)
  {
    hide Distinct;
    assert (t.held - Elems(gone)).Keys == Elems(Unseen(t.missing, Elems(gone)));
  }

  lemma PlacedSettle(g: Graph, t: Tally, v: Vertex)
    requires Placed(g, t, v)
    ensures Placed(g, Settle(t), v)
  {
    hide Doomed;
  }

  lemma {:induction false} SettlePlaces(g: Graph, t: Tally, hs: seq<Hash>, vs: seq<Vertex>, n: nat)
    requires Listed(g, t, hs) && AllPlaced(g, t, vs)
    ensures Listed(g, SettleAll(t, n), hs) && AllPlaced(g, SettleAll(t, n), vs)
    decreases n
  {
    hide Listed, Placed, Settle, Condemned;
    if n > 0 && Condemned(t, t.missing) != [] {
      ListedSettle(g, t, hs);
      forall v | v in vs ensures Placed(g, Settle(t), v) { PlacedSettle(g, t, v); }
      SettlePlaces(g, Settle(t), hs, vs, n - 1);
    }
  }

  /** Exactly one of the four outcomes. */
  ghost predicate ExactlyOne(a: bool, b: bool, c: bool, d: bool) {
    (if a then 1 else 0) + (if b then 1 else 0) + (if c then 1 else 0) + (if d then 1 else 0) == 1
  }

  /** Skipped, added, missing and invalid partition a batch with distinct hashes. */
  lemma MergePartitions(c: Config, g: Graph, keys: seq<Hash>, known: seq<Hash>, vs: seq<Vertex>, now: int)
    requires Distinct(Hashes(vs))
    ensures var t := Merge(c, Open(g, keys, known), vs, now);
            && Grew(g, t.g) && Distinct(t.missing) && Distinct(t.invalid)
            && (forall h :: h in t.missing || h in t.invalid || h in t.g.Keys - g.Keys ==> h in Hashes(vs))
            && forall v :: v in vs ==>
                 ExactlyOne(v.operation.None? || v.operation.value.opType == "-1" || v.hash in g,
                            v.hash in t.g.Keys - g.Keys, v.hash in t.missing, v.hash in t.invalid)
  {
    var t0 := Open(g, keys, known);
    ListedAll(c, g, t0, vs, now);
    SettlePlaces(g, DeliverAll(c, t0, vs, now), Hashes(vs), vs, |vs|);
    var t := Merge(c, t0, vs, now);
    hide DeliverAll, SettleAll;
    forall v | v in vs
      ensures ExactlyOne(Skipped(g, v), v.hash in t.g.Keys - g.Keys, v.hash in t.missing, v.hash in t.invalid)
    {
      assert Placed(g, t, v);
    }
  }
}
