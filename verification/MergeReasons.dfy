/**
 Why a merge reports what it reports, and what it remembers.

 A vertex is added exactly when it is sound at its turn; it is missing only for a dependency that was
 absent and not remembered as invalid; it is invalid through a fault of its own or of dependencies
 that were remembered or reported invalid.  The memory holds the last rejected hashes, oldest out
 first, and with room in it a later merge rejects what depends on them.
 */
module MergeReasons {
  import opened HashGraphs
  import opened TopologicalSort
  import opened Replay
  import opened BarrierTest
  import opened GraphStore
  import opened ReplicaSpec
  import opened MergeSpec

  // ---------------------------------------------------------------- the memory

  /** The last entries of a list that a full memory has room for. */
  function Window(log: seq<Hash>): seq<Hash> {
    if |log| <= MAX_KNOWN_INVALID then log else log[|log| - MAX_KNOWN_INVALID..]
  }

  /** An ever-growing list: each of `hs` in turn, unless it is among the last entries already. */
  function Recorded(log: seq<Hash>, hs: seq<Hash>): seq<Hash>
    decreases |hs|
  {
    if hs == [] then log
    else Recorded(if hs[0] in Window(log) then log else log + [hs[0]], hs[1..])
  }

  lemma {:induction false} RecordedSnoc(log: seq<Hash>, hs: seq<Hash>, h: Hash)
    ensures var r := Recorded(log, hs);
            Recorded(log, hs + [h]) == if h in Window(r) then r else r + [h]
    decreases |hs|
  {
    hide Window;
    if hs == [] {
      assert hs + [h] == [h];
      assert [h][1..] == [];
    } else {
      assert (hs + [h])[1..] == hs[1..] + [h];
      RecordedSnoc(if hs[0] in Window(log) then log else log + [hs[0]], hs[1..], h);
    }
  }

  /** The memory is the end of the list of what was in it and what was rejected since. */
  ghost predicate Remembers(known: seq<Hash>, t: Tally) {
    t.known == Window(Recorded(known, t.invalid))
  }

  lemma WindowSlides(log: seq<Hash>, h: Hash)
    ensures Remember(Window(log), h) == if h in Window(log) then Window(log) else Window(log + [h])
  {
    if h !in Window(log) {
      var more := Window(log) + [h];
      if |log| >= MAX_KNOWN_INVALID {
        assert (log + [h])[|log| + 1 - MAX_KNOWN_INVALID..] == log[|log| + 1 - MAX_KNOWN_INVALID..] + [h];
        assert more[1..] == log[|log| + 1 - MAX_KNOWN_INVALID..] + [h];
      }
    }
  }

  lemma RejectRemembers(known: seq<Hash>, t: Tally, h: Hash)
    requires Remembers(known, t)
    ensures Remembers(known, Reject(t, h))
  {
    hide Recorded, Window, Remember;
    RecordedSnoc(known, t.invalid, h);
    WindowSlides(Recorded(known, t.invalid), h);
  }

  lemma DeliverRemembers(c: Config, known: seq<Hash>, t: Tally, v: Vertex, now: int)
    requires Remembers(known, t)
    ensures Remembers(known, Deliver(c, t, v, now))
  {
    RejectRemembers(known, t, v.hash);
    hide Validate, Waits, Skipped, Window, Recorded, Remember;
  }

  lemma {:induction false} DeliverAllRemembers(c: Config, known: seq<Hash>, t: Tally, vs: seq<Vertex>, now: int)
    requires Remembers(known, t)
    ensures Remembers(known, DeliverAll(c, t, vs, now))
    decreases |vs|
  {
    hide Deliver, Remembers;
    if vs != [] {
      DeliverRemembers(c, known, t, vs[0], now);
      DeliverAllRemembers(c, known, Deliver(c, t, vs[0], now), vs[1..], now);
    }
  }

  lemma {:induction false} RejectAllRemembers(known: seq<Hash>, t: Tally, hs: seq<Hash>)
    requires Remembers(known, t)
    ensures Remembers(known, RejectAll(t, hs))
    decreases |hs|
  {
    if hs != [] {
      RejectRemembers(known, t, hs[0]);
      var u := Reject(t, hs[0]);
      hide Reject, Window, Recorded;
      RejectAllRemembers(known, u.(held := u.held - {hs[0]}), hs[1..]);
    }
  }

  lemma SettleOnce(known: seq<Hash>, t: Tally)
    requires Remembers(known, t)
    ensures Remembers(known, Settle(t))
  {
    hide Condemned, RejectAll, Window, Recorded, Elems;
    RejectAllRemembers(known, t, Condemned(t, t.missing));
  }

  lemma {:induction false} SettleRemembers(known: seq<Hash>, t: Tally, n: nat)
    requires Remembers(known, t)
    ensures Remembers(known, SettleAll(t, n))
    decreases n
  {
    hide Condemned, Settle, Remembers;
    if n > 0 && Condemned(t, t.missing) != [] {
      SettleOnce(known, t);
      SettleRemembers(known, Settle(t), n - 1);
    }
  }

  /**
   After a merge the memory holds the last entries of the list that begins with the old memory and
   goes on with the reported invalid hashes, in the order of the report, each unless it was among the
   last entries already.
   */
  lemma MergeRemembers(c: Config, g: Graph, keys: seq<Hash>, known: seq<Hash>, vs: seq<Vertex>, now: int)
    requires |known| <= MAX_KNOWN_INVALID
    ensures var t := Merge(c, Open(g, keys, known), vs, now); t.known == Window(Recorded(known, t.invalid))
  {
    var t0 := Open(g, keys, known);
    assert Remembers(known, t0);
    hide Remembers;
    DeliverAllRemembers(c, known, t0, vs, now);
    SettleRemembers(known, DeliverAll(c, t0, vs, now), |vs|);
    assert Remembers(known, Merge(c, t0, vs, now));
  }

  /** Those of `hs` that are not in `known`, each at its first place. */
  function NotYet(known: seq<Hash>, hs: seq<Hash>): (r: seq<Hash>)
    ensures forall h :: h in hs ==> h in known || h in r
    ensures |r| <= |hs|
    decreases |hs|
  {
    if hs == [] then []
    else if hs[0] in known then NotYet(known, hs[1..])
    else [hs[0]] + NotYet(known + [hs[0]], hs[1..])
  }

  lemma {:induction false} RecordedFits(log: seq<Hash>, hs: seq<Hash>)
    requires |log| + |hs| <= MAX_KNOWN_INVALID
    ensures Recorded(log, hs) == log + NotYet(log, hs)
    decreases |hs|
  {
    hide Window;
    if hs != [] {
      WindowFits(log);
      if hs[0] in log {
        RecordedFits(log, hs[1..]);
      } else {
        RecordedFits(log + [hs[0]], hs[1..]);
        var rest := NotYet(log + [hs[0]], hs[1..]);
        assert (log + [hs[0]]) + rest == log + ([hs[0]] + rest);
      }
    }
  }

  lemma WindowFits(log: seq<Hash>)
    requires |log| <= MAX_KNOWN_INVALID
    ensures Window(log) == log
  {}

  /** With room in it, the memory keeps all it had and gains every reported hash that it lacked, in order. */
  lemma RoomKeepsAll(c: Config, g: Graph, keys: seq<Hash>, known: seq<Hash>, vs: seq<Vertex>, now: int)
    requires |known| + |Merge(c, Open(g, keys, known), vs, now).invalid| <= MAX_KNOWN_INVALID
    ensures var t := Merge(c, Open(g, keys, known), vs, now);
            && t.known == known + NotYet(known, t.invalid)
            && (forall h :: h in known || h in t.invalid ==> h in t.known)
  {
    MergeRemembers(c, g, keys, known, vs, now);
    hide Merge;
    RecordedFits(known, Merge(c, Open(g, keys, known), vs, now).invalid);
  }

  lemma WindowIn(log: seq<Hash>, h: Hash)
    ensures h in Window(log) ==> h in log
  {}

  lemma {:induction false} RecordedNew(log: seq<Hash>, hs: seq<Hash>)
    requires Distinct(hs) && forall h :: h in hs ==> h !in log
    ensures Recorded(log, hs) == log + hs
    decreases |hs|
  {
    hide Window;
    if hs != [] {
      var more, rest := log + [hs[0]], hs[1..];
      forall h | h in rest ensures h !in more {
        var i :| 0 <= i < |rest| && rest[i] == h;
        assert h == hs[i + 1];
      }
      assert hs[0] in hs;
      WindowIn(log, hs[0]);
      RecordedNew(more, rest);
      assert more + rest == log + hs;
    }
  }

  /** When nothing reported was remembered before, the report pushes out the oldest. */
  lemma NewPushesOut(c: Config, g: Graph, keys: seq<Hash>, known: seq<Hash>, vs: seq<Vertex>, now: int)
    requires |known| <= MAX_KNOWN_INVALID && Distinct(Hashes(vs))
    requires forall h :: h in Merge(c, Open(g, keys, known), vs, now).invalid ==> h !in known
    ensures var t := Merge(c, Open(g, keys, known), vs, now); t.known == Window(known + t.invalid)
  {
    MergeRemembers(c, g, keys, known, vs, now);
    MergePartitions(c, g, keys, known, vs, now);
    hide Merge;
    RecordedNew(known, Merge(c, Open(g, keys, known), vs, now).invalid);
  }

  /**
   In a full memory an entry that was pushed out and is rejected again comes back at the end, although
   it was remembered when the merge began.
   */
  lemma PushedOutComesBack(known: seq<Hash>, x: Hash)
    requires |known| == MAX_KNOWN_INVALID && Distinct(known) && x !in known
    ensures Window(Recorded(known, [x, known[0]])) == known[2..] + [x, known[0]]
    ensures Window(known + NotYet(known, [x, known[0]])) == known[1..] + [x]
  {
    var e := known[0];
    assert Window(known) == known && Window(known + [x]) == known[1..] + [x];
    assert e !in known[1..] + [x];
    hide Window;
    assert [x, e][1..] == [e] && [e][1..] == [];
    assert Recorded(known + [x], [e]) == known + [x] + [e];
    assert Recorded(known, [x, e]) == known + [x] + [e];
    assert NotYet(known, [x, e]) == [x];
    WindowFull(known, [x, e]);
    assert known + [x] + [e] == known + [x, e];
  }

  lemma WindowFull(known: seq<Hash>, hs: seq<Hash>)
    requires |known| == MAX_KNOWN_INVALID && |hs| <= |known|
    ensures Window(known + hs) == known[|hs|..] + hs
  {}

  // ---------------------------------------------------------------- one turn

  /** The vertex is well hashed, has dependencies, all present, and no timestamp is over a minute ahead. */
  ghost predicate Sound(c: Config, g: Graph, v: Vertex, now: int) {
    && c.validHash(v) && v.dependencies != [] && v.timestamp - now <= 60_000
    && (forall d :: d in v.dependencies ==> d in g && g[d].timestamp - v.timestamp <= 60_000)
  }

  /** A fault of the vertex itself: no dependency has to be absent for it. */
  ghost predicate OwnFault(c: Config, g: Graph, v: Vertex, now: int) {
    || !c.validHash(v) || v.dependencies == [] || v.timestamp - now > 60_000
    || (exists d :: d in v.dependencies && d in g && g[d].timestamp - v.timestamp > 60_000)
  }

  /** A dependency that is absent and not remembered as invalid. */
  ghost predicate Awaits(u: Tally, v: Vertex) {
    exists d :: d in v.dependencies && d !in u.g && d !in u.known
  }

  /** All absent dependencies, and there are some, are among the invalid. */
  ghost predicate Inherits(g: Graph, invalid: iset<Hash>, v: Vertex) {
    && (exists d :: d in v.dependencies && d !in g)
    && (forall d :: d in v.dependencies && d !in g ==> d in invalid)
  }

  lemma {:induction false} FirstFault(g: Graph, deps: seq<Hash>, timestamp: int)
    ensures CheckDependencies(g, deps, timestamp) == Some(BadTimestamp) ==>
              exists d :: d in deps && d in g && g[d].timestamp - timestamp > 60_000
    decreases |deps|
  {
    if deps != [] {
      FirstFault(g, deps[1..], timestamp);
      assert deps[0] in deps;
    }
  }

  /** What validation answers. */
  lemma ValidateMeans(c: Config, g: Graph, v: Vertex, now: int)
    ensures Validate(c, g, v, now).None? <==> Sound(c, g, v, now)
    ensures var f := Validate(c, g, v, now);
            && (f.Some? && f.value != BadDependencies ==> OwnFault(c, g, v, now))
            && (f == Some(BadDependencies) ==>
                  c.validHash(v) && (v.dependencies == [] || exists d :: d in v.dependencies && d !in g))
  {
    CheckedDependencies(g, v.dependencies, v.timestamp);
    FirstFault(g, v.dependencies, v.timestamp);
    hide CheckDependencies;
  }

  ghost function Known(t: Tally): iset<Hash> {
    iset d | d in t.known
  }

  /** What becomes of a vertex at its turn. */
  lemma TurnReasons(c: Config, u: Tally, v: Vertex, now: int)
    requires !Skipped(u.g, v) && v.hash !in u.missing && v.hash !in u.invalid
    ensures var t := Deliver(c, u, v, now);
            && (v.hash in t.g <==> Sound(c, u.g, v, now))
            && (v.hash in t.missing ==> c.validHash(v) && Awaits(u, v) && v.hash in t.held && t.held[v.hash] == v)
            && (v.hash in t.invalid ==> OwnFault(c, u.g, v, now) || Inherits(u.g, Known(u), v))
  {
    ValidateMeans(c, u.g, v, now);
    hide Validate, Sound, OwnFault, Remember;
    var f := Validate(c, u.g, v, now);
    if f.Some? && !Waits(u.g, u.known, v, f.value) && f.value == BadDependencies && v.dependencies != [] {
      assert Inherits(u.g, Known(u), v);
    }
    if v.dependencies == [] { NoDependencies(c, u.g, v, now); }
  }

  lemma NoDependencies(c: Config, g: Graph, v: Vertex, now: int)
    requires v.dependencies == []
    ensures OwnFault(c, g, v, now)
  {}

  // ---------------------------------------------------------------- the rest of the merge

  lemma {:induction false} OthersStay(c: Config, t: Tally, vs: seq<Vertex>, now: int, h: Hash)
    requires h !in Hashes(vs)
    ensures var r := DeliverAll(c, t, vs, now);
            && (h in r.g <==> h in t.g) && (h in r.missing <==> h in t.missing) && (h in r.invalid <==> h in t.invalid)
            && (h in r.held <==> h in t.held) && (h in t.held ==> r.held[h] == t.held[h])
    decreases |vs|
  {
    if vs != [] {
      assert Hashes(vs)[0] == vs[0].hash && vs[0].hash in Hashes(vs);
      assert h !in Hashes(vs[1..]) by {
        assert forall i :: 0 <= i < |vs| - 1 ==> Hashes(vs[1..])[i] == Hashes(vs)[i + 1];
      }
      hide Validate, Waits, Remember, Skipped;
      OthersStay(c, Deliver(c, t, vs[0], now), vs[1..], now, h);
    }
  }

  /** The hashes that were remembered before or are reported. */
  ghost function Invalids(known: seq<Hash>, t: Tally): iset<Hash> {
    iset d | d in known || d in t.invalid
  }

  lemma {:induction false} RecordedIn(log: seq<Hash>, hs: seq<Hash>, d: Hash)
    requires d in Recorded(log, hs)
    ensures d in log || d in hs
    decreases |hs|
  {
    hide Window;
    if hs != [] { RecordedIn(if hs[0] in Window(log) then log else log + [hs[0]], hs[1..], d); }
  }

  lemma KnownFrom(known: seq<Hash>, t: Tally, d: Hash)
    requires Remembers(known, t) && d in t.known
    ensures d in Invalids(known, t)
  {
    hide Window, Recorded;
    WindowIn(Recorded(known, t.invalid), d);
    RecordedIn(known, t.invalid, d);
  }

  lemma SettledInherits(known: seq<Hash>, t: Tally, h: Hash)
    requires Remembers(known, t) && t.bad == Elems(t.invalid)
    requires h in Condemned(t, t.missing)
    ensures h in t.held && Inherits(t.g, Invalids(known, t), t.held[h])
  {
    assert Doomed(t, h);
    hide Condemned, Remembers;
    forall d | d in t.held[h].dependencies && d !in t.g ensures d in Invalids(known, t) {
      assert d in Unresolved(t.g, t.held[h].dependencies);
      if d in t.known { KnownFrom(known, t, d); }
    }
    var unresolved := Unresolved(t.g, t.held[h].dependencies);
    assert unresolved[0] in unresolved;
  }

  lemma InheritsMore(g: Graph, few: iset<Hash>, many: iset<Hash>, v: Vertex)
    requires Inherits(g, few, v) && few <= many
    ensures Inherits(g, many, v)
  {}

  /** Settling only moves missing vertices that inherit to the invalid. */
  ghost predicate Moved(known: seq<Hash>, t: Tally, r: Tally) {
    && r.g == t.g && t.invalid <= r.invalid
    && (forall h :: h in r.missing ==> h in t.missing)
    && (forall h :: h in r.held ==> h in t.held && r.held[h] == t.held[h])
    && (forall h :: h in r.invalid && h !in t.invalid ==>
          h in t.held && Inherits(t.g, Invalids(known, r), t.held[h]))
  }

  lemma SettleMoves(known: seq<Hash>, t: Tally)
    requires Remembers(known, t) && t.bad == Elems(t.invalid)
    ensures Moved(known, t, Settle(t)) && Settle(t).bad == Elems(Settle(t).invalid)
  {
    var gone := Condemned(t, t.missing);
    var r := Settle(t);
    hide Remembers, Condemned;
    forall h | h in r.invalid && h !in t.invalid
      ensures h in t.held && Inherits(t.g, Invalids(known, r), t.held[h])
    {
      assert h in gone;
      SettledInherits(known, t, h);
      hide Inherits;
      InheritsMore(t.g, Invalids(known, t), Invalids(known, r), t.held[h]);
    }
  }

  lemma MovedOn(known: seq<Hash>, t: Tally, u: Tally, r: Tally)
    requires Moved(known, t, u) && Moved(known, u, r)
    ensures Moved(known, t, r)
  {
    forall h | h in r.invalid && h !in t.invalid
      ensures h in t.held && Inherits(t.g, Invalids(known, r), t.held[h])
    {
      if h in u.invalid {
        assert Inherits(t.g, Invalids(known, u), t.held[h]);
        hide Inherits;
        InheritsMore(t.g, Invalids(known, u), Invalids(known, r), t.held[h]);
      }
    }
  }

  lemma MovedSelf(known: seq<Hash>, t: Tally)
    ensures Moved(known, t, t)
  {}

  lemma {:induction false} SettleAllMoves(known: seq<Hash>, t: Tally, n: nat)
    requires Remembers(known, t) && t.bad == Elems(t.invalid)
    ensures Moved(known, t, SettleAll(t, n))
    decreases n
  {
    hide Condemned, Settle, Remembers, Moved, Elems;
    if n > 0 && Condemned(t, t.missing) != [] {
      SettleOnce(known, t);
      SettleMoves(known, t);
      SettleAllMoves(known, Settle(t), n - 1);
      MovedOn(known, t, Settle(t), SettleAll(t, n));
    } else {
      MovedSelf(known, t);
    }
  }

  // ---------------------------------------------------------------- the reasons

  lemma {:induction false} DeliverSplit(c: Config, t: Tally, vs: seq<Vertex>, k: nat, now: int)
    requires k < |vs|
    ensures DeliverAll(c, t, vs, now)
            == DeliverAll(c, Deliver(c, DeliverAll(c, t, vs[..k], now), vs[k], now), vs[k + 1..], now)
    decreases k
  {
    hide Deliver;
    if k == 0 {
      assert vs[..0] == [];
    } else {
      assert vs[..k][1..] == vs[1..][..k - 1] && vs[1..][k..] == vs[k + 1..];
      DeliverSplit(c, Deliver(c, t, vs[0], now), vs[1..], k - 1, now);
    }
  }

  lemma HashesSplit(vs: seq<Vertex>, k: nat)
    requires k < |vs| && Distinct(Hashes(vs))
    ensures Distinct(Hashes(vs[..k])) && vs[k].hash !in Hashes(vs[..k]) && vs[k].hash !in Hashes(vs[k + 1..])
  {
    var hs := Hashes(vs);
    assert Hashes(vs[..k]) == hs[..k] && Hashes(vs[k + 1..]) == hs[k + 1..] && vs[k].hash == hs[k];
  }

  /** The tally at the turn of the vertex at `k`. */
  function Turn(c: Config, g: Graph, keys: seq<Hash>, known: seq<Hash>, vs: seq<Vertex>, k: nat, now: int): Tally
    requires k < |vs|
  {
    DeliverAll(c, Open(g, keys, known), vs[..k], now)
  }

  lemma TurnFresh(c: Config, g: Graph, keys: seq<Hash>, known: seq<Hash>, vs: seq<Vertex>, k: nat, now: int)
    requires Distinct(Hashes(vs)) && k < |vs| && !Skipped(g, vs[k])
    ensures var u, v := Turn(c, g, keys, known, vs, k, now), vs[k];
            !Skipped(u.g, v) && v.hash !in u.missing && v.hash !in u.invalid && Grew(g, u.g)
  {
    HashesSplit(vs, k);
    ListedAll(c, g, Open(g, keys, known), vs[..k], now);
    hide Distinct, DeliverAll, Hashes;
  }

  /** After the whole delivery the vertex is where its turn put it. */
  lemma DeliveredReasons(c: Config, g: Graph, keys: seq<Hash>, known: seq<Hash>, vs: seq<Vertex>, k: nat, now: int)
    requires Distinct(Hashes(vs)) && k < |vs| && !Skipped(g, vs[k])
    ensures var u, v := Turn(c, g, keys, known, vs, k, now), vs[k];
            var t := DeliverAll(c, Open(g, keys, known), vs, now);
            && (v.hash in t.g <==> Sound(c, u.g, v, now))
            && (v.hash in t.missing ==> c.validHash(v) && Awaits(u, v))
            && (v.hash in t.held && v.hash in t.missing ==> t.held[v.hash] == v)
            && (v.hash in t.invalid ==> OwnFault(c, u.g, v, now) || Inherits(u.g, Known(u), v))
  {
    var u, v := Turn(c, g, keys, known, vs, k, now), vs[k];
    hide Deliver, DeliverAll, Sound, Awaits, OwnFault, Inherits, Skipped;
    DeliverSplit(c, Open(g, keys, known), vs, k, now);
    TurnFresh(c, g, keys, known, vs, k, now);
    TurnReasons(c, u, v, now);
    HashesSplit(vs, k);
    OthersStay(c, Deliver(c, u, v, now), vs[k + 1..], now, v.hash);
  }

  lemma TurnKnown(c: Config, g: Graph, keys: seq<Hash>, known: seq<Hash>, vs: seq<Vertex>, k: nat, now: int)
    requires k < |vs| && |known| <= MAX_KNOWN_INVALID
    ensures var u := Turn(c, g, keys, known, vs, k, now);
            Known(u) <= Invalids(known, DeliverAll(c, Open(g, keys, known), vs, now))
  {
    var t0 := Open(g, keys, known);
    var u := Turn(c, g, keys, known, vs, k, now);
    assert Remembers(known, t0);
    hide Remembers;
    DeliverAllRemembers(c, known, t0, vs[..k], now);
    InvalidGrows(c, u, vs[k..], now);
    DeliverJoin(c, t0, vs, k, now);
    forall d | d in u.known ensures d in Invalids(known, u) { KnownFrom(known, u, d); }
  }

  lemma DeliverJoin(c: Config, t: Tally, vs: seq<Vertex>, k: nat, now: int)
    requires k < |vs|
    ensures DeliverAll(c, t, vs, now) == DeliverAll(c, DeliverAll(c, t, vs[..k], now), vs[k..], now)
  {
    DeliverSplit(c, t, vs, k, now);
    assert vs[k..][0] == vs[k] && vs[k..][1..] == vs[k + 1..];
    hide Deliver;
  }

  lemma {:induction false} InvalidGrows(c: Config, t: Tally, vs: seq<Vertex>, now: int)
    ensures t.invalid <= DeliverAll(c, t, vs, now).invalid
    decreases |vs|
  {
    if vs != [] {
      hide Validate, Waits, Remember, Skipped;
      InvalidGrows(c, Deliver(c, t, vs[0], now), vs[1..], now);
    }
  }

  /**
   In a batch with distinct hashes a vertex is added exactly when it is sound at its turn.  It is
   missing only for a dependency that was absent at its turn and not remembered as invalid, and
   invalid only through a fault of its own, or because all absent dependencies, at its turn or in the
   end, were remembered or are reported invalid.
   */
  lemma MergeReasons(c: Config, g: Graph, keys: seq<Hash>, known: seq<Hash>, vs: seq<Vertex>, k: nat, now: int)
    requires Distinct(Hashes(vs)) && k < |vs| && !Skipped(g, vs[k]) && |known| <= MAX_KNOWN_INVALID
    ensures var u, v := Turn(c, g, keys, known, vs, k, now), vs[k];
            var t := Merge(c, Open(g, keys, known), vs, now);
            && (v.hash in t.g <==> Sound(c, u.g, v, now))
            && (v.hash in t.missing ==> c.validHash(v) && Awaits(u, v))
            && (v.hash in t.invalid ==>
                  || OwnFault(c, u.g, v, now)
                  || Inherits(u.g, Invalids(known, t), v) || Inherits(t.g, Invalids(known, t), v))
  {
    var t0 := Open(g, keys, known);
    var d := DeliverAll(c, t0, vs, now);
    var u, v := Turn(c, g, keys, known, vs, k, now), vs[k];
    assert Remembers(known, t0);
    hide Remembers, Deliver, DeliverAll, SettleAll, Sound, Awaits, OwnFault, Inherits, Skipped, Distinct;
    DeliverAllRemembers(c, known, t0, vs, now);
    DeliveredReasons(c, g, keys, known, vs, k, now);
    ListedAll(c, g, t0, vs, now);
    SettleAllMoves(known, d, |vs|);
    var t := Merge(c, t0, vs, now);
    TurnKnown(c, g, keys, known, vs, k, now);
    if v.hash in t.invalid && v.hash in d.invalid && !OwnFault(c, u.g, v, now) {
      InheritsMore(u.g, Known(u), Invalids(known, t), v);
    }
  }

  lemma SettleHeld(t: Tally, h: Hash)
    requires h in Settle(t).held
    ensures h in t.held && Settle(t).held[h] == t.held[h]
  {
    hide Condemned, Unseen, Elems;
  }

  lemma {:induction false} HeldStays(t: Tally, n: nat, h: Hash)
    requires h in SettleAll(t, n).held
    ensures h in t.held && SettleAll(t, n).held[h] == t.held[h]
    decreases n
  {
    hide Condemned, Settle;
    if n > 0 && Condemned(t, t.missing) != [] {
      HeldStays(Settle(t), n - 1, h);
      SettleHeld(t, h);
    }
  }

  /**
   When the merge is done, a missing vertex still waits for a dependency that is absent and neither
   remembered nor reported as invalid, unless all its dependencies have arrived after its turn.
   */
  lemma MissingWaits(c: Config, g: Graph, keys: seq<Hash>, known: seq<Hash>, vs: seq<Vertex>, k: nat, now: int)
    requires Distinct(Hashes(vs)) && k < |vs| && !Skipped(g, vs[k])
    ensures var v, t := vs[k], Merge(c, Open(g, keys, known), vs, now);
            v.hash in t.missing ==>
              || (forall d :: d in v.dependencies ==> d in t.g)
              || (exists d :: d in v.dependencies && d !in t.g && d !in t.known && d !in t.invalid)
  {
    var t0, v := Open(g, keys, known), vs[k];
    var d := DeliverAll(c, t0, vs, now);
    MergeRests(c, g, keys, known, vs, now);
    ListedAll(c, g, t0, vs, now);
    SettlePlaces(g, d, Hashes(vs), vs, |vs|);
    DeliveredReasons(c, g, keys, known, vs, k, now);
    var t := Merge(c, t0, vs, now);
    hide DeliverAll, SettleAll, Distinct, Skipped, Sound, OwnFault, Awaits, Inherits;
    if v.hash in t.missing {
      assert v.hash in t.held && !Doomed(t, v.hash);
      HeldStays(d, |vs|, v.hash);
      assert v.hash in Elems(d.missing);
      RestWaits(t, v);
    }
  }

  lemma RestWaits(t: Tally, v: Vertex)
    requires v.hash in t.held && t.held[v.hash] == v && !Doomed(t, v.hash) && t.bad == Elems(t.invalid)
    ensures || (forall d :: d in v.dependencies ==> d in t.g)
            || (exists d :: d in v.dependencies && d !in t.g && d !in t.known && d !in t.invalid)
  {
    var unresolved := Unresolved(t.g, v.dependencies);
    if unresolved == [] {
      assert forall d :: d in v.dependencies && d !in t.g ==> d in unresolved;
    } else {
      var d :| d in unresolved && !(d in t.known || d in t.bad);
    }
  }

  // ---------------------------------------------------------------- two merges

  lemma {:induction false} InvalidSize(c: Config, t: Tally, vs: seq<Vertex>, now: int)
    ensures |DeliverAll(c, t, vs, now).invalid| <= |t.invalid| + |vs|
    decreases |vs|
  {
    if vs != [] {
      hide Validate, Waits, Remember, Skipped;
      InvalidSize(c, Deliver(c, t, vs[0], now), vs[1..], now);
    }
  }

  /** With room for the whole batch, nothing is forgotten before any turn. */
  lemma TurnRemembers(c: Config, g: Graph, keys: seq<Hash>, known: seq<Hash>, vs: seq<Vertex>, k: nat, now: int)
    requires k < |vs| && |known| + |vs| <= MAX_KNOWN_INVALID
    ensures forall d :: d in known ==> d in Turn(c, g, keys, known, vs, k, now).known
  {
    var t0 := Open(g, keys, known);
    var u := Turn(c, g, keys, known, vs, k, now);
    assert Remembers(known, t0);
    DeliverAllRemembers(c, known, t0, vs[..k], now);
    InvalidSize(c, t0, vs[..k], now);
    hide Window, Recorded, DeliverAll;
    RecordedFits(known, u.invalid);
    WindowFits(known + NotYet(known, u.invalid));
  }

  /**
   A vertex all of whose absent dependencies an earlier merge reported invalid is not kept as missing
   by a later merge, and is reported invalid unless the dependencies arrive after all, as long as the
   memory has room for both batches.
   */
  lemma RejectedLater(c: Config, g: Graph, keys: seq<Hash>, known: seq<Hash>, vs: seq<Vertex>, now: int,
                      ws: seq<Vertex>, k: nat, later: int)
    requires var t := Merge(c, Open(g, keys, known), vs, now);
             && |known| + |t.invalid| + |ws| <= MAX_KNOWN_INVALID && Distinct(Hashes(ws))
             && k < |ws| && !Skipped(t.g, ws[k])
             && (forall d :: d in ws[k].dependencies ==> d in t.g || d in t.invalid)
    ensures var t := Merge(c, Open(g, keys, known), vs, now);
            var r := Merge(c, Open(t.g, t.keys, t.known), ws, later);
            && ws[k].hash !in r.missing
            && ((exists d :: d in ws[k].dependencies && d !in r.g) ==> ws[k].hash in r.invalid)
  {
    var t := Merge(c, Open(g, keys, known), vs, now);
    var r := Merge(c, Open(t.g, t.keys, t.known), ws, later);
    var u, v := Turn(c, t.g, t.keys, t.known, ws, k, later), ws[k];
    RoomKeepsAll(c, g, keys, known, vs, now);
    hide Merge, Turn, NotYet, Skipped, Distinct, Hashes;
    TurnRemembers(c, t.g, t.keys, t.known, ws, k, later);
    TurnFresh(c, t.g, t.keys, t.known, ws, k, later);
    MergeReasons(c, t.g, t.keys, t.known, ws, k, later);
    MergePartitions(c, t.g, t.keys, t.known, ws, later);
    TurnBelow(c, t.g, t.keys, t.known, ws, k, later);
    assert !Awaits(u, v);
    assert v in ws;
  }

  lemma TurnBelow(c: Config, g: Graph, keys: seq<Hash>, known: seq<Hash>, vs: seq<Vertex>, k: nat, now: int)
    requires k < |vs| && |known| <= MAX_KNOWN_INVALID
    ensures Turn(c, g, keys, known, vs, k, now).g.Keys <= Merge(c, Open(g, keys, known), vs, now).g.Keys
  {
    var t0 := Open(g, keys, known);
    var u := Turn(c, g, keys, known, vs, k, now);
    DeliverJoin(c, t0, vs, k, now);
    GraphGrows(c, u, vs[k..], now);
    SettleGraph(DeliverAll(c, t0, vs, now), |vs|);
    hide DeliverAll, SettleAll;
  }

  lemma {:induction false} GraphGrows(c: Config, t: Tally, vs: seq<Vertex>, now: int)
    ensures t.g.Keys <= DeliverAll(c, t, vs, now).g.Keys
    decreases |vs|
  {
    if vs != [] {
      hide Validate, Waits, Remember, Skipped;
      GraphGrows(c, Deliver(c, t, vs[0], now), vs[1..], now);
    }
  }

  lemma {:induction false} SettleGraph(t: Tally, n: nat)
    ensures SettleAll(t, n).g == t.g
    decreases n
  {
    hide Condemned, Unseen, Elems;
    if n > 0 && Condemned(t, t.missing) != [] { SettleGraph(Settle(t), n - 1); }
  }
}
