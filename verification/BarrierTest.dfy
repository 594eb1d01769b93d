/**
 When a checkpoint may seed a replay.

 A checkpoint holds the state of the past of its frontier.  Two searches decide whether it may be
 used for a given dependency list: `Cover` asks that the dependencies lie above the frontier, and
 `Accepts` that everything collected between the two descends from every frontier head.  Together
 they hold exactly when the past of the frontier is a causal barrier in the past of the dependencies.
 */
module BarrierTest {
  import opened HashGraphs
  import opened TopologicalSort
  import opened CausalBarrier
  import opened PairLinearizer
  import opened Linearization
  import opened Replay

  function Elems(xs: seq<Hash>): set<Hash> {
    set x | x in xs
  }

  // ---------------------------------------------------------------- the two searches

  /** `dependencies` is the boundary itself, or each dependency is above the whole boundary. */
  ghost predicate Cover(g: Graph, D: seq<Hash>, B: seq<Hash>) {
    || (|Elems(D)| == |B| && forall b :: b in B ==> b in D)
    || forall d, b :: d in D && b in B ==> AtMost(g, b, d)
  }

  /** `n` dependency links lead from `d` back to `h` without meeting `B`. */
  ghost predicate StepsAvoid(g: Graph, B: set<Hash>, h: Hash, d: Hash, n: nat)
    decreases n
  {
    d !in B && if n == 0 then h == d else exists e :: e in Deps(g, d) && StepsAvoid(g, B, h, e, n - 1)
  }

  /** The backward search from `D` that stops at `B` collects `h`. */
  ghost predicate Collects(g: Graph, D: seq<Hash>, B: set<Hash>, h: Hash) {
    exists d, n: nat :: d in D && StepsAvoid(g, B, h, d, n)
  }

  /** `n` forward edges lead from `a` to `b`, through members of `allowed` only. */
  ghost predicate StepsUp(g: Graph, allowed: set<Hash>, a: Hash, b: Hash, n: nat)
    decreases n
  {
    if n == 0 then a == b else b in allowed && exists d :: d in Deps(g, b) && StepsUp(g, allowed, a, d, n - 1)
  }

  ghost predicate Reaches(g: Graph, allowed: set<Hash>, a: Hash, b: Hash) {
    exists n: nat :: StepsUp(g, allowed, a, b, n)
  }

  /** Every collected vertex is reached from every head, inside the boundary and the collected set. */
  ghost predicate Accepts(g: Graph, B: seq<Hash>, S: set<Hash>) {
    forall b, x :: b in B && x in S ==> Reaches(g, Elems(B) + S, b, x)
  }

  ghost predicate IsCollected(g: Graph, D: seq<Hash>, B: seq<Hash>, S: set<Hash>) {
    forall h :: h in S <==> Collects(g, D, Elems(B), h)
  }

  /** Both searches accept the boundary `B` for the dependencies `D`. */
  ghost predicate Accepted(g: Graph, D: seq<Hash>, B: seq<Hash>) {
    Cover(g, D, B) && exists S :: IsCollected(g, D, B, S) && Accepts(g, B, S)
  }

  lemma AcceptedIs(g: Graph, D: seq<Hash>, B: seq<Hash>, S: set<Hash>)
    requires IsCollected(g, D, B, S)
    ensures Accepted(g, D, B) <==> Cover(g, D, B) && Accepts(g, B, S)
  {
    hide Cover, Collects, Accepts;
    if Accepted(g, D, B) {
      var R :| IsCollected(g, D, B, R) && Accepts(g, B, R);
      assert R == S;
    }
  }

  // ---------------------------------------------------------------- what they mean

  lemma {:induction false} AvoidSteps(g: Graph, B: set<Hash>, h: Hash, d: Hash, n: nat)
    requires StepsAvoid(g, B, h, d, n)
    ensures AtMost(g, h, d) && h !in B
    decreases n
  {
    if n > 0 {
      var e :| e in Deps(g, d) && StepsAvoid(g, B, h, e, n - 1);
      AvoidSteps(g, B, h, e, n - 1);
      BelowLast(g, h, d);
    }
  }

  lemma {:induction false} StepsClear(g: Graph, B: set<Hash>, h: Hash, d: Hash, n: nat)
    requires Steps(g, h, d, n)
    requires forall b :: b in B ==> !AtMost(g, h, b)
    ensures StepsAvoid(g, B, h, d, n)
    decreases n
  {
    assert AtMost(g, h, d) by { AtMostSteps(g, h, d); }
    if n > 0 {
      var e :| e in Deps(g, d) && Steps(g, h, e, n - 1);
      StepsClear(g, B, h, e, n - 1);
    }
  }

  lemma {:induction false} UpSteps(g: Graph, allowed: set<Hash>, a: Hash, b: Hash, n: nat)
    requires StepsUp(g, allowed, a, b, n)
    ensures AtMost(g, a, b)
    decreases n
  {
    if n > 0 {
      var d :| d in Deps(g, b) && StepsUp(g, allowed, a, d, n - 1);
      UpSteps(g, allowed, a, d, n - 1);
      BelowLast(g, a, b);
    }
  }

  /** A causal chain whose links all stay in `allowed` is found by the forward search. */
  lemma {:induction false} StepsInside(g: Graph, allowed: set<Hash>, a: Hash, b: Hash, n: nat)
    requires Steps(g, a, b, n)
    requires forall x :: Below(g, a, x) && AtMost(g, x, b) ==> x in allowed
    ensures StepsUp(g, allowed, a, b, n)
    decreases n
  {
    if n > 0 {
      var d :| d in Deps(g, b) && Steps(g, a, d, n - 1);
      assert AtMost(g, b, b) && AtMost(g, a, d) by { AtMostSteps(g, a, d); }
      BelowLast(g, a, b);
      assert AtMost(g, d, d);
      BelowLast(g, d, b);
      forall x | Below(g, a, x) && AtMost(g, x, d) ensures x in allowed { BelowTrans(g, x, d, b); }
      StepsInside(g, allowed, a, d, n - 1);
    }
  }

  ghost predicate Members(g: Graph, xs: seq<Hash>) {
    forall x :: x in xs ==> x in g
  }

  /** The frontier of a checkpoint: distinct, mutually unrelated vertices. */
  ghost predicate Frontier(g: Graph, B: seq<Hash>) {
    B != [] && Members(g, B) && Distinct(B) && Antichain(g, B)
  }

  lemma InPast(g: Graph, D: seq<Hash>, h: Hash)
    requires h in g
    ensures h in Past(g, Elems(D)) <==> exists d :: d in D && AtMost(g, h, d)
  {
    if d :| d in D && AtMost(g, h, d) { assert d in Elems(D); }
  }

  /** The past of the frontier is a causal barrier in the past of the dependencies. */
  ghost predicate Bars(g: Graph, D: seq<Hash>, B: seq<Hash>) {
    && Past(g, Elems(B)) <= Past(g, Elems(D))
    && forall x, y :: x in Past(g, Elems(D)) - Past(g, Elems(B)) && y in Past(g, Elems(B)) ==> Below(g, y, x)
  }

  /** Each head is below some dependency. */
  lemma CoverAbove(g: Graph, D: seq<Hash>, B: seq<Hash>, b: Hash) returns (d: Hash)
    requires D != [] && Cover(g, D, B) && b in B
    ensures d in D && AtMost(g, b, d)
  {
    if b in D { d := b; } else { d := D[0]; }
  }

  lemma CoverPast(g: Graph, D: seq<Hash>, B: seq<Hash>)
    requires D != [] && Cover(g, D, B)
    ensures Past(g, Elems(B)) <= Past(g, Elems(D))
  {
    forall h | h in Past(g, Elems(B)) ensures h in Past(g, Elems(D)) {
      var b :| b in Elems(B) && AtMost(g, h, b);
      var d := CoverAbove(g, D, B, b);
      BelowTrans(g, h, b, d);
      assert d in Elems(D);
    }
  }

  /** A collected vertex is in the past of the dependencies, above every head, and not baked. */
  lemma CollectedAbove(g: Graph, D: seq<Hash>, B: seq<Hash>, S: set<Hash>, x: Hash)
    requires GraphOK(g) && Members(g, D) && Frontier(g, B) && IsCollected(g, D, B, S) && Accepts(g, B, S) && x in S
    ensures x in Past(g, Elems(D)) && x !in Past(g, Elems(B))
    ensures forall y :: y in Past(g, Elems(B)) ==> Below(g, y, x)
  {
    var d, n: nat :| d in D && StepsAvoid(g, Elems(B), x, d, n);
    AvoidSteps(g, Elems(B), x, d, n);
    BelowMember(g, x, d);
    InPast(g, D, x);
    forall b | b in B ensures Below(g, b, x) {
      assert b in Elems(B);
      var m: nat :| StepsUp(g, Elems(B) + S, b, x, m);
      UpSteps(g, Elems(B) + S, b, x, m);
    }
    forall y, b | b in B && AtMost(g, y, b) ensures Below(g, y, x) { BelowTrans(g, y, b, x); }
    if x in Past(g, Elems(B)) { InPast(g, B, x); }
  }

  /** What lies between is collected. */
  lemma BetweenCollected(g: Graph, D: seq<Hash>, B: seq<Hash>, S: set<Hash>, x: Hash)
    requires GraphOK(g) && IsCollected(g, D, B, S)
    requires x in Past(g, Elems(D)) && x !in Past(g, Elems(B))
    ensures x in S
  {
    var d :| d in Elems(D) && AtMost(g, x, d);
    AtMostSteps(g, x, d);
    var n: nat :| Steps(g, x, d, n);
    StepsClear(g, Elems(B), x, d, n);
  }

  /**
   The test is sound: what it collects is exactly the past of the dependencies without the baked
   prefix, and that prefix is a causal barrier below it.
   */
  lemma BarrierTestSound(g: Graph, D: seq<Hash>, B: seq<Hash>, S: set<Hash>)
    requires GraphOK(g) && D != [] && Members(g, D) && Frontier(g, B)
    requires IsCollected(g, D, B, S) && Cover(g, D, B) && Accepts(g, B, S)
    ensures S == Past(g, Elems(D)) - Past(g, Elems(B))
    ensures Bars(g, D, B)
  {
    hide *;
    CoverPast(g, D, B);
    forall x | x in S
      ensures x in Past(g, Elems(D)) && x !in Past(g, Elems(B)) && forall y :: y in Past(g, Elems(B)) ==> Below(g, y, x)
    {
      CollectedAbove(g, D, B, S, x);
    }
    forall x | x in Past(g, Elems(D)) - Past(g, Elems(B)) ensures x in S { BetweenCollected(g, D, B, S, x); }
    MakeBars(g, D, B, S);
  }

  lemma MakeBars(g: Graph, D: seq<Hash>, B: seq<Hash>, S: set<Hash>)
    requires S == Past(g, Elems(D)) - Past(g, Elems(B)) && Past(g, Elems(B)) <= Past(g, Elems(D))
    requires forall x :: x in S ==> forall y :: y in Past(g, Elems(B)) ==> Below(g, y, x)
    ensures Bars(g, D, B)
  {}

  // ---------------------------------------------------------------- exactness

  /** A baked dependency of an antichain is a frontier head. */
  lemma DepBaked(g: Graph, D: seq<Hash>, B: seq<Hash>, d: Hash)
    requires GraphOK(g) && Members(g, D) && Members(g, B) && Antichain(g, D) && Bars(g, D, B) && d in D
    ensures d in Past(g, Elems(B)) ==> d in B
  {
    if d in Past(g, Elems(B)) {
      InPast(g, B, d);
      var b :| b in B && AtMost(g, d, b);
      assert b in Past(g, Elems(B)) by { InPast(g, B, b); }
      InPast(g, D, b);
      var d' :| d' in D && AtMost(g, b, d');
      BelowTrans(g, d, b, d');
    }
  }

  /** On a reduced graph a chain enters the prefix of a barrier at a head. */
  lemma EnterPrefix(g: Graph, D: seq<Hash>, B: seq<Hash>, d: Hash, e: Hash)
    requires GraphOK(g) && Reduced(g) && Members(g, B) && Bars(g, D, B)
    requires d in Past(g, Elems(D)) && d !in Past(g, Elems(B)) && e in Deps(g, d)
    ensures e in Past(g, Elems(B)) ==> e in B
  {
    if e in Past(g, Elems(B)) {
      InPast(g, B, e);
      var b :| b in B && AtMost(g, e, b);
      assert b in Past(g, Elems(B)) by { InPast(g, B, b); }
      assert Below(g, b, d);
      BelowLast(g, b, d);
      var d2 :| d2 in Deps(g, d) && AtMost(g, b, d2);
      BelowTrans(g, e, b, d2);
      assert Antichain(g, g[d].dependencies);
    }
  }

  /** A chain that starts above the barrier and avoids the frontier stays above the barrier. */
  lemma {:induction false} AvoidStays(g: Graph, D: seq<Hash>, B: seq<Hash>, x: Hash, d: Hash, n: nat)
    requires GraphOK(g) && Reduced(g) && Members(g, B) && Bars(g, D, B)
    requires d in Past(g, Elems(D)) && d !in Past(g, Elems(B)) && StepsAvoid(g, Elems(B), x, d, n)
    ensures x !in Past(g, Elems(B))
    decreases n
  {
    hide Past, Reduced, Bars, Members, GraphOK, StepsAvoid, Deps;
    if n == 0 {
      AvoidSelf(g, Elems(B), x, d, n);
    } else {
      var e := AvoidNext(g, Elems(B), x, d, n);
      EnterPrefix(g, D, B, d, e);
      PastDeps(g, Elems(D), d, e);
      AvoidStays(g, D, B, x, e, n - 1);
    }
  }

  lemma AvoidNext(g: Graph, B: set<Hash>, h: Hash, d: Hash, n: nat) returns (e: Hash)
    requires StepsAvoid(g, B, h, d, n) && n > 0
    ensures e in Deps(g, d) && StepsAvoid(g, B, h, e, n - 1) && e !in B
  {
    e :| e in Deps(g, d) && StepsAvoid(g, B, h, e, n - 1);
  }

  lemma PastDeps(g: Graph, D: set<Hash>, d: Hash, e: Hash)
    requires GraphOK(g) && d in Past(g, D) && e in Deps(g, d)
    ensures e in Past(g, D)
  {
    hide Past;
    PastClosed(g, D);
  }

  lemma CollectedBetween(g: Graph, D: seq<Hash>, B: seq<Hash>, S: set<Hash>, x: Hash)
    requires GraphOK(g) && Reduced(g) && Members(g, D) && Members(g, B) && Antichain(g, D) && Bars(g, D, B)
    requires IsCollected(g, D, B, S) && x in S
    ensures x in Past(g, Elems(D)) && x !in Past(g, Elems(B))
  {
    var d, n: nat :| d in D && StepsAvoid(g, Elems(B), x, d, n);
    hide Reduced, Acyclic, Bars, StepsAvoid, IsCollected;
    AvoidSteps(g, Elems(B), x, d, n);
    AvoidSelf(g, Elems(B), x, d, n);
    BelowMember(g, x, d);
    InPast(g, D, x);
    InPast(g, D, d);
    DepBaked(g, D, B, d);
    AvoidStays(g, D, B, x, d, n);
  }

  lemma AvoidSelf(g: Graph, B: set<Hash>, h: Hash, d: Hash, n: nat)
    requires StepsAvoid(g, B, h, d, n)
    ensures d !in B && (n == 0 ==> h == d)
  {}

  lemma BarsAccept(g: Graph, D: seq<Hash>, B: seq<Hash>, S: set<Hash>, b: Hash, x: Hash)
    requires GraphOK(g) && Frontier(g, B) && Bars(g, D, B) && b in B
    requires S == Past(g, Elems(D)) - Past(g, Elems(B)) && x in S
    ensures Reaches(g, Elems(B) + S, b, x)
  {
    assert b in Past(g, Elems(B)) by { InPast(g, B, b); }
    assert Below(g, b, x);
    var n: nat :| n > 0 && Steps(g, b, x, n);
    PastClosed(g, Elems(D));
    forall y | Below(g, b, y) && AtMost(g, y, x) ensures y in S {
      BelowInClosed(g, Past(g, Elems(D)), y, x);
      if y in Past(g, Elems(B)) {
        InPast(g, B, y);
        var b' :| b' in B && AtMost(g, y, b');
        BelowTrans(g, b, y, b');
      }
    }
    StepsInside(g, Elems(B) + S, b, x, n);
  }

  /** Above a barrier every dependency is above every head, unless the dependencies are the heads. */
  lemma BarsCover(g: Graph, D: seq<Hash>, B: seq<Hash>)
    requires GraphOK(g) && Members(g, D) && Frontier(g, B) && Antichain(g, D) && Bars(g, D, B)
    ensures Cover(g, D, B)
  {
    hide GraphOK, Members, Antichain, Frontier, Bars, Past, AtMost;
    FrontierParts(g, B);
    if d :| d in D && d in Past(g, Elems(B)) {
      DepsAreHeads(g, D, B, d);
      HeadsAreDeps(g, D, B);
      assert Elems(D) == Elems(B);
      DistinctSize(B, Elems(B));
    } else {
      forall d, b | d in D && b in B ensures AtMost(g, b, d) { DepAboveHead(g, D, B, d, b); }
    }
  }

  lemma DepAboveHead(g: Graph, D: seq<Hash>, B: seq<Hash>, d: Hash, b: Hash)
    requires Members(g, D) && Members(g, B) && Bars(g, D, B) && d in D && b in B && d !in Past(g, Elems(B))
    ensures AtMost(g, b, d)
  {
    InPast(g, D, d);
    InPast(g, B, b);
    assert Below(g, b, d);
  }

  lemma DepsAreHeads(g: Graph, D: seq<Hash>, B: seq<Hash>, d: Hash)
    requires GraphOK(g) && Members(g, D) && Members(g, B) && Antichain(g, D) && Bars(g, D, B)
    requires d in D && d in Past(g, Elems(B))
    ensures forall e :: e in D ==> e in B
  {
    DepBaked(g, D, B, d);
    forall e | e in D ensures e in B {
      hide GraphOK, Members, Past;
      DepBaked(g, D, B, e);
      if e !in Past(g, Elems(B)) { DepAboveHead(g, D, B, e, d); }
    }
  }

  lemma HeadsAreDeps(g: Graph, D: seq<Hash>, B: seq<Hash>)
    requires GraphOK(g) && Members(g, B) && Antichain(g, B) && Bars(g, D, B) && forall e :: e in D ==> e in B
    ensures forall b :: b in B ==> b in D
  {
    forall b | b in B ensures b in D {
      InPast(g, B, b);
      assert b in Past(g, Elems(D));
      InPast(g, D, b);
      var d :| d in D && AtMost(g, b, d);
    }
  }

  /** On a reduced graph the test accepts exactly when the barrier exists. */
  lemma BarrierTestExact(g: Graph, D: seq<Hash>, B: seq<Hash>, S: set<Hash>)
    requires GraphOK(g) && Reduced(g) && D != [] && Members(g, D) && Antichain(g, D) && Frontier(g, B)
    requires IsCollected(g, D, B, S)
    ensures Cover(g, D, B) && Accepts(g, B, S) <==> Bars(g, D, B)
  {
    hide GraphOK, Reduced, Members, Antichain, IsCollected, Cover, Past, Reaches, Bars, Frontier;
    if Cover(g, D, B) && Accepts(g, B, S) { BarrierTestSound(g, D, B, S); }
    if Bars(g, D, B) {
      FrontierParts(g, B);
      BarsCover(g, D, B);
      forall x | x in S ensures x in Past(g, Elems(D)) - Past(g, Elems(B)) { CollectedBetween(g, D, B, S, x); }
      forall x | x in Past(g, Elems(D)) - Past(g, Elems(B)) ensures x in S { BetweenCollected(g, D, B, S, x); }
      assert S == Past(g, Elems(D)) - Past(g, Elems(B));
      forall b, x | b in B && x in S ensures Reaches(g, Elems(B) + S, b, x) { BarsAccept(g, D, B, S, b, x); }
    }
  }

  lemma FrontierParts(g: Graph, B: seq<Hash>)
    requires Frontier(g, B)
    ensures Members(g, B) && Distinct(B) && Antichain(g, B)
  {}

  /** The root checkpoint passes both tests for any dependencies in the graph. */
  lemma RootAlwaysAccepted(g: Graph, D: seq<Hash>, S: set<Hash>)
    requires GraphOK(g) && Members(g, D) && IsCollected(g, D, [ROOT_HASH], S)
    ensures Frontier(g, [ROOT_HASH]) && Cover(g, D, [ROOT_HASH]) && Accepts(g, [ROOT_HASH], S)
  {
    var B := [ROOT_HASH];
    forall d, b | d in D && b in B ensures AtMost(g, b, d) { RootBelow(g, d); }
    forall b, x | b in B && x in S ensures Reaches(g, Elems(B) + S, b, x) {
      RootReaches(g, D, S, x);
    }
  }

  lemma RootReaches(g: Graph, D: seq<Hash>, S: set<Hash>, x: Hash)
    requires GraphOK(g) && Members(g, D) && IsCollected(g, D, [ROOT_HASH], S) && x in S
    ensures Reaches(g, Elems([ROOT_HASH]) + S, ROOT_HASH, x)
  {
    var B := [ROOT_HASH];
    assert ROOT_HASH in Elems(B);
    var d, n: nat :| d in D && StepsAvoid(g, Elems(B), x, d, n);
    AvoidSteps(g, Elems(B), x, d, n);
    BelowMember(g, x, d);
    RootBelow(g, x);
    AtMostSteps(g, ROOT_HASH, x);
    var k: nat :| Steps(g, ROOT_HASH, x, k);
    forall y | Below(g, ROOT_HASH, y) && AtMost(g, y, x) ensures y in S {
      BelowTrans(g, y, x, d);
      BelowMember(g, y, d);
      RootOnly(g, y);
      AtMostSteps(g, y, d);
      var m: nat :| Steps(g, y, d, m);
      StepsClear(g, Elems(B), y, d, m);
    }
    StepsInside(g, Elems(B) + S, ROOT_HASH, x, k);
  }

  /** Nothing but the root is at or below the root. */
  lemma RootOnly(g: Graph, y: Hash)
    requires GraphOK(g) && Below(g, ROOT_HASH, y)
    ensures !AtMost(g, y, ROOT_HASH)
  {
    if AtMost(g, y, ROOT_HASH) { BelowTrans(g, ROOT_HASH, y, ROOT_HASH); }
  }

  // ---------------------------------------------------------------- checkpointed replay

  /** The state of the past of `D`. */
  ghost function PastReplay(c: Config, g: Graph, D: seq<Hash>): Option<Snapshot>
    requires GraphOK(g) && D != [] && Members(g, D)
  {
    PastOK(g, D);
    FullReplay(c, Sub(g, Past(g, Elems(D))))
  }

  lemma PastOK(g: Graph, D: seq<Hash>)
    requires GraphOK(g) && D != [] && Members(g, D)
    ensures GraphOK(Sub(g, Past(g, Elems(D)))) && DownClosed(g, Past(g, Elems(D)))
    ensures Past(g, Elems(D)) <= g.Keys
  {
    PastClosed(g, Elems(D));
    RootBelow(g, D[0]);
    InPast(g, D, ROOT_HASH);
    SubOK(g, Past(g, Elems(D)));
  }

  lemma SubSub(g: Graph, T: set<Hash>, U: set<Hash>)
    requires U <= T
    ensures Sub(Sub(g, T), U) == Sub(g, U)
  {}

  /** The heads of the past of an antichain are its members. */
  lemma FrontierHeads(g: Graph, B: seq<Hash>, T: set<Hash>, o: Hash)
    requires GraphOK(g) && Frontier(g, B) && o in B && DownClosed(g, T) && T <= g.Keys && Past(g, Elems(B)) <= T
    ensures o in Heads(Sub(g, T), Past(g, Elems(B)))
  {
    InPast(g, B, o);
    forall x | x in Past(g, Elems(B)) ensures o !in Deps(Sub(g, T), x) {
      if o in Deps(g, x) {
        InPast(g, B, x);
        var b :| b in B && AtMost(g, x, b);
        assert AtMost(g, o, o);
        BelowLast(g, o, x);
        BelowTrans(g, o, x, b);
      }
    }
  }

  lemma BarsBarrier(g: Graph, D: seq<Hash>, B: seq<Hash>)
    requires GraphOK(g) && D != [] && Members(g, D) && Frontier(g, B) && Bars(g, D, B)
    ensures Barrier(Sub(g, Past(g, Elems(D))), Past(g, Elems(B)))
  {
    var T, P := Past(g, Elems(D)), Past(g, Elems(B));
    assert P <= T && Closed(g) && B != [] && Members(g, B);
    PastOK(g, D);
    PastOK(g, B);
    assert ROOT_HASH in P by { assert ROOT_HASH in Sub(g, P); }
    hide Past, GraphOK, Frontier, Below;
    BarrierIn(g, T, P);
  }

  /** A barrier of the whole order is a barrier of the sub-graph. */
  lemma BarrierIn(g: Graph, T: set<Hash>, P: set<Hash>)
    requires Closed(g) && DownClosed(g, T) && DownClosed(g, P) && P <= T <= g.Keys && ROOT_HASH in P
    requires forall x, y :: x in T - P && y in P ==> Below(g, y, x)
    ensures Barrier(Sub(g, T), P)
  {
    hide Below;
    var t := Sub(g, T);
    assert t.Keys == T;
    forall x, y | x in t && x !in P && y in P ensures Below(t, y, x) {
      assert x in T - P;
      BelowInClosed(g, T, y, x);
    }
  }

  /**
   Checkpointed replay refines replay from the root: when the test accepts, the checkpoint's state
   followed by its linearized suffix is the replay of the whole past of the dependencies.
   */
  lemma CheckpointReplay(c: Config, g: Graph, D: seq<Hash>, B: seq<Hash>, o: Hash, S: set<Hash>, st: Snapshot)
    requires Settled(c.pol, g) && GraphOK(g) && Reduced(g) && D != [] && Members(g, D) && Frontier(g, B) && o in B
    requires IsCollected(g, D, B, S) && Cover(g, D, B) && Accepts(g, B, S)
    requires PastReplay(c, g, B) == Some(st)
    ensures RootedAt(Sub(g, S + {o}), o)
    ensures PastReplay(c, g, D) == ReplayOn(c, st, Sub(g, S + {o}), o)
  {
    hide *;
    BarrierTestSound(g, D, B, S);
    BarrierParts(c, g, D, B, o, S);
    var T, P := Past(g, Elems(D)), Past(g, Elems(B));
    var t := Sub(g, T);
    SettledSub(c.pol, g, T);
    BarrierReplay(c, t, P, o);
    UnfoldPast(c, g, D);
    UnfoldPast(c, g, B);
  }

  lemma UnfoldPast(c: Config, g: Graph, D: seq<Hash>)
    requires GraphOK(g) && D != [] && Members(g, D)
    ensures GraphOK(Sub(g, Past(g, Elems(D))))
    ensures PastReplay(c, g, D) == FullReplay(c, Sub(g, Past(g, Elems(D))))
  {
    PastOK(g, D);
  }

  lemma BarrierParts(c: Config, g: Graph, D: seq<Hash>, B: seq<Hash>, o: Hash, S: set<Hash>)
    requires GraphOK(g) && Reduced(g) && D != [] && Members(g, D) && Frontier(g, B) && o in B && Bars(g, D, B)
    requires S == Past(g, Elems(D)) - Past(g, Elems(B))
    ensures B != [] && Members(g, B)
    ensures var T, P := Past(g, Elems(D)), Past(g, Elems(B));
            var t := Sub(g, T);
            && GraphOK(t) && Reduced(t) && Barrier(t, P) && o in Heads(t, P)
            && Sub(t, P) == Sub(g, P) && Sub(t, (t.Keys - P) + {o}) == Sub(g, S + {o})
  {
    hide *;
    var T, P := Past(g, Elems(D)), Past(g, Elems(B));
    FrontierParts(g, B);
    BarsParts(g, D, B);
    PastOK(g, D);
    BarsBarrier(g, D, B);
    FrontierHeads(g, B, T, o);
    ReducedSub(g, T);
    SubKeys(g, T);
    HeadInPast(g, T, P, o);
    SubSub(g, T, P);
    SubSub(g, T, S + {o});
  }

  lemma BarsParts(g: Graph, D: seq<Hash>, B: seq<Hash>)
    requires Bars(g, D, B)
    ensures Past(g, Elems(B)) <= Past(g, Elems(D))
  {}

  lemma SubKeys(g: Graph, T: set<Hash>)
    requires T <= g.Keys
    ensures Sub(g, T).Keys == T
  {}

  lemma HeadInPast(g: Graph, T: set<Hash>, P: set<Hash>, o: Hash)
    requires o in Heads(Sub(g, T), P)
    ensures o in P
  {}
}
