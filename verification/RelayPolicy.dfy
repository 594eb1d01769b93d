/**
 Relay reservations under concurrent workers, as a state machine.

 Operations are chained through the promise of the operation before them.  The running operation
 empties a pool of candidates with several workers, which share the list of active reservations and
 may be interleaved at every `await`.  `granted` and `released` record every reservation a relay
 accepted and every release that was attempted, `log` every candidate an operation tried, and
 `results` what each acquisition returned.
 */
module RelayPolicy {

  /** The operator group of a candidate nobody could classify. */
  const UNKNOWN: nat := 0

  datatype Candidate = Candidate(peer: nat, group: nat)

  datatype Limits = Limits(required: nat, groups: nat, cap: nat, concurrent: nat)

  /** The bounds that the policy demands of its limits. */
  predicate Proper(l: Limits) {
    1 <= l.groups <= l.required && 1 <= l.cap && 1 <= l.concurrent && l.required <= l.cap * l.groups
  }

  datatype Worker = Idle | Trying(candidate: Candidate) | Holding(candidate: Candidate) | Left

  datatype Phase = Waiting | Running | Done

  datatype Attempt = Attempt(op: nat, peer: nat)

  datatype Result = Reserved(reservations: seq<Candidate>) | Unreserved

  /**
   `active` is in insertion order.  `op` is the operation that was begun last; `exempt` are the
   anonymous overflow candidates of its current phase, `degraded` those reserved.
   */
  datatype Policy = Policy(limits: Limits, active: seq<Candidate>, ops: seq<Phase>, stopped: bool, tail: nat,
                           ended: bool, op: nat, pending: seq<Candidate>, cursor: nat, workers: seq<Worker>,
                           attempted: set<nat>, overflow: bool, exempt: set<nat>, degraded: set<nat>,
                           granted: multiset<nat>, released: multiset<nat>, log: seq<Attempt>, results: seq<Result>)

  function Fresh(l: Limits): Policy {
    Policy(l, [], [], false, 0, false, 0, [], 0, [], {}, false, {}, {}, multiset{}, multiset{}, [], [])
  }

  // ---------------------------------------------------------------- lists

  function Peers(cs: seq<Candidate>): (r: seq<nat>)
    ensures |r| == |cs| && forall i :: 0 <= i < |cs| ==> r[i] == cs[i].peer
  {
    seq(|cs|, i requires 0 <= i < |cs| => cs[i].peer)
  }

  function Groups(cs: seq<Candidate>): (r: seq<nat>)
    ensures |r| == |cs| && forall i :: 0 <= i < |cs| ==> r[i] == cs[i].group
  {
    seq(|cs|, i requires 0 <= i < |cs| => cs[i].group)
  }

  function Cut<T>(xs: seq<T>, i: nat): (r: seq<T>)
    requires i < |xs|
    ensures |r| == |xs| - 1
  {
    xs[..i] + xs[i + 1..]
  }

  /** The first position of `x`, or the length. */
  function Find(xs: seq<nat>, x: nat): (i: nat)
    ensures i <= |xs| && (i < |xs| ==> xs[i] == x) && (i == |xs| ==> x !in xs)
  {
    if xs == [] || xs[0] == x then 0
    else
      assert xs == [xs[0]] + xs[1..];
      1 + Find(xs[1..], x)
  }

  lemma CutParts(cs: seq<Candidate>, i: nat)
    requires i < |cs|
    ensures Peers(Cut(cs, i)) == Cut(Peers(cs), i) && Groups(Cut(cs, i)) == Cut(Groups(cs), i)
  {}

  lemma CutMultiset<T>(xs: seq<T>, i: nat)
    requires i < |xs|
    ensures multiset(xs) == multiset(Cut(xs, i)) + multiset{xs[i]}
  {
    assert xs == xs[..i] + [xs[i]] + xs[i + 1..];
  }

  lemma SnocParts(cs: seq<Candidate>, c: Candidate)
    ensures Peers(cs + [c]) == Peers(cs) + [c.peer] && Groups(cs + [c]) == Groups(cs) + [c.group]
  {}

  // ---------------------------------------------------------------- decisions

  function Count(gs: seq<nat>, group: nat): nat { multiset(gs)[group] }

  function Known(gs: seq<nat>): set<nat> {
    set g | g in gs && g != UNKNOWN
  }

  /** Enough reservations in enough known groups. */
  predicate Enough(l: Limits, gs: seq<nat>) {
    |gs| >= l.required && |Known(gs)| >= l.groups
  }

  predicate Met(s: Policy) {
    || Enough(s.limits, Groups(s.active))
    || (|s.active| >= s.limits.required && s.overflow && exists p :: p in s.degraded && p in Peers(s.active))
  }

  predicate Exempt(s: Policy, c: Candidate) {
    s.overflow && c.peer in s.exempt && c.group == UNKNOWN
  }

  predicate Full(s: Policy, c: Candidate) {
    Count(Groups(s.active), c.group) >= s.limits.cap && !Exempt(s, c)
  }

  /** The first position whose group occurs more than once, or the length. */
  function Surplus(gs: seq<nat>): (i: nat)
    ensures i <= |gs| && (i < |gs| ==> Count(gs, gs[i]) > 1)
    ensures forall j :: 0 <= j < i ==> Count(gs, gs[j]) <= 1
  {
    SurplusFrom(gs, 0)
  }

  function SurplusFrom(gs: seq<nat>, from: nat): (i: nat)
    requires from <= |gs|
    ensures from <= i <= |gs| && (i < |gs| ==> Count(gs, gs[i]) > 1)
    ensures forall j :: from <= j < i ==> Count(gs, gs[j]) <= 1
    decreases |gs| - from
  {
    if from == |gs| || Count(gs, gs[from]) > 1 then from else SurplusFrom(gs, from + 1)
  }

  // ---------------------------------------------------------------- steps

  /** Nothing about the operations changed. */
  predicate SameQueue(s: Policy, t: Policy) {
    && t.ops == s.ops && t.stopped == s.stopped && t.tail == s.tail && t.ended == s.ended && t.limits == s.limits
    && t.op == s.op && t.results == s.results
  }

  function Insert(s: Policy, c: Candidate): (t: Policy)
    ensures SameQueue(s, t)
  {
    s.(active := s.active + [c], degraded := if Exempt(s, c) then s.degraded + {c.peer} else s.degraded)
  }

  function Release(s: Policy, p: nat): Policy {
    s.(released := s.released + multiset{p})
  }

  /** Forget the reservation at a position and release it. */
  function DropAt(s: Policy, i: nat): (t: Policy)
    requires i < |s.active|
    ensures SameQueue(s, t)
  {
    var p := s.active[i].peer;
    Release(s.(active := Cut(s.active, i), degraded := s.degraded - {p}), p)
  }

  /** Nothing when the peer is not active. */
  function Drop(s: Policy, p: nat): Policy {
    var i := Find(Peers(s.active), p);
    if i < |s.active| then DropAt(s, i) else s
  }

  function SetWorker(s: Policy, w: nat, worker: Worker): (t: Policy)
    requires w < |s.workers|
    ensures SameQueue(s, t)
  {
    s.(workers := s.workers[w := worker])
  }

  function DropAll(s: Policy, ps: seq<nat>): Policy
    decreases |ps|
  {
    if ps == [] then s else DropAll(Drop(s, ps[0]), ps[1..])
  }

  /** Candidates that are neither active nor tried in this operation. */
  function Untried(s: Policy, pool: seq<Candidate>): seq<Candidate> {
    if pool == [] then []
    else
      (if pool[0].peer in Peers(s.active) || pool[0].peer in s.attempted then [] else [pool[0]]) + Untried(s, pool[1..])
  }

  function Fill(s: Policy, pool: seq<Candidate>, overflow: bool, exempt: set<nat>): Policy {
    var pending := Untried(s, pool);
    var count := if |pending| < s.limits.concurrent then |pending| else s.limits.concurrent;
    s.(pending := pending, cursor := 0, workers := seq(count, _ => Idle), overflow := overflow, exempt := exempt)
  }

  /** The next candidate of an idle worker, up to its first await; `usable` says it has an address. */
  function Take(s: Policy, w: nat, excluded: set<nat>, usable: bool): (t: Policy)
    requires w < |s.workers| && s.cursor < |s.pending|
    ensures SameQueue(s, t)
  {
    var c := s.pending[s.cursor];
    var t := s.(cursor := s.cursor + 1, attempted := s.attempted + {c.peer}, log := s.log + [Attempt(s.op, c.peer)]);
    if c.peer in Peers(s.active) || c.group in excluded || Full(s, c) || !usable then t else SetWorker(t, w, Trying(c))
  }

  /** An accepted reservation: released, kept, or held while the first surplus one is dropped. */
  function Accept(s: Policy, w: nat): (t: Policy)
    requires w < |s.workers| && s.workers[w].Trying?
    ensures SameQueue(s, t)
  {
    var c := s.workers[w].candidate;
    var t := s.(granted := s.granted + multiset{c.peer});
    var i := Surplus(Groups(s.active));
    if c.peer in Peers(s.active) || Full(s, c) || Met(s) then SetWorker(Release(t, c.peer), w, Idle)
    else if |s.active| >= s.limits.required && i < |s.active| then SetWorker(DropAt(t, i), w, Holding(c))
    else SetWorker(Insert(t, c), w, Idle)
  }

  datatype Action =
    | Enqueue
    | Begin(op: nat, drops: seq<nat>, pool: seq<Candidate>, overflow: bool, exempt: set<nat>)
    | Refill(pool: seq<Candidate>, overflow: bool, exempt: set<nat>)
    | Next(worker: nat, abort: bool, excluded: set<nat>, usable: bool)
    | Fail(worker: nat)
    | Accepted(worker: nat)
    | Keep(worker: nat)
    | Finish(op: nat)
    | Stop
    | StopEnd

  predicate AllLeft(s: Policy) { forall w :: 0 <= w < |s.workers| ==> s.workers[w] == Left }

  ghost predicate Separate(cs: seq<Candidate>) {
    forall i, j :: 0 <= i < j < |cs| ==> cs[i].peer != cs[j].peer
  }

  ghost predicate Enabled(s: Policy, a: Action) {
    match a
    case Enqueue => true
    case Begin(k, _, pool, _, _) =>
      k < |s.ops| && s.ops[k] == Waiting && (k == 0 || s.ops[k - 1] == Done) && Separate(pool)
    case Refill(pool, _, _) => (exists k :: 0 <= k < |s.ops| && s.ops[k] == Running) && AllLeft(s) && Separate(pool)
    case Next(w, _, _, _) => w < |s.workers| && s.workers[w] == Idle
    case Fail(w) => w < |s.workers| && s.workers[w].Trying?
    case Accepted(w) => w < |s.workers| && s.workers[w].Trying?
    case Keep(w) => w < |s.workers| && s.workers[w].Holding?
    case Finish(k) => k < |s.ops| && s.ops[k] == Running && AllLeft(s)
    case Stop => !s.stopped
    case StopEnd => s.stopped && !s.ended && (s.tail == 0 || (s.tail <= |s.ops| && s.ops[s.tail - 1] == Done))
  }

  /** What an acquisition returns when its workers are done. */
  function ResultOf(s: Policy): Result {
    if Met(s) then Reserved(s.active) else Unreserved
  }

  ghost function Step(s: Policy, a: Action): Policy
    requires Enabled(s, a)
  {
    match a
    case Enqueue => s.(ops := s.ops + [Waiting])
    case Begin(k, drops, pool, overflow, exempt) =>
      if s.stopped then s.(ops := s.ops[k := Done])
      else
        var t := DropAll(s, drops);
        Fill(t.(ops := s.ops[k := Running], op := k, attempted := set p | p in drops), pool, overflow, exempt)
    case Refill(pool, overflow, exempt) => Fill(s, pool, overflow, exempt)
    case Next(w, abort, excluded, usable) =>
      if abort || s.cursor >= |s.pending| || Met(s) then SetWorker(s, w, Left) else Take(s, w, excluded, usable)
    case Fail(w) => SetWorker(s, w, Idle)
    case Accepted(w) => Accept(s, w)
    case Keep(w) => SetWorker(Insert(s, s.workers[w].candidate), w, Idle)
    case Finish(k) => s.(ops := s.ops[k := Done], results := s.results + [ResultOf(s)])
    case Stop => s.(stopped := true, tail := |s.ops|)
    case StopEnd => s.(active := [], degraded := {}, ended := true, released := s.released + multiset(Peers(s.active)))
  }

  // ---------------------------------------------------------------- what every step keeps

  /** Operations run one at a time, in the order they were enqueued. */
  ghost predicate Queued(s: Policy) {
    && (forall i, j :: 0 <= i < j < |s.ops| && s.ops[j] != Waiting ==> s.ops[i] == Done)
    && (AllLeft(s) || exists k :: 0 <= k < |s.ops| && s.ops[k] == Running)
    && (forall k :: 0 <= k < |s.ops| && s.ops[k] == Running ==> k == s.op)
    && (s.ended ==> s.stopped && s.active == [] && (forall i :: 0 <= i < |s.ops| ==> s.ops[i] != Running))
    && (s.stopped ==> s.tail <= |s.ops| && forall i :: s.tail <= i < |s.ops| ==> s.ops[i] != Running)
  }

  predicate Busy(w: Worker) { w.Trying? || w.Holding? }

  /** What is still to be taken from the pool is neither tried nor active; what was taken is tried. */
  ghost predicate PoolOK(pending: seq<Candidate>, cursor: nat, attempted: set<nat>, active: seq<nat>) {
    && cursor <= |pending| && Separate(pending)
    && (forall i :: cursor <= i < |pending| ==> pending[i].peer !in attempted && pending[i].peer !in active)
    && (forall i :: 0 <= i < cursor ==> pending[i].peer in attempted)
  }

  /** Every busy worker has its own candidate, already tried and not active. */
  ghost predicate WorkersOK(workers: seq<Worker>, attempted: set<nat>, active: seq<nat>) {
    && (forall w :: 0 <= w < |workers| && Busy(workers[w]) ==>
          workers[w].candidate.peer in attempted && workers[w].candidate.peer !in active)
    && (forall v, w :: 0 <= v < w < |workers| && Busy(workers[v]) && Busy(workers[w]) ==>
          workers[v].candidate.peer != workers[w].candidate.peer)
  }

  ghost predicate Owned(s: Policy) {
    PoolOK(s.pending, s.cursor, s.attempted, Peers(s.active)) && WorkersOK(s.workers, s.attempted, Peers(s.active))
  }

  /** No operation tries a candidate twice; what the current one tried is remembered. */
  ghost predicate Logged(s: Policy) {
    && (forall i, j :: 0 <= i < j < |s.log| ==> s.log[i] != s.log[j])
    && (forall e :: e in s.log ==> e.op < |s.ops| && s.ops[e.op] != Waiting && (e.op == s.op ==> e.peer in s.attempted))
  }

  function Holds(w: Worker, p: nat): nat {
    if w.Holding? && w.candidate.peer == p then 1 else 0
  }

  /** How often the workers hold a reservation of `p` while they drop a surplus one. */
  function Held(workers: seq<Worker>, p: nat): nat {
    if workers == [] then 0 else Holds(workers[0], p) + Held(workers[1..], p)
  }

  function Present(active: seq<Candidate>, p: nat): nat { multiset(Peers(active))[p] }

  /** Every accepted reservation of `p` is active, held by a worker, or was handed to a release. */
  predicate Balanced(s: Policy, p: nat) {
    s.granted[p] == Present(s.active, p) + s.released[p] + Held(s.workers, p)
  }

  ghost predicate Conserved(s: Policy) { forall p: nat :: Balanced(s, p) }

  ghost predicate Inv(s: Policy) { Queued(s) && Owned(s) && Conserved(s) && Logged(s) }

  lemma {:induction false} HeldSet(workers: seq<Worker>, w: nat, worker: Worker, p: nat)
    requires w < |workers|
    ensures Held(workers[w := worker], p) + Holds(workers[w], p) == Held(workers, p) + Holds(worker, p)
    decreases |workers|
  {
    var after := workers[w := worker];
    if w == 0 {
      assert after[1..] == workers[1..];
    } else {
      assert after[1..] == workers[1..][w - 1 := worker];
      HeldSet(workers[1..], w - 1, worker, p);
    }
  }

  lemma {:induction false} HeldNone(workers: seq<Worker>, p: nat)
    requires forall w :: 0 <= w < |workers| ==> !workers[w].Holding?
    ensures Held(workers, p) == 0
    decreases |workers|
  {
    if workers != [] { HeldNone(workers[1..], p); }
  }

  /** The books after one worker changed and one reservation came or went. */
  lemma Books(s: Policy, t: Policy, w: nat, p: nat)
    requires Conserved(s) && w < |s.workers| && w < |t.workers| && t.workers == s.workers[w := t.workers[w]]
    requires t.granted[p] + Present(s.active, p) + s.released[p] + Holds(s.workers[w], p)
             == s.granted[p] + Present(t.active, p) + t.released[p] + Holds(t.workers[w], p)
    ensures Balanced(t, p)
  {
    assert Balanced(s, p);
    HeldSet(s.workers, w, t.workers[w], p);
    hide Held;
  }

  lemma PresentCut(active: seq<Candidate>, i: nat, p: nat)
    requires i < |active|
    ensures Present(active, p) == Present(Cut(active, i), p) + if active[i].peer == p then 1 else 0
  {
    CutParts(active, i);
    CutMultiset(Peers(active), i);
    hide Cut;
  }

  lemma PresentMore(active: seq<Candidate>, c: Candidate, p: nat)
    ensures Present(active + [c], p) == Present(active, p) + if c.peer == p then 1 else 0
  {
    SnocParts(active, c);
  }

  // Workers.

  lemma WorkersQuiet(workers: seq<Worker>, attempted: set<nat>, active: seq<nat>, w: nat, worker: Worker)
    requires WorkersOK(workers, attempted, active) && w < |workers| && !Busy(worker)
    ensures WorkersOK(workers[w := worker], attempted, active)
  {}

  lemma WorkersHold(workers: seq<Worker>, attempted: set<nat>, active: seq<nat>, w: nat)
    requires WorkersOK(workers, attempted, active) && w < |workers| && Busy(workers[w])
    ensures WorkersOK(workers[w := Holding(workers[w].candidate)], attempted, active)
  {}

  lemma WorkersTry(workers: seq<Worker>, attempted: set<nat>, active: seq<nat>, w: nat, c: Candidate)
    requires WorkersOK(workers, attempted, active) && w < |workers| && c.peer !in attempted && c.peer !in active
    ensures WorkersOK(workers[w := Trying(c)], attempted + {c.peer}, active)
  {}

  lemma WorkersFewer(workers: seq<Worker>, attempted: set<nat>, active: seq<nat>, fewer: seq<nat>)
    requires WorkersOK(workers, attempted, active) && forall p :: p in fewer ==> p in active
    ensures WorkersOK(workers, attempted, fewer)
  {}

  /** The candidate of a worker that is done with it may become active. */
  lemma WorkersInsert(workers: seq<Worker>, attempted: set<nat>, active: seq<nat>, w: nat)
    requires WorkersOK(workers, attempted, active) && w < |workers| && Busy(workers[w])
    ensures WorkersOK(workers[w := Idle], attempted, active + [workers[w].candidate.peer])
  {}

  lemma PoolFewer(pending: seq<Candidate>, cursor: nat, attempted: set<nat>, active: seq<nat>, fewer: seq<nat>)
    requires PoolOK(pending, cursor, attempted, active) && forall p :: p in fewer ==> p in active
    ensures PoolOK(pending, cursor, attempted, fewer)
  {
    hide Separate;
  }

  lemma PoolInsert(pending: seq<Candidate>, cursor: nat, attempted: set<nat>, active: seq<nat>, p: nat)
    requires PoolOK(pending, cursor, attempted, active) && p in attempted
    ensures PoolOK(pending, cursor, attempted, active + [p])
  {
    hide Separate;
  }

  lemma PoolTake(pending: seq<Candidate>, cursor: nat, attempted: set<nat>, active: seq<nat>)
    requires PoolOK(pending, cursor, attempted, active) && cursor < |pending|
    ensures PoolOK(pending, cursor + 1, attempted + {pending[cursor].peer}, active)
  {}

  // Reservations.

  lemma DropAtKeeps(s: Policy, i: nat)
    requires Owned(s) && Conserved(s) && i < |s.active|
    ensures Owned(DropAt(s, i)) && Conserved(DropAt(s, i))
  {
    var t := DropAt(s, i);
    CutParts(s.active, i);
    hide PoolOK, WorkersOK, Held, Present;
    PoolFewer(s.pending, s.cursor, s.attempted, Peers(s.active), Peers(t.active));
    WorkersFewer(s.workers, s.attempted, Peers(s.active), Peers(t.active));
    forall q: nat ensures Balanced(t, q) {
      assert Balanced(s, q);
      PresentCut(s.active, i, q);
    }
  }

  lemma {:induction false} DropAllKeeps(s: Policy, ps: seq<nat>)
    requires Owned(s) && Conserved(s)
    ensures var t := DropAll(s, ps);
            Owned(t) && Conserved(t) && t == s.(active := t.active, degraded := t.degraded, released := t.released)
    decreases |ps|
  {
    hide Owned, Conserved;
    if ps != [] {
      var i := Find(Peers(s.active), ps[0]);
      if i < |s.active| { DropAtKeeps(s, i); }
      DropAllKeeps(Drop(s, ps[0]), ps[1..]);
    }
  }

  lemma {:induction false} UntriedMeans(s: Policy, pool: seq<Candidate>)
    requires Separate(pool)
    ensures var r := Untried(s, pool);
            Separate(r) && forall c :: c in r ==> c in pool && c.peer !in Peers(s.active) && c.peer !in s.attempted
    decreases |pool|
  {
    if pool != [] {
      UntriedMeans(s, pool[1..]);
      var r := Untried(s, pool[1..]);
      forall i | 0 <= i < |r| ensures r[i].peer != pool[0].peer {
        assert r[i] in pool[1..];
      }
    }
  }

  lemma FillKeeps(s: Policy, pool: seq<Candidate>, overflow: bool, exempt: set<nat>)
    requires Conserved(s) && AllLeft(s) && Separate(pool)
    ensures var t := Fill(s, pool, overflow, exempt); Owned(t) && Conserved(t)
  {
    UntriedMeans(s, pool);
    var t := Fill(s, pool, overflow, exempt);
    hide Untried, Held, Separate, Present;
    forall p: nat ensures Balanced(t, p) {
      assert Balanced(s, p);
      HeldNone(s.workers, p);
      HeldNone(t.workers, p);
    }
  }

  /** A worker moves on without touching the reservations. */
  lemma MoveKeeps(s: Policy, w: nat, worker: Worker)
    requires Owned(s) && Conserved(s) && w < |s.workers| && !s.workers[w].Holding? && !Busy(worker)
    ensures Owned(SetWorker(s, w, worker)) && Conserved(SetWorker(s, w, worker))
  {
    var t := SetWorker(s, w, worker);
    hide PoolOK, WorkersOK, Conserved, Present;
    WorkersQuiet(s.workers, s.attempted, Peers(s.active), w, worker);
    forall p: nat ensures Balanced(t, p) { Books(s, t, w, p); }
    MakeConserved(t);
  }

  lemma MakeConserved(t: Policy)
    requires forall p: nat :: Balanced(t, p)
    ensures Conserved(t)
  {}

  /** Taking a candidate: it was not tried before in this operation. */
  lemma TakeKeeps(s: Policy, w: nat, excluded: set<nat>, usable: bool)
    requires Owned(s) && Conserved(s) && w < |s.workers| && s.workers[w] == Idle && s.cursor < |s.pending|
    ensures Owned(Take(s, w, excluded, usable)) && Conserved(Take(s, w, excluded, usable))
    ensures s.pending[s.cursor].peer !in s.attempted
  {
    var t := Take(s, w, excluded, usable);
    var c := s.pending[s.cursor];
    assert c.peer !in s.attempted && c.peer !in Peers(s.active);
    hide PoolOK, WorkersOK, Conserved, Full, Present;
    PoolTake(s.pending, s.cursor, s.attempted, Peers(s.active));
    WorkersTry(s.workers, s.attempted, Peers(s.active), w, c);
    WorkersQuiet(s.workers[w := Trying(c)], s.attempted + {c.peer}, Peers(s.active), w, Idle);
    assert s.workers[w := Trying(c)][w := Idle] == s.workers;
    forall p: nat ensures Balanced(t, p) { Books(s, t, w, p); }
    MakeConserved(t);
  }

  /** A granted reservation that is handed straight to a release. */
  lemma RefuseKeeps(s: Policy, w: nat)
    requires Owned(s) && Conserved(s) && w < |s.workers| && s.workers[w].Trying?
    ensures var p := s.workers[w].candidate.peer;
            var t := SetWorker(Release(s.(granted := s.granted + multiset{p}), p), w, Idle); Owned(t) && Conserved(t)
  {
    var c := s.workers[w].candidate;
    var t := SetWorker(Release(s.(granted := s.granted + multiset{c.peer}), c.peer), w, Idle);
    hide PoolOK, WorkersOK, Conserved, Present;
    WorkersQuiet(s.workers, s.attempted, Peers(s.active), w, Idle);
    forall p: nat ensures Balanced(t, p) { Books(s, t, w, p); }
    MakeConserved(t);
  }

  /** A granted reservation that becomes active. */
  lemma InsertKeeps(s: Policy, w: nat)
    requires Owned(s) && Conserved(s) && w < |s.workers| && Busy(s.workers[w])
    ensures var c := s.workers[w].candidate;
            var g := if s.workers[w].Trying? then s.granted + multiset{c.peer} else s.granted;
            var t := SetWorker(Insert(s.(granted := g), c), w, Idle); Owned(t) && Conserved(t)
  {
    var c := s.workers[w].candidate;
    var g := if s.workers[w].Trying? then s.granted + multiset{c.peer} else s.granted;
    var t := SetWorker(Insert(s.(granted := g), c), w, Idle);
    assert c.peer in s.attempted && c.peer !in Peers(s.active);
    SnocParts(s.active, c);
    hide PoolOK, WorkersOK, Conserved, Exempt, Present;
    WorkersInsert(s.workers, s.attempted, Peers(s.active), w);
    PoolInsert(s.pending, s.cursor, s.attempted, Peers(s.active), c.peer);
    forall p: nat ensures Balanced(t, p) {
      PresentMore(s.active, c, p);
      Books(s, t, w, p);
    }
    MakeConserved(t);
  }

  /** A granted reservation that a worker holds while it drops a surplus one. */
  lemma HoldKeeps(s: Policy, w: nat, i: nat)
    requires Owned(s) && Conserved(s) && w < |s.workers| && s.workers[w].Trying? && i < |s.active|
    ensures var c := s.workers[w].candidate;
            var t := SetWorker(DropAt(s.(granted := s.granted + multiset{c.peer}), i), w, Holding(c));
            Owned(t) && Conserved(t)
  {
    var c := s.workers[w].candidate;
    var t := SetWorker(DropAt(s.(granted := s.granted + multiset{c.peer}), i), w, Holding(c));
    assert c.peer !in Peers(s.active);
    CutParts(s.active, i);
    assert forall p :: p in Peers(t.active) ==> p in Peers(s.active);
    hide PoolOK, WorkersOK, Conserved, Present;
    WorkersHold(s.workers, s.attempted, Peers(s.active), w);
    WorkersFewer(t.workers, s.attempted, Peers(s.active), Peers(t.active));
    PoolFewer(s.pending, s.cursor, s.attempted, Peers(s.active), Peers(t.active));
    forall p: nat ensures Balanced(t, p) {
      PresentCut(s.active, i, p);
      Books(s, t, w, p);
    }
    MakeConserved(t);
  }

  lemma AcceptKeeps(s: Policy, w: nat)
    requires Owned(s) && Conserved(s) && w < |s.workers| && s.workers[w].Trying?
    ensures Owned(Accept(s, w)) && Conserved(Accept(s, w))
  {
    var c, i := s.workers[w].candidate, Surplus(Groups(s.active));
    hide Owned, Conserved, Full, Met, Insert, DropAt;
    if c.peer in Peers(s.active) || Full(s, c) || Met(s) { RefuseKeeps(s, w); }
    else if |s.active| >= s.limits.required && i < |s.active| { HoldKeeps(s, w, i); }
    else { InsertKeeps(s, w); }
  }

  // ---------------------------------------------------------------- the queue of operations

  lemma NoneRunning(s: Policy, k: nat)
    requires Queued(s) && k < |s.ops| && s.ops[k] == Waiting && (k == 0 || s.ops[k - 1] == Done)
    ensures AllLeft(s) && (forall i :: 0 <= i < k ==> s.ops[i] == Done)
            && (forall i :: k <= i < |s.ops| ==> s.ops[i] == Waiting)
  {
    forall i | 0 <= i < k ensures s.ops[i] == Done { assert i == k - 1 || i < k - 1; }
    forall i | k <= i < |s.ops| ensures s.ops[i] == Waiting { assert i == k || k < i; }
    assert forall i :: 0 <= i < |s.ops| ==> s.ops[i] != Running;
  }

  /** A step of a worker: some operation is running, and the queue stays as it is. */
  lemma QueueSame(s: Policy, t: Policy, w: nat)
    requires Queued(s) && SameQueue(s, t)
    requires w < |s.workers| && s.workers[w] != Left
    ensures Queued(t)
  {}

  lemma BeginKeeps(s: Policy, a: Action)
    requires Inv(s) && a.Begin? && Enabled(s, a)
    ensures Inv(Step(s, a))
  {
    NoneRunning(s, a.op);
    hide Conserved, Separate, Fill, PoolOK, WorkersOK;
    if s.stopped {
      StoppedBegin(s, a.op);
    } else {
      DropAllKeeps(s, a.drops);
      var t := DropAll(s, a.drops);
      var u := t.(ops := s.ops[a.op := Running], op := a.op, attempted := set p | p in a.drops);
      SameBooks(t, u);
      FillKeeps(u, a.pool, a.overflow, a.exempt);
      FillQueue(s, a.op, u, a);
      FillLogged(s, u, a);
    }
  }

  lemma FillLogged(s: Policy, u: Policy, a: Action)
    requires Logged(s) && a.Begin? && a.op < |s.ops| && s.ops[a.op] == Waiting
    requires u.ops == s.ops[a.op := Running] && u.op == a.op && u.log == s.log
    ensures Logged(Fill(u, a.pool, a.overflow, a.exempt))
  {
    hide Untried;
  }

  lemma SameBooks(s: Policy, t: Policy)
    requires Conserved(s) && t.granted == s.granted && t.released == s.released && t.active == s.active
             && t.workers == s.workers
    ensures Conserved(t)
  {
    hide Held, Present;
    forall p: nat ensures Balanced(t, p) { assert Balanced(s, p); }
  }

  lemma StoppedBegin(s: Policy, k: nat)
    requires Inv(s) && k < |s.ops| && s.ops[k] == Waiting && (k == 0 || s.ops[k - 1] == Done)
    ensures Inv(s.(ops := s.ops[k := Done]))
  {
    NoneRunning(s, k);
    SameBooks(s, s.(ops := s.ops[k := Done]));
    hide Conserved, PoolOK, WorkersOK;
  }

  lemma FillQueue(s: Policy, k: nat, u: Policy, a: Action)
    requires Queued(s) && a.Begin? && a.op == k && Enabled(s, a) && !s.stopped
    requires u.ops == s.ops[k := Running] && u.op == k && u.stopped == s.stopped && u.tail == s.tail
             && u.ended == s.ended
    ensures Queued(Fill(u, a.pool, a.overflow, a.exempt))
  {
    NoneRunning(s, k);
    hide Untried, Separate;
    assert u.ops[k] == Running;
  }

  lemma FinishKeeps(s: Policy, k: nat)
    requires Inv(s) && Enabled(s, Finish(k))
    ensures Inv(Step(s, Finish(k)))
  {
    hide ResultOf;
    SameBooks(s, Step(s, Finish(k)));
    hide Conserved, PoolOK, WorkersOK;
  }

  /** When `stop` returns, every reservation ever accepted was handed to a release. */
  lemma StopEndKeeps(s: Policy)
    requires Inv(s) && Enabled(s, StopEnd)
    ensures Inv(Step(s, StopEnd))
  {
    var t := Step(s, StopEnd);
    forall i | 0 <= i < |s.ops| ensures s.ops[i] != Running {
      assert i < s.tail - 1 || i == s.tail - 1 || s.tail <= i;
    }
    assert AllLeft(s);
    forall p: nat ensures Balanced(t, p) { assert Balanced(s, p); }
    hide Balanced, Separate, Held;
  }

  lemma EnqueueKeeps(s: Policy)
    requires Inv(s)
    ensures Inv(s.(ops := s.ops + [Waiting]))
  {
    SameBooks(s, s.(ops := s.ops + [Waiting]));
    hide Conserved, PoolOK, WorkersOK;
    if !AllLeft(s) {
      var k :| 0 <= k < |s.ops| && s.ops[k] == Running;
      assert (s.ops + [Waiting])[k] == Running;
    }
  }

  lemma StopKeeps(s: Policy)
    requires Inv(s) && !s.stopped
    ensures Inv(s.(stopped := true, tail := |s.ops|))
  {
    SameBooks(s, s.(stopped := true, tail := |s.ops|));
    hide Conserved, PoolOK, WorkersOK;
  }

  lemma RefillKeeps(s: Policy, pool: seq<Candidate>, overflow: bool, exempt: set<nat>)
    requires Inv(s) && Enabled(s, Refill(pool, overflow, exempt))
    ensures Inv(Fill(s, pool, overflow, exempt))
  {
    FillKeeps(s, pool, overflow, exempt);
    hide Owned, Conserved, Separate, Untried;
  }

  /** The log after a step of a worker. */
  lemma TakeLogged(s: Policy, w: nat, excluded: set<nat>, usable: bool)
    requires Inv(s) && w < |s.workers| && s.workers[w] == Idle && s.cursor < |s.pending|
    ensures Logged(Take(s, w, excluded, usable))
  {
    TakeKeeps(s, w, excluded, usable);
    assert !AllLeft(s);
    var k :| 0 <= k < |s.ops| && s.ops[k] == Running;
    assert s.op < |s.ops| && s.ops[s.op] == Running;
    hide Owned, Conserved, Full, Queued;
    var e := Attempt(s.op, s.pending[s.cursor].peer);
    assert e !in s.log;
  }

  lemma LogSame(s: Policy, t: Policy)
    requires Logged(s) && SameQueue(s, t) && t.log == s.log && t.attempted == s.attempted
    ensures Logged(t)
  {}

  lemma LogUntouched(s: Policy, a: Action)
    requires Enabled(s, a) && (a.Fail? || a.Accepted? || a.Keep?)
    ensures Step(s, a).log == s.log && Step(s, a).attempted == s.attempted
  {
    hide Met, Full, Surplus, Exempt;
  }

  /** The steps of one worker. */
  lemma WorkerKeeps(s: Policy, w: nat, a: Action)
    requires Inv(s) && Enabled(s, a)
    requires (a.Next? || a.Fail? || a.Accepted? || a.Keep?) && a.worker == w
    ensures Inv(Step(s, a))
  {
    hide Owned, Conserved, Logged, Met, Take, Accept, Insert, Separate, Queued;
    match a {
      case Next(_, abort, excluded, usable) =>
        if abort || s.cursor >= |s.pending| || Met(s) {
          MoveKeeps(s, w, Left);
          LogSame(s, SetWorker(s, w, Left));
        } else {
          TakeKeeps(s, w, excluded, usable);
          TakeLogged(s, w, excluded, usable);
        }
      case Fail(_) => MoveKeeps(s, w, Idle);
      case Accepted(_) => AcceptKeeps(s, w);
      case Keep(_) =>
        InsertKeeps(s, w);
        assert s.(granted := s.granted) == s;
    }
    Untouched(s, w, a);
    if !a.Next? {
      LogUntouched(s, a);
      LogSame(s, Step(s, a));
    }
    QueueSame(s, Step(s, a), w);
  }

  lemma Untouched(s: Policy, w: nat, a: Action)
    requires Enabled(s, a) && (a.Next? || a.Fail? || a.Accepted? || a.Keep?)
    ensures SameQueue(s, Step(s, a))
  {
    hide Met, Take, Accept, Insert, SetWorker;
  }

  lemma StepKeeps(s: Policy, a: Action)
    requires Inv(s) && Enabled(s, a)
    ensures Inv(Step(s, a))
  {
    hide Inv, Separate, Met, Take, Accept, Fill, Insert, DropAll, ResultOf;
    match a {
      case Enqueue => EnqueueKeeps(s);
      case Begin(_, _, _, _, _) => BeginKeeps(s, a);
      case Refill(pool, overflow, exempt) => RefillKeeps(s, pool, overflow, exempt);
      case Next(w, _, _, _) => WorkerKeeps(s, w, a);
      case Fail(w) => WorkerKeeps(s, w, a);
      case Accepted(w) => WorkerKeeps(s, w, a);
      case Keep(w) => WorkerKeeps(s, w, a);
      case Finish(k) => FinishKeeps(s, k);
      case Stop => StopKeeps(s);
      case StopEnd => StopEndKeeps(s);
    }
  }

  // ---------------------------------------------------------------- runs

  ghost function Apply(s: Policy, a: Action): Policy {
    if Enabled(s, a) then Step(s, a) else s
  }

  ghost function Run(s: Policy, actions: seq<Action>): Policy
    decreases |actions|
  {
    if actions == [] then s else Run(Apply(s, actions[0]), actions[1..])
  }

  lemma {:induction false} RunKeeps(s: Policy, actions: seq<Action>)
    requires Inv(s)
    ensures Inv(Run(s, actions))
    decreases |actions|
  {
    hide Inv, Step, Enabled;
    if actions != [] {
      if Enabled(s, actions[0]) { StepKeeps(s, actions[0]); }
      RunKeeps(Apply(s, actions[0]), actions[1..]);
    }
  }

  /**
   In every run, operations follow one another, no operation tries a candidate twice, and every
   accepted reservation is active, held, or handed to a release; when `stop` has returned, every one
   was handed to a release.
   */
  lemma ReservationsConserved(l: Limits, actions: seq<Action>)
    ensures var s := Run(Fresh(l), actions);
            && Inv(s) && (s.ended ==> s.granted == s.released)
            && (forall i, j :: 0 <= i < j < |s.log| ==> s.log[i] != s.log[j])
  {
    FreshInv(l);
    hide Step, Enabled, Fresh;
    RunKeeps(Fresh(l), actions);
    var s := Run(Fresh(l), actions);
    if s.ended { AllReleased(s); }
  }

  lemma FreshInv(l: Limits)
    ensures Inv(Fresh(l))
  {
    assert Peers([]) == [];
  }

  lemma AllReleased(s: Policy)
    requires Inv(s) && s.ended
    ensures s.granted == s.released
  {
    assert AllLeft(s) && Peers(s.active) == [];
    forall p: nat ensures s.granted[p] == s.released[p] {
      assert Balanced(s, p);
      HeldNone(s.workers, p);
    }
  }
}
