/**
 The cap of an operator group and what an acquisition may report, over every interleaving.

 Each step of the policy is a move of the table or none, so a table that stays within the cap keeps the
 policy within it; and every play of the table is a run of the policy with a suitable pool.
 */
module RelayCap {
  import opened RelayPolicy
  import opened RelayGroups
  import opened RelayRuns

  // ---------------------------------------------------------------- the table of a state

  function GroupHeld(w: Worker): multiset<nat> {
    if w.Holding? then multiset{w.candidate.group} else multiset{}
  }

  function HeldGroups(workers: seq<Worker>): multiset<nat> {
    if workers == [] then multiset{} else GroupHeld(workers[0]) + HeldGroups(workers[1..])
  }

  function View(s: Policy): Table {
    Table(Groups(s.active), HeldGroups(s.workers))
  }

  lemma {:induction false} HeldGroupsSet(workers: seq<Worker>, w: nat, worker: Worker)
    requires w < |workers|
    ensures HeldGroups(workers[w := worker]) + GroupHeld(workers[w]) == HeldGroups(workers) + GroupHeld(worker)
    decreases |workers|
  {
    hide *;
    var after, rest := workers[w := worker], workers[1..];
    HeldGroupsCons(workers);
    HeldGroupsCons(after);
    if w == 0 {
      assert after[1..] == rest;
      Regroup(GroupHeld(worker), HeldGroups(rest), GroupHeld(workers[0]));
    } else {
      assert after[1..] == rest[w - 1 := worker];
      HeldGroupsSet(rest, w - 1, worker);
      RegroupRest(GroupHeld(workers[0]), HeldGroups(after[1..]), GroupHeld(workers[w]),
                  HeldGroups(rest), GroupHeld(worker));
    }
  }

  lemma HeldGroupsCons(workers: seq<Worker>)
    requires workers != []
    ensures HeldGroups(workers) == GroupHeld(workers[0]) + HeldGroups(workers[1..])
  {}

  lemma Regroup(a: multiset<nat>, b: multiset<nat>, c: multiset<nat>)
    ensures (a + b) + c == (c + b) + a
  {}

  lemma RegroupRest(f: multiset<nat>, x: multiset<nat>, a: multiset<nat>, r: multiset<nat>, b: multiset<nat>)
    requires x + a == r + b
    ensures (f + x) + a == (f + r) + b
  {
    assert (f + x) + a == f + (x + a) && (f + r) + b == f + (r + b);
  }

  lemma {:induction false} HeldGroupsSize(workers: seq<Worker>, w: nat)
    ensures |HeldGroups(workers)| <= |workers|
    ensures w < |workers| && !workers[w].Holding? ==> |HeldGroups(workers)| < |workers|
    decreases |workers|
  {
    if workers != [] { HeldGroupsSize(workers[1..], if w == 0 then 0 else w - 1); }
  }

  lemma {:induction false} NoneHeld(workers: seq<Worker>)
    requires forall w :: 0 <= w < |workers| ==> !workers[w].Holding?
    ensures HeldGroups(workers) == multiset{}
    decreases |workers|
  {
    if workers != [] { NoneHeld(workers[1..]); }
  }

  /** A worker that does not wait, before and after. */
  lemma SameView(s: Policy, w: nat, worker: Worker)
    requires w < |s.workers| && !s.workers[w].Holding? && !worker.Holding?
    ensures HeldGroups(s.workers[w := worker]) == HeldGroups(s.workers)
  {
    HeldGroupsSet(s.workers, w, worker);
    assert HeldGroups(s.workers) + multiset{} == HeldGroups(s.workers);
    assert HeldGroups(s.workers[w := worker]) + multiset{} == HeldGroups(s.workers[w := worker]);
  }

  lemma WaitView(s: Policy, w: nat, c: Candidate)
    requires w < |s.workers| && !s.workers[w].Holding?
    ensures HeldGroups(s.workers[w := Holding(c)]) == HeldGroups(s.workers) + multiset{c.group}
  {
    HeldGroupsSet(s.workers, w, Holding(c));
    hide HeldGroups;
    assert HeldGroups(s.workers[w := Holding(c)]) + multiset{} == HeldGroups(s.workers[w := Holding(c)]);
  }

  // ---------------------------------------------------------------- each step is a move or none

  predicate Plain(a: Action) {
    match a
    case Begin(_, _, _, overflow, _) => !overflow
    case Refill(_, overflow, _) => !overflow
    case _ => true
  }

  /** An accepted reservation, when it is not refused. */
  predicate Taken(s: Policy, w: nat)
    requires w < |s.workers| && s.workers[w].Trying?
  {
    var c := s.workers[w].candidate;
    c.peer !in Peers(s.active) && !Full(s, c) && !Met(s)
  }

  lemma AcceptJoins(l: Limits, s: Policy, w: nat)
    requires s.limits == l && !s.overflow && |s.workers| <= l.concurrent && w < |s.workers| && s.workers[w].Trying?
             && Taken(s, w)
    ensures var g := s.workers[w].candidate.group;
            MayJoin(l, View(s), g) && View(Accept(s, w)) == Join(l, View(s), g)
  {
    var c, i := s.workers[w].candidate, Surplus(Groups(s.active));
    HeldGroupsSize(s.workers, w);
    hide HeldGroups, Cut, Surplus, Groups, Peers, Count, Known, SetWorker;
    if |s.active| >= l.required && i < |s.active| {
      CutParts(s.active, i);
      WaitView(s, w, c);
      AcceptWaits(s, w);
    } else {
      SnocParts(s.active, c);
      SameView(s, w, Idle);
      AcceptInserts(s, w);
    }
  }

  lemma AcceptWaits(s: Policy, w: nat)
    requires w < |s.workers| && s.workers[w].Trying? && Taken(s, w)
    requires |s.active| >= s.limits.required && Surplus(Groups(s.active)) < |s.active|
    ensures Accept(s, w).active == Cut(s.active, Surplus(Groups(s.active)))
    ensures Accept(s, w).workers == s.workers[w := Holding(s.workers[w].candidate)]
  {
    hide Cut, Surplus, Groups, Full, Met, Peers;
  }

  lemma AcceptInserts(s: Policy, w: nat)
    requires w < |s.workers| && s.workers[w].Trying? && Taken(s, w)
    requires !(|s.active| >= s.limits.required && Surplus(Groups(s.active)) < |s.active|)
    ensures Accept(s, w).active == s.active + [s.workers[w].candidate] && Accept(s, w).workers == s.workers[w := Idle]
  {
    hide Cut, Surplus, Groups, Full, Met, Peers, Exempt;
  }

  lemma AcceptRefuses(s: Policy, w: nat)
    requires w < |s.workers| && s.workers[w].Trying? && !Taken(s, w)
    ensures View(Accept(s, w)) == View(s)
  {
    SameView(s, w, Idle);
    hide HeldGroups, Surplus, Full, Met;
  }

  lemma KeepSeats(s: Policy, w: nat)
    requires w < |s.workers| && s.workers[w].Holding?
    ensures var c := s.workers[w].candidate;
            && c.group in View(s).held
            && View(SetWorker(Insert(s, c), w, Idle)) == Seat(View(s), c.group)
  {
    var c := s.workers[w].candidate;
    HeldGroupsSet(s.workers, w, Idle);
    SnocParts(s.active, c);
    hide HeldGroups;
    assert HeldGroups(s.workers) == HeldGroups(s.workers[w := Idle]) + multiset{c.group};
  }

  lemma {:induction false} DropAllThins(s: Policy, ps: seq<nat>)
    ensures var t := DropAll(s, ps);
            && multiset(Groups(t.active)) <= multiset(Groups(s.active))
            && t.workers == s.workers && t.limits == s.limits
            && (|t.active| == |s.active| ==> t.active == s.active) && |t.active| <= |s.active|
            && t.overflow == s.overflow && t.results == s.results
    decreases |ps|
  {
    if ps != [] {
      var i := Find(Peers(s.active), ps[0]);
      if i < |s.active| {
        CutParts(s.active, i);
        CutMultiset(Groups(s.active), i);
      }
      DropAllThins(Drop(s, ps[0]), ps[1..]);
    }
  }

  // ---------------------------------------------------------------- what acquisitions report

  /** Without overflow, `reserved` means enough reservations in enough known groups. */
  ghost predicate Honest(l: Limits, s: Policy) {
    && s.limits == l && !s.overflow && |s.workers| <= l.concurrent
    && forall r :: r in s.results && r.Reserved? ==> Enough(l, Groups(r.reservations))
  }

  lemma StepHonest(l: Limits, s: Policy, a: Action)
    requires Honest(l, s) && Enabled(s, a) && Plain(a)
    ensures Honest(l, Step(s, a))
  {
    hide Enough, Groups, Untried, DropAll, Peers, Separate, Take, Accept, Insert, Met;
    match a {
      case Begin(k, drops, _, _, _) => DropAllThins(s, drops);
      case Next(w, _, excluded, usable) => if s.cursor < |s.pending| { TakeHonest(s, w, excluded, usable); }
      case Accepted(w) => AcceptHonest(s, w);
      case Keep(w) => InsertHonest(s, s.workers[w].candidate);
      case Finish(_) => FinishHonest(l, s);
      case _ =>
    }
  }

  lemma TakeHonest(s: Policy, w: nat, excluded: set<nat>, usable: bool)
    requires w < |s.workers| && s.cursor < |s.pending|
    ensures var t := Take(s, w, excluded, usable); t.overflow == s.overflow && |t.workers| == |s.workers|
  {
    hide Full, Peers;
  }

  lemma AcceptHonest(s: Policy, w: nat)
    requires w < |s.workers| && s.workers[w].Trying?
    ensures Accept(s, w).overflow == s.overflow && |Accept(s, w).workers| == |s.workers|
  {
    hide Full, Met, Surplus, Peers, Cut, Exempt;
  }

  lemma InsertHonest(s: Policy, c: Candidate)
    ensures Insert(s, c).overflow == s.overflow && Insert(s, c).workers == s.workers
  {
    hide Exempt;
  }

  lemma FinishHonest(l: Limits, s: Policy)
    requires s.limits == l && !s.overflow
    ensures ResultOf(s).Reserved? ==>
              Enough(l, Groups(ResultOf(s).reservations)) && ResultOf(s).reservations == s.active
  {
    hide Enough, Groups, Peers;
  }

  // ---------------------------------------------------------------- staying within the cap

  ghost predicate WithinCap(l: Limits, cs: seq<Candidate>) {
    forall g :: Count(Groups(cs), g) <= l.cap
  }

  ghost predicate Kept(l: Limits, s: Policy)
    requires Proper(l)
  {
    && Honest(l, s) && Safe(l, View(s))
    && forall r :: r in s.results && r.Reserved? ==> WithinCap(l, r.reservations)
  }

  lemma SafeWithin(l: Limits, s: Policy)
    requires Proper(l) && Safe(l, View(s))
    ensures WithinCap(l, s.active)
  {
    hide Sized, Company, Crowd, Single;
    forall g ensures Count(Groups(s.active), g) <= l.cap { assert Load(View(s), g) <= l.cap; }
  }

  lemma SameResults(l: Limits, s: Policy, t: Policy)
    requires Proper(l) && Kept(l, s) && Honest(l, t) && t.results == s.results && Safe(l, View(t))
    ensures Kept(l, t)
  {
    hide Safe, Honest, WithinCap;
  }

  /** Between operations nobody waits, and reservations only go. */
  lemma Thinned(l: Limits, s: Policy, t: Policy)
    requires Proper(l) && Safe(l, View(s)) && (forall w :: 0 <= w < |s.workers| ==> !s.workers[w].Holding?)
    requires forall w :: 0 <= w < |t.workers| ==> !t.workers[w].Holding?
    requires multiset(Groups(t.active)) <= multiset(Groups(s.active))
    requires |t.active| == |s.active| ==> Groups(t.active) == Groups(s.active)
    ensures Safe(l, View(t))
  {
    NoneHeld(s.workers);
    NoneHeld(t.workers);
    hide Safe, HeldGroups;
    ThinSafe(l, View(s), Groups(t.active));
  }

  lemma BeginKept(l: Limits, s: Policy, a: Action)
    requires Proper(l) && Inv(s) && Kept(l, s) && a.Begin? && Enabled(s, a) && Plain(a)
    ensures Safe(l, View(Step(s, a)))
  {
    NoneRunning(s, a.op);
    DropAllThins(s, a.drops);
    hide Safe, Honest, WithinCap, Untried, DropAll, Owned, Conserved, Logged, Separate, Groups;
    if !s.stopped { Thinned(l, s, Step(s, a)); }
  }

  lemma StopEndKept(l: Limits, s: Policy)
    requires Proper(l) && Inv(s) && Kept(l, s) && Enabled(s, StopEnd)
    ensures Safe(l, View(Step(s, StopEnd)))
  {
    forall i | 0 <= i < |s.ops| ensures s.ops[i] != Running {
      assert i < s.tail - 1 || i == s.tail - 1 || s.tail <= i;
    }
    assert AllLeft(s);
    assert Groups([]) == [];
    hide Safe, Honest, WithinCap, Owned, Conserved, Logged, Groups;
    Thinned(l, s, Step(s, StopEnd));
  }

  lemma AcceptKept(l: Limits, s: Policy, w: nat)
    requires Proper(l) && !CanExceed(l) && Honest(l, s) && Safe(l, View(s)) && w < |s.workers| && s.workers[w].Trying?
    ensures Safe(l, View(Accept(s, w)))
  {
    hide Safe, View, Accept, Join, MayJoin, Taken, CanExceed;
    if Taken(s, w) {
      AcceptJoins(l, s, w);
      JoinSafe(l, View(s), s.workers[w].candidate.group);
    } else {
      AcceptRefuses(s, w);
    }
  }

  lemma WorkerKept(l: Limits, s: Policy, a: Action)
    requires Proper(l) && !CanExceed(l) && Kept(l, s) && Enabled(s, a) && (a.Next? || a.Fail? || a.Accepted? || a.Keep?)
    ensures Safe(l, View(Step(s, a))) && Step(s, a).results == s.results
  {
    hide Safe, Accept, Met, Full, Seat, CanExceed, HeldGroups, Insert, WithinCap;
    match a {
      case Next(w, abort, _, _) =>
        SameView(s, w, Left);
        if s.cursor < |s.pending| { SameView(s, w, Trying(s.pending[s.cursor])); }
      case Fail(w) => SameView(s, w, Idle);
      case Accepted(w) => AcceptKept(l, s, w);
      case Keep(w) =>
        KeepSeats(s, w);
        SeatSafe(l, View(s), s.workers[w].candidate.group);
    }
  }

  lemma StepKept(l: Limits, s: Policy, a: Action)
    requires Proper(l) && !CanExceed(l) && Inv(s) && Kept(l, s) && Enabled(s, a) && Plain(a)
    ensures Kept(l, Step(s, a))
  {
    StepHonest(l, s, a);
    var t := Step(s, a);
    SafeWithin(l, s);
    hide Inv, Safe, Honest, CanExceed, Separate, Untried, DropAll, Accept, Take, WithinCap, Groups, HeldGroups;
    match a {
      case Begin(_, drops, _, _, _) =>
        DropAllThins(s, drops);
        BeginKept(l, s, a);
        SameResults(l, s, t);
      case Refill(_, _, _) =>
        Refilled(l, s, a);
        SameResults(l, s, t);
      case Finish(_) =>
      case StopEnd =>
        StopEndKept(l, s);
        SameResults(l, s, t);
      case Enqueue =>
      case Stop =>
      case Next(_, _, _, _) => WorkerKept(l, s, a); SameResults(l, s, t);
      case Fail(_) => WorkerKept(l, s, a); SameResults(l, s, t);
      case Accepted(_) => WorkerKept(l, s, a); SameResults(l, s, t);
      case Keep(_) => WorkerKept(l, s, a); SameResults(l, s, t);
    }
  }

  lemma Refilled(l: Limits, s: Policy, a: Action)
    requires Proper(l) && Kept(l, s) && a.Refill? && Enabled(s, a)
    ensures Safe(l, View(Step(s, a)))
  {
    hide Safe, Honest, Untried, WithinCap, Separate;
    Thinned(l, s, Step(s, a));
  }
}
