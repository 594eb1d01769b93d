/** Every play of the table is a run of the policy from the start, with a suitable pool of candidates. */
module RelayPlays {
  import opened RelayPolicy
  import opened RelayGroups
  import opened RelayRuns
  import opened RelayCap

  // ---------------------------------------------------------------- runs

  lemma {:induction false} RunConcat(s: Policy, x: seq<Action>, y: seq<Action>)
    ensures Run(s, x + y) == Run(Run(s, x), y)
    decreases |x|
  {
    hide Apply;
    if x == [] {
      assert x + y == y;
    } else {
      assert (x + y)[1..] == x[1..] + y;
      RunConcat(Apply(s, x[0]), x[1..], y);
    }
  }

  lemma RunNone(s: Policy)
    ensures Run(s, []) == s
  {}

  lemma RunOne(s: Policy, a: Action)
    ensures Run(s, [a]) == Apply(s, a)
  {
    hide Apply;
    assert [a][1..] == [];
    RunNone(Apply(s, a));
  }

  lemma RunTwo(s: Policy, a: Action, b: Action)
    ensures Run(s, [a, b]) == Apply(Apply(s, a), b)
  {
    hide *;
    RunOne(s, a);
    RunOne(Apply(s, a), b);
    assert [a] + [b] == [a, b];
    RunConcat(s, [a], [b]);
  }

  lemma Applied(s: Policy, a: Action)
    requires Enabled(s, a)
    ensures Apply(s, a) == Step(s, a)
  {}

  ghost predicate AllPlain(actions: seq<Action>) {
    forall i :: 0 <= i < |actions| ==> Plain(actions[i])
  }

  // ---------------------------------------------------------------- states seen as tables

  /** Idle or waiting. */
  predicate AtRest(w: Worker) { w == Idle || w.Holding? }

  ghost predicate AllAtRest(workers: seq<Worker>) {
    forall w :: 0 <= w < |workers| ==> AtRest(workers[w])
  }

  predicate Staffed(l: Limits, s: Policy) {
    |s.workers| == if |s.pending| < l.concurrent then |s.pending| else l.concurrent
  }

  /** A state whose workers are all idle or waiting, seen as a table. */
  ghost predicate Mirrors(l: Limits, s: Policy, t: Table) {
    && Inv(s) && s.limits == l && !s.overflow && View(s) == t && |t.held| <= s.cursor
    && Staffed(l, s) && AllAtRest(s.workers)
  }

  lemma MirrorParts(l: Limits, s: Policy, t: Table)
    requires Mirrors(l, s, t)
    ensures Inv(s) && s.limits == l && !s.overflow && View(s) == t && |t.held| <= s.cursor
    ensures Staffed(l, s) && AllAtRest(s.workers) && |s.workers| <= l.concurrent
    ensures Groups(s.active) == t.active && HeldGroups(s.workers) == t.held
  {
    hide Inv, HeldGroups, Groups;
  }

  lemma MakeMirrors(l: Limits, s: Policy, t: Table)
    requires Inv(s) && s.limits == l && !s.overflow && View(s) == t && |t.held| <= s.cursor && Staffed(l, s)
             && AllAtRest(s.workers)
    ensures Mirrors(l, s, t)
  {}

  lemma {:induction false} IdleWorker(workers: seq<Worker>) returns (w: nat)
    requires |HeldGroups(workers)| < |workers| && AllAtRest(workers)
    ensures w < |workers| && workers[w] == Idle
    decreases |workers|
  {
    if workers[0] == Idle {
      w := 0;
    } else {
      assert AtRest(workers[0]);
      assert HeldGroups(workers) == multiset{workers[0].candidate.group} + HeldGroups(workers[1..]);
      w := IdleWorker(workers[1..]);
      w := w + 1;
    }
  }

  lemma {:induction false} HoldingWorker(workers: seq<Worker>, g: nat) returns (w: nat)
    requires g in HeldGroups(workers)
    ensures w < |workers| && workers[w].Holding? && workers[w].candidate.group == g
    decreases |workers|
  {
    if workers[0].Holding? && workers[0].candidate.group == g {
      w := 0;
    } else {
      assert g in HeldGroups(workers[1..]);
      w := HoldingWorker(workers[1..], g);
      w := w + 1;
    }
  }

  lemma RestSet(workers: seq<Worker>, w: nat, worker: Worker)
    requires w < |workers| && AtRest(worker) && forall v :: 0 <= v < |workers| && v != w ==> AtRest(workers[v])
    ensures AllAtRest(workers[w := worker])
  {}

  // ---------------------------------------------------------------- one move

  /** Some worker is idle while there is a place and a candidate left. */
  lemma PickIdle(l: Limits, s: Policy, t: Table) returns (w: nat)
    requires Mirrors(l, s, t) && |t.held| < l.concurrent && s.cursor < |s.pending|
    ensures w < |s.workers| && s.workers[w] == Idle
  {
    hide Inv, Groups;
    w := IdleWorker(s.workers);
  }

  /** An idle worker takes the next candidate of the pool and tries it. */
  lemma TriesNext(l: Limits, s: Policy, w: nat, g: nat)
    requires Inv(s) && s.limits == l && !s.overflow && w < |s.workers| && s.workers[w] == Idle && s.cursor < |s.pending|
    requires s.pending[s.cursor].group == g && !Enough(l, Groups(s.active)) && Count(Groups(s.active), g) < l.cap
    ensures Enabled(s, Next(w, false, {}, true))
    ensures var r, c := Step(s, Next(w, false, {}, true)), s.pending[s.cursor];
            && Inv(r) && r.workers == s.workers[w := Trying(c)] && r.active == s.active && r.cursor == s.cursor + 1
            && r.pending == s.pending && r.limits == l && !r.overflow && Taken(r, w)
  {
    StepKeeps(s, Next(w, false, {}, true));
    var c := s.pending[s.cursor];
    assert c.peer !in Peers(s.active);
    hide Inv, Enough, Count, Groups, Peers;
  }

  lemma AcceptFrame(s: Policy, w: nat)
    requires w < |s.workers| && s.workers[w].Trying?
    ensures var t := Accept(s, w);
            && t.pending == s.pending && t.cursor == s.cursor && t.limits == s.limits && t.overflow == s.overflow
            && w < |t.workers| && t.workers == s.workers[w := t.workers[w]] && AtRest(t.workers[w])
  {
    hide Full, Met, Surplus, Peers, Cut, Exempt;
  }

  lemma JoinHeld(l: Limits, t: Table, g: nat)
    ensures |Join(l, t, g).held| <= |t.held| + 1
  {
    hide Cut, Surplus;
  }

  lemma Accepts(l: Limits, r: Policy, w: nat, t: Table)
    requires Inv(r) && r.limits == l && !r.overflow && w < |r.workers| && r.workers[w].Trying? && Taken(r, w)
    requires View(r) == t && |t.held| < r.cursor && Staffed(l, r) && |r.workers| <= l.concurrent
    requires forall v :: 0 <= v < |r.workers| && v != w ==> AtRest(r.workers[v])
    ensures Enabled(r, Accepted(w)) && Mirrors(l, Step(r, Accepted(w)), Join(l, t, r.workers[w].candidate.group))
    ensures Step(r, Accepted(w)).pending == r.pending && Step(r, Accepted(w)).cursor == r.cursor
  {
    var u := Accept(r, w);
    assert Step(r, Accepted(w)) == u;
    StepKeeps(r, Accepted(w));
    AcceptFrame(r, w);
    hide *;
    AcceptJoins(l, r, w);
    JoinHeld(l, t, r.workers[w].candidate.group);
    RestSet(r.workers, w, u.workers[w]);
    StaffSame(l, r, u);
    MakeMirrors(l, u, Join(l, t, r.workers[w].candidate.group));
  }

  lemma StaffSame(l: Limits, s: Policy, t: Policy)
    requires Staffed(l, s) && |t.workers| == |s.workers| && t.pending == s.pending
    ensures Staffed(l, t)
  {}

  lemma RealizeJoin(l: Limits, s: Policy, t: Table, g: nat) returns (actions: seq<Action>, u: Policy)
    requires Mirrors(l, s, t) && MayJoin(l, t, g) && s.cursor < |s.pending| && s.pending[s.cursor].group == g
    ensures AllPlain(actions) && u == Run(s, actions) && Mirrors(l, u, Join(l, t, g))
    ensures u.pending == s.pending && u.cursor == s.cursor + 1
  {
    MirrorParts(l, s, t);
    JoinParts(l, t, g);
    hide *;
    var w := PickIdle(l, s, t);
    TriesNext(l, s, w, g);
    var a, b := Next(w, false, {}, true), Accepted(w);
    var r := Step(s, a);
    SameView(s, w, r.workers[w]);
    ViewSame(s, r);
    StaffSame(l, s, r);
    Tried(s.workers, w, r.workers[w], r.workers);
    Accepts(l, r, w, t);
    u := Step(r, b);
    actions := [a, b];
    Applied(s, a);
    Applied(r, b);
    RunTwo(s, a, b);
    PlainPair(w);
  }

  lemma JoinParts(l: Limits, t: Table, g: nat)
    requires MayJoin(l, t, g)
    ensures |t.held| < l.concurrent && !Enough(l, t.active) && Count(t.active, g) < l.cap
  {}

  lemma ViewSame(s: Policy, r: Policy)
    requires r.active == s.active && HeldGroups(r.workers) == HeldGroups(s.workers)
    ensures View(r) == View(s)
  {}

  lemma Tried(workers: seq<Worker>, w: nat, worker: Worker, after: seq<Worker>)
    requires w < |workers| && AllAtRest(workers) && after == workers[w := worker]
    ensures forall v :: 0 <= v < |after| && v != w ==> AtRest(after[v])
  {}

  lemma PlainPair(w: nat)
    ensures AllPlain([Next(w, false, {}, true), Accepted(w)]) && AllPlain([Keep(w)])
  {}

  lemma KeepFrame(s: Policy, w: nat)
    requires w < |s.workers| && s.workers[w].Holding?
    ensures Enabled(s, Keep(w))
    ensures var u := Step(s, Keep(w));
            && u == SetWorker(Insert(s, s.workers[w].candidate), w, Idle) && u.workers == s.workers[w := Idle]
            && u.pending == s.pending && u.cursor == s.cursor && u.limits == s.limits && u.overflow == s.overflow
  {
    hide Exempt;
  }

  lemma RealizeSeat(l: Limits, s: Policy, t: Table, g: nat) returns (actions: seq<Action>, u: Policy)
    requires Mirrors(l, s, t) && g in t.held
    ensures AllPlain(actions) && u == Run(s, actions) && Mirrors(l, u, Seat(t, g))
    ensures u.pending == s.pending && u.cursor == s.cursor
  {
    MirrorParts(l, s, t);
    SeatHeld(t, g);
    hide *;
    var w := HoldingWorker(s.workers, g);
    KeepFrame(s, w);
    StepKeeps(s, Keep(w));
    KeepSeats(s, w);
    u := Step(s, Keep(w));
    OthersRest(s.workers, w);
    RestSet(s.workers, w, Idle);
    StaffSame(l, s, u);
    MakeMirrors(l, u, Seat(t, g));
    actions := [Keep(w)];
    Applied(s, Keep(w));
    RunOne(s, Keep(w));
    PlainPair(w);
  }

  lemma OthersRest(workers: seq<Worker>, w: nat)
    requires AllAtRest(workers)
    ensures (forall v :: 0 <= v < |workers| && v != w ==> AtRest(workers[v])) && AtRest(Idle)
  {}

  lemma SeatHeld(t: Table, g: nat)
    requires g in t.held
    ensures |Seat(t, g).held| <= |t.held|
  {}

  // ---------------------------------------------------------------- whole plays

  /** The groups that a play wants to join, in order. */
  function Wanted(moves: seq<Move>): seq<nat> {
    if moves == [] then [] else (if moves[0].Joins? then [moves[0].group] else []) + Wanted(moves[1..])
  }

  lemma JoinWanted(pending: seq<Candidate>, cursor: nat, moves: seq<Move>)
    requires cursor <= |pending| && Groups(pending[cursor..]) == Wanted(moves) && moves != []
    ensures moves[0].Joins? ==>
              && cursor < |pending| && pending[cursor].group == moves[0].group
              && Groups(pending[cursor + 1..]) == Wanted(moves[1..])
    ensures !moves[0].Joins? ==> Groups(pending[cursor..]) == Wanted(moves[1..])
  {
    var rest := Wanted(moves[1..]);
    if moves[0].Joins? {
      assert Wanted(moves) == [moves[0].group] + rest;
      assert pending[cursor..][0] == pending[cursor] && pending[cursor..][1..] == pending[cursor + 1..];
      assert Groups(pending[cursor + 1..]) == Groups(pending[cursor..])[1..];
    } else {
      assert [] + rest == rest;
    }
  }

  lemma PlaysParts(l: Limits, t: Table, moves: seq<Move>, u: Table)
    requires Plays(l, t, moves, u)
    ensures moves == [] ==> t == u
    ensures moves != [] ==> Legal(l, t, moves[0]) && Plays(l, Moved(l, t, moves[0]), moves[1..], u)
  {}

  lemma AllPlainJoin(x: seq<Action>, y: seq<Action>)
    requires AllPlain(x) && AllPlain(y)
    ensures AllPlain(x + y)
  {}

  lemma MoveParts(l: Limits, t: Table, m: Move)
    requires Legal(l, t, m)
    ensures m.Joins? ==> MayJoin(l, t, m.group) && Moved(l, t, m) == Join(l, t, m.group)
    ensures m.Seats? ==> m.group in t.held && Moved(l, t, m) == Seat(t, m.group)
  {}

  lemma {:induction false} Realize(l: Limits, s: Policy, t: Table, moves: seq<Move>, u: Table)
    returns (actions: seq<Action>, r: Policy)
    requires Mirrors(l, s, t) && Plays(l, t, moves, u)
    requires s.cursor <= |s.pending| && Groups(s.pending[s.cursor..]) == Wanted(moves)
    ensures AllPlain(actions) && r == Run(s, actions) && Mirrors(l, r, u) && r.pending == s.pending
    decreases |moves|
  {
    PlaysParts(l, t, moves, u);
    if moves == [] {
      actions, r := [], s;
      RunNone(s);
    } else {
      hide *;
      JoinWanted(s.pending, s.cursor, moves);
      MoveParts(l, t, moves[0]);
      var first, next;
      if moves[0].Joins? {
        first, next := RealizeJoin(l, s, t, moves[0].group);
      } else {
        first, next := RealizeSeat(l, s, t, moves[0].group);
      }
      var rest;
      rest, r := Realize(l, next, Moved(l, t, moves[0]), moves[1..], u);
      actions := first + rest;
      RunConcat(s, first, rest);
      AllPlainJoin(first, rest);
    }
  }

  // ---------------------------------------------------------------- from the start

  function Pool(gs: seq<nat>): (r: seq<Candidate>)
    ensures |r| == |gs| && Groups(r) == gs
  {
    var r := seq(|gs|, i requires 0 <= i < |gs| => Candidate(i, gs[i]));
    assert Groups(r) == gs;
    r
  }

  lemma PoolSeparate(gs: seq<nat>)
    ensures Separate(Pool(gs))
  {}

  lemma {:induction false} AllUntried(s: Policy, pool: seq<Candidate>)
    requires s.active == [] && s.attempted == {}
    ensures Untried(s, pool) == pool
    decreases |pool|
  {
    if pool != [] {
      AllUntried(s, pool[1..]);
      assert Peers(s.active) == [];
      assert [pool[0]] + pool[1..] == pool;
    }
  }

  /** The state after the first operation of a fresh policy was begun. */
  lemma BegunState(l: Limits, first: Policy, pool: seq<Candidate>)
    requires first == Fresh(l).(ops := [Waiting]) && Separate(pool)
    ensures var b := Begin(0, [], pool, false, {});
            && Enabled(first, b)
            && var s := Step(first, b);
               && s.limits == l && !s.overflow && s.active == [] && s.pending == pool && s.cursor == 0
               && (forall w :: 0 <= w < |s.workers| ==> s.workers[w] == Idle) && Staffed(l, s)
  {
    hide Untried, Separate;
    var none: seq<nat> := [];
    assert (set p | p in none) == {};
    AllUntried(first.(ops := first.ops[0 := Running], op := 0, attempted := set p | p in none), pool);
  }

  /** The first operation of a fresh policy with a chosen pool. */
  lemma Opens(l: Limits, gs: seq<nat>) returns (actions: seq<Action>, s: Policy)
    ensures AllPlain(actions) && s == Run(Fresh(l), actions) && Mirrors(l, s, EMPTY) && s.cursor == 0
            && s.pending == Pool(gs)
  {
    var a, b := Enqueue, Begin(0, [], Pool(gs), false, {});
    var first := Fresh(l).(ops := [Waiting]);
    assert Enabled(Fresh(l), a) && Step(Fresh(l), a) == first by { assert [] + [Waiting] == [Waiting]; }
    assert AllPlain([a, b]);
    PoolSeparate(gs);
    BegunState(l, first, Pool(gs));
    hide *;
    FreshInv(l);
    StepKeeps(Fresh(l), a);
    StepKeeps(first, b);
    s := Step(first, b);
    NoneHeld(s.workers);
    BegunView(s);
    MakeMirrors(l, s, EMPTY);
    actions := [a, b];
    Applied(Fresh(l), a);
    Applied(first, b);
    RunTwo(Fresh(l), a, b);
  }

  lemma BegunView(s: Policy)
    requires s.active == [] && HeldGroups(s.workers) == multiset{}
    requires forall w :: 0 <= w < |s.workers| ==> s.workers[w] == Idle
    ensures View(s) == EMPTY && AllAtRest(s.workers) && |EMPTY.held| == 0
  {
    assert Groups([]) == [];
  }

  /** A play that exceeds the cap is a run that does. */
  lemma Overrun(l: Limits) returns (actions: seq<Action>)
    requires Proper(l) && CanExceed(l)
    ensures AllPlain(actions) && !WithinCap(l, Run(Fresh(l), actions).active)
  {
    hide *;
    var moves, u, g := CapExceeded(l);
    ExceedsParts(l, moves, u, g);
    var first, s := Opens(l, Wanted(moves));
    FromTheStart(s.pending);
    var rest, r := Realize(l, s, EMPTY, moves, u);
    actions := first + rest;
    RunConcat(Fresh(l), first, rest);
    AllPlainJoin(first, rest);
    MirrorParts(l, r, u);
    OverCap(l, r.active, g);
  }

  lemma ExceedsParts(l: Limits, moves: seq<Move>, u: Table, g: nat)
    requires Exceeds(l, moves, u, g)
    ensures Plays(l, EMPTY, moves, u) && Count(u.active, g) > l.cap
  {}

  lemma FromTheStart(cs: seq<Candidate>)
    ensures cs[0..] == cs
  {}

  lemma OverCap(l: Limits, cs: seq<Candidate>, g: nat)
    requires Count(Groups(cs), g) > l.cap
    ensures !WithinCap(l, cs)
  {}

  // ---------------------------------------------------------------- the theorems

  lemma FreshKept(l: Limits)
    requires Proper(l)
    ensures Kept(l, Fresh(l))
  {
    assert Groups([]) == [];
    hide Safe;
    EmptySafe(l);
  }

  lemma {:induction false} RunKept(l: Limits, s: Policy, actions: seq<Action>)
    requires Proper(l) && !CanExceed(l) && Inv(s) && Kept(l, s) && AllPlain(actions)
    ensures Kept(l, Run(s, actions))
    decreases |actions|
  {
    hide Inv, Kept, Step, Enabled, Plain, Proper, CanExceed;
    if actions != [] {
      if Enabled(s, actions[0]) {
        StepKept(l, s, actions[0]);
        StepKeeps(s, actions[0]);
      }
      RunKept(l, Apply(s, actions[0]), actions[1..]);
    }
  }

  lemma KeptRun(l: Limits, actions: seq<Action>)
    requires Proper(l) && !CanExceed(l) && AllPlain(actions)
    ensures Kept(l, Run(Fresh(l), actions))
  {
    hide *;
    FreshInv(l);
    FreshKept(l);
    RunKept(l, Fresh(l), actions);
  }

  lemma KeptWithin(l: Limits, s: Policy)
    requires Proper(l) && Kept(l, s)
    ensures WithinCap(l, s.active)
  {
    hide Safe, WithinCap, Honest;
    SafeWithin(l, s);
  }

  /**
   Without overflow, no run ever has more reservations of a group than its cap, exactly when the limits
   are not among those that a suitable pool and interleaving exceed.
   */
  lemma CapExact(l: Limits)
    requires Proper(l)
    ensures (forall actions :: AllPlain(actions) ==> WithinCap(l, Run(Fresh(l), actions).active)) <==> !CanExceed(l)
  {
    hide *;
    if CanExceed(l) {
      var actions := Overrun(l);
    } else {
      forall actions | AllPlain(actions) ensures WithinCap(l, Run(Fresh(l), actions).active) {
        KeptRun(l, actions);
        KeptWithin(l, Run(Fresh(l), actions));
      }
    }
  }

  lemma {:induction false} RunHonest(l: Limits, s: Policy, actions: seq<Action>)
    requires Honest(l, s) && AllPlain(actions)
    ensures Honest(l, Run(s, actions))
    decreases |actions|
  {
    hide Honest, Step, Enabled, Plain;
    if actions != [] {
      if Enabled(s, actions[0]) { StepHonest(l, s, actions[0]); }
      RunHonest(l, Apply(s, actions[0]), actions[1..]);
    }
  }

  /** Without overflow, every acquisition that reported `reserved` had enough reservations in enough known groups. */
  lemma ReservedMeansEnough(l: Limits, actions: seq<Action>)
    requires AllPlain(actions)
    ensures var s := Run(Fresh(l), actions);
            forall r :: r in s.results && r.Reserved? ==>
              |r.reservations| >= l.required && |Known(Groups(r.reservations))| >= l.groups
  {
    RunHonest(l, Fresh(l), actions);
    hide Run, Groups, Known;
  }

  /** No two reservations in one group. */
  ghost predicate Diverse(cs: seq<Candidate>) {
    forall i, j :: 0 <= i < j < |cs| ==> cs[i].group != cs[j].group
  }

  lemma CapOneDiverse(l: Limits, cs: seq<Candidate>)
    requires l.cap == 1 && WithinCap(l, cs)
    ensures Diverse(cs)
  {
    forall i, j | 0 <= i < j < |cs| ensures cs[i].group != cs[j].group {
      var gs := Groups(cs);
      assert gs[i] == cs[i].group && gs[j] == cs[j].group;
      if gs[i] == gs[j] { TwiceCounted(gs, i, j); }
    }
  }

  lemma TwiceCounted(gs: seq<nat>, i: nat, j: nat)
    requires i < j < |gs| && gs[i] == gs[j]
    ensures Count(gs, gs[i]) >= 2
  {
    assert gs == gs[..i] + [gs[i]] + gs[i + 1..j] + [gs[j]] + gs[j + 1..];
  }

  /**
   With a cap of one and no overflow, over every interleaving: no group ever has two reservations, at
   most one more than required is active, nobody waits, and what is reported as reserved is diverse.
   */
  lemma RelayDiversity(l: Limits, actions: seq<Action>)
    requires Proper(l) && l.cap == 1 && AllPlain(actions)
    ensures var s := Run(Fresh(l), actions);
            && Diverse(s.active) && |s.active| <= l.required + 1
            && (forall w :: 0 <= w < |s.workers| ==> !s.workers[w].Holding?)
            && (forall r :: r in s.results && r.Reserved? ==>
                  && Diverse(r.reservations)
                  && |r.reservations| >= l.required && |Known(Groups(r.reservations))| >= l.groups)
  {
    assert !CanExceed(l);
    hide *;
    var s := Run(Fresh(l), actions);
    KeptRun(l, actions);
    ReservedMeansEnough(l, actions);
    KeptSingle(l, s);
  }

  lemma KeptSingle(l: Limits, s: Policy)
    requires Proper(l) && l.cap == 1 && Kept(l, s)
    ensures Diverse(s.active) && |s.active| <= l.required + 1
    ensures forall w :: 0 <= w < |s.workers| ==> !s.workers[w].Holding?
    ensures forall r :: r in s.results && r.Reserved? ==> Diverse(r.reservations)
  {
    hide Sized, Company, Crowd, WithinCap, Diverse, HeldGroups;
    SafeWithin(l, s);
    CapOneDiverse(l, s.active);
    forall w | 0 <= w < |s.workers| ensures !s.workers[w].Holding? { WaiterSeen(s.workers, w); }
    forall r | r in s.results && r.Reserved? ensures Diverse(r.reservations) { CapOneDiverse(l, r.reservations); }
  }

  lemma {:induction false} WaiterSeen(workers: seq<Worker>, w: nat)
    requires w < |workers|
    ensures workers[w].Holding? ==> HeldGroups(workers) != multiset{}
    decreases |workers|
  {
    if w == 0 {
      if workers[0].Holding? { assert workers[0].candidate.group in HeldGroups(workers); }
    } else {
      WaiterSeen(workers[1..], w - 1);
      if workers[w].Holding? {
        var g :| g in HeldGroups(workers[1..]);
        assert g in HeldGroups(workers);
      }
    }
  }
}
