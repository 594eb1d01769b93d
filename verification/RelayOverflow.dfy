/**
 Runs of the relay policy with overflow.

 In an overflow phase anonymous candidates of the overflow tier are exempt from the cap of their group,
 and enough reservations with one of them among these also count as enough.
 */
module RelayOverflow {
  import opened RelayPolicy
  import opened RelayGroups
  import opened RelayRuns
  import opened RelayCap
  import opened RelayPlays
  import opened RelayReports

  // ---------------------------------------------------------------- who counts as degraded

  /** Everything remembered as degraded is an active reservation of the unknown group. */
  ghost predicate Anonymous(s: Policy) {
    forall p :: p in s.degraded ==> exists i :: 0 <= i < |s.active| && s.active[i] == Candidate(p, UNKNOWN)
  }

  lemma InsertAnonymous(s: Policy, c: Candidate)
    requires Anonymous(s)
    ensures Anonymous(Insert(s, c))
  {
    var t := Insert(s, c);
    forall p | p in t.degraded ensures exists i :: 0 <= i < |t.active| && t.active[i] == Candidate(p, UNKNOWN) {
      if p in s.degraded {
        var i :| 0 <= i < |s.active| && s.active[i] == Candidate(p, UNKNOWN);
        assert t.active[i] == s.active[i];
      } else {
        assert t.active[|s.active|] == c;
      }
    }
  }

  lemma DropAnonymous(s: Policy, i: nat)
    requires Anonymous(s) && i < |s.active|
    ensures Anonymous(DropAt(s, i))
  {
    var t := DropAt(s, i);
    forall p | p in t.degraded ensures exists j :: 0 <= j < |t.active| && t.active[j] == Candidate(p, UNKNOWN) {
      var j :| 0 <= j < |s.active| && s.active[j] == Candidate(p, UNKNOWN);
      assert j != i;
      assert t.active[if j < i then j else j - 1] == s.active[j];
    }
  }

  lemma {:induction false} DropAllAnonymous(s: Policy, ps: seq<nat>)
    requires Anonymous(s)
    ensures Anonymous(DropAll(s, ps))
    decreases |ps|
  {
    if ps != [] {
      var i := Find(Peers(s.active), ps[0]);
      if i < |s.active| { DropAnonymous(s, i); }
      hide Anonymous, Peers, Find;
      DropAllAnonymous(Drop(s, ps[0]), ps[1..]);
    }
  }

  lemma SameAnonymous(s: Policy, t: Policy)
    requires Anonymous(s) && t.active == s.active && t.degraded == s.degraded
    ensures Anonymous(t)
  {}

  lemma AcceptAnonymous(s: Policy, w: nat)
    requires Anonymous(s) && w < |s.workers| && s.workers[w].Trying?
    ensures Anonymous(Accept(s, w))
  {
    var c := s.workers[w].candidate;
    var t := s.(granted := s.granted + multiset{c.peer});
    var i := Surplus(Groups(s.active));
    SameAnonymous(s, t);
    InsertAnonymous(t, c);
    if i < |s.active| { DropAnonymous(t, i); }
    hide Anonymous, Groups, Peers, Surplus, Full, Met, Insert, DropAt;
    if c.peer in Peers(s.active) || Full(s, c) || Met(s) {
      SameAnonymous(s, Accept(s, w));
    } else if |s.active| >= s.limits.required && i < |s.active| {
      SameAnonymous(DropAt(t, i), Accept(s, w));
    } else {
      SameAnonymous(Insert(t, c), Accept(s, w));
    }
  }

  lemma BeginAnonymous(s: Policy, a: Action)
    requires Anonymous(s) && Enabled(s, a) && a.Begin?
    ensures Anonymous(Step(s, a))
  {
    hide Anonymous, Untried, Separate, DropAll;
    DropAllAnonymous(s, a.drops);
    if s.stopped { SameAnonymous(s, Step(s, a)); } else { SameAnonymous(DropAll(s, a.drops), Step(s, a)); }
  }

  lemma StepAnonymous(s: Policy, a: Action)
    requires Anonymous(s) && Enabled(s, a)
    ensures Anonymous(Step(s, a))
  {
    match a {
      case Begin(_, _, _, _, _) => BeginAnonymous(s, a);
      case Accepted(w) => AcceptAnonymous(s, w);
      case Keep(w) =>
        InsertAnonymous(s, s.workers[w].candidate);
        hide Anonymous;
        SameAnonymous(Insert(s, s.workers[w].candidate), Step(s, a));
      case StopEnd =>
      case Next(w, _, excluded, usable) =>
        hide Anonymous, Met, Groups, Known, Peers, Full;
        SameAnonymous(s, Step(s, a));
      case _ =>
        hide Anonymous, Untried, Met, Separate;
        SameAnonymous(s, Step(s, a));
    }
  }

  lemma {:induction false} RunAnonymous(s: Policy, actions: seq<Action>)
    requires Anonymous(s)
    ensures Anonymous(Run(s, actions))
    decreases |actions|
  {
    hide Anonymous, Step, Enabled;
    if actions != [] {
      if Enabled(s, actions[0]) { StepAnonymous(s, actions[0]); }
      RunAnonymous(Apply(s, actions[0]), actions[1..]);
    }
  }

  lemma {:induction false} RunLimits(s: Policy, actions: seq<Action>)
    ensures Run(s, actions).limits == s.limits
    decreases |actions|
  {
    hide Step, Enabled;
    if actions != [] {
      if Enabled(s, actions[0]) { StepLimits(s, actions[0]); }
      RunLimits(Apply(s, actions[0]), actions[1..]);
    }
  }

  lemma StepLimits(s: Policy, a: Action)
    requires Enabled(s, a)
    ensures Step(s, a).limits == s.limits
  {
    hide Take, Accept, Insert, Untried, Met, Separate, DropAll;
    if a.Begin? { DropAllLimits(s, a.drops); }
  }

  lemma {:induction false} DropAllLimits(s: Policy, ps: seq<nat>)
    ensures DropAll(s, ps).limits == s.limits
    decreases |ps|
  {
    if ps != [] { DropAllLimits(Drop(s, ps[0]), ps[1..]); }
  }

  // ---------------------------------------------------------------- what is reported

  /** Some active reservation is remembered as degraded. */
  predicate HasDegraded(s: Policy) {
    s.degraded != {}
  }

  /**
   In every run, with or without overflow, an operation that finishes reports what is active as
   reserved if and only if it is enough in enough known groups, or, in an overflow phase, enough with
   a degraded reservation among it; degraded reservations are active and of the unknown group.
   */
  lemma OverflowReports(l: Limits, actions: seq<Action>, k: nat)
    requires Enabled(Run(Fresh(l), actions), Finish(k))
    ensures var s := Run(Fresh(l), actions);
            && Anonymous(s)
            && Step(s, Finish(k)).results
               == s.results + [if Fulfilled(l, s.active) || (s.overflow && |s.active| >= l.required && HasDegraded(s))
                               then Reserved(s.active) else Unreserved]
  {
    var s := Run(Fresh(l), actions);
    assert Anonymous(Fresh(l));
    RunAnonymous(Fresh(l), actions);
    RunLimits(Fresh(l), actions);
    hide Run;
    DegradedActive(s);
    hide Anonymous, Groups, Known, Peers;
  }

  lemma DegradedActive(s: Policy)
    requires Anonymous(s)
    ensures (exists p :: p in s.degraded && p in Peers(s.active)) <==> HasDegraded(s)
  {
    if HasDegraded(s) {
      var p :| p in s.degraded;
      var i :| 0 <= i < |s.active| && s.active[i] == Candidate(p, UNKNOWN);
      assert Peers(s.active)[i] == p;
    }
  }

  // ---------------------------------------------------------------- what is tried and kept

  /** Room for the candidate: its group is below the cap, or it is an anonymous one of the overflow tier. */
  predicate Room(s: Policy, c: Candidate) {
    || Count(Groups(s.active), c.group) < s.limits.cap
    || (s.overflow && c.peer in s.exempt && c.group == UNKNOWN)
  }

  /**
   A worker tries only the next candidate of the pool, when it is not active, not of an excluded group,
   has an address and room, and the requirement is not met.
   */
  lemma TriesSensibly(s: Policy, w: nat, abort: bool, excluded: set<nat>, usable: bool)
    requires Enabled(s, Next(w, abort, excluded, usable))
    ensures var t := Step(s, Next(w, abort, excluded, usable));
            t.workers[w].Trying? <==>
              && !abort && usable && s.cursor < |s.pending| && !Fulfilled(s.limits, s.active)
              && !(s.overflow && |s.active| >= s.limits.required && exists p :: p in s.degraded && p in Peers(s.active))
              && var c := s.pending[s.cursor];
                 && t.workers[w] == Trying(c) && c.peer !in Peers(s.active) && c.group !in excluded && Room(s, c)
  {
    hide Groups, Known, Peers, Count;
  }

  // ---------------------------------------------------------------- overflow is enough

  /** `q` anonymous candidates. */
  function Strangers(q: nat): (r: seq<nat>)
    ensures |r| == q && forall i :: 0 <= i < q ==> r[i] == UNKNOWN
  {
    seq(q, _ => UNKNOWN)
  }

  /** The first `i` anonymous candidates are active, and all workers are idle. */
  ghost predicate Filling(l: Limits, s: Policy, i: nat) {
    var pool := Pool(Strangers(l.required));
    && i <= |pool| && s.limits == l && s.overflow && s.pending == pool && s.cursor == i && s.active == pool[..i]
    && (forall c :: c in pool ==> c.peer in s.exempt)
    && (i > 0 ==> pool[0].peer in s.degraded)
    && s.ops == [Running] && |s.workers| > 0 && (forall w :: 0 <= w < |s.workers| ==> s.workers[w] == Idle)
  }

  /** The first worker takes the next anonymous candidate, and the relay accepts it. */
  lemma FillOne(l: Limits, s: Policy, i: nat)
    requires Filling(l, s, i) && i < l.required
    ensures var a, b := Next(0, false, {}, true), Accepted(0);
            && Enabled(s, a) && Enabled(Step(s, a), b) && Filling(l, Step(Step(s, a), b), i + 1)
  {
    TakesStranger(l, s, i);
    var t := Step(s, Next(0, false, {}, true));
    assert Enabled(t, Accepted(0)) && Step(t, Accepted(0)) == Accept(t, 0);
    hide *;
    KeepsStranger(l, s, i, t);
  }

  lemma TakesStranger(l: Limits, s: Policy, i: nat)
    requires Filling(l, s, i) && i < l.required
    ensures Enabled(s, Next(0, false, {}, true))
    ensures var c := Pool(Strangers(l.required))[i];
            Step(s, Next(0, false, {}, true))
            == s.(cursor := i + 1, attempted := s.attempted + {c.peer}, log := s.log + [Attempt(s.op, c.peer)],
                  workers := s.workers[0 := Trying(c)])
  {
    var c := Pool(Strangers(l.required))[i];
    NotActive(l, i);
    NotFull(l, s, i);
    hide Met, Full, Peers, Pool, Strangers;
  }

  lemma NotFull(l: Limits, s: Policy, i: nat)
    requires Filling(l, s, i) && i < l.required
    ensures var c := Pool(Strangers(l.required))[i]; !Met(s) && !Full(s, c) && Exempt(s, c)
  {
    var pool := Pool(Strangers(l.required));
    assert pool[i] in pool;
    hide Groups, Known, Peers;
    assert pool[i] == Candidate(i, UNKNOWN);
  }

  lemma KeepsStranger(l: Limits, s: Policy, i: nat, t: Policy)
    requires Filling(l, s, i) && i < l.required
    requires var c := Pool(Strangers(l.required))[i];
             && |s.workers| > 0
             && t == s.(cursor := i + 1, attempted := s.attempted + {c.peer}, log := s.log + [Attempt(s.op, c.peer)],
                        workers := s.workers[0 := Trying(c)])
    ensures |t.workers| > 0 && t.workers[0].Trying? && Filling(l, Accept(t, 0), i + 1)
  {
    var pool := Pool(Strangers(l.required));
    var c := pool[i];
    NotActive(l, i);
    NotFull(l, s, i);
    assert Met(t) == Met(s) && Full(t, c) == Full(s, c) && Exempt(t, c);
    hide Met, Full, Exempt, Peers, Pool, Strangers, Surplus, Groups;
    var u := Accept(t, 0);
    assert u.active == s.active + [c] && u.degraded == s.degraded + {c.peer};
    assert pool[..i + 1] == pool[..i] + [c];
    assert u.workers == s.workers[0 := Trying(c)][0 := Idle];
    assert i == 0 ==> c == pool[0];
  }

  lemma NotActive(l: Limits, i: nat)
    requires i < l.required
    ensures var pool := Pool(Strangers(l.required)); pool[i].peer !in Peers(pool[..i])
  {
    var pool := Pool(Strangers(l.required));
    assert forall j :: 0 <= j < i ==> Peers(pool[..i])[j] == j;
  }

  lemma {:induction false} FillAll(l: Limits, s: Policy, i: nat) returns (actions: seq<Action>)
    requires Filling(l, s, i)
    ensures Filling(l, Run(s, actions), l.required)
    decreases l.required - i
  {
    if i == l.required {
      actions := [];
      RunNone(s);
    } else {
      var a, b := Next(0, false, {}, true), Accepted(0);
      FillOne(l, s, i);
      hide *;
      var t := Step(Step(s, a), b);
      Applied(s, a);
      Applied(Step(s, a), b);
      RunTwo(s, a, b);
      var rest := FillAll(l, t, i + 1);
      actions := [a, b] + rest;
      RunConcat(s, [a, b], rest);
    }
  }

  lemma FilledLeaves(l: Limits, s: Policy)
    requires Filling(l, s, l.required) && l.required > 0
    ensures Leaving(s, 0) && |s.active| == l.required && s.ops == [Running] && s.limits == l
    ensures forall c :: c in s.active ==> c.group == UNKNOWN
  {
    var pool := Pool(Strangers(l.required));
    assert s.active == pool;
    assert Peers(s.active)[0] == pool[0].peer;
    hide Groups, Known;
  }

  lemma BeginsFilling(l: Limits, first: Policy)
    requires first == Fresh(l).(ops := [Waiting]) && l.required > 0 && l.concurrent > 0
    ensures var pool := Pool(Strangers(l.required));
            var b := Begin(0, [], pool, true, set c | c in pool :: c.peer);
            Enabled(first, b) && Filling(l, Step(first, b), 0)
  {
    var pool := Pool(Strangers(l.required));
    var b := Begin(0, [], pool, true, set c | c in pool :: c.peer);
    PoolSeparate(Strangers(l.required));
    var none: seq<nat> := [];
    assert (set p | p in none) == {};
    AllUntried(first.(ops := first.ops[0 := Running], op := 0, attempted := set p | p in none), pool);
    hide Untried, Separate;
    assert pool[..0] == [];
  }

  /**
   For all proper limits there is a run with overflow whose result is reserved although no reservation
   has a known group.
   */
  lemma StrangersReserve(l: Limits) returns (actions: seq<Action>)
    requires Proper(l)
    ensures var s := Run(Fresh(l), actions);
            exists r :: r in s.results && r.Reserved? && |r.reservations| == l.required
                        && forall c :: c in r.reservations ==> c.group == UNKNOWN
  {
    var pool := Pool(Strangers(l.required));
    var a, b := Enqueue, Begin(0, [], pool, true, set c | c in pool :: c.peer);
    var first := Fresh(l).(ops := [Waiting]);
    assert Enabled(Fresh(l), a) && Step(Fresh(l), a) == first by { assert [] + [Waiting] == [Waiting]; }
    BeginsFilling(l, first);
    assert l.required > 0;
    hide *;
    var s := Step(first, b);
    Applied(Fresh(l), a);
    Applied(first, b);
    RunTwo(Fresh(l), a, b);
    var fill := FillAll(l, s, 0);
    var full := Run(s, fill);
    FilledLeaves(l, full);
    var leave := AllLeave(full, 0);
    var t := Run(full, leave);
    StrangersReported(l, t);
    actions := [a, b] + fill + leave + [Finish(0)];
    RunConcat(Fresh(l), [a, b], fill);
    RunConcat(Fresh(l), [a, b] + fill, leave);
    RunConcat(Fresh(l), [a, b] + fill + leave, [Finish(0)]);
    RunOne(t, Finish(0));
  }

  lemma StrangersReported(l: Limits, t: Policy)
    requires AllLeft(t) && Met(t) && t.ops == [Running] && |t.active| == l.required
    requires forall c :: c in t.active ==> c.group == UNKNOWN
    ensures var s := Apply(t, Finish(0));
            exists r :: r in s.results && r.Reserved? && |r.reservations| == l.required
                        && forall c :: c in r.reservations ==> c.group == UNKNOWN
  {
    hide Known, Peers, Groups;
    assert Enabled(t, Finish(0));
    var s := Apply(t, Finish(0));
    assert s.results[|t.results|] == Reserved(t.active);
    assert Reserved(t.active) in s.results;
  }
}
