/**
 What acquisitions of relay reservations report.

 Without overflow an acquisition reports `reserved`, with what is active then, exactly when enough is
 active in enough known groups; and for all proper limits some run gets there.
 */
module RelayReports {
  import opened RelayPolicy
  import opened RelayGroups
  import opened RelayRuns
  import opened RelayCap
  import opened RelayPlays

  /** Enough of the active reservations, in enough known groups. */
  predicate Fulfilled(l: Limits, active: seq<Candidate>) {
    |active| >= l.required && |Known(Groups(active))| >= l.groups
  }

  lemma FinishReports(l: Limits, s: Policy, k: nat)
    requires Honest(l, s) && Enabled(s, Finish(k))
    ensures Step(s, Finish(k)).results
            == s.results + [if Fulfilled(l, s.active) then Reserved(s.active) else Unreserved]
    ensures Step(s, Finish(k)).active == s.active
  {
    hide Groups, Known, Peers;
  }

  /**
   In every run without overflow an operation that finishes reports what is active, if and only if
   that is enough in enough known groups.
   */
  lemma ReportsExactly(l: Limits, actions: seq<Action>, k: nat)
    requires AllPlain(actions) && Enabled(Run(Fresh(l), actions), Finish(k))
    ensures var s := Run(Fresh(l), actions);
            var after := Step(s, Finish(k)).results;
            && |after| == |s.results| + 1 && after[..|s.results|] == s.results
            && (after[|s.results|] == Reserved(s.active) <==>
                  |s.active| >= l.required && |Known(Groups(s.active))| >= l.groups)
            && (after[|s.results|] != Reserved(s.active) ==> after[|s.results|] == Unreserved)
  {
    RunHonest(l, Fresh(l), actions);
    var s := Run(Fresh(l), actions);
    hide Run, Step, Groups, Known, Enabled, Honest;
    FinishReports(l, s, k);
  }

  /** Without overflow, a candidate is tried only while the active reservations are not enough. */
  lemma TriesWhileNeeded(l: Limits, actions: seq<Action>, a: Action)
    requires AllPlain(actions) && Enabled(Run(Fresh(l), actions), a)
    ensures var s := Run(Fresh(l), actions);
            Step(s, a).log == s.log || (a.Next? && !Fulfilled(l, s.active))
  {
    RunHonest(l, Fresh(l), actions);
    var s := Run(Fresh(l), actions);
    hide Run;
    LogGrows(l, s, a);
  }

  lemma LogGrows(l: Limits, s: Policy, a: Action)
    requires Honest(l, s) && Enabled(s, a)
    ensures Step(s, a).log == s.log || (a.Next? && !Fulfilled(l, s.active))
  {
    hide Groups, Known, Peers, Untried, Full, Surplus, Cut, Exempt, Separate;
    match a {
      case Begin(_, drops, _, _, _) =>
        hide DropAll;
        DropAllLog(s, drops);
      case _ =>
    }
  }

  lemma {:induction false} DropAllLog(s: Policy, ps: seq<nat>)
    ensures DropAll(s, ps).log == s.log
    decreases |ps|
  {
    if ps != [] { DropAllLog(Drop(s, ps[0]), ps[1..]); }
  }

  // ---------------------------------------------------------------- enough in enough groups

  /** The groups from one to `n`, once each. */
  function Line(n: nat): (r: seq<nat>)
    ensures |r| == n && forall i :: 0 <= i < n ==> r[i] == i + 1
  {
    seq(n, i => i + 1)
  }

  /** `q` reservations dealt to `n` groups in turn. */
  function Dealt(n: nat, q: nat): (r: seq<nat>)
    requires n > 0
    ensures |r| == q
    decreases q
  {
    if q <= n then Line(q) else Line(n) + Dealt(n, q - n)
  }

  lemma {:induction false} LineCount(n: nat, x: nat)
    ensures Count(Line(n), x) <= 1 && (x > n ==> Count(Line(n), x) == 0)
    decreases n
  {
    if n > 0 {
      LineCount(n - 1, x);
      assert Line(n) == Line(n - 1) + [n];
    }
  }

  lemma {:induction false} DealtCount(n: nat, q: nat, c: nat, x: nat)
    requires n > 0 && c > 0 && q <= c * n
    ensures Count(Dealt(n, q), x) <= c
    decreases q
  {
    hide Line;
    if q <= n {
      LineCount(q, x);
    } else {
      LineCount(n, x);
      Fewer(c, n, q);
      DealtCount(n, q - n, c - 1, x);
    }
  }

  lemma Fewer(c: nat, n: nat, q: nat)
    requires c > 0 && n < q <= c * n
    ensures c > 1 && q - n <= (c - 1) * n
  {
    assert c * n == (c - 1) * n + n;
  }

  lemma DealtKnown(n: nat, q: nat)
    requires 0 < n <= q
    ensures |Known(Dealt(n, q))| >= n
  {
    var gs := Dealt(n, q);
    forall g | g in Range(n + 1) ensures g in Known(gs) {
      assert gs[g - 1] == g;
    }
    SubsetSize(Range(n + 1), Known(gs));
  }

  lemma {:induction false} JoinAllWanted(gs: seq<nat>)
    ensures Wanted(JoinAll(gs)) == gs
    decreases |gs|
  {
    if gs != [] {
      assert JoinAll(gs)[1..] == JoinAll(gs[1..]);
      JoinAllWanted(gs[1..]);
    }
  }

  // ---------------------------------------------------------------- the workers leave

  /** Enough is active, and the workers from `w` on are idle while the earlier ones have left. */
  ghost predicate Leaving(s: Policy, w: nat) {
    && w <= |s.workers| && Met(s)
    && (forall v :: 0 <= v < w ==> s.workers[v] == Left)
    && (forall v :: w <= v < |s.workers| ==> s.workers[v] == Idle)
  }

  lemma LeavesOne(s: Policy, w: nat)
    requires Leaving(s, w) && w < |s.workers|
    ensures Enabled(s, Next(w, false, {}, true))
    ensures var t := Step(s, Next(w, false, {}, true));
            t == s.(workers := s.workers[w := Left]) && Leaving(t, w + 1)
  {
    hide Groups, Known, Peers, Take;
  }

  lemma {:induction false} AllLeave(s: Policy, w: nat) returns (actions: seq<Action>)
    requires Leaving(s, w)
    ensures AllPlain(actions)
    ensures var t := Run(s, actions);
            && AllLeft(t) && Met(t) && t.ops == s.ops && t.active == s.active
            && t.limits == s.limits && t.overflow == s.overflow
    decreases |s.workers| - w
  {
    if w == |s.workers| {
      actions := [];
    } else {
      var a := Next(w, false, {}, true);
      LeavesOne(s, w);
      var t := Step(s, a);
      Applied(s, a);
      var rest := AllLeave(t, w + 1);
      actions := [a] + rest;
      hide Met, Step, Leaving, Enabled;
      RunOne(s, a);
      RunConcat(s, [a], rest);
    }
  }

  lemma AllIdle(l: Limits, s: Policy, t: Table)
    requires Mirrors(l, s, t) && t.held == multiset{}
    ensures forall v :: 0 <= v < |s.workers| ==> s.workers[v] == Idle
  {
    MirrorParts(l, s, t);
    hide Inv, HeldGroups, View, Mirrors;
    forall v | 0 <= v < |s.workers| ensures s.workers[v] == Idle {
      WaiterSeen(s.workers, v);
      assert AtRest(s.workers[v]);
    }
  }

  lemma MakeLeaving(l: Limits, s: Policy, gs: seq<nat>)
    requires Mirrors(l, s, Table(gs, multiset{})) && Enough(l, gs)
    ensures Leaving(s, 0)
  {
    MirrorParts(l, s, Table(gs, multiset{}));
    AllIdle(l, s, Table(gs, multiset{}));
    hide Inv, Groups, HeldGroups, Enough, Mirrors;
  }

  lemma SomeRunning(s: Policy) returns (k: nat)
    requires Inv(s) && |s.workers| > 0 && s.workers[0] == Idle
    ensures k < |s.ops| && s.ops[k] == Running
  {
    assert Queued(s);
    hide Inv;
    k :| 0 <= k < |s.ops| && s.ops[k] == Running;
  }

  /** The limits can be filled: dealt in turn, the reservations reach every group and no cap is exceeded. */
  lemma Dealing(l: Limits) returns (moves: seq<Move>, gs: seq<nat>)
    requires Proper(l)
    ensures gs == Dealt(l.groups, l.required) && moves == JoinAll(gs)
    ensures Plays(l, EMPTY, moves, Table(gs, multiset{})) && Enough(l, gs)
  {
    gs := Dealt(l.groups, l.required);
    moves := JoinAll(gs);
    assert [] + gs == gs;
    hide Dealt, Plays;
    forall g ensures Count(gs, g) <= l.cap { DealtCount(l.groups, l.required, l.cap, g); }
    DealtKnown(l.groups, l.required);
    Fills(l, [], gs);
  }

  /** For all proper limits there is a run, without overflow, in which an acquisition reports `reserved`. */
  lemma SomeRunReserves(l: Limits) returns (actions: seq<Action>)
    requires Proper(l)
    ensures AllPlain(actions)
    ensures var s := Run(Fresh(l), actions);
            exists r :: r in s.results && r.Reserved? && |r.reservations| >= l.required
                        && |Known(Groups(r.reservations))| >= l.groups
  {
    var moves, gs := Dealing(l);
    JoinAllWanted(gs);
    var first, s := Opens(l, gs);
    FromTheStart(s.pending);
    assert |gs| > 0;
    hide *;
    var fill, full := Realize(l, s, EMPTY, moves, Table(gs, multiset{}));
    MirrorParts(l, full, Table(gs, multiset{}));
    AllIdle(l, full, Table(gs, multiset{}));
    MakeLeaving(l, full, gs);
    Hired(l, full);
    var k := SomeRunning(full);
    var leave := AllLeave(full, 0);
    var t := Run(full, leave);
    Reports(l, t, k);
    actions := first + fill + leave + [Finish(k)];
    RunConcat(Fresh(l), first, fill);
    RunConcat(Fresh(l), first + fill, leave);
    RunConcat(Fresh(l), first + fill + leave, [Finish(k)]);
    RunOne(t, Finish(k));
    AllPlainJoin(first, fill);
    AllPlainJoin(first + fill, leave);
    PlainFinish(k);
    AllPlainJoin(first + fill + leave, [Finish(k)]);
  }

  lemma Hired(l: Limits, s: Policy)
    requires Staffed(l, s) && |s.pending| > 0 && l.concurrent > 0
    ensures |s.workers| > 0
  {}

  lemma PlainFinish(k: nat)
    ensures AllPlain([Finish(k)])
  {}

  lemma Reports(l: Limits, t: Policy, k: nat)
    requires AllLeft(t) && Met(t) && k < |t.ops| && t.ops[k] == Running && t.limits == l && !t.overflow
    ensures var s := Apply(t, Finish(k));
            exists r :: r in s.results && r.Reserved? && |r.reservations| >= l.required
                        && |Known(Groups(r.reservations))| >= l.groups
  {
    hide Known, Peers, Groups;
    assert Enabled(t, Finish(k));
    var s := Apply(t, Finish(k));
    assert s.results == t.results + [Reserved(t.active)];
    assert s.results[|t.results|] == Reserved(t.active);
    assert Reserved(t.active) in s.results;
  }
}
