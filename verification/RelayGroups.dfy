/**
 How many reservations of one operator group can pile up.

 A worker that found the requirements unmet and its group below the cap may have to wait while a surplus
 reservation is released; others go on meanwhile, and it inserts without checking again.  A table shows
 only the groups: those of the active reservations in order, and those that waiting workers hold.
 */
module RelayGroups {
  import opened RelayPolicy

  datatype Table = Table(active: seq<nat>, held: multiset<nat>)

  const EMPTY := Table([], multiset{})

  predicate MayJoin(l: Limits, t: Table, g: nat) {
    |t.held| < l.concurrent && !Enough(l, t.active) && Count(t.active, g) < l.cap
  }

  predicate Waits(l: Limits, t: Table) {
    |t.active| >= l.required && Surplus(t.active) < |t.active|
  }

  /** A reservation of group `g` was accepted. */
  function Join(l: Limits, t: Table, g: nat): Table {
    if Waits(l, t) then Table(Cut(t.active, Surplus(t.active)), t.held + multiset{g})
    else Table(t.active + [g], t.held)
  }

  /** A worker is done waiting. */
  function Seat(t: Table, g: nat): Table
    requires g in t.held
  {
    Table(t.active + [g], t.held - multiset{g})
  }

  /** Reservations of a group, including those that workers hold. */
  function Load(t: Table, g: nat): nat {
    Count(t.active, g) + t.held[g]
  }

  // ---------------------------------------------------------------- counting

  function Names(gs: seq<nat>): set<nat> {
    set g | g in gs
  }

  /** The list without one group. */
  function Rest(gs: seq<nat>, g: nat): seq<nat> {
    if gs == [] then [] else (if gs[0] == g then [] else [gs[0]]) + Rest(gs[1..], g)
  }

  lemma {:induction false} RestCounts(gs: seq<nat>, g: nat, x: nat)
    ensures Count(Rest(gs, g), x) == if x == g then 0 else Count(gs, x)
    ensures |Rest(gs, g)| == |gs| - Count(gs, g)
    decreases |gs|
  {
    if gs != [] {
      RestCounts(gs[1..], g, x);
      assert gs == [gs[0]] + gs[1..];
    }
  }

  lemma RestNames(gs: seq<nat>, g: nat)
    ensures Names(Rest(gs, g)) == Names(gs) - {g}
  {
    forall x ensures x in Rest(gs, g) <==> x in gs && x != g {
      RestCounts(gs, g, x);
      assert x in multiset(gs) <==> Count(gs, x) > 0;
      assert x in multiset(Rest(gs, g)) <==> Count(Rest(gs, g), x) > 0;
    }
  }

  /** Taking one group away. */
  lemma RestOf(gs: seq<nat>, g: nat)
    requires g in gs
    ensures |gs| == Count(gs, g) + |Rest(gs, g)| && |Names(gs)| == |Names(Rest(gs, g))| + 1
    ensures Count(gs, g) >= 1 && (forall x :: x != g ==> Count(Rest(gs, g), x) == Count(gs, x))
    ensures forall x :: x in Rest(gs, g) <==> x in gs && x != g
  {
    RestCounts(gs, g, g);
    RestNames(gs, g);
    assert Names(gs) == Names(Rest(gs, g)) + {g};
    forall x | x != g ensures Count(Rest(gs, g), x) == Count(gs, x) { RestCounts(gs, g, x); }
    assert g in multiset(gs);
    forall x ensures x in Rest(gs, g) <==> x in gs && x != g {
      assert x in Names(Rest(gs, g)) <==> x in Names(gs) - {g};
    }
  }

  lemma {:induction false} FewNames(gs: seq<nat>)
    ensures |Names(gs)| <= |gs|
    decreases |gs|
  {
    if gs != [] {
      RestOf(gs, gs[0]);
      FewNames(Rest(gs, gs[0]));
    }
  }

  lemma TimesNext(c: nat, n: nat)
    ensures c * (n + 1) == c * n + c
  {}

  lemma TimesMono(c: nat, m: nat, n: nat)
    requires m <= n
    ensures c * m <= c * n
  {}

  lemma RestBound(gs: seq<nat>, g: nat, c: nat)
    requires forall x :: Count(gs, x) <= c
    ensures forall x :: Count(Rest(gs, g), x) <= c
  {
    forall x ensures Count(Rest(gs, g), x) <= c { RestCounts(gs, g, x); }
  }

  /** With at most `c` of each group there are at most `c` times as many as groups. */
  lemma {:induction false} CountBound(gs: seq<nat>, c: nat)
    requires forall g :: Count(gs, g) <= c
    ensures |gs| <= c * |Names(gs)|
    decreases |gs|
  {
    hide *;
    if gs != [] {
      var g := gs[0];
      RestOf(gs, g);
      RestBound(gs, g, c);
      CountBound(Rest(gs, g), c);
      TimesNext(c, |Names(Rest(gs, g))|);
    } else {
      TimesMono(c, 0, |Names(gs)|);
    }
  }

  /** ... and exactly that many only when every group is full. */
  lemma AllFull(gs: seq<nat>, c: nat, n: nat, g: nat)
    requires (forall x :: Count(gs, x) <= c) && |Names(gs)| <= n && |gs| >= c * n && g in gs
    ensures Count(gs, g) == c && |gs| == c * n
  {
    hide *;
    RestOf(gs, g);
    RestBound(gs, g, c);
    CountBound(Rest(gs, g), c);
    TimesNext(c, n - 1);
    TimesMono(c, |Names(Rest(gs, g))|, n - 1);
  }

  lemma AllNames(gs: seq<nat>, c: nat, n: nat)
    requires (forall x :: Count(gs, x) <= c) && |Names(gs)| <= n && |gs| >= c * n && c >= 1
    ensures |Names(gs)| == n
  {
    hide *;
    CountBound(gs, c);
    var k := |Names(gs)|;
    TimesNext(c, k);
    assert k < n ==> c * (k + 1) <= c * n by { if k < n { TimesMono(c, k + 1, n); } }
  }

  /** Two groups and one of every other. */
  lemma TwoGroups(gs: seq<nat>, g: nat, x: nat)
    requires g in gs && x in gs && g != x
    ensures Count(gs, g) + Count(gs, x) + |Names(gs)| <= |gs| + 2
  {
    RestOf(gs, g);
    RestOf(Rest(gs, g), x);
    FewNames(Rest(Rest(gs, g), x));
  }

  lemma Others(gs: seq<nat>, g: nat, x: nat)
    requires x in gs && x != g
    ensures Count(gs, g) + Count(gs, x) <= |gs| && Count(gs, g) < |gs|
  {
    RestOf(gs, x);
    CountSize(Rest(gs, x), g);
  }

  lemma CountSize(gs: seq<nat>, g: nat)
    ensures Count(gs, g) <= |gs|
  {
    RestCounts(gs, g, g);
  }

  /** Without a surplus every group occurs once. */
  lemma {:induction false} AllSingle(gs: seq<nat>)
    requires forall g :: Count(gs, g) <= 1
    ensures |Names(gs)| == |gs|
    decreases |gs|
  {
    if gs != [] {
      var g := gs[0];
      RestOf(gs, g);
      forall x ensures Count(Rest(gs, g), x) <= 1 { RestCounts(gs, g, x); }
      AllSingle(Rest(gs, g));
    }
  }

  lemma NoSurplus(gs: seq<nat>)
    requires Surplus(gs) == |gs|
    ensures (forall g :: Count(gs, g) <= 1) && |Names(gs)| == |gs|
  {
    forall g ensures Count(gs, g) <= 1 {
      if g in gs {
        var j :| 0 <= j < |gs| && gs[j] == g;
      } else {
        assert g !in multiset(gs);
      }
    }
    AllSingle(gs);
  }

  lemma KnownNames(gs: seq<nat>)
    ensures Known(gs) == Names(gs) - {UNKNOWN}
    ensures |Names(gs)| == |Known(gs)| + if UNKNOWN in gs then 1 else 0
  {
    if UNKNOWN in gs {
      assert Names(gs) == Known(gs) + {UNKNOWN};
    } else {
      assert Names(gs) == Known(gs);
    }
  }

  /** Dropping a surplus reservation loses no group. */
  lemma CutSurplus(gs: seq<nat>)
    requires Surplus(gs) < |gs|
    ensures var i := Surplus(gs);
            && (forall g :: Count(Cut(gs, i), g) == Count(gs, g) - if g == gs[i] then 1 else 0)
            && Names(Cut(gs, i)) == Names(gs) && Known(Cut(gs, i)) == Known(gs)
  {
    var i := Surplus(gs);
    CutMultiset(gs, i);
    forall g ensures Count(Cut(gs, i), g) == Count(gs, g) - if g == gs[i] then 1 else 0 {}
    forall g ensures g in Cut(gs, i) <==> g in gs {
      assert g in multiset(gs) <==> Count(gs, g) > 0;
      assert g in multiset(Cut(gs, i)) <==> Count(Cut(gs, i), g) > 0;
    }
  }

  lemma CountMore(gs: seq<nat>, g: nat)
    ensures forall x :: Count(gs + [g], x) == Count(gs, x) + if x == g then 1 else 0
    ensures Names(gs + [g]) == Names(gs) + {g} && Known(gs + [g]) == Known(gs) + (if g == UNKNOWN then {} else {g})
  {}

  // ---------------------------------------------------------------- one accepted reservation

  /** Insertion in place: too few are active, or as many as required and every group once. */
  lemma JoinInserts(l: Limits, t: Table, g: nat)
    requires Proper(l) && MayJoin(l, t, g) && !Waits(l, t)
    ensures var u := Join(l, t, g);
            && u.held == t.held && |u.active| == |t.active| + 1 && Names(u.active) == Names(t.active) + {g}
            && (forall x :: Count(u.active, x) == Count(t.active, x) + if x == g then 1 else 0)
            && Known(u.active) == Known(t.active) + (if g == UNKNOWN then {} else {g})
    ensures |t.active| < l.required
            || (|t.active| == l.required == l.groups == |Names(t.active)| && forall x :: Count(t.active, x) <= 1)
  {
    CountMore(t.active, g);
    if |t.active| >= l.required {
      NoSurplus(t.active);
      KnownNames(t.active);
    }
  }

  /** A worker waits: a reservation of a group that has another one is dropped. */
  lemma JoinWaits(l: Limits, t: Table, g: nat) returns (d: nat)
    requires MayJoin(l, t, g) && Waits(l, t)
    ensures d in t.active && Count(t.active, d) >= 2
    ensures var u := Join(l, t, g);
            && u.held == t.held + multiset{g} && |u.active| == |t.active| - 1 && Names(u.active) == Names(t.active)
            && (forall x :: Count(u.active, x) == Count(t.active, x) - if x == d then 1 else 0)
            && Known(u.active) == Known(t.active)
    ensures |t.active| >= l.required && |Known(t.active)| < l.groups
  {
    d := t.active[Surplus(t.active)];
    CutSurplus(t.active);
  }

  // ---------------------------------------------------------------- sizes

  function Room(l: Limits): nat
    requires l.concurrent >= 1
  {
    l.required + l.concurrent - 1 + if l.required == l.groups then 1 else 0
  }

  /** Active and held together; the last place is taken only when every group is present. */
  ghost predicate Sized(l: Limits, t: Table)
    requires l.concurrent >= 1
  {
    && |t.held| <= l.concurrent && |t.active| + |t.held| <= Room(l)
    && (l.required == l.groups && |t.active| + |t.held| == Room(l) ==> |Names(t.active)| >= l.groups)
  }

  lemma JoinSized(l: Limits, t: Table, g: nat)
    requires Proper(l) && Sized(l, t) && MayJoin(l, t, g)
    ensures Sized(l, Join(l, t, g))
  {
    hide Names, Known, Count, Join, Enough;
    if Waits(l, t) {
      var d := JoinWaits(l, t, g);
    } else {
      JoinInserts(l, t, g);
      var u := Join(l, t, g);
      if |t.active| >= l.required { NamesGrow(t.active, u.active, g); }
    }
  }

  lemma NamesGrow(gs: seq<nat>, hs: seq<nat>, g: nat)
    requires Names(hs) == Names(gs) + {g}
    ensures |Names(hs)| >= |Names(gs)|
  {
    assert g in Names(gs) ==> Names(hs) == Names(gs);
  }

  lemma SeatSized(l: Limits, t: Table, g: nat)
    requires l.concurrent >= 1 && Sized(l, t) && g in t.held
    ensures Sized(l, Seat(t, g))
  {
    CountMore(t.active, g);
    hide Count, Known, Names;
    NamesGrow(t.active, Seat(t, g).active, g);
    assert t.held == Seat(t, g).held + multiset{g};
  }

  // ---------------------------------------------------------------- when the cap can be exceeded

  /** The requirement, or two when it is one. */
  function Least(l: Limits): nat { if l.required < 2 then 2 else l.required }

  /** The limits under which workers can pile up more than the cap, and how many workers it takes. */
  predicate CanExceed(l: Limits) {
    && l.cap >= 2
    && if l.cap < l.required < l.cap * l.groups then l.concurrent >= 2
       else if Least(l) == l.cap * l.groups then l.concurrent > l.cap
       else if Least(l) == l.cap == 2 then l.concurrent >= 2
       else if Least(l) == l.cap then l.concurrent >= 3
       else l.concurrent + Least(l) >= l.cap + 2
  }

  ghost predicate Loads(l: Limits, t: Table) { forall g :: Load(t, g) <= l.cap }

  /** A table that holds only a few: the size alone keeps every group below the cap. */
  predicate Small(l: Limits) { Least(l) < l.cap && l.concurrent + Least(l) <= l.cap + 1 }

  lemma SmallLoads(l: Limits, t: Table)
    requires Proper(l) && Small(l) && Sized(l, t)
    ensures Loads(l, t)
  {
    forall g ensures Load(t, g) <= l.cap {
      CountSize(t.active, g);
      HeldSize(t.held, g);
      if |t.active| + |t.held| > l.cap { SeveralNames(t.active, g); }
    }
  }

  lemma HeldSize(held: multiset<nat>, g: nat)
    ensures held[g] <= |held|
  {
    assert held == held[g := 0] + multiset{}[g := held[g]];
    assert |multiset{}[g := held[g]]| == held[g];
  }

  lemma SeveralNames(gs: seq<nat>, g: nat)
    requires |Names(gs)| >= 2
    ensures Count(gs, g) < |gs|
  {
    assert exists x :: x in Names(gs) && x != g by {
      if forall x :: x in Names(gs) ==> x == g { assert Names(gs) <= {g}; SubsetSize(Names(gs), {g}); }
    }
    var x :| x in Names(gs) && x != g;
    Others(gs, g, x);
  }

  lemma {:induction false} SubsetSize(a: set<nat>, b: set<nat>)
    requires a <= b
    ensures |a| <= |b|
    decreases |a|
  {
    if a != {} {
      var x :| x in a;
      SubsetSize(a - {x}, b - {x});
    }
  }

  // ---------------------------------------------------------------- two workers, as many required as the cap

  /** Whoever waits to join a group, another group is active. */
  ghost predicate Company(t: Table) {
    forall g :: g in t.held ==> exists x :: x in t.active && x != g
  }

  lemma JoinCompany(l: Limits, t: Table, g: nat)
    requires Proper(l) && l.required >= l.cap && Company(t) && MayJoin(l, t, g)
    ensures Company(Join(l, t, g))
  {
    var u := Join(l, t, g);
    if Waits(l, t) {
      var d := JoinWaits(l, t, g);
      assert exists x :: x in t.active && x != g by {
        if forall x :: x in t.active ==> x == g { OnlyOne(t.active, g); }
      }
      hide Count, Known;
      forall y | y in u.held ensures exists x :: x in u.active && x != y {
        var x :| x in t.active && x != y;
        assert x in Names(t.active);
        assert x in u.active;
      }
    } else {
      assert forall x :: x in t.active ==> x in u.active;
    }
  }

  lemma {:induction false} OnlyOne(gs: seq<nat>, g: nat)
    requires forall x :: x in gs ==> x == g
    ensures Count(gs, g) == |gs|
    decreases |gs|
  {
    if gs != [] {
      assert gs == [gs[0]] + gs[1..] && gs[0] in gs;
      forall x | x in gs[1..] ensures x == g { assert x in gs; }
      OnlyOne(gs[1..], g);
    }
  }

  /** As many required as the cap, in several groups, and two workers. */
  predicate Paired(l: Limits) { l.required == l.cap >= 3 && l.groups >= 2 && l.concurrent == 2 }

  lemma PairedLoads(l: Limits, t: Table, g: nat)
    requires Proper(l) && Paired(l) && Sized(l, t) && Loads(l, t) && Company(t) && MayJoin(l, t, g)
    ensures Loads(l, Join(l, t, g))
  {
    hide *;
    if Waits(l, t) { PairedWaits(l, t, g); } else { PairedInserts(l, t, g); }
  }

  lemma PairedWaits(l: Limits, t: Table, g: nat)
    requires Proper(l) && Paired(l) && Sized(l, t) && Loads(l, t) && MayJoin(l, t, g) && Waits(l, t)
    ensures Loads(l, Join(l, t, g))
  {
    var u := Join(l, t, g);
    HeldSize(t.held, g);
    var d := JoinWaits(l, t, g);
    hide Known, Names, Join, Waits, Surplus;
    if t.held[g] == 1 && d != g { DropsOther(l, t, g, d); }
    hide Count;
    forall x ensures Load(u, x) <= l.cap { assert Load(t, x) <= l.cap; }
  }

  lemma PairedInserts(l: Limits, t: Table, g: nat)
    requires Proper(l) && Paired(l) && Sized(l, t) && Loads(l, t) && Company(t) && MayJoin(l, t, g) && !Waits(l, t)
    ensures Loads(l, Join(l, t, g))
  {
    var u := Join(l, t, g);
    HeldSize(t.held, g);
    JoinInserts(l, t, g);
    hide Known, Names, Join, Waits;
    if t.held[g] == 1 && |t.active| < l.required {
      var x :| x in t.active && x != g;
      Others(t.active, g, x);
    }
    hide Count;
    forall x ensures Load(u, x) <= l.cap { assert Load(t, x) <= l.cap; }
  }

  lemma DropsOther(l: Limits, t: Table, g: nat, d: nat)
    requires Proper(l) && Paired(l) && Sized(l, t) && t.held[g] == 1 && d in t.active && d != g
             && Count(t.active, d) >= 2
    ensures Count(t.active, g) + 2 <= l.cap
  {
    Others(t.active, g, d);
    HeldSize(t.held, g);
    if |t.active| + |t.held| == Room(l) && l.required == l.groups {
      if g in t.active { TwoGroups(t.active, g, d); } else { assert g !in multiset(t.active); }
    }
  }

  // ---------------------------------------------------------------- as many required as fit

  predicate Crammed(l: Limits) { l.cap >= 2 && Least(l) == l.cap * l.groups }

  /** Only a new group is ever waited for, and nothing is accepted once it has come. */
  ghost predicate Crowd(l: Limits, t: Table) {
    t.held != multiset{} ==>
      && |t.active| + 1 >= Least(l)
      && (|Known(t.active)| >= l.groups ==> |t.active| >= l.required)
      && (|Known(t.active)| < l.groups ==>
            && |Known(t.active)| == l.groups - 1 && UNKNOWN in t.active
            && forall g :: g in t.held ==> g !in t.active)
  }

  /** When a worker must wait, every group that may be present is present and full. */
  lemma CrammedFull(l: Limits, t: Table, g: nat)
    requires Proper(l) && Crammed(l) && Loads(l, t) && MayJoin(l, t, g) && Waits(l, t)
    ensures |t.active| == Least(l) && |Known(t.active)| == l.groups - 1 && UNKNOWN in t.active && g !in t.active
  {
    var d := JoinWaits(l, t, g);
    KnownNames(t.active);
    forall x ensures Count(t.active, x) <= l.cap { assert Load(t, x) <= l.cap; }
    CountSize(t.active, d);
    hide Names, Known, Join, Waits;
    AllNames(t.active, l.cap, l.groups);
    AllFull(t.active, l.cap, l.groups, d);
    if g in t.active { AllFull(t.active, l.cap, l.groups, g); }
  }

  lemma CrammedWaits(l: Limits, t: Table, g: nat)
    requires Proper(l) && Crammed(l) && l.concurrent <= l.cap && Loads(l, t) && Crowd(l, t) && MayJoin(l, t, g)
             && Waits(l, t)
    ensures Loads(l, Join(l, t, g)) && Crowd(l, Join(l, t, g))
  {
    CrammedFull(l, t, g);
    var d := JoinWaits(l, t, g);
    var u := Join(l, t, g);
    assert g !in multiset(t.active);
    HeldSize(t.held, g);
    assert forall x :: x in u.active <==> x in t.active by {
      assert forall x :: x in u.active <==> x in Names(u.active);
    }
    hide Known, Names, Join, Waits;
    forall x ensures Load(u, x) <= l.cap { assert Load(t, x) <= l.cap; }
  }

  lemma CrammedInserts(l: Limits, t: Table, g: nat)
    requires Proper(l) && Crammed(l) && l.concurrent <= l.cap && Loads(l, t) && Crowd(l, t) && MayJoin(l, t, g)
             && !Waits(l, t)
    ensures Loads(l, Join(l, t, g)) && Crowd(l, Join(l, t, g))
  {
    var u := Join(l, t, g);
    JoinInserts(l, t, g);
    HeldSize(t.held, g);
    assert g !in t.active ==> g !in multiset(t.active);
    forall x ensures Load(u, x) <= l.cap { assert Load(t, x) <= l.cap; }
    KnownGrows(t.active, u.active, g);
    assert forall x :: x in u.active <==> x in t.active || x == g;
  }

  lemma KnownGrows(gs: seq<nat>, hs: seq<nat>, g: nat)
    requires Known(hs) == Known(gs) + (if g == UNKNOWN then {} else {g})
    ensures |Known(gs)| <= |Known(hs)| <= |Known(gs)| + 1
    ensures g != UNKNOWN && g !in gs ==> |Known(hs)| == |Known(gs)| + 1
  {
    if g == UNKNOWN || g in gs { assert Known(hs) == Known(gs); } else { assert g !in Known(gs); }
  }

  lemma SeatCrowd(l: Limits, t: Table, g: nat)
    requires Proper(l) && Crammed(l) && Crowd(l, t) && g in t.held
    ensures Crowd(l, Seat(t, g))
  {
    var u := Seat(t, g);
    CountMore(t.active, g);
    KnownGrows(t.active, u.active, g);
  }

  // ---------------------------------------------------------------- what every move keeps

  /** With a cap of one nobody ever waits. */
  ghost predicate Single(l: Limits, t: Table) { t.held == multiset{} && |t.active| <= l.required + 1 }

  ghost predicate Safe(l: Limits, t: Table)
    requires l.concurrent >= 1
  {
    && Sized(l, t) && Loads(l, t)
    && (l.cap == 1 ==> Single(l, t)) && (l.required >= l.cap ==> Company(t)) && (Crammed(l) ==> Crowd(l, t))
  }

  lemma EmptySafe(l: Limits)
    requires Proper(l)
    ensures Safe(l, EMPTY)
  {
    forall g ensures Load(EMPTY, g) <= l.cap { assert g !in multiset(EMPTY.active); }
  }

  lemma SingleJoin(l: Limits, t: Table, g: nat)
    requires Proper(l) && l.cap == 1 && Loads(l, t) && Single(l, t) && MayJoin(l, t, g)
    ensures Single(l, Join(l, t, g))
  {
    var i := Surplus(t.active);
    assert i < |t.active| ==> Load(t, t.active[i]) <= l.cap;
    JoinInserts(l, t, g);
    hide Count, Known, Names, Join, Waits;
  }

  /** A group nobody waits for. */
  lemma FreeLoads(l: Limits, t: Table, g: nat)
    requires Proper(l) && Loads(l, t) && MayJoin(l, t, g) && t.held[g] == 0
    ensures Loads(l, Join(l, t, g))
  {
    var u := Join(l, t, g);
    if Waits(l, t) {
      var d := JoinWaits(l, t, g);
      hide Known, Names, Join, Waits, Count;
      forall x ensures Load(u, x) <= l.cap { assert Load(t, x) <= l.cap; }
    } else {
      JoinInserts(l, t, g);
      hide Known, Names, Join, Waits, Count;
      forall x ensures Load(u, x) <= l.cap { assert Load(t, x) <= l.cap; }
    }
  }

  /** Outside the limits that can be exceeded, one of three reasons keeps a group that is waited for. */
  lemma SafeRegions(l: Limits)
    requires Proper(l) && !CanExceed(l) && l.cap >= 2 && l.concurrent >= 2
    ensures Small(l) || Paired(l) || (Crammed(l) && l.concurrent <= l.cap)
  {
    if l.groups == 1 { assert l.cap * l.groups == l.cap; } else { TimesMono(l.cap, 2, l.groups); }
  }

  lemma JoinSafe(l: Limits, t: Table, g: nat)
    requires Proper(l) && !CanExceed(l) && Safe(l, t) && MayJoin(l, t, g)
    ensures Safe(l, Join(l, t, g))
  {
    JoinSized(l, t, g);
    HeldSize(t.held, g);
    hide Sized, Loads, Join, Company, Crowd, MayJoin, Waits, CanExceed;
    assert |t.held| < l.concurrent by { JoinRoom(l, t, g); }
    if l.cap == 1 { SingleJoin(l, t, g); }
    if l.required >= l.cap { JoinCompany(l, t, g); }
    if t.held[g] == 0 { FreeLoads(l, t, g); } else { SafeRegions(l); TightLoads(l, t, g); }
    if Crammed(l) { JoinCrowd(l, t, g); }
  }

  lemma JoinRoom(l: Limits, t: Table, g: nat)
    requires MayJoin(l, t, g)
    ensures |t.held| < l.concurrent
  {}

  lemma TightLoads(l: Limits, t: Table, g: nat)
    requires Proper(l) && Safe(l, t) && MayJoin(l, t, g) && Sized(l, Join(l, t, g))
    requires Small(l) || Paired(l) || (Crammed(l) && l.concurrent <= l.cap)
    ensures Loads(l, Join(l, t, g))
  {
    hide Sized, Loads, Join, Company, Crowd, MayJoin, Waits;
    if Small(l) { SmallLoads(l, Join(l, t, g)); }
    else if Paired(l) { PairedLoads(l, t, g); }
    else if Waits(l, t) { CrammedWaits(l, t, g); }
    else { CrammedInserts(l, t, g); }
  }

  lemma JoinCrowd(l: Limits, t: Table, g: nat)
    requires Proper(l) && !CanExceed(l) && Crammed(l) && Loads(l, t) && Crowd(l, t) && MayJoin(l, t, g)
    ensures Crowd(l, Join(l, t, g))
  {
    assert l.concurrent <= l.cap;
    hide Loads, Join, Crowd, MayJoin, Waits, CanExceed;
    if Waits(l, t) { CrammedWaits(l, t, g); } else { CrammedInserts(l, t, g); }
  }

  lemma SeatSafe(l: Limits, t: Table, g: nat)
    requires Proper(l) && Safe(l, t) && g in t.held
    ensures Safe(l, Seat(t, g))
  {
    var u := Seat(t, g);
    SeatSized(l, t, g);
    CountMore(t.active, g);
    if Crammed(l) { SeatCrowd(l, t, g); }
    hide Sized, Count, Crowd, Crammed;
    forall x ensures Load(u, x) <= l.cap { assert Load(t, x) <= l.cap; }
    assert forall x :: x in t.active ==> x in u.active;
  }

  /** Reservations dropped between operations, when nobody waits. */
  lemma ThinSafe(l: Limits, t: Table, fewer: seq<nat>)
    requires Proper(l) && Safe(l, t) && t.held == multiset{} && multiset(fewer) <= multiset(t.active)
    requires |fewer| == |t.active| ==> fewer == t.active
    ensures Safe(l, Table(fewer, multiset{}))
  {
    var u := Table(fewer, multiset{});
    forall g ensures Load(u, g) <= l.cap { assert Load(t, g) <= l.cap; }
    assert |fewer| == |multiset(fewer)| && |t.active| == |multiset(t.active)|;
    assert multiset(t.active) == multiset(fewer) + (multiset(t.active) - multiset(fewer));
  }

  // ---------------------------------------------------------------- plays

  datatype Move = Joins(group: nat) | Seats(group: nat)

  predicate Legal(l: Limits, t: Table, m: Move) {
    match m
    case Joins(g) => MayJoin(l, t, g)
    case Seats(g) => g in t.held
  }

  function Moved(l: Limits, t: Table, m: Move): Table
    requires Legal(l, t, m)
  {
    match m
    case Joins(g) => Join(l, t, g)
    case Seats(g) => Seat(t, g)
  }

  /** Legal moves that lead from one table to another. */
  predicate Plays(l: Limits, t: Table, moves: seq<Move>, u: Table)
    decreases |moves|
  {
    if moves == [] then t == u else Legal(l, t, moves[0]) && Plays(l, Moved(l, t, moves[0]), moves[1..], u)
  }

  lemma PlayOne(l: Limits, t: Table, m: Move)
    requires Legal(l, t, m)
    ensures Plays(l, t, [m], Moved(l, t, m))
  {
    hide Legal, Moved;
    assert [m][1..] == [];
  }

  lemma {:induction false} PlayOn(l: Limits, t: Table, x: seq<Move>, u: Table, y: seq<Move>, v: Table)
    requires Plays(l, t, x, u) && Plays(l, u, y, v)
    ensures Plays(l, t, x + y, v)
    decreases |x|
  {
    hide Legal, Moved;
    if x == [] {
      assert x + y == y;
    } else {
      assert (x + y)[1..] == x[1..] + y;
      PlayOn(l, Moved(l, t, x[0]), x[1..], u, y, v);
    }
  }

  function Repeat<T>(k: nat, x: T): (r: seq<T>)
    ensures |r| == k && forall i :: 0 <= i < k ==> r[i] == x
  {
    seq(k, _ => x)
  }

  lemma {:induction false} RepeatCount(k: nat, g: nat, x: nat)
    ensures Count(Repeat(k, g), x) == if x == g then k else 0
    decreases k
  {
    if k > 0 {
      assert Repeat(k, g) == Repeat(k - 1, g) + [g];
      RepeatCount(k - 1, g, x);
    }
  }

  function JoinAll(gs: seq<nat>): seq<Move> {
    seq(|gs|, i requires 0 <= i < |gs| => Joins(gs[i]))
  }

  /** Filling up to the requirement: every reservation is inserted in place. */
  lemma {:induction false} Fills(l: Limits, a: seq<nat>, gs: seq<nat>)
    requires Proper(l) && |a| + |gs| <= l.required && forall g :: Count(a + gs, g) <= l.cap
    ensures Plays(l, Table(a, multiset{}), JoinAll(gs), Table(a + gs, multiset{}))
    decreases |gs|
  {
    if gs == [] {
      assert a + gs == a;
    } else {
      var t, g := Table(a, multiset{}), gs[0];
      assert a + gs == (a + [g]) + gs[1..];
      assert Count(a + gs, g) >= Count(a, g) + 1;
      assert JoinAll(gs)[1..] == JoinAll(gs[1..]);
      Fills(l, a + [g], gs[1..]);
    }
  }

  function Copies(k: nat, g: nat): multiset<nat> { multiset(Repeat(k, g)) }

  lemma CopiesMore(k: nat, g: nat)
    ensures Copies(k + 1, g) == Copies(k, g) + multiset{g} && |Copies(k, g)| == k
  {
    assert Repeat(k + 1, g) == Repeat(k, g) + [g];
  }

  lemma CopiesNone(g: nat)
    ensures Copies(0, g) == multiset{}
  {}

  lemma SeatOne(l: Limits, a: seq<nat>, g: nat, k: nat)
    ensures Plays(l, Table(a, Copies(k + 1, g)), [Seats(g)], Table(a + [g], Copies(k, g)))
  {
    CopiesMore(k, g);
    hide Copies;
    var t := Table(a, Copies(k + 1, g));
    assert t.held - multiset{g} == Copies(k, g);
    PlayOne(l, t, Seats(g));
  }

  lemma NoMoves(l: Limits, t: Table)
    ensures Plays(l, t, [], t)
  {}

  /** The waiting workers insert, one after the other. */
  lemma {:induction false} SeatsAll(l: Limits, a: seq<nat>, g: nat, k: nat)
    ensures Plays(l, Table(a, Copies(k, g)), Repeat(k, Seats(g)), Table(a + Repeat(k, g), multiset{}))
    decreases k
  {
    hide *;
    if k == 0 {
      assert a + Repeat(k, g) == a && Repeat(k, Seats(g)) == [];
      CopiesNone(g);
      NoMoves(l, Table(a, multiset{}));
    } else {
      SeatOne(l, a, g, k - 1);
      SeatsAll(l, a + [g], g, k - 1);
      assert (a + [g]) + Repeat(k - 1, g) == a + Repeat(k, g);
      assert [Seats(g)] + Repeat(k - 1, Seats(g)) == Repeat(k, Seats(g));
      PlayOn(l, Table(a, Copies(k, g)), [Seats(g)], Table(a + [g], Copies(k - 1, g)), Repeat(k - 1, Seats(g)),
             Table(a + Repeat(k, g), multiset{}));
    }
  }

  // ---------------------------------------------------------------- waiting and refilling

  /** A full table: unmet, with a surplus, and no group over the cap. */
  ghost predicate Loaded(l: Limits, a: seq<nat>) {
    |a| == Least(l) && |Known(a)| < l.groups && (exists g :: Count(a, g) > 1) && forall g :: Count(a, g) <= l.cap
  }

  lemma LoadedSurplus(l: Limits, a: seq<nat>)
    requires Loaded(l, a)
    ensures Surplus(a) < |a|
  {
    if Surplus(a) == |a| { NoSurplus(a); }
  }

  lemma SameLoad(l: Limits, a: seq<nat>, b: seq<nat>)
    requires Loaded(l, a) && multiset(a) == multiset(b)
    ensures Loaded(l, b)
  {
    assert |multiset(a)| == |a| && |multiset(b)| == |b|;
    forall g ensures Count(a, g) == Count(b, g) && (g in a <==> g in b) {
      assert g in multiset(a) <==> g in multiset(b);
    }
    assert Known(a) == Known(b);
  }

  /** A worker waits for a full table. */
  lemma WaitsFor(l: Limits, a: seq<nat>, held: multiset<nat>, g: nat)
    requires Proper(l) && Loaded(l, a) && Count(a, g) < l.cap && |held| < l.concurrent
    ensures Surplus(a) < |a| && MayJoin(l, Table(a, held), g)
    ensures Join(l, Table(a, held), g) == Table(Cut(a, Surplus(a)), held + multiset{g})
  {
    LoadedSurplus(l, a);
  }

  /** After one was dropped, the next is inserted in place. */
  lemma Refills(l: Limits, a: seq<nat>, held: multiset<nat>, g: nat)
    requires Proper(l) && Loaded(l, a) && Surplus(a) < |a| && |held| < l.concurrent
    requires Count(Cut(a, Surplus(a)), g) < l.cap
    ensures var t := Table(Cut(a, Surplus(a)), held);
            MayJoin(l, t, g) && Join(l, t, g) == Table(t.active + [g], held)
  {
    var b := Cut(a, Surplus(a));
    CutSurplus(a);
    if |b| >= l.required {
      assert |b| == 1;
      CountSize(b, b[0]);
      assert Surplus(b) == |b|;
    }
  }

  /** One worker waits for `g`, another puts back what was dropped. */
  lemma Cycle(l: Limits, a: seq<nat>, held: multiset<nat>, g: nat) returns (moves: seq<Move>, b: seq<nat>)
    requires Proper(l) && Loaded(l, a) && Count(a, g) < l.cap && |held| + 1 < l.concurrent
    ensures multiset(b) == multiset(a) && Loaded(l, b) && Plays(l, Table(a, held), moves, Table(b, held + multiset{g}))
  {
    WaitsFor(l, a, held, g);
    var i := Surplus(a);
    var x := a[i];
    CutMultiset(a, i);
    b := Cut(a, i) + [x];
    assert multiset(b) == multiset(a);
    SameLoad(l, a, b);
    assert Count(Cut(a, i), x) < Count(a, x) <= l.cap;
    Refills(l, a, held + multiset{g}, x);
    hide Join, MayJoin, Loaded, Cut;
    PlayOne(l, Table(a, held), Joins(g));
    PlayOne(l, Table(Cut(a, i), held + multiset{g}), Joins(x));
    moves := [Joins(g)] + [Joins(x)];
    PlayOn(l, Table(a, held), [Joins(g)], Table(Cut(a, i), held + multiset{g}),
           [Joins(x)], Table(b, held + multiset{g}));
  }

  lemma {:induction false} Cycles(l: Limits, a: seq<nat>, g: nat, k: nat) returns (moves: seq<Move>, b: seq<nat>)
    requires Proper(l) && Loaded(l, a) && Count(a, g) < l.cap && k < l.concurrent
    ensures multiset(b) == multiset(a) && Loaded(l, b) && Plays(l, Table(a, multiset{}), moves, Table(b, Copies(k, g)))
    decreases k
  {
    if k == 0 {
      moves, b := [], a;
      CopiesNone(g);
      NoMoves(l, Table(a, multiset{}));
    } else {
      var c;
      moves, c := Cycles(l, a, g, k - 1);
      assert Count(c, g) == Count(a, g);
      hide *;
      CopiesMore(k - 1, g);
      var more;
      more, b := Cycle(l, c, Copies(k - 1, g), g);
      PlayOn(l, Table(a, multiset{}), moves, Table(c, Copies(k - 1, g)), more, Table(b, Copies(k, g)));
      moves := moves + more;
    }
  }

  /** Play up to a full table, let `k` workers wait for `g`, and let them insert. */
  lemma PilesUp(l: Limits, fill: seq<Move>, a: seq<nat>, g: nat, k: nat) returns (moves: seq<Move>, u: Table)
    requires Proper(l) && Plays(l, EMPTY, fill, Table(a, multiset{})) && Loaded(l, a) && Count(a, g) < l.cap
             && k < l.concurrent
    ensures Plays(l, EMPTY, moves, u) && Count(u.active, g) == Count(a, g) + k
  {
    var waits, b := Cycles(l, a, g, k);
    hide Plays, Loaded;
    SeatsAll(l, b, g, k);
    var last := Table(b + Repeat(k, g), multiset{});
    PlayOn(l, EMPTY, fill, Table(a, multiset{}), waits, Table(b, Copies(k, g)));
    PlayOn(l, EMPTY, fill + waits, Table(b, Copies(k, g)), Repeat(k, Seats(g)), last);
    moves, u := fill + waits + Repeat(k, Seats(g)), last;
    RepeatCount(k, g, g);
  }
}
