/**
 The runs that exceed the cap of an operator group.

 For all limits that allow it, some legal play of the table ends with more reservations of one group
 than its cap.
 */
module RelayRuns {
  import opened RelayPolicy
  import opened RelayGroups

  ghost predicate Exceeds(l: Limits, moves: seq<Move>, u: Table, g: nat) {
    Plays(l, EMPTY, moves, u) && Count(u.active, g) > l.cap
  }

  // ---------------------------------------------------------------- full tables

  /** `n` reservations, `c` of each group in turn, the unclassified first. */
  function Spread(c: nat, n: nat): (r: seq<nat>)
    requires c > 0
    ensures |r| == n
  {
    seq(n, i requires 0 <= i < n => i / c)
  }

  lemma Quotient(c: nat, n: nat, g: nat)
    requires c > 0
    ensures n / c == g <==> c * g <= n < c * g + c
  {
    var q := n / c;
    assert n == c * q + n % c;
    Apart(c, g, q);
    Apart(c, q, g);
  }

  lemma Apart(c: nat, m: nat, n: nat)
    ensures m < n ==> c * m + c <= c * n
  {
    if m < n {
      TimesNext(c, m);
      TimesMono(c, m + 1, n);
    }
  }

  lemma {:induction false} SpreadCount(c: nat, n: nat, g: nat)
    requires c > 0
    ensures Count(Spread(c, n), g) == if n <= c * g then 0 else if n <= c * g + c then n - c * g else c
    decreases n
  {
    if n > 0 {
      assert Spread(c, n) == Spread(c, n - 1) + [(n - 1) / c];
      SpreadCount(c, n - 1, g);
      Quotient(c, n - 1, g);
    }
  }

  lemma SpreadBelow(c: nat, n: nat, k: nat)
    requires c > 0 && n <= c * k
    ensures forall g :: g in Spread(c, n) ==> g < k
  {
    forall i | 0 <= i < n ensures i / c < k { InBlock(c, i, k); }
  }

  lemma InBlock(c: nat, i: nat, k: nat)
    requires c > 0 && i < c * k
    ensures i / c < k
  {
    var q := i / c;
    assert c * q <= i;
    assert k <= q ==> c * k <= c * q by { if k <= q { TimesMono(c, k, q); } }
  }

  /** The numbers from one up to `k`. */
  function Range(k: nat): (r: set<nat>)
    ensures forall g :: g in r <==> 1 <= g < k
    ensures k >= 1 ==> |r| == k - 1
  {
    if k <= 1 then {} else Range(k - 1) + {k - 1}
  }

  lemma FewKnown(gs: seq<nat>, k: nat)
    requires k >= 1 && forall g :: g in gs ==> g < k
    ensures |Known(gs)| <= k - 1
  {
    SubsetSize(Known(gs), Range(k));
  }

  lemma MakeLoaded(l: Limits, a: seq<nat>, g: nat)
    requires |a| == Least(l) && |Known(a)| < l.groups && Count(a, g) > 1 && forall x :: Count(a, x) <= l.cap
    ensures Loaded(l, a)
  {}

  /** Filling up to two unclassified reservations when one is required. */
  lemma FillsTwo(l: Limits) returns (moves: seq<Move>)
    requires Proper(l) && l.required == 1 && l.cap >= 2
    ensures Plays(l, EMPTY, moves, Table([UNKNOWN, UNKNOWN], multiset{}))
  {
    var one, two := Table([UNKNOWN], multiset{}), Table([UNKNOWN, UNKNOWN], multiset{});
    FirstUnknown(l, one);
    SecondUnknown(l, one, two);
    hide *;
    PlayOne(l, EMPTY, Joins(UNKNOWN));
    PlayOne(l, one, Joins(UNKNOWN));
    moves := [Joins(UNKNOWN)] + [Joins(UNKNOWN)];
    PlayOn(l, EMPTY, [Joins(UNKNOWN)], one, [Joins(UNKNOWN)], two);
  }

  lemma FirstUnknown(l: Limits, one: Table)
    requires Proper(l) && one == Table([UNKNOWN], multiset{})
    ensures Legal(l, EMPTY, Joins(UNKNOWN)) && Moved(l, EMPTY, Joins(UNKNOWN)) == one
  {
    assert [] + [UNKNOWN] == [UNKNOWN];
  }

  lemma SecondUnknown(l: Limits, one: Table, two: Table)
    requires Proper(l) && l.required == 1 && l.cap >= 2
    requires one == Table([UNKNOWN], multiset{}) && two == Table([UNKNOWN, UNKNOWN], multiset{})
    ensures Legal(l, one, Joins(UNKNOWN)) && Moved(l, one, Joins(UNKNOWN)) == two
  {
    assert Count([UNKNOWN], UNKNOWN) == 1 && Known([UNKNOWN]) == {};
    assert Surplus([UNKNOWN]) == 1;
  }

  /** Filling up to the requirement, or to two when one is required. */
  lemma FillsLeast(l: Limits, gs: seq<nat>) returns (moves: seq<Move>)
    requires Proper(l) && l.cap >= 2 && |gs| == Least(l) && (forall g :: Count(gs, g) <= l.cap)
    requires l.required == 1 ==> gs == [UNKNOWN, UNKNOWN]
    ensures Plays(l, EMPTY, moves, Table(gs, multiset{}))
  {
    hide Plays;
    if l.required >= 2 {
      moves := JoinAll(gs);
      assert [] + gs == gs;
      Fills(l, [], gs);
    } else {
      moves := FillsTwo(l);
    }
  }

  // ---------------------------------------------------------------- one run for each kind of limits

  lemma MakeExceeds(l: Limits, moves: seq<Move>, u: Table, g: nat)
    requires Plays(l, EMPTY, moves, u) && Count(u.active, g) > l.cap
    ensures Exceeds(l, moves, u, g)
  {}

  lemma SmallLoaded(l: Limits, a: seq<nat>)
    requires Proper(l) && Least(l) < l.cap && a == Repeat(Least(l), UNKNOWN)
    ensures Loaded(l, a) && Count(a, UNKNOWN) == Least(l) && (l.required == 1 ==> a == [UNKNOWN, UNKNOWN])
    ensures forall x :: Count(a, x) <= l.cap
  {
    forall x ensures Count(a, x) == if x == UNKNOWN then Least(l) else 0 { RepeatCount(Least(l), UNKNOWN, x); }
    assert Known(a) == {};
    MakeLoaded(l, a, UNKNOWN);
  }

  /** Fewer required than the cap: the unclassified alone, again and again. */
  lemma SmallExceeds(l: Limits) returns (moves: seq<Move>, u: Table)
    requires Proper(l) && Least(l) < l.cap && l.concurrent + Least(l) >= l.cap + 2
    ensures Exceeds(l, moves, u, UNKNOWN)
  {
    hide Plays, Loaded, Count, Exceeds;
    var a := Repeat(Least(l), UNKNOWN);
    SmallLoaded(l, a);
    var fill := FillsLeast(l, a);
    moves, u := PilesUp(l, fill, a, UNKNOWN, l.cap + 1 - Least(l));
    MakeExceeds(l, moves, u, UNKNOWN);
  }

  lemma PairedLoaded(l: Limits, a: seq<nat>)
    requires Proper(l) && l.required == l.cap >= 3 && l.groups >= 2 && a == [1] + Repeat(l.cap - 1, UNKNOWN)
    ensures Loaded(l, a) && Count(a, UNKNOWN) == l.cap - 1 && forall x :: Count(a, x) <= l.cap
  {
    forall x ensures Count(a, x) == if x == UNKNOWN then l.cap - 1 else if x == 1 then 1 else 0 {
      RepeatCount(l.cap - 1, UNKNOWN, x);
    }
    assert Known(a) == {1};
    MakeLoaded(l, a, UNKNOWN);
  }

  /** As many required as the cap, in several groups. */
  lemma PairedExceeds(l: Limits) returns (moves: seq<Move>, u: Table)
    requires Proper(l) && l.required == l.cap >= 3 && l.groups >= 2 && l.concurrent >= 3
    ensures Exceeds(l, moves, u, UNKNOWN)
  {
    hide Plays, Loaded, Count, Exceeds;
    var a := [1] + Repeat(l.cap - 1, UNKNOWN);
    PairedLoaded(l, a);
    var fill := FillsLeast(l, a);
    moves, u := PilesUp(l, fill, a, UNKNOWN, 2);
    MakeExceeds(l, moves, u, UNKNOWN);
  }

  lemma CrammedLoaded(l: Limits, a: seq<nat>)
    requires Proper(l) && Crammed(l) && a == Spread(l.cap, l.cap * l.groups)
    ensures Loaded(l, a) && Count(a, l.groups) == 0 && (l.required == 1 ==> a == [UNKNOWN, UNKNOWN])
    ensures forall x :: Count(a, x) <= l.cap
  {
    hide Spread, Count, Known, Loaded;
    var c, n := l.cap, l.cap * l.groups;
    SpreadBelow(c, n, l.groups);
    FewKnown(a, l.groups);
    forall x ensures Count(a, x) <= c { SpreadCount(c, n, x); }
    SpreadCount(c, n, 0);
    SpreadCount(c, n, l.groups);
    TimesMono(c, 1, l.groups);
    MakeLoaded(l, a, 0);
    if l.required == 1 { OneBlock(a); }
  }

  lemma OneBlock(a: seq<nat>)
    requires a == Spread(2, 2)
    ensures a == [UNKNOWN, UNKNOWN]
  {}

  /** As many required as fit: a new group, waited for by one more worker than the cap. */
  lemma CrammedExceeds(l: Limits) returns (moves: seq<Move>, u: Table)
    requires Proper(l) && Crammed(l) && l.concurrent > l.cap
    ensures Exceeds(l, moves, u, l.groups)
  {
    hide Plays, Loaded, Count, Exceeds, Spread;
    var a := Spread(l.cap, l.cap * l.groups);
    CrammedLoaded(l, a);
    var fill := FillsLeast(l, a);
    var waits, b := Cycles(l, a, l.groups, l.cap);
    SameCount(a, b, l.groups);
    PlayOn(l, EMPTY, fill, Table(a, multiset{}), waits, Table(b, Copies(l.cap, l.groups)));
    moves, u := LastWaits(l, fill + waits, b, l.groups, l.cap);
    MakeExceeds(l, moves, u, l.groups);
  }

  lemma SameCount(a: seq<nat>, b: seq<nat>, g: nat)
    requires multiset(a) == multiset(b)
    ensures Count(a, g) == Count(b, g)
  {}

  /** One more worker waits for `g`, and then all of them insert. */
  lemma LastWaits(l: Limits, before: seq<Move>, b: seq<nat>, g: nat, k: nat) returns (moves: seq<Move>, u: Table)
    requires Proper(l) && Loaded(l, b) && Count(b, g) == 0 && k < l.concurrent && l.cap >= 1
    requires Plays(l, EMPTY, before, Table(b, Copies(k, g)))
    ensures Plays(l, EMPTY, moves, u) && Count(u.active, g) == k + 1
  {
    CopiesMore(k, g);
    WaitsFor(l, b, Copies(k, g), g);
    CutMultiset(b, Surplus(b));
    var e := Cut(b, Surplus(b));
    assert Count(e, g) == 0;
    RepeatCount(k + 1, g, g);
    u := Table(e + Repeat(k + 1, g), multiset{});
    assert Count(u.active, g) == k + 1;
    hide *;
    JoinPlays(l, Table(b, Copies(k, g)), g);
    SeatsAll(l, e, g, k + 1);
    PlayOn(l, EMPTY, before, Table(b, Copies(k, g)), [Joins(g)], Table(e, Copies(k + 1, g)));
    PlayOn(l, EMPTY, before + [Joins(g)], Table(e, Copies(k + 1, g)), Repeat(k + 1, Seats(g)), u);
    moves := before + [Joins(g)] + Repeat(k + 1, Seats(g));
  }

  lemma JoinPlays(l: Limits, t: Table, g: nat)
    requires MayJoin(l, t, g)
    ensures Plays(l, t, [Joins(g)], Join(l, t, g))
  {
    hide MayJoin, Join;
    PlayOne(l, t, Joins(g));
  }

  lemma SeatPlays(l: Limits, t: Table, g: nat)
    requires g in t.held
    ensures Plays(l, t, [Seats(g)], Seat(t, g))
  {
    PlayOne(l, t, Seats(g));
  }

  /** Between: one worker waits while another takes the last place of the group. */
  lemma OpenExceeds(l: Limits) returns (moves: seq<Move>, u: Table)
    requires Proper(l) && l.cap >= 2 && l.cap < l.required < l.cap * l.groups && l.concurrent >= 2
    ensures Exceeds(l, moves, u, l.groups)
  {
    hide Plays, Loaded, Count, Exceeds, Spread, Surplus;
    var a := Spread(l.cap, l.required - l.cap + 1) + Repeat(l.cap - 1, l.groups);
    OpenLoaded(l, a);
    var fill := FillsLeast(l, a);
    moves, u := SlipsIn(l, fill, a, l.groups);
    MakeExceeds(l, moves, u, l.groups);
  }

  /** A worker waits for `g` while another group gives a place up, a second worker takes that place for `g`. */
  lemma SlipsIn(l: Limits, fill: seq<Move>, a: seq<nat>, g: nat) returns (moves: seq<Move>, u: Table)
    requires Proper(l) && Loaded(l, a) && l.concurrent >= 2 && Count(a, g) == l.cap - 1
    requires Surplus(a) < |a| && a[Surplus(a)] != g && Plays(l, EMPTY, fill, Table(a, multiset{}))
    ensures Plays(l, EMPTY, moves, u) && Count(u.active, g) == l.cap + 1
  {
    WaitsFor(l, a, multiset{}, g);
    var b := Cut(a, Surplus(a));
    CutMultiset(a, Surplus(a));
    assert Count(b, g) == l.cap - 1;
    Refills(l, a, multiset{g}, g);
    assert multiset{} + multiset{g} == multiset{g};
    var mid := Table(b + [g], multiset{g});
    u := Seat(mid, g);
    assert Count(u.active, g) == l.cap + 1;
    hide *;
    JoinPlays(l, Table(a, multiset{}), g);
    JoinPlays(l, Table(b, multiset{g}), g);
    SeatPlays(l, mid, g);
    PlayOn(l, EMPTY, fill, Table(a, multiset{}), [Joins(g)], Table(b, multiset{g}));
    PlayOn(l, EMPTY, fill + [Joins(g)], Table(b, multiset{g}), [Joins(g)], mid);
    PlayOn(l, EMPTY, fill + [Joins(g)] + [Joins(g)], mid, [Seats(g)], u);
    moves := fill + [Joins(g)] + [Joins(g)] + [Seats(g)];
  }

  lemma OpenCounts(c: nat, n: nat, g: nat, a: seq<nat>)
    requires 2 <= c && 2 <= n && 1 <= g && n <= c * (g - 1) && a == Spread(c, n) + Repeat(c - 1, g)
    ensures (forall x :: Count(a, x) <= c) && Count(a, g) == c - 1 && Count(a, 0) >= 2
  {
    var front := Spread(c, n);
    SpreadBelow(c, n, g - 1);
    assert g !in multiset(front);
    forall x ensures Count(a, x) == Count(front, x) + Count(Repeat(c - 1, g), x) {}
    hide Spread;
    forall x ensures Count(a, x) <= c {
      RepeatCount(c - 1, g, x);
      SpreadCount(c, n, x);
    }
    RepeatCount(c - 1, g, g);
    SpreadCount(c, n, 0);
  }

  lemma OpenLoaded(l: Limits, a: seq<nat>)
    requires Proper(l) && l.cap >= 2 && l.cap < l.required < l.cap * l.groups
    requires a == Spread(l.cap, l.required - l.cap + 1) + Repeat(l.cap - 1, l.groups)
    ensures Loaded(l, a) && Count(a, l.groups) == l.cap - 1 && Surplus(a) < |a| && a[Surplus(a)] != l.groups
    ensures forall x :: Count(a, x) <= l.cap
  {
    var c, n, G := l.cap, l.required - l.cap + 1, l.groups;
    TimesNext(c, G - 1);
    OpenCounts(c, n, G, a);
    SpreadBelow(c, n, G - 1);
    assert a[0] == 0;
    assert G >= 2;
    OpenKnown(Spread(c, n), a, G);
    hide Count, Spread;
    assert Surplus(a) == 0;
    MakeLoaded(l, a, 0);
  }

  lemma OpenKnown(front: seq<nat>, a: seq<nat>, k: nat)
    requires k >= 2 && (forall g :: g in front ==> g < k - 1) && forall g :: g in a ==> g in front || g == k
    ensures |Known(a)| < k
  {
    FewKnown(front, k - 1);
    assert Known(a) <= Known(front) + {k};
    SubsetSize(Known(a), Known(front) + {k});
  }

  /** Two required in two groups of two: the unclassified make room for a known group. */
  lemma TwosExceed(l: Limits) returns (moves: seq<Move>, u: Table)
    requires l.required == l.groups == l.cap == 2 && l.concurrent >= 2
    ensures Exceeds(l, moves, u, 1)
  {
    var two, three := Table([1, UNKNOWN], multiset{}), Table([1, UNKNOWN, UNKNOWN], multiset{});
    var waits, again := Table([1, UNKNOWN], multiset{1}), Table([1, UNKNOWN, 1], multiset{1});
    TwosFilled(l, two, three);
    TwosWait(l, three, waits);
    TwosSlip(l, waits, again);
    TwosSeat(again);
    var fill := TwosFill(l, two);
    u := Seat(again, 1);
    hide *;
    JoinPlays(l, two, UNKNOWN);
    JoinPlays(l, three, 1);
    JoinPlays(l, waits, 1);
    SeatPlays(l, again, 1);
    PlayOn(l, EMPTY, fill, two, [Joins(UNKNOWN)], three);
    PlayOn(l, EMPTY, fill + [Joins(UNKNOWN)], three, [Joins(1)], waits);
    PlayOn(l, EMPTY, fill + [Joins(UNKNOWN)] + [Joins(1)], waits, [Joins(1)], again);
    PlayOn(l, EMPTY, fill + [Joins(UNKNOWN)] + [Joins(1)] + [Joins(1)], again, [Seats(1)], u);
    moves := fill + [Joins(UNKNOWN)] + [Joins(1)] + [Joins(1)] + [Seats(1)];
    MakeExceeds(l, moves, u, 1);
  }

  lemma TwosFill(l: Limits, two: Table) returns (fill: seq<Move>)
    requires l.required == l.groups == l.cap == 2 && l.concurrent >= 2 && two == Table([1, UNKNOWN], multiset{})
    ensures Plays(l, EMPTY, fill, two)
  {
    hide Plays;
    assert [] + [1, UNKNOWN] == [1, UNKNOWN];
    fill := JoinAll([1, UNKNOWN]);
    Fills(l, [], [1, UNKNOWN]);
  }

  lemma TwosSeat(again: Table)
    requires again == Table([1, UNKNOWN, 1], multiset{1})
    ensures Count(Seat(again, 1).active, 1) == 3
  {
    assert Seat(again, 1).active == [1, UNKNOWN, 1, 1];
  }

  lemma TwosFilled(l: Limits, two: Table, three: Table)
    requires l.required == l.groups == l.cap == 2 && l.concurrent >= 2
    requires two == Table([1, UNKNOWN], multiset{}) && three == Table([1, UNKNOWN, UNKNOWN], multiset{})
    ensures MayJoin(l, two, UNKNOWN) && Join(l, two, UNKNOWN) == three
  {
    var a := [1, UNKNOWN];
    assert Count(a, 1) == 1 && Count(a, UNKNOWN) == 1 && Known(a) == {1};
    assert a[0] == 1 && a[1] == UNKNOWN;
    assert Surplus(a) == 2;
  }

  lemma TwosWait(l: Limits, three: Table, waits: Table)
    requires l.required == l.groups == l.cap == 2 && l.concurrent >= 2
    requires three == Table([1, UNKNOWN, UNKNOWN], multiset{}) && waits == Table([1, UNKNOWN], multiset{1})
    ensures MayJoin(l, three, 1) && Join(l, three, 1) == waits
  {
    var a := [1, UNKNOWN, UNKNOWN];
    assert Count(a, 1) == 1 && Count(a, UNKNOWN) == 2 && Known(a) == {1} && a[0] == 1 && a[1] == UNKNOWN;
    assert Surplus(a) == 1;
    assert Cut(a, 1) == [1, UNKNOWN];
  }

  lemma TwosSlip(l: Limits, waits: Table, again: Table)
    requires l.required == l.groups == l.cap == 2 && l.concurrent >= 2
    requires waits == Table([1, UNKNOWN], multiset{1}) && again == Table([1, UNKNOWN, 1], multiset{1})
    ensures MayJoin(l, waits, 1) && Join(l, waits, 1) == again
  {
    var b := [1, UNKNOWN];
    assert Count(b, 1) == 1 && Count(b, UNKNOWN) == 1 && Known(b) == {1} && b[0] == 1 && b[1] == UNKNOWN;
    assert Surplus(b) == 2;
  }

  /** Whenever the limits allow it, some play exceeds the cap. */
  lemma CapExceeded(l: Limits) returns (moves: seq<Move>, u: Table, g: nat)
    requires Proper(l) && CanExceed(l)
    ensures Exceeds(l, moves, u, g)
  {
    hide Exceeds;
    TimesMono(l.cap, 1, l.groups);
    if l.cap < l.required < l.cap * l.groups {
      moves, u := OpenExceeds(l);
      g := l.groups;
    } else if Least(l) == l.cap * l.groups {
      moves, u := CrammedExceeds(l);
      g := l.groups;
    } else if Least(l) == l.cap == 2 {
      OnlyTwos(l);
      moves, u := TwosExceed(l);
      g := 1;
    } else if Least(l) == l.cap {
      assert l.groups >= 2;
      moves, u := PairedExceeds(l);
      g := UNKNOWN;
    } else {
      moves, u := SmallExceeds(l);
      g := UNKNOWN;
    }
  }

  lemma OnlyTwos(l: Limits)
    requires Proper(l) && Least(l) == l.cap == 2 && Least(l) != l.cap * l.groups
    ensures l.required == l.groups == 2
  {}
}
