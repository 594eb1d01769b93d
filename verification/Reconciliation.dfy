/**
 Reconciling record sets from several sources.

 One pass over all sources keeps, for each peer, the fresh record with the highest sequence number
 met so far.  Two records of one peer with the same sequence number and different signatures
 discredit the peer for the rest of the pass.  Peers are numbered in the order of their names.
 */
module Reconciliation {
  import opened HashGraphs
  import opened Children

  datatype Entry = Entry(peer: nat, sequence: nat, signature: string, expiresAtMs: int, payload: nat)

  // ---------------------------------------------------------------- the fate of one peer

  datatype Fate = Absent | Held(entry: Entry) | Conflicted

  predicate Counts(e: Entry, p: nat, now: int) {
    e.peer == p && e.expiresAtMs > now
  }

  function Meet(f: Fate, e: Entry): Fate {
    match f
    case Absent => Held(e)
    case Conflicted => Conflicted
    case Held(x) =>
      if e.sequence > x.sequence then Held(e)
      else if e.sequence == x.sequence && e.signature != x.signature then Conflicted
      else Held(x)
  }

  /** What has become of peer `p` after the entries `es`. */
  function FateOf(es: seq<Entry>, p: nat, now: int): Fate
    decreases |es|
  {
    if es == [] then Absent
    else
      var f := FateOf(es[..|es| - 1], p, now);
      var e := es[|es| - 1];
      if Counts(e, p, now) then Meet(f, e) else f
  }

  lemma FateSnoc(es: seq<Entry>, e: Entry, p: nat, now: int)
    ensures FateOf(es + [e], p, now) == var f := FateOf(es, p, now); if Counts(e, p, now) then Meet(f, e) else f
  {
    assert (es + [e])[..|es|] == es;
  }

  // ---------------------------------------------------------------- what the fates mean

  ghost predicate Fresh(es: seq<Entry>, p: nat, now: int, e: Entry) {
    e in es && Counts(e, p, now)
  }

  /** `e` is a fresh record of `p` with the highest sequence number. */
  ghost predicate Newest(es: seq<Entry>, p: nat, now: int, e: Entry) {
    Fresh(es, p, now, e) && forall x :: Fresh(es, p, now, x) ==> x.sequence <= e.sequence
  }

  predicate Clash(a: Entry, b: Entry) {
    a.sequence == b.sequence && a.signature != b.signature
  }

  /** Two fresh records of `p` clash. */
  ghost predicate Clashing(es: seq<Entry>, p: nat, now: int) {
    exists a, b :: Fresh(es, p, now, a) && Fresh(es, p, now, b) && Clash(a, b)
  }

  /** Two of the newest records of `p` clash. */
  ghost predicate TopClashing(es: seq<Entry>, p: nat, now: int) {
    exists a, b :: Newest(es, p, now, a) && Newest(es, p, now, b) && Clash(a, b)
  }

  /** A held record is fresh, newest, and no newest record has another signature. */
  lemma {:induction false} HeldIsNewest(es: seq<Entry>, p: nat, now: int)
    requires FateOf(es, p, now).Held?
    ensures var e := FateOf(es, p, now).entry;
            Newest(es, p, now, e) && forall x :: Newest(es, p, now, x) ==> x.signature == e.signature
    decreases |es|
  {
    var less, last := es[..|es| - 1], es[|es| - 1];
    assert es == less + [last];
    assert forall x :: Fresh(es, p, now, x) <==> Fresh(less, p, now, x) || (x == last && Counts(last, p, now));
    hide Counts;
    AbsentMeans(less, p, now);
    if FateOf(less, p, now).Held? {
      HeldIsNewest(less, p, now);
      if Counts(last, p, now) { Replaced(es, less, last, p, now); }
    }
  }

  /** One more fresh record after a held one. */
  lemma Replaced(es: seq<Entry>, less: seq<Entry>, last: Entry, p: nat, now: int)
    requires es == less + [last] && FateOf(less, p, now).Held? && Counts(last, p, now) && FateOf(es, p, now).Held?
    requires var e := FateOf(less, p, now).entry;
             Newest(less, p, now, e) && forall x :: Newest(less, p, now, x) ==> x.signature == e.signature
    ensures var e := FateOf(es, p, now).entry;
            Newest(es, p, now, e) && forall x :: Newest(es, p, now, x) ==> x.signature == e.signature
  {
    FateSnoc(less, last, p, now);
    hide FateOf, Counts;
    var e := FateOf(es, p, now).entry;
    var was := FateOf(less, p, now).entry;
    assert forall x :: Fresh(es, p, now, x) <==> Fresh(less, p, now, x) || x == last;
    forall x | Newest(es, p, now, x) ensures x.signature == e.signature {
      if x != last { assert Fresh(less, p, now, x) && x.sequence <= was.sequence && Newest(less, p, now, x); }
    }
  }

  lemma {:induction false} AbsentMeans(es: seq<Entry>, p: nat, now: int)
    ensures FateOf(es, p, now) == Absent <==> forall e :: !Fresh(es, p, now, e)
    decreases |es|
  {
    if es != [] {
      var less, last := es[..|es| - 1], es[|es| - 1];
      assert es == less + [last];
      AbsentMeans(less, p, now);
      assert forall e :: Fresh(es, p, now, e) <==> Fresh(less, p, now, e) || (e == last && Counts(last, p, now));
      if Counts(last, p, now) { assert Fresh(es, p, now, last); }
    }
  }

  /** A peer is discredited only by a clash. */
  lemma {:induction false} ConflictIsClash(es: seq<Entry>, p: nat, now: int)
    requires FateOf(es, p, now).Conflicted?
    ensures Clashing(es, p, now)
    decreases |es|
  {
    var less, last := es[..|es| - 1], es[|es| - 1];
    assert es == less + [last];
    assert forall x :: Fresh(less, p, now, x) ==> Fresh(es, p, now, x);
    if FateOf(less, p, now).Conflicted? {
      ConflictIsClash(less, p, now);
    } else {
      HeldIsNewest(less, p, now);
      assert Fresh(es, p, now, last) && Clash(last, FateOf(less, p, now).entry);
    }
  }

  // ---------------------------------------------------------------- independence of the order

  /** Clashes only count when there is one at the top. */
  ghost predicate Settled(es: seq<Entry>, p: nat, now: int) {
    Clashing(es, p, now) ==> TopClashing(es, p, now)
  }

  /** For a settled peer the fate is decided by which records there are, not by their order. */
  lemma FateIsNewest(es: seq<Entry>, p: nat, now: int)
    requires Settled(es, p, now)
    ensures FateOf(es, p, now).Held? <==> (exists e :: Fresh(es, p, now, e)) && !TopClashing(es, p, now)
  {
    AbsentMeans(es, p, now);
    if FateOf(es, p, now).Held? { HeldIsNewest(es, p, now); }
    if FateOf(es, p, now).Conflicted? { ConflictIsClash(es, p, now); }
  }

  ghost predicate SameUpToSignature(a: Fate, b: Fate) {
    && (a.Held? <==> b.Held?)
    && (a.Held? && b.Held? ==> a.entry.peer == b.entry.peer && a.entry.sequence == b.entry.sequence
                               && a.entry.signature == b.entry.signature)
  }

  lemma SameMembers(es: seq<Entry>, fs: seq<Entry>, p: nat, now: int)
    requires multiset(es) == multiset(fs)
    ensures forall e :: Fresh(es, p, now, e) <==> Fresh(fs, p, now, e)
  {
    forall e ensures e in es <==> e in fs {
      assert e in es <==> e in multiset(es);
      assert e in fs <==> e in multiset(fs);
    }
  }

  /** Reordering the sources does not change what is held of a settled peer, up to the payload. */
  lemma OrderIrrelevant(es: seq<Entry>, fs: seq<Entry>, p: nat, now: int)
    requires multiset(es) == multiset(fs) && Settled(es, p, now)
    ensures SameUpToSignature(FateOf(es, p, now), FateOf(fs, p, now))
  {
    SameMembers(es, fs, p, now);
    assert forall e :: Newest(es, p, now, e) <==> Newest(fs, p, now, e);
    assert Clashing(es, p, now) <==> Clashing(fs, p, now);
    assert TopClashing(es, p, now) <==> TopClashing(fs, p, now);
    FateIsNewest(es, p, now);
    FateIsNewest(fs, p, now);
    if FateOf(es, p, now).Held? {
      HeldIsNewest(es, p, now);
      HeldIsNewest(fs, p, now);
    }
  }

  lemma {:induction false} ConflictStays(es: seq<Entry>, fs: seq<Entry>, p: nat, now: int)
    requires FateOf(es, p, now).Conflicted?
    ensures FateOf(es + fs, p, now).Conflicted?
    decreases |fs|
  {
    if fs == [] {
      assert es + fs == es;
    } else {
      ConflictStays(es, fs[..|fs| - 1], p, now);
      FateSnoc(es + fs[..|fs| - 1], fs[|fs| - 1], p, now);
      assert es + fs == (es + fs[..|fs| - 1]) + [fs[|fs| - 1]];
    }
  }

  /** A record that nothing in `fs` beats or clashes with stays held. */
  lemma {:induction false} TopStays(e: Entry, fs: seq<Entry>, p: nat, now: int)
    requires Counts(e, p, now)
    requires forall x :: x in fs && Counts(x, p, now) ==> x.sequence <= e.sequence && !Clash(x, e)
    ensures FateOf([e] + fs, p, now) == Held(e)
    decreases |fs|
  {
    if fs == [] {
      assert [e] + fs == [] + [e];
      FateSnoc([], e, p, now);
    } else {
      var less := fs[..|fs| - 1];
      TopStays(e, less, p, now);
      FateSnoc([e] + less, fs[|fs| - 1], p, now);
      assert [e] + fs == ([e] + less) + [fs[|fs| - 1]];
    }
  }

  /** Any record can come first. */
  lemma MoveFirst(es: seq<Entry>, e: Entry) returns (rest: seq<Entry>)
    requires e in es
    ensures multiset([e] + rest) == multiset(es) && forall x :: x in rest ==> x in es
    ensures forall x :: x in es && x != e ==> x in rest
  {
    var i :| 0 <= i < |es| && es[i] == e;
    rest := es[..i] + es[i + 1..];
    assert es == es[..i] + [e] + es[i + 1..];
  }

  /** An unsettled peer is dropped in one order of its records and held in another. */
  lemma OrderMatters(es: seq<Entry>, p: nat, now: int) returns (fs: seq<Entry>, gs: seq<Entry>)
    requires !Settled(es, p, now)
    ensures multiset(fs) == multiset(es) && multiset(gs) == multiset(es)
    ensures FateOf(fs, p, now).Conflicted? && FateOf(gs, p, now).Held?
  {
    var a, b :| Fresh(es, p, now, a) && Fresh(es, p, now, b) && Clash(a, b);
    var rest := MoveFirst(es, a);
    var others := MoveFirst(rest, b);
    fs := [a, b] + others;
    assert fs == [a] + ([b] + others);
    PairConflicts(a, b, p, now);
    ConflictStays([a, b], others, p, now);
    var top := Highest(es, p, now, a);
    var low := MoveFirst(es, top);
    gs := [top] + low;
    forall x | x in low && Counts(x, p, now) ensures x.sequence <= top.sequence && !Clash(x, top) {
      assert Fresh(es, p, now, x);
      if Clash(x, top) { assert Newest(es, p, now, x); }
    }
    TopStays(top, low, p, now);
  }

  lemma PairConflicts(a: Entry, b: Entry, p: nat, now: int)
    requires Counts(a, p, now) && Counts(b, p, now) && Clash(a, b)
    ensures FateOf([a, b], p, now).Conflicted?
  {
    assert [a, b] == ([] + [a]) + [b];
    FateSnoc([], a, p, now);
    FateSnoc([a], b, p, now);
  }

  lemma {:induction false} Highest(es: seq<Entry>, p: nat, now: int, a: Entry) returns (top: Entry)
    requires Fresh(es, p, now, a)
    ensures Newest(es, p, now, top)
    decreases |es|
  {
    var less, last := es[..|es| - 1], es[|es| - 1];
    assert es == less + [last];
    assert forall x :: Fresh(es, p, now, x) <==> Fresh(less, p, now, x) || (x == last && Counts(last, p, now));
    if x :| Fresh(less, p, now, x) {
      top := Highest(less, p, now, x);
      if Counts(last, p, now) && last.sequence > top.sequence { top := last; }
    } else {
      top := a;
    }
  }

  // ---------------------------------------------------------------- the pass

  function Flat(sets: seq<seq<Entry>>): seq<Entry>
    decreases |sets|
  {
    if sets == [] then [] else Flat(sets[..|sets| - 1]) + sets[|sets| - 1]
  }

  /** The peers held after `es`. */
  function Live(es: seq<Entry>, now: int): set<nat> {
    set e | e in es && FateOf(es, e.peer, now).Held? :: e.peer
  }

  /** At some point a new peer arrives while as many as allowed are held. */
  ghost predicate Overflows(es: seq<Entry>, now: int, maximum: nat) {
    exists k :: 0 <= k < |es| && Arrives(es, k, now, maximum)
  }

  predicate Arrives(es: seq<Entry>, k: nat, now: int, maximum: nat)
    requires k < |es|
  {
    es[k].expiresAtMs > now && FateOf(es[..k], es[k].peer, now) == Absent && |Live(es[..k], now)| >= maximum
  }

  /** The candidates and the discredited peers are the fates so far. */
  ghost predicate Matches(es: seq<Entry>, now: int, candidates: map<nat, Entry>, conflicted: set<nat>) {
    forall p :: match FateOf(es, p, now)
                case Absent => p !in candidates && p !in conflicted
                case Held(e) => p in candidates && candidates[p] == e && p !in conflicted
                case Conflicted => p !in candidates && p in conflicted
  }

  lemma LiveIs(es: seq<Entry>, now: int, candidates: map<nat, Entry>, conflicted: set<nat>)
    requires Matches(es, now, candidates, conflicted)
    ensures candidates.Keys == Live(es, now) && |candidates| == |Live(es, now)|
  {
    forall p ensures p in candidates <==> p in Live(es, now) {
      if p in candidates {
        assert FateOf(es, p, now).Held?;
        HeldIsNewest(es, p, now);
        var e := FateOf(es, p, now).entry;
        assert e in es && e.peer == p;
      }
    }
  }

  lemma MatchesSnoc(es: seq<Entry>, e: Entry, now: int, m: map<nat, Entry>, bad: set<nat>, m': map<nat, Entry>,
                    bad': set<nat>)
    requires Matches(es, now, m, bad)
    requires var f := if e.expiresAtMs > now then Meet(FateOf(es, e.peer, now), e) else FateOf(es, e.peer, now);
             match f
             case Absent => m' == m && bad' == bad
             case Held(x) => m' == m[e.peer := x] && bad' == bad
             case Conflicted => m' == m - {e.peer} && bad' == bad + {e.peer}
    ensures Matches(es + [e], now, m', bad')
  {
    forall p ensures match FateOf(es + [e], p, now)
                     case Absent => p !in m' && p !in bad'
                     case Held(x) => p in m' && m'[p] == x && p !in bad'
                     case Conflicted => p !in m' && p in bad'
    {
      FateSnoc(es, e, p, now);
      hide FateOf;
    }
  }

  lemma OverflowsSnoc(es: seq<Entry>, e: Entry, now: int, maximum: nat)
    ensures Overflows(es + [e], now, maximum)
            <==> Overflows(es, now, maximum)
                 || (e.expiresAtMs > now && FateOf(es, e.peer, now) == Absent && |Live(es, now)| >= maximum)
  {
    var more := es + [e];
    assert more[..|es|] == es && more[|es|] == e;
    assert Arrives(more, |es|, now, maximum)
           <==> e.expiresAtMs > now && FateOf(es, e.peer, now) == Absent && |Live(es, now)| >= maximum;
    hide FateOf, Live, Arrives;
    forall k | 0 <= k < |es| ensures Arrives(more, k, now, maximum) <==> Arrives(es, k, now, maximum) {
      ArrivesSame(es, e, k, now, maximum);
    }
  }

  lemma ArrivesSame(es: seq<Entry>, e: Entry, k: nat, now: int, maximum: nat)
    requires k < |es|
    ensures Arrives(es + [e], k, now, maximum) <==> Arrives(es, k, now, maximum)
  {
    hide FateOf, Live;
    assert (es + [e])[..k] == es[..k];
  }

  lemma {:induction false} OverflowsMore(es: seq<Entry>, fs: seq<Entry>, now: int, maximum: nat)
    requires Overflows(es, now, maximum)
    ensures Overflows(es + fs, now, maximum)
    decreases |fs|
  {
    if fs == [] {
      assert es + fs == es;
    } else {
      assert es + fs == (es + [fs[0]]) + fs[1..];
      OverflowsSnoc(es, fs[0], now, maximum);
      OverflowsMore(es + [fs[0]], fs[1..], now, maximum);
    }
  }

  ghost predicate ByPeer(r: seq<Entry>) {
    forall i, j :: 0 <= i < j < |r| ==> r[i].peer < r[j].peer
  }

  method SortPeers(peers: set<nat>) returns (ps: seq<nat>)
    ensures (forall p :: p in ps <==> p in peers) && forall i, j :: 0 <= i < j < |ps| ==> ps[i] < ps[j]
  {
    var rest := peers;
    ps := [];
    while rest != {}
      invariant forall p :: p in peers <==> p in ps || p in rest
      invariant forall i, p :: 0 <= i < |ps| && p in rest ==> ps[i] < p
      invariant forall i, j :: 0 <= i < j < |ps| ==> ps[i] < ps[j]
      decreases |rest|
    {
      ghost var bottom := Least(rest);
      var least :| least in rest && forall p :: p in rest ==> least <= p;
      ps := ps + [least];
      rest := rest - {least};
    }
  }

  /** The candidates in the order of their peers. */
  method SortByPeer(candidates: map<nat, Entry>) returns (r: seq<Entry>)
    requires forall p :: p in candidates ==> candidates[p].peer == p
    ensures ByPeer(r) && forall e: Entry :: e in r <==> e.peer in candidates && candidates[e.peer] == e
  {
    var ps := SortPeers(candidates.Keys);
    assert forall i :: 0 <= i < |ps| ==> ps[i] in candidates;
    r := seq(|ps|, i requires 0 <= i < |ps| => candidates[ps[i]]);
    forall e: Entry | e.peer in candidates && candidates[e.peer] == e ensures e in r {
      var i :| 0 <= i < |ps| && ps[i] == e.peer;
      assert r[i] == e;
    }
  }

  /**
   The union of the sources: None when a new peer arrives while `maximum` are held.  Otherwise exactly
   the held record of every peer, each once, in the order of the peers.
   */
  method Reconcile(sets: seq<seq<Entry>>, now: int, maximum: Option<nat>) returns (r: Option<seq<Entry>>)
    ensures r.None? <==> maximum.Some? && Overflows(Flat(sets), now, maximum.value)
    ensures r.Some? ==>
              && ByPeer(r.value)
              && forall e: Entry :: e in r.value <==> FateOf(Flat(sets), e.peer, now) == Held(e)
  {
    hide FateOf, Live, Overflows, Flat, Matches;
    var candidates: map<nat, Entry> := map[];
    var conflicted: set<nat> := {};
    NothingMet(now, maximum);
    for i := 0 to |sets|
      invariant Matches(Flat(sets[..i]), now, candidates, conflicted)
      invariant maximum.Some? ==> !Overflows(Flat(sets[..i]), now, maximum.value)
    {
      ghost var before := Flat(sets[..i]);
      assert before + sets[i][..0] == before;
      for j := 0 to |sets[i]|
        invariant Matches(before + sets[i][..j], now, candidates, conflicted)
        invariant maximum.Some? ==> !Overflows(before + sets[i][..j], now, maximum.value)
      {
        var e := sets[i][j];
        ghost var es := before + sets[i][..j];
        assert before + sets[i][..j + 1] == es + [e];
        LiveIs(es, now, candidates, conflicted);
        if maximum.Some? { OverflowsSnoc(es, e, now, maximum.value); }
        ghost var m, bad := candidates, conflicted;
        MatchesAt(es, now, m, bad, e.peer);
        if e.expiresAtMs <= now || e.peer in conflicted {
          MatchesSnoc(es, e, now, m, bad, m, bad);
          continue;
        }
        if e.peer !in candidates {
          if maximum.Some? && |candidates| >= maximum.value {
            Overflowed(sets, i, j, now, maximum.value);
            return None;
          }
          candidates := candidates[e.peer := e];
        } else if e.sequence > candidates[e.peer].sequence {
          candidates := candidates[e.peer := e];
        } else if e.sequence == candidates[e.peer].sequence && e.signature != candidates[e.peer].signature {
          candidates := candidates - {e.peer};
          conflicted := conflicted + {e.peer};
        }
        MatchesSnoc(es, e, now, m, bad, candidates, conflicted);
      }
      FlatSnoc(sets, i);
      assert sets[i][..|sets[i]|] == sets[i];
    }
    assert sets[..|sets|] == sets;
    KeysMatch(Flat(sets), now, candidates, conflicted);
    var sorted := SortByPeer(candidates);
    r := Some(sorted);
  }

  lemma MatchesAt(es: seq<Entry>, now: int, m: map<nat, Entry>, bad: set<nat>, p: nat)
    requires Matches(es, now, m, bad)
    ensures FateOf(es, p, now) == if p in m then Held(m[p]) else if p in bad then Conflicted else Absent
    ensures p in bad ==> m - {p} == m && bad + {p} == bad
    ensures p in m ==> m[p := m[p]] == m
  {
    assert p in bad ==> p !in m;
  }

  lemma NothingMet(now: int, maximum: Option<nat>)
    ensures Flat([]) == [] && Matches([], now, map[], {}) && (maximum.Some? ==> !Overflows([], now, maximum.value))
  {}

  lemma FlatSnoc(sets: seq<seq<Entry>>, i: nat)
    requires i < |sets|
    ensures Flat(sets[..i + 1]) == Flat(sets[..i]) + sets[i]
  {
    assert sets[..i + 1][..i] == sets[..i];
  }

  lemma {:induction false} FlatPrefix(sets: seq<seq<Entry>>, i: nat) returns (rest: seq<Entry>)
    requires i <= |sets|
    ensures Flat(sets) == Flat(sets[..i]) + rest
    decreases |sets| - i
  {
    if i == |sets| {
      assert sets[..i] == sets;
      rest := [];
    } else {
      var more := FlatPrefix(sets, i + 1);
      FlatSnoc(sets, i);
      rest := sets[i] + more;
    }
  }

  lemma Overflowed(sets: seq<seq<Entry>>, i: nat, j: nat, now: int, maximum: nat)
    requires i < |sets| && j < |sets[i]| && Overflows(Flat(sets[..i]) + sets[i][..j + 1], now, maximum)
    ensures Overflows(Flat(sets), now, maximum)
  {
    hide Overflows, Flat;
    FlatSnoc(sets, i);
    var rest := FlatPrefix(sets, i + 1);
    var seen := Flat(sets[..i]) + sets[i][..j + 1];
    assert Flat(sets) == seen + (sets[i][j + 1..] + rest);
    OverflowsMore(seen, sets[i][j + 1..] + rest, now, maximum);
  }

  lemma KeysMatch(es: seq<Entry>, now: int, candidates: map<nat, Entry>, conflicted: set<nat>)
    requires Matches(es, now, candidates, conflicted)
    ensures forall p :: p in candidates ==> candidates[p].peer == p
    ensures forall e: Entry :: e.peer in candidates && candidates[e.peer] == e <==> FateOf(es, e.peer, now) == Held(e)
  {
    forall p | p in candidates ensures candidates[p].peer == p {
      assert FateOf(es, p, now).Held?;
      HeldIsNewest(es, p, now);
    }
  }

  /** With no more fresh peers than allowed the pass never overflows. */
  lemma FewPeers(es: seq<Entry>, now: int, maximum: nat)
    requires |set e | e in es && e.expiresAtMs > now :: e.peer| <= maximum
    ensures !Overflows(es, now, maximum)
  {
    var peers := set e | e in es && e.expiresAtMs > now :: e.peer;
    forall k | 0 <= k < |es| ensures !Arrives(es, k, now, maximum) {
      if Arrives(es, k, now, maximum) {
        var live := Live(es[..k], now);
        forall p | p in live ensures p in peers {
          HeldIsNewest(es[..k], p, now);
          var e := FateOf(es[..k], p, now).entry;
          assert e in es;
        }
        assert es[k].peer in peers && es[k].peer !in live;
        assert live + {es[k].peer} <= peers;
        Smaller(live + {es[k].peer}, peers);
      }
    }
  }

  lemma Smaller(a: set<nat>, b: set<nat>)
    requires a <= b
    ensures |a| <= |b|
  {
    if a != {} {
      var x :| x in a;
      Smaller(a - {x}, b - {x});
    }
  }
}
