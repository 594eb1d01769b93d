/**
 Linearization with pair semantics.

 The topological order is scanned from the front.  Each surviving entry (the anchor) is compared
 with every later entry that the causality matrix calls unrelated, and the conflict resolver may
 drop either of the two or swap them.  A swap exchanges the two positions and also the two rows of
 the matrix, and restarts the comparison two positions after the anchor.
 */
module PairLinearizer {
  import opened HashGraphs
  import opened TopologicalSort

  // ---------------------------------------------------------------- conflict resolvers

  datatype Action = Nop | DropLeft | DropRight | Swap | Drop

  type Resolver = (Vertex, Vertex) -> Action

  /** The resolvers of an object; None where the application supplies none.  A resolver may ask for
      swaps for ever; a comparison that swaps more than `swaps` times counts as not returning. */
  datatype Policy = Policy(resolveACL: Option<Resolver>, resolveDRP: Option<Resolver>, swaps: nat)

  predicate IsACL(v: Vertex) {
    v.operation.Some? && v.operation.value.drpType == ACL
  }

  function Chosen(pol: Policy, v: Vertex): Option<Resolver> {
    if IsACL(v) then pol.resolveACL else pol.resolveDRP
  }

  function Resolve(pol: Policy, left: Vertex, right: Vertex): Action {
    match Chosen(pol, left)
    case None => Nop
    case Some(resolver) => resolver(left, right)
  }

  /** An answer that leaves both vertices where they are. */
  predicate Idle(action: Action) {
    action == Nop || action == Drop
  }

  /**
   A vertex that a swap moves to the front leaves the vertex it changed places with alone, and asks
   for no further swap.  Resolvers that never swap satisfy this on every graph.
   */
  ghost predicate CalmSwap(pol: Policy, s: Graph) {
    forall l, r :: l in s && r in s && Resolve(pol, s[l], s[r]) == Swap ==>
      Idle(Resolve(pol, s[r], s[l])) && NoSwap(pol, s, r)
  }

  /** `r` asks for no swap with any vertex. */
  ghost predicate NoSwap(pol: Policy, s: Graph, r: Hash)
    requires r in s
  {
    forall z :: z in s ==> Resolve(pol, s[r], s[z]) != Swap
  }

  lemma CalmSub(pol: Policy, s: Graph, T: set<Hash>)
    requires CalmSwap(pol, s)
    ensures CalmSwap(pol, Sub(s, T))
  {
    var q := Sub(s, T);
    forall l, r | l in q && r in q && Resolve(pol, q[l], q[r]) == Swap
      ensures Idle(Resolve(pol, q[r], q[l])) && NoSwap(pol, q, r)
    {
      assert NoSwap(pol, s, r);
    }
  }

  // ---------------------------------------------------------------- the causality matrix

  /**
   For each hash of the order, the hashes whose column is set in its row.  The program keeps one row
   per position and reads, for each hash, the row of its last position.
   */
  type Rows = map<Hash, set<Hash>>

  /** Or the row of every dependency into the row of `h`, setting the dependency's own bit first. */
  function AddDeps(rows: Rows, h: Hash, deps: seq<Hash>): (r: Rows)
    requires h in rows
    ensures r.Keys == rows.Keys
  {
    if deps == [] then rows
    else if deps[0] !in rows then AddDeps(rows, h, deps[1..])
    else
      var source := rows[deps[0]] + {deps[0]};
      var marked := rows[deps[0] := source];
      AddDeps(marked[h := marked[h] + source], h, deps[1..])
  }

  /** Set the own bit of every dependency: all that an earlier position of a repeated hash leaves behind. */
  function MarkDeps(rows: Rows, deps: seq<Hash>): (r: Rows)
    ensures r.Keys == rows.Keys
  {
    if deps == [] then rows
    else if deps[0] !in rows then MarkDeps(rows, deps[1..])
    else MarkDeps(rows[deps[0] := rows[deps[0]] + {deps[0]}], deps[1..])
  }

  /** Whether position `k` is the last one of its hash. */
  predicate LastAt(order: seq<Hash>, k: nat)
    requires k < |order|
  {
    order[k] !in order[k + 1..]
  }

  function BuildRows(s: Graph, order: seq<Hash>, k: nat): (r: Rows)
    requires k <= |order|
    ensures forall h :: h in r <==> h in order
  {
    if k == 0 then map h | h in order :: {}
    else
      var rows, deps := BuildRows(s, order, k - 1), Deps(s, order[k - 1]);
      if LastAt(order, k - 1) then AddDeps(rows, order[k - 1], deps) else MarkDeps(rows, deps)
  }

  lemma {:induction false} AddDepsEffect(rows: Rows, h: Hash, deps: seq<Hash>)
    requires h in rows && h !in deps
    ensures forall x :: x in rows && x != h ==> rows[x] <= AddDeps(rows, h, deps)[x] <= rows[x] + {x}
    ensures forall a :: a in AddDeps(rows, h, deps)[h] <==>
                        a in rows[h] || exists d :: d in deps && d in rows && (a in rows[d] || a == d)
    decreases |deps|
  {
    if deps != [] {
      if deps[0] !in rows {
        AddDepsEffect(rows, h, deps[1..]);
      } else {
        var source := rows[deps[0]] + {deps[0]};
        var marked := rows[deps[0] := source];
        AddDepsEffect(marked[h := marked[h] + source], h, deps[1..]);
      }
    }
  }

  /** Row `h` is complete: it holds the ancestors of `h`, and possibly `h` itself. */
  ghost predicate Complete(s: Graph, row: set<Hash>, h: Hash) {
    forall a :: a != h ==> (a in row <==> a in s && Below(s, a, h))
  }

  ghost predicate RowsDone(s: Graph, order: seq<Hash>, rows: Rows, k: nat) {
    && (forall h :: h in rows <==> h in order)
    && (forall i :: 0 <= i < k && i < |order| ==> Complete(s, rows[order[i]], order[i]))
    && (forall i :: k <= i < |order| ==> rows[order[i]] == {})
  }

  lemma RowsStep(s: Graph, order: seq<Hash>, rows: Rows, k: nat)
    requires Acyclic(s) && Distinct(order) && Topological(s, order) && (forall h :: h in order <==> h in s)
    requires k < |order| && RowsDone(s, order, rows, k)
    ensures RowsDone(s, order, AddDeps(rows, order[k], Deps(s, order[k])), k + 1)
  {
    var h := order[k];
    var deps := Deps(s, h);
    var r := AddDeps(rows, h, deps);
    RowFilled(s, order, rows, k);
    forall i | 0 <= i < |order| && i != k
      ensures i < k ==> Complete(s, r[order[i]], order[i])
      ensures i > k ==> r[order[i]] == {}
    {
      OtherRow(s, order, rows, k, i);
    }
  }

  lemma NotOwnDep(s: Graph, h: Hash)
    requires Acyclic(s)
    ensures h !in Deps(s, h)
  {
    assert AtMost(s, h, h);
    BelowLast(s, h, h);
  }

  lemma OtherRow(s: Graph, order: seq<Hash>, rows: Rows, k: nat, i: nat)
    requires Acyclic(s) && Distinct(order) && Topological(s, order) && (forall h :: h in order <==> h in s)
    requires k < |order| && i < |order| && i != k && RowsDone(s, order, rows, k)
    ensures var r := AddDeps(rows, order[k], Deps(s, order[k]));
            && (i < k ==> Complete(s, r[order[i]], order[i]))
            && (i > k ==> r[order[i]] == {})
  {
    var h := order[k];
    NotOwnDep(s, h);
    if i < k {
      AddDepsEffect(rows, h, Deps(s, h));
      assert Complete(s, rows[order[i]], order[i]);
    } else {
      assert rows[order[i]] == {};
      LaterUnmarked(rows, h, Deps(s, h), order[i]);
    }
  }

  /** The new row is the union of the rows of the dependencies, and of the dependencies themselves. */
  lemma RowFilled(s: Graph, order: seq<Hash>, rows: Rows, k: nat)
    requires Acyclic(s) && Distinct(order) && Topological(s, order) && (forall h :: h in order <==> h in s)
    requires k < |order| && RowsDone(s, order, rows, k)
    ensures Complete(s, AddDeps(rows, order[k], Deps(s, order[k]))[order[k]], order[k])
  {
    var h := order[k];
    var deps := Deps(s, h);
    NotOwnDep(s, h);
    AddDepsEffect(rows, h, deps);
    assert rows[order[k]] == {};
    forall a | a != h ensures a in AddDeps(rows, h, deps)[h] <==> a in s && Below(s, a, h) {
      DepRows(s, order, rows, k, a);
    }
  }

  lemma DepRows(s: Graph, order: seq<Hash>, rows: Rows, k: nat, a: Hash)
    requires Acyclic(s) && Topological(s, order) && (forall h :: h in order <==> h in s)
    requires k < |order| && RowsDone(s, order, rows, k)
    ensures (exists d :: d in Deps(s, order[k]) && d in rows && (a in rows[d] || a == d))
            <==> a in s && Below(s, a, order[k])
  {
    var deps := Deps(s, order[k]);
    BelowLast(s, a, order[k]);
    if d :| d in deps && d in rows && (a in rows[d] || a == d) {
      DepBefore(s, order, rows, k, d);
    }
    if a in s && Below(s, a, order[k]) {
      var d :| d in deps && AtMost(s, a, d);
      if a != d { BelowLast(s, a, d); }
      assert d in s && d in rows;
      DepBefore(s, order, rows, k, d);
    }
  }

  /** A dependency in the order sits before its dependent and its row is complete. */
  lemma DepBefore(s: Graph, order: seq<Hash>, rows: Rows, k: nat, d: Hash)
    requires Acyclic(s) && Topological(s, order) && (forall h :: h in order <==> h in s)
    requires k < |order| && RowsDone(s, order, rows, k) && d in rows && d in Deps(s, order[k])
    ensures Complete(s, rows[d], d)
  {
    var j :| 0 <= j < |order| && order[j] == d;
    assert AtMost(s, d, d);
    BelowLast(s, d, order[k]);
    assert j < k;
  }

  lemma {:induction false} LaterUnmarked(rows: Rows, h: Hash, deps: seq<Hash>, x: Hash)
    requires h in rows && x in rows && x != h && x !in deps
    ensures AddDeps(rows, h, deps)[x] == rows[x]
    decreases |deps|
  {
    if deps != [] {
      if deps[0] !in rows {
        LaterUnmarked(rows, h, deps[1..], x);
      } else {
        var source := rows[deps[0]] + {deps[0]};
        var marked := rows[deps[0] := source];
        LaterUnmarked(marked[h := marked[h] + source], h, deps[1..], x);
      }
    }
  }

  /** The matrix of a topological order is its causal order. */
  lemma {:induction false} MatrixIsCausal(s: Graph, order: seq<Hash>, k: nat)
    requires Acyclic(s) && Distinct(order) && Topological(s, order) && (forall h :: h in order <==> h in s)
    requires k <= |order|
    ensures RowsDone(s, order, BuildRows(s, order, k), k)
    decreases k
  {
    hide *;
    NothingDone(s, order);
    if k > 0 {
      MatrixIsCausal(s, order, k - 1);
      LastDistinct(order, k - 1);
      RowsNext(s, order, k);
      RowsStep(s, order, BuildRows(s, order, k - 1), k - 1);
    }
  }

  lemma {:induction false} AddDepsSelf(rows: Rows, h: Hash, deps: seq<Hash>, x: Hash)
    requires h in rows && h !in deps && x in rows && x != h
    ensures x in AddDeps(rows, h, deps)[x] <==> x in rows[x] || x in deps
    decreases |deps|
  {
    if deps != [] {
      if deps[0] !in rows {
        AddDepsSelf(rows, h, deps[1..], x);
      } else {
        var source := rows[deps[0]] + {deps[0]};
        var marked := rows[deps[0] := source];
        AddDepsSelf(marked[h := marked[h] + source], h, deps[1..], x);
      }
    }
  }

  /** One of the first `k` entries depends on `x`. */
  ghost predicate Named(s: Graph, order: seq<Hash>, k: nat, x: Hash)
    requires k <= |order|
  {
    exists i :: 0 <= i < k && x in Deps(s, order[i])
  }

  lemma NamedNext(s: Graph, order: seq<Hash>, k: nat, x: Hash)
    requires 0 < k <= |order|
    ensures Named(s, order, k, x) <==> Named(s, order, k - 1, x) || x in Deps(s, order[k - 1])
  {
    if x in Deps(s, order[k - 1]) { assert Named(s, order, k, x); }
  }

  lemma NotNamedYet(s: Graph, order: seq<Hash>, k: nat)
    requires Acyclic(s) && Topological(s, order) && 0 < k <= |order|
    ensures !Named(s, order, k, order[k - 1])
  {
    NotOwnDep(s, order[k - 1]);
    hide Acyclic;
    forall i | 0 <= i < k ensures order[k - 1] !in Deps(s, order[i]) { assert i == k - 1 || i < k - 1; }
  }

  /** A vertex has its own bit set exactly when something in the order depends on it. */
  lemma {:induction false} SelfBit(s: Graph, order: seq<Hash>, k: nat, x: Hash)
    requires Acyclic(s) && Distinct(order) && Topological(s, order) && (forall h :: h in order <==> h in s)
    requires k <= |order| && x in order
    ensures x in BuildRows(s, order, k)[x] <==> Named(s, order, k, x)
    decreases k
  {
    hide *;
    NoRowsYet(s, order, x);
    if k > 0 {
      var h, rows := order[k - 1], BuildRows(s, order, k - 1);
      SelfBit(s, order, k - 1, x);
      MatrixIsCausal(s, order, k - 1);
      NotOwnDep(s, h);
      LastDistinct(order, k - 1);
      RowsNext(s, order, k);
      NamedNext(s, order, k, x);
      if x == h {
        NotNamedYet(s, order, k);
        OwnRow(s, order, k, rows);
      } else {
        AddDepsSelf(rows, h, Deps(s, h), x);
      }
    }
  }

  lemma NothingDone(s: Graph, order: seq<Hash>)
    ensures RowsDone(s, order, BuildRows(s, order, 0), 0)
  {}

  lemma NoRowsYet(s: Graph, order: seq<Hash>, x: Hash)
    requires x in order
    ensures BuildRows(s, order, 0)[x] == {} && !Named(s, order, 0, x)
  {}

  lemma LastDistinct(order: seq<Hash>, k: nat)
    requires Distinct(order) && k < |order|
    ensures LastAt(order, k)
  {}

  lemma RowsNext(s: Graph, order: seq<Hash>, k: nat)
    requires 0 < k <= |order| && LastAt(order, k - 1)
    ensures BuildRows(s, order, k) == AddDeps(BuildRows(s, order, k - 1), order[k - 1], Deps(s, order[k - 1]))
  {}

  lemma OwnRow(s: Graph, order: seq<Hash>, k: nat, rows: Rows)
    requires Acyclic(s) && Distinct(order) && Topological(s, order) && (forall h :: h in order <==> h in s)
    requires 0 < k <= |order| && RowsDone(s, order, rows, k - 1)
    ensures order[k - 1] in rows
    ensures order[k - 1] !in AddDeps(rows, order[k - 1], Deps(s, order[k - 1]))[order[k - 1]]
  {
    var h := order[k - 1];
    RowEmpty(s, order, rows, k);
    assert !Below(s, h, h);
    NotOwnDep(s, h);
    DepRows(s, order, rows, k - 1, h);
    hide *;
    AddDepsEffect(rows, h, Deps(s, h));
  }

  lemma RowEmpty(s: Graph, order: seq<Hash>, rows: Rows, k: nat)
    requires 0 < k <= |order| && RowsDone(s, order, rows, k - 1)
    ensures order[k - 1] in rows && rows[order[k - 1]] == {}
  {
    hide Complete;
    assert order[k - 1] in order;
  }

  // ---------------------------------------------------------------- the scan

  datatype Scan = Scan(order: seq<Hash>, rows: Rows, dropped: seq<bool>)

  ghost predicate ScanOK(s: Graph, sc: Scan) {
    && |sc.dropped| == |sc.order|
    && (forall h :: h in sc.order ==> h in s && h in sc.rows)
  }

  predicate Related(rows: Rows, a: Hash, b: Hash)
    requires a in rows && b in rows
  {
    b in rows[a] || a in rows[b]
  }

  function SwapAt(sc: Scan, i: nat, j: nat): Scan
    requires i < j < |sc.order| && sc.order[i] in sc.rows && sc.order[j] in sc.rows
  {
    var a, b := sc.order[i], sc.order[j];
    Scan(sc.order[i := b][j := a], sc.rows[a := sc.rows[b]][b := sc.rows[a]], sc.dropped)
  }

  lemma SwapOK(s: Graph, sc: Scan, i: nat, j: nat)
    requires ScanOK(s, sc) && i < j < |sc.order|
    ensures ScanOK(s, SwapAt(sc, i, j))
  {
    var r := SwapAt(sc, i, j);
    forall x | 0 <= x < |r.order| ensures r.order[x] in sc.order {
      assert r.order[x] == sc.order[if x == i then j else if x == j then i else x];
    }
  }

  function DropAt(sc: Scan, i: nat): Scan
    requires i < |sc.dropped|
  {
    sc.(dropped := sc.dropped[i := true])
  }

  /** What comparing the anchor at `i` with the entry at `j` asks for. */
  function Verdict(pol: Policy, s: Graph, sc: Scan, i: nat, j: nat): Action
    requires ScanOK(s, sc) && i < j < |sc.order|
  {
    if sc.dropped[j] || Related(sc.rows, sc.order[i], sc.order[j]) then Nop
    else Resolve(pol, s[sc.order[i]], s[sc.order[j]])
  }

  /** Compare the anchor at `i` with the entries from `j` on. */
  function Inner(pol: Policy, s: Graph, sc: Scan, i: nat, j: nat, fuel: nat): (r: Option<Scan>)
    requires ScanOK(s, sc) && i < j && i < |sc.order|
    ensures r.Some? ==> ScanOK(s, r.value) && |r.value.order| == |sc.order|
    decreases fuel, |sc.order| - j
  {
    if j >= |sc.order| then Some(sc)
    else match Verdict(pol, s, sc, i, j) {
      case DropLeft => Some(DropAt(sc, i))
      case DropRight => Inner(pol, s, DropAt(sc, j), i, j + 1, fuel)
      case Swap =>
        SwapOK(s, sc, i, j);
        if fuel == 0 then None else Inner(pol, s, SwapAt(sc, i, j), i, i + 2, fuel - 1)
      case _ => Inner(pol, s, sc, i, j + 1, fuel)
    }
  }

  datatype Linear = Linear(scan: Scan, out: seq<Hash>)

  /** Scan the anchors from `i` up to `hi`; the survivors are the output. */
  function Outer(pol: Policy, s: Graph, origin: Hash, sc: Scan, i: nat, hi: nat): (r: Option<Linear>)
    requires ScanOK(s, sc) && i <= hi <= |sc.order|
    ensures r.Some? ==> ScanOK(s, r.value.scan) && |r.value.scan.order| == |sc.order|
    ensures r.Some? ==> forall h :: h in r.value.out ==> h in s
    decreases hi - i
  {
    if i == hi then Some(Linear(sc, []))
    else if sc.order[i] == origin || sc.dropped[i] then Outer(pol, s, origin, sc, i + 1, hi)
    else match Inner(pol, s, sc, i, i + 1, pol.swaps) {
      case None => None
      case Some(next) =>
        match Outer(pol, s, origin, next, i + 1, hi) {
          case None => None
          case Some(rest) =>
            Some(Linear(rest.scan, (if next.dropped[i] then [] else [next.order[i]]) + rest.out))
        }
    }
  }

  function Start(s: Graph, order: seq<Hash>): Scan {
    Scan(order, BuildRows(s, order, |order|), seq(|order|, _ => false))
  }

  function Without(order: seq<Hash>, origin: Hash): (r: seq<Hash>)
    ensures forall h :: h in r <==> h in order && h != origin
  {
    if order == [] then [] else (if order[0] == origin then [] else [order[0]]) + Without(order[1..], origin)
  }

  predicate NeedsResolution(pol: Policy, s: Graph, order: seq<Hash>, origin: Hash)
    requires forall h :: h in order ==> h in s
  {
    exists h :: h in order && h != origin && Chosen(pol, s[h]).Some?
  }

  /** Linearize a topological order of `s`: None when a comparison does not return. */
  function PairLinearize(pol: Policy, s: Graph, order: seq<Hash>, origin: Hash): (r: Option<seq<Hash>>)
    requires forall h :: h in order ==> h in s
    ensures r.Some? ==> forall h :: h in r.value ==> h in s
  {
    if !NeedsResolution(pol, s, order, origin) then Some(Without(order, origin))
    else match Outer(pol, s, origin, Start(s, order), 0, |order|) {
      case None => None
      case Some(l) => Some(l.out)
    }
  }
}
