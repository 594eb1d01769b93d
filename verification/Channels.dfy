/**
 The bounded channel of the message queue.

 A send goes to a waiting receiver, else into the buffer, else it is parked; a receive takes from the
 buffer, else from the oldest parked send, else it waits.  Each parked send and each waiting receive
 holds a promise, here a number.  `World` is a channel together with the record of everything that
 was accepted, handed over and settled since it was made.
 */
module Channels {
  import opened HashGraphs

  /** How a promise ended. */
  datatype Settled<T> = Sent(id: nat) | Got(id: nat, value: T) | Closed(id: nat)

  /** What a call returns at once: an error, a value, nothing, or a promise. */
  datatype Reply<T> = Refused | NoValue | Done | Value(value: T) | Promise(id: nat)

  datatype Chan<T> = Chan(capacity: nat, values: seq<T>, sends: seq<(nat, T)>, receives: seq<nat>,
                          closed: bool, next: nat, settled: seq<Settled<T>>)

  /**
   `all` is what was accepted since the channel was opened; `direct` and `parked` are the values of it
   that were never parked, and that were; `out` is what was handed over since then, each with whether
   it had been parked.
   */
  datatype Record<T> = Record(all: seq<T>, direct: seq<T>, parked: seq<T>, out: seq<(T, bool)>,
                              accepted: multiset<T>, delivered: multiset<T>, dropped: multiset<T>)

  datatype World<T> = World(chan: Chan<T>, record: Record<T>)

  function Open<T>(capacity: nat): World<T> {
    World(Chan(capacity, [], [], [], false, 0, []), Record([], [], [], [], multiset{}, multiset{}, multiset{}))
  }

  // The six ways a call can go on an open channel.

  function HandOver<T>(w: World<T>, v: T): World<T>
    requires w.chan.receives != []
  {
    var c, r := w.chan, w.record;
    World(c.(receives := c.receives[1..], settled := c.settled + [Got(c.receives[0], v)]),
          r.(all := r.all + [v], direct := r.direct + [v], out := r.out + [(v, false)],
             accepted := r.accepted + multiset{v}, delivered := r.delivered + multiset{v}))
  }

  function Buffer<T>(w: World<T>, v: T): World<T> {
    var c, r := w.chan, w.record;
    World(c.(values := c.values + [v]),
          r.(all := r.all + [v], direct := r.direct + [v], accepted := r.accepted + multiset{v}))
  }

  function Park<T>(w: World<T>, v: T): World<T> {
    var c, r := w.chan, w.record;
    World(c.(sends := c.sends + [(c.next, v)], next := c.next + 1),
          r.(all := r.all + [v], parked := r.parked + [v], accepted := r.accepted + multiset{v}))
  }

  function TakeBuffered<T>(w: World<T>): World<T>
    requires w.chan.values != []
  {
    var c, r := w.chan, w.record;
    World(c.(values := c.values[1..]),
          r.(out := r.out + [(c.values[0], false)], delivered := r.delivered + multiset{c.values[0]}))
  }

  function TakeParked<T>(w: World<T>): World<T>
    requires w.chan.sends != []
  {
    var c, r := w.chan, w.record;
    var (id, v) := c.sends[0];
    World(c.(sends := c.sends[1..], settled := c.settled + [Sent(id)]),
          r.(out := r.out + [(v, true)], delivered := r.delivered + multiset{v}))
  }

  function Wait<T>(w: World<T>): World<T> {
    w.(chan := w.chan.(receives := w.chan.receives + [w.chan.next], next := w.chan.next + 1))
  }

  function SendStep<T>(w: World<T>, input: Option<T>): (World<T>, Reply<T>) {
    if w.chan.closed then (w, Refused)
    else if input.None? then (w, NoValue)
    else if w.chan.receives != [] then (HandOver(w, input.value), Done)
    else if |w.chan.values| < w.chan.capacity then (Buffer(w, input.value), Done)
    else (Park(w, input.value), Promise(w.chan.next))
  }

  function ReceiveStep<T>(w: World<T>): (World<T>, Reply<T>) {
    if w.chan.closed then (w, Refused)
    else if w.chan.values != [] then (TakeBuffered(w), Value(w.chan.values[0]))
    else if w.chan.sends != [] then (TakeParked(w), Value(w.chan.sends[0].1))
    else (Wait(w), Promise(w.chan.next))
  }

  function Payload<T>(sends: seq<(nat, T)>): (r: seq<T>)
    ensures |r| == |sends|
  {
    if sends == [] then [] else [sends[0].1] + Payload(sends[1..])
  }

  function Tickets<T>(sends: seq<(nat, T)>): (r: seq<nat>)
    ensures |r| == |sends|
  {
    if sends == [] then [] else [sends[0].0] + Tickets(sends[1..])
  }

  function Rejections<T>(ids: seq<nat>): (r: seq<Settled<T>>)
    ensures |r| == |ids|
  {
    if ids == [] then [] else [Closed(ids[0])] + Rejections(ids[1..])
  }

  /** Everything buffered or parked is given up and every promise is rejected, sends first. */
  function CloseStep<T>(w: World<T>): World<T> {
    var c, r := w.chan, w.record;
    World(Chan(c.capacity, [], [], [], true, c.next,
               c.settled + Rejections(Tickets(c.sends)) + Rejections(c.receives)),
          Record([], [], [], [], r.accepted, r.delivered, r.dropped + multiset(c.values) + multiset(Payload(c.sends))))
  }

  function StartStep<T>(w: World<T>): World<T> {
    if w.chan.closed then w.(chan := w.chan.(values := [], sends := [], receives := [], closed := false)) else w
  }

  // ---------------------------------------------------------------- what every step keeps

  function Ids<T>(settled: seq<Settled<T>>): (r: seq<nat>)
    ensures |r| == |settled|
  {
    if settled == [] then [] else [settled[0].id] + Ids(settled[1..])
  }

  /** The values handed over whose `parked` flag is `was`, in order. */
  function Taken<T>(out: seq<(T, bool)>, was: bool): seq<T> {
    if out == [] then [] else (if out[0].1 == was then [out[0].0] else []) + Taken(out[1..], was)
  }

  /** All promises ever made: settled, or held by a parked send or a waiting receive. */
  function Promises<T>(c: Chan<T>): seq<nat> {
    Ids(c.settled) + Tickets(c.sends) + c.receives
  }

  /** Every number below `n` once. */
  ghost predicate EachOnce(ids: seq<nat>, n: nat) {
    forall i: nat :: multiset(ids)[i] == if i < n then 1 else 0
  }

  /** Nothing is lost and nothing is made up. */
  ghost predicate Conserved<T>(w: World<T>) {
    w.record.accepted
    == w.record.delivered + multiset(w.chan.values) + multiset(Payload(w.chan.sends)) + w.record.dropped
  }

  /** Order is kept among the never parked, and among the parked. */
  ghost predicate InOrder<T>(w: World<T>) {
    && w.record.direct == Taken(w.record.out, false) + w.chan.values
    && w.record.parked == Taken(w.record.out, true) + Payload(w.chan.sends)
  }

  /** The buffer keeps to its capacity; a receiver waits only when there is nothing to receive. */
  ghost predicate Shaped<T>(c: Chan<T>) {
    && |c.values| <= c.capacity
    && (c.receives != [] ==> c.values == [] && c.sends == [])
    && (c.closed ==> c.values == [] && c.sends == [] && c.receives == [])
  }

  ghost predicate Inv<T>(w: World<T>) {
    Conserved(w) && InOrder(w) && Shaped(w.chan) && EachOnce(Promises(w.chan), w.chan.next)
  }

  // Appending to the recorded lists.

  lemma {:induction false} TakenSnoc<T>(out: seq<(T, bool)>, e: (T, bool), was: bool)
    ensures Taken(out + [e], was) == Taken(out, was) + (if e.1 == was then [e.0] else [])
    decreases |out|
  {
    if out == [] {
      assert out + [e] == [e] && [e][1..] == [];
    } else {
      assert (out + [e])[1..] == out[1..] + [e];
      TakenSnoc(out[1..], e, was);
    }
  }

  lemma {:induction false} SendsSnoc<T>(sends: seq<(nat, T)>, e: (nat, T))
    ensures Payload(sends + [e]) == Payload(sends) + [e.1] && Tickets(sends + [e]) == Tickets(sends) + [e.0]
    decreases |sends|
  {
    if sends == [] {
      assert sends + [e] == [e] && [e][1..] == [];
    } else {
      assert (sends + [e])[1..] == sends[1..] + [e];
      SendsSnoc(sends[1..], e);
    }
  }

  lemma {:induction false} IdsJoin<T>(a: seq<Settled<T>>, b: seq<Settled<T>>)
    ensures Ids(a + b) == Ids(a) + Ids(b)
    decreases |a|
  {
    if a == [] {
      assert a + b == b;
    } else {
      assert (a + b)[1..] == a[1..] + b;
      IdsJoin(a[1..], b);
    }
  }

  lemma {:induction false} RejectionIds<T>(ids: seq<nat>)
    ensures Ids(Rejections<T>(ids)) == ids
    decreases |ids|
  {
    if ids != [] {
      assert Rejections<T>(ids)[1..] == Rejections<T>(ids[1..]);
      RejectionIds<T>(ids[1..]);
    }
  }

  lemma EachOncePermuted(a: seq<nat>, b: seq<nat>, n: nat)
    requires EachOnce(a, n) && multiset(a) == multiset(b)
    ensures EachOnce(b, n)
  {}

  lemma EachOnceMore(a: seq<nat>, b: seq<nat>, n: nat)
    requires EachOnce(a, n) && multiset(b) == multiset(a) + multiset{n}
    ensures EachOnce(b, n + 1)
  {}

  /** Splitting off the first element does not change a multiset. */
  lemma HeadTail<T>(s: seq<T>)
    requires s != []
    ensures multiset(s) == multiset{s[0]} + multiset(s[1..])
  {
    assert s == [s[0]] + s[1..];
  }

  lemma OpenInv<T>(capacity: nat)
    ensures Inv(Open<T>(capacity))
  {}

  lemma HandOverKeeps<T>(w: World<T>, v: T)
    requires Inv(w) && !w.chan.closed && w.chan.receives != []
    ensures Inv(HandOver(w, v))
  {
    hide EachOnce, Promises, Payload, Taken;
    TakenSnoc(w.record.out, (v, false), false);
    TakenSnoc(w.record.out, (v, false), true);
    assert Taken(w.record.out, false) + [] == Taken(w.record.out, false);
    assert Taken(w.record.out, true) + [] == Taken(w.record.out, true);
    HandOverOnce(w, v);
  }

  lemma HandOverOnce<T>(w: World<T>, v: T)
    requires EachOnce(Promises(w.chan), w.chan.next) && w.chan.receives != []
    ensures EachOnce(Promises(HandOver(w, v).chan), w.chan.next)
  {
    hide EachOnce;
    var c, d := w.chan, HandOver(w, v).chan;
    var got := Got(c.receives[0], v);
    IdsJoin(c.settled, [got]);
    assert [got][1..] == [];
    HeadTail(c.receives);
    EachOncePermuted(Promises(c), Promises(d), c.next);
  }

  lemma BufferKeeps<T>(w: World<T>, v: T)
    requires Inv(w) && !w.chan.closed && w.chan.receives == [] && |w.chan.values| < w.chan.capacity
    ensures Inv(Buffer(w, v))
  {
    hide EachOnce, Payload, Taken;
    assert (Taken(w.record.out, false) + w.chan.values) + [v] == Taken(w.record.out, false) + (w.chan.values + [v]);
  }

  lemma ParkKeeps<T>(w: World<T>, v: T)
    requires Inv(w) && !w.chan.closed && w.chan.receives == []
    ensures Inv(Park(w, v))
  {
    hide EachOnce, Promises, Payload, Taken;
    SendsSnoc(w.chan.sends, (w.chan.next, v));
    var taken, payload := Taken(w.record.out, true), Payload(w.chan.sends);
    assert (taken + payload) + [v] == taken + (payload + [v]);
    ParkOnce(w, v);
  }

  lemma ParkOnce<T>(w: World<T>, v: T)
    requires EachOnce(Promises(w.chan), w.chan.next) && w.chan.receives == []
    ensures EachOnce(Promises(Park(w, v).chan), w.chan.next + 1)
  {
    hide EachOnce, Ids, Tickets;
    var c, d := w.chan, Park(w, v).chan;
    SendsSnoc(c.sends, (c.next, v));
    assert Promises(d) == Promises(c) + [c.next];
    EachOnceMore(Promises(c), Promises(d), c.next);
  }

  lemma SendKeeps<T>(w: World<T>, input: Option<T>)
    requires Inv(w)
    ensures Inv(SendStep(w, input).0)
  {
    hide Conserved, InOrder, EachOnce, HandOver, Buffer, Park;
    if !w.chan.closed && input.Some? {
      if w.chan.receives != [] { HandOverKeeps(w, input.value); }
      else if |w.chan.values| < w.chan.capacity { BufferKeeps(w, input.value); }
      else { ParkKeeps(w, input.value); }
    }
  }

  lemma TakeBufferedKeeps<T>(w: World<T>)
    requires Inv(w) && !w.chan.closed && w.chan.values != []
    ensures Inv(TakeBuffered(w))
  {
    hide EachOnce, Payload, Taken;
    var v := w.chan.values[0];
    HeadTail(w.chan.values);
    TakenSnoc(w.record.out, (v, false), false);
    TakenSnoc(w.record.out, (v, false), true);
    assert Taken(w.record.out, true) + [] == Taken(w.record.out, true);
    assert w.chan.values == [v] + w.chan.values[1..];
  }

  lemma TakeParkedKeeps<T>(w: World<T>)
    requires Inv(w) && !w.chan.closed && w.chan.values == [] && w.chan.sends != []
    ensures Inv(TakeParked(w))
  {
    hide EachOnce, Promises, Conserved, InOrder;
    TakeParkedConserves(w);
    TakeParkedInOrder(w);
    TakeParkedOnce(w);
  }

  lemma TakeParkedConserves<T>(w: World<T>)
    requires Conserved(w) && w.chan.sends != []
    ensures Conserved(TakeParked(w))
  {
    var c, v := w.chan, w.chan.sends[0].1;
    assert Payload(c.sends) == [v] + Payload(c.sends[1..]);
    hide Payload;
    HeadTail(Payload(c.sends));
  }

  lemma TakeParkedInOrder<T>(w: World<T>)
    requires InOrder(w) && w.chan.sends != []
    ensures InOrder(TakeParked(w))
  {
    var c, v, out := w.chan, w.chan.sends[0].1, w.record.out;
    assert Payload(c.sends) == [v] + Payload(c.sends[1..]);
    hide Payload, Taken;
    TakenSnoc(out, (v, true), false);
    TakenSnoc(out, (v, true), true);
    assert Taken(out, false) + [] == Taken(out, false);
    assert Taken(out, true) + ([v] + Payload(c.sends[1..])) == (Taken(out, true) + [v]) + Payload(c.sends[1..]);
  }

  lemma TakeParkedOnce<T>(w: World<T>)
    requires EachOnce(Promises(w.chan), w.chan.next) && w.chan.sends != []
    ensures EachOnce(Promises(TakeParked(w).chan), w.chan.next)
  {
    hide EachOnce;
    var c, d := w.chan, TakeParked(w).chan;
    var sent: Settled<T> := Sent(c.sends[0].0);
    IdsJoin(c.settled, [sent]);
    assert [sent][1..] == [];
    assert Tickets(c.sends)[1..] == Tickets(c.sends[1..]);
    HeadTail(Tickets(c.sends));
    EachOncePermuted(Promises(c), Promises(d), c.next);
  }

  lemma ReceiveKeeps<T>(w: World<T>)
    requires Inv(w)
    ensures Inv(ReceiveStep(w).0)
  {
    hide Conserved, InOrder, EachOnce, TakeBuffered, TakeParked;
    var c := w.chan;
    if !c.closed {
      if c.values != [] { TakeBufferedKeeps(w); }
      else if c.sends != [] { TakeParkedKeeps(w); }
      else { WaitKeeps(w); }
    }
  }

  lemma WaitKeeps<T>(w: World<T>)
    requires Inv(w) && !w.chan.closed && w.chan.values == [] && w.chan.sends == []
    ensures Inv(Wait(w))
  {
    hide EachOnce, Taken;
    EachOnceMore(Promises(w.chan), Promises(Wait(w).chan), w.chan.next);
  }

  /** Closing settles every promise that is still open, each once. */
  lemma CloseKeeps<T>(w: World<T>)
    requires Inv(w)
    ensures Inv(CloseStep(w)) && EachOnce(Ids(CloseStep(w).chan.settled), w.chan.next)
  {
    hide EachOnce, Promises, Ids, Rejections;
    ClosePromises(w);
  }

  lemma ClosePromises<T>(w: World<T>)
    ensures var d := CloseStep(w).chan; Ids(d.settled) == Promises(w.chan) && Promises(d) == Ids(d.settled)
  {
    var c, d := w.chan, CloseStep(w).chan;
    var a, b := Rejections<T>(Tickets(c.sends)), Rejections<T>(c.receives);
    hide Rejections, Ids;
    IdsJoin(c.settled, a);
    IdsJoin(c.settled + a, b);
    RejectionIds<T>(Tickets(c.sends));
    RejectionIds<T>(c.receives);
    assert Promises(d) == Ids(d.settled) + [] + [];
  }

  // ---------------------------------------------------------------- runs

  datatype Command<T> = Send(value: Option<T>) | Receive | Close | Start

  function Step<T>(w: World<T>, command: Command<T>): World<T> {
    match command
    case Send(value) => SendStep(w, value).0
    case Receive => ReceiveStep(w).0
    case Close => CloseStep(w)
    case Start => StartStep(w)
  }

  function Run<T>(w: World<T>, commands: seq<Command<T>>): World<T>
    decreases |commands|
  {
    if commands == [] then w else Run(Step(w, commands[0]), commands[1..])
  }

  lemma {:induction false} RunKeeps<T>(w: World<T>, commands: seq<Command<T>>)
    requires Inv(w)
    ensures Inv(Run(w, commands))
    decreases |commands|
  {
    hide Inv, Step;
    if commands != [] {
      StepKeeps(w, commands[0]);
      RunKeeps(Step(w, commands[0]), commands[1..]);
    }
  }

  lemma StepKeeps<T>(w: World<T>, command: Command<T>)
    requires Inv(w)
    ensures Inv(Step(w, command))
  {
    hide Inv, SendStep, ReceiveStep, CloseStep;
    match command {
      case Send(value) => SendKeeps(w, value);
      case Receive => ReceiveKeeps(w);
      case Close => CloseKeeps(w);
      case Start => StartKeeps(w);
    }
  }

  lemma StartKeeps<T>(w: World<T>)
    requires Inv(w)
    ensures Inv(StartStep(w))
  {
    hide Payload, Taken, EachOnce;
  }

  /** Every run of a fresh channel conserves values, keeps both orders and settles no promise twice. */
  lemma EveryRun<T>(capacity: nat, commands: seq<Command<T>>)
    ensures Inv(Run(Open(capacity), commands))
  {
    OpenInv<T>(capacity);
    RunKeeps(Open(capacity), commands);
  }

  /** Starting a closed channel gives nothing up: closing already emptied it. */
  lemma StartDropsNothing<T>(w: World<T>)
    requires Inv(w) && w.chan.closed
    ensures StartStep(w).chan == w.chan.(closed := false)
  {}

  // ---------------------------------------------------------------- order among all accepted values

  /** The values handed over, in order. */
  function Outs<T>(out: seq<(T, bool)>): (r: seq<T>)
    ensures |r| == |out|
  {
    seq(|out|, i requires 0 <= i < |out| => out[i].0)
  }

  /** What was handed over is what was accepted first. */
  ghost predicate FirstOutFirst<T>(w: World<T>) {
    Outs(w.record.out) <= w.record.all
  }

  /** Without a buffer everything accepted is handed over or parked. */
  ghost predicate Unbuffered<T>(w: World<T>) {
    && w.chan.capacity == 0 && w.chan.values == [] && (w.chan.receives != [] || w.chan.closed ==> w.chan.sends == [])
    && w.record.all == Outs(w.record.out) + Payload(w.chan.sends)
  }

  lemma UnbufferedStep<T>(w: World<T>, command: Command<T>)
    requires Unbuffered(w)
    ensures Unbuffered(Step(w, command))
  {
    var c, r := w.chan, w.record;
    if !c.closed {
      match command {
        case Send(input) =>
          if input.Some? {
            var v := input.value;
            assert Outs(r.out + [(v, false)]) == Outs(r.out) + [v];
            SendsSnoc(c.sends, (c.next, v));
            assert (Outs(r.out) + Payload(c.sends)) + [v] == Outs(r.out) + (Payload(c.sends) + [v]);
          }
        case Receive =>
          if c.sends != [] {
            var v := c.sends[0].1;
            assert Outs(r.out + [(v, true)]) == Outs(r.out) + [v];
            assert Outs(r.out) + ([v] + Payload(c.sends[1..])) == (Outs(r.out) + [v]) + Payload(c.sends[1..]);
          }
        case Close =>
        case Start =>
      }
    }
  }

  lemma {:induction false} UnbufferedRun<T>(w: World<T>, commands: seq<Command<T>>)
    requires Unbuffered(w)
    ensures Unbuffered(Run(w, commands))
    decreases |commands|
  {
    hide Unbuffered, Step;
    if commands != [] {
      UnbufferedStep(w, commands[0]);
      UnbufferedRun(Step(w, commands[0]), commands[1..]);
    }
  }

  function Repeat<T>(k: nat, x: T): (r: seq<T>)
    ensures |r| == k && forall i :: 0 <= i < k ==> r[i] == x
  {
    seq(k, _ => x)
  }

  /** An open channel on which nobody waits, and what passed through it. */
  ghost predicate Stage<T>(w: World<T>, n: nat, values: seq<T>, sends: seq<(nat, T)>, outs: seq<T>, all: seq<T>) {
    && !w.chan.closed && w.chan.capacity == n && w.chan.receives == [] && w.chan.values == values
    && w.chan.sends == sends && Outs(w.record.out) == outs && w.record.all == all
  }

  lemma {:induction false} RunConcat<T>(w: World<T>, x: seq<Command<T>>, y: seq<Command<T>>)
    ensures Run(w, x + y) == Run(Run(w, x), y)
    decreases |x|
  {
    hide Step;
    if x == [] {
      assert x + y == y;
    } else {
      assert (x + y)[1..] == x[1..] + y;
      RunConcat(Step(w, x[0]), x[1..], y);
    }
  }

  lemma {:induction false} Fill<T>(w: World<T>, n: nat, values: seq<T>, outs: seq<T>, all: seq<T>, a: T, k: nat)
    requires Stage(w, n, values, [], outs, all) && |values| + k <= n
    ensures Stage(Run(w, Repeat(k, Send(Some(a)))), n, values + Repeat(k, a), [], outs, all + Repeat(k, a))
    decreases k
  {
    if k == 0 {
      assert values + Repeat(k, a) == values && all + Repeat(k, a) == all;
    } else {
      var next := Step(w, Send(Some(a)));
      assert Repeat(k, Send(Some(a)))[1..] == Repeat(k - 1, Send(Some(a)));
      Fill(next, n, values + [a], outs, all + [a], a, k - 1);
      assert (values + [a]) + Repeat(k - 1, a) == values + Repeat(k, a);
      assert (all + [a]) + Repeat(k - 1, a) == all + Repeat(k, a);
    }
  }

  lemma DrainOne<T>(w: World<T>, n: nat, values: seq<T>, sends: seq<(nat, T)>, outs: seq<T>, all: seq<T>)
    requires Stage(w, n, values, sends, outs, all) && values != []
    ensures Stage(Step(w, Receive), n, values[1..], sends, outs + [values[0]], all)
  {
    assert Outs(w.record.out + [(values[0], false)]) == Outs(w.record.out) + [values[0]];
    hide Outs;
  }

  lemma {:induction false} Drain<T>(w: World<T>, n: nat, values: seq<T>, sends: seq<(nat, T)>, outs: seq<T>,
                                    all: seq<T>, k: nat)
    requires Stage(w, n, values, sends, outs, all) && k <= |values|
    ensures Stage(Run(w, Repeat(k, Receive)), n, values[k..], sends, outs + values[..k], all)
    decreases k
  {
    hide Step, Stage;
    if k == 0 {
      assert outs + values[..k] == outs && values[k..] == values;
    } else {
      DrainOne(w, n, values, sends, outs, all);
      assert Repeat(k, Command<T>.Receive)[1..] == Repeat(k - 1, Command<T>.Receive);
      Drain(Step(w, Receive), n, values[1..], sends, outs + [values[0]], all, k - 1);
      assert values[1..][k - 1..] == values[k..];
      assert (outs + [values[0]]) + values[1..][..k - 1] == outs + values[..k];
    }
  }

  /** Fill the buffer, park a send, free one slot, let a later send have it, and empty the buffer. */
  function Overtaking<T>(n: nat, a: T, b: T, c: T): seq<Command<T>> {
    Repeat(n, Send(Some(a))) + [Send(Some(b)), Receive, Send(Some(c))] + Repeat(n, Receive)
  }

  lemma SlotTaken<T>(w: World<T>, n: nat, a: T, b: T, c: T)
    requires n >= 1 && Stage(w, n, Repeat(n, a), [], [], Repeat(n, a))
    ensures var r := Run(w, [Send(Some(b)), Receive, Send(Some(c))]);
            exists id :: Stage(r, n, Repeat(n - 1, a) + [c], [(id, b)], [a], Repeat(n, a) + [b, c])
  {
    var w1 := Step(w, Send(Some(b)));
    var w2 := Step(w1, Receive);
    var w3 := Step(w2, Send(Some(c)));
    assert Repeat(n, a)[1..] == Repeat(n - 1, a) && Repeat(n, a)[0] == a;
    assert Outs(w1.record.out + [(a, false)]) == [a];
    assert (Repeat(n, a) + [b]) + [c] == Repeat(n, a) + [b, c];
    RunThree(w, Send(Some(b)), Receive, Send(Some(c)), []);
    assert [Send(Some(b)), Receive, Send(Some(c))] + [] == [Send(Some(b)), Receive, Send(Some(c))];
    assert Stage(w3, n, Repeat(n - 1, a) + [c], [(w.chan.next, b)], [a], Repeat(n, a) + [b, c]);
  }

  /** With a buffer of any size a freed slot can go to a later send, which then comes out first. */
  lemma LaterSendOvertakes<T>(n: nat, a: T, b: T, c: T)
    requires n >= 1
    ensures var w := Run(Open(n), Overtaking(n, a, b, c));
            w.record.all == Repeat(n, a) + [b, c] && Outs(w.record.out) == Repeat(n, a) + [c]
  {
    hide Run, Stage;
    var fill, drain := Repeat(n, Send(Some(a))), Repeat(n, Command<T>.Receive);
    var middle := [Send(Some(b)), Receive, Send(Some(c))];
    RunConcat(Open(n), fill + middle, drain);
    RunConcat(Open(n), fill, middle);
    OpenStage<T>(n);
    Fill(Open<T>(n), n, [], [], [], a, n);
    assert [] + Repeat(n, a) == Repeat(n, a);
    var full := Run(Open(n), fill);
    SlotTaken(full, n, a, b, c);
    var half := Run(full, middle);
    var id :| Stage(half, n, Repeat(n - 1, a) + [c], [(id, b)], [a], Repeat(n, a) + [b, c]);
    Drain(half, n, Repeat(n - 1, a) + [c], [(id, b)], [a], Repeat(n, a) + [b, c], n);
    assert (Repeat(n - 1, a) + [c])[..n] == Repeat(n - 1, a) + [c];
    assert [a] + (Repeat(n - 1, a) + [c]) == Repeat(n, a) + [c];
    StageEnd(Run(half, drain), n, (Repeat(n - 1, a) + [c])[n..], [(id, b)], Repeat(n, a) + [c], Repeat(n, a) + [b, c]);
  }

  lemma OpenStage<T>(n: nat)
    ensures Stage(Open<T>(n), n, [], [], [], [])
  {}

  lemma StageEnd<T>(w: World<T>, n: nat, values: seq<T>, sends: seq<(nat, T)>, outs: seq<T>, all: seq<T>)
    requires Stage(w, n, values, sends, outs, all)
    ensures Outs(w.record.out) == outs && w.record.all == all
  {}

  /** Values come out in the order they were accepted, in every run, exactly when there is no buffer. */
  lemma OrderKept<T(!new)>(capacity: nat, b: T, c: T)
    requires b != c
    ensures (forall commands: seq<Command<T>> :: FirstOutFirst(Run(Open(capacity), commands))) <==> capacity == 0
  {
    hide Run;
    if capacity == 0 {
      forall commands: seq<Command<T>> ensures FirstOutFirst(Run(Open(capacity), commands)) {
        assert Unbuffered(Open<T>(capacity));
        UnbufferedRun(Open(capacity), commands);
      }
    } else {
      LaterSendOvertakes(capacity, b, b, c);
      var w := Run(Open(capacity), Overtaking(capacity, b, b, c));
      assert w.record.all[capacity] == b && Outs(w.record.out)[capacity] == c;
    }
  }

  lemma RunThree<T>(w: World<T>, a: Command<T>, b: Command<T>, c: Command<T>, rest: seq<Command<T>>)
    ensures Run(w, [a, b, c] + rest) == Run(Step(Step(Step(w, a), b), c), rest)
  {
    hide Step;
    var s := [a, b, c] + rest;
    assert s[1..] == [b, c] + rest && ([b, c] + rest)[1..] == [c] + rest && ([c] + rest)[1..] == rest;
    assert Run(w, s) == Run(Step(w, a), [b, c] + rest);
    assert Run(Step(w, a), [b, c] + rest) == Run(Step(Step(w, a), b), [c] + rest);
  }

  // ---------------------------------------------------------------- the object

  class Channel<T> {
    const capacity: nat
    var values: seq<T>
    var sends: seq<(nat, T)>
    var receives: seq<nat>
    var isClosed: bool
    var next: nat
    var settled: seq<Settled<T>>
    ghost var record: Record<T>

    ghost function Now(): World<T>
      reads this
    {
      World(Chan(capacity, values, sends, receives, isClosed, next, settled), record)
    }

    constructor (capacity: nat)
      ensures Now() == Open(capacity) && Inv(Now())
    {
      this.capacity := capacity;
      values, sends, receives, isClosed, next, settled := [], [], [], false, 0, [];
      record := Record([], [], [], [], multiset{}, multiset{}, multiset{});
      new;
      OpenInv<T>(capacity);
    }

    method SendValue(value: Option<T>) returns (reply: Reply<T>)
      requires Inv(Now())
      modifies this
      ensures (Now(), reply) == SendStep(old(Now()), value) && Inv(Now())
      ensures old(!isClosed) && value.Some? && old(receives) != [] ==>
                settled == old(settled) + [Got(old(receives)[0], value.value)]
    {
      hide Inv;
      SendKeeps(Now(), value);
      ghost var next_ := SendStep(Now(), value).0;
      if isClosed { return Refused; }
      if value.None? { return NoValue; }
      record := next_.record;
      if |receives| > 0 {
        var recv := receives[0];
        receives := receives[1..];
        settled := settled + [Got(recv, value.value)];
        return Done;
      }
      if |values| < capacity {
        values := values + [value.value];
        return Done;
      }
      sends := sends + [(next, value.value)];
      next := next + 1;
      return Promise(next - 1);
    }

    method ReceiveValue() returns (reply: Reply<T>)
      requires Inv(Now())
      modifies this
      ensures (Now(), reply) == ReceiveStep(old(Now())) && Inv(Now())
      ensures reply.Value? ==> Outs(record.out) == Outs(old(record.out)) + [reply.value]
    {
      hide Inv;
      ReceiveKeeps(Now());
      ghost var next_ := ReceiveStep(Now()).0;
      if isClosed { return Refused; }
      record := next_.record;
      if |values| > 0 {
        reply := Value(values[0]);
        values := values[1..];
        return;
      }
      if |sends| > 0 {
        var send := sends[0];
        sends := sends[1..];
        settled := settled + [Sent(send.0)];
        return Value(send.1);
      }
      receives := receives + [next];
      next := next + 1;
      return Promise(next - 1);
    }

    method CloseAll()
      requires Inv(Now())
      modifies this
      ensures Now() == CloseStep(old(Now())) && Inv(Now())
      ensures settled == old(settled) + Rejections(Tickets(old(sends))) + Rejections(old(receives))
      ensures isClosed && values == [] && sends == [] && receives == []
    {
      hide Inv, Ids, EachOnce, Payload, Rejections, Tickets;
      CloseKeeps(Now());
      ghost var end := CloseStep(Now());
      isClosed := true;
      values := [];
      while |sends| > 0
        invariant receives == old(receives) && isClosed && values == [] && next == old(next)
        invariant settled + Rejections(Tickets(sends)) + Rejections(receives) == end.chan.settled
        decreases |sends|
      {
        RejectFirst<T>(Tickets(sends));
        RejectSend(sends);
        settled := settled + [Closed(sends[0].0)];
        sends := sends[1..];
      }
      while |receives| > 0
        invariant sends == [] && isClosed && values == [] && next == old(next)
        invariant settled + Rejections(receives) == end.chan.settled
        decreases |receives|
      {
        RejectFirst<T>(receives);
        settled := settled + [Closed(receives[0])];
        receives := receives[1..];
      }
      record := end.record;
    }

    method StartAgain()
      requires Inv(Now())
      modifies this
      ensures Now() == StartStep(old(Now())) && Inv(Now())
    {
      hide Inv;
      StartKeeps(Now());
      if !isClosed { return; }
      values, sends, receives := [], [], [];
      isClosed := false;
    }
  }

  lemma RejectFirst<T>(ids: seq<nat>)
    requires ids != []
    ensures Rejections<T>(ids) == [Closed(ids[0])] + Rejections<T>(ids[1..])
  {}

  lemma RejectSend<T>(sends: seq<(nat, T)>)
    requires sends != []
    ensures Tickets(sends) != [] && Tickets(sends)[0] == sends[0].0 && Tickets(sends)[1..] == Tickets(sends[1..])
  {}
}
