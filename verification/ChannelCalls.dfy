/**
 A channel as its callers see it.

 `History` is made of nothing but the calls, their replies and the promises that ended: what was taken
 from senders, what receivers got, and who was promised something.  In every run it agrees with the
 record of the channel, so that conservation and order are statements about what callers observe.
 Waiting receivers, and parked senders, are served in the order in which they came.
 */
module ChannelCalls {
  import opened HashGraphs
  import opened Channels

  function ReplyTo<T>(w: World<T>, command: Command<T>): Reply<T> {
    match command
    case Send(value) => SendStep(w, value).1
    case Receive => ReceiveStep(w).1
    case Close => Done
    case Start => Done
  }

  /** The promises that end during a call. */
  function Ending<T>(w: World<T>, command: Command<T>): seq<Settled<T>> {
    var before, after := w.chan.settled, Step(w, command).chan.settled;
    if |before| <= |after| then after[|before|..] else []
  }

  /** The values that ended promises bring to waiting receivers. */
  function Gots<T>(ended: seq<Settled<T>>): seq<T> {
    if ended == [] then [] else (if ended[0].Got? then [ended[0].value] else []) + Gots(ended[1..])
  }

  /** What receivers get during a call: the value returned at once, or through a promise. */
  function Heard<T>(w: World<T>, command: Command<T>): seq<T> {
    (if ReplyTo(w, command).Value? then [ReplyTo(w, command).value] else []) + Gots(Ending(w, command))
  }

  /** What a call takes from a sender: the value, unless the call fails. */
  function Accepted<T>(w: World<T>, command: Command<T>): seq<T> {
    if command.Send? && command.value.Some? && (ReplyTo(w, command).Done? || ReplyTo(w, command).Promise?)
    then [command.value.value] else []
  }

  /**
   `taken` and `heard` since the channel was last closed, and since it was made; the promises made to
   senders and to receivers, and all promises in the order they were made.
   */
  datatype History<T> = History(taken: seq<T>, heard: seq<T>, everTaken: multiset<T>, everHeard: multiset<T>,
                                senders: set<nat>, receivers: set<nat>, promises: seq<nat>)

  function Blank<T>(): History<T> {
    History([], [], multiset{}, multiset{}, {}, {}, [])
  }

  function Observe<T>(h: History<T>, w: World<T>, command: Command<T>): History<T> {
    var reply := ReplyTo(w, command);
    var promised := if reply.Promise? then {reply.id} else {};
    History(if command.Close? then [] else h.taken + Accepted(w, command),
            if command.Close? then [] else h.heard + Heard(w, command),
            h.everTaken + multiset(Accepted(w, command)), h.everHeard + multiset(Heard(w, command)),
            if command.Send? then h.senders + promised else h.senders,
            if command.Receive? then h.receivers + promised else h.receivers,
            if reply.Promise? then h.promises + [reply.id] else h.promises)
  }

  /** The history of a run. */
  function Told<T>(h: History<T>, w: World<T>, commands: seq<Command<T>>): History<T>
    decreases |commands|
  {
    if commands == [] then h else Told(Observe(h, w, commands[0]), Step(w, commands[0]), commands[1..])
  }

  // ---------------------------------------------------------------- what every call keeps

  ghost predicate Ascending(ids: seq<nat>) {
    forall i, j :: 0 <= i < j < |ids| ==> ids[i] < ids[j]
  }

  /** The record says what callers saw. */
  ghost predicate Agrees<T>(h: History<T>, w: World<T>) {
    && h.taken == w.record.all && h.heard == Outs(w.record.out)
    && h.everTaken == w.record.accepted && h.everHeard == w.record.delivered
  }

  /** The promises to receivers that brought a value or still wait, and those to senders. */
  function ReceiveQueue<T>(c: Chan<T>): seq<nat> {
    GotIds(c.settled) + c.receives
  }

  function SendQueue<T>(c: Chan<T>): seq<nat> {
    SentIds(c.settled) + Tickets(c.sends)
  }

  /** Promises are numbered as they are made, and bring a value exactly when made to a receiver. */
  ghost predicate Owed<T>(h: History<T>, c: Chan<T>) {
    && (forall id :: id in ReceiveQueue(c) ==> id in h.receivers)
    && (forall id :: id in SendQueue(c) ==> id in h.senders)
    && |h.promises| == c.next && (forall i :: 0 <= i < c.next ==> h.promises[i] == i)
    && (forall id :: id in h.receivers || id in h.senders ==> id < c.next) && h.receivers !! h.senders
  }

  /** First come, first served, among receivers and among senders. */
  ghost predicate Served<T>(c: Chan<T>) {
    && Ascending(ReceiveQueue(c)) && (forall id :: id in ReceiveQueue(c) ==> id < c.next)
    && Ascending(SendQueue(c)) && (forall id :: id in SendQueue(c) ==> id < c.next)
  }

  function GotIds<T>(settled: seq<Settled<T>>): seq<nat> {
    if settled == [] then [] else (if settled[0].Got? then [settled[0].id] else []) + GotIds(settled[1..])
  }

  function SentIds<T>(settled: seq<Settled<T>>): seq<nat> {
    if settled == [] then [] else (if settled[0].Sent? then [settled[0].id] else []) + SentIds(settled[1..])
  }

  lemma {:induction false} GotIdsSnoc<T>(settled: seq<Settled<T>>, e: Settled<T>)
    ensures GotIds(settled + [e]) == GotIds(settled) + if e.Got? then [e.id] else []
    decreases |settled|
  {
    if settled == [] {
      assert settled + [e] == [e] && [e][1..] == [];
    } else {
      assert (settled + [e])[0] == settled[0] && (settled + [e])[1..] == settled[1..] + [e];
      GotIdsSnoc(settled[1..], e);
    }
  }

  lemma {:induction false} SentIdsSnoc<T>(settled: seq<Settled<T>>, e: Settled<T>)
    ensures SentIds(settled + [e]) == SentIds(settled) + if e.Sent? then [e.id] else []
    decreases |settled|
  {
    if settled == [] {
      assert settled + [e] == [e] && [e][1..] == [];
    } else {
      assert (settled + [e])[0] == settled[0] && (settled + [e])[1..] == settled[1..] + [e];
      SentIdsSnoc(settled[1..], e);
    }
  }

  lemma IdsSnoc<T>(settled: seq<Settled<T>>, e: Settled<T>)
    ensures GotIds(settled + [e]) == GotIds(settled) + if e.Got? then [e.id] else []
    ensures SentIds(settled + [e]) == SentIds(settled) + if e.Sent? then [e.id] else []
  {
    hide GotIds, SentIds;
    GotIdsSnoc(settled, e);
    SentIdsSnoc(settled, e);
  }

  lemma {:induction false} IdsClosed<T>(settled: seq<Settled<T>>, ids: seq<nat>)
    ensures GotIds(settled + Rejections(ids)) == GotIds(settled)
    ensures SentIds(settled + Rejections(ids)) == SentIds(settled)
    decreases |ids|
  {
    if ids == [] {
      assert settled + Rejections(ids) == settled;
    } else {
      var first: Settled<T> := Closed(ids[0]);
      RejectFirst<T>(ids);
      hide GotIds, SentIds, Rejections;
      IdsSnoc(settled, first);
      IdsClosed(settled + [first], ids[1..]);
      assert settled + ([first] + Rejections(ids[1..])) == (settled + [first]) + Rejections(ids[1..]);
      assert GotIds(settled) + [] == GotIds(settled) && SentIds(settled) + [] == SentIds(settled);
    }
  }

  lemma {:induction false} GotsClosed<T>(ids: seq<nat>)
    ensures Gots(Rejections<T>(ids)) == []
    decreases |ids|
  {
    if ids != [] {
      assert Rejections<T>(ids)[1..] == Rejections<T>(ids[1..]);
      GotsClosed<T>(ids[1..]);
    }
  }

  lemma GotsOne<T>(e: Settled<T>)
    ensures Gots([e]) == if e.Got? then [e.value] else []
  {
    assert [e][1..] == [];
  }

  lemma {:induction false} GotsJoin<T>(a: seq<Settled<T>>, b: seq<Settled<T>>)
    ensures Gots(a + b) == Gots(a) + Gots(b)
    decreases |a|
  {
    if a == [] {
      assert a + b == b;
    } else {
      var first: seq<T> := if a[0].Got? then [a[0].value] else [];
      assert (a + b)[0] == a[0] && (a + b)[1..] == a[1..] + b;
      GotsJoin(a[1..], b);
      assert first + (Gots(a[1..]) + Gots(b)) == (first + Gots(a[1..])) + Gots(b);
    }
  }

  // ---------------------------------------------------------------- replies and promises that end

  /** What one call says, in terms of the channel before it. */
  lemma EndingIs<T>(w: World<T>, command: Command<T>, more: seq<Settled<T>>)
    requires Step(w, command).chan.settled == w.chan.settled + more
    ensures Ending(w, command) == more
  {
    hide Step;
  }

  lemma SendHeard<T>(w: World<T>, input: Option<T>)
    requires !w.chan.closed && input.Some?
    ensures var c, v := w.chan, input.value;
            && Accepted(w, Send(input)) == [v]
            && Heard(w, Send(input)) == if c.receives != [] then [v] else []
  {
    var c, v := w.chan, input.value;
    var more: seq<Settled<T>> := if c.receives != [] then [Got(c.receives[0], v)] else [];
    assert Step(w, Send(input)).chan.settled == c.settled + more;
    EndingIs(w, Send(input), more);
    if c.receives != [] { GotsOne(Got(c.receives[0], v)); }
    hide Ending, Gots;
    assert Gots(more) == if c.receives != [] then [v] else [];
    assert [] + Gots(more) == Gots(more);
  }

  lemma SendFails<T>(w: World<T>, input: Option<T>)
    requires w.chan.closed || input.None?
    ensures Step(w, Send(input)) == w && Accepted(w, Send(input)) == [] && Heard(w, Send(input)) == []
  {
    EndingIs(w, Send(input), []);
  }

  lemma ReceiveHeard<T>(w: World<T>)
    ensures Accepted(w, Receive) == []
    ensures var c := w.chan;
            Heard(w, Receive) == if c.closed then []
                                 else if c.values != [] then [c.values[0]]
                                 else if c.sends != [] then [c.sends[0].1] else []
  {
    var c := w.chan;
    var more: seq<Settled<T>> := if !c.closed && c.values == [] && c.sends != [] then [Sent(c.sends[0].0)] else [];
    assert Step(w, Receive).chan.settled == c.settled + more;
    EndingIs(w, Receive, more);
    if c.sends != [] { GotsOne<T>(Sent(c.sends[0].0)); }
    hide Ending, Gots;
    assert Gots(more) == [];
    assert c.values != [] ==> [c.values[0]] + Gots(more) == [c.values[0]];
    assert c.sends != [] ==> [c.sends[0].1] + Gots(more) == [c.sends[0].1];
  }

  lemma CloseHeard<T>(w: World<T>)
    ensures Accepted(w, Close) == [] && Heard(w, Close) == []
  {
    var c := w.chan;
    var a, b := Rejections<T>(Tickets(c.sends)), Rejections<T>(c.receives);
    assert Step(w, Close).chan.settled == c.settled + (a + b);
    EndingIs(w, Close, a + b);
    hide Ending, Step;
    GotsJoin(a, b);
    GotsClosed<T>(Tickets(c.sends));
    GotsClosed<T>(c.receives);
  }

  lemma StartHeard<T>(w: World<T>)
    ensures Accepted(w, Start) == [] && Heard(w, Start) == []
  {
    EndingIs(w, Start, []);
  }

  // ---------------------------------------------------------------- the record agrees

  lemma OutsSnoc<T>(out: seq<(T, bool)>, e: (T, bool))
    ensures Outs(out + [e]) == Outs(out) + [e.0]
  {}

  /** The record `b` follows `a` when `taken` is taken from senders and receivers get `heard`. */
  ghost predicate Follows<T>(a: Record<T>, taken: seq<T>, heard: seq<T>, b: Record<T>) {
    && b.all == a.all + taken && Outs(b.out) == Outs(a.out) + heard
    && b.accepted == a.accepted + multiset(taken) && b.delivered == a.delivered + multiset(heard)
  }

  lemma FollowsAgrees<T>(h: History<T>, w: World<T>, command: Command<T>)
    requires Agrees(h, w) && !command.Close?
    requires Follows(w.record, Accepted(w, command), Heard(w, command), Step(w, command).record)
    ensures Agrees(Observe(h, w, command), Step(w, command))
  {
    hide Heard, Accepted, Outs, ReplyTo, Step;
  }

  lemma SendFollows<T>(w: World<T>, v: T)
    requires !w.chan.closed
    ensures Follows(w.record, [v], if w.chan.receives != [] then [v] else [], SendStep(w, Some(v)).0.record)
  {
    var r := w.record;
    OutsSnoc(r.out, (v, false));
    assert multiset([v]) == multiset{v} && Outs(r.out) + [] == Outs(r.out);
    hide Outs;
  }

  lemma SendAgrees<T>(h: History<T>, w: World<T>, input: Option<T>)
    requires Agrees(h, w) && !w.chan.closed && input.Some?
    ensures Agrees(Observe(h, w, Send(input)), Step(w, Send(input)))
  {
    SendHeard(w, input);
    SendFollows(w, input.value);
    hide Heard, Accepted, Follows, Agrees, Observe, SendStep;
    FollowsAgrees(h, w, Send(input));
  }

  lemma ReceiveFollows<T>(w: World<T>, heard: seq<T>)
    requires var c := w.chan;
             heard == if c.closed then []
                      else if c.values != [] then [c.values[0]]
                      else if c.sends != [] then [c.sends[0].1] else []
    ensures Follows(w.record, [], heard, ReceiveStep(w).0.record)
  {
    var c, r := w.chan, w.record;
    if c.values != [] { OutsSnoc(r.out, (c.values[0], false)); }
    if c.sends != [] { OutsSnoc(r.out, (c.sends[0].1, true)); }
    assert r.all + [] == r.all && Outs(r.out) + [] == Outs(r.out);
    assert heard != [] ==> multiset(heard) == multiset{heard[0]};
    hide Outs;
  }

  lemma ReceiveAgrees<T>(h: History<T>, w: World<T>)
    requires Agrees(h, w)
    ensures Agrees(Observe(h, w, Receive), Step(w, Receive))
  {
    ReceiveHeard(w);
    ReceiveFollows(w, Heard(w, Receive));
    hide Heard, Accepted, Follows, Agrees, Observe, ReceiveStep;
    FollowsAgrees(h, w, Receive);
  }

  lemma StepAgrees<T>(h: History<T>, w: World<T>, command: Command<T>)
    requires Agrees(h, w)
    ensures Agrees(Observe(h, w, command), Step(w, command))
  {
    assert h.heard + [] == h.heard && h.taken + [] == h.taken;
    match command {
      case Send(input) =>
        if w.chan.closed || input.None? {
          SendFails(w, input);
          hide Heard, Accepted, Step;
        } else {
          SendAgrees(h, w, input);
        }
      case Receive => ReceiveAgrees(h, w);
      case Close =>
        CloseHeard(w);
        hide Heard, Accepted;
      case Start =>
        StartHeard(w);
        hide Heard, Accepted;
    }
  }

  // ---------------------------------------------------------------- who is served

  /** A call puts a new promise at the end of one queue, or leaves the queues as they are or shorter. */
  ghost predicate Advances<T>(c: Chan<T>, command: Command<T>, reply: Reply<T>, d: Chan<T>) {
    || (command.Receive? && reply == Promise(c.next) && d.next == c.next + 1
        && ReceiveQueue(d) == ReceiveQueue(c) + [c.next] && SendQueue(d) == SendQueue(c))
    || (command.Send? && reply == Promise(c.next) && d.next == c.next + 1
        && SendQueue(d) == SendQueue(c) + [c.next] && ReceiveQueue(d) == ReceiveQueue(c))
    || (!reply.Promise? && d.next == c.next
        && ReceiveQueue(d) <= ReceiveQueue(c) && SendQueue(d) <= SendQueue(c))
  }

  lemma SendAdvances<T>(w: World<T>, input: Option<T>)
    ensures Advances(w.chan, Send(input), SendStep(w, input).1, SendStep(w, input).0.chan)
  {
    var c := w.chan;
    hide GotIds, SentIds, Tickets;
    if !c.closed && input.Some? {
      var v := input.value;
      if c.receives != [] {
        IdsSnoc(c.settled, Got(c.receives[0], v));
        assert (GotIds(c.settled) + [c.receives[0]]) + c.receives[1..] == GotIds(c.settled) + c.receives;
        assert SentIds(c.settled) + [] == SentIds(c.settled);
      } else if |c.values| >= c.capacity {
        SendsSnoc(c.sends, (c.next, v));
        assert SendQueue(c) + [c.next] == SentIds(c.settled) + (Tickets(c.sends) + [c.next]);
      }
    }
  }

  lemma ReceiveAdvances<T>(w: World<T>)
    ensures Advances(w.chan, Receive, ReceiveStep(w).1, ReceiveStep(w).0.chan)
  {
    var c := w.chan;
    if c.sends != [] { RejectSend(c.sends); }
    hide GotIds, SentIds, Tickets;
    if !c.closed && c.values == [] {
      if c.sends != [] {
        var sent: Settled<T> := Sent(c.sends[0].0);
        IdsSnoc(c.settled, sent);
        assert (SentIds(c.settled) + [sent.id]) + Tickets(c.sends)[1..] == SentIds(c.settled) + Tickets(c.sends);
        assert GotIds(c.settled) + [] == GotIds(c.settled);
      } else {
        assert ReceiveQueue(c) + [c.next] == GotIds(c.settled) + (c.receives + [c.next]);
      }
    }
  }

  lemma CloseAdvances<T>(w: World<T>)
    ensures Advances(w.chan, Close, Done, CloseStep(w).chan)
  {
    var c := w.chan;
    assert Tickets<T>([]) == [];
    hide GotIds, SentIds, Rejections, Tickets;
    IdsClosed(c.settled, Tickets(c.sends));
    IdsClosed(c.settled + Rejections(Tickets(c.sends)), c.receives);
  }

  lemma StepAdvances<T>(w: World<T>, command: Command<T>)
    ensures Advances(w.chan, command, ReplyTo(w, command), Step(w, command).chan)
  {
    match command {
      case Send(input) => SendAdvances(w, input);
      case Receive => ReceiveAdvances(w);
      case Close => CloseAdvances(w);
      case Start =>
        assert Tickets<T>([]) == [];
        hide GotIds, SentIds, Tickets;
    }
  }

  lemma StepServes<T>(w: World<T>, command: Command<T>)
    requires Served(w.chan)
    ensures Served(Step(w, command).chan)
  {
    StepAdvances(w, command);
    hide ReceiveQueue, SendQueue, Step, ReplyTo, Ascending;
    var c, d := w.chan, Step(w, command).chan;
    QueueMoves(ReceiveQueue(c), ReceiveQueue(d), c.next, d.next);
    QueueMoves(SendQueue(c), SendQueue(d), c.next, d.next);
  }

  lemma QueueMoves(a: seq<nat>, b: seq<nat>, next: nat, after: nat)
    requires Ascending(a) && (forall id :: id in a ==> id < next) && next <= after
    requires b <= a || (b == a + [next] && after == next + 1)
    ensures Ascending(b) && (forall id :: id in b ==> id < after)
  {
    forall i | 0 <= i < |a| ensures a[i] < next { assert a[i] in a; }
    forall id | id in b ensures id < after {
      var i :| 0 <= i < |b| && b[i] == id;
      assert i < |a| ==> b[i] == a[i];
    }
  }

  lemma StepOwes<T>(h: History<T>, w: World<T>, command: Command<T>)
    requires Owed(h, w.chan)
    ensures Owed(Observe(h, w, command), Step(w, command).chan)
  {
    StepAdvances(w, command);
    hide ReceiveQueue, SendQueue, Step, ReplyTo, Heard, Accepted;
    var c, d := w.chan, Step(w, command).chan;
    forall id | id in ReceiveQueue(d) && id != c.next ensures id in ReceiveQueue(c) {}
    forall id | id in SendQueue(d) && id != c.next ensures id in SendQueue(c) {}
  }

  // ---------------------------------------------------------------- runs

  /** What holds between a channel and what its callers saw. */
  ghost predicate Faithful<T>(h: History<T>, w: World<T>) {
    Agrees(h, w) && Owed(h, w.chan) && Served(w.chan)
  }

  lemma {:induction false} RunFaithful<T>(h: History<T>, w: World<T>, commands: seq<Command<T>>)
    requires Faithful(h, w)
    ensures Faithful(Told(h, w, commands), Run(w, commands))
    decreases |commands|
  {
    hide Agrees, Owed, Served, Observe, Step;
    if commands != [] {
      StepAgrees(h, w, commands[0]);
      StepOwes(h, w, commands[0]);
      StepServes(w, commands[0]);
      RunFaithful(Observe(h, w, commands[0]), Step(w, commands[0]), commands[1..]);
    }
  }

  /**
   In every run of a fresh channel the record is what callers saw: the values taken from senders and
   the values that receivers got, in order, since the last close and, as bags, ever.  Promises are
   numbered as they are made, end the way they were made, and are kept in that order, for receivers
   and for senders.
   */
  lemma CallersSee<T>(capacity: nat, commands: seq<Command<T>>)
    ensures Faithful(Told(Blank(), Open(capacity), commands), Run(Open(capacity), commands))
  {
    RunFaithful(Blank(), Open(capacity), commands);
  }

  /**
   What was ever taken from senders is what receivers ever got, what still waits in the buffer or with
   a parked sender, and what closing gave up.
   */
  lemma CallersConserve<T>(capacity: nat, commands: seq<Command<T>>)
    ensures var h, w := Told(Blank(), Open(capacity), commands), Run(Open(capacity), commands);
            h.everTaken == h.everHeard + multiset(w.chan.values) + multiset(Payload(w.chan.sends)) + w.record.dropped
  {
    hide Told, Run;
    CallersSee(capacity, commands);
    EveryRun(capacity, commands);
  }

  /** Since the last close receivers got what senders gave first. */
  ghost predicate GotFirst<T>(capacity: nat, commands: seq<Command<T>>) {
    var h := Told(Blank(), Open(capacity), commands); h.heard <= h.taken
  }

  lemma GotFirstIs<T>(capacity: nat, commands: seq<Command<T>>)
    ensures GotFirst(capacity, commands) <==> FirstOutFirst(Run(Open(capacity), commands))
  {
    hide Told, Run;
    CallersSee(capacity, commands);
  }

  /** Receivers get values in the order in which senders gave them, in every run, exactly without a buffer. */
  lemma CallersInOrder<T(!new)>(capacity: nat, b: T, c: T)
    requires b != c
    ensures (forall commands: seq<Command<T>> :: GotFirst(capacity, commands)) <==> capacity == 0
  {
    hide GotFirst, FirstOutFirst, Run;
    OrderKept(capacity, b, c);
    if capacity == 0 {
      forall commands: seq<Command<T>> ensures GotFirst(capacity, commands) { GotFirstIs(capacity, commands); }
    } else {
      var commands: seq<Command<T>> :| !FirstOutFirst(Run(Open(capacity), commands));
      GotFirstIs(capacity, commands);
    }
  }
}
