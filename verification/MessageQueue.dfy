/**
 The fan-out loops of a message queue, as a state machine.

 Closing and starting a queue gives it a new channel, a generation, and possibly a new loop.  A loop
 first awaits the loop before it, then receives messages of its own generation and calls the
 subscribed handlers one after the other.  Every `await` is a point where any other step may happen;
 what a channel delivers and when is left open.
 */
module MessageQueue {

  datatype Phase = Waiting | Checking | Receiving | Handling(message: nat, handler: nat) | Exiting | Finished

  datatype Loop = Loop(generation: nat, phase: Phase)

  /** A handler is called, or returns; `last` says that no further handler was subscribed. */
  datatype Event = Began(loop: nat, message: nat, handler: nat)
                 | Ended(loop: nat, message: nat, handler: nat, last: bool)

  datatype Queue = Queue(active: bool, generation: nat, subscribers: nat, started: bool,
                         loops: seq<Loop>, log: seq<Event>)

  datatype Action = Subscribe | Close | Start
                  | Proceed(loop: nat) | Check(loop: nat) | Deliver(loop: nat, message: nat)
                  | Reject(loop: nat) | Return(loop: nat) | Finish(loop: nat)

  function Fresh(): Queue { Queue(true, 0, 0, false, [], []) }

  function StartLoop(q: Queue): Queue {
    if q.started || !q.active || q.subscribers == 0 then q
    else q.(started := true, loops := q.loops + [Loop(q.generation, Waiting)])
  }

  function SetPhase(q: Queue, k: nat, phase: Phase): Queue
    requires k < |q.loops|
  {
    q.(loops := q.loops[k := q.loops[k].(phase := phase)])
  }

  /** The channel of a generation is closed when a newer one replaced it or the queue is closed. */
  predicate Shut(q: Queue, generation: nat) {
    generation < q.generation || !q.active
  }

  function Call(q: Queue, k: nat, message: nat, handler: nat): Queue
    requires k < |q.loops|
  {
    SetPhase(q, k, Handling(message, handler)).(log := q.log + [Began(k, message, handler)])
  }

  function Returned(q: Queue, k: nat): Queue
    requires k < |q.loops| && q.loops[k].phase.Handling?
  {
    var Handling(message, handler) := q.loops[k].phase;
    var last := handler + 1 >= q.subscribers;
    var ended := q.(log := q.log + [Ended(k, message, handler, last)]);
    if last then SetPhase(ended, k, Checking) else Call(ended, k, message, handler + 1)
  }

  predicate Enabled(q: Queue, a: Action) {
    match a
    case Subscribe => true
    case Close => q.active
    case Start => !q.active
    case Proceed(k) => k < |q.loops| && q.loops[k].phase == Waiting && (k == 0 || q.loops[k - 1].phase == Finished)
    case Check(k) => k < |q.loops| && q.loops[k].phase == Checking
    case Deliver(k, _) => k < |q.loops| && q.loops[k].phase == Receiving
    case Reject(k) => k < |q.loops| && q.loops[k].phase == Receiving && Shut(q, q.loops[k].generation)
    case Return(k) => k < |q.loops| && q.loops[k].phase.Handling?
    case Finish(k) => k < |q.loops| && q.loops[k].phase == Exiting
  }

  function Step(q: Queue, a: Action): Queue
    requires Enabled(q, a)
  {
    match a
    case Subscribe => StartLoop(q.(subscribers := q.subscribers + 1))
    case Close => q.(active := false)
    case Start => StartLoop(q.(active := true, generation := q.generation + 1, started := false))
    case Proceed(k) => SetPhase(q, k, Checking)
    case Check(k) =>
      SetPhase(q, k, if q.active && q.loops[k].generation == q.generation then Receiving else Exiting)
    case Deliver(k, message) => Call(q, k, message, 0)
    case Reject(k) => SetPhase(q, k, Exiting)
    case Return(k) => Returned(q, k)
    case Finish(k) =>
      SetPhase(q, k, Finished).(started := q.started && q.loops[k].generation != q.generation)
  }

  // ---------------------------------------------------------------- what every step keeps

  /** A loop past its first await has every earlier loop behind it, finished. */
  ghost predicate Chained(loops: seq<Loop>) {
    forall i, j :: 0 <= i < j < |loops| && loops[j].phase != Waiting ==> loops[i].phase == Finished
  }

  /** One loop per generation, in order. */
  ghost predicate OnePerGeneration(q: Queue) {
    && (forall i, j :: 0 <= i < j < |q.loops| ==> q.loops[i].generation < q.loops[j].generation)
    && (forall i :: 0 <= i < |q.loops| ==> q.loops[i].generation <= q.generation)
  }

  /** An active queue with a subscriber has a loop of its generation that has not begun to exit. */
  ghost predicate Served(q: Queue) {
    && (q.started ==> q.loops != [] && Newest(q).generation == q.generation)
    && (q.loops != [] ==> q.subscribers > 0)
    && (q.active && q.subscribers > 0 ==> q.started && !Newest(q).phase.Exiting? && !Newest(q).phase.Finished?)
    && (!q.started && q.loops != [] && Newest(q).generation == q.generation ==> !q.active)
  }

  function Newest(q: Queue): Loop {
    if q.loops == [] then Loop(0, Waiting) else q.loops[|q.loops| - 1]
  }

  /** Calls and returns alternate, and each message goes to the handlers in turn up to the last. */
  ghost predicate Serial(log: seq<Event>) {
    && (forall i :: 0 <= i < |log| ==> (log[i].Began? <==> i % 2 == 0))
    && (forall i :: 0 <= i < |log| - 1 ==> Follows(log[i], log[i + 1]))
    && (log != [] ==> log[0].handler == 0)
  }

  predicate Follows(a: Event, b: Event) {
    match a
    case Began(k, m, h) => b.Ended? && b.loop == k && b.message == m && b.handler == h
    case Ended(k, m, h, last) =>
      b.Began? && (if last then b.handler == 0 else b == Began(k, m, h + 1))
  }

  /** A loop is inside a handler exactly when the log ends with that call. */
  ghost predicate Pending(q: Queue) {
    && (forall k :: 0 <= k < |q.loops| && q.loops[k].phase.Handling? ==>
          && q.loops[k].phase.handler < q.subscribers && q.log != []
          && q.log[|q.log| - 1] == Began(k, q.loops[k].phase.message, q.loops[k].phase.handler))
    && (q.log != [] && q.log[|q.log| - 1].Began? ==>
          var k := q.log[|q.log| - 1].loop; k < |q.loops| && q.loops[k].phase.Handling?)
    && (q.log != [] && q.log[|q.log| - 1].Ended? ==> q.log[|q.log| - 1].last)
  }

  ghost predicate Inv(q: Queue) {
    Chained(q.loops) && OnePerGeneration(q) && Served(q) && Serial(q.log) && Pending(q)
  }

  /** Only one loop is past its first await and not finished. */
  lemma OneRunning(q: Queue, i: nat, j: nat)
    requires Chained(q.loops) && i < |q.loops| && j < |q.loops|
    requires q.loops[i].phase != Waiting && q.loops[i].phase != Finished
    requires q.loops[j].phase != Waiting && q.loops[j].phase != Finished
    ensures i == j
  {}

  lemma StartKeeps(q: Queue)
    requires Chained(q.loops) && OnePerGeneration(q) && Serial(q.log) && Pending(q)
    requires q.started ==> Served(q)
    requires !q.started && q.loops != [] ==> q.subscribers > 0 && (q.active ==> Newest(q).generation < q.generation)
    ensures Inv(StartLoop(q))
  {
    hide Serial;
  }

  lemma PhaseKeeps(q: Queue, k: nat, phase: Phase)
    requires Inv(q) && k < |q.loops| && q.loops[k].phase != Finished && !q.loops[k].phase.Handling?
    requires !phase.Handling? && phase != Waiting && phase != Finished
    requires q.loops[k].phase == Waiting ==> k == 0 || q.loops[k - 1].phase == Finished
    requires phase == Exiting ==> Shut(q, q.loops[k].generation)
    ensures Inv(SetPhase(q, k, phase))
  {
    hide Serial;
    AllBefore(q, k);
  }

  /** When the loop before is finished, so are all earlier ones. */
  lemma AllBefore(q: Queue, k: nat)
    requires Chained(q.loops) && k < |q.loops|
    requires q.loops[k].phase == Waiting ==> k == 0 || q.loops[k - 1].phase == Finished
    ensures forall i :: 0 <= i < k ==> q.loops[i].phase == Finished
  {}

  lemma FinishKeeps(q: Queue, k: nat)
    requires Inv(q) && k < |q.loops| && q.loops[k].phase == Exiting
    ensures Inv(Step(q, Finish(k)))
  {
    hide Serial;
  }

  lemma SerialSnoc(log: seq<Event>, e: Event)
    requires Serial(log) && (log == [] ==> e.Began? && e.handler == 0)
    requires log != [] ==> Follows(log[|log| - 1], e)
    ensures Serial(log + [e])
  {
    var more := log + [e];
    forall i | 0 <= i < |more| - 1 ensures Follows(more[i], more[i + 1]) {
      if i < |log| - 1 { assert Follows(log[i], log[i + 1]); }
    }
  }

  /** The one running loop calls a handler: nothing else is inside one. */
  lemma CallKeeps(q: Queue, k: nat, message: nat, handler: nat)
    requires Chained(q.loops) && OnePerGeneration(q) && Served(q) && Serial(q.log)
    requires k < |q.loops| && q.loops[k].phase != Waiting && q.loops[k].phase != Finished && q.loops[k].phase != Exiting
    requires handler < q.subscribers && (q.log == [] ==> handler == 0)
    requires q.log != [] ==> Follows(q.log[|q.log| - 1], Began(k, message, handler))
    ensures Inv(Call(q, k, message, handler))
  {
    SerialSnoc(q.log, Began(k, message, handler));
    hide Serial, Follows;
    forall j | 0 <= j < |q.loops| && j != k ensures !q.loops[j].phase.Handling? {
      if q.loops[j].phase.Handling? { OneRunning(q, j, k); }
    }
  }

  lemma DeliverKeeps(q: Queue, k: nat, message: nat)
    requires Inv(q) && Enabled(q, Deliver(k, message))
    ensures Inv(Step(q, Deliver(k, message)))
  {
    if q.log != [] && q.log[|q.log| - 1].Began? { OneRunning(q, q.log[|q.log| - 1].loop, k); }
    CallKeeps(q, k, message, 0);
  }

  lemma ReturnKeeps(q: Queue, k: nat)
    requires Inv(q) && Enabled(q, Return(k))
    ensures Inv(Step(q, Return(k)))
  {
    var Handling(message, handler) := q.loops[k].phase;
    var last := handler + 1 >= q.subscribers;
    var e := Ended(k, message, handler, last);
    ReturnSerial(q, k, e);
    if last { CheckAgain(q, k, e); } else { CallNext(q, k, e); }
    hide Inv, Call, SetPhase;
  }

  lemma CallNext(q: Queue, k: nat, e: Event)
    requires Inv(q) && Enabled(q, Return(k)) && Serial(q.log + [e]) && q.loops[k].phase.handler + 1 < q.subscribers
    requires e == Ended(k, q.loops[k].phase.message, q.loops[k].phase.handler, false)
    ensures Inv(Call(q.(log := q.log + [e]), k, e.message, e.handler + 1))
  {
    hide Serial, Chained, Pending, Call;
    CallKeeps(q.(log := q.log + [e]), k, e.message, e.handler + 1);
  }

  lemma ReturnSerial(q: Queue, k: nat, e: Event)
    requires Inv(q) && Enabled(q, Return(k))
    requires e.Ended? && e.loop == k && e.message == q.loops[k].phase.message && e.handler == q.loops[k].phase.handler
    ensures Serial(q.log + [e])
  {
    hide Serial, Chained, OnePerGeneration, Served;
    SerialSnoc(q.log, e);
  }

  lemma CheckAgain(q: Queue, k: nat, e: Event)
    requires Inv(q) && Enabled(q, Return(k)) && e.Ended? && e.last && Serial(q.log + [e])
    ensures Inv(SetPhase(q.(log := q.log + [e]), k, Checking))
  {
    hide Serial;
    forall j | 0 <= j < |q.loops| && j != k ensures !q.loops[j].phase.Handling? {
      if q.loops[j].phase.Handling? { OneRunning(q, j, k); }
    }
  }

  /** Subscribing, closing and starting. */
  lemma UserKeeps(q: Queue, a: Action)
    requires Inv(q) && Enabled(q, a) && (a == Subscribe || a == Close || a == Start)
    ensures Inv(Step(q, a))
  {
    hide Serial, StartLoop, Chained;
    match a {
      case Subscribe => StartKeeps(q.(subscribers := q.subscribers + 1));
      case Close =>
      case Start => StartKeeps(q.(active := true, generation := q.generation + 1, started := false));
    }
  }

  lemma StepKeeps(q: Queue, a: Action)
    requires Inv(q) && Enabled(q, a)
    ensures Inv(Step(q, a))
  {
    hide Inv, Returned, Call, StartLoop;
    match a {
      case Subscribe => UserKeeps(q, a);
      case Close => UserKeeps(q, a);
      case Start => UserKeeps(q, a);
      case Proceed(k) => PhaseKeeps(q, k, Checking);
      case Check(k) => CheckKeeps(q, k);
      case Deliver(k, message) => DeliverKeeps(q, k, message);
      case Reject(k) => PhaseKeeps(q, k, Exiting);
      case Return(k) => ReturnKeeps(q, k);
      case Finish(k) => FinishKeeps(q, k);
    }
  }

  lemma CheckKeeps(q: Queue, k: nat)
    requires Inv(q) && Enabled(q, Check(k))
    ensures Inv(Step(q, Check(k)))
  {
    assert q.loops[k].generation <= q.generation;
    hide Inv;
    PhaseKeeps(q, k, if q.active && q.loops[k].generation == q.generation then Receiving else Exiting);
  }

  // ---------------------------------------------------------------- runs

  /** Every interleaving: a step that is not enabled does nothing. */
  function Run(q: Queue, actions: seq<Action>): Queue
    decreases |actions|
  {
    if actions == [] then q
    else Run(if Enabled(q, actions[0]) then Step(q, actions[0]) else q, actions[1..])
  }

  lemma {:induction false} RunKeeps(q: Queue, actions: seq<Action>)
    requires Inv(q)
    ensures Inv(Run(q, actions))
    decreases |actions|
  {
    hide Inv, Step, Enabled;
    if actions != [] {
      if Enabled(q, actions[0]) { StepKeeps(q, actions[0]); }
      RunKeeps(if Enabled(q, actions[0]) then Step(q, actions[0]) else q, actions[1..]);
    }
  }

  /**
   In every run at most one loop exists per generation, handler calls never overlap, a loop receives
   only after all earlier loops have finished, and an active queue with subscribers is served.
   */
  lemma FanOutSerial(actions: seq<Action>)
    ensures Inv(Run(Fresh(), actions))
  {
    RunKeeps(Fresh(), actions);
  }

  // ---------------------------------------------------------------- one message goes to every handler

  /** Handler `i` of `n` is called for the message and returns; the log of the message begins at `from`. */
  ghost predicate CallAt(log: seq<Event>, from: nat, k: nat, message: nat, i: nat, n: nat) {
    && from + 2 * i + 1 < |log|
    && log[from + 2 * i] == Began(k, message, i) && log[from + 2 * i + 1] == Ended(k, message, i, i + 1 == n)
  }

  /** From `from` on the log has the calls of handlers `0` to `n - 1` for one message, each with its return. */
  ghost predicate Visited(log: seq<Event>, from: nat, k: nat, message: nat, n: nat) {
    forall i: nat :: i < n ==> CallAt(log, from, k, message, i, n)
  }

  /** Loop `k` is inside handler `h` for the message, and the log since `from` says just that. */
  ghost predicate Visiting(q: Queue, from: nat, k: nat, message: nat, h: nat) {
    && k < |q.loops| && q.loops[k].phase == Handling(message, h) && |q.log| == from + 2 * h + 1
    && q.log[from + 2 * h] == Began(k, message, h)
    && (forall i: nat :: i < h ==> CallAt(q.log, from, k, message, i, 0))
  }

  /** The message is on its way through at least `n` handlers, or has been through them. */
  ghost predicate Fanned(q: Queue, from: nat, k: nat, message: nat, n: nat) {
    && k < |q.loops| && n <= q.subscribers
    && ((exists h :: Visiting(q, from, k, message, h))
        || exists all :: n <= all <= q.subscribers && Visited(q.log, from, k, message, all))
  }

  lemma VisitedStays(log: seq<Event>, more: seq<Event>, from: nat, k: nat, message: nat, n: nat)
    requires Visited(log, from, k, message, n)
    ensures Visited(log + more, from, k, message, n)
  {
    var longer := log + more;
    forall i: nat | i < n ensures CallAt(longer, from, k, message, i, n) {
      assert CallAt(log, from, k, message, i, n);
    }
  }

  /** A step appends to the log and forgets neither loops nor handlers. */
  lemma StepGrows(q: Queue, a: Action)
    requires Enabled(q, a)
    ensures var r := Step(q, a);
            && |q.loops| <= |r.loops| && q.log <= r.log
            && r.subscribers == q.subscribers + if a == Subscribe then 1 else 0
  {}

  /** While a loop is inside a handler nothing but its return is logged. */
  lemma OthersSilent(q: Queue, k: nat, a: Action)
    requires Inv(q) && k < |q.loops| && q.loops[k].phase.Handling? && Enabled(q, a) && a != Return(k)
    ensures Step(q, a).log == q.log && Step(q, a).loops[k].phase == q.loops[k].phase
  {
    match a {
      case Deliver(j, _) => OneRunning(q, j, k);
      case Return(j) => OneRunning(q, j, k);
      case _ =>
    }
  }

  /** The return of a handler calls the next one, or ends the visit when there is none. */
  lemma ReturnVisits(q: Queue, from: nat, k: nat, message: nat, h: nat)
    requires Visiting(q, from, k, message, h)
    ensures var r := Step(q, Return(k));
            if h + 1 < q.subscribers then Visiting(r, from, k, message, h + 1)
            else Visited(r.log, from, k, message, h + 1)
  {
    var r := Step(q, Return(k));
    var last := h + 1 >= q.subscribers;
    assert r.log[..|q.log|] == q.log && r.log[|q.log|] == Ended(k, message, h, last);
    var n := if last then h + 1 else 0;
    forall i: nat | i <= h ensures CallAt(r.log, from, k, message, i, n) {
      assert i < h ==> CallAt(q.log, from, k, message, i, 0);
    }
  }

  lemma StepFans(q: Queue, a: Action, from: nat, k: nat, message: nat, n: nat)
    requires Inv(q) && Enabled(q, a) && Fanned(q, from, k, message, n)
    ensures Fanned(Step(q, a), from, k, message, n)
  {
    StepGrows(q, a);
    var r := Step(q, a);
    if h :| Visiting(q, from, k, message, h) {
      if a == Return(k) {
        ReturnVisits(q, from, k, message, h);
        HandlerKnown(q, k);
        hide Inv, Step, Visited, Visiting;
      } else {
        OthersSilent(q, k, a);
        hide Inv, Step, Visited, CallAt;
        assert Visiting(r, from, k, message, h);
      }
    } else {
      hide Inv, Step, Visiting;
      var all :| n <= all <= q.subscribers && Visited(q.log, from, k, message, all);
      VisitedStays(q.log, r.log[|q.log|..], from, k, message, all);
      assert r.log == q.log + r.log[|q.log|..];
      assert Visited(r.log, from, k, message, all);
    }
  }

  lemma HandlerKnown(q: Queue, k: nat)
    requires Inv(q) && k < |q.loops| && q.loops[k].phase.Handling?
    ensures q.loops[k].phase.handler < q.subscribers
  {}

  lemma {:induction false} RunFans(q: Queue, actions: seq<Action>, from: nat, k: nat, message: nat, n: nat)
    requires Inv(q) && Fanned(q, from, k, message, n)
    ensures Fanned(Run(q, actions), from, k, message, n)
    decreases |actions|
  {
    hide Inv, Step, Enabled, Fanned;
    if actions != [] {
      if Enabled(q, actions[0]) {
        StepKeeps(q, actions[0]);
        StepFans(q, actions[0], from, k, message, n);
      }
      RunFans(if Enabled(q, actions[0]) then Step(q, actions[0]) else q, actions[1..], from, k, message, n);
    }
  }

  /** How often `Subscribe` occurs. */
  function Subscriptions(actions: seq<Action>): nat {
    if actions == [] then 0 else (if actions[0] == Subscribe then 1 else 0) + Subscriptions(actions[1..])
  }

  lemma {:induction false} RunSubscribes(q: Queue, actions: seq<Action>)
    ensures Run(q, actions).subscribers == q.subscribers + Subscriptions(actions)
    decreases |actions|
  {
    hide Step;
    if actions != [] {
      if Enabled(q, actions[0]) { StepGrows(q, actions[0]); }
      RunSubscribes(if Enabled(q, actions[0]) then Step(q, actions[0]) else q, actions[1..]);
    }
  }

  /**
   When a message is delivered after some subscriptions, then whatever happens next, either its loop is
   still inside one of the handlers, or the log holds, since the delivery and with nothing in between,
   one call of every handler in order, of at least those subscribed then and of none never subscribed.
   */
  lemma EveryHandler(before: seq<Action>, k: nat, message: nat, after: seq<Action>)
    requires Enabled(Run(Fresh(), before), Deliver(k, message))
    ensures var q := Run(Fresh(), before);
            var r := Run(Step(q, Deliver(k, message)), after);
            || (exists h :: Visiting(r, |q.log|, k, message, h))
            || (exists n :: Subscriptions(before) <= n <= Subscriptions(before) + Subscriptions(after)
                            && Visited(r.log, |q.log|, k, message, n))
  {
    var q := Run(Fresh(), before);
    var r := Run(Step(q, Deliver(k, message)), after);
    FanOutSerial(before);
    RunSubscribes(Fresh(), before);
    RunSubscribes(Step(q, Deliver(k, message)), after);
    DeliverKeeps(q, k, message);
    assert Visiting(Step(q, Deliver(k, message)), |q.log|, k, message, 0);
    hide Run, Inv;
    RunFans(Step(q, Deliver(k, message)), after, |q.log|, k, message, q.subscribers);
  }

  // ---------------------------------------------------------------- loops of an old generation

  /** The loop belongs to an earlier generation and is not receiving or inside a handler. */
  ghost predicate Retired(q: Queue, k: nat) {
    && k < |q.loops| && q.loops[k].generation < q.generation
    && !q.loops[k].phase.Receiving? && !q.loops[k].phase.Handling?
  }

  /** No event from `from` on belongs to loop `k`. */
  ghost predicate Silent(log: seq<Event>, from: nat, k: nat) {
    from <= |log| && forall i :: from <= i < |log| ==> log[i].loop != k
  }

  lemma RetiredStep(q: Queue, a: Action, from: nat, k: nat)
    requires Enabled(q, a) && Retired(q, k) && Silent(q.log, from, k)
    ensures Retired(Step(q, a), k) && Silent(Step(q, a).log, from, k)
  {}

  lemma {:induction false} RetiredRun(q: Queue, actions: seq<Action>, from: nat, k: nat)
    requires Retired(q, k) && Silent(q.log, from, k)
    ensures Retired(Run(q, actions), k) && Silent(Run(q, actions).log, from, k)
    decreases |actions|
  {
    hide Retired, Silent, Step, Enabled;
    if actions != [] {
      if Enabled(q, actions[0]) { RetiredStep(q, actions[0], from, k); }
      RetiredRun(if Enabled(q, actions[0]) then Step(q, actions[0]) else q, actions[1..], from, k);
    }
  }

  /**
   After a restart a loop of the old generation that is not receiving or inside a handler calls no
   handler any more, whatever happens.
   */
  lemma OldLoopsEnd(before: seq<Action>, k: nat, after: seq<Action>)
    requires Retired(Run(Fresh(), before), k)
    ensures var q := Run(Fresh(), before); Silent(Run(q, after).log, |q.log|, k)
  {
    var q := Run(Fresh(), before);
    RetiredRun(q, after, |q.log|, k);
  }
}
