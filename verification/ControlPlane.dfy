/**
 The recovery scheduler of the control plane, and the bounded run of one recovery plan.

 The scheduler is a state machine over a clock that never goes back: it is started and stopped, health
 is observed when its timer fires or a subscriber is told, and a recovery it began ends at some time.
 */
module ControlPlane {
  import opened HashGraphs

  datatype Config = Config(startupGraceMs: nat, recoveryBackoffMs: nat, healthPollIntervalMs: nat, polls: bool)

  datatype Health = Healthy | Faulty | Unclear

  /**
   A recovery that was begun: when, on what health, when the coordinator had been started, whether no
   recovery was active at that start, when the last recovery since that start had ended, and the last
   one ever.
   */
  datatype Begun = Begun(at: int, seen: Health, startedAt: int, clean: bool, lastEnd: Option<int>,
                         everEnd: Option<int>)

  /** `timer` is when the pending observation is due; `polls` in the configuration is a status reader. */
  datatype Coordinator = Coordinator(config: Config, now: int, started: bool, startedAt: int, clean: bool,
                                     lastEnd: Option<int>, everEnd: Option<int>, nextRecoveryAt: int,
                                     timer: Option<int>, active: nat, log: seq<Begun>)

  datatype Action = Tick(ms: nat) | Start(first: Health) | Stop | Notify(status: Health) | Fire(status: Health) | End

  function Fresh(config: Config, now: int): Coordinator {
    Coordinator(config, now, false, now, true, None, None, now, None, 0, [])
  }

  function Later(a: int, b: int): int { if a < b then b else a }

  function Schedule(c: Coordinator, at: int): Coordinator {
    if !c.config.polls || !c.started || c.timer.Some? then c else c.(timer := Some(Later(c.now, at)))
  }

  function Observe(c: Coordinator, status: Health): Coordinator {
    if !c.started then c
    else if status == Healthy then Schedule(c, c.now + c.config.healthPollIntervalMs)
    else if c.active > 0 then c
    else if c.now < c.nextRecoveryAt then Schedule(c, c.nextRecoveryAt)
    else if status == Unclear then Schedule(c, c.now + c.config.healthPollIntervalMs)
    else
      c.(active := c.active + 1, log := c.log + [Begun(c.now, status, c.startedAt, c.clean, c.lastEnd, c.everEnd)])
  }

  predicate Enabled(c: Coordinator, a: Action) {
    match a
    case Start(_) => !c.started
    case Stop => c.started
    case Fire(_) => c.timer.Some? && c.timer.value <= c.now
    case End => c.active > 0
    case _ => true
  }

  function Step(c: Coordinator, a: Action): Coordinator
    requires Enabled(c, a)
  {
    match a
    case Tick(ms) => c.(now := c.now + ms)
    case Start(first) =>
      var d := c.(started := true, startedAt := c.now, clean := c.active == 0, lastEnd := None,
                  nextRecoveryAt := c.now + c.config.startupGraceMs);
      var e := if c.config.polls then Observe(d, first) else d;
      Schedule(e, e.nextRecoveryAt)
    case Stop => c.(started := false, timer := None)
    case Notify(status) => Observe(c, status)
    case Fire(status) => Observe(c.(timer := None), status)
    case End =>
      var d := c.(active := c.active - 1, nextRecoveryAt := c.now + c.config.recoveryBackoffMs,
                  everEnd := Some(c.now), lastEnd := if c.started then Some(c.now) else c.lastEnd);
      Schedule(d, d.nextRecoveryAt)
  }

  // ---------------------------------------------------------------- what every step keeps

  /** A recovery begins on a fault, and not too early by what happened last since the start. */
  ghost predicate Patient(config: Config, b: Begun) {
    && b.seen == Faulty
    && (b.lastEnd.Some? ==> b.at >= b.lastEnd.value + config.recoveryBackoffMs)
    && (b.lastEnd.None? || b.clean ==> b.at >= b.startedAt + config.startupGraceMs)
    && (config.recoveryBackoffMs >= config.startupGraceMs ==> KeepsGrace(config, b))
    && (config.startupGraceMs >= config.recoveryBackoffMs ==> KeepsBackoff(config, b))
  }

  predicate KeepsGrace(config: Config, b: Begun) { b.at >= b.startedAt + config.startupGraceMs }

  predicate KeepsBackoff(config: Config, b: Begun) {
    b.everEnd.Some? ==> b.at >= b.everEnd.value + config.recoveryBackoffMs
  }

  function Longest(config: Config): int {
    Later(config.healthPollIntervalMs, Later(config.startupGraceMs, config.recoveryBackoffMs))
  }

  /** A started coordinator with a status reader waits for a timer or for a recovery to end. */
  ghost predicate Awake(c: Coordinator) {
    && (c.started && c.config.polls ==> c.timer.Some? || c.active > 0)
    && (!c.started ==> c.timer.None?)
    && (c.timer.Some? ==> c.timer.value <= c.now + Longest(c.config))
  }

  /** What the times of the last start and of the last ends have to do with each other. */
  ghost predicate Timed(c: Coordinator) {
    && (c.everEnd.Some? ==> c.everEnd.value <= c.now)
    && (c.started ==>
          && c.startedAt <= c.now
          && (c.active == 0 || c.lastEnd.Some? || !c.clean || c.now >= c.startedAt + c.config.startupGraceMs)
          && (match c.lastEnd
              case None => (c.clean || c.active > 0) && (c.everEnd.Some? ==> c.everEnd.value <= c.startedAt)
              case Some(end) =>
                && c.startedAt <= end <= c.now && c.everEnd == Some(end)
                && (c.clean ==> end >= c.startedAt + c.config.startupGraceMs))
          && (c.nextRecoveryAt == match c.lastEnd
                                  case None => c.startedAt + c.config.startupGraceMs
                                  case Some(end) => end + c.config.recoveryBackoffMs))
  }

  ghost predicate Unhurried(config: Config, log: seq<Begun>) {
    forall i :: 0 <= i < |log| ==> Patient(config, log[i])
  }

  /** Recoveries never overlap, nothing is stranded and nothing is hurried. */
  ghost predicate Inv(c: Coordinator) {
    c.active <= 1 && Awake(c) && Timed(c) && Unhurried(c.config, c.log)
  }

  lemma BeginPatient(c: Coordinator)
    requires Timed(c) && c.started && c.active == 0 && c.now >= c.nextRecoveryAt
    ensures Patient(c.config, Begun(c.now, Faulty, c.startedAt, c.clean, c.lastEnd, c.everEnd))
  {}

  lemma LogMore(config: Config, log: seq<Begun>, b: Begun)
    requires Unhurried(config, log) && Patient(config, b)
    ensures Unhurried(config, log + [b])
  {
    hide Patient;
  }

  lemma ObserveKeeps(c: Coordinator, status: Health)
    requires c.active <= 1 && Timed(c) && Unhurried(c.config, c.log) && (Awake(c) || c.timer.None?)
    ensures Inv(Observe(c, status))
  {
    if c.started && status == Faulty && c.active == 0 && c.now >= c.nextRecoveryAt {
      BeginPatient(c);
      LogMore(c.config, c.log, Begun(c.now, Faulty, c.startedAt, c.clean, c.lastEnd, c.everEnd));
    }
    hide Unhurried, Patient;
  }

  lemma StartKeeps(c: Coordinator, first: Health)
    requires Inv(c) && !c.started
    ensures Inv(Step(c, Start(first)))
  {
    hide Unhurried;
    var d := c.(started := true, startedAt := c.now, clean := c.active == 0, lastEnd := None,
                nextRecoveryAt := c.now + c.config.startupGraceMs);
    assert Timed(d);
    if c.config.polls { ObserveKeeps(d, first); }
  }

  lemma EndKeeps(c: Coordinator)
    requires Inv(c) && c.active > 0
    ensures Inv(Step(c, End))
  {
    hide Unhurried;
  }

  lemma StepKeeps(c: Coordinator, a: Action)
    requires Inv(c) && Enabled(c, a)
    ensures Inv(Step(c, a)) && Step(c, a).config == c.config
  {
    hide Unhurried;
    match a {
      case Tick(_) =>
      case Start(first) => StartKeeps(c, first);
      case Stop =>
      case Notify(status) => ObserveKeeps(c, status);
      case Fire(status) => ObserveKeeps(c.(timer := None), status);
      case End => EndKeeps(c);
    }
  }

  function Run(c: Coordinator, actions: seq<Action>): Coordinator
    decreases |actions|
  {
    if actions == [] then c else Run(if Enabled(c, actions[0]) then Step(c, actions[0]) else c, actions[1..])
  }

  lemma {:induction false} RunKeeps(c: Coordinator, actions: seq<Action>)
    requires Inv(c)
    ensures Inv(Run(c, actions)) && Run(c, actions).config == c.config
    decreases |actions|
  {
    hide Inv, Step, Enabled;
    if actions != [] {
      if Enabled(c, actions[0]) { StepKeeps(c, actions[0]); }
      RunKeeps(if Enabled(c, actions[0]) then Step(c, actions[0]) else c, actions[1..]);
    }
  }

  /**
   In every run, recoveries never overlap, a started coordinator always has a pending observation, due
   no later than the longest of its three delays from now, or an active recovery, and no recovery is
   hurried: it begins on a fault and keeps the backoff to the last recovery that ended
   since the start, and the startup grace unless one from before the start was still active then.
   Over restarts the grace is always kept when the backoff is no shorter, and the backoff when the grace
   is no shorter.
   */
  lemma SchedulerPatient(config: Config, now: int, actions: seq<Action>)
    ensures Inv(Run(Fresh(config, now), actions))
  {
    RunKeeps(Fresh(config, now), actions);
  }

  // ---------------------------------------------------------------- what an observation does

  /** The earliest time for the next recovery: the backoff after the last end, or the startup grace. */
  function Allowed(c: Coordinator): int {
    match c.lastEnd
    case None => c.startedAt + c.config.startupGraceMs
    case Some(end) => end + c.config.recoveryBackoffMs
  }

  /** The health that an action makes the coordinator look at. */
  function Seen(c: Coordinator, a: Action): Option<Health> {
    match a
    case Start(first) => if c.config.polls then Some(first) else None
    case Notify(status) => Some(status)
    case Fire(status) => Some(status)
    case _ => None
  }

  /**
   A recovery begins if and only if a started coordinator without an active one sees a fault, and the
   backoff since the last end, or before any end the startup grace, has passed.
   */
  lemma BeginsExactly(c: Coordinator, a: Action)
    requires Inv(c) && Enabled(c, a)
    ensures var d := Step(c, a);
            var may := match a case Start(_) => c.now + c.config.startupGraceMs case _ => Allowed(c);
            && (|d.log| == |c.log| + 1 <==> Seen(c, a) == Some(Faulty) && d.started && c.active == 0 && c.now >= may)
            && (|d.log| != |c.log| + 1 ==> d.log == c.log)
  {}

  /**
   When the pending observation is made: the next is due one poll interval later if nothing is to be
   done, when a recovery may begin if it is too early, and not before its end if one is active or begins.
   */
  lemma NextPoll(c: Coordinator, status: Health)
    requires Inv(c) && c.config.polls && Enabled(c, Fire(status))
    ensures Step(c, Fire(status)).timer
            == if status == Healthy then Some(c.now + c.config.healthPollIntervalMs)
               else if c.active > 0 then None
               else if c.now < Allowed(c) then Some(Allowed(c))
               else if status == Unclear then Some(c.now + c.config.healthPollIntervalMs)
               else None
  {}

  /** When a recovery ends and nothing is pending, the next observation is due after the backoff. */
  lemma PollAfterEnd(c: Coordinator)
    requires Inv(c) && c.config.polls && c.started && c.active > 0
    ensures var d := Step(c, End);
            && Allowed(d) == c.now + c.config.recoveryBackoffMs
            && d.timer == if c.timer.Some? then c.timer else Some(Allowed(d))
  {}

  // ---------------------------------------------------------------- what restarts can break

  function Apply(c: Coordinator, a: Action): Coordinator { if Enabled(c, a) then Step(c, a) else c }

  lemma RunTwo(c: Coordinator, a: Action, b: Action, rest: seq<Action>)
    ensures Run(c, [a, b] + rest) == Run(Apply(Apply(c, a), b), rest)
  {
    hide Enabled, Step;
    assert ([a, b] + rest)[1..] == [b] + rest && ([b] + rest)[1..] == rest;
  }

  lemma RunEight(c: Coordinator, r: seq<Action>)
    requires |r| == 8
    ensures var d := Apply(Apply(Apply(Apply(c, r[0]), r[1]), r[2]), r[3]);
            Run(c, r) == Apply(Apply(Apply(Apply(d, r[4]), r[5]), r[6]), r[7])
  {
    hide Apply;
    assert r == [r[0], r[1]] + ([r[2], r[3]] + ([r[4], r[5]] + ([r[6], r[7]] + [])));
    RunTwo(c, r[0], r[1], [r[2], r[3]] + ([r[4], r[5]] + ([r[6], r[7]] + [])));
    var d := Apply(Apply(c, r[0]), r[1]);
    RunTwo(d, r[2], r[3], [r[4], r[5]] + ([r[6], r[7]] + []));
    var e := Apply(Apply(d, r[2]), r[3]);
    RunTwo(e, r[4], r[5], [r[6], r[7]] + []);
    RunTwo(Apply(Apply(e, r[4]), r[5]), r[6], r[7], []);
  }

  /** A restart while a recovery is still ending can lose the startup grace. */
  function RestartDuring(config: Config): seq<Action> {
    [Start(Healthy), Tick(config.startupGraceMs), Notify(Faulty), Stop, Start(Healthy), End,
     Tick(config.recoveryBackoffMs), Notify(Faulty)]
  }

  /** A restart after a recovery can lose the backoff. */
  function RestartAfter(config: Config): seq<Action> {
    [Start(Healthy), Tick(config.startupGraceMs), Notify(Faulty), End, Stop, Start(Healthy),
     Tick(config.startupGraceMs), Notify(Faulty)]
  }

  lemma GraceLost(config: Config)
    requires config.recoveryBackoffMs < config.startupGraceMs
    ensures var c := Run(Fresh(config, 0), RestartDuring(config));
            c.log != [] && !KeepsGrace(config, c.log[|c.log| - 1])
  {
    RunEight(Fresh(config, 0), RestartDuring(config));
  }

  lemma BackoffLost(config: Config)
    requires config.startupGraceMs < config.recoveryBackoffMs
    ensures var c := Run(Fresh(config, 0), RestartAfter(config));
            c.log != [] && !KeepsBackoff(config, c.log[|c.log| - 1])
  {
    RunEight(Fresh(config, 0), RestartAfter(config));
  }

  // ---------------------------------------------------------------- one plan

  datatype Terminal = Succeeded | Exhausted | Deadline | Aborted | Failed

  /** The abort signal: not aborted, aborted, or aborted by a timeout. */
  datatype Signal = Calm | Cancelled | TimedOut

  function AbortTerminal(signal: Signal): Terminal {
    if signal == TimedOut then Deadline else Aborted
  }

  /**
   What the outside does to one attempt: the signal and the clock before the operations, whether each
   operation succeeded, the signal and the clock after them, the clock at the sleep, whether the sleep
   throws and the signal then, and the clock after it.
   */
  datatype Round = Round(signalBefore: Signal, before: int, results: seq<bool>, signalAfter: Signal, after: int,
                         atSleep: int, sleepThrows: bool, signalInSleep: Signal, afterSleep: int)

  datatype Sleep = Sleep(at: int, ms: int)

  function Smaller(a: int, b: int): int { if a < b then a else b }

  /** The results of the first `n` attempts. */
  function Results(env: nat -> Round, n: nat): seq<bool> {
    if n == 0 then [] else Results(env, n - 1) + env(n - 1).results
  }

  lemma {:induction false} ResultsSize(env: nat -> Round, n: nat, size: nat)
    requires forall k :: |env(k).results| == size
    ensures |Results(env, n)| == n * size
    decreases n
  {
    if n > 0 { ResultsSize(env, n - 1, size); }
  }

  // What can happen in a round, in the order of time.

  predicate Begins(r: Round, deadline: int) { r.signalBefore == Calm && r.before < deadline }

  predicate Finishes(r: Round, deadline: int) { Begins(r, deadline) && r.signalAfter == Calm && r.after < deadline }

  predicate Fails(r: Round, deadline: int) { Finishes(r, deadline) && true !in r.results }

  predicate FallsAsleep(r: Round, deadline: int, last: bool) { Fails(r, deadline) && !last && r.atSleep < deadline }

  /** The next round follows. */
  predicate GoesOn(r: Round, deadline: int, last: bool) {
    FallsAsleep(r, deadline, last) && !r.sleepThrows && r.afterSleep < deadline
  }

  /** How a round ends the run. */
  ghost predicate EndsWith(r: Round, deadline: int, last: bool, terminal: Terminal) {
    match terminal
    case Succeeded => Finishes(r, deadline) && true in r.results
    case Exhausted => Fails(r, deadline) && last
    case Failed => FallsAsleep(r, deadline, last) && r.sleepThrows && r.signalInSleep == Calm
    case Aborted =>
      || r.signalBefore == Cancelled
      || (Begins(r, deadline) && r.signalAfter == Cancelled)
      || (FallsAsleep(r, deadline, last) && r.sleepThrows && r.signalInSleep == Cancelled)
    case Deadline =>
      || r.signalBefore == TimedOut || (r.signalBefore == Calm && r.before >= deadline)
      || (Begins(r, deadline) && (r.signalAfter == TimedOut || (r.signalAfter == Calm && r.after >= deadline)))
      || (Fails(r, deadline) && !last && r.atSleep >= deadline)
      || (FallsAsleep(r, deadline, last)
          && if r.sleepThrows then r.signalInSleep == TimedOut else r.afterSleep >= deadline)
  }

  /** A round either goes on or ends the run in exactly one way. */
  lemma OneEnd(r: Round, deadline: int, last: bool)
    ensures GoesOn(r, deadline, last) ==> forall t :: !EndsWith(r, deadline, last, t)
    ensures !GoesOn(r, deadline, last) ==> exists t :: EndsWith(r, deadline, last, t)
    ensures forall t, u :: EndsWith(r, deadline, last, t) && EndsWith(r, deadline, last, u) ==> t == u
  {
    if !GoesOn(r, deadline, last) {
      var t := if !Begins(r, deadline) then (if r.signalBefore == Calm then Deadline else AbortTerminal(r.signalBefore))
               else if !Finishes(r, deadline) then
                 (if r.signalAfter == Calm then Deadline else AbortTerminal(r.signalAfter))
               else if true in r.results then Succeeded
               else if last then Exhausted
               else if r.atSleep >= deadline || !r.sleepThrows then Deadline
               else if r.signalInSleep == Calm then Failed else AbortTerminal(r.signalInSleep);
      assert EndsWith(r, deadline, last, t);
    }
  }

  /** How many attempts a plan has: the maximum, or one more than there are delays. */
  function Limit(maxAttempts: nat, delays: seq<nat>): (n: nat)
    ensures n == Smaller(maxAttempts, |delays| + 1)
  {
    Smaller(maxAttempts, |delays| + 1)
  }

  /** The rounds before `k` all went on. */
  ghost predicate Reaches(env: nat -> Round, n: nat, deadline: int, k: nat) {
    forall j: nat :: j < k ==> GoesOn(env(j), deadline, j + 1 == n)
  }

  /** The run ends in round `k` with `terminal`; a plan without attempts is exhausted. */
  ghost predicate EndsAt(env: nat -> Round, n: nat, deadline: int, k: nat, terminal: Terminal) {
    if n == 0 then k == 0 && terminal == Exhausted
    else k < n && Reaches(env, n, deadline, k) && EndsWith(env(k), deadline, k + 1 == n, terminal)
  }

  /** A run ends once and in one way. */
  lemma EndsOnce(env: nat -> Round, n: nat, deadline: int, k: nat, t: Terminal, k': nat, t': Terminal)
    requires EndsAt(env, n, deadline, k, t) && EndsAt(env, n, deadline, k', t')
    ensures k == k' && t == t'
  {
    hide EndsWith, GoesOn;
    OneEnd(env(k), deadline, k + 1 == n);
    OneEnd(env(k'), deadline, k' + 1 == n);
  }

  /** The sleep of a round: the configured delay, or what is left until the deadline. */
  function Nap(r: Round, delay: nat, deadline: int): Sleep {
    Sleep(r.atSleep, Smaller(delay, deadline - r.atSleep))
  }

  /**
   Run the operations of a plan until one attempt has a success, the attempts or the delays run out, the
   deadline passes or the signal aborts.  Attempts are numbered from one; `env(k)` is attempt k + 1 and
   `at` the round in which the run ends.  A terminal is returned exactly when the outside ends the run so.
   */
  method RunPlan(maxAttempts: nat, delays: seq<nat>, size: nat, deadline: int, env: nat -> Round)
    returns (terminal: Terminal, attempts: nat, operations: seq<bool>, sleeps: seq<Sleep>, ghost at: nat)
    requires forall k :: |env(k).results| == size
    ensures var n := Limit(maxAttempts, delays);
            && EndsAt(env, n, deadline, at, terminal)
            && (forall t, k :: EndsAt(env, n, deadline, k, t) ==> t == terminal && k == at)
            && attempts == at + (if n > 0 && Begins(env(at), deadline) then 1 else 0)
            && |sleeps| == at + (if n > 0 && FallsAsleep(env(at), deadline, at + 1 == n) then 1 else 0)
            && attempts <= n && |sleeps| <= |delays|
    ensures operations == Results(env, attempts) && |operations| == attempts * size
    ensures forall i :: 0 <= i < |sleeps| ==> sleeps[i] == Nap(env(i), delays[i], deadline)
    ensures forall i :: 0 <= i < |sleeps| ==> sleeps[i].at + sleeps[i].ms <= deadline && 0 <= sleeps[i].ms <= delays[i]
  {
    ghost var n := Limit(maxAttempts, delays);
    terminal, attempts, operations, sleeps, at := RunAttempts(maxAttempts, delays, deadline, env);
    ResultsSize(env, attempts, size);
    hide EndsAt, Nap;
    forall t, k | EndsAt(env, n, deadline, k, t) ensures t == terminal && k == at {
      EndsOnce(env, n, deadline, k, t, at, terminal);
    }
    forall i | 0 <= i < |sleeps| ensures sleeps[i].at + sleeps[i].ms <= deadline && 0 <= sleeps[i].ms <= delays[i] {
      NapFits(env(i), delays[i], deadline);
    }
  }

  lemma NapFits(r: Round, delay: nat, deadline: int)
    requires r.atSleep < deadline
    ensures var s := Nap(r, delay, deadline); s.at + s.ms <= deadline && 0 <= s.ms <= delay
  {}

  lemma ReachesStart(env: nat -> Round, n: nat, deadline: int)
    ensures Reaches(env, n, deadline, 0)
  {}

  lemma ReachesNext(env: nat -> Round, n: nat, deadline: int, k: nat)
    requires Reaches(env, n, deadline, k) && GoesOn(env(k), deadline, k + 1 == n)
    ensures Reaches(env, n, deadline, k + 1)
  {
    hide GoesOn;
  }

  lemma EndsHere(env: nat -> Round, n: nat, deadline: int, k: nat, terminal: Terminal)
    requires k < n && Reaches(env, n, deadline, k) && EndsWith(env(k), deadline, k + 1 == n, terminal)
    ensures EndsAt(env, n, deadline, k, terminal)
  {}

  lemma NoAttempts(env: nat -> Round, deadline: int)
    ensures EndsAt(env, 0, deadline, 0, Exhausted)
  {}

  method RunAttempts(maxAttempts: nat, delays: seq<nat>, deadline: int, env: nat -> Round)
    returns (terminal: Terminal, attempts: nat, operations: seq<bool>, sleeps: seq<Sleep>, ghost at: nat)
    ensures var n := Limit(maxAttempts, delays);
            && EndsAt(env, n, deadline, at, terminal)
            && attempts == at + (if n > 0 && Begins(env(at), deadline) then 1 else 0)
            && |sleeps| == at + (if n > 0 && FallsAsleep(env(at), deadline, at + 1 == n) then 1 else 0)
            && attempts <= n && |sleeps| <= |delays|
    ensures operations == Results(env, attempts)
    ensures forall i :: 0 <= i < |sleeps| ==> sleeps[i] == Nap(env(i), delays[i], deadline) && env(i).atSleep < deadline
  {
    ghost var n := Limit(maxAttempts, delays);
    hide EndsAt, Reaches;
    ReachesStart(env, n, deadline);
    attempts, operations, sleeps, at := 0, [], [], 0;
    var attempt := 0;
    while attempt < maxAttempts
      invariant attempts == attempt == at <= maxAttempts && |sleeps| == attempt && (attempt < n || n == 0)
      invariant Reaches(env, n, deadline, attempt)
      invariant operations == Results(env, attempt)
      invariant attempt <= |delays|
      invariant forall i :: 0 <= i < |sleeps| ==>
                  sleeps[i] == Nap(env(i), delays[i], deadline) && env(i).atSleep < deadline
    {
      var round := env(attempt);
      if round.signalBefore != Calm {
        EndsHere(env, n, deadline, at, AbortTerminal(round.signalBefore));
        return AbortTerminal(round.signalBefore), attempts, operations, sleeps, at;
      }
      if round.before >= deadline {
        EndsHere(env, n, deadline, at, Deadline);
        return Deadline, attempts, operations, sleeps, at;
      }
      attempts := attempt + 1;
      var recovered := RunOperations(round.results);
      operations := operations + round.results;
      if round.signalAfter != Calm {
        EndsHere(env, n, deadline, at, AbortTerminal(round.signalAfter));
        return AbortTerminal(round.signalAfter), attempts, operations, sleeps, at;
      }
      if round.after >= deadline {
        EndsHere(env, n, deadline, at, Deadline);
        return Deadline, attempts, operations, sleeps, at;
      }
      if recovered {
        EndsHere(env, n, deadline, at, Succeeded);
        return Succeeded, attempts, operations, sleeps, at;
      }
      if attempts >= maxAttempts || attempt >= |delays| {
        EndsHere(env, n, deadline, at, Exhausted);
        return Exhausted, attempts, operations, sleeps, at;
      }
      var remaining := deadline - round.atSleep;
      if remaining <= 0 {
        EndsHere(env, n, deadline, at, Deadline);
        return Deadline, attempts, operations, sleeps, at;
      }
      sleeps := sleeps + [Sleep(round.atSleep, Smaller(delays[attempt], remaining))];
      if round.sleepThrows {
        terminal := if round.signalInSleep != Calm then AbortTerminal(round.signalInSleep) else Failed;
        EndsHere(env, n, deadline, at, terminal);
        return terminal, attempts, operations, sleeps, at;
      }
      if round.afterSleep >= deadline {
        EndsHere(env, n, deadline, at, Deadline);
        return Deadline, attempts, operations, sleeps, at;
      }
      ReachesNext(env, n, deadline, attempt);
      attempt := attempt + 1;
      at := attempt;
    }
    terminal := Exhausted;
    NoAttempts(env, deadline);
  }

  /** Every operation of an attempt runs, whatever the others did. */
  method RunOperations(results: seq<bool>) returns (recovered: bool)
    ensures recovered <==> true in results
  {
    recovered := false;
    for i := 0 to |results|
      invariant recovered <==> true in results[..i]
    {
      if results[i] { recovered := true; }
    }
  }
}
