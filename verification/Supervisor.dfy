/**
 The service supervisor: one worker at a time, restarted at once for a new build and after a doubling
 wait on a crash, until a stop signal. Each handler runs up to its next await, so a signal can land
 while a log is rotated or written.
 */
module Supervisor {
  import opened Wrappers

  const EXIT_NEW_BUILD := 75

  function Pow2(k: nat): nat {
    if k == 0 then 1 else 2 * Pow2(k - 1)
  }

  function Min(a: nat, b: nat): nat {
    if a < b then a else b
  }

  /** The wait before restart `k`, counting from zero, as each crash doubles the one before. */
  function Wait(start: nat, max: nat, k: nat): nat {
    if k == 0 then start else Min(2 * Wait(start, max, k - 1), max)
  }

  lemma {:induction false} WaitIsCapped(start: nat, max: nat, k: nat)
    requires start <= max
    ensures Wait(start, max, k) == Min(start * Pow2(k), max)
  {
    if k > 0 {
      WaitIsCapped(start, max, k - 1);
      Doubled(start, Pow2(k - 1));
      assert start * Pow2(k) == 2 * (start * Pow2(k - 1));
    }
  }

  lemma Doubled(a: nat, b: nat)
    ensures a * (2 * b) == 2 * (a * b)
  {
  }

  /** The closed form holds for every restart exactly when the first wait is within the cap. */
  lemma WaitIsCappedIff(start: nat, max: nat)
    ensures (forall k :: Wait(start, max, k) == Min(start * Pow2(k), max)) <==> start <= max
  {
    if start <= max {
      forall k ensures Wait(start, max, k) == Min(start * Pow2(k), max) { WaitIsCapped(start, max, k); }
    } else {
      assert Pow2(0) == 1 && start * Pow2(0) == start;
      assert Wait(start, max, 0) != Min(start * Pow2(0), max);
    }
  }

  /** With a first wait past the cap, that one wait is kept whole and every later one is the cap. */
  lemma {:induction false} WaitPastTheCap(start: nat, max: nat, k: nat)
    requires start > max && k > 0
    ensures Wait(start, max, k) == max
  {
    if k > 1 { WaitPastTheCap(start, max, k - 1); }
  }

  // ---------- the supervisor as a transition system

  datatype Event =
    | LogRotated
    | WorkerExits(code: Option<int>)
    | BuildLogged
    | CrashLogged
    | TimerFires
    | Signal
    | RecordRemoved

  datatype Config = Config(startDelay: nat, maxDelay: nat)

  /**
   `timer` is when a pending restart is due. `spawning`, `loggingBuild` and `loggingCrash` are the
   handlers between their awaits: before a spawn, and before what follows a log line. `alive` are the
   children running, `started` all ever started, `crashes` the consecutive short-lived crashes.
   */
  datatype State = State(
    worker: bool,
    workerStartedAt: int,
    timer: Option<int>,
    delay: nat,
    stopping: bool,
    finalized: bool,
    exited: bool,
    spawning: nat,
    loggingBuild: nat,
    loggingCrash: nat,
    now: int,
    alive: nat,
    started: nat,
    crashes: nat)

  function First(c: Config, now: int): State {
    State(false, 0, None, c.startDelay, false, false, false, 1, 0, 0, now, 0, 0, 0)
  }

  function OnItsWay(s: State): nat {
    s.spawning + s.loggingBuild + s.loggingCrash
  }

  function Pending(s: State): nat {
    OnItsWay(s) + if s.timer.Some? then 1 else 0
  }

  function Finished(s: State): State {
    if s.finalized then s else s.(finalized := true, timer := None)
  }

  predicate Happens(s: State, e: Event) {
    !s.exited &&
    match e
    case LogRotated => s.spawning > 0
    case WorkerExits(_) => s.worker
    case BuildLogged => s.loggingBuild > 0
    case CrashLogged => s.loggingCrash > 0
    case TimerFires => s.timer.Some? && s.now >= s.timer.value
    case Signal => true
    case RecordRemoved => s.finalized
  }

  /** The handler of `e` up to its next await. */
  function Handled(c: Config, s: State, e: Event): State
    requires Happens(s, e) && (s.worker ==> s.alive > 0)
  {
    match e
    case LogRotated =>
      s.(spawning := s.spawning - 1, worker := true, workerStartedAt := s.now, alive := s.alive + 1, started := s.started + 1)
    case WorkerExits(code) =>
      var gone := s.(worker := false, alive := s.alive - 1);
      if s.stopping then Finished(gone)
      else if code == Some(EXIT_NEW_BUILD) then gone.(loggingBuild := s.loggingBuild + 1)
      else if s.now - s.workerStartedAt > c.maxDelay then
        gone.(delay := c.startDelay, crashes := 0, loggingCrash := s.loggingCrash + 1)
      else gone.(loggingCrash := s.loggingCrash + 1)
    case BuildLogged =>
      s.(loggingBuild := s.loggingBuild - 1, delay := c.startDelay, crashes := 0, spawning := s.spawning + 1)
    case CrashLogged =>
      s.(loggingCrash := s.loggingCrash - 1, delay := Min(s.delay * 2, c.maxDelay), crashes := s.crashes + 1,
         timer := Some(s.now + s.delay))
    case TimerFires => s.(timer := None, spawning := s.spawning + 1)
    case Signal => if s.finalized then s else if s.worker then s.(stopping := true) else Finished(s.(stopping := true))
    case RecordRemoved => s.(exited := true)
  }

  /** An event after some time; one that cannot happen is skipped. */
  function Step(c: Config, s: State, e: (nat, Event)): State
    requires s.worker ==> s.alive > 0
  {
    var later := s.(now := s.now + e.0);
    if Happens(later, e.1) then Handled(c, later, e.1) else later
  }

  /** Never two workers, nor a worker beside a restart; until a stop always exactly one of them. */
  ghost predicate Sane(c: Config, s: State) {
    && s.alive == (if s.worker then 1 else 0)
    && s.alive + Pending(s) <= 1
    && (!s.stopping ==> s.alive + Pending(s) == 1)
    && s.delay == Wait(c.startDelay, c.maxDelay, s.crashes)
    && (s.exited ==> s.finalized) && (s.finalized ==> s.stopping)
    && (s.stopping && !s.finalized ==> s.worker)
  }

  lemma StepKeeps(c: Config, s: State, e: (nat, Event))
    requires Sane(c, s)
    ensures Sane(c, Step(c, s, e))
  {
  }

  function Played(c: Config, s: State, events: seq<(nat, Event)>): State
    requires Sane(c, s)
    decreases |events|
  {
    if |events| == 0 then s
    else
      StepKeeps(c, s, events[0]);
      Played(c, Step(c, s, events[0]), events[1..])
  }

  lemma {:induction false} PlayedOneMore(c: Config, s: State, events: seq<(nat, Event)>, e: (nat, Event))
    requires Sane(c, s)
    ensures Sane(c, Played(c, s, events)) && Played(c, s, events + [e]) == Step(c, Played(c, s, events), e)
    decreases |events|
  {
    if |events| > 0 {
      StepKeeps(c, s, events[0]);
      PlayedOneMore(c, Step(c, s, events[0]), events[1..], e);
      assert (events + [e])[1..] == events[1..] + [e];
    } else {
      StepKeeps(c, s, e);
      assert (events + [e])[1..] == [];
    }
  }

  // ---------- what a stop promises

  lemma StoppingOnlyUsesUp(c: Config, s: State, e: (nat, Event))
    requires Sane(c, s) && s.stopping
    ensures var t := Step(c, s, e); t.stopping && t.started + Pending(t) <= s.started + Pending(s)
  {
  }

  lemma {:induction false} StartsAfterStop(c: Config, s: State, events: seq<(nat, Event)>)
    requires Sane(c, s) && s.stopping
    ensures var t := Played(c, s, events); t.stopping && t.started + Pending(t) <= s.started + Pending(s)
    decreases |events|
  {
    if |events| > 0 {
      StepKeeps(c, s, events[0]);
      StoppingOnlyUsesUp(c, s, events[0]);
      StartsAfterStop(c, Step(c, s, events[0]), events[1..]);
    }
  }

  /** A run that brings the handler on its way to its spawn. */
  function Overtaking(c: Config, s: State): seq<(nat, Event)> {
    if s.spawning > 0 then [(0, LogRotated)]
    else if s.loggingBuild > 0 then [(0, BuildLogged), (0, LogRotated)]
    else [(0, CrashLogged), (s.delay, TimerFires), (0, LogRotated)]
  }

  lemma OvertakingStarts(c: Config, s: State)
    requires Sane(c, s) && !s.exited && !s.worker && OnItsWay(s) > 0
    ensures Played(c, s, Overtaking(c, s)).started == s.started + 1
  {
    var way := Overtaking(c, s);
    PlayedOneMore(c, s, way[..0], way[0]);
    assert way[..0] + [way[0]] == way[..1];
    if |way| > 1 {
      PlayedOneMore(c, s, way[..1], way[1]);
      assert way[..1] + [way[1]] == way[..2];
    }
    if |way| > 2 {
      PlayedOneMore(c, s, way[..2], way[2]);
      assert way[..2] + [way[2]] == way[..3];
    }
    assert way[..|way|] == way;
  }

  /**
   A stop is not final exactly when some handler is between its awaits as the signal comes: then, and
   only then, some continuation starts a worker, and none starts two. A crash handler even sets a new
   restart timer after the supervisor cancelled the old one.
   */
  lemma StopIsFinalIff(c: Config, s: State)
    requires Sane(c, s) && !s.stopping
    ensures Sane(c, Step(c, s, (0, Signal)))
    ensures (exists events :: Played(c, Step(c, s, (0, Signal)), events).started > s.started) <==> OnItsWay(s) > 0
    ensures forall events :: Played(c, Step(c, s, (0, Signal)), events).started <= s.started + 1
  {
    StepKeeps(c, s, (0, Signal));
    var stopped := Step(c, s, (0, Signal));
    forall events ensures Played(c, stopped, events).started <= s.started + OnItsWay(s) {
      StartsAfterStop(c, stopped, events);
    }
    if OnItsWay(s) > 0 {
      OvertakingStarts(c, stopped);
      assert Played(c, stopped, Overtaking(c, stopped)).started > s.started;
    }
  }

  // ---------- the supervisor as an object

  class ServiceSupervisor {
    const config: Config
    var worker: bool
    var workerStartedAt: int
    var timer: Option<int>
    var delay: nat
    var stopping: bool
    var finalized: bool
    var exited: bool
    var spawning: nat
    var loggingBuild: nat
    var loggingCrash: nat
    var now: int
    var alive: nat
    var started: nat
    var crashes: nat

    ghost function Now(): State
      reads this
    {
      State(worker, workerStartedAt, timer, delay, stopping, finalized, exited, spawning, loggingBuild, loggingCrash,
            now, alive, started, crashes)
    }

    ghost predicate Valid()
      reads this
    {
      Sane(config, Now())
    }

    constructor (config: Config, now: int)
      ensures Valid() && this.config == config && Now() == First(config, now)
    {
      this.config, this.now := config, now;
      worker, workerStartedAt, timer, delay := false, 0, None, config.startDelay;
      stopping, finalized, exited := false, false, false;
      spawning, loggingBuild, loggingCrash, alive, started, crashes := 1, 0, 0, 0, 0, 0;
    }

    /** The second half of a spawn, once the log was rotated. */
    method SpawnWorker()
      requires Valid() && Happens(Now(), LogRotated)
      modifies `spawning, `workerStartedAt, `worker, `alive, `started
      ensures Valid() && Now() == Handled(config, old(Now()), LogRotated)
      ensures old(alive) == 0 && alive == 1
    {
      spawning := spawning - 1;
      workerStartedAt := now;
      worker, alive, started := true, alive + 1, started + 1;
    }

    method Finish()
      modifies `finalized, `timer
      ensures Now() == Finished(old(Now()))
    {
      if finalized { return; }
      finalized, timer := true, None;
    }

    /** A new build starts over at once; a run longer than the longest wait forgets the crashes before it. */
    method HandleWorkerExit(code: Option<int>)
      requires Valid() && Happens(Now(), WorkerExits(code))
      modifies `worker, `alive, `finalized, `timer, `delay, `loggingBuild, `loggingCrash, `crashes
      ensures Valid() && !worker && Now() == Handled(config, old(Now()), WorkerExits(code))
      ensures stopping ==> finalized && OnItsWay(Now()) == 0
      ensures !stopping && code == Some(EXIT_NEW_BUILD) ==> loggingBuild == 1
      ensures !stopping && code != Some(EXIT_NEW_BUILD) ==>
                loggingCrash == 1 && crashes == if now - workerStartedAt > config.maxDelay then 0 else old(crashes)
    {
      worker, alive := false, alive - 1;
      if stopping {
        Finish();
        return;
      }
      if code == Some(EXIT_NEW_BUILD) {
        loggingBuild := loggingBuild + 1;
        return;
      }
      if now - workerStartedAt > config.maxDelay { delay, crashes := config.startDelay, 0; }
      loggingCrash := loggingCrash + 1;
    }

    method AfterBuildLogged()
      requires Valid() && Happens(Now(), BuildLogged)
      modifies `loggingBuild, `delay, `crashes, `spawning
      ensures Valid() && Now() == Handled(config, old(Now()), BuildLogged)
      ensures crashes == 0 && delay == config.startDelay && spawning == 1
    {
      loggingBuild := loggingBuild - 1;
      delay, crashes := config.startDelay, 0;
      spawning := spawning + 1;
    }

    /** Consecutive short-lived crash number `crashes` waits its turn of the backoff. */
    method AfterCrashLogged()
      requires Valid() && Happens(Now(), CrashLogged)
      modifies `loggingCrash, `delay, `crashes, `timer
      ensures Valid() && Now() == Handled(config, old(Now()), CrashLogged)
      ensures timer == Some(now + Wait(config.startDelay, config.maxDelay, old(crashes))) && crashes == old(crashes) + 1
    {
      loggingCrash := loggingCrash - 1;
      var wait := delay;
      delay := Min(delay * 2, config.maxDelay);
      crashes := crashes + 1;
      timer := Some(now + wait);
    }

    method FireTimer()
      requires Valid() && Happens(Now(), TimerFires)
      modifies `timer, `spawning
      ensures Valid() && Now() == Handled(config, old(Now()), TimerFires)
      ensures timer.None? && spawning == 1
    {
      timer := None;
      spawning := spawning + 1;
    }

    /** A stop asks the worker to end; without a worker it ends the supervisor and its restart timer. */
    method HandleSignal()
      requires Valid() && Happens(Now(), Signal)
      modifies `stopping, `finalized, `timer
      ensures Valid() && stopping && Now() == Handled(config, old(Now()), Signal)
      ensures old(!finalized) ==> (finalized <==> !worker) && timer.None?
      ensures old(finalized) ==> unchanged(this)
    {
      if finalized { return; }
      stopping := true;
      if worker { return; }
      Finish();
    }

    /** Any run, in any order of events, is the run of the transition system. */
    /** One event, some time after the last; none reaches a supervisor that has exited. */
    method Meet(event: (nat, Event))
      requires Valid()
      modifies this
      ensures Valid() && Now() == Step(config, old(Now()), event)
    {
      now := now + event.0;
      if !exited { React(event.1); }
    }

    method Run(events: seq<(nat, Event)>)
      requires Valid()
      modifies this
      ensures Valid() && Now() == Played(config, old(Now()), events)
      ensures alive <= 1 && (worker ==> timer.None?)
      ensures !stopping ==> alive + Pending(Now()) == 1
    {
      ghost var start := Now();
      for i := 0 to |events|
        invariant Valid() && Sane(config, start) && Now() == Played(config, start, events[..i])
      {
        PlayedOneMore(config, start, events[..i], events[i]);
        assert events[..i + 1] == events[..i] + [events[i]];
        Meet(events[i]);
      }
      assert events[..|events|] == events;
    }

    method React(e: Event)
      requires Valid() && !exited
      modifies this
      ensures Valid() && Now() == if Happens(old(Now()), e) then Handled(config, old(Now()), e) else old(Now())
    {
      match e {
        case LogRotated => if spawning > 0 { SpawnWorker(); }
        case WorkerExits(code) => if worker { HandleWorkerExit(code); }
        case BuildLogged => if loggingBuild > 0 { AfterBuildLogged(); }
        case CrashLogged => if loggingCrash > 0 { AfterCrashLogged(); }
        case TimerFires => if timer.Some? && now >= timer.value { FireTimer(); }
        case Signal => HandleSignal();
        case RecordRemoved => if finalized { exited := true; }
      }
    }

    /** The shortest such run: a signal during the first log rotation, and the worker starts after all. */
    static method SignalDuringRotation(config: Config) returns (s: ServiceSupervisor)
      ensures fresh(s) && s.stopping && s.finalized && s.worker && s.started == 1
    {
      s := new ServiceSupervisor(config, 0);
      s.HandleSignal();
      s.SpawnWorker();
    }
  }
}
