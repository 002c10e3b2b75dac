/**
 One task attempt: a single pipeline with many early exits, one lock and one terminal record. What
 the outside world answers is one value; what reaches the disk is kept in a trail. A phase may throw,
 and the process may be killed between any two steps, which is a number of steps that runs out.
 */
module TaskPipeline {
  import opened Wrappers
  import opened Text
  import ScopeAudit

  // ---------- the change-level gate and its reruns

  /** The change-level verify: its switch, its command, and what its successive runs give. */
  datatype ChangeGate = ChangeGate(
    switchedOff: bool,
    command: string,
    passes: nat -> bool,
    /** Whether every failing test of a red run is unrelated to the task. */
    unrelated: nat -> bool,
    maxReruns: int,
    planConflict: nat -> bool)

  datatype GateOutcome = Green | NoCommand | Conflict | Red

  /** Run number `k` ends the gate green: every earlier run was red and judged unrelated. */
  ghost predicate GreenAt(g: ChangeGate, k: nat) {
    && (k == 0 || k <= g.maxReruns)
    && g.passes(k)
    && forall j :: 0 <= j < k ==> !g.passes(j) && g.unrelated(j)
  }

  /** Run number `k` ends the gate red: nothing more may be rerun. */
  ghost predicate RedAt(g: ChangeGate, k: nat) {
    && (k == 0 || k <= g.maxReruns)
    && (forall j :: 0 <= j <= k ==> !g.passes(j))
    && (forall j :: 0 <= j < k ==> g.unrelated(j))
    && (k >= g.maxReruns || !g.unrelated(k))
  }

  method RunChangeVerifyGate(g: ChangeGate) returns (outcome: GateOutcome, runs: nat)
    ensures outcome == Green <==> g.switchedOff || (g.command != "" && exists k :: GreenAt(g, k))
    ensures outcome == NoCommand <==> !g.switchedOff && g.command == ""
    ensures outcome == Conflict <==> !g.switchedOff && g.command != "" && exists k :: RedAt(g, k) && g.planConflict(k)
    ensures runs == 0 <==> g.switchedOff || g.command == ""
    ensures runs > 0 ==> runs == 1 || runs <= g.maxReruns + 1
    ensures runs > 0 ==> if outcome == Green then GreenAt(g, runs - 1) else RedAt(g, runs - 1)
  {
    if g.switchedOff { return Green, 0; }
    if g.command == "" { return NoCommand, 0; }
    var passed, rerun := g.passes(0), 0;
    while !passed && rerun < g.maxReruns
      invariant passed == g.passes(rerun)
      invariant rerun == 0 || rerun <= g.maxReruns
      invariant forall j :: 0 <= j < rerun ==> !g.passes(j) && g.unrelated(j)
      decreases g.maxReruns - rerun, !passed
    {
      if !g.unrelated(rerun) { break; }
      rerun := rerun + 1;
      passed := g.passes(rerun);
    }
    if passed {
      assert GreenAt(g, rerun);
      GateEndsOnce(g, rerun);
      return Green, rerun + 1;
    }
    assert RedAt(g, rerun);
    GateEndsOnce(g, rerun);
    return (if g.planConflict(rerun) then Conflict else Red), rerun + 1;
  }

  /** The gate ends at one run only, green or red. */
  lemma GateEndsOnce(g: ChangeGate, k: nat)
    requires GreenAt(g, k) || RedAt(g, k)
    ensures forall j :: GreenAt(g, j) ==> j == k && GreenAt(g, k)
    ensures forall j :: RedAt(g, j) ==> j == k && RedAt(g, k)
  {
    forall j: nat | GreenAt(g, j) || RedAt(g, j) ensures j == k {
      assert j < k ==> !g.passes(j);
      assert k < j ==> !g.passes(k);
    }
  }

  // ---------- what the world answers

  datatype Starts = StartsRed | StartsGreen | StartsAny
  datatype PreSpawnMode = Off | Warn | Enforce
  datatype TaskRead = NoTaskFile | EntryMissing | Readable

  /** The verify before a first attempt: its declared start state against what it did. */
  datatype PreSpawn = PreSpawn(mode: PreSpawnMode, attempt: nat, expected: Starts, passed: bool, pathsMissing: bool)

  datatype Spawn = Spawn(exitCode: int, timedOut: bool, wroteResult: bool, paused: bool, failure: string)

  /** What each phase answers; an optional check is None or the reason it ends the attempt for. */
  datatype World = World(
    approved: Option<string>,
    folderHash: string,
    taskRead: TaskRead,
    task: nat,
    passes: nat -> bool,
    baselineRed: bool,
    preSpawn: PreSpawn,
    spawn: Spawn,
    violation: Option<string>,
    undeclaredTests: bool,
    resultFile: bool,
    finalText: bool,
    blockedFirst: Option<string>,
    verifyPasses: bool,
    ownFolder: Option<string>,
    gate: ChangeGate,
    /** The phase that throws instead of answering. */
    throwsAt: Option<nat>,
    /** Whether writing the failure marker, what follows a record, and freeing the lock throw. */
    recordFails: bool,
    afterRecordFails: bool,
    releaseFails: bool)

  /** What the attempt finds on disk: the task's lock, and an earlier task that no longer matches. */
  datatype Standing = Standing(held: bool, stale: bool)

  /** Which of two writes reaches the disk first when a failure record is not waited for. */
  datatype Order = RecordFirst | ReleaseFirst

  /** A `red` verify that passes only for a missing path is no mismatch. */
  predicate Mismatch(p: PreSpawn) {
    match p.expected
    case StartsAny => false
    case StartsRed => p.passed && !p.pathsMissing
    case StartsGreen => !p.passed
  }

  predicate PreSpawnOk(p: PreSpawn) {
    p.mode != Enforce || p.attempt != 1 || !Mismatch(p)
  }

  /** The agent's run counts unless it paused, timed out, or failed without a result of its own. */
  predicate SpawnOk(s: Spawn) {
    !s.paused && !s.timedOut && (s.exitCode == 0 || s.wroteResult)
  }

  ghost predicate GateGreenIn(g: ChangeGate) {
    g.switchedOff || (g.command != "" && exists k :: GreenAt(g, k))
  }

  /** Everything a done marker vouches for. */
  ghost predicate Verified(w: World, s: Standing) {
    && w.approved == Some(w.folderHash) && w.taskRead == Readable && !s.stale && !s.held
    && !w.baselineRed && PreSpawnOk(w.preSpawn)
    && SpawnOk(w.spawn) && w.violation.None? && !w.undeclaredTests
    && (w.resultFile || w.finalText) && w.blockedFirst.None?
    && w.verifyPasses && w.ownFolder.None? && GateGreenIn(w.gate)
  }

  // ---------- the pipeline

  datatype Result = Success | Failed(reason: string) | Regressed | AlreadyRunning | Paused | Threw | Killed

  /** How a check ends the attempt, and whether its failure record is waited for. */
  datatype Check = Check(ending: Result, awaited: bool)

  ghost function GateReason(g: ChangeGate): string {
    if !g.switchedOff && g.command != "" && exists k :: RedAt(g, k) && g.planConflict(k) then "blocked" else "change_verify_red"
  }

  function Reason(r: Option<string>): Result {
    if r.Some? then Failed(r.value) else Success
  }

  /** The lock is taken after the sixth phase, the agent runs after the ninth, the marker ends the last. */
  const BEFORE_LOCK: nat := 6
  const BEFORE_SPAWN: nat := 9
  const BEFORE_VERIFY: nat := 15
  const PHASES: nat := 19

  /** Phases that read one file between them, or that catch what they do, throw together or not at all. */
  predicate Throws(w: World, k: nat) {
    w.throwsAt == Some(k) && k !in {0, 3, 10} && k < PHASES
  }

  ghost predicate Fails(w: World, s: Standing, k: nat) {
    match k
    case 0 => w.approved.None?
    case 1 => w.approved != Some(w.folderHash)
    case 2 => w.taskRead.NoTaskFile?
    case 3 => w.taskRead.EntryMissing?
    case 4 => s.stale
    case 5 => s.held
    case 6 => w.baselineRed
    case 7 => !PreSpawnOk(w.preSpawn)
    case 9 => w.spawn.paused
    case 10 => !SpawnOk(w.spawn)
    case 11 => w.violation.Some?
    case 12 => w.undeclaredTests
    case 13 => !w.resultFile && !w.finalText
    case 14 => w.blockedFirst.Some?
    case 15 => !w.verifyPasses
    case 16 => w.ownFolder.Some?
    case 17 => !GateGreenIn(w.gate)
    case _ => false
  }

  ghost function CheckAt(w: World, k: nat): Check {
    if Throws(w, k) then Check(Threw, true) else
    match k
    case 0 => Check(Failed("spec_conflict"), true)
    case 1 => Check(Failed("spec_conflict"), true)
    case 2 => Check(Failed("crashed"), true)
    case 3 => Check(Failed("entry_missing"), true)
    case 4 => Check(Regressed, true)
    case 5 => Check(AlreadyRunning, true)
    case 6 => Check(Failed("baseline_red"), false)
    case 7 => Check(Failed("verify_precondition"), false)
    case 9 => Check(Paused, true)
    case 10 => Check(Failed(w.spawn.failure), true)
    case 11 => Check(Reason(w.violation), false)
    case 12 => Check(Failed("undeclared_test_change"), false)
    case 13 => Check(Failed("no_result"), true)
    case 14 => Check(Reason(w.blockedFirst), true)
    case 15 => Check(Failed("verify_red"), false)
    case 16 => Check(Reason(w.ownFolder), false)
    case 17 => Check(Failed(GateReason(w.gate)), false)
    case _ => Check(Success, true)
  }

  ghost predicate Stops(w: World, s: Standing, k: nat) {
    Throws(w, k) || Fails(w, s, k)
  }

  ghost predicate NoneStops(w: World, s: Standing, n: nat) {
    forall k :: 0 <= k < n ==> !Stops(w, s, k)
  }

  /** Phase `k` is the first that stops the attempt. */
  ghost predicate StopsAt(w: World, s: Standing, k: nat) {
    Stops(w, s, k) && NoneStops(w, s, k)
  }

  /** What the caller is told: any write that throws on the way out replaces the answer. */
  function Told(w: World, ending: Result, locked: bool): Result {
    if ending.Failed? && (w.recordFails || w.afterRecordFails) then Threw
    else if (ending.Paused? || ending.Success?) && w.afterRecordFails then Threw
    else if locked && w.releaseFails then Threw
    else ending
  }

  // ---------- what reaches the disk

  datatype Effect =
    | TookLock | Spawned | VerifyGreen | GateGreen
    | WroteDone | WroteDead(reason: string)
    | FreedLock | Reaped

  function Release(w: World): seq<Effect> {
    if w.releaseFails then [] else [FreedLock]
  }

  function Record(w: World, ending: Result): seq<Effect> {
    if ending.Failed? && !w.recordFails then [WroteDead(ending.reason)] else []
  }

  function Tail(w: World, ending: Result, awaited: bool, order: Order): seq<Effect> {
    if awaited || order.RecordFirst? then Record(w, ending) + Release(w) else Release(w) + Record(w, ending)
  }

  /** What the attempt did before phase `k`. */
  function Reached(k: nat): seq<Effect> {
    if k < BEFORE_LOCK then []
    else if k < BEFORE_SPAWN then [TookLock]
    else if k <= BEFORE_VERIFY then [TookLock, Spawned]
    else if k < PHASES - 1 then [TookLock, Spawned, VerifyGreen]
    else [TookLock, Spawned, VerifyGreen, GateGreen]
  }

  ghost function TailAt(w: World, k: nat, order: Order): seq<Effect> {
    var check := CheckAt(w, k);
    if k < BEFORE_LOCK then Record(w, check.ending) else Tail(w, check.ending, check.awaited, order)
  }

  /** Everything an attempt stopped at phase `k` does, unless it is killed on the way. */
  ghost function EffectsOf(w: World, k: nat, order: Order): seq<Effect> {
    Reached(k) + TailAt(w, k, order)
  }

  function Whole(w: World): seq<Effect> {
    Reached(PHASES - 1) + [WroteDone] + Release(w)
  }

  /** The attempt's whole plan. */
  ghost predicate Plan(w: World, s: Standing, order: Order, effects: seq<Effect>, told: Result) {
    if NoneStops(w, s, PHASES) then effects == Whole(w) && told == Told(w, Success, true)
    else exists k: nat :: StopsAt(w, s, k) && effects == EffectsOf(w, k, order)
                          && told == Told(w, CheckAt(w, k).ending, k >= BEFORE_LOCK)
  }

  /** No phase stops the attempt exactly when everything holds and nothing throws. */
  lemma NothingStopsTheVerified(w: World, s: Standing)
    ensures Verified(w, s) && (forall k :: !Throws(w, k)) <==> NoneStops(w, s, PHASES)
    ensures NoneStops(w, s, PHASES) || exists k: nat :: StopsAt(w, s, k)
  {
    if NoneStops(w, s, PHASES) {
      assert !Stops(w, s, 0) && !Stops(w, s, 1) && !Stops(w, s, 2) && !Stops(w, s, 3) && !Stops(w, s, 4) && !Stops(w, s, 5);
      assert !Stops(w, s, 6) && !Stops(w, s, 7) && !Stops(w, s, 9) && !Stops(w, s, 10) && !Stops(w, s, 11);
      assert !Stops(w, s, 12) && !Stops(w, s, 13) && !Stops(w, s, 14) && !Stops(w, s, 15) && !Stops(w, s, 16) && !Stops(w, s, 17);
      forall k | 0 <= k ensures !Throws(w, k) { assert k < PHASES ==> !Stops(w, s, k); }
    } else {
      var k: nat :| k < PHASES && Stops(w, s, k);
      FirstStop(w, s, k);
    }
  }

  lemma {:induction false} FirstStop(w: World, s: Standing, k: nat)
    requires Stops(w, s, k)
    ensures exists j: nat :: j <= k && StopsAt(w, s, j)
  {
    if j: nat :| j < k && Stops(w, s, j) {
      FirstStop(w, s, j);
    } else {
      assert StopsAt(w, s, k);
    }
  }

  // ---------- what a trail may look like

  /** How far the attempt holding the lock has come. */
  datatype Progress = Progress(held: bool, spawned: bool, verified: bool, gated: bool)

  const IDLE := Progress(false, false, false, false)

  function Progressed(before: Progress, e: Effect): Progress {
    match e
    case TookLock => IDLE.(held := true)
    case Spawned => before.(spawned := true)
    case VerifyGreen => before.(verified := true)
    case GateGreen => before.(gated := true)
    case FreedLock => IDLE
    case Reaped => IDLE
    case _ => before
  }

  function ProgressOf(trail: seq<Effect>): Progress {
    if |trail| == 0 then IDLE else Progressed(ProgressOf(Init(trail)), Last(trail))
  }

  predicate Allowed(p: Progress, e: Effect) {
    match e
    case TookLock => !p.held
    case Spawned => p.held
    case VerifyGreen => p.held && p.spawned
    case GateGreen => p.held && p.spawned && p.verified
    case WroteDone => p.held && p.spawned && p.verified && p.gated
    case FreedLock => p.held
    case Reaped => p.held
    case WroteDead(_) => true
  }

  /** Every step of the trail was allowed where it stands. */
  predicate Legal(trail: seq<Effect>) {
    |trail| == 0 || (Legal(Init(trail)) && Allowed(ProgressOf(Init(trail)), Last(trail)))
  }

  /** The reason in the newest failure record. */
  function LastDead(trail: seq<Effect>): Option<string> {
    if |trail| == 0 then None
    else if Last(trail).WroteDead? then Some(Last(trail).reason)
    else LastDead(Init(trail))
  }

  lemma Grown(trail: seq<Effect>, e: Effect)
    ensures ProgressOf(trail + [e]) == Progressed(ProgressOf(trail), e)
    ensures LastDead(trail + [e]) == if e.WroteDead? then Some(e.reason) else LastDead(trail)
    ensures WroteDone in trail + [e] <==> WroteDone in trail || e == WroteDone
    ensures Legal(trail + [e]) <==> Legal(trail) && Allowed(ProgressOf(trail), e)
  {
    assert Init(trail + [e]) == trail && Last(trail + [e]) == e;
  }

  /** The trail is legal, and the files are what it left. */
  ghost predicate OnDisk(trail: seq<Effect>, lock: bool, done: bool, dead: Option<string>) {
    Legal(trail) && lock == ProgressOf(trail).held && done == (WroteDone in trail) && dead == LastDead(trail)
  }

  lemma LeftByOneMore(trail: seq<Effect>, e: Effect, lock: bool, done: bool, dead: Option<string>)
    requires OnDisk(trail, lock, done, dead) && Allowed(ProgressOf(trail), e)
    ensures OnDisk(trail + [e], e == TookLock || (lock && e !in {FreedLock, Reaped}), done || e == WroteDone,
                   if e.WroteDead? then Some(e.reason) else dead)
    ensures ProgressOf(trail + [e]) == Progressed(ProgressOf(trail), e)
  {
    Grown(trail, e);
  }

  lemma {:induction false} PrefixIsLegal(trail: seq<Effect>, i: nat)
    requires Legal(trail) && i <= |trail|
    ensures Legal(trail[..i])
    ensures i < |trail| ==> Allowed(ProgressOf(trail[..i]), trail[i])
  {
    if i == |trail| {
      assert trail[..i] == trail;
    } else if i == |trail| - 1 {
      assert trail[..i] == Init(trail);
    } else {
      PrefixIsLegal(Init(trail), i);
      assert trail[..i] == Init(trail)[..i];
    }
  }

  /** One attempt holds the lock from its taking at `j` on: nothing took or freed it since. */
  ghost predicate Holds(trail: seq<Effect>, j: nat) {
    j < |trail| && trail[j] == TookLock && forall m :: j < m < |trail| ==> trail[m] !in {TookLock, FreedLock, Reaped}
  }

  lemma GrowsFrom(before: seq<Effect>, e: Effect, j: nat)
    requires Holds(before, j)
    ensures (before + [e])[j..] == before[j..] + [e]
    ensures e !in {TookLock, FreedLock, Reaped} ==> Holds(before + [e], j)
  {
  }

  lemma {:induction false} ProgressMeans(trail: seq<Effect>)
    requires Legal(trail) && ProgressOf(trail).held
    ensures exists j: nat :: Holds(trail, j)
              && (ProgressOf(trail).spawned ==> Spawned in trail[j..])
              && (ProgressOf(trail).verified ==> VerifyGreen in trail[j..])
              && (ProgressOf(trail).gated ==> GateGreen in trail[j..])
  {
    var before, e := Init(trail), Last(trail);
    assert trail == before + [e];
    if e == TookLock {
      assert Holds(trail, |trail| - 1);
    } else {
      ProgressMeans(before);
      var j: nat :| Holds(before, j)
        && (ProgressOf(before).spawned ==> Spawned in before[j..])
        && (ProgressOf(before).verified ==> VerifyGreen in before[j..])
        && (ProgressOf(before).gated ==> GateGreen in before[j..]);
      GrowsFrom(before, e, j);
    }
  }

  /** The done marker at `i` vouches for one attempt: its lock, its agent and both green verifies. */
  ghost predicate Vouched(trail: seq<Effect>, i: nat) {
    && i <= |trail|
    && exists j: nat :: Holds(trail[..i], j) && Spawned in trail[j..i] && VerifyGreen in trail[j..i] && GateGreen in trail[j..i]
  }

  lemma DoneIsVouched(trail: seq<Effect>, i: nat)
    requires Legal(trail) && i < |trail| && trail[i] == WroteDone
    ensures Vouched(trail, i)
  {
    PrefixIsLegal(trail, i);
    ProgressMeans(trail[..i]);
    forall j: nat | j <= i ensures trail[..i][j..] == trail[j..i] {}
  }

  // ---------- one attempt after another on a task's files

  /** Where a stretch of work stands: the trail so far, the steps left, and whether the process lives. */
  datatype Mark = Mark(trail: seq<Effect>, steps: nat, alive: bool)

  /** The work from `a` to `b` did `effects`, or as many of them as the steps left allowed. */
  ghost predicate Did(a: Mark, b: Mark, effects: seq<Effect>) {
    && b.alive == (a.alive && |effects| <= a.steps)
    && (b.alive ==> b.steps == a.steps - |effects| && b.trail == a.trail + effects)
    && (!b.alive ==> b.trail == a.trail + if a.alive then effects[..a.steps] else [])
  }

  lemma DidBoth(a: Mark, b: Mark, c: Mark, first: seq<Effect>, second: seq<Effect>)
    requires Did(a, b, first) && Did(b, c, second)
    ensures Did(a, c, first + second)
  {
    if b.alive {
      assert a.trail + first + second == a.trail + (first + second);
      if !c.alive {
        assert (first + second)[..a.steps] == first + second[..b.steps];
        assert a.trail + first + second[..b.steps] == a.trail + (first + second[..b.steps]);
      }
    } else if a.alive {
      assert (first + second)[..a.steps] == first[..a.steps];
      assert a.trail + first[..a.steps] + [] == a.trail + first[..a.steps];
    }
  }

  ghost predicate EarlierStale(folder: ScopeAudit.Folder, task: nat, passes: nat -> bool) {
    exists t :: t in folder.done && t < task
                && ScopeAudit.Judge(folder, t, true, passes) in {ScopeAudit.StillStale, ScopeAudit.NewlyStale}
  }

  /** The attempt ended at the first phase that stops it, as far as it was not killed. */
  ghost predicate Stopped(w: World, s: Standing, order: Order, start: Mark, now: Mark, told: Result) {
    exists k: nat ::
      StopsAt(w, s, k) && told == Told(w, CheckAt(w, k).ending, k >= BEFORE_LOCK) && Did(start, now, EffectsOf(w, k, order))
  }

  /** Something throws. */
  ghost predicate Troubled(w: World) {
    (exists k :: Throws(w, k)) || w.afterRecordFails || w.releaseFails
  }

  /** The attempt ended as its plan says, stopped at a phase or not at all. */
  ghost predicate Ended(w: World, s: Standing, order: Order, start: Mark, now: Mark, told: Result) {
    || Stopped(w, s, order, start, now, told)
    || (NoneStops(w, s, PHASES) && Did(start, now, Whole(w)) && told == Told(w, Success, true))
  }

  lemma PlanOf(w: World, s: Standing, order: Order, start: Mark, now: Mark, told: Result) returns (plan: seq<Effect>)
    requires Ended(w, s, order, start, now, told)
    ensures Plan(w, s, order, plan, told) && Did(start, now, plan)
  {
    if Stopped(w, s, order, start, now, told) {
      var k: nat :| StopsAt(w, s, k) && told == Told(w, CheckAt(w, k).ending, k >= BEFORE_LOCK)
                    && Did(start, now, EffectsOf(w, k, order));
      assert k < PHASES && Stops(w, s, k);
      plan := EffectsOf(w, k, order);
    } else {
      plan := Whole(w);
    }
  }

  /** As much of `effects` as `steps` allow. */
  function Cut(effects: seq<Effect>, steps: nat): seq<Effect> {
    effects[..if steps < |effects| then steps else |effects|]
  }

  lemma WhatIsLeft(w: World, s: Standing, order: Order, plan: seq<Effect>, told: Result, start: Mark, now: Mark)
    requires Plan(w, s, order, plan, told) && Did(start, now, plan) && start.alive && s.held == ProgressOf(start.trail).held
    ensures told == Success <==> !Troubled(w) && Verified(w, s)
    ensures ProgressOf(now.trail).held <==>
              s.held || (TookLock in Cut(plan, start.steps) && FreedLock !in Cut(plan, start.steps))
    ensures WroteDone in now.trail <==> WroteDone in start.trail || WroteDone in Cut(plan, start.steps)
  {
    var n := if start.steps < |plan| then start.steps else |plan|;
    KillLeavesAtMostTheLock(w, s, order, plan, told, start.trail, n);
    assert plan[..|plan|] == plan;
    SuccessIff(w, s, order, plan, told);
  }

  lemma SuccessIff(w: World, s: Standing, order: Order, plan: seq<Effect>, told: Result)
    requires Plan(w, s, order, plan, told)
    ensures told == Success <==> !Troubled(w) && Verified(w, s)
  {
    NothingStopsTheVerified(w, s);
  }

  datatype Act =
    | Attempted(world: World, order: Order, folder: ScopeAudit.ChangeFolder, steps: nat)
    | Reaping(reason: string, steps: nat)

  class TaskFiles {
    var lock: bool
    var done: bool
    var dead: Option<string>
    var trail: seq<Effect>
    var steps: nat
    var alive: bool

    ghost function Now(): Mark
      reads this
    {
      Mark(trail, steps, alive)
    }

    ghost predicate Valid()
      reads this
    {
      OnDisk(trail, lock, done, dead)
    }

    constructor ()
      ensures Valid() && !done && dead.None? && !lock && trail == []
    {
      lock, done, dead, trail, steps, alive := false, false, None, [], 0, true;
    }

    method Land(e: Effect)
      requires Valid() && Allowed(ProgressOf(trail), e)
      modifies `trail, `lock, `done, `dead
      ensures Valid() && trail == old(trail) + [e] && ProgressOf(trail) == Progressed(old(ProgressOf(trail)), e)
    {
      LeftByOneMore(trail, e, lock, done, dead);
      trail := trail + [e];
      lock := e == TookLock || (lock && e != FreedLock && e != Reaped);
      done := done || e == WroteDone;
      if e.WroteDead? { dead := Some(e.reason); }
    }

    /** One step that reaches the disk, unless the process is gone. */
    method Put(e: Effect)
      requires Valid() && (alive ==> Allowed(ProgressOf(trail), e))
      modifies this
      ensures Valid() && Did(old(Now()), Now(), [e])
      ensures alive ==> old(alive) && ProgressOf(trail) == Progressed(old(ProgressOf(trail)), e)
    {
      if !alive { return; }
      alive := steps > 0;
      if alive {
        steps := steps - 1;
        Land(e);
      }
    }

    /** The failure record, when it can be written. */
    method Log(w: World, ending: Result)
      requires Valid()
      modifies this
      ensures Valid() && Did(old(Now()), Now(), Record(w, ending))
      ensures alive ==> ProgressOf(trail) == old(ProgressOf(trail))
    {
      if ending.Failed? && !w.recordFails { Put(WroteDead(ending.reason)); }
    }

    method Free(w: World)
      requires Valid() && (alive ==> ProgressOf(trail).held)
      modifies this
      ensures Valid() && Did(old(Now()), Now(), Release(w))
    {
      if !w.releaseFails { Put(FreedLock); }
    }

    /** An ending before the lock. */
    method Refuse(w: World, ghost s: Standing, ghost k: nat, ending: Result, order: Order) returns (told: Result)
      requires Valid() && k < BEFORE_LOCK && StopsAt(w, s, k) && CheckAt(w, k).ending == ending
      modifies this
      ensures Valid() && Stopped(w, s, order, old(Now()), Now(), told)
    {
      Log(w, ending);
      assert EffectsOf(w, k, order) == Record(w, ending);
      return Told(w, ending, false);
    }

    /** An ending under the lock; a record that is not awaited races with the lock's release. */
    method Leave(w: World, ghost s: Standing, ghost k: nat, check: Check, order: Order, ghost start: Mark)
      returns (told: Result)
      requires Valid() && k >= BEFORE_LOCK && StopsAt(w, s, k) && CheckAt(w, k) == check
      requires Did(start, Now(), Reached(k)) && (alive ==> ProgressOf(trail).held)
      modifies this
      ensures Valid() && Stopped(w, s, order, start, Now(), told)
    {
      ghost var a := Now();
      var record, release := Record(w, check.ending), Release(w);
      if check.awaited || order.RecordFirst? {
        Log(w, check.ending);
        ghost var b := Now();
        Free(w);
        DidBoth(a, b, Now(), record, release);
      } else {
        Free(w);
        ghost var b := Now();
        Log(w, check.ending);
        DidBoth(a, b, Now(), release, record);
      }
      DidBoth(start, a, Now(), Reached(k), TailAt(w, k, order));
      return Told(w, check.ending, true);
    }

    /** A step of the attempt itself. */
    method Reach(e: Effect, ghost before: seq<Effect>, ghost start: Mark)
      requires Valid() && (alive ==> Allowed(ProgressOf(trail), e)) && Did(start, Now(), before)
      modifies this
      ensures Valid() && Did(start, Now(), before + [e])
      ensures alive ==> old(alive) && ProgressOf(trail) == Progressed(old(ProgressOf(trail)), e)
    {
      ghost var mid := Now();
      Put(e);
      DidBoth(start, mid, Now(), before, [e]);
    }

    /**
     One phase under the lock: it throws, or its check stops the attempt, or the attempt goes on and the
     answer is Success.
     */
    method Phase(w: World, ghost s: Standing, k: nat, failing: bool, check: Check, order: Order, ghost start: Mark)
      returns (result: Result)
      requires Valid() && BEFORE_LOCK <= k < PHASES && NoneStops(w, s, k) && (Throws(w, k) || (failing <==> Fails(w, s, k)))
      requires failing && !Throws(w, k) ==> CheckAt(w, k) == check && check.ending != Success
      requires Did(start, Now(), Reached(k)) && (alive ==> ProgressOf(trail).held)
      modifies this
      ensures Valid()
      ensures result == Success ==> NoneStops(w, s, k + 1) && Now() == old(Now())
      ensures result != Success ==> Stopped(w, s, order, start, Now(), result)
    {
      if !Throws(w, k) && !failing { return Success; }
      result := Leave(w, s, k, if Throws(w, k) then Check(Threw, true) else check, order, start);
    }

    /** A phase before the lock. */
    method EarlyPhase(w: World, ghost s: Standing, k: nat, failing: bool, ending: Result, order: Order) returns (result: Result)
      requires Valid() && k < BEFORE_LOCK && NoneStops(w, s, k) && (Throws(w, k) || (failing <==> Fails(w, s, k)))
      requires failing && !Throws(w, k) ==> CheckAt(w, k).ending == ending && ending != Success
      modifies this
      ensures Valid()
      ensures result == Success ==> NoneStops(w, s, k + 1) && Now() == old(Now())
      ensures result != Success ==> Stopped(w, s, order, old(Now()), Now(), result)
    {
      if !Throws(w, k) && !failing { return Success; }
      result := Refuse(w, s, k, if Throws(w, k) then Threw else ending, order);
    }

    /** The guard before the lock: some earlier done task no longer matches the tree. */
    method GuardEarlier(w: World, folder: ScopeAudit.ChangeFolder) returns (stale: bool)
      modifies folder
      ensures stale <==> EarlierStale(old(folder.Now()), w.task, w.passes)
    {
      var first := folder.GuardScopeRegression(w.task, w.passes);
      return first.Some?;
    }

    /** The seal and the task file, as the approval left them. */
    method CheckSeal(w: World, ghost s: Standing, order: Order) returns (result: Result)
      requires Valid()
      modifies this
      ensures Valid()
      ensures result == Success ==> NoneStops(w, s, 4) && Now() == old(Now())
      ensures result != Success ==> Stopped(w, s, order, old(Now()), Now(), result)
    {
      result := EarlyPhase(w, s, 0, w.approved.None?, Failed("spec_conflict"), order);
      if result != Success { return; }
      assert !Stops(w, s, 0);
      result := EarlyPhase(w, s, 1, w.approved.value != w.folderHash, Failed("spec_conflict"), order);
      if result != Success { return; }
      result := EarlyPhase(w, s, 2, w.taskRead.NoTaskFile?, Failed("crashed"), order);
      if result != Success { return; }
      result := EarlyPhase(w, s, 3, w.taskRead.EntryMissing?, Failed("entry_missing"), order);
    }

    /** The phases before the lock; Success means the attempt goes on. */
    method CheckBeforeLock(w: World, folder: ScopeAudit.ChangeFolder, ghost s: Standing, order: Order)
      returns (result: Result)
      requires Valid() && s == Standing(lock, EarlierStale(folder.Now(), w.task, w.passes))
      modifies this, folder
      ensures Valid()
      ensures result == Success ==> NoneStops(w, s, BEFORE_LOCK) && Now() == old(Now())
      ensures result != Success ==> Stopped(w, s, order, old(Now()), Now(), result)
    {
      result := CheckSeal(w, s, order);
      if result != Success { return; }
      var stale := false;
      if !Throws(w, 4) { stale := GuardEarlier(w, folder); }
      result := EarlyPhase(w, s, 4, stale, Regressed, order);
      if result != Success { return; }
      result := EarlyPhase(w, s, 5, lock, AlreadyRunning, order);
    }

    /** The phases under the lock before the agent; Success means it may run. */
    method PrepareSpawn(w: World, ghost s: Standing, order: Order, ghost start: Mark) returns (result: Result)
      requires Valid() && NoneStops(w, s, BEFORE_LOCK) && Did(start, Now(), Reached(BEFORE_LOCK))
      requires alive ==> ProgressOf(trail) == Progress(true, false, false, false)
      modifies this
      ensures Valid()
      ensures result == Success ==> NoneStops(w, s, BEFORE_SPAWN) && Now() == old(Now())
      ensures result != Success ==> Stopped(w, s, order, start, Now(), result)
    {
      result := Phase(w, s, 6, w.baselineRed, Check(Failed("baseline_red"), false), order, start);
      if result != Success { return; }
      var p, refused := w.preSpawn, false;
      if p.mode != Off && p.attempt == 1 {
        var mismatch := match p.expected
                        case StartsAny => false
                        case StartsRed => p.passed && !p.pathsMissing
                        case StartsGreen => !p.passed;
        refused := mismatch && p.mode != Warn;
      }
      result := Phase(w, s, 7, refused, Check(Failed("verify_precondition"), false), order, start);
      if result != Success { return; }
      result := Phase(w, s, 8, false, Check(Threw, true), order, start);
    }

    /** The checks on what the agent left; a violation is looked at only once the agent's run counts. */
    method AcceptAgent(w: World, ghost s: Standing, order: Order, ghost start: Mark) returns (result: Result)
      requires Valid() && NoneStops(w, s, BEFORE_SPAWN) && Did(start, Now(), Reached(BEFORE_SPAWN))
      requires alive ==> ProgressOf(trail).held
      modifies this
      ensures Valid()
      ensures result == Success ==> NoneStops(w, s, BEFORE_VERIFY) && Now() == old(Now())
      ensures result != Success ==> Stopped(w, s, order, start, Now(), result)
    {
      var a := w.spawn;
      result := Phase(w, s, 9, a.paused, Check(Paused, true), order, start);
      if result != Success { return; }
      assert !Stops(w, s, 9);
      var failed := !(a.exitCode != 0 && !a.timedOut && a.wroteResult) && (a.exitCode != 0 || a.timedOut);
      result := Phase(w, s, 10, failed, Check(Failed(a.failure), true), order, start);
      if result != Success { return; }
      result := Phase(w, s, 11, w.violation.Some?, Check(Reason(w.violation), false), order, start);
      if result != Success { return; }
      result := AcceptWork(w, s, order, start);
    }

    method AcceptWork(w: World, ghost s: Standing, order: Order, ghost start: Mark) returns (result: Result)
      requires Valid() && NoneStops(w, s, 12) && Did(start, Now(), Reached(12))
      requires alive ==> ProgressOf(trail).held
      modifies this
      ensures Valid()
      ensures result == Success ==> NoneStops(w, s, BEFORE_VERIFY) && Now() == old(Now())
      ensures result != Success ==> Stopped(w, s, order, start, Now(), result)
    {
      result := Phase(w, s, 12, w.undeclaredTests, Check(Failed("undeclared_test_change"), false), order, start);
      if result != Success { return; }
      result := Phase(w, s, 13, !w.resultFile && !w.finalText, Check(Failed("no_result"), true), order, start);
      if result != Success { return; }
      result := Phase(w, s, 14, w.blockedFirst.Some?, Check(Reason(w.blockedFirst), true), order, start);
    }

    /** The verify commands; Success means both were green. */
    method VerifyWork(w: World, ghost s: Standing, order: Order, ghost start: Mark) returns (result: Result)
      requires Valid() && NoneStops(w, s, BEFORE_VERIFY) && Did(start, Now(), Reached(BEFORE_VERIFY))
      requires alive ==> ProgressOf(trail) == Progress(true, true, false, false)
      modifies this
      ensures Valid()
      ensures result == Success ==> NoneStops(w, s, PHASES) && Did(start, Now(), Reached(PHASES - 1))
      ensures result == Success && alive ==> ProgressOf(trail) == Progress(true, true, true, true)
      ensures result != Success ==> Stopped(w, s, order, start, Now(), result)
    {
      result := Phase(w, s, 15, !w.verifyPasses, Check(Failed("verify_red"), false), order, start);
      if result != Success { return; }
      Reach(VerifyGreen, Reached(15), start);
      assert Reached(15) + [VerifyGreen] == Reached(16);
      result := Phase(w, s, 16, w.ownFolder.Some?, Check(Reason(w.ownFolder), false), order, start);
      if result != Success { return; }
      result := VerifyChange(w, s, order, start);
    }

    method VerifyChange(w: World, ghost s: Standing, order: Order, ghost start: Mark) returns (result: Result)
      requires Valid() && NoneStops(w, s, 17) && Did(start, Now(), Reached(17))
      requires alive ==> ProgressOf(trail) == Progress(true, true, true, false)
      modifies this
      ensures Valid()
      ensures result == Success ==> NoneStops(w, s, PHASES) && Did(start, Now(), Reached(PHASES - 1))
      ensures result == Success && alive ==> ProgressOf(trail) == Progress(true, true, true, true)
      ensures result != Success ==> Stopped(w, s, order, start, Now(), result)
    {
      var outcome, _ := RunChangeVerifyGate(w.gate);
      var reason := if outcome == Conflict then "blocked" else "change_verify_red";
      result := Phase(w, s, 17, outcome != Green, Check(Failed(reason), false), order, start);
      if result != Success { return; }
      Reach(GateGreen, Reached(17), start);
      assert Reached(17) + [GateGreen] == Reached(18);
      result := Phase(w, s, 18, false, Check(Threw, true), order, start);
    }

    /** The done marker, and the lock freed. */
    method Finish(w: World, ghost start: Mark) returns (told: Result)
      requires Valid() && Did(start, Now(), Reached(PHASES - 1))
      requires alive ==> ProgressOf(trail) == Progress(true, true, true, true)
      modifies this
      ensures Valid() && Did(start, Now(), Whole(w)) && told == Told(w, Success, true)
    {
      Reach(WroteDone, Reached(PHASES - 1), start);
      ghost var mid := Now();
      Free(w);
      DidBoth(start, mid, Now(), Reached(PHASES - 1) + [WroteDone], Release(w));
      return Told(w, Success, true);
    }

    /** The phases from the lock on. */
    method TryLocked(w: World, ghost s: Standing, order: Order, ghost start: Mark) returns (result: Result)
      requires Valid() && NoneStops(w, s, BEFORE_LOCK) && Now() == start && !ProgressOf(trail).held
      modifies this
      ensures Valid()
      ensures Ended(w, s, order, start, Now(), result)
    {
      Put(TookLock);
      result := PrepareSpawn(w, s, order, start);
      if result != Success { return; }
      Reach(Spawned, Reached(BEFORE_LOCK), start);
      assert Reached(BEFORE_LOCK) + [Spawned] == Reached(BEFORE_SPAWN);
      result := AcceptAgent(w, s, order, start);
      if result != Success { return; }
      result := VerifyWork(w, s, order, start);
      if result != Success { return; }
      result := Finish(w, start);
    }

    /**
     One attempt, killed after `steps` steps. When it is not killed it reports success exactly when
     everything the done marker vouches for holds and nothing throws. Killed or not, what reached the
     disk is a prefix of the plan that the first phase to stop it decides: the lock is held afterwards only
     if it was before, or if that prefix takes it and does not free it.
     */
    method RunTask(w: World, folder: ScopeAudit.ChangeFolder, order: Order, steps: nat)
      returns (result: Result, ghost plan: seq<Effect>, ghost told: Result)
      requires Valid()
      modifies this, folder
      ensures Valid() && Did(Mark(old(trail), steps, true), Now(), plan)
      ensures Plan(w, old(Standing(lock, EarlierStale(folder.Now(), w.task, w.passes))), order, plan, told)
      ensures result == if steps < |plan| then Killed else told
      ensures lock <==> old(lock) || (TookLock in Cut(plan, steps) && FreedLock !in Cut(plan, steps))
      ensures done <==> old(done) || WroteDone in Cut(plan, steps)
      ensures told == Success <==> !Troubled(w) && Verified(w, old(Standing(lock, EarlierStale(folder.Now(), w.task, w.passes))))
    {
      this.steps, alive := steps, true;
      ghost var s := Standing(lock, EarlierStale(folder.Now(), w.task, w.passes));
      ghost var start := Now();
      result := CheckBeforeLock(w, folder, s, order);
      if result == Success {
        assert !Stops(w, s, 5);
        result := TryLocked(w, s, order, start);
      }
      told := result;
      plan := PlanOf(w, s, order, start, Now(), told);
      WhatIsLeft(w, s, order, plan, told, start, Now());
      if !alive { result := Killed; }
    }

    /** A stopped attempt's lock is reaped and its record written in its place. */
    method Reap(reason: string, steps: nat)
      requires Valid()
      modifies this
      ensures Valid() && Did(Mark(old(trail), steps, true), Now(), if old(lock) then [Reaped, WroteDead(reason)] else [])
    {
      this.steps, alive := steps, true;
      if !lock { return; }
      ghost var start := Now();
      Put(Reaped);
      Reach(WroteDead(reason), [Reaped], start);
      assert [Reaped] + [WroteDead(reason)] == [Reaped, WroteDead(reason)];
    }

    /**
     Any run of attempts and reapings, whatever throws and wherever the process is killed: every done
     marker on the disk vouches for one attempt that held the lock, ran the agent and saw both verifies
     green, with the lock neither freed nor taken again in between; and no lock is taken while held.
     */
    method Run(acts: seq<Act>)
      requires Valid()
      modifies this, set a | a in acts && a.Attempted? :: a.folder
      ensures Valid() && old(trail) <= trail
      ensures forall i :: 0 <= i < |trail| && trail[i] == WroteDone ==> Vouched(trail, i)
      ensures forall i :: 0 <= i < |trail| && trail[i] == TookLock ==> !ProgressOf(trail[..i]).held
      ensures forall i :: 0 <= i < |trail| && trail[i] == Spawned ==> ProgressOf(trail[..i]).held
    {
      for i := 0 to |acts|
        invariant Valid() && old(trail) <= trail
      {
        match acts[i] {
          case Attempted(world, order, folder, steps) => var _, _, _ := RunTask(world, folder, order, steps);
          case Reaping(reason, steps) => Reap(reason, steps);
        }
      }
      forall i | 0 <= i < |trail| ensures Allowed(ProgressOf(trail[..i]), trail[i]) { PrefixIsLegal(trail, i); }
      forall i | 0 <= i < |trail| && trail[i] == WroteDone ensures Vouched(trail, i) { DoneIsVouched(trail, i); }
    }
  }

  // ---------- what one attempt leaves behind

  predicate IsRecord(e: Effect) {
    e.WroteDone? || e.WroteDead?
  }

  ghost predicate Recorded(effects: seq<Effect>) {
    exists i :: 0 <= i < |effects| && IsRecord(effects[i])
  }

  /** The tail of a stopped attempt holds at most one record, and frees the lock unless that throws. */
  lemma TailFreesTheLock(w: World, ending: Result, awaited: bool, order: Order)
    ensures var tail := Tail(w, ending, awaited, order);
            && |tail| <= 2 && TookLock !in tail && Reaped !in tail && WroteDone !in tail
            && (FreedLock in tail <==> !w.releaseFails)
            && (|tail| == 2 ==> !IsRecord(tail[0]) || !IsRecord(tail[1]))
  {
  }

  lemma ReachedIsNoRecord(k: nat)
    ensures forall i :: 0 <= i < |Reached(k)| ==> !IsRecord(Reached(k)[i]) && Reached(k)[i] != FreedLock && Reached(k)[i] != Reaped
    ensures k >= BEFORE_LOCK ==> Reached(k)[0] == TookLock && TookLock !in Reached(k)[1..]
  {
  }

  /** Once the lock is taken, the plan takes it once, first, and frees it unless that very write throws. */
  ghost predicate OneTenure(w: World, plan: seq<Effect>) {
    && |plan| > 0 && plan[0] == TookLock
    && TookLock !in plan[1..] && Reaped !in plan[1..]
    && (FreedLock in plan[1..] <==> !w.releaseFails)
  }

  ghost predicate OneRecord(plan: seq<Effect>) {
    forall i, j :: 0 <= i < j < |plan| && IsRecord(plan[i]) ==> !IsRecord(plan[j])
  }

  lemma RecordsOnce(reached: seq<Effect>, tail: seq<Effect>)
    requires forall i :: 0 <= i < |reached| ==> !IsRecord(reached[i])
    requires |tail| <= 2 && (|tail| == 2 ==> !IsRecord(tail[0]) || !IsRecord(tail[1]))
    ensures OneRecord(reached + tail)
  {
  }

  lemma StoppedKeepsTheLock(w: World, k: nat, order: Order)
    requires k >= BEFORE_LOCK
    ensures OneTenure(w, EffectsOf(w, k, order)) && OneRecord(EffectsOf(w, k, order)) && WroteDone !in EffectsOf(w, k, order)
  {
    var reached, tail := Reached(k), TailAt(w, k, order);
    TailFreesTheLock(w, CheckAt(w, k).ending, CheckAt(w, k).awaited, order);
    ReachedIsNoRecord(k);
    RecordsOnce(reached, tail);
    JoinsOneTenure(w, reached, tail);
  }

  lemma JoinsOneTenure(w: World, reached: seq<Effect>, tail: seq<Effect>)
    requires |reached| > 0 && reached[0] == TookLock && TookLock !in reached[1..]
    requires forall i :: 0 <= i < |reached| ==> !IsRecord(reached[i]) && reached[i] != FreedLock && reached[i] != Reaped
    requires TookLock !in tail && Reaped !in tail && WroteDone !in tail && (FreedLock in tail <==> !w.releaseFails)
    ensures OneTenure(w, reached + tail) && WroteDone !in reached + tail
  {
    assert (reached + tail)[1..] == reached[1..] + tail;
  }

  lemma WholeKeepsTheLock(w: World)
    ensures OneTenure(w, Whole(w)) && OneRecord(Whole(w)) && WroteDone in Whole(w)
  {
    assert Whole(w)[4] == WroteDone;
    assert Whole(w)[1..] == [Spawned, VerifyGreen, GateGreen, WroteDone] + Release(w);
  }

  ghost predicate Lockless(plan: seq<Effect>) {
    plan == [] || (|plan| == 1 && plan[0].WroteDead?)
  }

  lemma RefusalKeepsTheLock(w: World, k: nat, order: Order)
    requires k < BEFORE_LOCK
    ensures Lockless(EffectsOf(w, k, order))
  {
  }

  ghost predicate OneTenureOrNone(w: World, s: Standing, plan: seq<Effect>) {
    (OneTenure(w, plan) && !s.held) || Lockless(plan)
  }

  lemma EffectsKeepTheLock(w: World, s: Standing, order: Order, k: nat)
    requires StopsAt(w, s, k)
    ensures var plan := EffectsOf(w, k, order);
            OneRecord(plan) && OneTenureOrNone(w, s, plan) && WroteDone !in plan
  {
    if k >= BEFORE_LOCK {
      assert !Stops(w, s, 5);
      StoppedKeepsTheLock(w, k, order);
    } else {
      RefusalKeepsTheLock(w, k, order);
    }
  }

  /** At most one record, and the lock taken once, first, and freed unless that very write throws. */
  lemma PlanKeepsTheLock(w: World, s: Standing, order: Order, plan: seq<Effect>, told: Result)
    requires Plan(w, s, order, plan, told)
    ensures OneRecord(plan) && OneTenureOrNone(w, s, plan)
    ensures WroteDone in plan <==> NoneStops(w, s, PHASES)
  {
    if NoneStops(w, s, PHASES) {
      assert !Stops(w, s, 5);
      WholeKeepsTheLock(w);
    } else {
      var k: nat :| StopsAt(w, s, k) && plan == EffectsOf(w, k, order);
      EffectsKeepTheLock(w, s, order, k);
    }
  }

  /** A phase that throws leaves no record, and frees the lock it ran under. */
  lemma ThrowLeavesNoRecord(w: World, s: Standing, k: nat, order: Order)
    requires StopsAt(w, s, k) && Throws(w, k)
    ensures EffectsOf(w, k, order) == Reached(k) + (if k >= BEFORE_LOCK then Release(w) else [])
    ensures !Recorded(EffectsOf(w, k, order))
    ensures k >= BEFORE_LOCK && !w.releaseFails ==> Last(EffectsOf(w, k, order)) == FreedLock
  {
  }

  lemma {:induction false} HeldUntilFreed(trail: seq<Effect>, effects: seq<Effect>)
    requires TookLock !in effects && Reaped !in effects
    ensures ProgressOf(trail + effects).held <==> ProgressOf(trail).held && FreedLock !in effects
  {
    if |effects| == 0 {
      assert trail + effects == trail;
    } else {
      var before, e := Init(effects), Last(effects);
      assert effects == before + [e];
      HeldUntilFreed(trail, before);
      assert trail + (before + [e]) == (trail + before) + [e];
      Grown(trail + before, e);
    }
  }

  lemma HeldOnceTaken(w: World, plan: seq<Effect>, trail: seq<Effect>, n: nat)
    requires OneTenure(w, plan) && !ProgressOf(trail).held && n <= |plan|
    ensures ProgressOf(trail + plan[..n]).held <==> TookLock in plan[..n] && FreedLock !in plan[..n]
  {
    if n == 0 {
      assert trail + plan[..n] == trail;
    } else {
      var rest := plan[1..n];
      assert plan[..n] == [TookLock] + rest && trail + plan[..n] == (trail + [TookLock]) + rest;
      assert forall e :: e in rest ==> e in plan[1..];
      assert plan[..n][0] == TookLock;
      Grown(trail, TookLock);
      HeldUntilFreed(trail + [TookLock], rest);
    }
  }

  lemma NeverTaken(plan: seq<Effect>, trail: seq<Effect>, n: nat)
    requires Lockless(plan) && n <= |plan|
    ensures ProgressOf(trail + plan[..n]).held == ProgressOf(trail).held && TookLock !in plan[..n]
  {
    HeldUntilFreed(trail, plan[..n]);
  }

  /** Killed after any number of its steps, an attempt leaves at most a held lock, one it took itself. */
  lemma KillLeavesAtMostTheLock(w: World, s: Standing, order: Order, plan: seq<Effect>, told: Result,
                                trail: seq<Effect>, n: nat)
    requires Plan(w, s, order, plan, told) && s.held == ProgressOf(trail).held && n <= |plan|
    ensures ProgressOf(trail + plan[..n]).held <==> s.held || (TookLock in plan[..n] && FreedLock !in plan[..n])
    ensures WroteDone in plan[..n] ==> Verified(w, s)
  {
    PlanKeepsTheLock(w, s, order, plan, told);
    NothingStopsTheVerified(w, s);
    if OneTenure(w, plan) && !s.held {
      HeldOnceTaken(w, plan, trail, n);
    } else {
      NeverTaken(plan, trail, n);
    }
    forall e | e in plan[..n] ensures e in plan {}
  }

  /** A failure record is on disk before the lock is free. */
  ghost predicate DeadBeforeFree(effects: seq<Effect>) {
    forall i, j :: 0 <= i < j < |effects| && effects[j].WroteDead? ==> effects[i] != FreedLock
  }

  /**
   A failing attempt's record precedes the lock's release in whichever order unawaited writes land,
   exactly when the check that stops it comes before the lock or has its record awaited, or one of the
   two writes throws.
   */
  lemma DeadBeforeFreeIff(w: World, s: Standing, k: nat)
    requires StopsAt(w, s, k)
    ensures (forall order :: DeadBeforeFree(EffectsOf(w, k, order)))
            <==> k < BEFORE_LOCK || CheckAt(w, k).awaited || w.recordFails || w.releaseFails
  {
    if k >= BEFORE_LOCK && !CheckAt(w, k).awaited && !w.recordFails && !w.releaseFails {
      assert CheckAt(w, k).ending.Failed?;
      var e := EffectsOf(w, k, ReleaseFirst);
      var n := |e|;
      assert e[n - 1].WroteDead? && e[n - 2] == FreedLock;
      assert !DeadBeforeFree(e);
    } else {
      forall order ensures DeadBeforeFree(EffectsOf(w, k, order)) {
        forall i | 0 <= i < |Reached(k)| ensures Reached(k)[i] != FreedLock && !Reached(k)[i].WroteDead? {}
      }
    }
  }

  /** The lock was taken and freed and no record says what became of the attempt. */
  ghost predicate Vanished(effects: seq<Effect>) {
    FreedLock in effects && !Recorded(effects)
  }

  /**
   A failing attempt can vanish, neither lock nor record left by a kill, exactly when its check comes
   under the lock and its record is not awaited or cannot be written.
   */
  lemma VanishesIff(w: World, s: Standing, k: nat)
    requires StopsAt(w, s, k) && CheckAt(w, k).ending.Failed?
    ensures (exists order, n: nat :: n <= |EffectsOf(w, k, order)| && Vanished(EffectsOf(w, k, order)[..n]))
            <==> k >= BEFORE_LOCK && !w.releaseFails && (!CheckAt(w, k).awaited || w.recordFails)
  {
    forall i | 0 <= i < |Reached(k)| ensures Reached(k)[i] != FreedLock && !IsRecord(Reached(k)[i]) {}
    var r := |Reached(k)|;
    if k >= BEFORE_LOCK && !w.releaseFails && (!CheckAt(w, k).awaited || w.recordFails) {
      var e := EffectsOf(w, k, ReleaseFirst);
      assert e[..r + 1] == Reached(k) + [FreedLock];
      assert e[..r + 1][r] == FreedLock;
      assert Vanished(e[..r + 1]);
    } else {
      forall order, n: nat | n <= |EffectsOf(w, k, order)| && FreedLock in EffectsOf(w, k, order)[..n]
        ensures Recorded(EffectsOf(w, k, order)[..n])
      {
        var e := EffectsOf(w, k, order);
        assert e[r].WroteDead? && n > r;
        assert IsRecord(e[..n][r]);
      }
    }
  }

  /** Such a world: a red task verify, whose failure is returned without being awaited. */
  lemma RedVerifyVanishes() returns (w: World, s: Standing)
    ensures StopsAt(w, s, BEFORE_VERIFY) && s == Standing(false, false) && !Troubled(w) && !w.recordFails
    ensures exists n: nat :: n <= |EffectsOf(w, BEFORE_VERIFY, ReleaseFirst)|
                             && Vanished(EffectsOf(w, BEFORE_VERIFY, ReleaseFirst)[..n])
  {
    var gate := ChangeGate(true, "", k => true, k => false, 0, k => false);
    w := World(Some("h"), "h", Readable, 1, t => true, false, PreSpawn(Off, 1, StartsAny, false, false),
               Spawn(0, false, true, false, ""), None, false, true, true, None, false, None, gate, None, false, false, false);
    s := Standing(false, false);
    var e := EffectsOf(w, BEFORE_VERIFY, ReleaseFirst);
    assert e == [TookLock, Spawned, FreedLock, WroteDead("verify_red")];
    assert e[..3] == [TookLock, Spawned, FreedLock] && e[..3][2] == FreedLock;
    assert Vanished(e[..3]);
  }
}
