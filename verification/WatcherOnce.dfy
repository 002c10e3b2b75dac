/**
 The watcher's single run: cycles over every active change until one neither runs nor retries a
 task. It ends whatever the agents do, because each such cycle spends weight that nothing gives back.
 */
module WatcherOnce {
  import opened Wrappers
  import opened Sums
  import opened Text
  import opened RetryBudgets

  /** What a started lane came back with; `tasks` are the earlier done tasks its scope audit found stale. */
  datatype LaneResult =
    | Blocked(tasks: set<nat>)
    | Passed
    | Failed(marker: Marker)
    | GuardFound(tasks: set<nat>)
    | Threw

  /**
   What an archive attempt of a completed change came to: not tried, halted by a worktree check, done, or
   refused with the tasks its audit found stale or with the target whose verify was red.
   */
  datatype ArchiveResult =
    | NotTried
    | HaltedFirst
    | Archived
    | StaleFound(tasks: set<nat>)
    | Red(target: Option<nat>, reason: string)

  /**
   One visit to one change. `skipped` leaves it before the retry decision, `leftAlone` after it
   (steering or a halt), which also keeps its retries out of the cycle's count.
   */
  datatype Visit = Visit(
    skipped: bool,
    reaped: set<nat>,
    refused: set<nat>,
    leftAlone: bool,
    starts: bool,
    result: LaneResult,
    archive: ArchiveResult)

  // ---------- weights

  predicate Ended(task: Task) {
    task.dead.Some? || task.lock
  }

  /** How far a task can still move without spending a retry. */
  function Phase(task: Task): nat {
    if Ended(task) then (if task.regressed.Some? then 3 else if task.done then 4 else 0)
    else if task.regressed.Some? then 0
    else if task.done then 1
    else 2
  }

  function Remaining(task: Task, approvedAt: Option<int>, gates: Gates, provider: bool): nat {
    var spent := Spent(task.events, provider, Cutoff(approvedAt, task));
    if spent < Budget(gates, provider) then Budget(gates, provider) - spent else 0
  }

  function Weight(task: Task, approvedAt: Option<int>, gates: Gates): nat {
    Phase(task) + 3 * (Remaining(task, approvedAt, gates, true) + Remaining(task, approvedAt, gates, false))
  }

  function Weights(tasks: seq<Task>, approvedAt: Option<int>, gates: Gates): (ws: seq<nat>)
    ensures |ws| == |tasks|
  {
    seq(|tasks|, i requires 0 <= i < |tasks| => Weight(tasks[i], approvedAt, gates))
  }

  function WeightOf(change: Change, gates: Gates): nat {
    Sum(Weights(change.tasks, change.approvedAt, gates))
  }

  function TotalWeight(changes: seq<Change>, gates: Gates): nat {
    Sum(ChangeWeights(changes, gates))
  }

  function ChangeWeights(changes: seq<Change>, gates: Gates): (ws: seq<nat>)
    ensures |ws| == |changes|
  {
    seq(|changes|, i requires 0 <= i < |changes| => WeightOf(changes[i], gates))
  }

  /** The approval and every manual retry lie in the past, so a new retry counts against the budgets. */
  predicate Settled(change: Change, now: int) {
    forall t :: t in change.tasks ==> Past(Cutoff(change.approvedAt, t), now)
  }

  lemma WeightOfUpdate(change: Change, i: nat, t: Task, gates: Gates)
    requires i < |change.tasks|
    ensures WeightOf(change.(tasks := change.tasks[i := t]), gates)
            == WeightOf(change, gates) - Weight(change.tasks[i], change.approvedAt, gates) + Weight(t, change.approvedAt, gates)
  {
    var ws := Weights(change.tasks, change.approvedAt, gates);
    var w := Weight(t, change.approvedAt, gates);
    SumUpdate(ws, i, w);
    assert Weights(change.tasks[i := t], change.approvedAt, gates) == ws[i := w];
  }

  lemma TotalWeightUpdate(changes: seq<Change>, i: nat, c: Change, gates: Gates)
    requires i < |changes|
    ensures TotalWeight(changes[i := c], gates) == TotalWeight(changes, gates) - WeightOf(changes[i], gates) + WeightOf(c, gates)
  {
    var ws := ChangeWeights(changes, gates);
    SumUpdate(ws, i, WeightOf(c, gates));
    assert ChangeWeights(changes[i := c], gates) == ws[i := WeightOf(c, gates)];
  }

  lemma RetryPhase(task: Task, now: int)
    requires task.dead.Some?
    ensures Phase(Withdrawn(task, true, now)) < Phase(task) + 3
    ensures Crossed(task) ==> Phase(Withdrawn(task, true, now)) < Phase(task)
  {
  }

  lemma FlagWeighs(task: Task, approvedAt: Option<int>, gates: Gates)
    requires task.dead.Some?
    ensures Cutoff(approvedAt, Flagged(task)) == Cutoff(approvedAt, task)
    ensures Weight(Flagged(task), approvedAt, gates) == Weight(task, approvedAt, gates)
  {
    QuietEvent(task.events, Stuck(task.dead.value.fingerprint), Cutoff(approvedAt, task));
  }

  lemma RetrySpends(task: Task, approvedAt: Option<int>, gates: Gates, now: int)
    requires task.dead.Some? && Past(Cutoff(approvedAt, task), now)
    requires Remaining(task, approvedAt, gates, ForProvider(task)) > 0
    ensures Cutoff(approvedAt, Withdrawn(task, true, now)) == Cutoff(approvedAt, task)
    ensures var after := Withdrawn(task, true, now);
            var mine := ForProvider(task);
            && (Crossed(task) ==> Remaining(after, approvedAt, gates, mine) == Remaining(task, approvedAt, gates, mine)
                                  && Remaining(after, approvedAt, gates, !mine) <= Remaining(task, approvedAt, gates, !mine))
            && (!Crossed(task) ==> Remaining(after, approvedAt, gates, mine) + 1 == Remaining(task, approvedAt, gates, mine)
                                   && Remaining(after, approvedAt, gates, !mine) == Remaining(task, approvedAt, gates, !mine))
  {
    BudgetsStayApart(task, approvedAt, now);
  }

  /** An automatic retry costs more weight than the attempt it hands back. */
  lemma RetryPays(task: Task, approvedAt: Option<int>, gates: Gates, now: int, refused: bool)
    requires Past(Cutoff(approvedAt, task), now)
    ensures Cutoff(approvedAt, AfterRetryPass(task, approvedAt, gates, now, refused)) == Cutoff(approvedAt, task)
    ensures var after := AfterRetryPass(task, approvedAt, gates, now, refused);
            Weight(after, approvedAt, gates) + (if RetriedNow(task, approvedAt, gates, now, refused) then 1 else 0)
               <= Weight(task, approvedAt, gates)
  {
    if StuckNow(task) {
      FlagWeighs(task, approvedAt, gates);
    } else if RetriedNow(task, approvedAt, gates, now, refused) {
      RetryPhase(task, now);
      RetrySpends(task, approvedAt, gates, now);
    }
  }

  /** One for each task of the change that is retried now, zero for the others. */
  function RetriedFlags(tasks: seq<Task>, approvedAt: Option<int>, gates: Gates, now: int, refused: set<nat>): (flags: seq<nat>)
    ensures |flags| == |tasks|
  {
    seq(|tasks|, i requires 0 <= i < |tasks| => if RetriedNow(tasks[i], approvedAt, gates, now, i in refused) then 1 else 0)
  }

  lemma {:induction false} CountIsSum(tasks: seq<Task>, approvedAt: Option<int>, gates: Gates, now: int, refused: set<nat>)
    ensures CountRetried(tasks, approvedAt, gates, now, refused) == Sum(RetriedFlags(tasks, approvedAt, gates, now, refused))
  {
    if |tasks| > 0 {
      CountIsSum(Init(tasks), approvedAt, gates, now, refused);
      var flags := RetriedFlags(tasks, approvedAt, gates, now, refused);
      assert flags[..|tasks| - 1] == RetriedFlags(Init(tasks), approvedAt, gates, now, refused);
    }
  }

  predicate Decided(change: Change, after: seq<Task>, gates: Gates, now: int, refused: set<nat>) {
    && |after| == |change.tasks|
    && forall i :: 0 <= i < |after| ==>
                     after[i] == AfterRetryPass(change.tasks[i], change.approvedAt, gates, now, i in refused)
  }

  lemma RetryPassPays(change: Change, after: seq<Task>, gates: Gates, now: int, refused: set<nat>)
    requires Decided(change, after, gates, now, refused) && Settled(change, now)
    ensures Settled(change.(tasks := after), now)
    ensures WeightOf(change.(tasks := after), gates) + CountRetried(change.tasks, change.approvedAt, gates, now, refused)
            <= WeightOf(change, gates)
  {
    var flags := RetriedFlags(change.tasks, change.approvedAt, gates, now, refused);
    var was := Weights(change.tasks, change.approvedAt, gates);
    var left := Weights(after, change.approvedAt, gates);
    forall i | 0 <= i < |after|
      ensures left[i] + flags[i] <= was[i] && Past(Cutoff(change.approvedAt, after[i]), now)
    {
      assert change.tasks[i] in change.tasks;
      RetryPays(change.tasks[i], change.approvedAt, gates, now, i in refused);
    }
    SumPays(was, left, flags);
    CountIsSum(change.tasks, change.approvedAt, gates, now, refused);
  }

  // ---------- one change

  /** A lock left by a stopped watcher becomes a dead record. */
  function Reaped(task: Task, now: int): Task {
    task.(lock := false,
          dead := Some(Marker("crashed", "", false)),
          events := task.events + [Dead(Some(now))])
  }

  lemma ReapingWeighs(task: Task, approvedAt: Option<int>, gates: Gates, now: int)
    requires task.lock
    ensures Cutoff(approvedAt, Reaped(task, now)) == Cutoff(approvedAt, task)
    ensures Weight(Reaped(task, now), approvedAt, gates) == Weight(task, approvedAt, gates)
  {
    QuietEvent(task.events, Dead(Some(now)), Cutoff(approvedAt, task));
  }

  predicate Reaping(before: seq<Task>, after: seq<Task>, reaped: set<nat>, now: int) {
    && |after| == |before|
    && forall i :: 0 <= i < |before| ==> after[i] == if before[i].lock && i in reaped then Reaped(before[i], now) else before[i]
  }

  lemma ReapingPays(change: Change, after: seq<Task>, reaped: set<nat>, gates: Gates, now: int)
    requires Reaping(change.tasks, after, reaped, now) && Settled(change, now)
    ensures Settled(change.(tasks := after), now)
    ensures WeightOf(change.(tasks := after), gates) == WeightOf(change, gates)
  {
    forall i | 0 <= i < |after|
      ensures Weight(after[i], change.approvedAt, gates) == Weight(change.tasks[i], change.approvedAt, gates)
      ensures Past(Cutoff(change.approvedAt, after[i]), now)
    {
      assert change.tasks[i] in change.tasks;
      if change.tasks[i].lock {
        ReapingWeighs(change.tasks[i], change.approvedAt, gates, now);
      }
    }
    assert Weights(after, change.approvedAt, gates) == Weights(change.tasks, change.approvedAt, gates);
  }

  method ReapLocks(tasks: seq<Task>, reaped: set<nat>, now: int) returns (after: seq<Task>)
    ensures Reaping(tasks, after, reaped, now)
  {
    after := tasks;
    for i := 0 to |tasks|
      invariant |after| == |tasks|
      invariant forall j :: i <= j < |tasks| ==> after[j] == tasks[j]
      invariant forall j :: 0 <= j < i ==>
                              after[j] == if tasks[j].lock && j in reaped then Reaped(tasks[j], now) else tasks[j]
    {
      if tasks[i].lock && i in reaped { after := after[i := Reaped(tasks[i], now)]; }
    }
  }

  /** No task of the change is regressed, dead or running: it may take its next one. */
  predicate MayStart(tasks: seq<Task>) {
    forall t :: t in tasks ==> t.regressed.None? && (t.done || !Ended(t))
  }

  method NextTask(tasks: seq<Task>) returns (next: Option<nat>)
    requires MayStart(tasks)
    ensures next.None? <==> forall t :: t in tasks ==> t.done
    ensures next.Some? ==> next.value < |tasks| && !tasks[next.value].done
                           && forall j :: 0 <= j < next.value ==> tasks[j].done
  {
    for i := 0 to |tasks|
      invariant forall j :: 0 <= j < i ==> tasks[j].done
    {
      if !tasks[i].done { return Some(i); }
    }
    return None;
  }

  function RegressedFor(task: Task, reason: string): Task {
    task.(regressed := Some(reason), events := task.events + [Other])
  }

  function Regressed(task: Task): Task {
    RegressedFor(task, "scope_regression")
  }

  /** Every task is done, and nothing failed or is running. */
  predicate Complete(change: Change) {
    !change.halted && forall t :: t in change.tasks ==> t.done && t.regressed.None? && !t.lock
  }

  lemma RegressionWeighs(task: Task, approvedAt: Option<int>, gates: Gates, reason: string)
    requires task.done && task.regressed.None?
    ensures Cutoff(approvedAt, RegressedFor(task, reason)) == Cutoff(approvedAt, task)
    ensures Weight(RegressedFor(task, reason), approvedAt, gates) + 1 == Weight(task, approvedAt, gates)
  {
    QuietEvent(task.events, Other, Cutoff(approvedAt, task));
  }

  /** The audit marks the stale ones among the tasks before `next`; all of them are done. */
  method MarkRegressed(change: Change, next: nat, stale: set<nat>, gates: Gates, now: int)
    returns (marked: nat, after: Change)
    requires Settled(change, now) && next <= |change.tasks|
    requires forall j :: 0 <= j < next ==> change.tasks[j].done && change.tasks[j].regressed.None?
    ensures after == change.(tasks := after.tasks) && Settled(after, now) && |after.tasks| == |change.tasks|
    ensures marked > 0 <==> exists j :: 0 <= j < next && j in stale
    ensures forall j :: 0 <= j < |change.tasks| ==>
                          after.tasks[j] == if j < next && j in stale then Regressed(change.tasks[j]) else change.tasks[j]
    ensures WeightOf(after, gates) + marked == WeightOf(change, gates)
  {
    var tasks := change.tasks;
    marked := 0;
    for i := 0 to next
      invariant |tasks| == |change.tasks|
      invariant forall j :: i <= j < |tasks| ==> tasks[j] == change.tasks[j]
      invariant forall j :: 0 <= j < i ==> tasks[j] == if j in stale then Regressed(change.tasks[j]) else change.tasks[j]
      invariant marked > 0 <==> exists j :: 0 <= j < i && j in stale
      invariant forall t :: t in tasks ==> Past(Cutoff(change.approvedAt, t), now)
      invariant WeightOf(change.(tasks := tasks), gates) + marked == WeightOf(change, gates)
    {
      if i in stale {
        assert tasks[i] in change.tasks;
        var regressed := Regressed(tasks[i]);
        RegressionWeighs(tasks[i], change.approvedAt, gates, "scope_regression");
        WeightOfUpdate(change.(tasks := tasks), i, regressed, gates);
        tasks := tasks[i := regressed];
        marked := marked + 1;
      }
    }
    after := change.(tasks := tasks);
  }

  /** What archiving leaves of a change; one that is not complete is left as it is. */
  ghost predicate ArchiveLeaves(change: Change, result: ArchiveResult, after: Change) {
    if !Complete(change) then after == change
    else match result
    case NotTried => after == change
    case HaltedFirst => after == change.(halted := true)
    case Archived => after == change.(archived := true)
    case StaleFound(stale) =>
      after == change.(tasks := after.tasks) && EarlierRegressed(change.tasks, |change.tasks|, stale, after.tasks)
    case Red(target, reason) =>
      if target.None? then after == change.(halted := true)
      else if target.value < |change.tasks| then
        after == change.(tasks := change.tasks[target.value := RegressedFor(change.tasks[target.value], reason)])
      else after == change
  }

  /** Archiving runs and retries nothing, and what it regresses weighs less. */
  method ArchiveCompletedSpec(change: Change, result: ArchiveResult, gates: Gates, now: int) returns (after: Change)
    requires Settled(change, now)
    ensures ArchiveLeaves(change, result, after) && Settled(after, now)
    ensures after.archived && !change.archived ==> Complete(after)
    ensures WeightOf(after, gates) <= WeightOf(change, gates)
  {
    if !Complete(change) { return change; }
    match result {
      case NotTried => return change;
      case HaltedFirst => return change.(halted := true);
      case Archived => return change.(archived := true);
      case StaleFound(stale) =>
        var _, refused := MarkRegressed(change, |change.tasks|, stale, gates, now);
        return refused;
      case Red(target, reason) =>
        if target.None? { return change.(halted := true); }
        if target.value >= |change.tasks| { return change; }
        var task := change.tasks[target.value];
        assert task in change.tasks;
        RegressionWeighs(task, change.approvedAt, gates, reason);
        WeightOfUpdate(change, target.value, RegressedFor(task, reason), gates);
        return change.(tasks := change.tasks[target.value := RegressedFor(task, reason)]);
    }
  }

  /** What a lane leaves of its change and whether its task ran; a pass is followed by an archive attempt. */
  ghost predicate LaneLeaves(change: Change, next: nat, result: LaneResult, archive: ArchiveResult, now: int,
                             tasksRun: nat, after: Change)
    requires next < |change.tasks|
  {
    var task := change.tasks[next];
    match result
    case Threw => tasksRun == 0 && after == change
    case Passed =>
      && tasksRun == 1
      && ArchiveLeaves(change.(tasks := change.tasks[next := task.(done := true, events := task.events + [Other])]), archive, after)
    case Failed(marker) =>
      && tasksRun == 1
      && after == change.(tasks := change.tasks[next := task.(dead := Some(marker), events := task.events + [Dead(Some(now))])])
    case Blocked(stale) =>
      tasksRun == 0 && after == change.(tasks := after.tasks) && EarlierRegressed(change.tasks, next, stale, after.tasks)
    case GuardFound(stale) =>
      && after == change.(tasks := after.tasks) && EarlierRegressed(change.tasks, next, stale, after.tasks)
      && tasksRun == if exists j :: 0 <= j < next && j in stale then 1 else 0
  }

  ghost predicate EarlierRegressed(before: seq<Task>, next: nat, stale: set<nat>, after: seq<Task>) {
    && |after| == |before|
    && forall j :: 0 <= j < |before| ==> after[j] == if j < next && j in stale then Regressed(before[j]) else before[j]
  }

  /** The attempt passed: its done record, then the archive of a change that is complete by now. */
  method FinishPass(change: Change, next: nat, archive: ArchiveResult, gates: Gates, now: int) returns (after: Change)
    requires Settled(change, now) && MayStart(change.tasks) && next < |change.tasks| && !change.tasks[next].done
    ensures LaneLeaves(change, next, Passed, archive, now, 1, after) && Settled(after, now)
    ensures after.archived && !change.archived ==> Complete(after)
    ensures WeightOf(after, gates) + 1 <= WeightOf(change, gates)
  {
    var task := change.tasks[next];
    assert task in change.tasks;
    var passed := task.(done := true, events := task.events + [Other]);
    QuietEvent(task.events, Other, Cutoff(change.approvedAt, task));
    WeightOfUpdate(change, next, passed, gates);
    after := ArchiveCompletedSpec(change.(tasks := change.tasks[next := passed]), archive, gates, now);
  }

  /** The attempt failed and left a dead record. */
  method FinishFailure(change: Change, next: nat, marker: Marker, ghost archive: ArchiveResult, gates: Gates, now: int)
    returns (after: Change)
    requires Settled(change, now) && MayStart(change.tasks) && next < |change.tasks| && !change.tasks[next].done
    ensures LaneLeaves(change, next, Failed(marker), archive, now, 1, after) && Settled(after, now)
    ensures after.archived == change.archived
    ensures WeightOf(after, gates) + 1 <= WeightOf(change, gates)
  {
    var task := change.tasks[next];
    assert task in change.tasks;
    var dead := task.(dead := Some(marker), events := task.events + [Dead(Some(now))]);
    QuietEvent(task.events, Dead(Some(now)), Cutoff(change.approvedAt, task));
    WeightOfUpdate(change, next, dead, gates);
    after := change.(tasks := change.tasks[next := dead]);
  }

  /** A lane runs at most one task, and running one always spends weight. */
  method RunLane(change: Change, next: nat, result: LaneResult, archive: ArchiveResult, gates: Gates, now: int)
    returns (tasksRun: nat, after: Change)
    requires Settled(change, now) && MayStart(change.tasks)
    requires next < |change.tasks| && !change.tasks[next].done && forall j :: 0 <= j < next ==> change.tasks[j].done
    ensures LaneLeaves(change, next, result, archive, now, tasksRun, after) && Settled(after, now)
    ensures tasksRun <= 1 && (after.archived && !change.archived ==> Complete(after))
    ensures WeightOf(after, gates) + tasksRun <= WeightOf(change, gates)
  {
    match result {
      case Threw => return 0, change;
      case Passed =>
        after := FinishPass(change, next, archive, gates, now);
        return 1, after;
      case Failed(marker) =>
        after := FinishFailure(change, next, marker, archive, gates, now);
        return 1, after;
      case Blocked(stale) =>
        forall j | 0 <= j < next ensures change.tasks[j].regressed.None? { assert change.tasks[j] in change.tasks; }
        var _, blocked := MarkRegressed(change, next, stale, gates, now);
        return 0, blocked;
      case GuardFound(stale) =>
        // The guard reports a stale task only when it found one, and none was active before.
        forall j | 0 <= j < next ensures change.tasks[j].regressed.None? { assert change.tasks[j] in change.tasks; }
        var marked, found := MarkRegressed(change, next, stale, gates, now);
        return (if marked > 0 then 1 else 0), found;
    }
  }

  /** What a visit went through: the change after reaping, after the retry decision, and the task started. */
  datatype Trace = Trace(reaped: Change, decided: Change, started: Option<nat>)

  ghost predicate MayTakeOne(visit: Visit, decided: Change) {
    && !visit.skipped && !visit.leftAlone && visit.starts && !decided.halted && MayStart(decided.tasks)
    && exists t :: t in decided.tasks && !t.done
  }

  ghost predicate StartLeaves(change: Change, started: Option<nat>, visit: Visit, now: int, tasksRun: nat, after: Change) {
    match started
    case None => tasksRun == 0 && after == change
    case Some(next) =>
      && next < |change.tasks| && !change.tasks[next].done && (forall j :: 0 <= j < next ==> change.tasks[j].done)
      && LaneLeaves(change, next, visit.result, visit.archive, now, tasksRun, after)
  }

  /** Reap, decide, then start at most one lane or archive; a skipped or left change goes no further. */
  ghost predicate VisitLeaves(change: Change, visit: Visit, gates: Gates, now: int, trace: Trace,
                              tasksRun: nat, retried: nat, after: Change) {
    var reaped, decided := trace.reaped, trace.decided;
    && reaped == change.(tasks := reaped.tasks) && decided == change.(tasks := decided.tasks)
    && Reaping(change.tasks, reaped.tasks, visit.reaped, now)
    && (if visit.skipped || gates.autoRetries <= 0 then decided == reaped
        else Decided(reaped, decided.tasks, gates, now, visit.refused))
    && retried == (if visit.skipped || visit.leftAlone || gates.autoRetries <= 0 then 0
                   else CountRetried(reaped.tasks, reaped.approvedAt, gates, now, visit.refused))
    && (trace.started.Some? <==> MayTakeOne(visit, decided))
    && (if !visit.skipped && !visit.leftAlone && Complete(decided) then
          tasksRun == 0 && ArchiveLeaves(decided, visit.archive, after)
        else StartLeaves(decided, trace.started, visit, now, tasksRun, after))
  }

  /** Start the first task that is not done, when the change may take one. */
  method StartNextTask(change: Change, visit: Visit, gates: Gates, now: int)
    returns (tasksRun: nat, after: Change, started: Option<nat>)
    requires Settled(change, now)
    ensures started.Some? <==> visit.starts && !change.halted && MayStart(change.tasks) && exists t :: t in change.tasks && !t.done
    ensures StartLeaves(change, started, visit, now, tasksRun, after)
    ensures after.archived && !change.archived ==> Complete(after)
    ensures Settled(after, now) && WeightOf(after, gates) + tasksRun <= WeightOf(change, gates)
  {
    tasksRun, after, started := 0, change, None;
    if !visit.starts || change.halted { return; }
    if !(forall t :: t in change.tasks ==> t.regressed.None? && (t.done || !Ended(t))) { return; }
    started := NextTask(change.tasks);
    if started.None? { return; }
    tasksRun, after := RunLane(change, started.value, visit.result, visit.archive, gates, now);
  }

  /** One visit: reap, retry, then start a lane when the change may take a task, or archive it when complete. */
  method AdvanceChange(change: Change, visit: Visit, gates: Gates, now: int)
    returns (tasksRun: nat, retried: nat, after: Change, ghost trace: Trace)
    requires Settled(change, now)
    ensures VisitLeaves(change, visit, gates, now, trace, tasksRun, retried, after)
    ensures Settled(after, now) && (after.archived && !change.archived ==> Complete(after))
    ensures WeightOf(after, gates) + tasksRun + retried <= WeightOf(change, gates)
  {
    tasksRun, retried := 0, 0;
    var tasks := ReapLocks(change.tasks, visit.reaped, now);
    ReapingPays(change, tasks, visit.reaped, gates, now);
    after := change.(tasks := tasks);
    ghost var reaped := after;
    trace := Trace(reaped, reaped, None);
    if visit.skipped { return; }
    var count, next := RunAutomaticRetries(after, gates, now, visit.refused);
    if gates.autoRetries > 0 {
      RetryPassPays(reaped, next.tasks, gates, now, visit.refused);
    }
    after := next;
    trace := Trace(reaped, next, None);
    if visit.leftAlone { return; }
    retried := count;
    if Complete(next) {
      after := ArchiveCompletedSpec(next, visit.archive, gates, now);
    } else {
      var started;
      tasksRun, after, started := StartNextTask(next, visit, gates, now);
      trace := Trace(reaped, next, started);
    }
  }

  /** An archived change is no longer listed, so a cycle does not visit it. */
  ghost predicate CycleLeaves(change: Change, visit: Visit, gates: Gates, now: int, trace: Trace,
                              tasksRun: nat, retried: nat, after: Change) {
    if change.archived then tasksRun == 0 && retried == 0 && after == change
    else VisitLeaves(change, visit, gates, now, trace, tasksRun, retried, after)
  }

  // ---------- the run

  predicate Kept(change: Change, now: int) {
    Settled(change, now) && (change.archived ==> Complete(change))
  }

  class Watcher {
    const gates: Gates
    var changes: seq<Change>
    var now: int

    ghost predicate Valid()
      reads this
    {
      forall c :: c in changes ==> Kept(c, now)
    }

    constructor (gates: Gates, changes: seq<Change>, now: int)
      requires forall c :: c in changes ==> Settled(c, now) && !c.archived
      ensures Valid() && this.gates == gates && this.changes == changes
    {
      this.gates, this.changes, this.now := gates, changes, now;
    }

    method VisitChange(i: nat, visit: Visit) returns (tasksRun: nat, retried: nat, ghost trace: Trace)
      requires Valid() && i < |changes|
      modifies `changes
      ensures Valid() && |changes| == old(|changes|)
      ensures forall j :: 0 <= j < |changes| && j != i ==> changes[j] == old(changes)[j]
      ensures CycleLeaves(old(changes)[i], visit, gates, now, trace, tasksRun, retried, changes[i])
      ensures TotalWeight(changes, gates) + tasksRun + retried <= old(TotalWeight(changes, gates))
    {
      assert Kept(changes[i], now);
      if changes[i].archived { return 0, 0, Trace(changes[i], changes[i], None); }
      var after;
      tasksRun, retried, after, trace := AdvanceChange(changes[i], visit, gates, now);
      TotalWeightUpdate(changes, i, after, gates);
      changes := changes[i := after];
    }

    /** Every change is visited once, in order, and the counts are the sums over the visits. */
    method RunWatcherCycle(visits: nat -> Visit)
      returns (tasksRun: nat, retried: nat, ghost ran: seq<nat>, ghost again: seq<nat>, ghost traces: seq<Trace>)
      requires Valid()
      modifies `changes
      ensures Valid() && |ran| == |again| == |traces| == |changes| == old(|changes|)
      ensures forall i :: 0 <= i < |changes| ==>
                            CycleLeaves(old(changes)[i], visits(i), gates, now, traces[i], ran[i], again[i], changes[i])
      ensures tasksRun == Sum(ran) && retried == Sum(again)
      ensures TotalWeight(changes, gates) + tasksRun + retried <= old(TotalWeight(changes, gates))
    {
      tasksRun, retried, ran, again, traces := 0, 0, [], [], [];
      for i := 0 to |changes|
        invariant |changes| == old(|changes|) && Valid() && |ran| == |again| == |traces| == i
        invariant forall j :: i <= j < |changes| ==> changes[j] == old(changes)[j]
        invariant forall j :: 0 <= j < i ==>
                                CycleLeaves(old(changes)[j], visits(j), gates, now, traces[j], ran[j], again[j], changes[j])
        invariant tasksRun == Sum(ran) && retried == Sum(again)
        invariant TotalWeight(changes, gates) + tasksRun + retried <= old(TotalWeight(changes, gates))
      {
        var one, two, trace := VisitChange(i, visits(i));
        SumAppend(ran, one);
        SumAppend(again, two);
        tasksRun, retried := tasksRun + one, retried + two;
        ran, again, traces := ran + [one], again + [two], traces + [trace];
      }
    }

    /**
     For any visits and any clock that does not run backwards, the run ends with the first cycle that
     neither runs nor retries a task, having run and retried at most what the changes weighed at first,
     and every change it archived has all its tasks done and none regressed.
     */
    method RunWatcherOnce(visits: (nat, nat) -> Visit, elapsed: nat -> nat)
      returns (totalTasksRun: nat, totalRetried: nat, ghost cycles: seq<nat>)
      requires Valid()
      modifies this
      ensures Valid()
      ensures cycles != [] && cycles[|cycles| - 1] == 0 && forall i :: 0 <= i < |cycles| - 1 ==> cycles[i] > 0
      ensures totalTasksRun + totalRetried == Sum(cycles) <= old(TotalWeight(changes, gates))
      ensures |cycles| <= old(TotalWeight(changes, gates)) + 1
      ensures forall c :: c in changes && c.archived ==> Complete(c)
    {
      totalTasksRun, totalRetried, cycles := 0, 0, [];
      var number := 0;
      while true
        invariant Valid() && |cycles| == number && forall i :: 0 <= i < |cycles| ==> cycles[i] > 0
        invariant totalTasksRun + totalRetried == Sum(cycles) && number <= Sum(cycles)
        invariant TotalWeight(changes, gates) + totalTasksRun + totalRetried <= old(TotalWeight(changes, gates))
        decreases TotalWeight(changes, gates)
      {
        now := now + elapsed(number);
        var cycle := number;
        var tasksRun, retried, _, _, _ := RunWatcherCycle((i: nat) => visits(cycle, i));
        SumAppend(cycles, tasksRun + retried);
        totalTasksRun, totalRetried := totalTasksRun + tasksRun, totalRetried + retried;
        cycles, number := cycles + [tasksRun + retried], number + 1;
        if tasksRun == 0 && retried == 0 { break; }
      }
    }
  }

  predicate Fresh(t: Task) {
    t.events == [] && t.dead.None? && t.regressed.None? && !t.lock && !t.done
  }

  lemma FreshTask(t: Task, approvedAt: Option<int>, gates: Gates)
    requires Fresh(t) && gates.autoRetries >= 0 && gates.providerRetries >= 0
    ensures Weight(t, approvedAt, gates) == 2 + 3 * (gates.autoRetries + gates.providerRetries)
  {
  }

  /** A newly approved change weighs two per task and three per automatic retry it may ever get. */
  lemma FreshWeight(tasks: seq<Task>, approvedAt: Option<int>, gates: Gates)
    requires forall t :: t in tasks ==> Fresh(t)
    requires gates.autoRetries >= 0 && gates.providerRetries >= 0
    ensures WeightOf(Change(approvedAt, tasks, false, false), gates) == |tasks| * (2 + 3 * (gates.autoRetries + gates.providerRetries))
  {
    var each := 2 + 3 * (gates.autoRetries + gates.providerRetries);
    forall i | 0 <= i < |tasks| ensures Weight(tasks[i], approvedAt, gates) == each {
      assert tasks[i] in tasks;
      FreshTask(tasks[i], approvedAt, gates);
    }
    SumOfEqual(Weights(tasks, approvedAt, gates), each);
  }
}
