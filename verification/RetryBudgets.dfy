/**
 Automatic retry of dead tasks. Every decision is recomputed from what a task
 left on disk: its markers and its append-only event log. Two budgets are
 counted from the log since the last human act, one for provider outages and
 one for everything else.
 */
module RetryBudgets {
  import opened Wrappers
  import opened Text

  const PROVIDER_REASON := "provider_unavailable"

  const ELIGIBLE: set<string> := {
    "verify_red", "change_verify_red", "undeclared_test_change", "verify_path_missing",
    "denied_dependency", "vcs_violation", "scope_violation", "own_folder_path",
    "no_result", "crashed", "timeout", PROVIDER_REASON
  }

  /** `automatic` holds when the event carries exactly `automatic: true`. */
  datatype Event =
    | Retry(automatic: bool, reason: string, at: Option<int>)
    | Dead(at: Option<int>)
    | Stuck(fingerprint: string)
    | Other

  datatype Marker = Marker(reason: string, fingerprint: string, stuck: bool)

  datatype Retained = Retained(ordinal: nat, fingerprint: string)

  /**
   One task's files: `lock` is its running lock, `past` its retained dead
   markers in directory order, `pastRegressed` the highest retained
   regression ordinal.
   */
  datatype Task = Task(
    done: bool,
    lock: bool,
    dead: Option<Marker>,
    regressed: Option<string>,
    past: seq<Retained>,
    pastRegressed: nat,
    events: seq<Event>)

  /** `halted` is an active regression of the change itself. */
  datatype Change = Change(approvedAt: Option<int>, tasks: seq<Task>, halted: bool, archived: bool)

  datatype Gates = Gates(autoRetries: int, providerRetries: int, delayMs: int)

  datatype Decision = Retried | MarkedStuck | Nothing

  // ---------- What the log says

  function LaterOf(a: Option<int>, b: Option<int>): (later: Option<int>)
    ensures later == a || later == b
    ensures a.Some? ==> later.Some? && a.value <= later.value
    ensures b.Some? ==> later.Some? && b.value <= later.value
  {
    if a.None? then b else if b.None? || a.value > b.value then a else b
  }

  predicate Manual(e: Event) {
    e.Retry? && !e.automatic && e.at.Some?
  }

  function LatestManual(events: seq<Event>): Option<int> {
    if |events| == 0 then None
    else if Manual(Last(events)) then LaterOf(LatestManual(Init(events)), Last(events).at)
    else LatestManual(Init(events))
  }

  function LatestDead(events: seq<Event>): Option<int> {
    if |events| == 0 then None
    else if Last(events).Dead? then LaterOf(LatestDead(Init(events)), Last(events).at)
    else LatestDead(Init(events))
  }

  predicate Before(at: Option<int>, cutoff: Option<int>) {
    at.Some? && cutoff.Some? && at.value < cutoff.value
  }

  /** An automatic retry that counts against the provider budget or the other one. */
  predicate Spends(e: Event, provider: bool, cutoff: Option<int>) {
    e.Retry? && e.automatic && (e.reason == PROVIDER_REASON) == provider && !Before(e.at, cutoff)
  }

  function Spent(events: seq<Event>, provider: bool, cutoff: Option<int>): nat {
    if |events| == 0 then 0
    else Spent(Init(events), provider, cutoff) + if Spends(Last(events), provider, cutoff) then 1 else 0
  }

  method LastManualRetryAt(events: seq<Event>) returns (latest: Option<int>)
    ensures latest == LatestManual(events)
  {
    latest := None;
    for i := 0 to |events|
      invariant latest == LatestManual(events[..i])
    {
      TakeNext(events, i);
      if !events[i].Retry? || events[i].automatic { continue; }
      if events[i].at.None? { continue; }
      latest := LaterOf(latest, events[i].at);
    }
    assert events[..|events|] == events;
  }

  method LatestDeadAt(events: seq<Event>) returns (latest: Option<int>)
    ensures latest == LatestDead(events)
  {
    latest := None;
    for i := 0 to |events|
      invariant latest == LatestDead(events[..i])
    {
      TakeNext(events, i);
      if !events[i].Dead? || events[i].at.None? { continue; }
      if latest.None? || events[i].at.value > latest.value { latest := events[i].at; }
    }
    assert events[..|events|] == events;
  }

  method AutomaticRetriesSince(events: seq<Event>, cutoff: Option<int>) returns (count: nat)
    ensures count == Spent(events, false, cutoff)
  {
    count := 0;
    for i := 0 to |events|
      invariant count == Spent(events[..i], false, cutoff)
    {
      TakeNext(events, i);
      if !events[i].Retry? { continue; }
      if !events[i].automatic || events[i].reason == PROVIDER_REASON { continue; }
      if cutoff.Some? && events[i].at.Some? && events[i].at.value < cutoff.value { continue; }
      count := count + 1;
    }
    assert events[..|events|] == events;
  }

  method ProviderRetriesSince(events: seq<Event>, cutoff: Option<int>) returns (count: nat)
    ensures count == Spent(events, true, cutoff)
  {
    count := 0;
    for i := 0 to |events|
      invariant count == Spent(events[..i], true, cutoff)
    {
      TakeNext(events, i);
      if !events[i].Retry? { continue; }
      if !events[i].automatic || events[i].reason != PROVIDER_REASON { continue; }
      if cutoff.Some? && events[i].at.Some? && events[i].at.value < cutoff.value { continue; }
      count := count + 1;
    }
    assert events[..|events|] == events;
  }

  /** The manual cutoff is the greatest time of any manual retry in the log. */
  lemma {:induction false} LatestManualIsGreatest(events: seq<Event>)
    ensures LatestManual(events).None? <==> forall e :: e in events ==> !Manual(e)
    ensures forall e :: e in events && Manual(e) ==> e.at.value <= LatestManual(events).value
    ensures LatestManual(events).Some? ==> exists e :: e in events && Manual(e) && e.at == LatestManual(events)
  {
    if |events| > 0 {
      LatestManualIsGreatest(Init(events));
      assert events == Init(events) + [Last(events)];
      if LatestManual(events).Some? {
        if LatestManual(events) == LatestManual(Init(events)) {
          var e :| e in Init(events) && Manual(e) && e.at == LatestManual(events);
          assert e in events;
        } else {
          assert Last(events) in events;
        }
      }
    }
  }

  // ---------- The newest retained failure

  function Newest(past: seq<Retained>): Option<Retained> {
    if |past| == 0 then None
    else
      var best := Newest(Init(past));
      if best.None? || Last(past).ordinal > best.value.ordinal then Some(Last(past)) else best
  }

  method HighestRetained(past: seq<Retained>) returns (best: Option<Retained>)
    ensures best == Newest(past)
  {
    var bestOrdinal: int := -1;
    best := None;
    for i := 0 to |past|
      invariant best == Newest(past[..i])
      invariant bestOrdinal == if best.None? then -1 else best.value.ordinal
    {
      TakeNext(past, i);
      if past[i].ordinal > bestOrdinal {
        bestOrdinal := past[i].ordinal;
        best := Some(past[i]);
      }
    }
    assert past[..|past|] == past;
  }

  function HighestOrdinal(past: seq<Retained>): nat {
    if Newest(past).None? then 0 else Newest(past).value.ordinal
  }

  lemma {:induction false} NewestIsHighest(past: seq<Retained>)
    ensures Newest(past).None? <==> past == []
    ensures Newest(past).Some? ==> Newest(past).value in past
    ensures forall r :: r in past ==> r.ordinal <= HighestOrdinal(past)
  {
    if past != [] {
      NewestIsHighest(Init(past));
      assert past == Init(past) + [Last(past)];
    }
  }

  // ---------- The decision

  predicate ForProvider(task: Task)
    requires task.dead.Some?
  {
    task.dead.value.reason == PROVIDER_REASON
  }

  predicate RepeatsNewest(task: Task)
    requires task.dead.Some?
  {
    Newest(task.past).Some? && Newest(task.past).value.fingerprint == task.dead.value.fingerprint
  }

  function Cutoff(approvedAt: Option<int>, task: Task): Option<int> {
    LaterOf(approvedAt, LatestManual(task.events))
  }

  function Budget(gates: Gates, provider: bool): int {
    if provider then gates.providerRetries else gates.autoRetries
  }

  predicate DelayPassed(task: Task, gates: Gates, now: int) {
    LatestDead(task.events).Some? && now - LatestDead(task.events).value >= gates.delayMs
  }

  /**
   When a dead task is retried: `refused` stands for the retry transition
   throwing before it changed anything.
   */
  predicate RetriedNow(task: Task, approvedAt: Option<int>, gates: Gates, now: int, refused: bool) {
    && task.dead.Some?
    && task.dead.value.reason in ELIGIBLE
    && !refused
    && Spent(task.events, ForProvider(task), Cutoff(approvedAt, task)) < Budget(gates, ForProvider(task))
    && (if ForProvider(task) then DelayPassed(task, gates, now) else !RepeatsNewest(task))
  }

  predicate StuckNow(task: Task) {
    task.dead.Some? && task.dead.value.reason in ELIGIBLE && !ForProvider(task) && RepeatsNewest(task)
  }

  predicate Failing(task: Task) {
    task.dead.Some? || task.regressed.Some?
  }

  /** The reason a retry records: an active regression takes precedence. */
  function RecordedReason(task: Task): string
    requires Failing(task)
  {
    if task.regressed.Some? then task.regressed.value else task.dead.value.reason
  }

  /** The fresh ordinal a retry shares between the markers it retains. */
  function NextOrdinal(task: Task): nat {
    var dead, regressed := HighestOrdinal(task.past), task.pastRegressed;
    (if dead > regressed then dead else regressed) + 1
  }

  /**
   The transition after its first `writes` writes: the regressed marker, the dead marker and the done
   marker become history under one fresh ordinal, in that order, and last one event is appended. A
   write the markers do not call for changes nothing.
   */
  function WithdrawnBy(task: Task, writes: nat, automatic: bool, now: int): Task
    requires Failing(task)
  {
    var regressed := task.regressed.Some? && writes >= 1;
    var dead := task.dead.Some? && writes >= 2;
    task.(done := task.done && !(task.regressed.Some? && writes >= 3),
          dead := if dead then None else task.dead,
          regressed := if regressed then None else task.regressed,
          past := if dead then task.past + [Retained(NextOrdinal(task), task.dead.value.fingerprint)] else task.past,
          pastRegressed := if regressed then NextOrdinal(task) else task.pastRegressed,
          events := if writes >= 4 then task.events + [Retry(automatic, RecordedReason(task), Some(now))] else task.events)
  }

  const WHOLE: nat := 4

  /** The whole transition. */
  function Withdrawn(task: Task, automatic: bool, now: int): Task
    requires Failing(task)
  {
    WithdrawnBy(task, WHOLE, automatic, now)
  }

  function Flagged(task: Task): Task
    requires task.dead.Some?
  {
    if task.dead.value.stuck then task
    else task.(dead := Some(task.dead.value.(stuck := true)),
               events := task.events + [Stuck(task.dead.value.fingerprint)])
  }

  function AfterRetryPass(task: Task, approvedAt: Option<int>, gates: Gates, now: int, refused: bool): Task {
    if StuckNow(task) then Flagged(task)
    else if RetriedNow(task, approvedAt, gates, now, refused) then Withdrawn(task, true, now)
    else task
  }

  method DecideProviderRetry(events: seq<Event>, gates: Gates, cutoff: Option<int>, now: int) returns (retry: bool)
    ensures retry <==> (Spent(events, true, cutoff) < gates.providerRetries
                        && LatestDead(events).Some? && now - LatestDead(events).value >= gates.delayMs)
  {
    if gates.providerRetries <= 0 { return false; }
    var spent := ProviderRetriesSince(events, cutoff);
    if spent >= gates.providerRetries { return false; }
    var deadAt := LatestDeadAt(events);
    if deadAt.None? { return false; }
    return now - deadAt.value >= gates.delayMs;
  }

  method DecideDeadTask(task: Task, approvedAt: Option<int>, gates: Gates, now: int, refused: bool)
    returns (decision: Decision, after: Task)
    requires task.dead.Some?
    ensures decision.MarkedStuck? <==> StuckNow(task)
    ensures decision.Retried? <==> RetriedNow(task, approvedAt, gates, now, refused)
    ensures after == AfterRetryPass(task, approvedAt, gates, now, refused)
  {
    after := task;
    var marker := task.dead.value;
    if marker.reason !in ELIGIBLE { return Nothing, after; }
    var provider := marker.reason == PROVIDER_REASON;
    if !provider {
      var previous := HighestRetained(task.past);
      if previous.Some? && previous.value.fingerprint == marker.fingerprint {
        if !marker.stuck {
          after := task.(dead := Some(marker.(stuck := true)), events := task.events + [Stuck(marker.fingerprint)]);
        }
        return MarkedStuck, after;
      }
    }
    var manual := LastManualRetryAt(task.events);
    var cutoff := LaterOf(approvedAt, manual);
    if provider {
      var retry := DecideProviderRetry(task.events, gates, cutoff, now);
      if !retry { return Nothing, after; }
    } else {
      var spent := AutomaticRetriesSince(task.events, cutoff);
      if spent >= gates.autoRetries { return Nothing, after; }
    }
    if refused { return Nothing, after; }
    after := Withdrawn(task, true, now);
    return Retried, after;
  }

  function CountRetried(tasks: seq<Task>, approvedAt: Option<int>, gates: Gates, now: int, refused: set<nat>): nat {
    if |tasks| == 0 then 0
    else CountRetried(Init(tasks), approvedAt, gates, now, refused)
         + if RetriedNow(Last(tasks), approvedAt, gates, now, |tasks| - 1 in refused) then 1 else 0
  }

  /**
   One pass over a change's active dead markers. A limit of zero switches
   both budgets off.
   */
  method RunAutomaticRetries(change: Change, gates: Gates, now: int, refused: set<nat>)
    returns (retried: nat, after: Change)
    ensures after == change.(tasks := after.tasks) && |after.tasks| == |change.tasks|
    ensures gates.autoRetries <= 0 ==> after == change && retried == 0
    ensures gates.autoRetries > 0 ==> retried == CountRetried(change.tasks, change.approvedAt, gates, now, refused)
    ensures gates.autoRetries > 0 ==>
              forall i :: 0 <= i < |change.tasks| ==>
                            after.tasks[i] == AfterRetryPass(change.tasks[i], change.approvedAt, gates, now, i in refused)
  {
    retried, after := 0, change;
    if gates.autoRetries <= 0 { return; }
    var tasks := change.tasks;
    for i := 0 to |tasks|
      invariant |tasks| == |change.tasks|
      invariant tasks[i..] == change.tasks[i..]
      invariant retried == CountRetried(change.tasks[..i], change.approvedAt, gates, now, refused)
      invariant forall j :: 0 <= j < i ==>
                              tasks[j] == AfterRetryPass(change.tasks[j], change.approvedAt, gates, now, j in refused)
    {
      TakeNext(change.tasks, i);
      assert tasks[i] == change.tasks[i];
      if tasks[i].dead.Some? {
        var decision, task := DecideDeadTask(tasks[i], change.approvedAt, gates, now, i in refused);
        tasks := tasks[i := task];
        if decision == Retried { retried := retried + 1; }
      }
      assert tasks[i + 1..] == change.tasks[i + 1..];
    }
    assert change.tasks[..|tasks|] == change.tasks;
    after := change.(tasks := tasks);
  }

  // ---------- What the decision promises

  /**
   A provider outage is never stuck and never retried before its wait; any
   other death that repeats the newest retained failure is never retried.
   */
  lemma WhoIsNeverRetried(task: Task, approvedAt: Option<int>, gates: Gates, now: int, refused: bool)
    requires task.dead.Some?
    ensures ForProvider(task) ==> !StuckNow(task)
    ensures (ForProvider(task) && exists e :: e in task.events && e.Dead? && e.at.Some? && now - e.at.value < gates.delayMs)
            ==> !RetriedNow(task, approvedAt, gates, now, refused)
    ensures (!ForProvider(task) && RepeatsNewest(task)) ==> !RetriedNow(task, approvedAt, gates, now, refused)
  {
    LatestDeadIsGreatest(task.events);
  }

  lemma {:induction false} LatestDeadIsGreatest(events: seq<Event>)
    ensures forall e :: e in events && e.Dead? && e.at.Some? ==>
                          LatestDead(events).Some? && e.at.value <= LatestDead(events).value
  {
    if |events| > 0 {
      LatestDeadIsGreatest(Init(events));
      assert events == Init(events) + [Last(events)];
    }
  }

  /**
   A retried death becomes the newest retained failure, so the same death
   again is stuck.
   */
  lemma RetriedDeathIsNewest(task: Task, now: int, again: Marker)
    requires task.dead.Some? && task.dead.value.reason in ELIGIBLE
    requires again.reason in ELIGIBLE && again.reason != PROVIDER_REASON
    requires again.fingerprint == task.dead.value.fingerprint
    ensures StuckNow(Withdrawn(task, true, now).(dead := Some(again)))
  {
    var after := Withdrawn(task, true, now);
    assert Init(after.past) == task.past;
  }

  predicate Crossed(task: Task)
    requires task.dead.Some?
  {
    (RecordedReason(task) == PROVIDER_REASON) != ForProvider(task)
  }

  lemma SpentGrows(events: seq<Event>, e: Event, provider: bool, cutoff: Option<int>)
    ensures Spent(events + [e], provider, cutoff) ==
            Spent(events, provider, cutoff) + if Spends(e, provider, cutoff) then 1 else 0
  {
    assert Init(events + [e]) == events;
  }

  predicate Past(cutoff: Option<int>, now: int) {
    cutoff.Some? ==> cutoff.value <= now
  }

  /**
   Neither budget spends the other, exactly when no regression of the other
   kind is active on the dead task. The cutoff does not move.
   */
  lemma BudgetsStayApart(task: Task, approvedAt: Option<int>, now: int)
    requires task.dead.Some? && Past(Cutoff(approvedAt, task), now)
    ensures Cutoff(approvedAt, Withdrawn(task, true, now)) == Cutoff(approvedAt, task)
    ensures var after := Withdrawn(task, true, now);
            var cutoff := Cutoff(approvedAt, task);
            var mine := ForProvider(task);
            if Crossed(task) then
              (Spent(after.events, mine, cutoff) == Spent(task.events, mine, cutoff)
               && Spent(after.events, !mine, cutoff) == Spent(task.events, !mine, cutoff) + 1)
            else
              (Spent(after.events, mine, cutoff) == Spent(task.events, mine, cutoff) + 1
               && Spent(after.events, !mine, cutoff) == Spent(task.events, !mine, cutoff))
  {
    var e := Retry(true, RecordedReason(task), Some(now));
    SpentGrows(task.events, e, true, Cutoff(approvedAt, task));
    SpentGrows(task.events, e, false, Cutoff(approvedAt, task));
    assert Init(task.events + [e]) == task.events;
  }

  /** A retry is charged to the other budget exactly when a regression of the other kind is active. */
  lemma RegressionCrosses(task: Task)
    requires task.dead.Some?
    ensures Crossed(task) <==> task.regressed.Some? && (task.regressed.value == PROVIDER_REASON) != ForProvider(task)
  {
  }

  /**
   A transition that was cut short has retried the task once its dead marker is gone, and the log
   counts that retry exactly when the last write, the event, was made as well.
   */
  lemma CountedIffRecorded(task: Task, writes: nat, approvedAt: Option<int>, now: int)
    requires task.dead.Some? && Past(Cutoff(approvedAt, task), now)
    ensures var after, cutoff := WithdrawnBy(task, writes, true, now), Cutoff(approvedAt, task);
            && Cutoff(approvedAt, after) == cutoff
            && (after.dead.None? <==> writes >= 2)
            && (Spent(after.events, true, cutoff) + Spent(after.events, false, cutoff)
                == Spent(task.events, true, cutoff) + Spent(task.events, false, cutoff) + (if writes >= WHOLE then 1 else 0))
  {
    BudgetsStayApart(task, approvedAt, now);
  }

  // ---------- Whole runs

  /** The reasons a numbered task is regressed for, all of them about completed tasks. */
  const REGRESSIONS: set<string> := {"scope_regression", "verify_red", "verify_path_missing"}

  /** The reasons an attempt ends for before it takes the lock. */
  const EARLY: set<string> := {"spec_conflict", "crashed", "entry_missing"}

  /** The reasons a stopped lock is reaped for. */
  const REAPED: set<string> := {"crashed", "timeout"}

  /**
   What happens to one task. `writes` is how many of the act's writes reach the disk before the
   process is killed; enough of them means it is not killed. An act that is not possible is skipped.
   An attempt that dies may free its lock before, between or after writing its marker and its event.
   */
  datatype Act =
    | Starts
    | Passes(writes: nat)
    | Dies(marker: Marker, freedAt: nat, writes: nat)
    | DiesEarly(marker: Marker, writes: nat)
    | Drops
    | KilledRunning
    | Reaps(marker: Marker, writes: nat)
    | Regresses(reason: string, writes: nat)
    | RetryByHand(recertified: Option<bool>, writes: nat)
    | Approve
    | AutomaticPass(refused: bool, writes: nat)

  predicate Pending(task: Task) {
    !task.done && !task.lock && task.dead.None? && task.regressed.None?
  }

  /** A task that is done is not dead of an outage, and only a done task is regressed. */
  ghost predicate Sound(task: Task, busy: bool) {
    && (task.regressed.Some? ==> task.done && task.regressed.value in REGRESSIONS)
    && (task.dead.Some? && ForProvider(task) ==> !task.done)
    && (busy ==> task.lock && !task.done && task.dead.None?)
  }

  /** No task of a run is ever retried out of the other budget. */
  lemma NeverCrosses(task: Task, busy: bool)
    requires Sound(task, busy) && task.dead.Some?
    ensures !Crossed(task)
  {
    RegressionCrosses(task);
  }

  function Logged(task: Task, e: Event, written: bool): Task {
    if written then task.(events := task.events + [e]) else task
  }

  /** The acts of attempts, of reaping and of the audits; `busy` is whether an attempt is live. */
  function Suffered(task: Task, busy: bool, act: Act, now: int): (Task, bool) {
    match act
    case Starts => if Pending(task) && !busy then (task.(lock := true, events := task.events + [Other]), true) else (task, busy)
    case Passes(writes) =>
      if busy then (Logged(task.(done := writes >= 1, lock := writes < 3), Other, writes >= 2), false) else (task, busy)
    case Dies(marker, freedAt, writes) =>
      if busy then
        var marked, freed, logged := if freedAt == 0 then 2 else 1, if freedAt < 2 then freedAt + 1 else 3, if freedAt < 2 then 3 else 2;
        (Logged(task.(dead := if writes >= marked then Some(marker) else None, lock := writes < freed), Dead(Some(now)), writes >= logged), false)
      else (task, busy)
    case DiesEarly(marker, writes) =>
      if Pending(task) && marker.reason in EARLY then
        (Logged(task.(dead := if writes >= 1 then Some(marker) else None), Dead(Some(now)), writes >= 2), busy)
      else (task, busy)
    case Drops => if busy then (task.(lock := false), false) else (task, busy)
    case KilledRunning => (task, false)
    case Reaps(marker, writes) =>
      if task.lock && !busy && marker.reason in REAPED then
        (Logged(task.(lock := writes < 1, dead := if writes >= 2 then Some(marker) else task.dead), Dead(Some(now)), writes >= 3), busy)
      else (task, busy)
    case Regresses(reason, writes) =>
      if task.done && task.regressed.None? && reason in REGRESSIONS then
        (Logged(task.(regressed := if writes >= 1 then Some(reason) else None), Other, writes >= 2), busy)
      else (task, busy)
    case RetryByHand(_, _) => (task, busy)
    case Approve => (task, busy)
    case AutomaticPass(_, _) => (task, busy)
  }

  /** A human retry: a scope regression alone is recertified, anything else is withdrawn. */
  function Answered(task: Task, recertified: Option<bool>, writes: nat, now: int): Task {
    if task.lock || !Failing(task) then task
    else if recertified.Some? && task.dead.None? && task.regressed == Some("scope_regression") then
      var kept := WithdrawnBy(task, if writes >= WHOLE then 3 else writes, false, now);
      Logged(if recertified.value then kept.(done := task.done) else kept, Other, writes >= WHOLE)
    else WithdrawnBy(task, writes, false, now)
  }

  /** Whether that retry reached the log as one, which is what renews the budgets. */
  predicate Renews(task: Task, recertified: Option<bool>, writes: nat) {
    && !task.lock && Failing(task) && writes >= WHOLE
    && !(recertified.Some? && task.dead.None? && task.regressed == Some("scope_regression"))
  }

  function FlaggedBy(task: Task, writes: nat): Task
    requires task.dead.Some?
  {
    if task.dead.value.stuck || writes == 0 then task
    else Logged(task.(dead := Some(task.dead.value.(stuck := true))), Stuck(task.dead.value.fingerprint), writes >= 2)
  }

  /** The automatic pass of one cycle, cut short after `writes` writes. */
  function Passed(task: Task, approvedAt: Option<int>, gates: Gates, now: int, refused: bool, writes: nat): Task {
    if gates.autoRetries <= 0 then task
    else if StuckNow(task) then FlaggedBy(task, writes)
    else if RetriedNow(task, approvedAt, gates, now, refused) then WithdrawnBy(task, writes, true, now)
    else task
  }

  /** The retries counted are all in the log since the cutoff, and within their budgets. */
  ghost predicate Within(gates: Gates, task: Task, approvedAt: Option<int>, now: int, ordinary: nat, provider: nat) {
    && Past(Cutoff(approvedAt, task), now)
    && ordinary <= Spent(task.events, false, Cutoff(approvedAt, task))
    && provider <= Spent(task.events, true, Cutoff(approvedAt, task))
    && (ordinary > 0 ==> ordinary <= gates.autoRetries)
    && (provider > 0 ==> provider <= gates.providerRetries)
  }

  /** Another event than a retry, or none, leaves the counts where they were. */
  lemma QuietStaysWithin(gates: Gates, task: Task, after: Task, e: Event, approvedAt: Option<int>, now: int,
                         ordinary: nat, provider: nat)
    requires Within(gates, task, approvedAt, now, ordinary, provider)
    requires after.events == task.events || (after.events == task.events + [e] && !e.Retry?)
    ensures Within(gates, after, approvedAt, now, ordinary, provider)
  {
    if after.events != task.events { QuietEvent(task.events, e, Cutoff(approvedAt, task)); }
  }

  lemma RetryStaysWithin(gates: Gates, task: Task, approvedAt: Option<int>, now: int, ordinary: nat, provider: nat)
    requires Within(gates, task, approvedAt, now, ordinary, provider) && task.dead.Some? && !Crossed(task)
    requires Spent(task.events, ForProvider(task), Cutoff(approvedAt, task)) < Budget(gates, ForProvider(task))
    ensures Within(gates, Withdrawn(task, true, now), approvedAt, now,
                   ordinary + (if ForProvider(task) then 0 else 1), provider + (if ForProvider(task) then 1 else 0))
  {
    BudgetsStayApart(task, approvedAt, now);
  }

  /** A retry cut at any write is charged exactly when its event was written. */
  lemma ChargedStaysWithin(gates: Gates, task: Task, writes: nat, approvedAt: Option<int>, now: int, ordinary: nat, provider: nat)
    requires Within(gates, task, approvedAt, now, ordinary, provider) && task.dead.Some? && !Crossed(task)
    requires Spent(task.events, ForProvider(task), Cutoff(approvedAt, task)) < Budget(gates, ForProvider(task))
    ensures Within(gates, WithdrawnBy(task, writes, true, now), approvedAt, now,
                   ordinary + (if writes >= WHOLE && !ForProvider(task) then 1 else 0),
                   provider + (if writes >= WHOLE && ForProvider(task) then 1 else 0))
  {
    var after := WithdrawnBy(task, writes, true, now);
    if writes >= WHOLE {
      RetryStaysWithin(gates, task, approvedAt, now, ordinary, provider);
      assert after == Withdrawn(task, true, now);
    } else {
      QuietStaysWithin(gates, task, after, Other, approvedAt, now, ordinary, provider);
    }
  }

  lemma ApprovalIsPast(task: Task, approvedAt: Option<int>, now: int)
    requires Past(Cutoff(approvedAt, task), now)
    ensures Past(Cutoff(Some(now), task), now)
  {
  }

  lemma ManualRetryIsPast(task: Task, approvedAt: Option<int>, now: int)
    requires Failing(task) && Past(Cutoff(approvedAt, task), now)
    ensures Past(Cutoff(approvedAt, Withdrawn(task, false, now)), now)
  {
    LatestIsNow(task.events, Retry(false, RecordedReason(task), Some(now)));
  }

  lemma LatestIsNow(events: seq<Event>, e: Event)
    requires Manual(e)
    ensures LatestManual(events + [e]) == LaterOf(LatestManual(events), e.at)
  {
    assert Init(events + [e]) == events && Last(events + [e]) == e;
  }

  lemma QuietEvent(events: seq<Event>, e: Event, cutoff: Option<int>)
    requires !e.Retry?
    ensures LatestManual(events + [e]) == LatestManual(events)
    ensures forall provider :: Spent(events + [e], provider, cutoff) == Spent(events, provider, cutoff)
  {
    assert Init(events + [e]) == events;
  }

  lemma SufferedStaysSound(task: Task, busy: bool, act: Act, now: int)
    requires Sound(task, busy)
    ensures Sound(Suffered(task, busy, act, now).0, Suffered(task, busy, act, now).1)
  {
  }

  lemma WithdrawnStaysSound(task: Task, writes: nat, automatic: bool, now: int)
    requires Sound(task, false) && Failing(task)
    ensures Sound(WithdrawnBy(task, writes, automatic, now), false)
  {
  }

  /**
   One task from its creation on, counting the automatic retries since the last human act by the kind
   of death: those the log counts, and those a kill kept out of it.
   */
  class TaskRun {
    const gates: Gates
    var task: Task
    var busy: bool
    var approvedAt: Option<int>
    var now: int
    var ordinary: nat
    var provider: nat
    var lostOrdinary: nat
    var lostProvider: nat

    ghost predicate Valid()
      reads this
    {
      Within(gates, task, approvedAt, now, ordinary, provider) && Sound(task, busy)
    }

    constructor (gates: Gates, now: int)
      ensures Valid() && this.gates == gates && this.now == now && Pending(task) && !busy && approvedAt.None?
      ensures task == Task(false, false, None, None, [], 0, [])
      ensures ordinary == provider == lostOrdinary == lostProvider == 0
    {
      this.gates, this.now := gates, now;
      task, busy, approvedAt := Task(false, false, None, None, [], 0, []), false, None;
      ordinary, provider, lostOrdinary, lostProvider := 0, 0, 0, 0;
    }

    /** One automatic pass; a kill between the dead marker's rename and the event loses the retry. */
    method Pass(refused: bool, writes: nat)
      requires Valid()
      modifies this
      ensures Valid() && now == old(now) && approvedAt == old(approvedAt)
      ensures task == old(Passed(task, approvedAt, gates, now, refused || task.lock, writes))
      ensures var retried := old(gates.autoRetries > 0 && RetriedNow(task, approvedAt, gates, now, refused || task.lock));
              var outage := retried && old(ForProvider(task));
              && ordinary == old(ordinary) + (if retried && !outage && writes >= WHOLE then 1 else 0)
              && provider == old(provider) + (if retried && outage && writes >= WHOLE then 1 else 0)
              && lostOrdinary == old(lostOrdinary) + (if retried && !outage && 2 <= writes < WHOLE then 1 else 0)
              && lostProvider == old(lostProvider) + (if retried && outage && 2 <= writes < WHOLE then 1 else 0)
    {
      if gates.autoRetries <= 0 || task.dead.None? { return; }
      var decision, _ := DecideDeadTask(task, approvedAt, gates, now, refused || task.lock);
      if decision.MarkedStuck? {
        var flagged := FlaggedBy(task, writes);
        QuietStaysWithin(gates, task, flagged, Stuck(task.dead.value.fingerprint), approvedAt, now, ordinary, provider);
        task := flagged;
      } else if decision.Retried? {
        NeverCrosses(task, busy);
        WithdrawnStaysSound(task, writes, true, now);
        Charge(task.dead.value.reason == PROVIDER_REASON, writes);
      }
    }

    method Charge(outage: bool, writes: nat)
      requires Valid() && !busy && task.dead.Some? && !Crossed(task) && outage == ForProvider(task)
      requires Spent(task.events, outage, Cutoff(approvedAt, task)) < Budget(gates, outage)
      modifies this
      ensures Valid() && now == old(now) && approvedAt == old(approvedAt) && busy == old(busy)
      ensures task == old(WithdrawnBy(task, writes, true, now))
      ensures ordinary == old(ordinary) + (if !outage && writes >= WHOLE then 1 else 0)
      ensures provider == old(provider) + (if outage && writes >= WHOLE then 1 else 0)
      ensures lostOrdinary == old(lostOrdinary) + (if !outage && 2 <= writes < WHOLE then 1 else 0)
      ensures lostProvider == old(lostProvider) + (if outage && 2 <= writes < WHOLE then 1 else 0)
    {
      var after := WithdrawnBy(task, writes, true, now);
      WithdrawnStaysSound(task, writes, true, now);
      ChargedStaysWithin(gates, task, writes, approvedAt, now, ordinary, provider);
      if writes >= WHOLE {
        if outage { provider := provider + 1; } else { ordinary := ordinary + 1; }
      } else if writes >= 2 {
        if outage { lostProvider := lostProvider + 1; } else { lostOrdinary := lostOrdinary + 1; }
      }
      task := after;
    }

    /** Attempts, reaping, audits and kills spend nothing. */
    method Endure(act: Act)
      requires Valid() && !act.RetryByHand? && !act.Approve? && !act.AutomaticPass?
      modifies `task, `busy
      ensures Valid() && (task, busy) == old(Suffered(task, busy, act, now))
    {
      var (after, live) := Suffered(task, busy, act, now);
      SufferedStaysSound(task, busy, act, now);
      QuietStaysWithin(gates, task, after, if act.Dies? || act.DiesEarly? || act.Reaps? then Dead(Some(now)) else Other,
                       approvedAt, now, ordinary, provider);
      task, busy := after, live;
    }

    method Renew()
      modifies `ordinary, `provider, `lostOrdinary, `lostProvider
      ensures ordinary == provider == lostOrdinary == lostProvider == 0
    {
      ordinary, provider, lostOrdinary, lostProvider := 0, 0, 0, 0;
    }

    /** An approval opens both budgets again. */
    method Approve()
      requires Valid()
      modifies this
      ensures Valid() && now == old(now) && task == old(task) && busy == old(busy) && approvedAt == Some(now)
      ensures ordinary == provider == lostOrdinary == lostProvider == 0
    {
      ApprovalIsPast(task, approvedAt, now);
      approvedAt := Some(now);
      Renew();
    }

    /** So does a human retry once its event is in the log; a recertification opens neither. */
    method Answer(recertified: Option<bool>, writes: nat)
      requires Valid()
      modifies this
      ensures Valid() && now == old(now) && approvedAt == old(approvedAt)
      ensures task == old(Answered(task, recertified, writes, now)) && busy == old(busy)
      ensures if old(Renews(task, recertified, writes)) then ordinary == provider == lostOrdinary == lostProvider == 0
              else ordinary == old(ordinary) && provider == old(provider)
                   && lostOrdinary == old(lostOrdinary) && lostProvider == old(lostProvider)
    {
      if task.lock || !Failing(task) { return; }
      var after := Answered(task, recertified, writes, now);
      AnsweredStaysSound(task, recertified, writes, now);
      AnsweredStaysWithin(gates, task, recertified, writes, approvedAt, now, ordinary, provider);
      Settle(after, Renews(task, recertified, writes));
    }

    /** The task after a human act, which opens the budgets again or leaves them. */
    method Settle(after: Task, renews: bool)
      requires Within(gates, after, approvedAt, now, if renews then 0 else ordinary, if renews then 0 else provider)
      requires Sound(after, busy)
      modifies `task, `ordinary, `provider, `lostOrdinary, `lostProvider
      ensures Valid() && task == after
      ensures if renews then ordinary == provider == lostOrdinary == lostProvider == 0
              else ordinary == old(ordinary) && provider == old(provider)
                   && lostOrdinary == old(lostOrdinary) && lostProvider == old(lostProvider)
    {
      if renews { Renew(); }
      task := after;
    }

    /**
     Over any run from the task's creation, whatever dies and whatever is killed at whichever write:
     between two human acts each budget is kept apart, and the automatic retries are at most both
     budgets plus the retries a kill kept out of the log.
     */
    method Run(acts: seq<(nat, Act)>) returns (retriedSinceHuman: nat, lost: nat)
      requires Valid()
      modifies this
      ensures Valid()
      ensures retriedSinceHuman == ordinary + provider + lost && lost == lostOrdinary + lostProvider
      ensures ordinary <= (if gates.autoRetries > 0 then gates.autoRetries else 0)
      ensures provider <= (if gates.providerRetries > 0 then gates.providerRetries else 0)
      ensures (forall i :: 0 <= i < |acts| && acts[i].1.AutomaticPass? ==> !(2 <= acts[i].1.writes < WHOLE))
              ==> lost <= old(lostOrdinary + lostProvider)
    {
      for i := 0 to |acts|
        invariant Valid()
        invariant (forall k :: 0 <= k < i && acts[k].1.AutomaticPass? ==> !(2 <= acts[k].1.writes < WHOLE))
                  ==> lostOrdinary + lostProvider <= old(lostOrdinary + lostProvider)
      {
        now := now + acts[i].0;
        match acts[i].1 {
          case AutomaticPass(refused, writes) => Pass(refused, writes);
          case RetryByHand(recertified, writes) => Answer(recertified, writes);
          case Approve => Approve();
          case other => Endure(acts[i].1);
        }
      }
      lost := lostOrdinary + lostProvider;
      retriedSinceHuman := ordinary + provider + lost;
    }
  }

  lemma AnsweredStaysWithin(gates: Gates, task: Task, recertified: Option<bool>, writes: nat, approvedAt: Option<int>,
                            now: int, ordinary: nat, provider: nat)
    requires Within(gates, task, approvedAt, now, ordinary, provider) && !task.lock && Failing(task)
    ensures var after, renews := Answered(task, recertified, writes, now), Renews(task, recertified, writes);
            Within(gates, after, approvedAt, now, if renews then 0 else ordinary, if renews then 0 else provider)
  {
    var after := Answered(task, recertified, writes, now);
    if Renews(task, recertified, writes) {
      ManualRetryIsPast(task, approvedAt, now);
      assert after == Withdrawn(task, false, now);
    } else {
      QuietStaysWithin(gates, task, after, Other, approvedAt, now, ordinary, provider);
    }
  }

  lemma AnsweredStaysSound(task: Task, recertified: Option<bool>, writes: nat, now: int)
    requires Sound(task, false) && !task.lock
    ensures Sound(Answered(task, recertified, writes, now), false)
  {
  }

  /** A log of nothing but deaths at one moment and other events. */
  predicate OnlyDeathsAt(events: seq<Event>, now: int) {
    forall e :: e in events ==> !e.Retry? && (e.Dead? ==> e.at == Some(now))
  }

  lemma {:induction false} NothingSpent(events: seq<Event>, now: int)
    requires OnlyDeathsAt(events, now)
    ensures LatestManual(events).None? && (LatestDead(events).Some? ==> LatestDead(events).value == now)
    ensures forall provider, cutoff :: Spent(events, provider, cutoff) == 0
  {
    if |events| > 0 {
      assert events == Init(events) + [Last(events)];
      NothingSpent(Init(events), now);
    }
  }

  const OUTAGE := Marker(PROVIDER_REASON, "outage", false)

  /** One more outage, retried at once by a pass that is killed right after the dead marker's rename. */
  method LoseOne(run: TaskRun)
    requires run.Valid() && run.gates == Gates(1, 1, 0) && run.approvedAt.None?
    requires Pending(run.task) && !run.busy && OnlyDeathsAt(run.task.events, run.now)
    modifies run
    ensures run.Valid() && run.approvedAt.None? && run.now == old(run.now)
    ensures Pending(run.task) && !run.busy && OnlyDeathsAt(run.task.events, run.now)
    ensures run.lostProvider == old(run.lostProvider) + 1
    ensures run.ordinary == old(run.ordinary) && run.provider == old(run.provider) && run.lostOrdinary == old(run.lostOrdinary)
  {
    DieOfOutage(run);
    NothingSpent(run.task.events, run.now);
    run.Pass(false, 2);
  }

  method DieOfOutage(run: TaskRun)
    requires run.Valid() && Pending(run.task) && !run.busy && OnlyDeathsAt(run.task.events, run.now)
    modifies run`task, run`busy
    ensures run.Valid() && !run.busy && OnlyDeathsAt(run.task.events, run.now) && LatestDead(run.task.events).Some?
    ensures run.task == old(run.task).(dead := Some(OUTAGE), events := run.task.events)
  {
    ghost var task := run.task;
    run.Endure(Starts);
    run.Endure(Dies(OUTAGE, 2, 3));
    OutageDies(task, run.now);
    DeathsAt(task.events, run.now);
  }

  /** An attempt that runs into an outage with nothing killed. */
  lemma OutageDies(task: Task, now: int)
    requires Pending(task)
    ensures var (one, busy) := Suffered(task, false, Starts, now);
            Suffered(one, busy, Dies(OUTAGE, 2, 3), now)
            == (task.(dead := Some(OUTAGE), events := task.events + [Other] + [Dead(Some(now))]), false)
  {
  }

  lemma DeathsAt(events: seq<Event>, now: int)
    requires OnlyDeathsAt(events, now)
    ensures var after := events + [Other] + [Dead(Some(now))]; OnlyDeathsAt(after, now) && LatestDead(after).Some?
  {
    assert Init(events + [Other] + [Dead(Some(now))]) == events + [Other];
  }

  /**
   Kills between the rename and the event are not bounded by the budgets: any number of outages, each
   retried and each retry lost, under budgets of one and one.
   */
  method KillsBeatTheBudgets(rounds: nat) returns (run: TaskRun)
    ensures fresh(run) && run.Valid() && run.gates == Gates(1, 1, 0)
    ensures run.lostProvider == rounds && run.ordinary == run.provider == run.lostOrdinary == 0
  {
    run := new TaskRun(Gates(1, 1, 0), 0);
    for i := 0 to rounds
      invariant fresh(run) && run.Valid() && run.approvedAt.None?
      invariant Pending(run.task) && !run.busy && OnlyDeathsAt(run.task.events, run.now)
      invariant run.lostProvider == i && run.ordinary == run.provider == run.lostOrdinary == 0
    {
      LoseOne(run);
    }
  }
}
