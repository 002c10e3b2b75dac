/**
 Catching up commits a worktree refused. A refused commit halts the change with `commit_failed`;
 the watcher tries again on its own within a budget that only a human retry of the change renews.
 */
module CommitCatchUp {
  import opened Wrappers
  import opened Text

  const COMMIT_FAILED := "commit_failed"
  const CHANGE_TARGET := "change"

  /** One line of the change's log; `automatic` is the retry's key, None when it carries none. */
  datatype Event =
    | Retry(target: string, automatic: Option<bool>)
    | Regressed(reason: string)
    | Other

  predicate ByHand(e: Event) {
    e.Retry? && e.target == CHANGE_TARGET && e.automatic.None?
  }

  predicate Failure(e: Event) {
    e.Regressed? && e.reason == COMMIT_FAILED
  }

  /** The refused commits after the last human retry of the change. */
  function Failures(events: seq<Event>): nat {
    if |events| == 0 || ByHand(Last(events)) then 0
    else Failures(Init(events)) + if Failure(Last(events)) then 1 else 0
  }

  /** Found in two passes: the index of the last human retry, then a count of what follows it. */
  method CommitFailedCount(events: seq<Event>) returns (count: nat)
    ensures count == Failures(events)
  {
    var lastManual: int := -1;
    for i := 0 to |events|
      invariant -1 <= lastManual < i
      invariant lastManual >= 0 ==> ByHand(events[lastManual])
      invariant forall k :: lastManual < k < i ==> !ByHand(events[k])
    {
      if events[i].Retry? && events[i].target == CHANGE_TARGET && events[i].automatic.None? {
        lastManual := i;
      }
    }
    count := 0;
    for i := lastManual + 1 to |events|
      invariant count == Failures(events[..i])
    {
      assert Init(events[..i + 1]) == events[..i];
      if events[i].Regressed? && events[i].reason == COMMIT_FAILED { count := count + 1; }
    }
    assert events[..|events|] == events;
  }

  lemma FailuresGrow(events: seq<Event>, e: Event)
    ensures Failures(events + [e]) == if ByHand(e) then 0 else Failures(events) + if Failure(e) then 1 else 0
  {
    assert Init(events + [e]) == events;
  }

  /** The retry transition can refuse, for example when the approval no longer matches; Killed ends the process. */
  datatype Outcome = Ready | Left | Refused | Killed

  /** What may happen to a change; `writes` is how many writes reach the disk before the process is killed. */
  datatype Act =
    | CatchUp(commits: seq<bool>, refused: bool, writes: nat)
    | ArchiveCatchUp(commit: bool, refused: bool, writes: nat)
    | Halts(reason: string, writes: nat)
    | ReapFails(writes: nat)
    | RetryByHand(writes: nat)

  // ---------- an archived change whose commit was refused

  /** What its catch-ups look at and leave: the active halt, the log, and whether the archive is committed. */
  datatype Archived = Archived(marker: Option<string>, events: seq<Event>, committed: bool)

  /** One catch-up of it: what the commit and the retry transition answer, and the writes until a kill. */
  datatype Try = Try(commit: bool, refused: bool, writes: nat)

  predicate Tried(a: Archived, retries: int) {
    a.marker == Some(COMMIT_FAILED) && Failures(a.events) <= retries
  }

  /** The marker's rename, the retry event and the commit are one write each; a refused commit halts again. */
  function Step(a: Archived, retries: int, t: Try): Archived {
    if !Tried(a, retries) || t.refused || t.writes == 0 then a
    else if t.writes == 1 then a.(marker := None)
    else
      var logged := a.events + [Retry(CHANGE_TARGET, Some(true))];
      if t.writes == 2 then a.(marker := None, events := logged)
      else if t.commit then Archived(None, logged, true)
      else a.(marker := Some(COMMIT_FAILED), events := if t.writes == 3 then logged else logged + [Regressed(COMMIT_FAILED)])
  }

  function After(a: Archived, retries: int, tries: seq<Try>): Archived
    decreases |tries|
  {
    if |tries| == 0 then a else After(Step(a, retries, tries[0]), retries, tries[1..])
  }

  /** No sequence of catch-ups commits the archive. */
  ghost predicate StaysUndone(a: Archived, retries: int) {
    forall tries: seq<Try> :: !After(a, retries, tries).committed
  }

  lemma {:induction false} NeverTried(a: Archived, retries: int, tries: seq<Try>)
    requires !Tried(a, retries)
    ensures After(a, retries, tries) == a
    decreases |tries|
  {
    if |tries| > 0 { NeverTried(a, retries, tries[1..]); }
  }

  /** The commit stays undone exactly when it is, and the halt its catch-ups go by is gone or its budget spent. */
  lemma StaysUndoneIff(a: Archived, retries: int)
    ensures StaysUndone(a, retries) <==> !a.committed && !Tried(a, retries)
  {
    if Tried(a, retries) {
      var t := Try(true, false, 3);
      assert [t][1..] == [];
      assert After(a, retries, [t]) == After(Step(a, retries, t), retries, []);
      assert After(a, retries, [t]).committed;
    } else if a.committed {
      assert After(a, retries, []).committed;
    } else {
      forall tries: seq<Try> ensures !After(a, retries, tries).committed { NeverTried(a, retries, tries); }
    }
  }

  /**
   A catch-up that tries the commit leaves it undone under every later sequence of catch-ups exactly when
   a kill falls between the marker's rename and the commit, or the commit's refusal spends the budget.
   */
  lemma KilledBeforeTheCommit(a: Archived, retries: int, t: Try)
    requires Tried(a, retries) && !a.committed && !t.refused
    ensures StaysUndone(Step(a, retries, t), retries) <==>
              t.writes in {1, 2} || (t.writes >= 4 && !t.commit && Failures(a.events) == retries)
  {
    var b, retry := Step(a, retries, t), Retry(CHANGE_TARGET, Some(true));
    StaysUndoneIff(b, retries);
    FailuresGrow(a.events, retry);
    FailuresGrow(a.events + [retry], Regressed(COMMIT_FAILED));
  }

  class WorktreeChange {
    const retries: int
    /** The reason of the active change-level regression marker. */
    var marker: Option<string>
    var events: seq<Event>
    var writesLeft: nat
    /** The halts for a refused commit since the last human retry. */
    var halts: nat
    /** Of those, the ones a kill kept out of the log, and the logged ones written over a halt already active. */
    var lost: nat
    var overlaid: nat
    /** Whether the archive of an archived change is committed. */
    var committed: bool

    function Budget(): nat {
      if retries < 0 then 0 else retries
    }

    /** An unhalted change is within the budget and a halted one is at most one failure past it. */
    ghost predicate Valid()
      reads this
    {
      && halts <= Failures(events) + lost
      && (marker.None? ==> halts <= Budget() + lost)
      && halts <= Budget() + 1 + overlaid + lost
    }

    constructor (retries: int)
      ensures Valid() && this.retries == retries && marker.None? && events == [] && halts == lost == overlaid == 0
    {
      this.retries := retries;
      marker, events, writesLeft, halts, lost, overlaid, committed := None, [], 0, 0, 0, 0, false;
    }

    function Archive(): Archived
      reads this
    {
      Archived(marker, events, committed)
    }

    method Spend() returns (alive: bool)
      modifies `writesLeft
      ensures alive <==> old(writesLeft) > 0
      ensures writesLeft == if alive then old(writesLeft) - 1 else 0
    {
      alive := writesLeft > 0;
      if alive { writesLeft := writesLeft - 1; }
    }

    /** The marker first, then the event; a kill between them halts the change and leaves no trace in the log. */
    method Halt(reason: string) returns (alive: bool)
      modifies `marker, `events, `writesLeft, `halts, `lost
      ensures alive <==> old(writesLeft) >= 2
      ensures writesLeft == if alive then old(writesLeft) - 2 else 0
      ensures marker == if old(writesLeft) >= 1 then Some(reason) else old(marker)
      ensures events == if old(writesLeft) >= 2 then old(events) + [Regressed(reason)] else old(events)
      ensures halts == old(halts) + if old(writesLeft) >= 1 && reason == COMMIT_FAILED then 1 else 0
      ensures lost == old(lost) + if old(writesLeft) == 1 && reason == COMMIT_FAILED then 1 else 0
      ensures Failures(events) == old(Failures(events)) + if alive && reason == COMMIT_FAILED then 1 else 0
    {
      alive := Spend();
      if !alive { return; }
      marker := Some(reason);
      if reason == COMMIT_FAILED { halts := halts + 1; }
      alive := Spend();
      if !alive {
        if reason == COMMIT_FAILED { lost := lost + 1; }
        return;
      }
      FailuresGrow(events, Regressed(reason));
      events := events + [Regressed(reason)];
    }

    /** The retry transition: the marker becomes history, then the event is appended. */
    method Clear(automatic: Option<bool>) returns (alive: bool)
      modifies `marker, `events, `writesLeft
      ensures alive <==> old(writesLeft) >= 2
      ensures writesLeft == if alive then old(writesLeft) - 2 else 0
      ensures marker == if old(writesLeft) >= 1 then None else old(marker)
      ensures events == if alive then old(events) + [Retry(CHANGE_TARGET, automatic)] else old(events)
      ensures Failures(events) == if alive && automatic.None? then 0 else old(Failures(events))
    {
      alive := Spend();
      if !alive { return; }
      marker := None;
      alive := Spend();
      if !alive { return; }
      FailuresGrow(events, Retry(CHANGE_TARGET, automatic));
      events := events + [Retry(CHANGE_TARGET, automatic)];
    }

    /** Commit the pending dead records in order, stopping at the first refusal. */
    method CommitPendingDead(commits: seq<bool>) returns (committed: bool, alive: bool)
      modifies `marker, `events, `writesLeft, `halts, `lost
      ensures committed <==> false !in commits
      ensures committed ==> alive && unchanged(this)
      ensures !committed ==> (alive <==> old(writesLeft) >= 2)
      ensures !committed ==> marker == if old(writesLeft) >= 1 then Some(COMMIT_FAILED) else old(marker)
      ensures !committed ==> events == if alive then old(events) + [Regressed(COMMIT_FAILED)] else old(events)
      ensures !committed ==> halts == old(halts) + if old(writesLeft) >= 1 then 1 else 0
      ensures !committed ==> lost == old(lost) + if old(writesLeft) == 1 then 1 else 0
      ensures !committed ==> Failures(events) == old(Failures(events)) + if alive then 1 else 0
    {
      for i := 0 to |commits|
        invariant false !in commits[..i] && unchanged(this)
      {
        if !commits[i] {
          alive := Halt(COMMIT_FAILED);
          return false, alive;
        }
      }
      return true, true;
    }

    /** One catch-up of an active change: Left when it stays halted this cycle. */
    method CatchUpWorktreeCommits(commits: seq<bool>, refused: bool) returns (outcome: Outcome)
      requires Valid()
      modifies `marker, `events, `writesLeft, `halts, `lost
      ensures Valid()
      ensures old(writesLeft) >= 4 ==> lost == old(lost)
      ensures old(marker.Some? && marker.value != COMMIT_FAILED) ==> outcome == Ready && unchanged(this)
      ensures old(marker == Some(COMMIT_FAILED) && Failures(events) > retries) ==> outcome == Left && unchanged(this)
      ensures old(marker.None? || (marker.value == COMMIT_FAILED && Failures(events) <= retries))
              ==> (if false in commits then
                     && outcome == (if old(writesLeft) >= 2 then Left else Killed)
                     && marker == (if old(writesLeft) >= 1 then Some(COMMIT_FAILED) else old(marker))
                     && events == old(events) + (if old(writesLeft) >= 2 then [Regressed(COMMIT_FAILED)] else [])
                     && halts == old(halts) + (if old(writesLeft) >= 1 then 1 else 0)
                     && lost == old(lost) + (if old(writesLeft) == 1 then 1 else 0)
                   else if old(marker.None?) then outcome == Ready && unchanged(this)
                   else if refused then outcome == Refused && unchanged(this)
                   else
                     && outcome == (if old(writesLeft) >= 2 then Ready else Killed)
                     && marker == (if old(writesLeft) >= 1 then None else old(marker))
                     && events == old(events) + if old(writesLeft) >= 2 then [Retry(CHANGE_TARGET, Some(true))] else [])
    {
      var halted := false;
      if marker.Some? {
        if marker.value != COMMIT_FAILED { return Ready; }
        halted := true;
        var count := CommitFailedCount(events);
        if count > retries { return Left; }
      }
      var committed, alive := CommitPendingDead(commits);
      if !committed { return if alive then Left else Killed; }
      if halted {
        if refused { return Refused; }
        alive := Clear(Some(true));
        if !alive { return Killed; }
      }
      return Ready;
    }

    /** One catch-up of an archived change: the halt is cleared before the commit is tried. */
    method CatchUpArchiveCommit(commit: bool, refused: bool) returns (outcome: Outcome)
      requires Valid()
      modifies `marker, `events, `writesLeft, `halts, `lost, `committed
      ensures Valid()
      ensures old(writesLeft) >= 4 ==> lost == old(lost)
      ensures Archive() == Step(old(Archive()), retries, Try(commit, refused, old(writesLeft)))
      ensures old(!Tried(Archive(), retries)) ==> outcome == Left && unchanged(this)
      ensures old(Tried(Archive(), retries)) && refused ==> outcome == Refused && unchanged(this)
      ensures old(Tried(Archive(), retries)) && !refused ==>
                outcome == if old(writesLeft) < (if commit then 3 else 4) then Killed else if commit then Ready else Left
    {
      if marker != Some(COMMIT_FAILED) { return Left; }
      var count := CommitFailedCount(events);
      if count > retries { return Left; }
      if refused { return Refused; }
      var alive := Clear(Some(true));
      if !alive { return Killed; }
      if !commit {
        alive := Halt(COMMIT_FAILED);
        return if alive then Left else Killed;
      }
      alive := Spend();
      if !alive { return Killed; }
      committed := true;
      return Ready;
    }

    method Act(act: Act)
      requires Valid()
      modifies this
      ensures Valid()
      ensures !(act.RetryByHand? && act.writes >= 1 && old(marker.Some?)) ==>
                overlaid == old(overlaid) + if act.ReapFails? && act.writes >= 2 && old(marker.Some?) then 1 else 0
      ensures act.writes >= 4 ==> lost <= old(lost)
      ensures act == ReapFails(2) ==> marker.Some? && halts == old(halts) + 1 && lost == old(lost)
      ensures act.RetryByHand? && act.writes >= 1 && old(marker.Some?) ==> halts == lost == overlaid == 0
    {
      writesLeft := act.writes;
      match act {
        case CatchUp(commits, refused, _) => var _ := CatchUpWorktreeCommits(commits, refused);
        case ArchiveCatchUp(commit, refused, _) => var _ := CatchUpArchiveCommit(commit, refused);
        case Halts(reason, _) => if marker.None? { var _ := Halt(reason); }
        case ReapFails(_) =>
          if marker.Some? && writesLeft >= 2 { overlaid := overlaid + 1; }
          var _ := Halt(COMMIT_FAILED);
        case RetryByHand(_) =>
          if marker.Some? {
            var _ := Clear(None);
            if marker.None? { halts, lost, overlaid := 0, 0, 0; }
          }
      }
    }

    /**
     Over any run, the halts for a refused commit since the last human retry never pass the budget
     plus one, beyond those a kill kept out of the log and those of locks reaped while halted.
     */
    method Run(acts: seq<Act>) returns (refusals: nat)
      requires Valid()
      modifies this
      ensures Valid()
      ensures refusals == halts <= Budget() + 1 + overlaid + lost
      ensures marker.None? ==> refusals <= Budget() + lost
      ensures (forall i :: 0 <= i < |acts| ==> !acts[i].ReapFails?) ==> overlaid <= old(overlaid)
      ensures (forall i :: 0 <= i < |acts| ==> acts[i].writes >= 4) ==> lost <= old(lost)
    {
      for i := 0 to |acts|
        invariant Valid()
        invariant (forall k :: 0 <= k < i ==> !acts[k].ReapFails?) ==> overlaid <= old(overlaid)
        invariant (forall k :: 0 <= k < i ==> acts[k].writes >= 4) ==> lost <= old(lost)
      {
        Act(acts[i]);
      }
      refusals := halts;
    }
  }

  /**
   Kills between the halt marker and its event are not bounded by the budget: any number of refused
   commits, each tried by a catch-up that is killed there, under any budget.
   */
  method KillsBeatTheBudget(retries: nat, rounds: nat) returns (change: WorktreeChange)
    ensures fresh(change) && change.Valid() && change.retries == retries
    ensures change.halts == change.lost == rounds && change.overlaid == 0 && change.events == []
  {
    change := new WorktreeChange(retries);
    for i := 0 to rounds
      invariant fresh(change) && change.Valid() && change.retries == retries && change.events == []
      invariant change.halts == change.lost == i && change.overlaid == 0
      invariant change.marker.None? || change.marker == Some(COMMIT_FAILED)
    {
      change.writesLeft := 1;
      var _ := change.CatchUpWorktreeCommits([false], false);
    }
  }

  /** Reaping locks of a change that is halted already is not bounded either, though each halt is logged. */
  method ReapingBeatsTheBudget(retries: nat, rounds: nat) returns (change: WorktreeChange)
    ensures fresh(change) && change.Valid() && change.retries == retries
    ensures change.lost == 0 && change.overlaid == rounds && change.halts == rounds + 1
    ensures rounds > retries ==> change.halts > change.Budget() + 1
  {
    change := new WorktreeChange(retries);
    change.Act(ReapFails(2));
    for i := 0 to rounds
      invariant fresh(change) && change.Valid() && change.retries == retries && change.marker.Some?
      invariant change.lost == 0 && change.overlaid == i && change.halts == i + 1
    {
      change.Act(ReapFails(2));
    }
  }
}
