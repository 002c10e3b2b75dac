/**
 The watcher's lanes: at most one running task per change folder, capped by configuration. A lane's
 outcome is queued when its body ends, and the lane leaves the running table one step later.
 */
module ChangeLanes {
  import opened Wrappers

  /** A configured number as the source sees it: a real, or one of the values that are not finite. */
  datatype Number = Finite(value: real) | NotFinite

  datatype LaneOutcome = LaneOutcome(tasksRun: nat, specsArchived: nat, blocked: seq<string>)

  const NOTHING := LaneOutcome(0, 0, [])

  /** The errors a lane rethrows: a build that is being written, and a build that must stop the watcher. */
  datatype BuildError = Wait | Stale

  /** A finished lane's outcome or error, labelled with the lane that left it. */
  datatype Ticket = Ticket(id: nat, outcome: LaneOutcome)
  datatype Kept = Kept(id: nat, error: BuildError)

  /** `running` maps a folder to its lane's promise, here the number of the lane. */
  datatype Lanes = Lanes(
    running: map<string, nat>,
    spawned: set<string>,
    outcomes: seq<Ticket>,
    kept: Option<Kept>,
    closed: bool)

  const NO_LANES := Lanes(map[], {}, [], None, false)

  // ---------- the table as a value

  function Started(l: Lanes, folder: string, id: nat): Lanes
    requires folder !in l.running
  {
    l.(running := l.running[folder := id], spawned := l.spawned - {folder})
  }

  function Marked(l: Lanes, folder: string): Lanes {
    if folder in l.running then l.(spawned := l.spawned + {folder}) else l
  }

  predicate EverySpawned(l: Lanes) {
    forall f :: f in l.running ==> f in l.spawned
  }

  function WithOutcome(l: Lanes, ticket: Ticket): Lanes {
    l.(outcomes := l.outcomes + [ticket])
  }

  /** Only the first error is kept. */
  function WithError(l: Lanes, kept: Kept): Lanes {
    if l.kept.None? then l.(kept := Some(kept)) else l
  }

  function Removed(l: Lanes, folder: string): Lanes {
    l.(running := l.running - {folder}, spawned := l.spawned - {folder})
  }

  // ---------- runs of the table

  /** What happens to the table, as far as marks and the kept error go. */
  datatype LaneOp = Starts(folder: string, id: nat) | Marks(folder: string) | Ends(folder: string) | Fails(error: Kept) | Takes

  function Step(l: Lanes, op: LaneOp): Lanes {
    match op
    case Starts(folder, id) => if folder in l.running then l else Started(l, folder, id)
    case Marks(folder) => Marked(l, folder)
    case Ends(folder) => Removed(l, folder)
    case Fails(error) => WithError(l, error)
    case Takes => l.(kept := None)
  }

  function After(ops: seq<LaneOp>): (l: Lanes)
    ensures l.spawned <= l.running.Keys
  {
    if |ops| == 0 then NO_LANES else Step(After(ops[..|ops| - 1]), ops[|ops| - 1])
  }

  /** Some operation marked the folder while its lane ran, and that lane has not ended since. */
  ghost predicate MarkStands(ops: seq<LaneOp>, folder: string, i: nat) {
    && i < |ops| && ops[i] == Marks(folder) && folder in After(ops[..i]).running
    && Ends(folder) !in ops[i + 1..]
  }

  lemma StandsUntilEnded(ops: seq<LaneOp>, op: LaneOp, folder: string, i: nat)
    requires i < |ops|
    ensures MarkStands(ops + [op], folder, i) <==> MarkStands(ops, folder, i) && op != Ends(folder)
  {
    assert (ops + [op])[..i] == ops[..i] && (ops + [op])[i + 1..] == ops[i + 1..] + [op];
  }

  /**
   After any run a folder is marked exactly when it was marked while its lane ran and that very lane
   still runs: a mark left by an earlier lane of the folder never vouches for a later one.
   */
  lemma {:induction false} MarkedWhileItRan(ops: seq<LaneOp>, folder: string)
    ensures folder in After(ops).spawned <==> exists i: nat :: MarkStands(ops, folder, i)
  {
    if |ops| > 0 {
      var n := |ops| - 1;
      var before, op := ops[..n], ops[n];
      assert ops == before + [op];
      MarkedWhileItRan(before, folder);
      if op == Marks(folder) && folder in After(before).running {
        assert MarkStands(ops, folder, n);
      } else if folder in After(before).spawned && op != Ends(folder) {
        var i: nat :| MarkStands(before, folder, i);
        StandsUntilEnded(before, op, folder, i);
      }
      forall i: nat | MarkStands(ops, folder, i) ensures folder in After(ops).spawned {
        if i < n { StandsUntilEnded(before, op, folder, i); }
      }
    }
  }

  /** An error was left when none was kept, and none has been taken since. */
  ghost predicate ErrorStands(ops: seq<LaneOp>, error: Kept, i: nat) {
    && i < |ops| && ops[i] == Fails(error) && After(ops[..i]).kept.None? && Takes !in ops[i + 1..]
  }

  lemma StandsUntilTaken(ops: seq<LaneOp>, op: LaneOp, error: Kept, i: nat)
    requires i < |ops|
    ensures ErrorStands(ops + [op], error, i) <==> ErrorStands(ops, error, i) && op != Takes
  {
    assert (ops + [op])[..i] == ops[..i] && (ops + [op])[i + 1..] == ops[i + 1..] + [op];
  }

  /** What one more operation does to the kept error. */
  lemma KeptNext(before: seq<LaneOp>, op: LaneOp, error: Kept)
    ensures After(before + [op]).kept == Some(error) <==>
              (After(before).kept == Some(error) && op != Takes) || (After(before).kept.None? && op == Fails(error))
  {
    assert (before + [op])[..|before|] == before && (before + [op])[|before|] == op;
  }

  lemma StandsAtLast(before: seq<LaneOp>, op: LaneOp, error: Kept)
    ensures ErrorStands(before + [op], error, |before|) <==> After(before).kept.None? && op == Fails(error)
  {
    assert (before + [op])[..|before|] == before && (before + [op])[|before| + 1..] == [];
  }

  ghost predicate SomeStands(ops: seq<LaneOp>, error: Kept) {
    exists i: nat :: ErrorStands(ops, error, i)
  }

  lemma SomeStandsNext(before: seq<LaneOp>, op: LaneOp, error: Kept)
    ensures SomeStands(before + [op], error) <==>
              (SomeStands(before, error) && op != Takes) || (After(before).kept.None? && op == Fails(error))
  {
    StandsAtLast(before, op, error);
    if SomeStands(before, error) && op != Takes {
      var i: nat :| ErrorStands(before, error, i);
      StandsUntilTaken(before, op, error, i);
    }
    if SomeStands(before + [op], error) {
      var i: nat :| ErrorStands(before + [op], error, i);
      if i < |before| { StandsUntilTaken(before, op, error, i); }
    }
  }

  /** After any run the kept error is the first one left since the last was taken. */
  lemma {:induction false} FirstErrorKept(ops: seq<LaneOp>, error: Kept)
    ensures After(ops).kept == Some(error) <==> exists i: nat :: ErrorStands(ops, error, i)
  {
    if |ops| > 0 {
      var before, op := ops[..|ops| - 1], ops[|ops| - 1];
      assert ops == before + [op];
      FirstErrorKept(before, error);
      assert SomeStands(before, error) <==> After(before).kept == Some(error);
      KeptNext(before, op, error);
      SomeStandsNext(before, op, error);
      assert SomeStands(ops, error) <==> After(ops).kept == Some(error);
    }
  }

  // ---------- the table as an object

  class ChangeLanes {
    const cap: nat
    var running: map<string, nat>
    var spawned: set<string>
    var outcomes: seq<Ticket>
    var keptError: Option<Kept>
    var closed: bool

    ghost function Now(): Lanes
      reads this
    {
      Lanes(running, spawned, outcomes, keptError, closed)
    }

    /** A marked folder has a running lane. */
    ghost predicate Valid()
      reads this
    {
      spawned <= running.Keys
    }

    constructor (cap: Number)
      ensures Valid() && Now() == NO_LANES
      ensures cap.NotFinite? ==> this.cap == 1
      ensures cap.Finite? && cap.value < 2.0 ==> this.cap == 1
      ensures cap.Finite? && cap.value >= 1.0 ==> this.cap as real <= cap.value < this.cap as real + 1.0
    {
      var whole := if cap.Finite? then cap.value.Floor else 1;
      this.cap := if whole > 1 then whole else 1;
      running, spawned, outcomes, keptError, closed := map[], {}, [], None, false;
    }

    predicate IsRunning(folder: string)
      reads this
    {
      folder in running
    }

    function Count(): nat
      reads this
    {
      |running|
    }

    method MarkSpawned(folder: string)
      requires Valid()
      modifies `spawned
      ensures Valid() && Now() == Marked(old(Now()), folder)
      ensures folder in spawned <==> folder in running
      ensures forall other :: other != folder ==> (other in spawned <==> other in old(spawned))
    {
      if IsRunning(folder) { spawned := spawned + {folder}; }
    }

    method AllSpawned() returns (all: bool)
      ensures all <==> EverySpawned(Now())
    {
      var left := running.Keys;
      while left != {}
        invariant left <= running.Keys
        invariant forall f :: f in running && f !in left ==> f in spawned
        decreases |left|
      {
        var folder :| folder in left;
        if folder !in spawned { return false; }
        left := left - {folder};
      }
      return true;
    }

    method Close()
      modifies `closed
      ensures Now() == old(Now()).(closed := true)
    {
      closed := true;
    }

    /** A folder whose lane already runs keeps it. */
    method Start(folder: string, id: nat) returns (started: bool)
      modifies `running, `spawned
      requires Valid()
      ensures Valid() && (started <==> old(folder !in running))
      ensures Now() == if started then Started(old(Now()), folder, id) else old(Now())
    {
      if IsRunning(folder) { return false; }
      spawned := spawned - {folder};
      running := running[folder := id];
      return true;
    }

    method End(id: nat, outcome: LaneOutcome)
      modifies `outcomes
      ensures Now() == WithOutcome(old(Now()), Ticket(id, outcome))
    {
      outcomes := outcomes + [Ticket(id, outcome)];
    }

    method Fail(id: nat, error: BuildError)
      modifies `keptError
      ensures Now() == WithError(old(Now()), Kept(id, error))
      ensures keptError.Some? && (old(keptError.Some?) ==> keptError == old(keptError))
    {
      if keptError.None? { keptError := Some(Kept(id, error)); }
    }

    method Remove(folder: string) returns (idle: bool)
      requires Valid()
      modifies `running, `spawned
      ensures Valid() && Now() == Removed(old(Now()), folder)
      ensures idle <==> running == map[]
    {
      running := running - {folder};
      spawned := spawned - {folder};
      return |running| == 0;
    }

    method TakeOutcomes() returns (taken: seq<Ticket>)
      modifies `outcomes
      ensures taken == old(outcomes) && Now() == old(Now()).(outcomes := [])
    {
      taken := outcomes;
      outcomes := [];
    }

    method TakeError() returns (error: Option<Kept>)
      modifies `keptError
      ensures error == old(keptError) && Now() == old(Now()).(kept := None)
    {
      error := keptError;
      keptError := None;
    }
  }

  // ---------- the summary

  datatype Summary = Summary(tasksRun: nat, specsArchived: nat, blocked: seq<string>)

  const EMPTY_SUMMARY := Summary(0, 0, [])

  /** What a batch of outcomes adds up to. */
  function Total(tickets: seq<Ticket>): Summary {
    if |tickets| == 0 then EMPTY_SUMMARY
    else
      var before := Total(tickets[..|tickets| - 1]);
      var last := tickets[|tickets| - 1].outcome;
      Summary(before.tasksRun + last.tasksRun, before.specsArchived + last.specsArchived, before.blocked + last.blocked)
  }

  lemma TotalNext(tickets: seq<Ticket>, ticket: Ticket)
    ensures var before, last := Total(tickets), ticket.outcome;
            Total(tickets + [ticket])
            == Summary(before.tasksRun + last.tasksRun, before.specsArchived + last.specsArchived, before.blocked + last.blocked)
  {
    assert (tickets + [ticket])[..|tickets|] == tickets;
  }

  method CollectLaneOutcomes(tickets: seq<Ticket>, drained: seq<Ticket>, summary: Summary) returns (total: Summary)
    requires summary == Total(drained)
    ensures total == Total(drained + tickets)
  {
    total := summary;
    assert drained + tickets[..0] == drained;
    for i := 0 to |tickets|
      invariant total == Total(drained + tickets[..i])
    {
      var outcome := tickets[i].outcome;
      assert drained + tickets[..i + 1] == (drained + tickets[..i]) + [tickets[i]];
      TotalNext(drained + tickets[..i], tickets[i]);
      total := Summary(total.tasksRun + outcome.tasksRun, total.specsArchived + outcome.specsArchived,
                       total.blocked + outcome.blocked);
    }
    assert tickets[..|tickets|] == tickets;
  }
}
