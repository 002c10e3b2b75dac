/**
 The continuous watcher as a transition system. One cycle handler starts lanes and looks for a new
 build; lane bodies move on their own between awaits; a signal may stop the watcher at any moment.
 Every stretch between two awaits is one step, so a run is any sequence of steps.
 */
module ContinuousMode {
  import opened Wrappers
  import opened ChangeLanes

  /**
   Where a lane's body stands: awaiting the scope audit, having found the lanes closed at its very
   start, between the second closed check and the spawn, past the spawn, or ended.
   */
  datatype Phase = Auditing | Refusing | Preparing | Spawned | Ended

  /** Where a lane's one result is: still in its body, or at an index of one of the three lists. */
  datatype Place = InBody(folder: string) | Queued(at: nat) | Drained(at: nat) | Errored(at: nat)

  /** Where the cycle handler stands; every one but Idle is a cycle in flight. */
  datatype Handler =
    | Idle
    | Checking
    | Cycling
    | Waiting(folder: string)
    | Rechecking(folder: string)
    | Stopping

  /**
   `ever` are the lanes that ever spawned a task; `foundAtTop` holds once the check at the top of a
   cycle found a build to stop for; `exited` once the process was told to exit for a build.
   */
  datatype State = State(
    lanes: Lanes,
    phases: seq<Phase>,
    places: seq<Place>,
    drained: seq<Ticket>,
    errored: seq<Kept>,
    handler: Handler,
    stopped: bool,
    foundAtTop: bool,
    exited: bool,
    ever: set<nat>)

  datatype Check = Fresh | Found(error: BuildError)

  datatype Result = Outcome(outcome: LaneOutcome) | Error(error: BuildError)

  datatype HandlerAct =
    | Begin(buildCheck: bool)
    | CheckEnds(check: Check)
    | Visit(folder: string)
    | SlotFrees
    | RecheckThrows(error: BuildError)
    | GivesUp
    | Launches
    | CycleThrows(error: BuildError)
    | CycleEnds
    | AllLanesEnd

  datatype LaneAct =
    | AuditEnds(blocked: bool, outcome: LaneOutcome)
    | Spawns
    | BodyEnds(result: Result)
    | Leaves

  datatype Action = OfHandler(act: HandlerAct) | OfLane(folder: string, move: LaneAct) | Signal

  const FIRST := State(NO_LANES, [], [], [], [], Idle, false, false, false, {})

  predicate Running(s: State, folder: string, phase: Phase) {
    && folder in s.lanes.running
    && s.lanes.running[folder] < |s.phases|
    && s.phases[s.lanes.running[folder]] == phase
  }

  // ---------- the steps

  predicate HandlerMay(s: State, act: HandlerAct, cap: nat) {
    match act
    case Begin(_) => s.handler.Idle? && !s.stopped
    case CheckEnds(_) => s.handler.Checking?
    case Visit(folder) => s.handler.Cycling? && folder !in s.lanes.running
    case SlotFrees => s.handler.Waiting? && |s.lanes.running| < cap
    case RecheckThrows(_) => s.handler.Rechecking?
    case GivesUp => s.handler.Rechecking?
    case Launches => s.handler.Rechecking? && s.handler.folder !in s.lanes.running
    case CycleThrows(_) => s.handler.Cycling?
    case CycleEnds => s.handler.Cycling?
    case AllLanesEnd => s.handler.Stopping? && s.lanes.running == map[]
  }

  predicate LaneMay(s: State, folder: string, move: LaneAct) {
    match move
    case AuditEnds(_, _) => Running(s, folder, Auditing)
    case Spawns => Running(s, folder, Preparing)
    case BodyEnds(result) =>
      || (Running(s, folder, Refusing) && result == Outcome(NOTHING))
      || (Running(s, folder, Auditing) && result.Error?)
      || Running(s, folder, Preparing)
      || Running(s, folder, Spawned)
    case Leaves => Running(s, folder, Ended)
  }

  predicate Enabled(s: State, a: Action, cap: nat) {
    match a
    case OfHandler(act) => HandlerMay(s, act, cap)
    case OfLane(folder, move) => LaneMay(s, folder, move)
    case Signal => true
  }

  function HandlerNext(s: State, act: HandlerAct, cap: nat): State
    requires HandlerMay(s, act, cap)
  {
    match act
    case Begin(buildCheck) => if buildCheck && EverySpawned(s.lanes) then s.(handler := Checking) else Enter(s)
    case CheckEnds(check) => if check.Fresh? then Enter(s) else ThrowAtTop(s, check.error)
    case Visit(folder) => s.(handler := Waiting(folder))
    case SlotFrees => s.(handler := if s.lanes.closed then Cycling else Rechecking(s.handler.folder))
    case RecheckThrows(error) => Throw(s, error)
    case GivesUp => s.(handler := Cycling)
    case Launches => Launch(s, s.handler.folder)
    case CycleThrows(error) => Throw(s, error)
    case CycleEnds => TakeFault(Drain(s))
    case AllLanesEnd => s.(handler := Idle, stopped := true, exited := true)
  }

  function LaneNext(s: State, folder: string, move: LaneAct): State
    requires LaneMay(s, folder, move)
  {
    match move
    case AuditEnds(blocked, outcome) =>
      if blocked then EndBody(s, folder, Outcome(outcome.(tasksRun := 0)))
      else if s.lanes.closed then EndBody(s, folder, Outcome(NOTHING))
      else MoveTo(s, folder, Preparing)
    case Spawns => Spawn(s, folder)
    case BodyEnds(result) => EndBody(s, folder, result)
    case Leaves => Leave(s, folder)
  }

  function Next(s: State, a: Action, cap: nat): State
    requires Enabled(s, a, cap)
  {
    match a
    case OfHandler(act) => HandlerNext(s, act, cap)
    case OfLane(folder, move) => LaneNext(s, folder, move)
    case Signal => Stop(s)
  }

  function Stop(s: State): State {
    s.(stopped := true, lanes := s.lanes.(closed := true))
  }

  function ThrowAtTop(s: State, error: BuildError): State {
    Throw(s, error).(foundAtTop := s.foundAtTop || error.Stale?)
  }

  /** An error out of a cycle: a wait ends the cycle, a stop closes the lanes and waits for all of them. */
  function Throw(s: State, error: BuildError): State {
    if error.Wait? then s.(handler := Idle) else s.(handler := Stopping, lanes := s.lanes.(closed := true))
  }

  /** A kept lane error is rethrown at the start of a cycle and at its end. */
  function TakeFault(s: State): State {
    if s.lanes.kept.None? then s.(handler := Idle)
    else Throw(s.(lanes := s.lanes.(kept := None)), s.lanes.kept.value.error)
  }

  function Enter(s: State): State {
    if s.lanes.kept.None? then s.(handler := Cycling) else TakeFault(s)
  }

  /** The lane's body runs at once up to its first await, so it sees whether the lanes are closed. */
  function Launch(s: State, folder: string): State
    requires folder !in s.lanes.running
  {
    s.(handler := Cycling,
       lanes := Started(s.lanes, folder, |s.phases|),
       phases := s.phases + [if s.lanes.closed then Refusing else Auditing],
       places := s.places + [InBody(folder)])
  }

  function MoveTo(s: State, folder: string, phase: Phase): State
    requires folder in s.lanes.running && s.lanes.running[folder] < |s.phases|
  {
    s.(phases := s.phases[s.lanes.running[folder] := phase])
  }

  function Spawn(s: State, folder: string): State
    requires folder in s.lanes.running && s.lanes.running[folder] < |s.phases|
  {
    MoveTo(s, folder, Spawned).(lanes := Marked(s.lanes, folder), ever := s.ever + {s.lanes.running[folder]})
  }

  function Leave(s: State, folder: string): State {
    s.(lanes := Removed(s.lanes, folder))
  }

  function EndBody(s: State, folder: string, result: Result): State
    requires folder in s.lanes.running && s.lanes.running[folder] < |s.phases|
  {
    var id := s.lanes.running[folder];
    var moved := MoveTo(s, folder, Ended);
    match result
    case Outcome(outcome) =>
      moved.(lanes := WithOutcome(s.lanes, Ticket(id, outcome)), places := Put(s.places, id, Queued(|s.lanes.outcomes|)))
    case Error(error) =>
      moved.(lanes := WithError(s.lanes, Kept(id, error)), errored := s.errored + [Kept(id, error)],
             places := Put(s.places, id, Errored(|s.errored|)))
  }

  function Put(places: seq<Place>, id: nat, place: Place): seq<Place> {
    if id < |places| then places[id := place] else places
  }

  function Drain(s: State): State {
    s.(lanes := s.lanes.(outcomes := []),
       drained := s.drained + s.lanes.outcomes,
       places := seq(|s.places|, i requires 0 <= i < |s.places| =>
           if s.places[i].Queued? then Place.Drained(|s.drained| + s.places[i].at) else s.places[i]))
  }

  // ---------- what every reachable state keeps

  /** The table: lanes are numbered, distinct, within the cap, and marked once they spawned. */
  ghost predicate Table(s: State, cap: nat) {
    var l := s.lanes;
    && |s.places| == |s.phases|
    && |l.running| <= cap
    && (forall f :: f in l.running ==> l.running[f] < |s.phases|)
    && (forall f, g :: f in l.running && g in l.running && l.running[f] == l.running[g] ==> f == g)
    && l.spawned <= l.running.Keys
    && (forall f :: Running(s, f, Spawned) ==> f in l.spawned)
    && (forall f :: f in l.spawned ==> Running(s, f, Spawned) || Running(s, f, Ended))
    && (s.handler.Waiting? ==> s.handler.folder !in l.running)
    && (s.handler.Rechecking? ==> s.handler.folder !in l.running && |l.running| < cap)
  }

  /** Each lane's result is in exactly one place, and each place holds one lane's result. */
  ghost predicate Conserved(s: State) {
    var l := s.lanes;
    && |s.places| == |s.phases|
    && (forall id :: 0 <= id < |s.places| ==>
                       match s.places[id]
                       case InBody(f) => f in l.running && l.running[f] == id && !s.phases[id].Ended?
                       case Queued(k) => s.phases[id].Ended? && k < |l.outcomes| && l.outcomes[k].id == id
                       case Drained(k) => s.phases[id].Ended? && k < |s.drained| && s.drained[k].id == id
                       case Errored(k) => s.phases[id].Ended? && k < |s.errored| && s.errored[k].id == id)
    && (forall f :: f in l.running && l.running[f] < |s.phases| && !s.phases[l.running[f]].Ended? ==>
                      s.places[l.running[f]] == InBody(f))
    && (forall k :: 0 <= k < |l.outcomes| ==> l.outcomes[k].id < |s.places| && s.places[l.outcomes[k].id] == Queued(k))
    && (forall k :: 0 <= k < |s.drained| ==> s.drained[k].id < |s.places| && s.places[s.drained[k].id] == Place.Drained(k))
    && (forall k :: 0 <= k < |s.errored| ==> s.errored[k].id < |s.places| && s.places[s.errored[k].id] == Errored(k))
  }

  /** No running lane can still reach its spawn. */
  ghost predicate NoneOnItsWay(s: State) {
    forall f :: f in s.lanes.running ==> Running(s, f, Spawned) || Running(s, f, Ended)
  }

  /** A lane that ever spawned was launched, so a lane still to be launched has not. */
  ghost predicate OnlyLaunchedSpawned(s: State) {
    forall id :: id in s.ever ==> id < |s.phases|
  }

  ghost predicate Protocol(s: State) {
    && (s.handler.Checking? ==> EverySpawned(s.lanes))
    && (s.handler.Stopping? ==> s.lanes.closed)
    && (s.stopped ==> s.lanes.closed)
    && (s.exited ==> s.stopped && s.handler.Idle? && s.lanes.running == map[])
    && (s.foundAtTop ==> s.lanes.closed && NoneOnItsWay(s) && (s.handler.Stopping? || (s.handler.Idle? && s.stopped)))
  }

  ghost predicate Inv(s: State, cap: nat) {
    Table(s, cap) && Conserved(s) && Protocol(s) && OnlyLaunchedSpawned(s)
  }

  /** Neither a signal nor a move of the handler alone touches a lane or its result. */
  ghost predicate SameLanes(s: State, t: State) {
    && t.phases == s.phases && t.places == s.places && t.drained == s.drained && t.errored == s.errored
    && t.lanes.running == s.lanes.running && t.lanes.spawned == s.lanes.spawned && t.lanes.outcomes == s.lanes.outcomes
    && (s.lanes.closed ==> t.lanes.closed)
  }

  lemma SameLanesKeep(s: State, t: State, cap: nat)
    requires Table(s, cap) && Conserved(s) && SameLanes(s, t)
    requires MayStand(s, t.handler, cap)
    ensures Table(t, cap) && Conserved(t)
    ensures NoneOnItsWay(s) ==> NoneOnItsWay(t)
  {
  }

  lemma LaunchKeepsTable(s: State, f: string, cap: nat)
    requires Table(s, cap) && f !in s.lanes.running && |s.lanes.running| < cap
    ensures Table(Launch(s, f), cap)
  {
  }

  lemma LaunchKeepsConserved(s: State, f: string, cap: nat)
    requires Table(s, cap) && Conserved(s) && f !in s.lanes.running
    ensures Conserved(Launch(s, f))
  {
  }

  /** A step of one lane leaves every other lane where it stands. */
  lemma MovesOnlyItsLane(s: State, f: string, phase: Phase, cap: nat)
    requires Table(s, cap) && f in s.lanes.running
    ensures Running(MoveTo(s, f, phase), f, phase)
    ensures forall g, p :: g != f ==> (Running(MoveTo(s, f, phase), g, p) <==> Running(s, g, p))
  {
  }

  lemma MoveKeepsTable(s: State, f: string, phase: Phase, cap: nat)
    requires Table(s, cap) && f in s.lanes.running
    requires phase == Spawned ==> f in s.lanes.spawned
    requires f in s.lanes.spawned ==> phase == Spawned || phase == Ended
    ensures Table(MoveTo(s, f, phase), cap)
  {
    MovesOnlyItsLane(s, f, phase, cap);
  }

  lemma MoveKeepsConserved(s: State, f: string, phase: Phase, cap: nat)
    requires Table(s, cap) && Conserved(s) && f in s.lanes.running && !Running(s, f, Ended)
    requires phase != Ended
    ensures Conserved(MoveTo(s, f, phase))
  {
  }

  lemma EndKeepsTable(s: State, f: string, result: Result, cap: nat)
    requires Table(s, cap) && f in s.lanes.running
    ensures Table(EndBody(s, f, result), cap)
  {
    MoveKeepsTable(s, f, Ended, cap);
    SameTable(MoveTo(s, f, Ended), EndBody(s, f, result), cap);
  }

  lemma SameTable(s: State, t: State, cap: nat)
    requires Table(s, cap) && t.phases == s.phases && |t.places| == |s.places| && t.handler == s.handler
    requires t.lanes.running == s.lanes.running && t.lanes.spawned == s.lanes.spawned
    ensures Table(t, cap)
  {
    assert forall g, p :: Running(t, g, p) <==> Running(s, g, p);
  }

  lemma OutcomeKeepsConserved(s: State, f: string, outcome: LaneOutcome, cap: nat)
    requires Table(s, cap) && Conserved(s) && f in s.lanes.running && !Running(s, f, Ended)
    ensures Conserved(EndBody(s, f, Outcome(outcome)))
  {
    assert s.places[s.lanes.running[f]] == InBody(f);
  }

  lemma ErrorKeepsConserved(s: State, f: string, error: BuildError, cap: nat)
    requires Table(s, cap) && Conserved(s) && f in s.lanes.running && !Running(s, f, Ended)
    ensures Conserved(EndBody(s, f, Error(error)))
  {
    var t := EndBody(s, f, Error(error));
    var id := s.lanes.running[f];
    assert s.places[id] == InBody(f);
    assert t.lanes.running == s.lanes.running && t.lanes.outcomes == s.lanes.outcomes && t.drained == s.drained;
    assert t.places == s.places[id := Errored(|s.errored|)] && t.phases == s.phases[id := Ended];
  }

  lemma DrainKeepsTable(s: State, cap: nat)
    requires Table(s, cap)
    ensures Table(Drain(s), cap)
  {
    assert forall g, p :: Running(Drain(s), g, p) <==> Running(s, g, p);
  }

  lemma DrainKeepsConserved(s: State)
    requires Conserved(s)
    ensures Conserved(Drain(s))
  {
  }

  lemma LeavingKeepsTable(s: State, f: string, cap: nat)
    requires Table(s, cap) && Running(s, f, Ended)
    ensures Table(Leave(s, f), cap)
  {
    assert forall g, p :: Running(Leave(s, f), g, p) <==> g != f && Running(s, g, p);
  }

  lemma LeavingKeepsConserved(s: State, f: string, cap: nat)
    requires Table(s, cap) && Conserved(s) && Running(s, f, Ended)
    ensures Conserved(Leave(s, f))
  {
  }

  predicate MayStand(s: State, handler: Handler, cap: nat) {
    || handler == s.handler || handler.Idle? || handler.Checking? || handler.Cycling? || handler.Stopping?
    || (handler.Waiting? && handler.folder !in s.lanes.running)
    || (handler.Rechecking? && handler.folder !in s.lanes.running && |s.lanes.running| < cap)
  }

  lemma ThrowMoves(s: State, error: BuildError)
    ensures SameLanes(s, Throw(s, error)) && (Throw(s, error).handler.Idle? || Throw(s, error).handler.Stopping?)
  {
  }

  lemma EnterMoves(s: State)
    ensures SameLanes(s, Enter(s))
    ensures Enter(s).handler.Idle? || Enter(s).handler.Stopping? || Enter(s).handler.Cycling?
    ensures Enter(s).handler.Stopping? ==> Enter(s).lanes.closed
    ensures Enter(s).stopped == s.stopped && Enter(s).exited == s.exited && Enter(s).foundAtTop == s.foundAtTop
  {
  }

  lemma HandlerMoves(s: State, act: HandlerAct, cap: nat)
    requires s.handler.Waiting? ==> s.handler.folder !in s.lanes.running
    requires HandlerMay(s, act, cap) && !act.CycleEnds? && !act.Launches?
    ensures SameLanes(s, HandlerNext(s, act, cap)) && MayStand(s, HandlerNext(s, act, cap).handler, cap)
  {
    match act {
      case Begin(_) => EnterMoves(s);
      case CheckEnds(check) =>
        EnterMoves(s);
        if check.Found? { ThrowMoves(s, check.error); }
      case RecheckThrows(error) => ThrowMoves(s, error);
      case CycleThrows(error) => ThrowMoves(s, error);
      case other =>
    }
  }

  lemma TakeFaultKeeps(s: State, cap: nat)
    requires Table(s, cap) && Conserved(s)
    ensures Table(TakeFault(s), cap) && Conserved(TakeFault(s))
  {
    if s.lanes.kept.Some? {
      ThrowMoves(s.(lanes := s.lanes.(kept := None)), s.lanes.kept.value.error);
    }
    SameLanesKeep(s, TakeFault(s), cap);
  }

  lemma CycleEndKeeps(s: State, cap: nat)
    requires Table(s, cap) && Conserved(s)
    ensures Table(TakeFault(Drain(s)), cap) && Conserved(TakeFault(Drain(s)))
  {
    DrainKeepsTable(s, cap);
    DrainKeepsConserved(s);
    TakeFaultKeeps(Drain(s), cap);
  }

  lemma HandlerStepKeeps(s: State, act: HandlerAct, cap: nat)
    requires Inv(s, cap) && HandlerMay(s, act, cap)
    ensures Table(HandlerNext(s, act, cap), cap) && Conserved(HandlerNext(s, act, cap))
  {
    if act.Launches? {
      LaunchKeepsTable(s, s.handler.folder, cap);
      LaunchKeepsConserved(s, s.handler.folder, cap);
    } else if act.CycleEnds? {
      CycleEndKeeps(s, cap);
    } else {
      HandlerMoves(s, act, cap);
      SameLanesKeep(s, HandlerNext(s, act, cap), cap);
    }
  }

  lemma SpawnKeepsTable(s: State, f: string, cap: nat)
    requires Table(s, cap) && Running(s, f, Preparing)
    ensures Table(Spawn(s, f), cap)
  {
    MovesOnlyItsLane(s, f, Spawned, cap);
    assert forall g, p :: Running(Spawn(s, f), g, p) <==> Running(MoveTo(s, f, Spawned), g, p);
  }

  lemma SpawnKeepsConserved(s: State, f: string, cap: nat)
    requires Table(s, cap) && Conserved(s) && Running(s, f, Preparing)
    ensures Conserved(Spawn(s, f))
  {
    MoveKeepsConserved(s, f, Spawned, cap);
  }

  lemma EndKeeps(s: State, f: string, result: Result, cap: nat)
    requires Table(s, cap) && Conserved(s) && f in s.lanes.running && !Running(s, f, Ended)
    ensures Table(EndBody(s, f, result), cap) && Conserved(EndBody(s, f, result))
  {
    EndKeepsTable(s, f, result, cap);
    match result {
      case Outcome(outcome) => OutcomeKeepsConserved(s, f, outcome, cap);
      case Error(error) => ErrorKeepsConserved(s, f, error, cap);
    }
  }

  lemma LaneStepKeeps(s: State, f: string, move: LaneAct, cap: nat)
    requires Inv(s, cap) && LaneMay(s, f, move)
    ensures Table(LaneNext(s, f, move), cap) && Conserved(LaneNext(s, f, move))
  {
    match move {
      case AuditEnds(blocked, outcome) =>
        if blocked {
          EndKeeps(s, f, Outcome(outcome.(tasksRun := 0)), cap);
        } else if s.lanes.closed {
          EndKeeps(s, f, Outcome(NOTHING), cap);
        } else {
          MoveKeepsTable(s, f, Preparing, cap);
          MoveKeepsConserved(s, f, Preparing, cap);
        }
      case Spawns =>
        SpawnKeepsTable(s, f, cap);
        SpawnKeepsConserved(s, f, cap);
      case BodyEnds(result) => EndKeeps(s, f, result, cap);
      case Leaves =>
        LeavingKeepsTable(s, f, cap);
        LeavingKeepsConserved(s, f, cap);
    }
  }

  lemma HandlerStepKeepsProtocol(s: State, act: HandlerAct, cap: nat)
    requires Table(s, cap) && Protocol(s) && HandlerMay(s, act, cap)
    ensures Protocol(HandlerNext(s, act, cap))
  {
    if s.foundAtTop {
      assert act.AllLanesEnd?;
    } else {
      match act {
        case Begin(_) => EnterMoves(s);
        case CheckEnds(check) =>
          EnterMoves(s);
          assert NoneOnItsWay(s);
          if check.Found? { SameLanesKeepNone(s, ThrowAtTop(s, check.error)); }
        case other =>
      }
    }
  }

  lemma SameLanesKeepNone(s: State, t: State)
    requires t.phases == s.phases && t.lanes.running == s.lanes.running && NoneOnItsWay(s)
    ensures NoneOnItsWay(t)
  {
    assert forall g, p :: Running(t, g, p) <==> Running(s, g, p);
  }

  lemma EndingLeavesNoneOnItsWay(s: State, f: string, result: Result, cap: nat)
    requires Table(s, cap) && f in s.lanes.running && NoneOnItsWay(s)
    ensures NoneOnItsWay(EndBody(s, f, result))
  {
    MovesOnlyItsLane(s, f, Ended, cap);
    assert forall g, p :: Running(EndBody(s, f, result), g, p) <==> Running(MoveTo(s, f, Ended), g, p);
  }

  lemma LaneStepKeepsProtocol(s: State, f: string, move: LaneAct, cap: nat)
    requires Table(s, cap) && Protocol(s) && LaneMay(s, f, move)
    ensures Protocol(LaneNext(s, f, move))
  {
    assert f in s.lanes.running;
    if s.foundAtTop {
      match move {
        case BodyEnds(result) => EndingLeavesNoneOnItsWay(s, f, result, cap);
        case Leaves => assert forall g, p :: Running(Leave(s, f), g, p) <==> g != f && Running(s, g, p);
        case AuditEnds(_, _) => assert false;
        case Spawns => assert false;
      }
    }
  }

  lemma LaneStepKeepsLaunched(s: State, f: string, move: LaneAct)
    requires LaneMay(s, f, move) && OnlyLaunchedSpawned(s)
    ensures OnlyLaunchedSpawned(LaneNext(s, f, move))
  {
  }

  lemma HandlerStepKeepsLaunched(s: State, act: HandlerAct, cap: nat)
    requires HandlerMay(s, act, cap) && OnlyLaunchedSpawned(s)
    ensures OnlyLaunchedSpawned(HandlerNext(s, act, cap))
  {
  }

  lemma StepKeeps(s: State, a: Action, cap: nat)
    requires Inv(s, cap) && Enabled(s, a, cap)
    ensures Inv(Next(s, a, cap), cap)
  {
    match a {
      case OfHandler(act) =>
        HandlerStepKeeps(s, act, cap);
        HandlerStepKeepsProtocol(s, act, cap);
        HandlerStepKeepsLaunched(s, act, cap);
      case OfLane(folder, move) =>
        LaneStepKeeps(s, folder, move, cap);
        LaneStepKeepsProtocol(s, folder, move, cap);
        LaneStepKeepsLaunched(s, folder, move);
      case Signal =>
        SameLanesKeep(s, Stop(s), cap);
    }
  }

  // ---------- whole runs

  ghost predicate Runs(s: State, acts: seq<Action>, t: State, cap: nat)
    decreases |acts|
  {
    if acts == [] then s == t
    else Enabled(s, acts[0], cap) && Runs(Next(s, acts[0], cap), acts[1..], t, cap)
  }

  lemma {:induction false} RunsKeep(s: State, acts: seq<Action>, t: State, cap: nat)
    requires Inv(s, cap) && Runs(s, acts, t, cap)
    ensures Inv(t, cap)
    decreases |acts|
  {
    if acts != [] {
      StepKeeps(s, acts[0], cap);
      RunsKeep(Next(s, acts[0], cap), acts[1..], t, cap);
    }
  }

  /**
   In every reachable state the cap holds, no folder has two lanes, every lane ever started has its
   result in exactly one place, and the process exited for a build only once no lane ran.
   */
  lemma ReachableStates(acts: seq<Action>, t: State, cap: nat)
    requires Runs(FIRST, acts, t, cap)
    ensures |t.lanes.running| <= cap
    ensures forall f, g :: f in t.lanes.running && g in t.lanes.running && t.lanes.running[f] == t.lanes.running[g] ==> f == g
    ensures Conserved(t)
    ensures t.exited ==> t.lanes.running == map[] && t.lanes.closed
  {
    RunsKeep(FIRST, acts, t, cap);
  }

  /** The lanes that passed their last closed check and have not spawned yet. */
  ghost predicate OnItsWay(s: State, id: nat) {
    id < |s.phases| && s.phases[id] == Preparing
  }

  ghost predicate SpawnsOnlyOnItsWay(s: State, t: State) {
    && t.lanes.closed
    && (forall id :: OnItsWay(t, id) ==> OnItsWay(s, id))
    && (forall id :: id in t.ever ==> id in s.ever || OnItsWay(s, id))
  }

  lemma QuietStep(s: State, t: State)
    requires t.phases == s.phases && t.ever == s.ever && t.lanes.closed
    ensures SpawnsOnlyOnItsWay(s, t)
  {
  }

  lemma ClosedLaunch(s: State, folder: string)
    requires folder !in s.lanes.running && s.lanes.closed
    ensures SpawnsOnlyOnItsWay(s, Launch(s, folder)) && !OnItsWay(Launch(s, folder), |s.phases|)
  {
  }

  lemma ClosedHandlerStep(s: State, act: HandlerAct, cap: nat)
    requires HandlerMay(s, act, cap) && s.lanes.closed
    ensures SpawnsOnlyOnItsWay(s, HandlerNext(s, act, cap))
  {
    if act.Launches? { ClosedLaunch(s, s.handler.folder); } else { QuietStep(s, HandlerNext(s, act, cap)); }
  }

  lemma ClosedLaneStep(s: State, f: string, move: LaneAct)
    requires LaneMay(s, f, move) && s.lanes.closed
    ensures SpawnsOnlyOnItsWay(s, LaneNext(s, f, move))
  {
  }

  /** Once the lanes are closed, only a lane already on its way can still spawn. */
  lemma {:induction false} ClosedLanesSpawnNothing(s: State, acts: seq<Action>, t: State, cap: nat)
    requires Inv(s, cap) && Runs(s, acts, t, cap) && s.lanes.closed
    ensures SpawnsOnlyOnItsWay(s, t)
    decreases |acts|
  {
    if acts != [] {
      StepKeeps(s, acts[0], cap);
      match acts[0] {
        case OfHandler(act) => ClosedHandlerStep(s, act, cap);
        case OfLane(folder, move) => ClosedLaneStep(s, folder, move);
        case Signal => assert SpawnsOnlyOnItsWay(s, Stop(s));
      }
      ClosedLanesSpawnNothing(Next(s, acts[0], cap), acts[1..], t, cap);
    }
  }

  lemma NoLaneOnItsWay(s: State, id: nat, cap: nat)
    requires Inv(s, cap) && NoneOnItsWay(s)
    ensures !OnItsWay(s, id)
  {
    if id < |s.phases| && s.places[id].InBody? {
      assert Running(s, s.places[id].folder, s.phases[id]);
    }
  }

  /** A stop found by the check at the top of a cycle is never followed by a spawn. */
  lemma TopStopSpawnsNothing(before: seq<Action>, s: State, acts: seq<Action>, t: State, cap: nat)
    requires Runs(FIRST, before, s, cap) && s.foundAtTop
    requires Runs(s, acts, t, cap)
    ensures forall id :: id in t.ever ==> id in s.ever
  {
    RunsKeep(FIRST, before, s, cap);
    ClosedLanesSpawnNothing(s, acts, t, cap);
    forall id | 0 <= id < |s.phases| ensures !OnItsWay(s, id) { NoLaneOnItsWay(s, id, cap); }
  }

  /** A lane launched while the lanes are closed spawns nothing, in any run from the first state. */
  lemma RefusedLaneSpawnsNothing(before: seq<Action>, s: State, acts: seq<Action>, t: State, cap: nat)
    requires Runs(FIRST, before, s, cap) && s.handler.Rechecking? && s.lanes.closed
    requires Enabled(s, OfHandler(Launches), cap) && Runs(Next(s, OfHandler(Launches), cap), acts, t, cap)
    ensures |s.phases| !in t.ever
  {
    RunsKeep(FIRST, before, s, cap);
    StepKeeps(s, OfHandler(Launches), cap);
    ClosedLaunch(s, s.handler.folder);
    ClosedLanesSpawnNothing(Launch(s, s.handler.folder), acts, t, cap);
  }
}
