/**
 The scenario test helper: a test passes only when the covered function ran and every outcome was
 asserted by a check that completed after a call settled. The test body, the calls it makes and the
 asynchronous checks it leaves running move in any order, so a test is any sequence of steps.
 */
module ScenarioHelper {
  import opened Wrappers

  type Row = map<string, string>

  /** One THEN of the scenario; with a table it has rows. */
  datatype Outcome = Outcome(text: string, rows: Option<seq<Row>>)

  datatype Status = Running | Completed | Rejected

  /** A tracked check: `seen` are the rows whose check passed so far, in the order they were checked. */
  datatype Check = Check(outcome: Outcome, seen: seq<Row>, status: Status)

  /** A completed assertion: the rows it checked, and how many calls had started and settled by then. */
  datatype Completion = Completion(text: string, rows: Option<seq<Row>>, started: nat, settled: nat)

  datatype Phase = InBody | Looking | Awaiting | Drained | Passed | Failed(why: Why)

  datatype Why = BodyThrew | CheckRejected(id: nat) | NeverRan | Unasserted

  /** How a check passed to `then` ends when it is called. */
  datatype Called = Returns | Throws | Promises

  datatype Action =
    | Call(asynchronous: bool, throws: bool)
    | CallSettles
    | Then(text: string, called: Called)
    | ThenEnds(id: nat, ok: bool)
    | Each(text: string)
    | RowEnds(id: nat, ok: bool)
    | RowsEnd(id: nat)
    | BodyEnds(threw: bool)
    | DrainLooks
    | DrainResumes
    | TestEnds

  function Find(outcomes: seq<Outcome>, text: string): Option<Outcome> {
    if outcomes == [] then None
    else if outcomes[0].text == text then Some(outcomes[0])
    else Find(outcomes[1..], text)
  }

  predicate AllSeen(c: Check) {
    c.outcome.rows.Some? ==> |c.seen| == |c.outcome.rows.value|
  }

  class Scenario {
    const outcomes: seq<Outcome>
    var started: nat
    var settled: nat
    /** The asynchronous calls that have not settled yet. */
    var flying: nat
    var asserted: set<string>
    var failure: Option<nat>
    var pending: set<nat>
    /** The checks the drain waits for at the moment. */
    var awaited: set<nat>
    var phase: Phase
    var threw: bool
    /** How many checks had been tracked when the drain found nothing more to wait for. */
    var drainedAt: nat
    /** Every check ever tracked, and every completed assertion, oldest first. */
    var checks: seq<Check>
    var log: seq<Completion>

    predicate Over()
      reads this
    {
      phase.Passed? || phase.Failed?
    }

    /** An assertion counts only for a THEN of the scenario, after a call settled, with its whole table in order. */
    ghost predicate Sound(c: Completion)
    {
      c.started >= 1 && c.settled >= 1 && Find(outcomes, c.text).Some? && c.rows == Find(outcomes, c.text).value.rows
    }

    ghost predicate ChecksSound()
      reads this
    {
      forall id :: 0 <= id < |checks| ==>
                     && Find(outcomes, checks[id].outcome.text) == Some(checks[id].outcome)
                     && (if checks[id].outcome.rows.Some? then checks[id].seen <= checks[id].outcome.rows.value
                         else checks[id].seen == [])
    }

    ghost predicate Valid()
      reads this
    {
      && settled + flying <= started
      && ChecksSound()
      && (forall id :: 0 <= id < |checks| && checks[id].status == Running ==> id in pending || id in awaited)
      && (failure.None? <==> forall id :: 0 <= id < |checks| ==> checks[id].status != Rejected)
      && (failure.Some? ==> failure.value < |checks| && checks[failure.value].status == Rejected)
      && (forall k :: 0 <= k < |log| ==> Sound(log[k]))
      && (forall t :: t in asserted ==> exists k :: 0 <= k < |log| && log[k].text == t)
      && (!phase.Awaiting? ==> awaited == {})
      && drainedAt <= |checks|
      && (phase.Drained? || phase.Passed? ==> forall id :: 0 <= id < drainedAt ==> checks[id].status != Running)
    }

    constructor (outcomes: seq<Outcome>)
      ensures Valid() && this.outcomes == outcomes && phase == InBody && started == 0 && checks == [] && log == []
    {
      this.outcomes := outcomes;
      started, settled, asserted, failure, pending, awaited := 0, 0, {}, None, {}, {};
      phase, threw, drainedAt, checks, log, flying := InBody, false, 0, [], [], 0;
    }

    method Call(asynchronous: bool, throws: bool)
      requires Valid()
      modifies `started, `settled, `flying
      ensures Valid() && started == old(started) + 1
      ensures settled == old(settled) + if asynchronous || throws then 0 else 1
    {
      started := started + 1;
      if throws { return; }
      if asynchronous { flying := flying + 1; } else { settled := settled + 1; }
    }

    /** Record an assertion; false stands for the error that no call had settled in time. */
    method Complete(outcome: Outcome, rows: Option<seq<Row>>) returns (ok: bool)
      requires Valid() && Find(outcomes, outcome.text) == Some(outcome) && rows == outcome.rows
      modifies `asserted, `log
      ensures Valid()
      ensures ok <==> settled > 0
      ensures if ok then asserted == old(asserted) + {outcome.text}
                         && log == old(log) + [Completion(outcome.text, rows, started, settled)]
              else asserted == old(asserted) && log == old(log)
    {
      if started == 0 || settled == 0 { return false; }
      asserted := asserted + {outcome.text};
      log := log + [Completion(outcome.text, rows, started, settled)];
      assert log[|log| - 1].text == outcome.text;
      assert forall k :: 0 <= k < |old(log)| ==> log[k] == old(log[k]);
      return true;
    }

    method Track(outcome: Outcome)
      requires Valid() && Find(outcomes, outcome.text) == Some(outcome)
      modifies `checks, `pending
      ensures Valid() && checks == old(checks) + [Check(outcome, [], Running)]
      ensures pending == old(pending) + {old(|checks|)}
    {
      pending := pending + {|checks|};
      checks := checks + [Check(outcome, [], Running)];
    }

    /** A tracked check's error is kept unless one was kept before. */
    method Reject(id: nat)
      requires Valid() && id < |checks| && checks[id].status == Running
      modifies `checks, `failure
      ensures Valid() && checks == old(checks)[id := old(checks)[id].(status := Rejected)]
      ensures failure == if old(failure).None? then Some(id) else old(failure)
    {
      checks := checks[id := checks[id].(status := Rejected)];
      assert checks[id].status == Rejected;
      if failure.None? { failure := Some(id); }
    }

    /** A running check moves on without failing. */
    method Advance(id: nat, c: Check)
      requires Valid() && id < |checks| && checks[id].status == Running
      requires c.outcome == checks[id].outcome && c.status != Rejected
      requires if c.outcome.rows.Some? then c.seen <= c.outcome.rows.value else c.seen == []
      modifies `checks
      ensures Valid() && checks == old(checks)[id := c]
    {
      ghost var was := checks;
      checks := checks[id := c];
      assert forall k :: 0 <= k < |checks| && k != id ==> checks[k] == was[k];
      assert failure.Some? ==> failure.value != id && checks[failure.value] == was[failure.value];
      assert ChecksSound();
      assert failure.None? ==> forall k :: 0 <= k < |checks| ==> checks[k].status != Rejected;
    }

    /** A tracked check's work ends well: it counts when a call had settled, and fails otherwise. */
    method Settle(id: nat)
      requires Valid() && id < |checks| && checks[id].status == Running && AllSeen(checks[id])
      modifies `checks, `failure, `asserted, `log
      ensures Valid()
      ensures |checks| == old(|checks|) && checks[id].status == if settled > 0 then Completed else Rejected
      ensures settled > 0 ==> failure == old(failure) && checks[id].outcome.text in asserted
    {
      var rows := if checks[id].outcome.rows.Some? then Some(checks[id].seen) else None;
      assert checks[id].outcome.rows.Some? ==> checks[id].seen == checks[id].outcome.rows.value;
      var ok := Complete(checks[id].outcome, rows);
      if ok { Advance(id, checks[id].(status := Completed)); } else { Reject(id); }
    }

    /** `then` throws into the body for an unknown text, a table, a failed check, or a call not settled. */
    method ThenCheck(text: string, called: Called) returns (thrown: bool)
      requires Valid()
      modifies `asserted, `log, `checks, `pending
      ensures Valid()
      ensures thrown <==> Find(outcomes, text).None? || Find(outcomes, text).value.rows.Some? || called.Throws?
                          || (called.Returns? && settled == 0)
      ensures !thrown && called.Returns? ==> text in asserted && checks == old(checks)
      ensures !thrown && called.Promises? ==> |checks| == old(|checks|) + 1 && asserted == old(asserted)
      ensures thrown ==> asserted == old(asserted) && checks == old(checks)
    {
      var found := Find(outcomes, text);
      FindText(outcomes, text);
      if found.None? { return true; }
      if found.value.rows.Some? { return true; }
      match called {
        case Throws => return true;
        case Returns =>
          var ok := Complete(found.value, None);
          return !ok;
        case Promises =>
          Track(found.value);
          return false;
      }
    }

    method EachCheck(text: string) returns (thrown: bool)
      requires Valid()
      modifies `checks, `pending
      ensures Valid()
      ensures thrown <==> Find(outcomes, text).None? || Find(outcomes, text).value.rows.None?
      ensures |checks| == old(|checks|) + if thrown then 0 else 1
    {
      var found := Find(outcomes, text);
      FindText(outcomes, text);
      if found.None? || found.value.rows.None? { return true; }
      Track(found.value);
      return false;
    }

    /** The next row's check ends: a failed one rejects the whole check. */
    method RowEnds(id: nat, ok: bool)
      requires Valid() && id < |checks| && checks[id].status == Running
      requires checks[id].outcome.rows.Some? && |checks[id].seen| < |checks[id].outcome.rows.value|
      modifies `checks, `failure
      ensures Valid() && |checks| == old(|checks|)
      ensures var was := old(checks)[id];
              checks == old(checks)[id := if !ok then was.(status := Rejected)
                                          else was.(seen := was.seen + [was.outcome.rows.value[|was.seen|]])]
    {
      if !ok {
        Reject(id);
        return;
      }
      var row := checks[id].outcome.rows.value[|checks[id].seen|];
      Advance(id, checks[id].(seen := checks[id].seen + [row]));
    }

    /** The drain takes every pending check at once, or ends when there is none. */
    method DrainLooks()
      requires Valid() && phase.Looking?
      modifies `pending, `awaited, `phase, `drainedAt
      ensures Valid()
      ensures phase.Drained? || phase.Awaiting?
      ensures phase.Drained? ==> forall id :: 0 <= id < |checks| ==> checks[id].status != Running
    {
      if pending == {} {
        phase, drainedAt := Drained, |checks|;
      } else {
        awaited, pending, phase := pending, {}, Awaiting;
      }
    }

    method DrainResumes()
      requires Valid() && phase.Awaiting? && forall id :: id in awaited && id < |checks| ==> checks[id].status != Running
      modifies `awaited, `phase
      ensures Valid() && phase.Looking?
    {
      awaited, phase := {}, Looking;
    }

    method Finish()
      requires Valid() && phase.Drained?
      modifies `phase
      ensures Valid()
      ensures phase == if threw then Failed(BodyThrew)
                       else if failure.Some? then Failed(CheckRejected(failure.value))
                       else if started == 0 then Failed(NeverRan)
                       else if exists o :: o in outcomes && o.text !in asserted then Failed(Unasserted)
                       else Passed
    {
      if threw { phase := Failed(BodyThrew); return; }
      if failure.Some? { phase := Failed(CheckRejected(failure.value)); return; }
      if started == 0 { phase := Failed(NeverRan); return; }
      for i := 0 to |outcomes|
        invariant phase.Drained? && forall j :: 0 <= j < i ==> outcomes[j].text in asserted
      {
        if outcomes[i].text !in asserted { phase := Failed(Unasserted); return; }
      }
      phase := Passed;
    }

    /** One step of a call or a check; a step that is not possible now changes nothing. */
    method WorkStep(a: Action)
      requires Valid()
      modifies `started, `settled, `flying, `asserted, `failure, `pending, `checks, `log
      ensures Valid()
    {
      match a {
        case Call(asynchronous, throws) => Call(asynchronous, throws);
        case CallSettles => if flying > 0 { flying, settled := flying - 1, settled + 1; }
        case Then(text, called) => var _ := ThenCheck(text, called);
        case Each(text) => var _ := EachCheck(text);
        case ThenEnds(id, ok) =>
          if id < |checks| && checks[id].status == Running && checks[id].outcome.rows.None? {
            if ok { Settle(id); } else { Reject(id); }
          }
        case RowEnds(id, ok) =>
          if id < |checks| && checks[id].status == Running && !AllSeen(checks[id]) { RowEnds(id, ok); }
        case RowsEnd(id) =>
          if id < |checks| && checks[id].status == Running && checks[id].outcome.rows.Some? && AllSeen(checks[id]) {
            Settle(id);
          }
        case other =>
      }
    }

    /** One step of the test itself. */
    method TestStep(a: Action)
      requires Valid() && !Over()
      modifies `phase, `threw, `pending, `awaited, `drainedAt
      ensures Valid()
      ensures phase.Passed? ==> Proven()
    {
      match a {
        case BodyEnds(thrown) => if phase.InBody? { phase, threw := Looking, thrown; }
        case DrainLooks => if phase.Looking? { DrainLooks(); }
        case DrainResumes =>
          if phase.Awaiting? && forall id :: id in awaited && id < |checks| ==> checks[id].status != Running {
            DrainResumes();
          }
        case TestEnds => if phase.Drained? { Finish(); }
        case other =>
      }
    }

    ghost predicate Proven()
      reads this
    {
      started > 0 && failure.None? && !threw && forall o :: o in outcomes ==> o.text in asserted
    }

    /** Nothing moves once the test is over. */
    method Step(a: Action)
      requires Valid() && (phase.Passed? ==> Proven())
      modifies this
      ensures Valid() && (phase.Passed? ==> Proven())
    {
      if Over() { return; }
      if a.BodyEnds? || a.DrainLooks? || a.DrainResumes? || a.TestEnds? { TestStep(a); } else { WorkStep(a); }
    }

    /**
     Over any interleaving, a passed test proves its scenario: the function ran, every THEN has a
     completed check, with all its rows in order, after some call settled, every check tracked before
     the drain ended completed, and none was rejected.
     */
    method Run(actions: seq<Action>)
      requires Valid() && phase.InBody?
      modifies this
      ensures Valid()
      ensures phase.Passed? ==> started > 0
      ensures phase.Passed? ==> forall o :: o in outcomes ==>
                                              exists k :: 0 <= k < |log| && log[k].text == o.text && Sound(log[k])
      ensures phase.Passed? ==> forall id :: 0 <= id < |checks| ==> checks[id].status != Rejected
      ensures phase.Passed? ==> forall id :: 0 <= id < drainedAt ==> checks[id].status == Completed
    {
      for i := 0 to |actions|
        invariant Valid()
        invariant phase.Passed? ==> Proven()
      {
        Step(actions[i]);
      }
    }
  }

  lemma {:induction false} FindText(outcomes: seq<Outcome>, text: string)
    ensures Find(outcomes, text).Some? ==> Find(outcomes, text).value.text == text
  {
    if outcomes != [] { FindText(outcomes[1..], text); }
  }
}
