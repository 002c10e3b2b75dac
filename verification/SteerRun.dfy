/**
 The automatic steering run: snapshot the tree, let the planner do anything to it, put back what it
 wrote outside the plan, and report exactly which plan files it added, changed or removed.
 */
module SteerRun {
  import opened Wrappers
  import opened Text
  import opened Order
  import opened TreeGuard

  function EventsPath(folder: string): string { folder + "/" + ".run/events/planner.jsonl" }
  function RecordPath(folder: string): string { folder + "/" + ".run/auto-steer.md" }
  function ChangeEventsPath(folder: string): string { folder + "/" + ".run/events/change.jsonl" }

  /** The change-folder-relative form of a path inside the folder. */
  function Relative(folder: string, p: string): (r: string)
    requires folder + "/" <= p
    ensures folder + "/" + r == p
  {
    p[|folder + "/"|..]
  }

  /** `planKeep`: the plan, the planner's harness events, and the record. */
  predicate PlanKeep(folder: string, p: string) {
    || p == EventsPath(folder) || p == RecordPath(folder)
    || (folder + "/" <= p && !(".run/" <= Relative(folder, p)))
  }

  function KeepOf(folder: string): string -> bool {
    (p: string) => PlanKeep(folder, p)
  }

  /** What `snapshotPlanFiles` walks to: no segment, at any depth, is named `.run`. */
  predicate IsPlanPath(relative: string) {
    ".run" !in Split(relative, '/')
  }

  function PlanFiles(tree: Tree, folder: string): (r: map<string, Bytes>)
    ensures forall q :: Lookup(r, q) == if IsPlanPath(q) then Lookup(tree, folder + "/" + q) else None
  {
    var inside := set p | p in tree && folder + "/" <= p && IsPlanPath(Relative(folder, p)) :: Relative(folder, p);
    assert forall q :: (folder + "/" + q)[|folder + "/"|..] == q;
    assert forall q | IsPlanPath(q) && folder + "/" + q in tree :: Relative(folder, folder + "/" + q) in inside;
    map q | q in inside :: tree[folder + "/" + q]
  }

  /** The plan files two trees disagree on. */
  function PlanChanges(before: map<string, Bytes>, after: map<string, Bytes>): (r: set<string>)
    ensures forall q :: q in r <==> Lookup(before, q) != Lookup(after, q)
  {
    set q | q in before.Keys + after.Keys && Lookup(before, q) != Lookup(after, q)
  }

  lemma RunFolderFirst(rest: string)
    ensures !IsPlanPath(".run/" + rest)
  {
    assert ".run/" + rest == ".run" + ['/'] + rest;
    SplitPiece(".run", rest, '/');
    assert Split(".run/" + rest, '/')[0] == ".run";
  }

  /** Every reported plan file is one the guard keeps. */
  lemma PlanPathsAreKept(folder: string, q: string)
    requires IsPlanPath(q)
    ensures PlanKeep(folder, folder + "/" + q)
    ensures folder + "/" + q !in {EventsPath(folder), RecordPath(folder), ChangeEventsPath(folder)}
  {
    assert Relative(folder, folder + "/" + q) == q;
    if ".run/" <= q {
      assert q == ".run/" + q[5..];
      RunFolderFirst(q[5..]);
    }
    RunFilesAreInRun(folder);
  }

  lemma RunFilesAreInRun(folder: string)
    ensures ".run/" <= Relative(folder, EventsPath(folder)) && ".run/" <= Relative(folder, RecordPath(folder))
    ensures ".run/" <= Relative(folder, ChangeEventsPath(folder))
  {
    forall rest: string ensures (folder + "/" + rest)[|folder + "/"|..] == rest {}
    assert Relative(folder, EventsPath(folder))[..5] == ".run/";
    assert Relative(folder, RecordPath(folder))[..5] == ".run/";
    assert Relative(folder, ChangeEventsPath(folder))[..5] == ".run/";
  }

  /**
   A path inside the folder is kept without being reported exactly when a `.run` segment lies below
   the top, or is the last one: such an edit survives the run and the record does not name it.
   */
  lemma KeptUnreported(folder: string, q: string)
    requires folder + "/" + q !in {EventsPath(folder), RecordPath(folder)}
    ensures PlanKeep(folder, folder + "/" + q) && !IsPlanPath(q) <==> ".run" in Split(q, '/') && !(".run/" <= q)
  {
    assert Relative(folder, folder + "/" + q) == q;
  }

  /** Such paths exist: a `.run` folder under any other folder of the change. */
  lemma NestedRunFolderGoesUnreported(folder: string, outer: string, file: string)
    requires '/' !in outer && outer != ".run"
    ensures PlanKeep(folder, folder + "/" + (outer + "/" + (".run/" + file)))
    ensures !IsPlanPath(outer + "/" + (".run/" + file))
  {
    var q := outer + "/" + (".run/" + file);
    assert Relative(folder, folder + "/" + q) == q;
    assert q == outer + ['/'] + (".run/" + file);
    SplitPiece(outer, ".run/" + file, '/');
    RunFolderFirst(file);
    assert Split(q, '/')[1..] == Split(".run/" + file, '/');
    if ".run/" <= q {
      assert q == ".run" + ['/'] + q[5..];
      SplitPiece(".run", q[5..], '/');
    }
  }

  datatype Run = Ran(changed: seq<string>, restored: seq<string>) | Threw

  class PlannerRun {
    const repo: Repo
    const folder: string

    constructor (repo: Repo, folder: string)
      ensures this.repo == repo && this.folder == folder
    {
      this.repo, this.folder := repo, folder;
    }

    method SnapshotPlanFiles() returns (files: map<string, Bytes>)
      ensures files == PlanFiles(repo.tree, folder)
    {
      files := map[];
      var todo := repo.tree.Keys;
      ghost var seen: set<string> := {};
      while todo != {}
        invariant todo + seen == repo.tree.Keys && todo !! seen
        invariant forall q ::
          Lookup(files, q) == (if IsPlanPath(q) && folder + "/" + q in seen then Lookup(repo.tree, folder + "/" + q) else None)
        decreases todo
      {
        var p :| p in todo;
        if folder + "/" <= p && IsPlanPath(Relative(folder, p)) {
          assert forall q :: folder + "/" + q == p ==> q == Relative(folder, p) by {
            assert forall q :: (folder + "/" + q)[|folder + "/"|..] == q;
          }
          files := files[Relative(folder, p) := repo.tree[p]];
        }
        todo, seen := todo - {p}, seen + {p};
      }
      SameLookups(files, PlanFiles(repo.tree, folder));
    }

    method DiffPlanFiles(before: map<string, Bytes>) returns (changed: seq<string>)
      ensures Lists(changed, PlanChanges(before, PlanFiles(repo.tree, folder)))
    {
      var after := SnapshotPlanFiles();
      var found: set<string> := {};
      var todo := before.Keys + after.Keys;
      while todo != {}
        invariant todo <= before.Keys + after.Keys
        invariant found == PlanChanges(before, after) - todo
        decreases todo
      {
        var q :| q in todo;
        if q !in before || q !in after || before[q] != after[q] { found := found + {q}; }
        todo := todo - {q};
      }
      changed := SortSet(found);
    }

    /** Snapshot, the running record, the spawn, the restore and the diff. */
    method SpawnGuarded(agent: Tree, running: Bytes) returns (r: Run)
      modifies repo`tree
      ensures r.Ran? ==> Lists(r.changed, PlanChanges(PlanFiles(old(repo.tree), folder), PlanFiles(agent, folder)))
      ensures r.Ran? ==> Lists(r.restored, Changed(old(repo.tree), agent, KeepOf(folder)))
      ensures r.Ran? ==> forall p ::
        Lookup(repo.tree, p) == Lookup(if PlanKeep(folder, p) then agent else old(repo.tree), p)
      ensures r.Threw? <==>
        (!repo.linked && exists p :: NeedsDiscard(old(repo.tree), agent, repo.head, KeepOf(folder), p))
    {
      ghost var before := repo.tree;
      var snapshot := repo.TreeState();
      var planBefore := SnapshotPlanFiles();
      repo.tree := repo.tree[RecordPath(folder) := running];
      repo.tree := agent;
      var restored := repo.RestoreTreeExcept(snapshot, KeepOf(folder), before);
      if restored.Refused? { return Threw; }
      assert forall p :: KeepOf(folder)(p) == PlanKeep(folder, p);
      PlanSurvives(repo.tree, agent);
      var changed := DiffPlanFiles(planBefore);
      r := Ran(changed, restored.paths);
    }

    /**
     `executeRun`, with `agent` the tree the planner leaves. Outside the plan, the planner's events and
     the record, nothing changes but the one event appended to `change.jsonl`; `changed` names exactly
     the plan files the planner changed, and every one of those edits stays.
     */
    method ExecuteRun(agent: Tree, running: Bytes, record: Bytes, event: Bytes) returns (r: Run)
      modifies repo`tree
      ensures r.Ran? ==> Lists(r.changed, PlanChanges(PlanFiles(old(repo.tree), folder), PlanFiles(agent, folder)))
      ensures r.Ran? ==> Lists(r.restored, Changed(old(repo.tree), agent, KeepOf(folder)))
      ensures r.Ran? ==> EndsAs(repo.tree, old(repo.tree), agent, folder, record, event)
      ensures r.Threw? <==>
        (!repo.linked && exists p :: NeedsDiscard(old(repo.tree), agent, repo.head, KeepOf(folder), p))
    {
      ghost var before := repo.tree;
      r := SpawnGuarded(agent, running);
      if r.Ran? {
        repo.tree := WithRecordAndEvent(repo.tree, before, agent, folder, record, event);
      }
    }

    lemma PlanSurvives(tree: Tree, agent: Tree)
      requires forall p | PlanKeep(folder, p) :: Lookup(tree, p) == Lookup(agent, p)
      ensures PlanFiles(tree, folder) == PlanFiles(agent, folder)
    {
      forall q | IsPlanPath(q) ensures Lookup(tree, folder + "/" + q) == Lookup(agent, folder + "/" + q) {
        PlanPathsAreKept(folder, q);
      }
      SameLookups(PlanFiles(tree, folder), PlanFiles(agent, folder));
    }
  }

  function Appended(tree: Tree, p: string, event: Bytes): Bytes {
    (if p in tree then tree[p] else []) + event
  }

  /** The tree a run ends with, path by path. */
  ghost predicate EndsAs(end: Tree, before: Tree, agent: Tree, folder: string, record: Bytes, event: Bytes) {
    && Lookup(end, RecordPath(folder)) == Some(record)
    && Lookup(end, ChangeEventsPath(folder)) == Some(Appended(before, ChangeEventsPath(folder), event))
    && forall p | p != RecordPath(folder) && p != ChangeEventsPath(folder) ::
         Lookup(end, p) == Lookup(if PlanKeep(folder, p) then agent else before, p)
  }

  /** The record written and the event appended, on the tree the guard restored. */
  function WithRecordAndEvent(tree: Tree, ghost before: Tree, ghost agent: Tree, folder: string, record: Bytes, event: Bytes):
    (r: Tree)
    requires forall p :: Lookup(tree, p) == Lookup(if PlanKeep(folder, p) then agent else before, p)
    ensures EndsAs(r, before, agent, folder, record, event)
  {
    RunFilesApart(folder);
    var log, recorded := ChangeEventsPath(folder), tree[RecordPath(folder) := record];
    var end := recorded[log := Appended(recorded, log, event)];
    assert Lookup(tree, log) == Lookup(before, log) == Lookup(recorded, log);
    assert forall p | p != RecordPath(folder) && p != log :: Lookup(end, p) == Lookup(tree, p);
    end
  }

  lemma RunFilesApart(folder: string)
    ensures !PlanKeep(folder, ChangeEventsPath(folder)) && PlanKeep(folder, RecordPath(folder))
    ensures ChangeEventsPath(folder) != RecordPath(folder)
  {
    assert Relative(folder, ChangeEventsPath(folder)) == ".run/events/change.jsonl";
    assert Relative(folder, EventsPath(folder)) == ".run/events/planner.jsonl";
    assert Relative(folder, RecordPath(folder)) == ".run/auto-steer.md";
    assert ".run/events/change.jsonl"[12] != ".run/events/planner.jsonl"[12];
  }
}
