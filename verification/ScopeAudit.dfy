/**
 The scope audit: which completed tasks no longer match the tree, and which of them later tasks
 carried forward. A task is recertified without a human only when the recorded hashes of every
 differing path form a chain without a gap from its done record to the tree.
 */
module ScopeAudit {
  import Text
  import opened Wrappers

  const RESOLVER_VERSION := 2

  /** A file's content hash, or None for a missing file. */
  type Hash = Option<string>

  /** A task scope hashed as a whole and file by file. */
  datatype ScopeHash = ScopeHash(hash: string, files: map<string, Hash>)

  datatype DoneInfo = DoneInfo(scopeHash: string, scopeFiles: map<string, Hash>, resolver: Option<int>)

  /** What one attempt measured for one path: its hash before and after. */
  datatype Segment = Segment(before: Hash, after: Hash)

  /** One task file; `covers` is its scope as a predicate on paths. */
  datatype TaskFile = TaskFile(covers: string -> bool, measures: seq<map<string, Segment>>)

  datatype Event = Regressed(task: nat, differing: set<string>) | Recertified(task: nat, differing: set<string>)

  datatype Stale = Stale(task: nat, active: bool)

  function HashOf(files: map<string, Hash>, path: string): Hash {
    if path in files then files[path] else None
  }

  // ---------- segments

  /** The discarded-attempt rule: an attempt that starts where the kept one before it started replaces it. */
  function Keep(kept: seq<Segment>, next: Segment): (r: seq<Segment>) {
    if kept != [] && kept[|kept| - 1].before == next.before then kept[..|kept| - 1] + [next] else kept + [next]
  }

  function Kept(measures: seq<map<string, Segment>>, path: string): seq<Segment> {
    if |measures| == 0 then []
    else
      var last := measures[|measures| - 1];
      var before := Kept(measures[..|measures| - 1], path);
      if path in last then Keep(before, last[path]) else before
  }

  method ReadEndSegments(measures: seq<map<string, Segment>>, path: string) returns (kept: seq<Segment>)
    ensures kept == Kept(measures, path)
  {
    kept := [];
    for i := 0 to |measures|
      invariant kept == Kept(measures[..i], path)
    {
      assert measures[..i + 1][..i] == measures[..i];
      if path in measures[i] {
        var segment := measures[i][path];
        if |kept| > 0 && kept[|kept| - 1].before == segment.before {
          kept := kept[..|kept| - 1] + [segment];
        } else {
          kept := kept + [segment];
        }
      }
    }
    assert measures[..|measures|] == measures;
  }

  ghost predicate StartsDiffer(kept: seq<Segment>) {
    forall i :: 0 < i < |kept| ==> kept[i - 1].before != kept[i].before
  }

  lemma KeepStartsDiffer(kept: seq<Segment>, next: Segment)
    requires StartsDiffer(kept)
    ensures StartsDiffer(Keep(kept, next))
  {
  }

  /** No two neighbouring kept segments start at the same hash, and the newest measure is always kept. */
  lemma {:induction false} KeptStartsDiffer(measures: seq<map<string, Segment>>, path: string)
    ensures var kept := Kept(measures, path);
            && StartsDiffer(kept)
            && (measures != [] && path in measures[|measures| - 1] ==>
                  kept != [] && kept[|kept| - 1] == measures[|measures| - 1][path])
  {
    if |measures| > 0 {
      var init := measures[..|measures| - 1];
      KeptStartsDiffer(init, path);
      if path in measures[|measures| - 1] {
        KeepStartsDiffer(Kept(init, path), measures[|measures| - 1][path]);
      }
    }
  }

  // ---------- chains

  /** One path's hash travels from `start` to `end` over neighbouring segments. */
  ghost predicate Chain(segments: seq<Segment>, start: Hash, end: Hash) {
    && segments != []
    && segments[0].before == start
    && segments[|segments| - 1].after == end
    && forall i :: 0 < i < |segments| ==> segments[i].before == segments[i - 1].after
  }

  ghost predicate StartsAt(segments: seq<Segment>, start: Hash, k: nat) {
    k < |segments| && segments[k].before == start && forall j :: 0 <= j < k ==> segments[j].before != start
  }

  /** The later tasks' kept segments of one path, in task order. */
  function Gathered(later: seq<TaskFile>, path: string): seq<Segment> {
    if |later| == 0 then []
    else
      var last := later[|later| - 1];
      Gathered(later[..|later| - 1], path) + if last.covers(path) then Kept(last.measures, path) else []
  }

  /** From the first segment that starts at the recorded hash on, nothing is missing up to the tree. */
  ghost predicate Carried(later: seq<TaskFile>, path: string, start: Hash, end: Hash) {
    var segments := Gathered(later, path);
    exists k: nat :: StartsAt(segments, start, k) && Chain(segments[k..], start, end)
  }

  method Gather(later: seq<TaskFile>, path: string) returns (segments: seq<Segment>)
    ensures segments == Gathered(later, path)
  {
    segments := [];
    for i := 0 to |later|
      invariant segments == Gathered(later[..i], path)
    {
      assert later[..i + 1][..i] == later[..i];
      if later[i].covers(path) {
        var kept := ReadEndSegments(later[i].measures, path);
        segments := segments + kept;
      }
    }
    assert later[..|later|] == later;
  }

  method FindStart(segments: seq<Segment>, start: Hash) returns (first: nat)
    ensures first <= |segments|
    ensures first < |segments| ==> StartsAt(segments, start, first)
    ensures first == |segments| ==> forall k: nat :: !StartsAt(segments, start, k)
  {
    first := 0;
    while first < |segments| && segments[first].before != start
      invariant first <= |segments|
      invariant forall j :: 0 <= j < first ==> segments[j].before != start
    {
      first := first + 1;
    }
  }

  method PathCarriedWithoutGap(later: seq<TaskFile>, path: string, start: Hash, end: Hash) returns (carried: bool)
    ensures carried <==> Carried(later, path, start, end)
  {
    var segments := Gather(later, path);
    var first := FindStart(segments, start);
    if first == |segments| { return false; }
    ChainFrom(segments, start, end, first);
    var index := first + 1;
    while index < |segments|
      invariant first < index <= |segments|
      invariant forall j :: first < j < index ==> segments[j].before == segments[j - 1].after
    {
      if segments[index].before != segments[index - 1].after { return false; }
      index := index + 1;
    }
    return segments[|segments| - 1].after == end;
  }

  ghost predicate Unbroken(segments: seq<Segment>, first: nat) {
    forall j :: first < j < |segments| ==> segments[j].before == segments[j - 1].after
  }

  lemma ChainFrom(segments: seq<Segment>, start: Hash, end: Hash, first: nat)
    requires StartsAt(segments, start, first)
    ensures (exists k: nat :: StartsAt(segments, start, k) && Chain(segments[k..], start, end))
            <==> Unbroken(segments, first) && segments[|segments| - 1].after == end
  {
    var from := segments[first..];
    assert forall k: nat :: StartsAt(segments, start, k) ==> k == first;
    assert Chain(from, start, end) <==> Unbroken(segments, first) && segments[|segments| - 1].after == end by {
      if Chain(from, start, end) {
        forall j | first < j < |segments| ensures segments[j].before == segments[j - 1].after {
          assert from[j - first].before == from[j - first - 1].after;
        }
      }
    }
  }

  /** Chains compose, so any number of later tasks may extend the path one after another, and only so. */
  lemma ChainsCompose(a: seq<Segment>, b: seq<Segment>, start: Hash, end: Hash)
    requires a != [] && b != []
    ensures Chain(a + b, start, end) <==> Chain(a, start, b[0].before) && Chain(b, b[0].before, end)
  {
    var both := a + b;
    if Chain(both, start, end) {
      forall i | 0 < i < |b| ensures b[i].before == b[i - 1].after {
        assert both[|a| + i].before == both[|a| + i - 1].after;
      }
      assert both[|a|].before == both[|a| - 1].after;
      forall i | 0 < i < |a| ensures a[i].before == a[i - 1].after {
        assert both[i].before == both[i - 1].after;
      }
    }
  }

  // ---------- verdicts

  function Differing(recorded: map<string, Hash>, current: map<string, Hash>): set<string> {
    set path | path in recorded.Keys + current.Keys && HashOf(recorded, path) != HashOf(current, path)
  }

  /** An equal aggregate hash under an older resolver differs in no path. */
  function DifferingPaths(info: DoneInfo, current: ScopeHash): set<string> {
    if current.hash == info.scopeHash then {} else Differing(info.scopeFiles, current.files)
  }

  predicate IsCurrent(info: DoneInfo, current: ScopeHash) {
    current.hash == info.scopeHash && info.resolver == Some(RESOLVER_VERSION)
  }

  /** At least one path differs and later tasks carried every one that does. */
  ghost predicate CarriedForward(info: DoneInfo, current: ScopeHash, later: seq<TaskFile>) {
    && DifferingPaths(info, current) != {}
    && forall path :: path in DifferingPaths(info, current) ==>
                        Carried(later, path, HashOf(info.scopeFiles, path), HashOf(current.files, path))
  }

  function Refreshed(current: ScopeHash): DoneInfo {
    DoneInfo(current.hash, current.files, Some(RESOLVER_VERSION))
  }

  ghost predicate Increasing(ns: seq<nat>) {
    forall i, j :: 0 <= i < j < |ns| ==> ns[i] < ns[j]
  }

  ghost function Numbers(list: seq<nat>): set<nat> {
    set n | n in list
  }

  /** The numbers of a set in order. */
  ghost function Ordered(s: set<nat>): (list: seq<nat>)
    ensures Increasing(list) && Numbers(list) == s
  {
    if s == {} then []
    else
      HasLeast(s);
      var least: nat :| Least(s, least);
      var rest := Ordered(s - {least});
      LeastFirst(s, least, rest);
      [least] + rest
  }

  lemma LeastFirst(s: set<nat>, least: nat, rest: seq<nat>)
    requires Least(s, least) && Increasing(rest) && Numbers(rest) == s - {least}
    ensures Increasing([least] + rest) && Numbers([least] + rest) == s
  {
    var list := [least] + rest;
    forall i | 0 <= i < |rest| ensures least < rest[i] { assert rest[i] in Numbers(rest); }
    forall n: nat ensures n in list <==> n in s {
      assert n in rest <==> n in Numbers(rest);
      assert n in list <==> n == least || n in rest;
    }
  }

  predicate Least(s: set<nat>, n: nat) {
    n in s && forall m :: m in s ==> n <= m
  }

  lemma HasLeast(s: set<nat>)
    requires s != {}
    ensures exists n: nat :: Least(s, n)
    decreases s
  {
    var n :| n in s;
    if s == {n} {
      assert Least(s, n);
    } else {
      HasLeast(s - {n});
      var m: nat :| Least(s - {n}, m);
      assert forall k :: k in s ==> k == n || k in s - {n};
      assert Least(s, if n <= m then n else m);
    }
  }

  lemma {:induction false} OrderedUnique(a: seq<nat>, b: seq<nat>)
    requires Increasing(a) && Increasing(b) && Numbers(a) == Numbers(b)
    ensures a == b
  {
    assert a != [] ==> a[0] in Numbers(a);
    assert b != [] ==> b[0] in Numbers(b);
    if a != [] {
      assert a[0] in b && b[0] in a;
      assert a[0] == b[0];
      assert Numbers(a[1..]) == Numbers(a) - {a[0]} by { assert a == [a[0]] + a[1..]; }
      assert Numbers(b[1..]) == Numbers(b) - {b[0]} by { assert b == [b[0]] + b[1..]; }
      OrderedUnique(a[1..], b[1..]);
      assert a == [a[0]] + a[1..] && b == [b[0]] + b[1..];
    }
  }

  lemma Inserted(sorted: seq<nat>, at: nat, n: nat)
    requires Increasing(sorted) && at <= |sorted|
    requires forall j :: 0 <= j < at ==> sorted[j] < n
    requires at < |sorted| ==> n < sorted[at]
    ensures Increasing(sorted[..at] + [n] + sorted[at..])
    ensures Numbers(sorted[..at] + [n] + sorted[at..]) == Numbers(sorted) + {n}
  {
    assert sorted == sorted[..at] + sorted[at..];
  }

  /** Each number is inserted where it belongs. */
  method SortNumbers(s: set<nat>) returns (sorted: seq<nat>)
    ensures sorted == Ordered(s)
  {
    sorted := [];
    var left := s;
    while left != {}
      invariant left <= s && Increasing(sorted) && Numbers(sorted) == s - left
      decreases left
    {
      var n :| n in left;
      assert n !in Numbers(sorted);
      var at := 0;
      while at < |sorted| && sorted[at] < n
        invariant at <= |sorted|
        invariant forall j :: 0 <= j < at ==> sorted[j] < n
      {
        at := at + 1;
      }
      assert at < |sorted| ==> sorted[at] in Numbers(sorted);
      Inserted(sorted, at, n);
      sorted, left := sorted[..at] + [n] + sorted[at..], left - {n};
    }
    OrderedUnique(sorted, Ordered(s));
  }

  // ---------- the audit

  /** What the audit reads; the tree stands still, so each task's scope hashes to one value. */
  datatype Folder = Folder(
    tree: nat -> ScopeHash,
    tasks: map<nat, TaskFile>,
    done: map<nat, DoneInfo>,
    regressed: set<nat>)

  datatype Verdict = Skipped | Current | StillStale | Recertifies | NewlyStale

  ghost function LaterFiles(f: Folder, task: nat): seq<TaskFile> {
    var numbers := Ordered(set n | n in f.tasks && n > task);
    seq(|numbers|, i requires 0 <= i < |numbers| => FileOf(f.tasks, numbers[i]))
  }

  function FileOf(tasks: map<nat, TaskFile>, n: nat): TaskFile {
    if n in tasks then tasks[n] else TaskFile(_ => false, [])
  }

  /** What the audit makes of one task; `passes` are the verify commands' results, if they run. */
  ghost function Judge(f: Folder, task: nat, record: bool, passes: nat -> bool): Verdict {
    if task !in f.done || task !in f.tasks then Skipped
    else if IsCurrent(f.done[task], f.tree(task)) then Current
    else if task in f.regressed then StillStale
    else if record && passes(task) && CarriedForward(f.done[task], f.tree(task), LaterFiles(f, task)) then Recertifies
    else NewlyStale
  }

  /** `start` followed by the tasks of `order` with one of the given verdicts, in order. */
  ghost function With(start: seq<nat>, order: seq<nat>, judged: nat -> Verdict, verdicts: set<Verdict>): seq<nat> {
    if |order| == 0 then start
    else
      var last := order[|order| - 1];
      With(start, order[..|order| - 1], judged, verdicts) + if judged(last) in verdicts then [last] else []
  }

  lemma {:induction false} WithMembers(start: seq<nat>, order: seq<nat>, judged: nat -> Verdict, verdicts: set<Verdict>)
    ensures forall t :: t in With(start, order, judged, verdicts) <==> t in start || (t in order && judged(t) in verdicts)
  {
    if |order| > 0 {
      WithMembers(start, order[..|order| - 1], judged, verdicts);
      assert order == order[..|order| - 1] + [order[|order| - 1]];
    }
  }

  /** The folder once the tasks of `order` were audited. */
  ghost function Audited(f: Folder, order: seq<nat>, judged: nat -> Verdict, record: bool): Folder {
    f.(done := map t | t in f.done :: if t in order && judged(t) == Recertifies then Refreshed(f.tree(t)) else f.done[t],
       regressed := f.regressed + set t | t in order && record && judged(t) == NewlyStale)
  }

  ghost function EventsOf(f: Folder, task: nat, verdict: Verdict, record: bool): seq<Event> {
    if task in f.done && verdict == Recertifies then [Recertified(task, DifferingPaths(f.done[task], f.tree(task)))]
    else if task in f.done && record && verdict == NewlyStale then [Regressed(task, DifferingPaths(f.done[task], f.tree(task)))]
    else []
  }

  /** `start` followed by the events the audit appends, in task order. */
  ghost function Told(start: seq<Event>, f: Folder, order: seq<nat>, judged: nat -> Verdict, record: bool): seq<Event> {
    if |order| == 0 then start
    else
      var last := order[|order| - 1];
      Told(start, f, order[..|order| - 1], judged, record) + EventsOf(f, last, judged(last), record)
  }

  ghost function Judged(f: Folder, record: bool, passes: nat -> bool): nat -> Verdict {
    (t: nat) => Judge(f, t, record, passes)
  }

  /** The stale tasks of `order`, each saying whether a regression was active already. */
  ghost function StaleOf(order: seq<nat>, judged: nat -> Verdict): seq<Stale> {
    if |order| == 0 then []
    else
      var last := order[|order| - 1];
      StaleOf(order[..|order| - 1], judged)
      + if judged(last) in {StillStale, NewlyStale} then [Stale(last, judged(last) == StillStale)] else []
  }

  lemma {:induction false} StaleMembers(order: seq<nat>, judged: nat -> Verdict)
    ensures forall s :: s in StaleOf(order, judged) <==>
                          && s.task in order && judged(s.task) in {StillStale, NewlyStale}
                          && s.active == (judged(s.task) == StillStale)
  {
    if |order| > 0 {
      StaleMembers(order[..|order| - 1], judged);
      assert order == order[..|order| - 1] + [order[|order| - 1]];
    }
  }

  /** A task is judged by its own done record and marker alone. */
  lemma JudgeIsLocal(f: Folder, g: Folder, task: nat, record: bool, passes: nat -> bool)
    requires g.tree == f.tree && g.tasks == f.tasks
    requires Lookup(g.done, task) == Lookup(f.done, task) && (task in g.regressed <==> task in f.regressed)
    ensures Judge(g, task, record, passes) == Judge(f, task, record, passes)
  {
    assert LaterFiles(g, task) == LaterFiles(f, task);
  }

  lemma AuditedNext(f: Folder, order: seq<nat>, i: nat, judged: nat -> Verdict, record: bool)
    requires i < |order| && order[i] !in order[..i]
    ensures var t, g, h := order[i], Audited(f, order[..i], judged, record), Audited(f, order[..i + 1], judged, record);
            && Lookup(g.done, t) == Lookup(f.done, t) && (t in g.regressed <==> t in f.regressed)
            && (t in f.done ==> h.done == if judged(t) == Recertifies then g.done[t := Refreshed(f.tree(t))] else g.done)
            && (t !in f.done ==> h.done == g.done)
            && h.regressed == if record && judged(t) == NewlyStale then g.regressed + {t} else g.regressed
  {
    assert order[..i + 1] == order[..i] + [order[i]];
  }

  lemma StaleEarlier(f: Folder, order: seq<nat>, current: nat, passes: nat -> bool)
    requires Numbers(order) == set t | t in f.done && t < current
    ensures var stale := StaleOf(order, Judged(f, true, passes));
            && (stale == [] <==>
                forall t :: t in f.done && t < current ==> Judge(f, t, true, passes) !in {StillStale, NewlyStale})
            && forall s :: s in stale ==> s.task in f.done && s.task < current
                                          && s.task in Audited(f, order, Judged(f, true, passes), true).regressed
  {
    var judged := Judged(f, true, passes);
    StaleMembers(order, judged);
    assert forall t :: t in order <==> t in Numbers(order);
    forall t | t in f.done && t < current && Judge(f, t, true, passes) in {StillStale, NewlyStale}
      ensures StaleOf(order, judged) != []
    {
      assert t in Numbers(order);
      assert Stale(t, judged(t) == StillStale) in StaleOf(order, judged);
    }
    if StaleOf(order, judged) != [] {
      assert StaleOf(order, judged)[0] in StaleOf(order, judged);
    }
    forall s | s in StaleOf(order, judged)
      ensures s.task in f.done && s.task < current && s.task in Audited(f, order, judged, true).regressed
    {
      assert s.task in Numbers(order);
      assert judged(s.task) == Judge(f, s.task, true, passes);
    }
  }

  lemma ListsNext(order: seq<nat>, i: nat, judged: nat -> Verdict)
    requires i < |order|
    ensures With([], order[..i + 1], judged, {Recertifies})
            == With([], order[..i], judged, {Recertifies}) + if judged(order[i]) == Recertifies then [order[i]] else []
    ensures StaleOf(order[..i + 1], judged)
            == StaleOf(order[..i], judged)
               + if judged(order[i]) in {StillStale, NewlyStale} then [Stale(order[i], judged(order[i]) == StillStale)] else []
  {
    Text.TakeNext(order, i);
  }

  /** The verdicts that needed the task's verify command. */
  function Gated(record: bool): set<Verdict> {
    if record then {Recertifies, NewlyStale} else {}
  }

  class ChangeFolder {
    const tree: nat -> ScopeHash
    const tasks: map<nat, TaskFile>
    var done: map<nat, DoneInfo>
    var regressed: set<nat>
    var events: seq<Event>
    /** The tasks whose verify command ran, in order. */
    var verified: seq<nat>

    ghost function Now(): Folder
      reads this
    {
      Folder(tree, tasks, done, regressed)
    }

    constructor (tree: nat -> ScopeHash, tasks: map<nat, TaskFile>, done: map<nat, DoneInfo>, regressed: set<nat>)
      ensures Now() == Folder(tree, tasks, done, regressed) && events == [] && verified == []
    {
      this.tree, this.tasks, this.done, this.regressed := tree, tasks, done, regressed;
      events, verified := [], [];
    }

    method ListLaterTasks(task: nat) returns (later: seq<TaskFile>)
      ensures later == LaterFiles(Now(), task)
    {
      var numbers := SortNumbers(set n | n in tasks && n > task);
      later := [];
      for i := 0 to |numbers|
        invariant |later| == i
        invariant forall j :: 0 <= j < i ==> later[j] == FileOf(tasks, numbers[j])
      {
        later := later + [FileOf(tasks, numbers[i])];
      }
    }

    /** Recertify a task whose differing paths were all carried: refresh its done record and say so. */
    method AutoRecertify(task: nat, differing: set<string>) returns (qualified: bool)
      requires task in done && differing == DifferingPaths(done[task], tree(task))
      modifies `done, `events
      ensures qualified <==> old(CarriedForward(done[task], tree(task), LaterFiles(Now(), task)))
      ensures done == if qualified then old(done)[task := Refreshed(tree(task))] else old(done)
      ensures events == old(events) + if qualified then [Recertified(task, differing)] else []
    {
      if differing == {} { return false; }
      var later := ListLaterTasks(task);
      var left := differing;
      while left != {}
        invariant left <= differing && done == old(done) && events == old(events)
        invariant forall path :: path in differing - left ==>
                                   Carried(later, path, HashOf(done[task].scopeFiles, path), HashOf(tree(task).files, path))
        decreases left
      {
        var path :| path in left;
        var carried := PathCarriedWithoutGap(later, path, HashOf(done[task].scopeFiles, path),
                                             HashOf(tree(task).files, path));
        if !carried { return false; }
        left := left - {path};
      }
      done := done[task := Refreshed(tree(task))];
      events := events + [Recertified(task, differing)];
      return true;
    }

    /** One task of the audit. */
    method AuditTask(task: nat, record: bool, passes: nat -> bool) returns (verdict: Verdict)
      modifies `done, `regressed, `events, `verified
      ensures verdict == old(Judge(Now(), task, record, passes))
      ensures done == if verdict == Recertifies then old(done)[task := Refreshed(tree(task))] else old(done)
      ensures regressed == if record && verdict == NewlyStale then old(regressed) + {task} else old(regressed)
      ensures verified == old(verified) + if record && verdict in {Recertifies, NewlyStale} then [task] else []
      ensures events == old(events) + EventsOf(old(Now()), task, verdict, record)
    {
      if task !in done || task !in tasks { return Skipped; }
      var info, current := done[task], tree(task);
      if current.hash == info.scopeHash && info.resolver == Some(RESOLVER_VERSION) { return Current; }
      var differing := DifferingPaths(info, current);
      if task in regressed { return StillStale; }
      if record {
        verified := verified + [task];
        if passes(task) {
          var qualified := AutoRecertify(task, differing);
          if qualified { return Recertifies; }
        }
        regressed := regressed + {task};
        events := events + [Regressed(task, differing)];
      }
      return NewlyStale;
    }

    /** How far an audit that found the folder as `was` has come. */
    ghost predicate AuditedUpTo(was: Folder, told: seq<Event>, checked: seq<nat>, order: seq<nat>, record: bool,
                                passes: nat -> bool)
      reads this
    {
      && Now() == Audited(was, order, Judged(was, record, passes), record)
      && events == Told(told, was, order, Judged(was, record, passes), record)
      && verified == With(checked, order, Judged(was, record, passes), Gated(record))
    }

    /** The next task of the audit, judged as the folder stood at the start. */
    method AuditNext(ghost was: Folder, ghost told: seq<Event>, ghost checked: seq<nat>, order: seq<nat>, i: nat,
                     record: bool, passes: nat -> bool)
      returns (verdict: Verdict)
      requires i < |order| && order[i] !in order[..i]
      requires AuditedUpTo(was, told, checked, order[..i], record, passes)
      modifies `done, `regressed, `events, `verified
      ensures verdict == Judged(was, record, passes)(order[i])
      ensures AuditedUpTo(was, told, checked, order[..i + 1], record, passes)
    {
      Text.TakeNext(order, i);
      AuditedNext(was, order, i, Judged(was, record, passes), record);
      JudgeIsLocal(was, Now(), order[i], record, passes);
      verdict := AuditTask(order[i], record, passes);
    }

    method AuditInOrder(ghost was: Folder, order: seq<nat>, record: bool, passes: nat -> bool)
      returns (stale: seq<Stale>, recertified: seq<nat>)
      requires Increasing(order) && Now() == was
      modifies `done, `regressed, `events, `verified
      ensures recertified == With([], order, Judged(was, record, passes), {Recertifies})
      ensures stale == StaleOf(order, Judged(was, record, passes))
      ensures AuditedUpTo(was, old(events), old(verified), order, record, passes)
    {
      ghost var judged, told, checked := Judged(was, record, passes), events, verified;
      stale, recertified := [], [];
      assert Audited(was, [], judged, record) == was;
      for i := 0 to |order|
        invariant AuditedUpTo(was, told, checked, order[..i], record, passes)
        invariant recertified == With([], order[..i], judged, {Recertifies})
        invariant stale == StaleOf(order[..i], judged)
      {
        ListsNext(order, i, judged);
        var verdict := AuditNext(was, told, checked, order, i, record, passes);
        if verdict == Recertifies {
          recertified := recertified + [order[i]];
        } else if verdict == StillStale || verdict == NewlyStale {
          stale := stale + [Stale(order[i], verdict == StillStale)];
        }
      }
      assert order[..|order|] == order;
    }

    /**
     The audit over the distinct eligible tasks in number order: each lands in the list its verdict
     names, and each verdict is the one the folder gave at the start.
     */
    method AuditScopeRegressions(eligible: seq<nat>, record: bool, passes: nat -> bool)
      returns (stale: seq<Stale>, recertified: seq<nat>)
      modifies `done, `regressed, `events, `verified
      ensures var order, was, judged := Ordered(Numbers(eligible)), old(Now()), Judged(old(Now()), record, passes);
              && recertified == With([], order, judged, {Recertifies})
              && stale == StaleOf(order, judged)
              && AuditedUpTo(was, old(events), old(verified), order, record, passes)
    {
      var order := SortNumbers(set n | n in eligible);
      assert (set n | n in eligible) == Numbers(eligible);
      stale, recertified := AuditInOrder(Now(), order, record, passes);
    }

    /**
     The guard before a task spawns: it refuses exactly when some earlier done task no longer
     matches the tree and was not carried forward, and names one whose marker is now active.
     */
    method GuardScopeRegression(current: nat, passes: nat -> bool) returns (first: Option<nat>)
      modifies `done, `regressed, `events, `verified
      ensures first.None? <==> forall t :: t in old(done) && t < current ==>
                                             old(Judge(Now(), t, true, passes)) !in {StillStale, NewlyStale}
      ensures first.Some? ==> first.value in old(done) && first.value < current && first.value in regressed
    {
      ghost var was := Now();
      var earlier := SortNumbers(set t | t in done && t < current);
      var stale, _ := AuditInOrder(Now(), earlier, true, passes);
      StaleEarlier(was, earlier, current, passes);
      if stale == [] { return None; }
      assert stale[0] in stale;
      return Some(stale[0].task);
    }

    /** A second audit of tasks already audited, on the same tree, runs no verify and writes nothing. */
    method AuditTwice(eligible: seq<nat>, again: seq<nat>, passes: nat -> bool, passesAgain: nat -> bool)
      returns (stale: seq<Stale>, recertified: seq<nat>, ghost settled: Folder, ghost told: seq<Event>, ghost checked: seq<nat>)
      requires forall t :: t in again ==> t in eligible
      modifies `done, `regressed, `events, `verified
      ensures var order, was := Ordered(Numbers(eligible)), old(Now());
              && settled == Audited(was, order, Judged(was, true, passes), true)
              && told == Told(old(events), was, order, Judged(was, true, passes), true)
              && checked == With(old(verified), order, Judged(was, true, passes), Gated(true))
      ensures Now() == settled && events == told && verified == checked
      ensures recertified == [] && forall s :: s in stale ==> s.active
    {
      ghost var was := Now();
      var _, _ := AuditScopeRegressions(eligible, true, passes);
      settled, told, checked := Now(), events, verified;
      stale, recertified := AuditScopeRegressions(again, true, passesAgain);
      SecondAuditIsQuiet(was, eligible, again, passes, passesAgain, told, checked);
    }
  }

  /** Once audited, a task is skipped, current, or covered by its active marker. */
  lemma Settles(f: Folder, order: seq<nat>, t: nat, passes: nat -> bool, passesAgain: nat -> bool)
    requires t in order
    ensures Judge(Audited(f, order, Judged(f, true, passes), true), t, true, passesAgain) in {Skipped, Current, StillStale}
  {
    var g := Audited(f, order, Judged(f, true, passes), true);
    var judged := Judged(f, true, passes);
    assert judged(t) == Judge(f, t, true, passes);
    if judged(t) == Recertifies {
      assert g.done[t] == Refreshed(f.tree(t));
    } else if judged(t) == NewlyStale {
      assert t in g.regressed;
    }
  }

  lemma {:induction false} QuietLists(f: Folder, order: seq<nat>, judged: nat -> Verdict, told: seq<Event>, checked: seq<nat>)
    requires forall t :: t in order ==> judged(t) in {Skipped, Current, StillStale}
    ensures With([], order, judged, {Recertifies}) == [] && With(checked, order, judged, Gated(true)) == checked
    ensures Told(told, f, order, judged, true) == told
    ensures forall s :: s in StaleOf(order, judged) ==> s.active
  {
    if |order| > 0 {
      assert order[|order| - 1] in order;
      QuietLists(f, order[..|order| - 1], judged, told, checked);
    }
  }

  lemma QuietFolder(f: Folder, order: seq<nat>, judged: nat -> Verdict)
    requires forall t :: t in order ==> judged(t) in {Skipped, Current, StillStale}
    ensures Audited(f, order, judged, true) == f
  {
    assert forall t :: t in order ==> judged(t) != Recertifies && judged(t) != NewlyStale;
    assert Audited(f, order, judged, true).done == f.done;
    assert Audited(f, order, judged, true).regressed == f.regressed;
  }

  lemma SecondAuditIsQuiet(was: Folder, eligible: seq<nat>, again: seq<nat>, passes: nat -> bool, passesAgain: nat -> bool,
                           told: seq<Event>, checked: seq<nat>)
    requires forall t :: t in again ==> t in eligible
    ensures var settled := Audited(was, Ordered(Numbers(eligible)), Judged(was, true, passes), true);
            var order, judged := Ordered(Numbers(again)), Judged(settled, true, passesAgain);
            && With([], order, judged, {Recertifies}) == [] && With(checked, order, judged, Gated(true)) == checked
            && Told(told, settled, order, judged, true) == told
            && Audited(settled, order, judged, true) == settled
            && forall s :: s in StaleOf(order, judged) ==> s.active
  {
    var first := Ordered(Numbers(eligible));
    var settled := Audited(was, first, Judged(was, true, passes), true);
    var order, judged := Ordered(Numbers(again)), Judged(settled, true, passesAgain);
    forall t | t in order ensures judged(t) in {Skipped, Current, StillStale} {
      assert t in Numbers(order) && t in Numbers(eligible) && t in Numbers(first);
      Settles(was, first, t, passes, passesAgain);
    }
    QuietLists(settled, order, judged, told, checked);
    QuietFolder(settled, order, judged);
  }

  /**
   Every audited task with a done record and a task file is in exactly one of current, recertified
   and stale; a recertified one passed its verify and differs only in paths that were all carried.
   */
  lemma EachTaskInOnePlace(f: Folder, order: seq<nat>, t: nat, record: bool, passes: nat -> bool)
    requires t in order && t in f.done && t in f.tasks
    ensures var judged := Judged(f, record, passes);
            var isCurrent, isRecertified := IsCurrent(f.done[t], f.tree(t)), t in With([], order, judged, {Recertifies});
            var isStale := exists s :: s in StaleOf(order, judged) && s.task == t;
            && (isCurrent || isRecertified || isStale)
            && !(isCurrent && isRecertified) && !(isCurrent && isStale) && !(isRecertified && isStale)
            && (isRecertified <==>
                  && !isCurrent && t !in f.regressed && record && passes(t)
                  && CarriedForward(f.done[t], f.tree(t), LaterFiles(f, t)))
  {
    var judged := Judged(f, record, passes);
    WithMembers([], order, judged, {Recertifies});
    StaleMembers(order, judged);
    assert judged(t) == Judge(f, t, record, passes);
    if judged(t) in {StillStale, NewlyStale} {
      assert Stale(t, judged(t) == StillStale) in StaleOf(order, judged);
    }
  }

  /** An older resolver's equal hash is never recertified: it differs in no path. */
  lemma UpgradeIsNeverRecertified(f: Folder, t: nat, record: bool, passes: nat -> bool)
    requires t in f.done && f.done[t].scopeHash == f.tree(t).hash
    ensures Judge(f, t, record, passes) != Recertifies
  {
  }
}
