/**
 A repository's text files and lines, totalled from git's index: a blob whose line count is already
 stored is not read again, and the totals are those of reading every tracked file.
 */
module RepoCounts {
  import opened Wrappers
  import opened Text

  const NUL := '\0'

  /** The modes of symlinks and submodules. */
  const NOT_FILES: set<string> := {"120000", "160000"}

  datatype Counts = Counts(files: nat, lines: nat)

  /** One tracked path; a stage that is no number is None. */
  datatype Tracked = Tracked(path: string, blob: string, stage: Option<int>)

  // ---------- parsing the listing

  function IndexOf(s: string, c: char): (i: nat)
    ensures i <= |s| && c !in s[..i]
    ensures i < |s| ==> s[i] == c
  {
    if s == [] || s[0] == c then 0 else
      var rest := IndexOf(s[1..], c);
      assert s[..rest + 1] == [s[0]] + s[1..][..rest];
      rest + 1
  }

  /** Leading blanks, a sign, then digits; text that has none is no number. */
  function ParseInt(s: string): Option<int> {
    if s != [] && IsSpace(s[0]) then ParseInt(s[1..])
    else
      var negative := s != [] && s[0] == '-';
      var digits := if s != [] && (s[0] == '-' || s[0] == '+') then s[1..] else s;
      var n: int := Value(digits[..DigitRun(digits)]);
      if DigitRun(digits) == 0 then None else Some(if negative then -n else n)
  }

  /** What one record of the listing says; None when it is dropped. */
  function ParseRecord(record: string): Option<Tracked> {
    var tab := IndexOf(record, '\t');
    if record == [] || tab == |record| then None
    else
      var fields := Split(record[..tab], ' ');
      if |fields| < 3 || fields[0] in NOT_FILES then None
      else Some(Tracked(record[tab + 1..], fields[1], ParseInt(fields[2])))
  }

  function ParseRecords(records: seq<string>): seq<Tracked> {
    if records == [] then []
    else ParseRecords(Init(records)) + match ParseRecord(Last(records)) case None => [] case Some(t) => [t]
  }

  method ParseTracked(stdout: string) returns (tracked: seq<Tracked>)
    ensures tracked == ParseRecords(Split(stdout, NUL))
  {
    tracked := [];
    var records := Split(stdout, NUL);
    for i := 0 to |records|
      invariant tracked == ParseRecords(records[..i])
    {
      assert Init(records[..i + 1]) == records[..i];
      var record := records[i];
      if record == [] { continue; }
      var tab := IndexOf(record, '\t');
      if tab == |record| { continue; }
      var fields := Split(record[..tab], ' ');
      if |fields| < 3 { continue; }
      if fields[0] in NOT_FILES { continue; }
      tracked := tracked + [Tracked(record[tab + 1..], fields[1], ParseInt(fields[2]))];
    }
    assert records[..|records|] == records;
  }

  /** One record as git writes it: three fields separated by spaces, a tab, the path, a NUL. */
  datatype Listed = Listed(mode: string, blob: string, stage: string, path: string)

  predicate IsField(s: string) {
    ' ' !in s && '\t' !in s && NUL !in s
  }

  predicate WellFormed(l: Listed) {
    IsField(l.mode) && IsField(l.blob) && IsField(l.stage) && NUL !in l.path
  }

  function Written(l: Listed): string {
    l.mode + " " + l.blob + " " + l.stage + "\t" + l.path
  }

  function WrittenAll(ls: seq<Listed>): string {
    if ls == [] then [] else Written(ls[0]) + [NUL] + WrittenAll(ls[1..])
  }

  /** The entries a listing means: every record but those of symlinks and submodules. */
  function Meant(ls: seq<Listed>): seq<Tracked> {
    if ls == [] then []
    else (if ls[0].mode in NOT_FILES then [] else [Tracked(ls[0].path, ls[0].blob, ParseInt(ls[0].stage))]) + Meant(ls[1..])
  }

  lemma {:induction false} IndexOfFirst(a: string, b: string, c: char)
    requires c !in a
    ensures IndexOf(a + [c] + b, c) == |a|
  {
    if a != [] {
      assert (a + [c] + b)[1..] == a[1..] + [c] + b;
      IndexOfFirst(a[1..], b, c);
    }
  }

  lemma ParseWritten(l: Listed)
    requires WellFormed(l)
    ensures Written(l) != [] && NUL !in Written(l)
    ensures ParseRecord(Written(l)) == if l.mode in NOT_FILES then None else Some(Tracked(l.path, l.blob, ParseInt(l.stage)))
  {
    var head := l.mode + " " + l.blob + " " + l.stage;
    assert Written(l) == head + ['\t'] + l.path;
    IndexOfFirst(head, l.path, '\t');
    assert Written(l)[..|head|] == head && Written(l)[|head| + 1..] == l.path;
    assert head == l.mode + [' '] + (l.blob + [' '] + l.stage);
    SplitPiece(l.mode, l.blob + [' '] + l.stage, ' ');
    SplitPiece(l.blob, l.stage, ' ');
    SplitSingle(l.stage, ' ');
  }

  lemma {:induction false} ParseRecordsAppend(a: seq<string>, b: seq<string>)
    ensures ParseRecords(a + b) == ParseRecords(a) + ParseRecords(b)
  {
    if b == [] {
      assert a + b == a;
    } else {
      ParseRecordsAppend(a, Init(b));
      assert Init(a + b) == a + Init(b) && Last(a + b) == Last(b);
    }
  }

  /** Parsing a written listing gives back exactly what it meant. */
  lemma {:induction false} ParseTrackedRoundTrip(ls: seq<Listed>)
    requires forall l :: l in ls ==> WellFormed(l)
    ensures ParseRecords(Split(WrittenAll(ls), NUL)) == Meant(ls)
  {
    if ls == [] {
      var blank: seq<string> := [""];
      assert Init(blank) == [] && Last(blank) == "";
      assert Split(WrittenAll(ls), NUL) == blank;
    } else {
      assert ls[0] in ls;
      ParseWritten(ls[0]);
      SplitPiece(Written(ls[0]), WrittenAll(ls[1..]), NUL);
      ParseRecordsAppend([Written(ls[0])], Split(WrittenAll(ls[1..]), NUL));
      ParseTrackedRoundTrip(ls[1..]);
      assert Init([Written(ls[0])]) == [];
    }
  }

  // ---------- one entry per path

  predicate First(tracked: seq<Tracked>, i: nat, path: string) {
    i < |tracked| && tracked[i].path == path && forall j :: 0 <= j < i ==> tracked[j].path != path
  }

  predicate Clean(tracked: seq<Tracked>, path: string) {
    forall t :: t in tracked && t.path == path ==> t.stage == Some(0)
  }

  /** `u` has the blob of its path's first entry and is at stage zero when all its entries are. */
  ghost predicate From(tracked: seq<Tracked>, u: Tracked) {
    && (exists i: nat :: First(tracked, i, u.path) && tracked[i].blob == u.blob)
    && (u.stage == Some(0) <==> Clean(tracked, u.path))
  }

  predicate Distinct(unique: seq<Tracked>) {
    forall a, b :: 0 <= a < b < |unique| ==> unique[a].path != unique[b].path
  }

  function Paths(tracked: seq<Tracked>): set<string> {
    set t | t in tracked :: t.path
  }

  /** One entry per path. */
  ghost predicate OnePerPath(tracked: seq<Tracked>, unique: seq<Tracked>) {
    Distinct(unique) && Paths(unique) == Paths(tracked) && forall k :: 0 <= k < |unique| ==> From(tracked, unique[k])
  }

  lemma CleanGrows(tracked: seq<Tracked>, e: Tracked, path: string)
    ensures Clean(tracked + [e], path) <==> Clean(tracked, path) && (path == e.path ==> e.stage == Some(0))
  {
    assert forall t :: t in tracked + [e] <==> t in tracked || t == e;
  }

  lemma FromOther(tracked: seq<Tracked>, e: Tracked, u: Tracked)
    requires From(tracked, u) && u.path != e.path
    ensures From(tracked + [e], u)
  {
    CleanGrows(tracked, e, u.path);
    var i: nat :| First(tracked, i, u.path) && tracked[i].blob == u.blob;
    assert First(tracked + [e], i, u.path);
  }

  lemma FromNew(tracked: seq<Tracked>, e: Tracked)
    requires e.path !in Paths(tracked)
    ensures From(tracked + [e], e)
  {
    CleanGrows(tracked, e, e.path);
    assert forall t :: t in tracked ==> t.path in Paths(tracked);
    assert First(tracked + [e], |tracked|, e.path);
  }

  function Restaged(u: Tracked, e: Tracked): Tracked {
    if e.stage != Some(0) then u.(stage := e.stage) else u
  }

  lemma FromAgain(tracked: seq<Tracked>, e: Tracked, u: Tracked)
    requires From(tracked, u) && u.path == e.path
    ensures From(tracked + [e], Restaged(u, e))
  {
    CleanGrows(tracked, e, e.path);
    var i: nat :| First(tracked, i, u.path) && tracked[i].blob == u.blob;
    assert First(tracked + [e], i, u.path);
  }

  lemma PathsGrow(tracked: seq<Tracked>, e: Tracked)
    ensures Paths(tracked + [e]) == Paths(tracked) + {e.path}
  {
    assert forall t :: t in tracked + [e] <==> t in tracked || t == e;
    assert e in tracked + [e];
  }

  lemma NewPath(tracked: seq<Tracked>, unique: seq<Tracked>, e: Tracked)
    requires OnePerPath(tracked, unique) && e.path !in Paths(unique)
    ensures OnePerPath(tracked + [e], unique + [e])
  {
    PathsGrow(tracked, e);
    PathsGrow(unique, e);
    FromNew(tracked, e);
    forall k | 0 <= k < |unique| ensures unique[k].path != e.path && From(tracked + [e], unique[k]) {
      assert unique[k] in unique;
      assert unique[k].path in Paths(unique);
      FromOther(tracked, e, unique[k]);
    }
  }

  lemma KnownPath(tracked: seq<Tracked>, unique: seq<Tracked>, e: Tracked, k: nat)
    requires OnePerPath(tracked, unique) && k < |unique| && unique[k].path == e.path
    ensures OnePerPath(tracked + [e], unique[k := Restaged(unique[k], e)])
  {
    var more := unique[k := Restaged(unique[k], e)];
    PathsGrow(tracked, e);
    SamePaths(unique, more);
    assert unique[k] in unique;
    assert e.path in Paths(unique);
    forall j | 0 <= j < |more| ensures From(tracked + [e], more[j]) {
      if j == k { FromAgain(tracked, e, unique[k]); } else { FromOther(tracked, e, unique[j]); }
    }
  }

  lemma SamePaths(a: seq<Tracked>, b: seq<Tracked>)
    requires |a| == |b| && forall i :: 0 <= i < |a| ==> a[i].path == b[i].path
    ensures Paths(a) == Paths(b)
  {
    forall p ensures p in Paths(a) <==> p in Paths(b) {
      if p in Paths(a) {
        var i :| 0 <= i < |a| && a[i].path == p;
        assert b[i] in b;
      }
      if p in Paths(b) {
        var i :| 0 <= i < |b| && b[i].path == p;
        assert a[i] in a;
      }
    }
  }

  /** `at` finds each path's entry. */
  predicate Found(at: map<string, nat>, unique: seq<Tracked>) {
    && (forall p :: p in at ==> at[p] < |unique| && unique[at[p]].path == p)
    && (forall k :: 0 <= k < |unique| ==> unique[k].path in at)
  }

  method UniqueTracked(tracked: seq<Tracked>) returns (unique: seq<Tracked>)
    ensures OnePerPath(tracked, unique)
  {
    unique := [];
    var at: map<string, nat> := map[];
    for i := 0 to |tracked|
      invariant OnePerPath(tracked[..i], unique) && Found(at, unique)
    {
      var entry := tracked[i];
      assert tracked[..i + 1] == tracked[..i] + [entry];
      if entry.path !in at {
        NewPath(tracked[..i], unique, entry);
        at := at[entry.path := |unique|];
        unique := unique + [entry];
      } else {
        var k := at[entry.path];
        KnownPath(tracked[..i], unique, entry, k);
        if entry.stage != Some(0) { unique := unique[k := unique[k].(stage := entry.stage)]; }
        else { assert unique[k := unique[k]] == unique; }
      }
    }
    assert tracked[..|tracked|] == tracked;
  }

  // ---------- counting

  /** A text's lines; None for content that holds a NUL. */
  function TextLines(content: string): Option<nat> {
    if NUL in content then None else Some(|Split(content, '\n')|)
  }

  /** A read path's count: None when it cannot be read, Some(None) when it is not text. */
  function CountFile(content: Option<string>): Option<Option<nat>> {
    if content.None? then None else Some(TextLines(content.value))
  }

  function AddCount(counts: Counts, count: Option<Option<nat>>): Counts {
    if count.None? || count.value.None? then counts else Counts(counts.files + 1, counts.lines + count.value.value)
  }

  /** The batch definition: read every tracked file. */
  function ReadAll(unique: seq<Tracked>, disk: string -> Option<string>): Counts {
    if unique == [] then Counts(0, 0)
    else AddCount(ReadAll(Init(unique), disk), CountFile(disk(Last(unique).path)))
  }

  /** Only an unmodified entry at stage zero has the content of its blob. */
  predicate Indexed(e: Tracked, modified: set<string>) {
    e.path !in modified && e.stage == Some(0)
  }

  /** What git promises of unmodified files: they can be read and hold what their blob holds. */
  ghost predicate Faithful(unique: seq<Tracked>, modified: set<string>, disk: string -> Option<string>,
                           truth: string -> Option<nat>) {
    forall e :: e in unique && Indexed(e, modified) ==> CountFile(disk(e.path)) == Some(truth(e.blob))
  }

  ghost predicate Sound(blobs: map<string, Option<nat>>, truth: string -> Option<nat>) {
    forall b :: b in blobs ==> blobs[b] == truth(b)
  }

  /** The stored line counts; each blob's count never changes, so entries are only added. */
  class BlobLineIndex {
    var blobs: map<string, Option<nat>>

    constructor ()
      ensures blobs == map[]
    {
      blobs := map[];
    }

    method Store(counts: map<string, Option<nat>>)
      modifies this
      ensures blobs == old(blobs) + counts
    {
      blobs := blobs + counts;
    }
  }

  /** No blob was read again once a read of it succeeded, and none that was stored was read. */
  ghost predicate ReadOnce(fetched: seq<Tracked>, blobs: map<string, Option<nat>>, disk: string -> Option<string>) {
    && (forall i :: 0 <= i < |fetched| ==> fetched[i].blob !in blobs)
    && (forall i, j :: 0 <= i < j < |fetched| && fetched[i].blob == fetched[j].blob ==> disk(fetched[i].path).None?)
  }

  /** One pass over the unmodified entries' blobs, `known` being stored already and `learnt` new. */
  datatype Pass = Pass(counts: Counts, learnt: map<string, Option<nat>>, fetched: seq<Tracked>)

  ghost predicate Kept(p: Pass, known: map<string, Option<nat>>, disk: string -> Option<string>) {
    && ReadOnce(p.fetched, known, disk)
    && (forall e :: e in p.fetched && disk(e.path).Some? ==> e.blob in p.learnt)
    && (forall b :: b in p.learnt ==> exists e :: e in p.fetched && disk(e.path).Some? && e.blob == b)
  }

  /** An unmodified entry: its stored count, its count from this pass, or a read. */
  method CountIndexed(p: Pass, e: Tracked, known: map<string, Option<nat>>, disk: string -> Option<string>,
                      ghost truth: string -> Option<nat>)
    returns (q: Pass)
    requires Kept(p, known, disk)
    ensures Kept(q, known, disk)
    ensures q.fetched == p.fetched || q.fetched == p.fetched + [e]
    ensures Sound(known, truth) && Sound(p.learnt, truth) && CountFile(disk(e.path)) == Some(truth(e.blob))
            ==> Sound(q.learnt, truth) && q.counts == AddCount(p.counts, CountFile(disk(e.path)))
  {
    q := p;
    var lines: Option<nat>;
    if e.blob in known {
      lines := known[e.blob];
    } else {
      if e.blob !in p.learnt {
        q := Fetch(p, e, disk);
        FetchKeeps(p, e, known, disk);
        if disk(e.path).None? { return; }
      }
      lines := q.learnt[e.blob];
    }
    if lines.Some? { q := q.(counts := Counts(q.counts.files + 1, q.counts.lines + lines.value)); }
  }

  function Fetch(p: Pass, e: Tracked, disk: string -> Option<string>): Pass {
    var tried := p.(fetched := p.fetched + [e]);
    match CountFile(disk(e.path))
    case None => tried
    case Some(lines) => tried.(learnt := p.learnt[e.blob := lines])
  }

  lemma FetchKeeps(p: Pass, e: Tracked, known: map<string, Option<nat>>, disk: string -> Option<string>)
    requires Kept(p, known, disk) && e.blob !in known && e.blob !in p.learnt
    ensures Kept(Fetch(p, e, disk), known, disk)
  {
    var q := Fetch(p, e, disk);
    forall i, j | 0 <= i < j < |q.fetched| && q.fetched[i].blob == q.fetched[j].blob ensures disk(q.fetched[i].path).None? {
      if j == |p.fetched| { assert q.fetched[i] in p.fetched; }
    }
    assert forall x :: x in q.fetched <==> x in p.fetched || x == e;
  }

  /**
   The totals with an index, or without one when it cannot be opened. `fetched` are the unmodified
   entries whose file was read to learn their blob's count.
   */
  method CountTracked(unique: seq<Tracked>, modified: set<string>, index: BlobLineIndex?,
                          disk: string -> Option<string>, ghost truth: string -> Option<nat>)
    returns (counts: Counts, fetched: seq<Tracked>)
    modifies if index == null then {} else {index}
    ensures (index != null ==> old(Sound(index.blobs, truth))) && Faithful(unique, modified, disk, truth)
            ==> counts == ReadAll(unique, disk) && (index != null ==> Sound(index.blobs, truth))
    ensures index == null ==> counts == ReadAll(unique, disk) && fetched == []
    ensures index != null ==> ReadOnce(fetched, old(index.blobs), disk)
    ensures index != null ==> forall b :: b in index.blobs <==>
                                b in old(index.blobs) || exists e :: e in fetched && disk(e.path).Some? && e.blob == b
    ensures forall e :: e in fetched ==> e in unique && Indexed(e, modified)
  {
    var known: map<string, Option<nat>> := if index == null then map[] else index.blobs;
    var pass := Pass(Counts(0, 0), map[], []);
    for i := 0 to |unique|
      invariant index != null ==> index.blobs == old(index.blobs)
      invariant index == null ==> pass.counts == ReadAll(unique[..i], disk) && pass.fetched == []
      invariant Sound(known, truth) && Faithful(unique, modified, disk, truth)
                ==> pass.counts == ReadAll(unique[..i], disk) && Sound(pass.learnt, truth)
      invariant Kept(pass, known, disk)
      invariant forall e :: e in pass.fetched ==> e in unique && Indexed(e, modified)
    {
      assert Init(unique[..i + 1]) == unique[..i];
      var entry := unique[i];
      assert entry in unique;
      if index == null || entry.path in modified || entry.stage != Some(0) {
        pass := pass.(counts := AddCount(pass.counts, CountFile(disk(entry.path))));
      } else {
        pass := CountIndexed(pass, entry, known, disk, truth);
      }
    }
    assert unique[..|unique|] == unique;
    if index != null { index.Store(pass.learnt); }
    counts, fetched := pass.counts, pass.fetched;
  }

  function ParseModified(stdout: string): set<string> {
    set entry | entry in Split(stdout, NUL) && entry != []
  }

  // ---------- the walk used when git gives no listing

  /** What one directory entry is; an unreadable directory has no entries, an unreadable file no content. */
  datatype Entry =
    | FileEntry(name: string, content: Option<string>)
    | DirEntry(name: string, entries: seq<Entry>)
    | OtherEntry(name: string)

  const IGNORED_DIRS: set<string> := {
    "node_modules", "dist", ".git", ".run", "coverage", ".nyc_output", ".vscode", ".idea"
  }

  /** The contents of the files that are not below an ignored directory, in the order they are listed. */
  function Reachable(entries: seq<Entry>): seq<Option<string>> {
    if |entries| == 0 then []
    else
      (match entries[0]
       case FileEntry(_, content) => [content]
       case DirEntry(name, below) => if name in IGNORED_DIRS then [] else Reachable(below)
       case OtherEntry(_) => [])
      + Reachable(entries[1..])
  }

  function AddAll(counts: Counts, contents: seq<Option<string>>): Counts
    decreases |contents|
  {
    if |contents| == 0 then counts else AddAll(AddCount(counts, CountFile(contents[0])), contents[1..])
  }

  lemma {:induction false} AddBoth(counts: Counts, a: seq<Option<string>>, b: seq<Option<string>>)
    ensures AddAll(counts, a + b) == AddAll(AddAll(counts, a), b)
    decreases |a|
  {
    if |a| == 0 {
      assert a + b == b;
    } else {
      assert (a + b)[1..] == a[1..] + b;
      AddBoth(AddCount(counts, CountFile(a[0])), a[1..], b);
    }
  }

  /** The recursive walk adds up exactly the files outside the ignored directories. */
  method WalkRepoCounts(entries: seq<Entry>, counts: Counts) returns (total: Counts)
    ensures total == AddAll(counts, Reachable(entries))
    decreases entries
  {
    total := counts;
    for i := 0 to |entries|
      invariant AddAll(total, Reachable(entries[i..])) == AddAll(counts, Reachable(entries))
    {
      ghost var before := total;
      assert entries[i..][0] == entries[i] && entries[i..][1..] == entries[i + 1..];
      match entries[i] {
        case FileEntry(_, content) =>
          AddBoth(before, [content], Reachable(entries[i + 1..]));
          total := AddCount(total, CountFile(content));
          assert AddAll(before, [content]) == AddAll(total, []);
        case DirEntry(name, below) =>
          if name !in IGNORED_DIRS {
            AddBoth(before, Reachable(below), Reachable(entries[i + 1..]));
            total := WalkRepoCounts(below, total);
          } else {
            AddBoth(before, [], Reachable(entries[i + 1..]));
          }
        case OtherEntry(_) => AddBoth(before, [], Reachable(entries[i + 1..]));
      }
    }
  }

  /** One run over a repository: git's two listings, unless one failed, and the files themselves. */
  datatype Repo = Repo(listing: Option<(string, string)>, disk: string -> Option<string>, root: seq<Entry>)
  {
    function Listed(): string {
      if listing.Some? then listing.value.0 else []
    }

    function Modified(): set<string> {
      ParseModified(if listing.Some? then listing.value.1 else [])
    }
  }

  /** What git promises of the repository's unmodified files, whichever one entry per path is kept. */
  ghost predicate Honest(repo: Repo, truth: string -> Option<nat>) {
    forall unique :: OnePerPath(ParseRecords(Split(repo.Listed(), NUL)), unique) ==>
                       Faithful(unique, repo.Modified(), repo.disk, truth)
  }

  /**
   The totals of a repository's listing: those of reading every tracked file, once per path. Without a
   listing they are those of the files a walk reaches.
   */
  method GatherRepoCounts(repo: Repo, index: BlobLineIndex?, ghost truth: string -> Option<nat>)
    returns (counts: Counts, fetched: seq<Tracked>, ghost unique: seq<Tracked>)
    modifies if index == null then {} else {index}
    ensures repo.listing.Some? ==> OnePerPath(ParseRecords(Split(repo.Listed(), NUL)), unique)
    ensures (index != null ==> old(Sound(index.blobs, truth))) && Honest(repo, truth)
            ==> Agrees(repo, unique, counts) && (index != null ==> Sound(index.blobs, truth))
    ensures repo.listing.None? ==> counts == AddAll(Counts(0, 0), Reachable(repo.root)) && fetched == []
                                   && (index != null ==> index.blobs == old(index.blobs))
    ensures repo.listing.Some? && index == null ==> counts == ReadAll(unique, repo.disk) && fetched == []
    ensures index != null ==> ReadOnce(fetched, old(index.blobs), repo.disk)
    ensures forall e :: e in fetched ==> e in unique && Indexed(e, repo.Modified())
  {
    if repo.listing.None? {
      counts := WalkRepoCounts(repo.root, Counts(0, 0));
      return counts, [], [];
    }
    var tracked := ParseTracked(repo.Listed());
    var kept := UniqueTracked(tracked);
    unique := kept;
    counts, fetched := CountTracked(kept, repo.Modified(), index, repo.disk, truth);
  }

  ghost predicate Agrees(repo: Repo, unique: seq<Tracked>, counts: Counts) {
    if repo.listing.None? then counts == AddAll(Counts(0, 0), Reachable(repo.root))
    else OnePerPath(ParseRecords(Split(repo.Listed(), NUL)), unique) && counts == ReadAll(unique, repo.disk)
  }

  /** Over any series of runs that share one index, every run agrees with reading everything. */
  method Series(repos: seq<Repo>, index: BlobLineIndex, ghost truth: string -> Option<nat>)
    returns (totals: seq<Counts>, ghost uniques: seq<seq<Tracked>>)
    requires Sound(index.blobs, truth)
    requires forall r :: r in repos ==> Honest(r, truth)
    modifies index
    ensures |totals| == |uniques| == |repos| && Sound(index.blobs, truth)
    ensures forall k :: 0 <= k < |repos| ==> Agrees(repos[k], uniques[k], totals[k])
  {
    totals, uniques := [], [];
    for i := 0 to |repos|
      invariant |totals| == |uniques| == i && Sound(index.blobs, truth)
      invariant forall k :: 0 <= k < i ==> Agrees(repos[k], uniques[k], totals[k])
    {
      var counts, _, unique := GatherRepoCounts(repos[i], index, truth);
      totals, uniques := totals + [counts], uniques + [unique];
    }
  }
}
