/**
 The archive transaction: a write-ahead undo record, the spec and sidecar writes, the gates, then
 the commit or the restore.

 A process is killed by running out of writes: every write to disk spends one of `writesLeft`, and
 the write that finds none left is the one the process dies in, leaving its file untouched or torn.
 Every possible crash point is a value of that budget.
 */
module ArchiveTransaction {
  import opened Wrappers
  import Checkboxes
  import DeltaMerge
  import MergeAgain
  import OpenFences
  import SpecText

  /** What a living file holds, a spec or a sidecar: its lines. */
  type Content = SpecText.File

  datatype FileKind = SpecMd | OsqYml

  /** A living file of one capability. */
  datatype File = File(cap: string, kind: FileKind)

  type Living = map<File, Content>

  /** A created capability; `sidecar` is None when the proposal gives it no group. */
  datatype Create = Create(name: string, sidecar: Option<Content>)

  datatype Change = Change(
    caps: seq<string>,                              // the folders under the change's own specs/, in order
    deltas: map<string, DeltaMerge.Delta>,          // the parsed delta of each folder that holds one
    fold: string -> string,                         // what names come to when case and spacing are ignored
    creates: seq<Create>,                           // empty when the proposal is missing or malformed
    replacements: map<string, Content>)             // the osq.yml the change carries, by capability

  // ---------- the deltas and sidecars as functions of the living files

  function MergedOf(base: Option<Content>, ch: Change, cap: string): DeltaMerge.Merged
    requires cap in ch.deltas
  {
    DeltaMerge.Merge(base, cap, ch.deltas[cap], ch.fold)
  }

  /** The living files with one capability merged. */
  function WithMerged(living: Living, cap: string, merged: DeltaMerge.Merged): Living {
    match merged
    case Threw => living
    case Emptied => living - {File(cap, SpecMd)} - {File(cap, OsqYml)}
    case Wrote(text) => living[File(cap, SpecMd) := text]
  }

  function MergeOne(living: Living, ch: Change, cap: string): Living {
    if cap !in ch.deltas then living else WithMerged(living, cap, MergedOf(Lookup(living, File(cap, SpecMd)), ch, cap))
  }

  /** The capability's delta, if it has one, does not throw. */
  predicate Takes(living: Living, ch: Change, cap: string) {
    cap in ch.deltas ==> MergedOf(Lookup(living, File(cap, SpecMd)), ch, cap) != DeltaMerge.Threw
  }

  function MergeFirst(living: Living, ch: Change, n: nat): Living
    requires n <= |ch.caps|
  {
    if n == 0 then living else MergeOne(MergeFirst(living, ch, n - 1), ch, ch.caps[n - 1])
  }

  ghost predicate TakenFirst(living: Living, ch: Change, n: nat)
    requires n <= |ch.caps|
  {
    forall i :: 0 <= i < n ==> Takes(MergeFirst(living, ch, i), ch, ch.caps[i])
  }

  /** No delta of the change throws. */
  ghost predicate Accepted(living: Living, ch: Change) {
    TakenFirst(living, ch, |ch.caps|)
  }

  predicate Writes(living: Living, c: Create) {
    c.sidecar.Some? && File(c.name, SpecMd) in living && File(c.name, OsqYml) !in living
  }

  function CreateFirst(living: Living, ch: Change, n: nat): Living
    requires n <= |ch.creates|
  {
    if n == 0 then living else
      var before, c := CreateFirst(living, ch, n - 1), ch.creates[n - 1];
      if Writes(before, c) then before[File(c.name, OsqYml) := c.sidecar.value] else before
  }

  function ReplaceFirst(living: Living, ch: Change, n: nat): Living
    requires n <= |ch.caps|
  {
    if n == 0 then living else
      var before, cap := ReplaceFirst(living, ch, n - 1), ch.caps[n - 1];
      if cap in ch.replacements then before[File(cap, OsqYml) := ch.replacements[cap]] else before
  }

  /** The living files once the change's deltas and sidecars are in. */
  function Applied(living: Living, ch: Change): Living {
    ReplaceFirst(CreateFirst(MergeFirst(living, ch, |ch.caps|), ch, |ch.creates|), ch, |ch.caps|)
  }

  function AppliedTimes(living: Living, ch: Change, n: nat): Living {
    if n == 0 then living else Applied(AppliedTimes(living, ch, n - 1), ch)
  }

  // ---------- the undo record

  type Record = map<File, Option<Content>>

  /** The record as it lies on disk; a torn one is not JSON and reads as an empty record. */
  datatype RecordFile = Absent | Torn | Whole(entries: Record)

  function Entries(record: RecordFile): Record {
    if record.Whole? then record.entries else map[]
  }

  function RecordedFiles(ch: Change): set<File> {
    (set cap | cap in ch.caps :: File(cap, SpecMd)) + (set cap | cap in ch.caps :: File(cap, OsqYml))
  }

  function RecordOf(living: Living, ch: Change): Record {
    map f | f in RecordedFiles(ch) :: Lookup(living, f)
  }

  /** The living files with every recorded one put back. */
  function Overlay(living: Living, record: Record): (r: Living)
    ensures forall f :: Lookup(r, f) == if f in record then record[f] else Lookup(living, f)
  {
    map f | f in living.Keys + record.Keys && (f in record ==> record[f].Some?)
      :: if f in record then record[f].value else living[f]
  }

  // ---------- what the record can undo

  /**
   The guard the transaction rests on: no create names a capability outside the change's own
   `specs/` whose living spec exists without a sidecar.
   */
  predicate NoStrayCreate(living: Living, ch: Change) {
    forall c | c in ch.creates && c.name !in ch.caps :: !Writes(living, c)
  }

  lemma OverlayReaches(living: Living, record: Record, base: Living)
    requires forall f | f in record :: record[f] == Lookup(base, f)
    requires SameOutside(living, base, record.Keys)
    ensures Overlay(living, record) == base
  {
    SameLookups(Overlay(living, record), base);
  }

  ghost predicate SameOutside(a: Living, b: Living, files: set<File>) {
    forall f | f !in files :: Lookup(a, f) == Lookup(b, f)
  }

  lemma {:induction false} MergeStaysInside(living: Living, ch: Change, n: nat)
    requires n <= |ch.caps|
    ensures SameOutside(MergeFirst(living, ch, n), living, RecordedFiles(ch))
  {
    hide DeltaMerge.Merge;
    if n > 0 {
      var before, cap := MergeFirst(living, ch, n - 1), ch.caps[n - 1];
      MergeStaysInside(living, ch, n - 1);
      assert cap in ch.caps;
      assert {File(cap, SpecMd), File(cap, OsqYml)} <= RecordedFiles(ch);
      if cap in ch.deltas { MergedStaysInside(before, cap, MergedOf(Lookup(before, File(cap, SpecMd)), ch, cap)); }
    }
  }

  /** The first `n` deltas are merged and none of them threw. */
  ghost predicate Stands(start: Living, ch: Change, n: nat, living: Living)
    requires n <= |ch.caps|
  {
    living == MergeFirst(start, ch, n) && TakenFirst(start, ch, n)
  }

  lemma StandsNext(start: Living, ch: Change, i: nat, was: Living)
    requires i < |ch.caps| && Stands(start, ch, i, was)
    ensures Takes(was, ch, ch.caps[i]) ==> Stands(start, ch, i + 1, MergeOne(was, ch, ch.caps[i]))
    ensures !Takes(was, ch, ch.caps[i]) ==> !Accepted(start, ch)
  {
    hide DeltaMerge.Merge;
  }

  lemma StandsInside(start: Living, ch: Change, i: nat, was: Living, now: Living)
    requires i < |ch.caps| && Stands(start, ch, i, was)
    requires SameOutside(now, was, {File(ch.caps[i], SpecMd), File(ch.caps[i], OsqYml)})
    ensures SameOutside(now, start, RecordedFiles(ch))
  {
    hide DeltaMerge.Merge;
    MergeStaysInside(start, ch, i);
    assert ch.caps[i] in ch.caps;
    assert {File(ch.caps[i], SpecMd), File(ch.caps[i], OsqYml)} <= RecordedFiles(ch);
  }

  lemma {:induction false} CreateStaysInside(base: Living, living: Living, ch: Change, n: nat)
    requires n <= |ch.creates| && NoStrayCreate(base, ch)
    requires SameOutside(living, base, RecordedFiles(ch))
    ensures SameOutside(CreateFirst(living, ch, n), base, RecordedFiles(ch))
  {
    if n > 0 {
      CreateStaysInside(base, living, ch, n - 1);
      var before, c := CreateFirst(living, ch, n - 1), ch.creates[n - 1];
      assert c in ch.creates;
      if c.name !in ch.caps {
        assert forall k :: Lookup(before, File(c.name, k)) == Lookup(base, File(c.name, k));
        assert !Writes(before, c);
      }
    }
  }

  lemma {:induction false} ReplaceStaysInside(base: Living, living: Living, ch: Change, n: nat)
    requires n <= |ch.caps| && SameOutside(living, base, RecordedFiles(ch))
    ensures SameOutside(ReplaceFirst(living, ch, n), base, RecordedFiles(ch))
  {
    if n > 0 {
      ReplaceStaysInside(base, living, ch, n - 1);
      assert ch.caps[n - 1] in ch.caps;
    }
  }

  lemma AppliedStaysInside(living: Living, ch: Change)
    requires NoStrayCreate(living, ch)
    ensures SameOutside(Applied(living, ch), living, RecordedFiles(ch))
    ensures NoStrayCreate(Applied(living, ch), ch)
  {
    MergeStaysInside(living, ch, |ch.caps|);
    CreateStaysInside(living, MergeFirst(living, ch, |ch.caps|), ch, |ch.creates|);
    ReplaceStaysInside(living, CreateFirst(MergeFirst(living, ch, |ch.caps|), ch, |ch.creates|), ch, |ch.caps|);
    forall c | c in ch.creates && c.name !in ch.caps ensures !Writes(Applied(living, ch), c) {
      assert forall k :: Lookup(Applied(living, ch), File(c.name, k)) == Lookup(living, File(c.name, k));
    }
  }

  lemma {:induction false} CreatedSidecarStays(living: Living, ch: Change, i: nat, n: nat)
    requires i < n <= |ch.creates| && Writes(living, ch.creates[i])
    ensures File(ch.creates[i].name, OsqYml) in CreateFirst(living, ch, n)
  {
    if n == i + 1 {
      SpecsSurviveCreates(living, ch, i);
    } else {
      CreatedSidecarStays(living, ch, i, n - 1);
    }
  }

  lemma {:induction false} SpecsSurviveCreates(living: Living, ch: Change, n: nat)
    requires n <= |ch.creates|
    ensures forall f | f in living :: f in CreateFirst(living, ch, n)
    ensures forall cap :: File(cap, SpecMd) in CreateFirst(living, ch, n) <==> File(cap, SpecMd) in living
  {
    if n > 0 {
      SpecsSurviveCreates(living, ch, n - 1);
    }
  }

  /** The record undoes the deltas wherever they stopped, whether or not a later one throws. */
  lemma DeltasAreUndone(living: Living, ch: Change, n: nat)
    requires n <= |ch.caps|
    ensures Overlay(MergeFirst(living, ch, n), RecordOf(living, ch)) == living
  {
    MergeStaysInside(living, ch, n);
    SameLookups(Overlay(MergeFirst(living, ch, n), RecordOf(living, ch)), living);
  }

  /** A sidecar created outside the record is still there at the end. */
  lemma StrayStays(living: Living, ch: Change, i: nat)
    requires i < |ch.creates| && ch.creates[i].name !in ch.caps && Writes(living, ch.creates[i])
    ensures File(ch.creates[i].name, OsqYml) in Applied(living, ch)
    ensures File(ch.creates[i].name, OsqYml) !in RecordOf(living, ch)
  {
    var merged, sidecar := MergeFirst(living, ch, |ch.caps|), File(ch.creates[i].name, OsqYml);
    MergeStaysInside(living, ch, |ch.caps|);
    assert forall k :: Lookup(merged, File(ch.creates[i].name, k)) == Lookup(living, File(ch.creates[i].name, k));
    CreatedSidecarStays(merged, ch, i, |ch.creates|);
    var created := CreateFirst(merged, ch, |ch.creates|);
    ReplaceStaysInside(created, created, ch, |ch.caps|);
    assert Lookup(Applied(living, ch), sidecar) == Lookup(created, sidecar);
  }

  /** The record undoes a whole application exactly when no create strays outside it. */
  lemma UndoneIffNoStray(living: Living, ch: Change)
    requires Accepted(living, ch)
    ensures Overlay(Applied(living, ch), RecordOf(living, ch)) == living <==> NoStrayCreate(living, ch)
  {
    hide DeltaMerge.Merge;
    var after, back := Applied(living, ch), Overlay(Applied(living, ch), RecordOf(living, ch));
    if NoStrayCreate(living, ch) {
      AppliedStaysInside(living, ch);
      SameLookups(back, living);
    } else {
      var i :| 0 <= i < |ch.creates| && ch.creates[i].name !in ch.caps && Writes(living, ch.creates[i]);
      StrayStays(living, ch, i);
      assert Lookup(back, File(ch.creates[i].name, OsqYml)) == Lookup(after, File(ch.creates[i].name, OsqYml));
    }
  }

  /** A proposal that creates a sidecar for a capability it has no delta for leaks that sidecar. */
  lemma StrayCreateLeaks(fold: string -> string, spec: Content, sidecar: Content) returns (living: Living, ch: Change)
    ensures Accepted(living, ch) && Overlay(Applied(living, ch), RecordOf(living, ch)) != living
  {
    ch := Change([], map[], fold, [Create("auth", Some(sidecar))], map[]);
    living := map[File("auth", SpecMd) := spec];
    assert Writes(living, ch.creates[0]);
    UndoneIffNoStray(living, ch);
  }

  // ---------- the same change again

  /** What merging leaves of a capability's spec. */
  function Leaves(base: Option<Content>, ch: Change, cap: string): Option<Content> {
    if cap !in ch.deltas then base else SpecAfter(base, MergedOf(base, ch, cap))
  }

  function SpecAfter(base: Option<Content>, merged: DeltaMerge.Merged): Option<Content> {
    match merged
    case Threw => base
    case Emptied => None
    case Wrote(text) => Some(text)
  }

  lemma MergedFiles(living: Living, merged: string, result: DeltaMerge.Merged, cap: string)
    ensures var base, after := Lookup(living, File(cap, SpecMd)), WithMerged(living, merged, result);
            && Lookup(after, File(cap, SpecMd)) == (if merged == cap then SpecAfter(base, result) else base)
            && Lookup(after, File(cap, OsqYml))
               == (if merged == cap && result.Emptied? then None else Lookup(living, File(cap, OsqYml)))
  {
  }

  lemma MergedStaysInside(living: Living, cap: string, result: DeltaMerge.Merged)
    ensures SameOutside(WithMerged(living, cap, result), living, {File(cap, SpecMd), File(cap, OsqYml)})
  {
  }

  predicate Empties(base: Option<Content>, ch: Change, cap: string) {
    cap in ch.deltas && MergedOf(base, ch, cap) == DeltaMerge.Emptied
  }

  lemma NotEarlier(caps: seq<string>, i: nat)
    requires DeltaMerge.Distinct(caps) && i < |caps|
    ensures caps[i] !in caps[..i]
  {
    forall j | 0 <= j < i ensures caps[..i][j] != caps[i] { assert caps[j] != caps[i]; }
  }

  /** Merging one capability touches its own two files. */
  lemma MergedOne(living: Living, ch: Change, merged: string, cap: string)
    ensures var base, after := Lookup(living, File(cap, SpecMd)), MergeOne(living, ch, merged);
            && Lookup(after, File(cap, SpecMd)) == (if merged == cap then Leaves(base, ch, cap) else base)
            && Lookup(after, File(cap, OsqYml))
               == (if merged == cap && Empties(base, ch, cap) then None else Lookup(living, File(cap, OsqYml)))
  {
    hide DeltaMerge.Merge;
    if merged in ch.deltas {
      MergedFiles(living, merged, MergedOf(Lookup(living, File(merged, SpecMd)), ch, merged), cap);
    }
  }

  /** Merging other capabilities leaves a capability's files alone. */
  lemma {:induction false} OthersMerged(living: Living, ch: Change, i: nat, n: nat, cap: string)
    requires i <= n <= |ch.caps| && cap !in ch.caps[i..n]
    ensures forall kind :: Lookup(MergeFirst(living, ch, n), File(cap, kind)) == Lookup(MergeFirst(living, ch, i), File(cap, kind))
  {
    hide DeltaMerge.Merge;
    if i < n {
      assert ch.caps[i..n] == ch.caps[i..n - 1] + [ch.caps[n - 1]];
      OthersMerged(living, ch, i, n - 1, cap);
      OtherMerged(MergeFirst(living, ch, n - 1), ch, ch.caps[n - 1], cap);
    }
  }

  lemma OtherMerged(living: Living, ch: Change, merged: string, cap: string)
    requires merged != cap
    ensures forall kind :: Lookup(MergeOne(living, ch, merged), File(cap, kind)) == Lookup(living, File(cap, kind))
  {
    hide DeltaMerge.Merge;
    if merged in ch.deltas {
      MergedStaysInside(living, merged, MergedOf(Lookup(living, File(merged, SpecMd)), ch, merged));
    }
  }

  /** Each capability is merged once and on its own. */
  lemma {:induction false} MergedFirst(living: Living, ch: Change, n: nat, cap: string)
    requires n <= |ch.caps| && DeltaMerge.Distinct(ch.caps)
    ensures var base, after := Lookup(living, File(cap, SpecMd)), MergeFirst(living, ch, n);
            && Lookup(after, File(cap, SpecMd)) == (if cap in ch.caps[..n] then Leaves(base, ch, cap) else base)
            && Lookup(after, File(cap, OsqYml))
               == (if cap in ch.caps[..n] && Empties(base, ch, cap) then None else Lookup(living, File(cap, OsqYml)))
  {
    hide DeltaMerge.Merge;
    if cap in ch.caps[..n] {
      var i :| 0 <= i < n && ch.caps[i] == cap;
      OnceOnly(ch.caps, i, n);
      OthersMerged(living, ch, 0, i, cap);
      MergedOne(MergeFirst(living, ch, i), ch, cap, cap);
      assert MergeFirst(living, ch, i + 1) == MergeOne(MergeFirst(living, ch, i), ch, cap);
      OthersMerged(living, ch, i + 1, n, cap);
    } else {
      OthersMerged(living, ch, 0, n, cap);
    }
  }

  lemma OnceOnly(caps: seq<string>, i: nat, n: nat)
    requires DeltaMerge.Distinct(caps) && i < n <= |caps|
    ensures caps[i] !in caps[0..i] && caps[i] !in caps[i + 1..n]
  {
    var before, after := caps[0..i], caps[i + 1..n];
    forall j | 0 <= j < |before| ensures before[j] != caps[i] { assert before[j] == caps[j]; }
    forall j | 0 <= j < |after| ensures after[j] != caps[i] { assert after[j] == caps[i + 1 + j]; }
  }

  /** The change is accepted exactly when every capability's delta takes its own spec. */
  lemma AcceptedIff(living: Living, ch: Change)
    requires DeltaMerge.Distinct(ch.caps)
    ensures Accepted(living, ch) <==> forall cap :: cap in ch.caps ==> Takes(living, ch, cap)
  {
    hide DeltaMerge.Merge;
    forall i | 0 <= i < |ch.caps|
      ensures Takes(MergeFirst(living, ch, i), ch, ch.caps[i]) <==> Takes(living, ch, ch.caps[i])
    {
      MergedFirst(living, ch, i, ch.caps[i]);
      NotEarlier(ch.caps, i);
    }
  }

  /** The sidecar the first of `n` creates gives a capability. */
  function FirstSidecar(ch: Change, n: nat, cap: string): Option<Content>
    requires n <= |ch.creates|
  {
    if n == 0 then None
    else
      var before := FirstSidecar(ch, n - 1, cap);
      if before.Some? || ch.creates[n - 1].name != cap then before else ch.creates[n - 1].sidecar
  }

  lemma {:induction false} CreatedFirst(living: Living, ch: Change, n: nat, cap: string)
    requires n <= |ch.creates|
    ensures var after, sidecar := CreateFirst(living, ch, n), Lookup(living, File(cap, OsqYml));
            && Lookup(after, File(cap, SpecMd)) == Lookup(living, File(cap, SpecMd))
            && Lookup(after, File(cap, OsqYml))
               == if sidecar.Some? || File(cap, SpecMd) !in living then sidecar else FirstSidecar(ch, n, cap)
  {
    if n > 0 { CreatedFirst(living, ch, n - 1, cap); }
  }

  lemma {:induction false} ReplacedFirst(living: Living, ch: Change, n: nat, cap: string)
    requires n <= |ch.caps|
    ensures var after := ReplaceFirst(living, ch, n);
            && Lookup(after, File(cap, SpecMd)) == Lookup(living, File(cap, SpecMd))
            && Lookup(after, File(cap, OsqYml))
               == if cap in ch.caps[..n] && cap in ch.replacements then Some(ch.replacements[cap])
                  else Lookup(living, File(cap, OsqYml))
  {
    if n > 0 {
      ReplacedFirst(living, ch, n - 1, cap);
      assert ch.caps[..n] == ch.caps[..n - 1] + [ch.caps[n - 1]];
    }
  }

  /** A capability's two living files after the change, as functions of the same two before. */
  lemma AppliedFiles(living: Living, ch: Change, cap: string)
    requires DeltaMerge.Distinct(ch.caps)
    ensures var base, sidecar := Lookup(living, File(cap, SpecMd)), Lookup(living, File(cap, OsqYml));
            var spec := if cap in ch.caps then Leaves(base, ch, cap) else base;
            var kept := if cap in ch.caps && Empties(base, ch, cap) then None else sidecar;
            && Lookup(Applied(living, ch), File(cap, SpecMd)) == spec
            && Lookup(Applied(living, ch), File(cap, OsqYml))
               == (if cap in ch.caps && cap in ch.replacements then Some(ch.replacements[cap])
                   else if kept.Some? || spec.None? then kept
                   else FirstSidecar(ch, |ch.creates|, cap))
  {
    hide DeltaMerge.Merge;
    var merged := MergeFirst(living, ch, |ch.caps|);
    var created := CreateFirst(merged, ch, |ch.creates|);
    MergedFirst(living, ch, |ch.caps|, cap);
    CreatedFirst(merged, ch, |ch.creates|, cap);
    ReplacedFirst(created, ch, |ch.caps|, cap);
    assert ch.caps[..|ch.caps|] == ch.caps;
  }

  /** A change whose folders have different names, with deltas as parsing leaves them. */
  ghost predicate ParsedChange(ch: Change) {
    DeltaMerge.Distinct(ch.caps) && forall cap :: cap in ch.caps && cap in ch.deltas ==> DeltaMerge.Parsed(ch.deltas[cap])
  }

  /** Such a change in which no delta renames a requirement. */
  ghost predicate RenamesNothing(ch: Change) {
    ParsedChange(ch) && forall cap :: cap in ch.caps && cap in ch.deltas ==> ch.deltas[cap].renamed == []
  }

  predicate SettlesSpec(base: Option<Content>, ch: Change, cap: string)
    requires cap in ch.deltas
  {
    MergeAgain.Settled(base, cap, ch.deltas[cap], ch.fold)
  }

  /** In no merged spec does a part but the very last leave a fence open. */
  predicate Settles(living: Living, ch: Change) {
    forall cap | cap in ch.caps && cap in ch.deltas :: SettlesSpec(Lookup(living, File(cap, SpecMd)), ch, cap)
  }

  /** Merging what a merge left: refused exactly by a delta that refuses itself, and otherwise the same again. */
  lemma LeavesAgain(base: Option<Content>, ch: Change, cap: string)
    requires RenamesNothing(ch) && cap in ch.caps && cap in ch.deltas && SettlesSpec(base, ch, cap)
    requires MergedOf(base, ch, cap) != DeltaMerge.Threw
    ensures var left := Leaves(base, ch, cap);
            && (MergedOf(left, ch, cap) == DeltaMerge.Threw <==> left.Some? && MergeAgain.Refuses(ch.deltas[cap]))
            && Leaves(left, ch, cap) == left
            && (left.None? ==> Empties(base, ch, cap) && Empties(left, ch, cap))
            && (left.Some? ==> !Empties(left, ch, cap))
  {
    match MergedOf(base, ch, cap) {
      case Emptied => MergeAgain.EmptiedAgain(base, cap, ch.deltas[cap], ch.fold);
      case Wrote(text) => MergeAgain.MergedAgain(base, cap, ch.deltas[cap], ch.fold, text);
      case Threw => assert false;
    }
  }

  /** Applying such a change to the tree it left throws exactly when one of its remaining specs' deltas refuses itself. */
  lemma AcceptedAgainIff(living: Living, ch: Change)
    requires RenamesNothing(ch) && Settles(living, ch) && Accepted(living, ch)
    ensures Accepted(Applied(living, ch), ch) <==>
              forall cap :: cap in ch.caps && cap in ch.deltas && File(cap, SpecMd) in Applied(living, ch) ==>
                              !MergeAgain.Refuses(ch.deltas[cap])
  {
    hide DeltaMerge.Merge;
    AcceptedIff(living, ch);
    AcceptedIff(Applied(living, ch), ch);
    forall cap | cap in ch.caps && cap in ch.deltas
      ensures Takes(Applied(living, ch), ch, cap) <==>
                (File(cap, SpecMd) in Applied(living, ch) ==> !MergeAgain.Refuses(ch.deltas[cap]))
    {
      AppliedFiles(living, ch, cap);
      assert Takes(living, ch, cap) && SettlesSpec(Lookup(living, File(cap, SpecMd)), ch, cap);
      LeavesAgain(Lookup(living, File(cap, SpecMd)), ch, cap);
    }
  }

  /** Accepted again or not, such a change leaves its own tree as it is. */
  lemma AppliedAgain(living: Living, ch: Change)
    requires RenamesNothing(ch) && Settles(living, ch) && Accepted(living, ch)
    ensures Applied(Applied(living, ch), ch) == Applied(living, ch)
  {
    hide DeltaMerge.Merge;
    var once := Applied(living, ch);
    AcceptedIff(living, ch);
    forall f: File ensures Lookup(Applied(once, ch), f) == Lookup(once, f) {
      AppliedFiles(living, ch, f.cap);
      AppliedFiles(once, ch, f.cap);
      if f.cap in ch.caps && f.cap in ch.deltas {
        assert Takes(living, ch, f.cap) && SettlesSpec(Lookup(living, File(f.cap, SpecMd)), ch, f.cap);
        LeavesAgain(Lookup(living, File(f.cap, SpecMd)), ch, f.cap);
      }
      match f.kind {
        case SpecMd => assert f == File(f.cap, SpecMd);
        case OsqYml => assert f == File(f.cap, OsqYml);
      }
    }
    SameLookups(Applied(once, ch), once);
  }

  // ---------- any change again

  /** Each merged spec is settled and comes from one that does not repeat a requirement name. */
  ghost predicate SettlesDistinct(living: Living, ch: Change) {
    Settles(living, ch)
    && forall cap :: cap in ch.caps && cap in ch.deltas ==> MergeAgain.DistinctNames(Lookup(living, File(cap, SpecMd)))
  }

  /** A capability's spec comes out of the change as it went in. */
  ghost predicate StaysTheSame(living: Living, ch: Change, cap: string) {
    cap in ch.deltas && File(cap, SpecMd) in living ==>
      MergeAgain.ComesOutTheSame(ch.deltas[cap], SpecText.Read(living[File(cap, SpecMd)]).reqs)
  }

  lemma LeavesTwice(base: Option<Content>, ch: Change, cap: string)
    requires ParsedChange(ch) && cap in ch.caps && cap in ch.deltas
    requires SettlesSpec(base, ch, cap) && SettlesSpec(Leaves(base, ch, cap), ch, cap) && MergeAgain.DistinctNames(base)
    requires MergedOf(base, ch, cap) != DeltaMerge.Threw && MergedOf(Leaves(base, ch, cap), ch, cap) != DeltaMerge.Threw
    ensures var left := Leaves(base, ch, cap);
            && (left.None? ==> Empties(base, ch, cap) && Empties(left, ch, cap))
            && (left.Some? ==> !Empties(base, ch, cap))
            && (left.Some? ==> (MergedOf(left, ch, cap) == DeltaMerge.Wrote(left.value)
                                <==> MergeAgain.ComesOutTheSame(ch.deltas[cap], SpecText.Read(left.value).reqs)))
  {
    match MergedOf(base, ch, cap) {
      case Emptied => MergeAgain.EmptiedAgain(base, cap, ch.deltas[cap], ch.fold);
      case Wrote(text) => MergeAgain.MergedTwiceIff(base, cap, ch.deltas[cap], ch.fold, text);
      case Threw => assert false;
    }
  }

  /** One capability under a change that is accepted twice: both its files stay exactly when its spec does. */
  lemma FilesTwice(living: Living, ch: Change, cap: string)
    requires ParsedChange(ch) && Accepted(living, ch) && Accepted(Applied(living, ch), ch)
    requires SettlesDistinct(living, ch) && Settles(Applied(living, ch), ch)
    ensures var once := Applied(living, ch);
            (forall kind :: Lookup(Applied(once, ch), File(cap, kind)) == Lookup(once, File(cap, kind)))
            <==> (cap in ch.caps ==> StaysTheSame(once, ch, cap))
  {
    hide DeltaMerge.Merge;
    var once := Applied(living, ch);
    AppliedFiles(living, ch, cap);
    AppliedFiles(once, ch, cap);
    AcceptedIff(living, ch);
    AcceptedIff(once, ch);
    if cap in ch.caps && cap in ch.deltas {
      assert Takes(living, ch, cap) && Takes(once, ch, cap);
      assert SettlesSpec(Lookup(living, File(cap, SpecMd)), ch, cap) && SettlesSpec(Lookup(once, File(cap, SpecMd)), ch, cap);
      LeavesTwice(Lookup(living, File(cap, SpecMd)), ch, cap);
    }
    BothKinds(Applied(once, ch), once, cap);
  }

  lemma BothKinds(a: Living, b: Living, cap: string)
    ensures (forall kind :: Lookup(a, File(cap, kind)) == Lookup(b, File(cap, kind)))
            <==> Lookup(a, File(cap, SpecMd)) == Lookup(b, File(cap, SpecMd)) && Lookup(a, File(cap, OsqYml)) == Lookup(b, File(cap, OsqYml))
  {
    if Lookup(a, File(cap, SpecMd)) == Lookup(b, File(cap, SpecMd)) && Lookup(a, File(cap, OsqYml)) == Lookup(b, File(cap, OsqYml)) {
      forall kind ensures Lookup(a, File(cap, kind)) == Lookup(b, File(cap, kind)) {
        match kind { case SpecMd => case OsqYml => }
      }
    }
  }

  /**
   A change that is accepted twice, whatever it renames, leaves its own tree as it is exactly when every
   spec it left comes out with the same names, each that moves moving onto the text it had.
   */
  lemma AppliedTwiceIff(living: Living, ch: Change)
    requires ParsedChange(ch) && Accepted(living, ch) && Accepted(Applied(living, ch), ch)
    requires SettlesDistinct(living, ch) && Settles(Applied(living, ch), ch)
    ensures var once := Applied(living, ch);
            Applied(once, ch) == once <==> forall cap :: cap in ch.caps ==> StaysTheSame(once, ch, cap)
  {
    hide DeltaMerge.Merge;
    var once := Applied(living, ch);
    if forall cap :: cap in ch.caps ==> StaysTheSame(once, ch, cap) {
      forall f: File ensures Lookup(Applied(once, ch), f) == Lookup(once, f) {
        FilesTwice(living, ch, f.cap);
        assert f == File(f.cap, f.kind);
      }
      SameLookups(Applied(once, ch), once);
    }
    if Applied(once, ch) == once {
      forall cap | cap in ch.caps ensures StaysTheSame(once, ch, cap) { FilesTwice(living, ch, cap); }
    }
  }

  // ---------- attempts that are lost

  /** Each of `n` applications, one after the other, throws nowhere. */
  ghost predicate AcceptedTimes(living: Living, ch: Change, n: nat) {
    n == 0 || (AcceptedTimes(living, ch, n - 1) && Accepted(AppliedTimes(living, ch, n - 1), ch))
  }

  lemma {:induction false} FirstAccepted(living: Living, ch: Change, n: nat)
    requires n > 0 && AcceptedTimes(living, ch, n)
    ensures Accepted(living, ch)
  {
    if n > 1 { FirstAccepted(living, ch, n - 1); } else { assert AppliedTimes(living, ch, 0) == living; }
  }

  /** So attempts lost after dropping the record cost such a change nothing. */
  lemma {:induction false} KillsCostNothing(living: Living, ch: Change, lost: nat)
    requires RenamesNothing(ch) && Settles(living, ch) && Accepted(living, ch)
    ensures AppliedTimes(living, ch, lost + 1) == Applied(living, ch)
  {
    hide DeltaMerge.Merge;
    if lost > 0 {
      KillsCostNothing(living, ch, lost - 1);
      AppliedAgain(living, ch);
    } else {
      assert AppliedTimes(living, ch, 0) == living;
    }
  }

  lemma MergedText(base: Content, text: Content)
    ensures WithMerged(map[File("c", SpecMd) := base], "c", DeltaMerge.Wrote(text)) == map[File("c", SpecMd) := text]
  {
  }

  lemma OneSpec(ch: Change, base: Content, text: Content)
    requires ch.caps == ["c"] && "c" in ch.deltas && ch.creates == [] && ch.replacements == map[]
    requires MergedOf(Some(base), ch, "c") == DeltaMerge.Wrote(text)
    ensures var living: Living := map[File("c", SpecMd) := base];
            Accepted(living, ch) && Applied(living, ch) == map[File("c", SpecMd) := text]
  {
    hide DeltaMerge.Merge;
    var living: Living := map[File("c", SpecMd) := base];
    OneCapability(living, ch);
    assert Lookup(living, File("c", SpecMd)) == Some(base);
    MergedText(base, text);
  }

  /** A change that swaps two requirements' names is accepted every time, and a lost attempt swaps them back. */
  lemma TwiceIsNotOnce(fold: string -> string) returns (living: Living, ch: Change)
    ensures NoStrayCreate(living, ch) && ParsedChange(ch) && AcceptedTimes(living, ch, 2)
    ensures AppliedTimes(living, ch, 2) == living && AppliedTimes(living, ch, 1) != living
  {
    hide DeltaMerge.Merge;
    ch := Change(["c"], map["c" := MergeAgain.SWAP], fold, [], map[]);
    var one, two := [SpecText.Words("one")], [SpecText.Words("two")];
    var doc := OpenFences.Titles([SpecText.Req("A", one), SpecText.Req("B", two)]);
    var swapped := OpenFences.Titles([SpecText.Req("B", one), SpecText.Req("A", two)]);
    OpenFences.WordsAreTidy(doc.reqs, "one", "two");
    MergeAgain.SwapTwice(doc, one, two, fold);
    assert swapped == doc.(reqs := swapped.reqs);
    assert swapped != doc by { assert swapped.reqs[0] != doc.reqs[0]; }
    OneSpec(ch, SpecText.Whole(doc), SpecText.Whole(swapped));
    OneSpec(ch, SpecText.Whole(swapped), SpecText.Whole(doc));
    var f := File("c", SpecMd);
    living := map[f := SpecText.Whole(doc)];
    var after: Living := map[f := SpecText.Whole(swapped)];
    assert living[f] != after[f];
    assert SpecText.NoSection(SpecText.Closed, [], false);
    OneDelta(ch, MergeAgain.SWAP);
    TwoSteps(living, ch, after, living);
  }

  lemma OneDelta(ch: Change, d: DeltaMerge.Delta)
    requires ch.caps == ["c"] && ch.deltas == map["c" := d] && DeltaMerge.Parsed(d)
    ensures ParsedChange(ch) && (d.renamed == [] ==> RenamesNothing(ch))
  {
  }

  /** A change that renames nothing but leaves a fence open: a lost attempt loses a requirement it never mentions. */
  lemma OpenFenceIsNotOnce(fold: string -> string) returns (living: Living, ch: Change)
    ensures NoStrayCreate(living, ch) && RenamesNothing(ch) && AcceptedTimes(living, ch, 2)
    ensures AppliedTimes(living, ch, 2) != AppliedTimes(living, ch, 1)
  {
    hide DeltaMerge.Merge;
    var base, d, text, again := OpenFences.OpenFenceLoses(fold);
    ch := Change(["c"], map["c" := d], fold, [], map[]);
    OneDelta(ch, d);
    OneSpec(ch, base, text);
    OneSpec(ch, text, again);
    var f := File("c", SpecMd);
    living := map[f := base];
    var once: Living, twice: Living := map[f := text], map[f := again];
    assert once[f] != twice[f];
    TwoSteps(living, ch, once, twice);
  }

  lemma TwoSteps(living: Living, ch: Change, once: Living, twice: Living)
    requires Applied(living, ch) == once && Applied(once, ch) == twice
    requires Accepted(living, ch) && Accepted(once, ch)
    ensures AppliedTimes(living, ch, 1) == once && AppliedTimes(living, ch, 2) == twice && AcceptedTimes(living, ch, 2)
  {
    assert AppliedTimes(living, ch, 0) == living && AcceptedTimes(living, ch, 1);
  }

  lemma OneCapability(living: Living, ch: Change)
    requires |ch.caps| == 1 && ch.creates == [] && ch.replacements == map[]
    ensures Applied(living, ch) == MergeOne(living, ch, ch.caps[0])
    ensures Accepted(living, ch) <==> Takes(living, ch, ch.caps[0])
  {
    hide DeltaMerge.Merge;
    assert MergeFirst(living, ch, 0) == living;
    assert MergeFirst(living, ch, 1) == MergeOne(MergeFirst(living, ch, 0), ch, ch.caps[0]);
    var merged := MergeFirst(living, ch, 1);
    assert ReplaceFirst(merged, ch, 1) == ReplaceFirst(merged, ch, 0);
  }

  // ---------- one attempt

  /** What the world answers during one attempt; a gate is None when its command is absent. */
  datatype Gates = Gates(
    done: bool,                            // deriveSpecState says every task is done
    stale: bool,                           // the scope audit found a stale task
    taskVerifies: seq<Option<bool>>,
    changeVerify: Option<bool>,
    check: Option<bool>)

  predicate Green(gate: Option<bool>) {
    gate != Some(false)
  }

  predicate AllGreen(g: Gates) {
    && g.done && !g.stale
    && (forall k | 0 <= k < |g.taskVerifies| :: Green(g.taskVerifies[k]))
    && Green(g.changeVerify) && Green(g.check)
  }

  /**
   Where the process dies: in the write after `writes` writes, leaving that file torn or untouched; `scrap`
   is what a torn task list holds.
   */
  datatype Crash = Crash(writes: nat, torn: Option<Content>, scrap: string)

  /**
   `Threw` is a delta that refuses to merge, which leaves the record for the next restore; `Unrecorded`
   is the death between dropping the record and the rename that archives. An archived change is whole
   once its task list is ticked and its event appended; a death in between leaves it as it is for good.
   */
  datatype Outcome = Refused | Archived(whole: bool) | Crashed | Threw | Unrecorded

  predicate Ended(outcomes: seq<Outcome>) {
    outcomes != [] && outcomes[|outcomes| - 1].Archived?
  }

  predicate EndedWhole(outcomes: seq<Outcome>) {
    outcomes != [] && outcomes[|outcomes| - 1] == Archived(true)
  }

  /** How many attempts died between dropping the record and the rename. */
  function Lost(outcomes: seq<Outcome>): nat {
    if outcomes == [] then 0
    else Lost(outcomes[..|outcomes| - 1]) + (if outcomes[|outcomes| - 1] == Unrecorded then 1 else 0)
  }

  /** `base` is `living` with the change applied once for each of `lost` lost records, all accepted. */
  ghost predicate LostTimes(living: Living, ch: Change, lost: nat, base: Living) {
    base == AppliedTimes(living, ch, lost) && AcceptedTimes(living, ch, lost)
  }

  lemma LostOnce(living: Living, ch: Change, lost: nat, base: Living)
    requires LostTimes(living, ch, lost, base) && Accepted(base, ch)
    ensures LostTimes(living, ch, lost + 1, Applied(base, ch))
    ensures RenamesNothing(ch) && Settles(living, ch) ==> Applied(base, ch) == Applied(living, ch)
  {
    hide DeltaMerge.Merge;
    FirstAccepted(living, ch, lost + 1);
    if RenamesNothing(ch) && Settles(living, ch) { KillsCostNothing(living, ch, lost); }
  }

  lemma LostOneMore(outcomes: seq<Outcome>, outcome: Outcome)
    ensures Lost(outcomes + [outcome]) == Lost(outcomes) + if outcome == Unrecorded then 1 else 0
  {
    assert (outcomes + [outcome])[..|outcomes|] == outcomes;
  }

  /** One more outcome, and how often the change is in the files by then. */
  lemma LivedOn(original: Living, ch: Change, outcomes: seq<Outcome>, base: Living, outcome: Outcome)
    requires LostTimes(original, ch, Lost(outcomes), base)
    requires outcome == Unrecorded || outcome.Archived? ==> Accepted(base, ch)
    ensures var more := outcomes + [outcome];
            && (Ended(more) <==> outcome.Archived?) && (EndedWhole(more) <==> outcome == Archived(true))
            && LostTimes(original, ch, Lost(more), if outcome == Unrecorded then Applied(base, ch) else base)
            && (outcome.Archived? ==> LostTimes(original, ch, Lost(more) + 1, Applied(base, ch)))
            && (outcome.Archived? && RenamesNothing(ch) && Settles(original, ch) ==> Applied(base, ch) == Applied(original, ch))
  {
    hide LostTimes, Settles, RenamesNothing, Accepted, Applied;
    LostOneMore(outcomes, outcome);
    if outcome == Unrecorded || outcome.Archived? { LostOnce(original, ch, Lost(outcomes), base); }
  }

  /** One event of a history: an archive attempt, or the restore of an ordinary cycle. */
  datatype Event = Attempt(gates: Gates, crash: Crash) | RestoreOnly(crash: Crash)

  /** Every box is ticked, and the form the approval seal hashes is unchanged. */
  ghost predicate Ticked(before: Option<string>, after: Option<string>) {
    && (before.None? <==> after.None?)
    && (before.Some? ==> after.value == Checkboxes.TickAll(before.value)
                         && Checkboxes.Untick(after.value) == Checkboxes.Untick(before.value))
  }

  class Workspace {
    var living: Living
    var record: RecordFile
    var archived: bool
    /** The change's root task list, and whether its archived event is in the log. */
    var tasks: Option<string>
    var logged: bool
    var writesLeft: nat
    var torn: Option<Content>
    var scrap: string

    constructor (living: Living, tasks: Option<string>)
      ensures this.living == living && this.tasks == tasks && record == Absent && !archived && !logged
    {
      this.living, this.tasks, this.record, this.archived, this.logged := living, tasks, Absent, false, false;
      this.writesLeft, this.torn, this.scrap := 0, None, "";
    }

    /** The next restore gets back to `base`, whatever was interrupted. */
    ghost predicate Recoverable(base: Living)
      reads this
    {
      && (forall f | f in Entries(record) :: Entries(record)[f] == Lookup(base, f))
      && SameOutside(living, base, Entries(record).Keys)
    }

    /** Write one living file, or remove it; a dying process leaves that one file in any state. */
    method Put(f: File, content: Option<Content>) returns (alive: bool)
      modifies this`living, this`writesLeft
      ensures alive <==> old(writesLeft) > 0
      ensures writesLeft == if alive then old(writesLeft) - 1 else 0
      ensures alive ==> living == Assign(old(living), f, content)
      ensures SameOutside(living, old(living), {f})
    {
      alive := writesLeft > 0;
      if alive {
        writesLeft := writesLeft - 1;
        living := Assign(living, f, content);
      } else if content.Some? && torn.Some? {
        living := living[f := torn.value];
      }
    }

    method DropRecord() returns (alive: bool)
      modifies this`record, this`writesLeft
      ensures alive <==> old(writesLeft) > 0
      ensures writesLeft == if alive then old(writesLeft) - 1 else 0
      ensures record == if alive then Absent else old(record)
    {
      alive := writesLeft > 0;
      if alive {
        writesLeft := writesLeft - 1;
        record := Absent;
      }
    }

    method WriteRecord(entries: Record) returns (alive: bool)
      modifies this`record, this`writesLeft
      ensures alive <==> old(writesLeft) > 0
      ensures writesLeft == if alive then old(writesLeft) - 1 else 0
      ensures alive ==> record == Whole(entries)
      ensures !alive ==> record == old(record) || record == Torn
    {
      alive := writesLeft > 0;
      if alive {
        writesLeft := writesLeft - 1;
        record := Whole(entries);
      } else if torn.Some? {
        record := Torn;
      }
    }

    /** Put every recorded file back, then drop the record; `found` is whether there was one. */
    method Restore() returns (alive: bool, found: bool)
      modifies this`living, this`record, this`writesLeft
      ensures found <==> old(record) != Absent
      ensures !found ==> alive && living == old(living) && writesLeft == old(writesLeft)
      ensures !alive ==> writesLeft == 0
      ensures old(writesLeft) > |Entries(old(record))| ==> alive
      ensures record == if alive then Absent else old(record)
      ensures alive ==> living == Overlay(old(living), Entries(old(record)))
      ensures SameOutside(living, old(living), Entries(old(record)).Keys)
    {
      found := record != Absent;
      alive := true;
      if !found {
        SameLookups(living, Overlay(living, Entries(record)));
        return;
      }
      var entries := Entries(record);
      var todo := entries.Keys;
      while todo != {}
        invariant alive && record == old(record) && todo <= entries.Keys
        invariant writesLeft + |entries| == old(writesLeft) + |todo|
        invariant forall f :: Lookup(living, f) == (if f in entries.Keys - todo then entries[f] else Lookup(old(living), f))
        decreases todo
      {
        var f :| f in todo;
        alive := Put(f, entries[f]);
        if !alive { return; }
        todo := todo - {f};
      }
      SameLookups(living, Overlay(old(living), entries));
      alive := DropRecord();
    }

    /** `applyOpenSpecDeltas`: merge every delta into the living specs, folder by folder, up to one that throws. */
    method ApplyDeltas(ch: Change) returns (alive: bool, threw: bool)
      modifies this`living, this`writesLeft
      ensures alive && !threw ==> Accepted(old(living), ch) && living == MergeFirst(old(living), ch, |ch.caps|)
      ensures threw ==> alive && !Accepted(old(living), ch)
      ensures SameOutside(living, old(living), RecordedFiles(ch))
      ensures !alive ==> writesLeft == 0
    {
      ghost var start := living;
      threw := false;
      var i := 0;
      while i < |ch.caps|
        invariant i <= |ch.caps| && !threw && Stands(start, ch, i, living)
      {
        alive, threw := ApplyNext(ch, i, start);
        if !alive || threw { return; }
        i := i + 1;
      }
      MergeStaysInside(start, ch, |ch.caps|);
      alive := true;
    }

    /** The next delta in order. */
    method ApplyNext(ch: Change, i: nat, ghost start: Living) returns (alive: bool, threw: bool)
      requires i < |ch.caps| && Stands(start, ch, i, living)
      modifies this`living, this`writesLeft
      ensures alive && !threw ==> Stands(start, ch, i + 1, living)
      ensures threw ==> alive && !Accepted(start, ch)
      ensures SameOutside(living, start, RecordedFiles(ch))
      ensures !alive ==> writesLeft == 0
    {
      ghost var was := living;
      alive, threw := ApplyDelta(ch, ch.caps[i]);
      StandsInside(start, ch, i, was, living);
      StandsNext(start, ch, i, was);
    }

    /** One capability: its spec is written, or its folder removed, or nothing is touched. */
    method ApplyDelta(ch: Change, cap: string) returns (alive: bool, threw: bool)
      modifies this`living, this`writesLeft
      ensures threw ==> alive && living == old(living)
      ensures threw <==> !Takes(old(living), ch, cap)
      ensures alive ==> living == MergeOne(old(living), ch, cap)
      ensures SameOutside(living, old(living), {File(cap, SpecMd), File(cap, OsqYml)})
      ensures !alive ==> writesLeft == 0
    {
      alive, threw := true, false;
      if cap !in ch.deltas { return; }
      ghost var was := living;
      var merged := DeltaMerge.MergeLivingSpec(Lookup(living, File(cap, SpecMd)), cap, ch.deltas[cap], ch.fold);
      match merged {
        case Threw =>
          threw := true;
        case Emptied =>
          alive := Put(File(cap, SpecMd), None);
          if !alive { return; }
          alive := Put(File(cap, OsqYml), None);
          if !alive { return; }
          SameLookups(living, was - {File(cap, SpecMd)} - {File(cap, OsqYml)});
        case Wrote(text) =>
          alive := Put(File(cap, SpecMd), Some(text));
          if !alive { return; }
          SameLookups(living, was[File(cap, SpecMd) := text]);
      }
    }

    /** `applyArchiveSidecars`: created sidecars first, then every replacement over the living one. */
    method ApplySidecars(ch: Change, ghost base: Living) returns (alive: bool)
      requires SameOutside(living, base, RecordedFiles(ch))
      modifies this`living, this`writesLeft
      ensures alive ==>
        living == ReplaceFirst(CreateFirst(old(living), ch, |ch.creates|), ch, |ch.caps|)
      ensures NoStrayCreate(base, ch) ==> SameOutside(living, base, RecordedFiles(ch))
      ensures !alive ==> writesLeft == 0
    {
      ghost var start := living;
      var i := 0;
      while i < |ch.creates|
        invariant i <= |ch.creates| && living == CreateFirst(start, ch, i)
        invariant NoStrayCreate(base, ch) ==> SameOutside(living, base, RecordedFiles(ch))
      {
        var c := ch.creates[i];
        if NoStrayCreate(base, ch) { CreateStaysInside(base, start, ch, i + 1); }
        if Writes(living, c) {
          ghost var was := living;
          alive := Put(File(c.name, OsqYml), c.sidecar);
          if !alive {
            if NoStrayCreate(base, ch) {
              assert forall k :: c.name !in ch.caps ==> Lookup(was, File(c.name, k)) == Lookup(base, File(c.name, k));
              assert c in ch.creates && c.name in ch.caps;
            }
            return;
          }
          SameLookups(living, was[File(c.name, OsqYml) := c.sidecar.value]);
        }
        i := i + 1;
      }
      ghost var created := living;
      i := 0;
      while i < |ch.caps|
        invariant i <= |ch.caps| && living == ReplaceFirst(created, ch, i)
        invariant NoStrayCreate(base, ch) ==> SameOutside(living, base, RecordedFiles(ch))
      {
        var cap := ch.caps[i];
        assert File(cap, OsqYml) in RecordedFiles(ch) by { assert cap in ch.caps; }
        if cap in ch.replacements {
          ghost var was := living;
          alive := Put(File(cap, OsqYml), Some(ch.replacements[cap]));
          if !alive { return; }
          SameLookups(living, was[File(cap, OsqYml) := ch.replacements[cap]]);
        }
        i := i + 1;
      }
      alive := true;
    }

    /** `applyArchiveSpecs`: record both living files of every capability, then apply. */
    method ApplyArchiveSpecs(ch: Change) returns (alive: bool, threw: bool)
      requires record == Absent
      modifies this`living, this`record, this`writesLeft
      ensures alive ==> record == Whole(RecordOf(old(living), ch))
      ensures alive && !threw ==> Accepted(old(living), ch) && living == Applied(old(living), ch)
      ensures threw ==> alive && !Accepted(old(living), ch)
      ensures NoStrayCreate(old(living), ch) ==> Recoverable(old(living))
      ensures !alive ==> writesLeft == 0
    {
      ghost var base := living;
      var entries: Record := map[];
      var i := 0;
      while i < |ch.caps|
        invariant i <= |ch.caps|
        invariant forall f :: f in entries <==> f.cap in ch.caps[..i]
        invariant forall f | f in entries :: entries[f] == Lookup(living, f)
      {
        var cap := ch.caps[i];
        entries := entries[File(cap, SpecMd) := Lookup(living, File(cap, SpecMd))];
        entries := entries[File(cap, OsqYml) := Lookup(living, File(cap, OsqYml))];
        assert ch.caps[..i + 1] == ch.caps[..i] + [cap];
        forall f: File | f.cap == cap ensures f in {File(cap, SpecMd), File(cap, OsqYml)} { if f.kind == SpecMd {} }
        i := i + 1;
      }
      assert ch.caps[..i] == ch.caps;
      assert forall f :: f in RecordedFiles(ch) <==> f.cap in ch.caps by {
        forall f: File | f.cap in ch.caps ensures f in RecordedFiles(ch) { if f.kind == SpecMd {} else {} }
      }
      assert entries == RecordOf(base, ch);
      threw := false;
      alive := WriteRecord(entries);
      if !alive { return; }
      alive, threw := ApplyDeltas(ch);
      if !alive || threw { return; }
      alive := ApplySidecars(ch, base);
    }

    /**
     `relocateArchivedSpec`: drop the record, drop the prompt, move the folder, tick its task list, log it.
     The seal's form of the task list stays what was approved.
     */
    method Relocate() returns (outcome: Outcome)
      requires !archived && !logged
      modifies this`record, this`archived, this`writesLeft, this`tasks, this`logged
      ensures archived <==> outcome.Archived?
      ensures outcome.Archived? || outcome in {Crashed, Unrecorded}
      ensures record == if outcome == Crashed then old(record) else Absent
      ensures outcome != Archived(true) ==> writesLeft == 0 && !logged
      ensures !outcome.Archived? ==> tasks == old(tasks)
      ensures outcome == Archived(true) ==> logged && Ticked(old(tasks), tasks)
    {
      var alive := DropRecord();
      if !alive { return Crashed; }
      if writesLeft < 2 {
        writesLeft := 0;
        return Unrecorded;
      }
      writesLeft := writesLeft - 2;
      archived := true;
      alive := TickTasks();
      if !alive || writesLeft == 0 { return Archived(false); }
      writesLeft, logged := writesLeft - 1, true;
      return Archived(true);
    }

    /** The archived folder's task list, written only when a box changes. */
    method TickTasks() returns (alive: bool)
      modifies this`tasks, this`writesLeft
      ensures alive ==> Ticked(old(tasks), tasks)
      ensures !alive ==> writesLeft == 0
    {
      if tasks.None? { return true; }
      var ticked := Checkboxes.TickAll(tasks.value);
      Checkboxes.TickAllForms(tasks.value);
      if ticked == tasks.value { return true; }
      alive := writesLeft > 0;
      if alive {
        writesLeft, tasks := writesLeft - 1, Some(ticked);
      } else if torn.Some? {
        tasks := Some(scrap);
      }
    }

    /** `checkAndArchiveSpec`. */
    method CheckAndArchive(ch: Change, gates: Gates, crash: Crash, ghost base: Living) returns (outcome: Outcome)
      requires !archived && !logged && Recoverable(base) && NoStrayCreate(base, ch)
      modifies this
      ensures archived <==> outcome.Archived?
      ensures !outcome.Archived? ==> tasks == old(tasks) && !logged
      ensures outcome == Archived(true) ==> logged && Ticked(old(tasks), tasks)
      ensures outcome.Archived? ==> AllGreen(gates) && Accepted(base, ch) && living == Applied(base, ch) && record == Absent
      ensures outcome == Threw ==> !Accepted(base, ch) && Recoverable(base)
      ensures outcome == Refused ==> !AllGreen(gates) && living == base && record == Absent
      ensures outcome == Crashed ==> Recoverable(base)
      ensures outcome == Unrecorded ==> AllGreen(gates) && Accepted(base, ch) && living == Applied(base, ch) && record == Absent
      ensures outcome in {Crashed, Unrecorded} ==> writesLeft == 0
    {
      writesLeft, torn, scrap := crash.writes, crash.torn, crash.scrap;
      OverlayReaches(living, Entries(record), base);
      var alive, _ := Restore();
      if !alive { return Crashed; }
      if !gates.done || gates.stale { return Refused; }
      var i := 0;
      while i < |gates.taskVerifies|
        invariant i <= |gates.taskVerifies|
        invariant forall k | 0 <= k < i :: Green(gates.taskVerifies[k])
      {
        if !Green(gates.taskVerifies[i]) { return Refused; }
        i := i + 1;
      }
      var threw;
      alive, threw := ApplyArchiveSpecs(ch);
      if !alive { return Crashed; }
      if threw { return Threw; }
      if !Green(gates.changeVerify) || !Green(gates.check) {
        OverlayReaches(living, Entries(record), base);
        var restored, _ := Restore();
        return if restored then Refused else Crashed;
      }
      outcome := Relocate();
    }

    /** One event; `next` is what the next restore gets back to. */
    method Happen(ch: Change, event: Event, ghost base: Living) returns (outcome: Option<Outcome>, ghost next: Living)
      requires !archived && !logged && Recoverable(base) && NoStrayCreate(base, ch)
      modifies this
      ensures outcome.Some? <==> event.Attempt?
      ensures next == if outcome == Some(Unrecorded) then Applied(base, ch) else base
      ensures outcome == Some(Unrecorded) ==> Accepted(base, ch)
      ensures NoStrayCreate(next, ch) && (archived <==> outcome.Some? && outcome.value.Archived?)
      ensures !archived ==> tasks == old(tasks) && !logged
      ensures outcome == Some(Archived(true)) ==> logged && Ticked(old(tasks), tasks)
      ensures !archived ==> Recoverable(next)
      ensures archived ==> AllGreen(event.gates) && Accepted(base, ch) && living == Applied(base, ch) && record == Absent
    {
      next := base;
      match event {
        case RestoreOnly(crash) =>
          writesLeft, torn, scrap := crash.writes, crash.torn, crash.scrap;
          var _, _ := Restore();
          outcome := None;
        case Attempt(gates, crash) =>
          var one := CheckAndArchive(ch, gates, crash, base);
          outcome := Some(one);
          if one == Unrecorded {
            AppliedStaysInside(base, ch);
            next := living;
          }
      }
    }

    /**
     Any history of attempts, red gates, ordinary restores and crashes, each restore and attempt
     itself interruptible. Until the folder is archived the next restore gets back to the original
     files with the change applied once per lost record; the archived tree holds it once more, so
     exactly once when no attempt died between dropping the record and the rename. A change that renames
     nothing and settles is in the archived tree exactly once whatever died.
     */
    method RunHistory(ch: Change, history: seq<Event>) returns (outcomes: seq<Outcome>, last: Option<Gates>)
      requires !archived && !logged && record == Absent && NoStrayCreate(living, ch)
      modifies this
      ensures !archived ==> Recoverable(AppliedTimes(old(living), ch, Lost(outcomes)))
      ensures archived ==> living == AppliedTimes(old(living), ch, Lost(outcomes) + 1) && record == Absent
      ensures archived ==> last.Some? && AllGreen(last.value)
      ensures archived ==> AcceptedTimes(old(living), ch, Lost(outcomes) + 1)
      ensures archived && RenamesNothing(ch) && Settles(old(living), ch) ==> living == Applied(old(living), ch)
      ensures archived <==> Ended(outcomes)
      ensures !archived ==> tasks == old(tasks) && !logged
      ensures EndedWhole(outcomes) ==> logged && Ticked(old(tasks), tasks)
      ensures |outcomes| <= |history|
    {
      ghost var original := living;
      ghost var base := living;
      outcomes, last := [], None;
      var i := 0;
      while i < |history| && !archived
        decreases |history| - i
        invariant |outcomes| <= i <= |history| && Story(original, ch, outcomes, base)
        invariant !archived ==> tasks == old(tasks) && !logged
        invariant EndedWhole(outcomes) ==> logged && Ticked(old(tasks), tasks)
        invariant archived ==> last.Some? && AllGreen(last.value)
      {
        outcomes, base := Live(ch, history[i], outcomes, original, base);
        if history[i].Attempt? { last := Some(history[i].gates); }
        i := i + 1;
      }
    }

    /**
     What every history keeps: `base` is what the next restore gets back to, and an archived tree holds the
     change once more than it was lost.
     */
    ghost predicate Story(original: Living, ch: Change, outcomes: seq<Outcome>, base: Living)
      reads this
    {
      && NoStrayCreate(base, ch) && (archived <==> Ended(outcomes))
      && if !archived then LostTimes(original, ch, Lost(outcomes), base) && Recoverable(base)
         else
           && LostTimes(original, ch, Lost(outcomes) + 1, living) && record == Absent
           && (RenamesNothing(ch) && Settles(original, ch) ==> living == Applied(original, ch))
    }

    method Live(ch: Change, event: Event, outcomes: seq<Outcome>, ghost original: Living, ghost base: Living)
      returns (more: seq<Outcome>, ghost next: Living)
      requires !archived && !logged && Story(original, ch, outcomes, base)
      modifies this
      ensures Story(original, ch, more, next) && |more| <= |outcomes| + 1
      ensures !archived ==> tasks == old(tasks) && !logged
      ensures EndedWhole(more) ==> logged && Ticked(old(tasks), tasks)
      ensures archived ==> event.Attempt? && AllGreen(event.gates)
    {
      var outcome;
      outcome, next := Happen(ch, event, base);
      more := outcomes;
      if outcome.Some? {
        LivedOn(original, ch, outcomes, base, outcome.value);
        more := outcomes + [outcome.value];
      }
    }

    /** Enough restarts always get the original back: one restore that is not interrupted suffices. */
    method RecoverAfter(ghost base: Living, crashes: seq<Crash>)
      requires Recoverable(base)
      modifies this
      ensures record == Absent && living == base && archived == old(archived)
    {
      var i := 0;
      while i < |crashes|
        invariant i <= |crashes| && Recoverable(base) && archived == old(archived)
      {
        writesLeft, torn, scrap := crashes[i].writes, crashes[i].torn, crashes[i].scrap;
        var _, _ := Restore();
        i := i + 1;
      }
      writesLeft := |Entries(record)| + 1;
      OverlayReaches(living, Entries(record), base);
      var _, _ := Restore();
    }
  }
}
