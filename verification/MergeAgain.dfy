/**
 What merging the same delta a second time comes to. The second merge starts from the first one's text
 read back, which gives the written blocks as long as no part but the last leaves a fence open.
 */
module MergeAgain {
  import opened Wrappers
  import opened Text
  import opened SpecText
  import opened DeltaMerge

  // ---------- the same delta again

  function LastOf(modified: seq<Req>, name: string): (last: Option<nat>)
    ensures last.None? ==> forall i :: 0 <= i < |modified| ==> modified[i].name != name
    ensures last.Some? ==> last.value < |modified| && modified[last.value].name == name
                           && forall i :: last.value < i < |modified| ==> modified[i].name != name
  {
    if |modified| == 0 then None
    else if Last(modified).name == name then Some(|modified| - 1)
    else LastOf(Init(modified), name)
  }

  lemma {:induction false} CurrentIsLast(b: Blocks, modified: seq<Req>, name: string)
    requires name in b
    ensures var last := LastOf(modified, name);
            Current(b, modified, name) == if last.None? then b[name] else modified[last.value].body
  {
    if |modified| > 0 && Last(modified).name != name { CurrentIsLast(b, Init(modified), name); }
  }

  lemma {:induction false} ScenariosOnlyGrow(b: Blocks, modified: seq<Req>, i: nat, j: nat)
    requires AllKeep(b, modified) && i <= j < |modified| && modified[i].name == modified[j].name
    ensures Scenarios(modified[i].body) <= Scenarios(modified[j].body)
    decreases j
  {
    if i < j {
      assert KeepsScenarios(b, modified, j);
      CurrentIsLast(b, modified[..j], modified[j].name);
      var p := LastOf(modified[..j], modified[j].name);
      assert modified[..j][i].name == modified[j].name;
      assert i <= p.value;
      ScenariosOnlyGrow(b, modified, i, p.value);
    }
  }

  /** No two modifications of one requirement list different scenarios. */
  ghost predicate SameScenarios(modified: seq<Req>) {
    forall i, j :: 0 <= i < j < |modified| && modified[i].name == modified[j].name ==>
                     Scenarios(modified[j].body) <= Scenarios(modified[i].body)
  }

  /** `t` holds, for every modified name, a block with the scenarios the modifications leave in `b`. */
  ghost predicate Follows(b: Blocks, t: Blocks, modified: seq<Req>) {
    forall i :: 0 <= i < |modified| ==>
                  var name := modified[i].name;
                  name in b && name in t && Scenarios(t[name]) == Scenarios(Current(b, modified, name))
  }

  lemma KeepsAgain(b: Blocks, t: Blocks, modified: seq<Req>, i: nat)
    requires AllKeep(b, modified) && i < |modified| && Follows(b, t, modified)
    ensures SameScenarios(modified) ==> KeepsScenarios(t, modified, i)
    ensures LastOf(modified[..i], modified[i].name).None? ==>
              forall j :: (i < j < |modified| && modified[i].name == modified[j].name
                           && !(Scenarios(modified[j].body) <= Scenarios(modified[i].body)))
                          ==> !KeepsScenarios(t, modified, i)
  {
    var name := modified[i].name;
    assert KeepsScenarios(b, modified, i);
    CurrentIsLast(b, modified[..i], name);
    CurrentIsLast(t, modified[..i], name);
    CurrentIsLast(b, modified, name);
    var last := LastOf(modified, name);
    assert last.Some? && i <= last.value;
    forall j | i < j < |modified| && modified[j].name == name
      ensures Scenarios(modified[j].body) <= Scenarios(modified[last.value].body)
    {
      ScenariosOnlyGrow(b, modified, j, last.value);
    }
  }

  /** Once modified, the blocks take the same modifications again exactly when none of them changes a scenario list. */
  lemma ModifiedAgain(b: Blocks, t: Blocks, modified: seq<Req>)
    requires AllKeep(b, modified) && Follows(b, t, modified)
    ensures AllKeep(t, modified) <==> SameScenarios(modified)
  {
    forall i | 0 <= i < |modified| ensures SameScenarios(modified) ==> KeepsScenarios(t, modified, i) {
      assert KeepsScenarios(b, modified, i);
      KeepsAgain(b, t, modified, i);
    }
    if !SameScenarios(modified) {
      var i, j :| 0 <= i < j < |modified| && modified[i].name == modified[j].name
                  && !(Scenarios(modified[j].body) <= Scenarios(modified[i].body));
      var first := FirstOf(modified, i);
      ScenariosOnlyGrow(b, modified, first, i);
      assert KeepsScenarios(b, modified, first);
      KeepsAgain(b, t, modified, first);
      assert !KeepsScenarios(t, modified, first);
    }
  }

  /** The first modification of the requirement that modification `i` names. */
  lemma {:induction false} FirstOf(modified: seq<Req>, i: nat) returns (first: nat)
    requires i < |modified|
    ensures first <= i && modified[first].name == modified[i].name && LastOf(modified[..first], modified[first].name).None?
  {
    var p := LastOf(modified[..i], modified[i].name);
    if p.None? { first := i; } else { first := FirstOf(modified, p.value); }
  }

  /** Once added, the blocks take the same additions again exactly when each that is still there is still equal. */
  lemma AddedAgain(b: Blocks, t: Blocks, added: seq<Req>, removed: set<string>, fold: string -> string)
    requires Distinct(Names(added)) && AllAddable(b, added, fold)
    requires t.Keys == b.Keys + NameSet(added) - removed && b.Keys !! removed
    ensures AllAddable(t, added, fold) <==>
              forall i :: 0 <= i < |added| && added[i].name !in removed ==> t[added[i].name] == added[i].body
  {
    forall i | 0 <= i < |added| && added[i].name in removed ensures Addable(t, added, i, fold) {
      NewAgain(b, t, added, removed, i, fold);
    }
    forall i | 0 <= i < |added| && added[i].name !in removed
      ensures Addable(t, added, i, fold) <==> t[added[i].name] == added[i].body
    {
      assert Names(added)[i] in NameSet(added);
    }
  }

  lemma NewAgain(b: Blocks, t: Blocks, added: seq<Req>, removed: set<string>, i: nat, fold: string -> string)
    requires Distinct(Names(added)) && AllAddable(b, added, fold) && i < |added| && added[i].name in removed
    requires t.Keys == b.Keys + NameSet(added) - removed && b.Keys !! removed
    ensures Addable(t, added, i, fold)
  {
    var a := added[i];
    assert Addable(b, added, i, fold) && a.name !in b && a.name !in t;
    forall k | k in t ensures fold(k) != fold(a.name) {
      if k !in b {
        var j :| 0 <= j < |added| && Names(added)[j] == k;
        assert Addable(b, added, j, fold);
      }
    }
  }

  function Tidied(b: Blocks): (t: Blocks)
    ensures t.Keys == b.Keys
  {
    map k | k in b :: TidyBody(b[k])
  }

  /**
   A second merge of a delta without renames is refused exactly when it removes a name twice or one it
   does not add again, when two modifications of one requirement list different scenarios, or when an
   addition that it neither removes nor modifies is not written tidily.
   */
  ghost predicate Refuses(d: Delta) {
    || !Distinct(d.removed)
    || (exists r :: r in d.removed && r !in Names(d.added))
    || !SameScenarios(d.modified)
    || (exists i :: 0 <= i < |d.added| && d.added[i].name !in d.removed && d.added[i].name !in Names(d.modified)
                    && TidyBody(d.added[i].body) != d.added[i].body)
  }

  /** What removals, modifications and additions left, read off the blocks they started from. */
  ghost predicate Left(b: Blocks, d: Delta, hasBase: bool, fold: string -> string, c: Blocks) {
    var kept := Kept(b, d, hasBase);
    var changed := Changed(kept, d.modified);
    && AllKeep(kept, d.modified) && AllAddable(changed, d.added, fold)
    && kept.Keys !! SetOf(d.removed)
    && c.Keys == kept.Keys + NameSet(d.added)
    && (forall k :: k in kept ==> c[k] == changed[k])
    && (forall i :: 0 <= i < |d.added| ==> c[d.added[i].name] == d.added[i].body)
  }

  lemma EditedLeaves(b: Blocks, d: Delta, hasBase: bool, fold: string -> string, c: Blocks, newest: seq<string>)
    requires Distinct(Names(d.added)) && Edited(b, d, hasBase, fold) == Some((c, newest))
    requires hasBase || b == map[]
    ensures Guards(b, d, hasBase, fold) && Left(b, d, hasBase, fold, c)
    ensures (forall n :: n in newest ==> n in c) && forall k :: k in c ==> k in b || k in newest
  {
    EditedIff(b, d, hasBase, fold);
    var changed := Changed(Kept(b, d, hasBase), d.modified);
    AddedIff(changed, d.added, fold);
    assert AddAll(changed, d.added, fold).value == (c, newest);
  }

  /** The blocks a second merge starts its additions from. */
  lemma ChangedAgain(b: Blocks, d: Delta, hasBase: bool, fold: string -> string, c: Blocks, k: string)
    requires Left(b, d, hasBase, fold, c) && k in c && k !in d.removed
    ensures k in Kept(Tidied(c), d, true)
    ensures Current(Kept(Tidied(c), d, true), d.modified, k) == if k in Names(d.modified) then c[k] else TidyBody(c[k])
  {
    var kept, again := Kept(b, d, hasBase), Kept(Tidied(c), d, true);
    CurrentIsLast(again, d.modified, k);
    var last := LastOf(d.modified, k);
    if last.Some? {
      assert KeepsScenarios(kept, d.modified, last.value);
      CurrentIsLast(kept, d.modified, k);
      assert Names(d.modified)[last.value] == k;
    } else {
      assert forall i :: 0 <= i < |d.modified| ==> Names(d.modified)[i] != k;
    }
  }

  lemma FollowsAgain(b: Blocks, d: Delta, hasBase: bool, fold: string -> string, c: Blocks)
    requires Left(b, d, hasBase, fold, c)
    ensures Follows(Kept(b, d, hasBase), Kept(Tidied(c), d, true), d.modified)
  {
    var kept, again := Kept(b, d, hasBase), Kept(Tidied(c), d, true);
    forall i | 0 <= i < |d.modified|
      ensures var name := d.modified[i].name;
              && name in kept && name in again
              && Scenarios(again[name]) == Scenarios(Current(kept, d.modified, name))
    {
      var name := d.modified[i].name;
      assert KeepsScenarios(kept, d.modified, i);
      assert name !in SetOf(d.removed) && c[name] == Changed(kept, d.modified)[name];
      TidyKeeps(Closed, false, c[name]);
      assert again[name] == TidyBody(c[name]);
    }
  }

  /** The guards of a second merge come down to the delta alone. */
  lemma GuardsAgain(b: Blocks, d: Delta, hasBase: bool, fold: string -> string, c: Blocks)
    requires Distinct(Names(d.added)) && Left(b, d, hasBase, fold, c)
    ensures Guards(Tidied(c), d, true, fold) <==> !Refuses(d)
  {
    var t := Tidied(c);
    var again := Kept(t, d, true);
    FollowsAgain(b, d, hasBase, fold, c);
    ModifiedAgain(Kept(b, d, hasBase), again, d.modified);
    AddedAgain(Changed(Kept(b, d, hasBase), d.modified), Changed(again, d.modified), d.added, SetOf(d.removed), fold);
    forall i | 0 <= i < |d.added| && d.added[i].name !in d.removed
      ensures Changed(again, d.modified)[d.added[i].name] == d.added[i].body
              <==> d.added[i].name in Names(d.modified) || TidyBody(d.added[i].body) == d.added[i].body
    {
      assert Names(d.added)[i] in NameSet(d.added);
      ChangedAgain(b, d, hasBase, fold, c, d.added[i].name);
    }
  }

  lemma LeftAgain(b: Blocks, d: Delta, hasBase: bool, fold: string -> string, c: Blocks, again: Blocks)
    requires Distinct(Names(d.added)) && Left(b, d, hasBase, fold, c)
    requires forall r :: r in d.removed ==> r in Names(d.added)
    requires Left(Tidied(c), d, true, fold, again)
    ensures again.Keys == c.Keys && forall k :: k in c ==> TidyBody(again[k]) == TidyBody(c[k])
  {
    forall k | k in c ensures k in again && TidyBody(again[k]) == TidyBody(c[k]) {
      if k in d.removed {
        assert k in Names(d.added);
        var i :| 0 <= i < |d.added| && Names(d.added)[i] == k;
      } else {
        ChangedAgain(b, d, hasBase, fold, c, k);
        TidyTwice(Closed, false, c[k]);
      }
    }
  }

  /** A second merge that is accepted leaves every block as it was, up to tidying. */
  lemma EditedAgain(b: Blocks, d: Delta, hasBase: bool, fold: string -> string, c: Blocks)
    requires Distinct(Names(d.added)) && Left(b, d, hasBase, fold, c) && !Refuses(d)
    ensures Edited(Tidied(c), d, true, fold).Some?
    ensures var (again, newest) := Edited(Tidied(c), d, true, fold).value;
            && again.Keys == c.Keys
            && (forall k :: k in c ==> TidyBody(again[k]) == TidyBody(c[k]))
            && (forall n :: n in newest ==> n in c)
  {
    var t := Tidied(c);
    GuardsAgain(b, d, hasBase, fold, c);
    EditedIff(t, d, true, fold);
    var (again, newest) := Edited(t, d, true, fold).value;
    EditedLeaves(t, d, true, fold, again, newest);
    LeftAgain(b, d, hasBase, fold, c, again);
  }

  // ---------- the text written and read back

  lemma {:induction false} ListedHolds(b: Blocks, names: seq<string>)
    ensures forall i :: 0 <= i < |Listed(b, names)| ==>
              var q := Listed(b, names)[i]; q.name in b && q.name in names && q.body == b[q.name]
  {
    if |names| > 0 { ListedHolds(b, Init(names)); }
  }

  lemma {:induction false} AllListed(b: Blocks, names: seq<string>, n: string)
    requires n in names && n in b
    ensures n in Names(Listed(b, names))
  {
    var before := Listed(b, Init(names));
    if Last(names) == n {
      assert Names(Listed(b, names))[|before|] == n;
    } else {
      assert names == Init(names) + [Last(names)];
      AllListed(b, Init(names), n);
      var i :| 0 <= i < |before| && Names(before)[i] == n;
      assert Names(Listed(b, names))[i] == n;
    }
  }

  lemma {:induction false} BlocksAre(reqs: seq<Req>, m: Blocks)
    requires forall i :: 0 <= i < |reqs| ==> reqs[i].name in m && m[reqs[i].name] == reqs[i].body
    ensures forall k :: k in BlocksOf(reqs) ==> k in m && BlocksOf(reqs)[k] == m[k]
  {
    if |reqs| > 0 { BlocksAre(Init(reqs), m); }
  }

  lemma NamesOfBoth(a: seq<Req>, b: seq<Req>)
    ensures Names(a + b) == Names(a) + Names(b)
  {
  }

  /** Every block is listed, in its place in the order or as a new name. */
  ghost predicate Covered(c: Blocks, order: seq<string>, newest: seq<string>) {
    forall k :: k in c ==> k in order || k in newest
  }

  lemma Recomposes(c: Blocks, order: seq<string>, newest: seq<string>)
    requires Covered(c, order, newest)
    ensures var reqs := Recomposed(c, order, newest);
            && (forall i :: 0 <= i < |reqs| ==> reqs[i].name in c && reqs[i].body == c[reqs[i].name])
            && (forall k :: k in c ==> k in Names(reqs))
  {
    var unseen := Unseen(newest, order);
    ListedHolds(c, order);
    ListedHolds(c, unseen);
    NamesOfBoth(Listed(c, order), Listed(c, unseen));
    forall k | k in c ensures k in Names(Recomposed(c, order, newest)) {
      if k in order { AllListed(c, order, k); } else { AllListed(c, unseen, k); }
    }
  }

  lemma NamesTidied(reqs: seq<Req>)
    ensures Names(TidyReqs(reqs)) == Names(reqs)
  {
  }

  /** Reading the merged file back gives the blocks, tidied. */
  lemma ReadsBack(c: Blocks, order: seq<string>, newest: seq<string>)
    requires Covered(c, order, newest)
    ensures var reqs := TidyReqs(Recomposed(c, order, newest)); BlocksOf(reqs) == Tidied(c) && Writes(reqs, c)
  {
    var raw := Recomposed(c, order, newest);
    var reqs := TidyReqs(raw);
    Recomposes(c, order, newest);
    NamesTidied(raw);
    assert Writes(reqs, c);
    BlocksAre(reqs, Tidied(c));
    forall k ensures k in BlocksOf(reqs) <==> k in c {
      if k in Names(reqs) { var i :| 0 <= i < |reqs| && Names(reqs)[i] == k; }
    }
  }

  /** A file lists blocks of `c`, tidied. */
  ghost predicate Writes(reqs: seq<Req>, c: Blocks) {
    forall i :: 0 <= i < |reqs| ==> reqs[i].name in c && reqs[i].body == TidyBody(c[reqs[i].name])
  }

  lemma {:induction false} ListsTheSame(b: Blocks, reqs: seq<Req>)
    requires Writes(reqs, b)
    ensures TidyReqs(Listed(b, Names(reqs))) == reqs
  {
    if |reqs| > 0 {
      NamesOfInit(reqs);
      assert Init(Names(reqs)) == Names(Init(reqs));
      ListsTheSame(b, Init(reqs));
    }
  }

  lemma {:induction false} NoneUnseen(newest: seq<string>, order: seq<string>)
    requires forall n :: n in newest ==> n in order
    ensures Unseen(newest, order) == []
  {
    if |newest| > 0 {
      assert newest == Init(newest) + [Last(newest)];
      NoneUnseen(Init(newest), order);
    }
  }

  /** The same blocks up to tidying, listed in the order of the file they came from, are that file. */
  lemma RecomposesTheSame(c: Blocks, reqs: seq<Req>, again: Blocks, newest: seq<string>)
    requires Writes(reqs, c) && forall k :: k in c ==> k in Names(reqs)
    requires again.Keys == c.Keys && forall k :: k in c ==> TidyBody(again[k]) == TidyBody(c[k])
    requires forall n :: n in newest ==> n in c
    ensures TidyReqs(Recomposed(again, Names(reqs), newest)) == reqs
  {
    ListsTheSame(again, reqs);
    NoneUnseen(newest, Names(reqs));
  }

  // ---------- renames

  lemma {:induction false} ReplacedHolds(order: seq<string>, from: string, to: string)
    ensures from in order ==> to in ReplaceFirst(order, from, to)
    ensures forall n :: n in order && n != from ==> n in ReplaceFirst(order, from, to)
  {
    if |order| > 0 && order[0] != from { ReplacedHolds(order[1..], from, to); }
  }

  lemma {:induction false} RenamesStayListed(b: Blocks, order: seq<string>, renames: seq<Rename>)
    requires forall k :: k in b ==> k in order
    ensures RenameAll(b, order, renames).Some? ==>
              forall k :: k in RenameAll(b, order, renames).value.0 ==> k in RenameAll(b, order, renames).value.1
    decreases |renames|
  {
    if |renames| > 0 {
      var r := renames[0];
      if r.from in b && r.to !in b {
        ReplacedHolds(order, r.from, r.to);
        RenamesStayListed((b - {r.from})[r.to := b[r.from]], ReplaceFirst(order, r.from, r.to), renames[1..]);
      }
    }
  }

  // ---------- behind a merge

  lemma MergeComposes(base: Option<File>, cap: string, d: Delta, fold: string -> string)
    ensures var doc, merged := Composed(base, cap, d, fold), Merge(base, cap, d, fold);
            && (merged == Threw <==> doc.None?)
            && (doc.Some? ==> merged == if Read(Print(doc.value)).reqs == [] then Emptied else Wrote(Print(doc.value)))
  {
  }

  /** What is composed and read as having a requirement is what is written. */
  lemma Written(base: Option<File>, cap: string, d: Delta, fold: string -> string, doc: Doc)
    requires Composed(base, cap, d, fold) == Some(doc) && Read(Print(doc)).reqs != []
    ensures Merge(base, cap, d, fold) == Wrote(Print(doc))
  {
  }

  /** The blocks, order and new names behind a merged file, and the blocks it started from. */
  ghost predicate Behind(base: Option<File>, cap: string, d: Delta, fold: string -> string,
                         b: Blocks, order: seq<string>, c: Blocks, newest: seq<string>) {
    var doc := Read(Target(base, cap, d));
    && Readable(base, d)
    && RenameAll(BlocksOf(doc.reqs), Names(doc.reqs), d.renamed) == Some((b, order))
    && Edited(b, d, HasBase(base), fold) == Some((c, newest))
    && Composed(base, cap, d, fold) == Some(doc.(reqs := Recomposed(c, order, newest)))
    && Left(b, d, HasBase(base), fold, c) && Covered(c, order, newest)
  }

  lemma SkeletonHead(cap: string)
    ensures var head := [Words("# " + cap + " Specification"), Blank, Section(false, "Purpose")];
            NoSection(Closed, head, true) && IsClosed(head)
  {
    var head := [Words("# " + cap + " Specification"), Blank, Section(false, "Purpose")];
    assert head[1..][1..] == [Section(false, "Purpose")] && head[1..][1..][1..] == [];
    assert NoSection(Closed, head[1..][1..], true) && IsClosed(head[1..][1..]);
    assert NoSection(Closed, head[1..], true) && IsClosed(head[1..]);
  }

  /** A new capability starts without a requirement, whatever its purpose says. */
  lemma SkeletonHasNone(cap: string, purpose: File)
    requires NoSection(Closed, purpose, false)
    ensures var doc := Read(Skeleton(cap, purpose)); doc.preamble == [] && doc.reqs == [] && doc.after == []
    ensures IsClosed(purpose) ==> IsClosed(Read(Skeleton(cap, purpose)).before)
  {
    var said := if purpose == [] then [Words(PLACEHOLDER.0 + cap + PLACEHOLDER.1)] else purpose;
    var head := [Words("# " + cap + " Specification"), Blank, Section(false, "Purpose")];
    SkeletonHead(cap);
    if purpose == [] { assert said[1..] == []; }
    NoSectionAtAll(Closed, said);
    SectionAtBoth(Closed, head, said, true);
    ThroughBoth(Closed, head, said);
    BlankHides(Through(Closed, head + said));
    SectionAtBoth(Closed, head + said, [Blank], true);
    ThroughBoth(Closed, head + said, [Blank]);
    EndsInHeader(head + said + [Blank], REQUIREMENTS);
    assert Skeleton(cap, purpose) == head + said + [Blank] + [REQUIREMENTS];
  }

  lemma LookBehind(base: Option<File>, cap: string, d: Delta, fold: string -> string)
    returns (b: Blocks, order: seq<string>, c: Blocks, newest: seq<string>)
    requires Parsed(d) && Composed(base, cap, d, fold).Some?
    ensures Behind(base, cap, d, fold, b, order, c, newest)
    ensures forall n :: n in newest ==> n in c
  {
    var doc := Read(Target(base, cap, d));
    var moved := RenameAll(BlocksOf(doc.reqs), Names(doc.reqs), d.renamed).value;
    b, order := moved.0, moved.1;
    var left := Edited(b, d, HasBase(base), fold).value;
    c, newest := left.0, left.1;
    RenamesStayListed(BlocksOf(doc.reqs), Names(doc.reqs), d.renamed);
    if !HasBase(base) { SkeletonHasNone(cap, d.purpose); }
    EditedLeaves(b, d, HasBase(base), fold, c, newest);
  }

  // ---------- what is written is formed

  ghost predicate All(b: Blocks, p: File -> bool) {
    forall k :: k in b ==> p(b[k])
  }

  ghost predicate AllOf(reqs: seq<Req>, p: File -> bool) {
    forall i :: 0 <= i < |reqs| ==> p(reqs[i].body)
  }

  lemma {:induction false} BlocksAll(reqs: seq<Req>, p: File -> bool)
    requires AllOf(reqs, p)
    ensures All(BlocksOf(reqs), p)
  {
    if |reqs| > 0 { BlocksAll(Init(reqs), p); }
  }

  lemma {:induction false} RenamedAll(b: Blocks, order: seq<string>, renames: seq<Rename>, p: File -> bool)
    requires All(b, p) && RenameAll(b, order, renames).Some?
    ensures All(RenameAll(b, order, renames).value.0, p)
    decreases |renames|
  {
    if |renames| > 0 {
      var r := renames[0];
      RenamedAll((b - {r.from})[r.to := b[r.from]], ReplaceFirst(order, r.from, r.to), renames[1..], p);
    }
  }

  lemma LeftAll(b: Blocks, d: Delta, hasBase: bool, fold: string -> string, c: Blocks, p: File -> bool)
    requires AllOf(d.modified, p) && AllOf(d.added, p) && All(b, p) && Left(b, d, hasBase, fold, c)
    ensures All(c, p)
  {
    forall k | k in c ensures p(c[k]) {
      if k in Names(d.added) {
        var i :| 0 <= i < |d.added| && Names(d.added)[i] == k;
      } else {
        CurrentIsLast(Kept(b, d, hasBase), d.modified, k);
      }
    }
  }

  /** What holds of every block of the file and of the delta holds of every block that is written. */
  lemma ComposedAll(base: Option<File>, cap: string, d: Delta, fold: string -> string, p: File -> bool)
    requires Parsed(d) && Composed(base, cap, d, fold).Some?
    requires AllOf(d.modified, p) && AllOf(d.added, p) && AllOf(Read(Target(base, cap, d)).reqs, p)
    ensures AllOf(Composed(base, cap, d, fold).value.reqs, p)
  {
    var doc := Read(Target(base, cap, d));
    var b, order, c, newest := LookBehind(base, cap, d, fold);
    BlocksAll(doc.reqs, p);
    RenamedAll(BlocksOf(doc.reqs), Names(doc.reqs), d.renamed, p);
    LeftAll(b, d, HasBase(base), fold, c, p);
    Recomposes(c, order, newest);
  }

  lemma ComposedFormed(base: Option<File>, cap: string, d: Delta, fold: string -> string)
    requires Parsed(d) && Composed(base, cap, d, fold).Some?
    ensures Formed(Composed(base, cap, d, fold).value)
  {
    ReadFormed(Target(base, cap, d));
    ComposedAll(base, cap, d, fold, BlockText);
  }

  // ---------- a second merge

  /** No part of the merged file but its very last leaves a fence open. */
  predicate Settled(base: Option<File>, cap: string, d: Delta, fold: string -> string) {
    var doc := Composed(base, cap, d, fold);
    doc.Some? ==> WellClosed(doc.value)
  }

  /** A settled merge reads back as the parts that were written. */
  lemma SettledReads(base: Option<File>, cap: string, d: Delta, fold: string -> string)
    requires Parsed(d) && Settled(base, cap, d, fold) && Composed(base, cap, d, fold).Some?
    ensures var doc := Composed(base, cap, d, fold).value;
            Formed(doc) && Read(Print(doc)) == TidyDoc(doc) && HasBase(Some(Print(doc)))
  {
    hide Composed;
    var doc := Composed(base, cap, d, fold).value;
    ComposedFormed(base, cap, d, fold);
    ReadsBackIff(doc);
    WholeHasMore(doc);
    TidyKeepsText(Closed, false, Whole(doc));
  }

  lemma SettledText(base: Option<File>, cap: string, d: Delta, fold: string -> string, text: File)
    requires Parsed(d) && Settled(base, cap, d, fold) && Merge(base, cap, d, fold) == Wrote(text)
    ensures Composed(base, cap, d, fold).Some? && HasBase(Some(text))
    ensures var doc := Composed(base, cap, d, fold).value;
            Formed(doc) && text == Print(doc) && Read(text) == TidyDoc(doc) && Read(text).reqs != []
  {
    hide Composed;
    SettledReads(base, cap, d, fold);
  }

  /** Two settled files whose parts are the same once tidied are written as the same text. */
  lemma SameText(doc: Doc, again: Doc)
    requires Formed(doc) && Formed(again) && WellClosed(doc)
    requires again == TidyDoc(doc).(reqs := again.reqs) && TidyReqs(again.reqs) == TidyReqs(doc.reqs)
    ensures WellClosed(again) && Print(again) == Print(doc)
  {
    TidiedFormed(doc);
    TidiedFormed(again);
    assert TidyDoc(again) == TidyDoc(doc) by { assert TidyDoc(TidyDoc(doc)) == TidyDoc(doc); }
    PrintsClosed(doc);
    PrintsClosed(again);
  }

  /** The blocks a settled file is read as. */
  lemma SettledBlocks(base: Option<File>, cap: string, d: Delta, fold: string -> string, text: File,
                      b: Blocks, order: seq<string>, c: Blocks, newest: seq<string>)
    requires Parsed(d) && Settled(base, cap, d, fold) && Merge(base, cap, d, fold) == Wrote(text)
    requires Behind(base, cap, d, fold, b, order, c, newest)
    ensures var reqs := Read(text).reqs;
            BlocksOf(reqs) == Tidied(c) && Writes(reqs, c) && forall k :: k in c ==> k in Names(reqs)
  {
    hide Composed;
    SettledText(base, cap, d, fold, text);
    ReadsBack(c, order, newest);
    Recomposes(c, order, newest);
    NamesTidied(Recomposed(c, order, newest));
  }

  /** What a second merge is composed of when its renames leave the blocks where they are. */
  lemma ComposedInPlace(text: File, cap: string, d: Delta, fold: string -> string)
    requires HasBase(Some(text)) && Readable(Some(text), d)
    requires var reqs := Read(text).reqs;
             RenameAll(BlocksOf(reqs), Names(reqs), d.renamed) == Some((BlocksOf(reqs), Names(reqs)))
    ensures var doc := Read(text);
            var edited := Edited(BlocksOf(doc.reqs), d, true, fold);
            Composed(Some(text), cap, d, fold)
            == if edited.None? then None
               else Some(doc.(reqs := Recomposed(edited.value.0, Names(doc.reqs), edited.value.1)))
  {
  }

  /** Merging again, when the renames leave the blocks of the merged file where they are. */
  lemma MergedInPlace(base: Option<File>, cap: string, d: Delta, fold: string -> string, text: File)
    requires Parsed(d) && Settled(base, cap, d, fold) && Merge(base, cap, d, fold) == Wrote(text)
    requires var reqs := Read(text).reqs;
             RenameAll(BlocksOf(reqs), Names(reqs), d.renamed) == Some((BlocksOf(reqs), Names(reqs)))
    ensures Merge(Some(text), cap, d, fold) == if Refuses(d) then Threw else Wrote(text)
    ensures Settled(Some(text), cap, d, fold)
  {
    var b, order, c, newest := LookBehind(base, cap, d, fold);
    SettledText(base, cap, d, fold, text);
    SettledBlocks(base, cap, d, fold, text, b, order, c, newest);
    ComposedInPlace(text, cap, d, fold);
    GuardsAgain(b, d, HasBase(base), fold, c);
    EditedIff(Tidied(c), d, true, fold);
    if !Refuses(d) {
      EditedAgain(b, d, HasBase(base), fold, c);
      var (again, news) := Edited(Tidied(c), d, true, fold).value;
      RecomposesTheSame(c, Read(text).reqs, again, news);
      ComposedFormed(Some(text), cap, d, fold);
      SameText(Composed(base, cap, d, fold).value, Composed(Some(text), cap, d, fold).value);
    }
  }

  /**
   Without renames a second merge of a settled file either throws, exactly when the delta is one that
   refuses itself, or changes nothing; it never differs.
   */
  lemma MergedAgain(base: Option<File>, cap: string, d: Delta, fold: string -> string, text: File)
    requires Parsed(d) && Settled(base, cap, d, fold)
    requires d.renamed == [] && Merge(base, cap, d, fold) == Wrote(text)
    ensures Merge(Some(text), cap, d, fold) == if Refuses(d) then Threw else Wrote(text)
    ensures Settled(Some(text), cap, d, fold)
  {
    MergedInPlace(base, cap, d, fold, text);
  }

  // ---------- an emptied capability

  lemma SomethingLeft(b: Blocks, d: Delta, hasBase: bool, fold: string -> string, c: Blocks)
    requires Left(b, d, hasBase, fold, c)
    ensures d.added != [] || d.modified != [] ==> c.Keys != {}
  {
    if |d.added| > 0 { assert Names(d.added)[0] in c; }
    if |d.modified| > 0 { assert KeepsScenarios(Kept(b, d, hasBase), d.modified, 0); }
  }

  /** No two additions have names that differ in case or spacing alone. */
  predicate FoldsApart(added: seq<Req>, fold: string -> string) {
    forall i, j :: 0 <= j < i < |added| ==> fold(added[j].name) != fold(added[i].name)
  }

  lemma AddableToNone(added: seq<Req>, fold: string -> string)
    ensures AllAddable(map[], added, fold) <==> FoldsApart(added, fold)
  {
    if AllAddable(map[], added, fold) {
      forall i, j | 0 <= j < i < |added| ensures fold(added[j].name) != fold(added[i].name) {
        assert Addable(map[], added, i, fold);
      }
    }
  }

  /** Merging into a capability that is not there: only additions can be accepted. */
  lemma MergedIntoNone(cap: string, d: Delta, fold: string -> string)
    requires Parsed(d) && !d.malformed && Distinct(Names(d.added))
    ensures Merge(None, cap, d, fold) == Threw <==> d.renamed != [] || d.modified != [] || !FoldsApart(d.added, fold)
    ensures Merge(None, cap, d, fold) != Threw && d.added == [] ==> Merge(None, cap, d, fold) == Emptied
    ensures Merge(None, cap, d, fold) != Threw && d.added != [] && IsClosed(d.purpose) ==> Merge(None, cap, d, fold).Wrote?
  {
    NoneAccepts(cap, d, fold);
    hide Merge;
    if Merge(None, cap, d, fold) != Threw { NoneWrites(cap, d, fold); }
  }

  lemma NoneAccepts(cap: string, d: Delta, fold: string -> string)
    requires Parsed(d) && !d.malformed && Distinct(Names(d.added))
    ensures Merge(None, cap, d, fold) == Threw <==> d.renamed != [] || d.modified != [] || !FoldsApart(d.added, fold)
  {
    MergeAcceptsIff(None, cap, d, fold);
    SkeletonHasNone(cap, d.purpose);
    AddableToNone(d.added, fold);
    hide Merge;
    if d.modified == [] { assert Changed(map[], d.modified) == map[]; }
  }

  lemma NoneWrites(cap: string, d: Delta, fold: string -> string)
    requires Parsed(d) && Composed(None, cap, d, fold).Some?
    ensures d.added == [] ==> Merge(None, cap, d, fold) == Emptied
    ensures d.added != [] && IsClosed(d.purpose) ==> Merge(None, cap, d, fold).Wrote?
  {
    MergeComposes(None, cap, d, fold);
    hide Merge, Composed, Read, Print;
    SkeletonHasNone(cap, d.purpose);
    var doc := Composed(None, cap, d, fold).value;
    var b, order, c, newest := LookBehind(None, cap, d, fold);
    assert b == map[];
    assert c.Keys == NameSet(d.added);
    ComposedFormed(None, cap, d, fold);
    Recomposes(c, order, newest);
    if d.added == [] {
      ListsNone(c, order);
      ListsNone(c, Unseen(newest, order));
      NoneReadsNone(doc);
    } else {
      assert Names(d.added)[0] in c;
      assert doc.reqs != [];
      if IsClosed(d.purpose) { FirstBlockSeen(doc); }
    }
  }

  lemma {:induction false} ListsNone(c: Blocks, names: seq<string>)
    requires c.Keys == {}
    ensures Listed(c, names) == []
  {
    if |names| > 0 { ListsNone(c, Init(names)); }
  }

  /**
   The same delta on a capability it emptied: it throws exactly when it renames, modifies, or adds names
   too close to each other, and otherwise leaves it empty unless it adds something. A settled merge that
   empties a capability adds and modifies nothing.
   */
  lemma EmptiedAgain(base: Option<File>, cap: string, d: Delta, fold: string -> string)
    requires Parsed(d) && Merge(base, cap, d, fold) == Emptied
    ensures Merge(None, cap, d, fold) == Threw <==> d.renamed != [] || d.modified != [] || !FoldsApart(d.added, fold)
    ensures Merge(None, cap, d, fold) != Threw && IsClosed(d.purpose) ==>
              (Merge(None, cap, d, fold) == Emptied <==> d.added == [])
    ensures Settled(base, cap, d, fold) ==>
              d.added == [] && d.modified == [] && Merge(None, cap, d, fold) == if d.renamed == [] then Emptied else Threw
  {
    MergedIntoNone(cap, d, fold);
    if Settled(base, cap, d, fold) {
      var b, order, c, newest := LookBehind(base, cap, d, fold);
      SettledReads(base, cap, d, fold);
      Recomposes(c, order, newest);
      assert Recomposed(c, order, newest) == [] by { assert TidyReqs(Recomposed(c, order, newest)) == []; }
      assert c.Keys == {} by { assert Names(Recomposed(c, order, newest)) == []; }
      SomethingLeft(b, d, HasBase(base), fold, c);
    }
  }

  // ---------- what settles

  /** A text that leaves no fence open is read as parts that leave none open. */
  lemma AfterSection(text: File, i: nat)
    requires i < |text| && text[i].Section? && IsClosed(text[..i]) && IsClosed(text)
    ensures IsClosed(text[i + 1..])
  {
    var tail := text[i..];
    assert text == text[..i] + tail;
    ThroughBoth(Closed, text[..i], tail);
    assert tail[0] == text[i] && tail[1..] == text[i + 1..];
  }

  lemma ReadClosed(text: File)
    requires IsClosed(text)
    ensures var doc := Read(text); IsClosed(doc.before) && IsClosed(doc.preamble) && AllOf(doc.reqs, IsClosed) && IsClosed(doc.after)
  {
    var i := SectionAt(Closed, text, true);
    if i < |text| {
      BeforeSection(Closed, text, true);
      TrimEndKeeps(Closed, text[..i]);
      AfterSection(text, i);
      BodyClosed(text[i + 1..]);
      hide SectionAt, SplitBlocks, TrimEnd, Trim, Through;
    } else {
      TrimEndKeeps(Closed, text);
    }
  }

  lemma BodyClosed(rest: File)
    requires IsClosed(rest)
    ensures var j := SectionAt(Closed, rest, false);
            var (pre, reqs) := SplitBlocks(Closed, rest[..j]);
            IsClosed(Trim(pre)) && AllOf(reqs, IsClosed) && IsClosed(TrimEnd(rest[j..]))
  {
    var j := SectionAt(Closed, rest, false);
    var (pre, reqs) := SplitBlocks(Closed, rest[..j]);
    BeforeSection(Closed, rest, false);
    SplitFormed(Closed, rest[..j]);
    assert rest == rest[..j] + rest[j..];
    ThroughBoth(Closed, rest[..j], rest[j..]);
    TrimEndKeeps(Closed, rest[j..]);
    TrimStartKeeps(pre);
    TrimEndKeeps(Closed, TrimStart(pre));
    if j == |rest| { assert rest[j..] == []; }
    if reqs != [] {
      forall k | 0 <= k < |reqs| ensures IsClosed(reqs[k].body) { if k == |reqs| - 1 { assert reqs[k] == Last(reqs); } }
    }
  }

  /** Where neither the living spec nor the delta leaves a fence open, the merge is settled. */
  lemma ClosedTextsSettle(base: Option<File>, cap: string, d: Delta, fold: string -> string)
    requires Parsed(d) && IsClosed(d.purpose) && AllOf(d.modified, IsClosed) && AllOf(d.added, IsClosed)
    requires HasBase(base) ==> IsClosed(base.value)
    ensures Settled(base, cap, d, fold)
  {
    if Composed(base, cap, d, fold).Some? {
      if HasBase(base) { ReadClosed(base.value); } else { SkeletonHasNone(cap, d.purpose); }
      ComposedAll(base, cap, d, fold, IsClosed);
    }
  }

  // ---------- a second merge of renames

  /** Where the renames, one after the other, take a name. */
  function Track(renames: seq<Rename>, name: string): string
    decreases |renames|
  {
    if |renames| == 0 then name
    else Track(renames[1..], if renames[0].from == name then renames[0].to else name)
  }

  lemma {:induction false} ReplacesOne(order: seq<string>, from: string, to: string)
    requires Distinct(order)
    ensures forall i :: 0 <= i < |order| ==> ReplaceFirst(order, from, to)[i] == if order[i] == from then to else order[i]
  {
    if |order| > 0 && order[0] != from {
      forall i, j | 0 <= i < j < |order| - 1 ensures order[1..][i] != order[1..][j] { assert order[i + 1] != order[j + 1]; }
      ReplacesOne(order[1..], from, to);
    }
  }

  ghost predicate Ordered(b: Blocks, order: seq<string>) {
    Distinct(order) && forall n :: n in order <==> n in b
  }

  lemma RenameStep(b: Blocks, order: seq<string>, r: Rename)
    requires Ordered(b, order) && r.from in b && r.to !in b
    ensures Ordered((b - {r.from})[r.to := b[r.from]], ReplaceFirst(order, r.from, r.to))
  {
    var after := ReplaceFirst(order, r.from, r.to);
    ReplacesOne(order, r.from, r.to);
    ReplacedHolds(order, r.from, r.to);
    assert r.to !in order;
    StaysDistinct(order, after, r.from, r.to);
    forall n | n in after ensures n == r.to || (n in order && n != r.from) { var i :| 0 <= i < |after| && after[i] == n; }
    assert r.from in order && r.from != r.to;
    assert forall n :: n in after <==> n == r.to || (n in order && n != r.from);
  }

  lemma StaysDistinct(order: seq<string>, after: seq<string>, from: string, to: string)
    requires Distinct(order) && to !in order && |after| == |order|
    requires forall i :: 0 <= i < |order| ==> after[i] == if order[i] == from then to else order[i]
    ensures Distinct(after)
  {
    forall i, j | 0 <= i < j < |after| ensures after[i] != after[j] { assert order[i] != order[j]; }
  }

  lemma {:induction false} RenamesTrack(b: Blocks, order: seq<string>, renames: seq<Rename>)
    requires Ordered(b, order) && RenameAll(b, order, renames).Some?
    ensures var (c, o) := RenameAll(b, order, renames).value;
            Ordered(c, o) && |o| == |order|
            && forall i :: 0 <= i < |o| ==> o[i] == Track(renames, order[i]) && o[i] in c && c[o[i]] == b[order[i]]
    decreases |renames|
  {
    if |renames| == 0 {
      assert forall i :: 0 <= i < |order| ==> order[i] in b;
    } else {
      var r := renames[0];
      var next, moved := (b - {r.from})[r.to := b[r.from]], ReplaceFirst(order, r.from, r.to);
      RenameStep(b, order, r);
      ReplacesOne(order, r.from, r.to);
      RenamesTrack(next, moved, renames[1..]);
      var (c, o) := RenameAll(b, order, renames).value;
      forall i | 0 <= i < |o| ensures o[i] == Track(renames, order[i]) && o[i] in c && c[o[i]] == b[order[i]] {
        assert order[i] in b && moved[i] == if order[i] == r.from then r.to else order[i];
      }
    }
  }

  lemma {:induction false} ListedDistinct(b: Blocks, names: seq<string>)
    requires Distinct(names)
    ensures Distinct(Names(Listed(b, names)))
  {
    if |names| > 0 {
      var init, last := Init(names), Last(names);
      forall i, j | 0 <= i < j < |init| ensures init[i] != init[j] { assert names[i] != names[j]; }
      ListedDistinct(b, init);
      ListedHolds(b, init);
      var before := Listed(b, init);
      forall i | 0 <= i < |before| ensures before[i].name != last {
        var j :| 0 <= j < |init| && init[j] == before[i].name;
        assert names[j] != names[|init|];
      }
      if last in b { DistinctAppended(before, Req(last, b[last])); }
    }
  }

  lemma DistinctAppended(before: seq<Req>, q: Req)
    requires Distinct(Names(before)) && forall i :: 0 <= i < |before| ==> before[i].name != q.name
    ensures Distinct(Names(before + [q]))
  {
    forall i, j | 0 <= i < j < |before| + 1 ensures Names(before + [q])[i] != Names(before + [q])[j] {
      if j < |before| { assert Names(before)[i] != Names(before)[j]; }
    }
  }

  lemma {:induction false} UnseenDistinct(newest: seq<string>, order: seq<string>)
    requires Distinct(newest)
    ensures Distinct(Unseen(newest, order))
  {
    if |newest| > 0 {
      var init := Init(newest);
      forall i, j | 0 <= i < j < |init| ensures init[i] != init[j] { assert newest[i] != newest[j]; }
      forall i | 0 <= i < |init| ensures init[i] != Last(newest) { assert newest[i] != newest[|init|]; }
      UnseenDistinct(init, order);
    }
  }

  lemma RecomposedDistinct(c: Blocks, order: seq<string>, newest: seq<string>)
    requires Distinct(order) && Distinct(newest)
    ensures Distinct(Names(Recomposed(c, order, newest)))
  {
    var unseen := Unseen(newest, order);
    UnseenDistinct(newest, order);
    ListedDistinct(c, order);
    ListedDistinct(c, unseen);
    ListedHolds(c, order);
    ListedHolds(c, unseen);
    var front, back := Listed(c, order), Listed(c, unseen);
    NamesOfBoth(front, back);
    forall i, j | 0 <= i < j < |front| + |back| ensures Names(front + back)[i] != Names(front + back)[j] {
      if j < |front| {
        assert Names(front)[i] != Names(front)[j];
      } else if i >= |front| {
        assert Names(back)[i - |front|] != Names(back)[j - |front|];
      } else {
        assert front[i].name in order && back[j - |front|].name !in order;
      }
    }
  }

  lemma {:induction false} ListsAll(b: Blocks, names: seq<string>)
    requires forall n :: n in names ==> n in b
    ensures Names(Listed(b, names)) == names
  {
    if |names| > 0 {
      assert names == Init(names) + [Last(names)];
      ListsAll(b, Init(names));
      NamesOfInit(Listed(b, names));
      assert Init(Listed(b, names)) == Listed(b, Init(names));
    }
  }

  predicate DistinctNames(base: Option<File>) {
    HasBase(base) ==> Distinct(Names(Read(base.value).reqs))
  }

  /** The merged file of a base with distinct names has distinct names. */
  lemma MergedDistinct(base: Option<File>, cap: string, d: Delta, fold: string -> string)
    requires Parsed(d) && DistinctNames(base) && Composed(base, cap, d, fold).Some?
    ensures Distinct(Names(Composed(base, cap, d, fold).value.reqs))
  {
    var doc := Read(Target(base, cap, d));
    var b, order, c, newest := LookBehind(base, cap, d, fold);
    if !HasBase(base) { SkeletonHasNone(cap, d.purpose); }
    RenamesTrack(BlocksOf(doc.reqs), Names(doc.reqs), d.renamed);
    EditedIff(b, d, HasBase(base), fold);
    AddedIff(Changed(Kept(b, d, HasBase(base)), d.modified), d.added, fold);
    RecomposedDistinct(c, order, newest);
  }

  /** Every name the renames produced is still there when nothing removed stays removed. */
  lemma NothingDropped(base: File, cap: string, d: Delta, fold: string -> string)
    requires Parsed(d) && HasBase(Some(base)) && DistinctNames(Some(base)) && Composed(Some(base), cap, d, fold).Some?
    requires forall r :: r in d.removed ==> r in Names(d.added)
    ensures var reqs, was := Composed(Some(base), cap, d, fold).value.reqs, Read(base).reqs;
            |reqs| >= |was| && forall i :: 0 <= i < |was| ==> reqs[i].name == Track(d.renamed, was[i].name)
  {
    var was := Read(base).reqs;
    var b, order, c, newest := LookBehind(Some(base), cap, d, fold);
    RenamesTrack(BlocksOf(was), Names(was), d.renamed);
    forall n | n in order ensures n in c {
      if n in d.removed { assert n in NameSet(d.added); }
    }
    ListsAll(c, order);
    NamesOfBoth(Listed(c, order), Listed(c, Unseen(newest, order)));
    var reqs := Recomposed(c, order, newest);
    forall i | 0 <= i < |order| ensures reqs[i].name == order[i] { assert Names(reqs)[i] == order[i]; }
  }

  /** Renames that take every name back to itself leave the blocks and their order alone. */
  lemma RenamesStay(b: Blocks, order: seq<string>, renames: seq<Rename>)
    requires Ordered(b, order) && RenameAll(b, order, renames).Some?
    requires forall i :: 0 <= i < |order| ==> Track(renames, order[i]) == order[i]
    ensures RenameAll(b, order, renames) == Some((b, order))
  {
    RenamesTrack(b, order, renames);
    var (moved, o) := RenameAll(b, order, renames).value;
    assert o == order;
    forall k | k in b ensures k in moved && moved[k] == b[k] { var i :| 0 <= i < |order| && order[i] == k; }
    assert moved == b;
  }

  lemma SettledNames(base: Option<File>, cap: string, d: Delta, fold: string -> string, text: File)
    requires Parsed(d) && DistinctNames(base) && Settled(base, cap, d, fold) && Merge(base, cap, d, fold) == Wrote(text)
    ensures Composed(base, cap, d, fold).Some? && HasBase(Some(text)) && DistinctNames(Some(text))
    ensures Names(Read(text).reqs) == Names(Composed(base, cap, d, fold).value.reqs)
  {
    hide Composed;
    SettledText(base, cap, d, fold, text);
    MergedDistinct(base, cap, d, fold);
    NamesTidied(Composed(base, cap, d, fold).value.reqs);
  }

  lemma RenamesTaken(base: File, cap: string, d: Delta, fold: string -> string)
    requires HasBase(Some(base)) && Composed(Some(base), cap, d, fold).Some?
    ensures RenameAll(BlocksOf(Read(base).reqs), Names(Read(base).reqs), d.renamed).Some?
  {
  }

  /**
   A second merge that is accepted and drops no name gives the same file exactly when the renames take
   every name of the file back to itself; otherwise it renames once more.
   */
  lemma RenamedAgain(base: Option<File>, cap: string, d: Delta, fold: string -> string, text: File, again: File)
    requires Parsed(d) && DistinctNames(base) && Settled(base, cap, d, fold) && Settled(Some(text), cap, d, fold)
    requires Merge(base, cap, d, fold) == Wrote(text) && Merge(Some(text), cap, d, fold) == Wrote(again)
    requires forall r :: r in d.removed ==> r in Names(d.added)
    ensures again == text <==>
              forall i :: 0 <= i < |Read(text).reqs| ==> Track(d.renamed, Read(text).reqs[i].name) == Read(text).reqs[i].name
  {
    hide Composed, Merge, Settled;
    var reqs := Read(text).reqs;
    SettledNames(base, cap, d, fold, text);
    SettledNames(Some(text), cap, d, fold, again);
    NothingDropped(text, cap, d, fold);
    if again == text {
      forall i | 0 <= i < |reqs| ensures Track(d.renamed, reqs[i].name) == reqs[i].name {
        assert Names(Read(again).reqs)[i] == reqs[i].name;
      }
    }
    if forall i :: 0 <= i < |reqs| ==> Track(d.renamed, reqs[i].name) == reqs[i].name {
      RenamesTaken(text, cap, d, fold);
      RenamesStay(BlocksOf(reqs), Names(reqs), d.renamed);
      MergedInPlace(base, cap, d, fold, text);
    }
  }

  lemma {:induction false} NeverATarget(b: Blocks, order: seq<string>, renames: seq<Rename>, name: string)
    requires RenameAll(b, order, renames).Some? && name !in b
    requires forall i :: 0 <= i < |renames| ==> renames[i].to != name
    ensures name !in RenameAll(b, order, renames).value.0
    decreases |renames|
  {
    if |renames| > 0 {
      var r := renames[0];
      assert forall i :: 0 <= i < |renames[1..]| ==> renames[1..][i] == renames[i + 1];
      NeverATarget((b - {r.from})[r.to := b[r.from]], ReplaceFirst(order, r.from, r.to), renames[1..], name);
    }
  }

  /** A first rename whose source is missing throws. */
  lemma FirstMissing(text: File, cap: string, d: Delta, fold: string -> string)
    requires HasBase(Some(text)) && d.renamed != [] && d.renamed[0].from !in BlocksOf(Read(text).reqs)
    ensures Merge(Some(text), cap, d, fold) == Threw
  {
  }

  lemma RenamedAway(b: Blocks, order: seq<string>, renames: seq<Rename>)
    requires renames != [] && RenameAll(b, order, renames).Some?
    requires forall i :: 0 <= i < |renames| ==> renames[i].to != renames[0].from
    ensures renames[0].from !in RenameAll(b, order, renames).value.0
  {
    var r := renames[0];
    assert r.from != r.to;
    assert forall i :: 0 <= i < |renames[1..]| ==> renames[1..][i] == renames[i + 1];
    NeverATarget((b - {r.from})[r.to := b[r.from]], ReplaceFirst(order, r.from, r.to), renames[1..], r.from);
  }

  /** Unless the delta itself brings back the first name it renames away, merging it again throws. */
  lemma RenamedOnce(base: Option<File>, cap: string, d: Delta, fold: string -> string, text: File)
    requires Parsed(d) && Settled(base, cap, d, fold) && Merge(base, cap, d, fold) == Wrote(text) && d.renamed != []
    requires d.renamed[0].from !in Names(d.added)
    requires forall i :: 0 <= i < |d.renamed| ==> d.renamed[i].to != d.renamed[0].from
    ensures Merge(Some(text), cap, d, fold) == Threw
  {
    MergeComposes(base, cap, d, fold);
    hide Merge, Composed;
    var reqs, from := Read(Target(base, cap, d)).reqs, d.renamed[0].from;
    var b, order, c, newest := LookBehind(base, cap, d, fold);
    RenamedAway(BlocksOf(reqs), Names(reqs), d.renamed);
    assert from !in c.Keys by { assert from !in NameSet(d.added); }
    SettledText(base, cap, d, fold, text);
    SettledBlocks(base, cap, d, fold, text, b, order, c, newest);
    assert from !in BlocksOf(Read(text).reqs);
    FirstMissing(text, cap, d, fold);
  }

  const SWAP := Delta(false, [], [Rename("A", "T"), Rename("B", "A"), Rename("T", "B")], [], [], [])

  lemma SwapFits(names: set<string>)
    requires names == {"A", "B"}
    ensures Fits(names, SWAP.renamed)
  {
    var renames := SWAP.renamed;
    assert renames[1..][0] == Rename("B", "A") && renames[1..][1..][0] == Rename("T", "B");
    var one := names - {"A"} + {"T"};
    var two := one - {"B"} + {"A"};
    assert Fits(two - {"T"} + {"B"}, renames[1..][1..][1..]);
    assert Fits(two, renames[1..][1..]);
    assert Fits(one, renames[1..]);
  }

  lemma SwapTracks()
    ensures Track(SWAP.renamed, "A") == "B" && Track(SWAP.renamed, "B") == "A"
  {
    var renames := SWAP.renamed;
    assert renames[1..][0] == Rename("B", "A") && renames[1..][1..][0] == Rename("T", "B");
    assert Track(renames[1..][1..][1..], "B") == "B" && Track(renames[1..][1..][1..], "A") == "A";
    assert Track(renames[1..][1..], "T") == "B" && Track(renames[1..][1..], "A") == "A";
    assert Track(renames[1..], "T") == "B" && Track(renames[1..], "B") == "A";
  }

  lemma TwoBlocks(p: Req, q: Req)
    ensures BlocksOf([p, q]) == map[p.name := p.body][q.name := q.body] && Names([p, q]) == [p.name, q.name]
  {
    assert Init([p, q]) == [p] && Init([p]) == [];
    assert BlocksOf([p]) == BlocksOf([])[p.name := p.body];
  }

  lemma TwoListed(b: Blocks, x: string, y: string)
    requires x in b && y in b
    ensures Recomposed(b, [x, y], []) == [Req(x, b[x]), Req(y, b[y])]
  {
    assert Init([x, y]) == [x] && Init([x]) == [];
    assert Listed(b, [x]) == Listed(b, []) + [Req(x, b[x])];
  }

  lemma ExchangedBlocks(reqs: seq<Req>, renames: seq<Rename>, x: string, one: File, y: string, two: File)
    requires reqs == [Req(x, one), Req(y, two)] && x != y
    requires Fits({x, y}, renames) && Track(renames, x) == y && Track(renames, y) == x
    ensures RenameAll(BlocksOf(reqs), Names(reqs), renames).Some?
    ensures var (c, o) := RenameAll(BlocksOf(reqs), Names(reqs), renames).value;
            o == [y, x] && Recomposed(c, o, []) == [Req(y, one), Req(x, two)]
  {
    var b, names := BlocksOf(reqs), Names(reqs);
    TwoBlocks(reqs[0], reqs[1]);
    assert b.Keys == {x, y};
    RenamedIff(b, names, renames);
    RenamesTrack(b, names, renames);
    var (c, o) := RenameAll(b, names, renames).value;
    assert o[0] == y && o[1] == x;
    assert o == [y, x];
    TwoListed(c, y, x);
  }

  lemma OnlyRenames(text: File, cap: string, d: Delta, fold: string -> string)
    requires HasBase(Some(text)) && !d.malformed && d.removed == [] && d.modified == [] && d.added == []
    requires RenameAll(BlocksOf(Read(text).reqs), Names(Read(text).reqs), d.renamed).Some?
    ensures var (c, o) := RenameAll(BlocksOf(Read(text).reqs), Names(Read(text).reqs), d.renamed).value;
            Composed(Some(text), cap, d, fold) == Some(Read(text).(reqs := Recomposed(c, o, [])))
  {
    EditsNothing(RenameAll(BlocksOf(Read(text).reqs), Names(Read(text).reqs), d.renamed).value.0, d, fold);
    hide Edited;
  }

  lemma EditsNothing(b: Blocks, d: Delta, fold: string -> string)
    requires d.removed == [] && d.modified == [] && d.added == []
    ensures Edited(b, d, true, fold) == Some((b, []))
  {
  }

  lemma TidyNames(doc: Doc, next: Doc, x: string, one: File, y: string, two: File)
    requires Formed(doc) && WellClosed(doc) && TidyDoc(doc) == doc && doc.reqs == [Req(x, one), Req(y, two)]
    requires next == doc.(reqs := [Req(y, one), Req(x, two)])
    ensures Formed(next) && WellClosed(next) && TidyDoc(next) == next
  {
    assert TidyReq(doc.reqs[0]) == doc.reqs[0] && TidyReq(doc.reqs[1]) == doc.reqs[1] by {
      assert TidyReqs(doc.reqs) == doc.reqs;
    }
    assert TidyReqs(next.reqs) == next.reqs;
    assert IsClosed(doc.reqs[0].body);
  }

  /** Two blocks whose names the renames exchange. */
  lemma Exchanged(doc: Doc, d: Delta, fold: string -> string, x: string, one: File, y: string, two: File)
    requires Formed(doc) && WellClosed(doc) && TidyDoc(doc) == doc && doc.reqs == [Req(x, one), Req(y, two)] && x != y
    requires !d.malformed && d.removed == [] && d.modified == [] && d.added == []
    requires Fits({x, y}, d.renamed) && Track(d.renamed, x) == y && Track(d.renamed, y) == x
    ensures var next := doc.(reqs := [Req(y, one), Req(x, two)]);
            && Formed(next) && WellClosed(next) && TidyDoc(next) == next
            && Merge(Some(Whole(doc)), "c", d, fold) == Wrote(Whole(next))
  {
    var next := doc.(reqs := [Req(y, one), Req(x, two)]);
    ReadsWhole(doc);
    WholeHasMore(doc);
    ExchangedBlocks(doc.reqs, d.renamed, x, one, y, two);
    OnlyRenames(Whole(doc), "c", d, fold);
    TidyNames(doc, next, x, one, y, two);
    PrintsClosed(next);
    ReadsWhole(next);
  }

  /** Swapping two names by way of a third is accepted every time, and twice swaps them back. */
  lemma SwapTwice(doc: Doc, one: File, two: File, fold: string -> string)
    requires Formed(doc) && WellClosed(doc) && TidyDoc(doc) == doc && doc.reqs == [Req("A", one), Req("B", two)]
    ensures var swapped := doc.(reqs := [Req("B", one), Req("A", two)]);
            && Merge(Some(Whole(doc)), "c", SWAP, fold) == Wrote(Whole(swapped))
            && Merge(Some(Whole(swapped)), "c", SWAP, fold) == Wrote(Whole(doc))
            && (Whole(doc) == Whole(swapped) <==> doc == swapped)
  {
    var swapped := doc.(reqs := [Req("B", one), Req("A", two)]);
    SwapFits({"A", "B"});
    SwapTracks();
    assert {"A", "B"} == {"B", "A"};
    Exchanged(doc, SWAP, fold, "A", one, "B", two);
    Exchanged(swapped, SWAP, fold, "B", one, "A", two);
    assert swapped.(reqs := [Req("A", one), Req("B", two)]) == doc;
    ReadsWhole(doc);
    ReadsWhole(swapped);
  }

  // ---------- a second merge of any delta

  function Tracked(renames: seq<Rename>, names: seq<string>): (r: seq<string>)
    ensures |r| == |names|
  {
    seq(|names|, i requires 0 <= i < |names| => Track(renames, names[i]))
  }

  predicate Survives(d: Delta, name: string) {
    name !in d.removed || name in Names(d.added)
  }

  function Surviving(d: Delta, names: seq<string>): seq<string> {
    if |names| == 0 then []
    else Surviving(d, Init(names)) + if Survives(d, Last(names)) then [Last(names)] else []
  }

  /** The names of a file after a merge: those the renames give and nothing drops, then the new ones. */
  function NamesAfter(d: Delta, names: seq<string>): seq<string> {
    var moved := Tracked(d.renamed, names);
    Surviving(d, moved) + Unseen(Names(d.added), moved)
  }

  lemma {:induction false} ListsSurviving(c: Blocks, names: seq<string>, d: Delta)
    requires forall n :: n in names ==> (n in c <==> Survives(d, n))
    ensures Names(Listed(c, names)) == Surviving(d, names)
  {
    if |names| > 0 {
      assert names == Init(names) + [Last(names)];
      ListsSurviving(c, Init(names), d);
      if Last(names) in c { NamesOfInit(Listed(c, names)); }
      assert Last(names) in c ==> Init(Listed(c, names)) == Listed(c, Init(names));
    }
  }

  lemma NewestOneMore(b: Blocks, added: seq<Req>, order: seq<string>, fold: string -> string, c: Blocks, newest: seq<string>)
    requires |added| > 0 && AddAll(b, added, fold).Some? && AddAll(b, Init(added), fold) == Some((c, newest))
    requires Last(added).name !in Names(Init(added)) && c.Keys == b.Keys + NameSet(Init(added))
    requires (forall k :: k in b ==> k in order) && Names(added) == Names(Init(added)) + [Last(added).name]
    requires Unseen(newest, order) == Unseen(Names(Init(added)), order)
    ensures Unseen(AddAll(b, added, fold).value.1, order) == Unseen(Names(added), order)
  {
    var name := Last(added).name;
    assert name in c <==> name in b;
    assert Init(Names(added)) == Names(Init(added));
    if name !in c { assert Init(newest + [name]) == newest; }
  }

  /** What is new to the blocks and not in the order is what is not in the order. */
  lemma {:induction false} NewestUnseen(b: Blocks, added: seq<Req>, order: seq<string>, fold: string -> string)
    requires AddAll(b, added, fold).Some? && Distinct(Names(added)) && forall k :: k in b ==> k in order
    ensures Unseen(AddAll(b, added, fold).value.1, order) == Unseen(Names(added), order)
  {
    if |added| > 0 {
      NamesOfInit(added);
      NewestUnseen(b, Init(added), order, fold);
      AddedIff(b, Init(added), fold);
      var (c, newest) := AddAll(b, Init(added), fold).value;
      NewestOneMore(b, added, order, fold, c, newest);
    }
  }

  lemma MergedNames(base: File, cap: string, d: Delta, fold: string -> string)
    requires Parsed(d) && HasBase(Some(base)) && DistinctNames(Some(base)) && Composed(Some(base), cap, d, fold).Some?
    ensures Names(Composed(Some(base), cap, d, fold).value.reqs) == NamesAfter(d, Names(Read(base).reqs))
  {
    var was := Read(base).reqs;
    var b, order, c, newest := LookBehind(Some(base), cap, d, fold);
    RenamesTrack(BlocksOf(was), Names(was), d.renamed);
    assert order == Tracked(d.renamed, Names(was));
    var changed := Changed(Kept(b, d, true), d.modified);
    EditedIff(b, d, true, fold);
    NewestUnseen(changed, d.added, order, fold);
    var unseen := Unseen(newest, order);
    ListsSurviving(c, order, d);
    ListsAll(c, unseen);
    NamesOfBoth(Listed(c, order), Listed(c, unseen));
  }

  /** The delta itself gives this requirement its text. */
  predicate Given(d: Delta, name: string) {
    name in Names(d.added) || name in Names(d.modified)
  }

  lemma GivenBody(b: Blocks, hasBase: bool, c: Blocks, b': Blocks, hasBase': bool, c': Blocks, d: Delta, fold: string -> string, k: string)
    requires Left(b, d, hasBase, fold, c) && Left(b', d, hasBase', fold, c') && k in c && k in c' && Given(d, k)
    ensures c[k] == c'[k]
  {
    if k in Names(d.added) {
      var i :| 0 <= i < |d.added| && Names(d.added)[i] == k;
    } else {
      var i :| 0 <= i < |d.modified| && Names(d.modified)[i] == k;
      CurrentIsLast(Kept(b, d, hasBase), d.modified, k);
      CurrentIsLast(Kept(b', d, hasBase'), d.modified, k);
    }
  }

  lemma MovedBody(b: Blocks, d: Delta, fold: string -> string, c: Blocks, k: string)
    requires Left(b, d, true, fold, c) && k in c && !Given(d, k)
    ensures k in b && k !in d.removed && c[k] == b[k]
  {
    CurrentIsLast(Kept(b, d, true), d.modified, k);
    var last := LastOf(d.modified, k);
    assert forall i :: 0 <= i < |d.modified| ==> Names(d.modified)[i] != k;
  }

  /** Each name the renames move, and whose text the delta does not give, moves onto the text it had. */
  ghost predicate MovesOntoItself(d: Delta, reqs: seq<Req>) {
    forall i :: 0 <= i < |reqs| ==>
                  var to := Track(d.renamed, reqs[i].name);
                  to !in d.removed && !Given(d, to) && to in BlocksOf(reqs) ==> BlocksOf(reqs)[to] == reqs[i].body
  }

  /** The blocks of a file after the renames. */
  ghost predicate Moved(d: Delta, reqs: seq<Req>, b: Blocks, order: seq<string>) {
    && Ordered(b, order) && |order| == |reqs|
    && forall i :: 0 <= i < |order| ==>
                     order[i] == Track(d.renamed, reqs[i].name) && order[i] in b && b[order[i]] == reqs[i].body
  }

  lemma MovedBlocks(d: Delta, reqs: seq<Req>, c: Blocks, b: Blocks, order: seq<string>)
    requires Distinct(Names(reqs)) && Writes(reqs, c) && BlocksOf(reqs) == Tidied(c)
    requires RenameAll(BlocksOf(reqs), Names(reqs), d.renamed) == Some((b, order))
    ensures Moved(d, reqs, b, order)
  {
    RenamesTrack(BlocksOf(reqs), Names(reqs), d.renamed);
  }

  lemma SameBlock(b: Blocks, hasBase: bool, c: Blocks, b': Blocks, c': Blocks, order': seq<string>,
                  d: Delta, fold: string -> string, reqs: seq<Req>, k: string)
    requires MovesOntoItself(d, reqs) && Moved(d, reqs, b', order')
    requires Left(b, d, hasBase, fold, c) && Left(b', d, true, fold, c') && BlocksOf(reqs) == Tidied(c)
    requires k in c && k in c'
    ensures TidyBody(c'[k]) == TidyBody(c[k])
  {
    if Given(d, k) {
      GivenBody(b, hasBase, c, b', true, c', d, fold, k);
    } else {
      MovedBody(b', d, fold, c', k);
      var i :| 0 <= i < |order'| && order'[i] == k;
      TidyTwice(Closed, false, c[k]);
    }
  }

  lemma SameWhenMoved(b: Blocks, hasBase: bool, c: Blocks, b': Blocks, c': Blocks, order': seq<string>,
                      d: Delta, fold: string -> string, reqs: seq<Req>, again: seq<Req>)
    requires MovesOntoItself(d, reqs) && Moved(d, reqs, b', order')
    requires Left(b, d, hasBase, fold, c) && Left(b', d, true, fold, c') && BlocksOf(reqs) == Tidied(c)
    requires Writes(reqs, c) && Writes(again, c') && Names(again) == Names(reqs)
    ensures again == reqs
  {
    forall i | 0 <= i < |reqs| ensures again[i] == reqs[i] {
      assert Names(again)[i] == Names(reqs)[i];
      SameBlock(b, hasBase, c, b', c', order', d, fold, reqs, reqs[i].name);
    }
  }

  lemma MovedWhenSame(c: Blocks, b': Blocks, c': Blocks, order': seq<string>, d: Delta, fold: string -> string, reqs: seq<Req>)
    requires Moved(d, reqs, b', order') && Left(b', d, true, fold, c')
    requires Writes(reqs, c) && Writes(reqs, c')
    ensures MovesOntoItself(d, reqs)
  {
    BlocksAre(reqs, Tidied(c'));
    forall i | 0 <= i < |reqs|
      ensures var to := Track(d.renamed, reqs[i].name);
              to !in d.removed && !Given(d, to) && to in BlocksOf(reqs) ==> BlocksOf(reqs)[to] == reqs[i].body
    {
      var to := order'[i];
      if to in BlocksOf(reqs) && !Given(d, to) {
        MovedBody(b', d, fold, c', to);
        TidyTwice(Closed, false, c[reqs[i].name]);
      }
    }
  }

  /**
   For any delta and settled files, a second merge that is accepted gives the same file exactly when the
   names come out the same and every name the renames move moves onto the text it had.
   */
  lemma MergedTwiceIff(base: Option<File>, cap: string, d: Delta, fold: string -> string, text: File)
    requires Parsed(d) && DistinctNames(base) && Settled(base, cap, d, fold) && Settled(Some(text), cap, d, fold)
    requires Merge(base, cap, d, fold) == Wrote(text) && Merge(Some(text), cap, d, fold) != Threw
    ensures Merge(Some(text), cap, d, fold) == Wrote(text) <==> ComesOutTheSame(d, Read(text).reqs)
  {
    var b, order, c, newest := LookBehind(base, cap, d, fold);
    SettledBlocks(base, cap, d, fold, text, b, order, c, newest);
    SettledNames(base, cap, d, fold, text);
    SettledText(base, cap, d, fold, text);
    SecondMerge(cap, d, fold, text, b, HasBase(base), c);
    var doc, again := Composed(base, cap, d, fold).value, Composed(Some(text), cap, d, fold).value;
    if Merge(Some(text), cap, d, fold) == Wrote(text) {
      SettledText(Some(text), cap, d, fold, text);
    }
    if TidyReqs(again.reqs) == Read(text).reqs {
      ComposedFormed(Some(text), cap, d, fold);
      SameText(doc, again);
    }
  }

  /** The condition above, on the requirements a file holds. */
  ghost predicate ComesOutTheSame(d: Delta, reqs: seq<Req>) {
    NamesAfter(d, Names(reqs)) == Names(reqs) && MovesOntoItself(d, reqs)
  }

  lemma SecondMerge(cap: string, d: Delta, fold: string -> string, text: File, b: Blocks, hasBase: bool, c: Blocks)
    requires Parsed(d) && HasBase(Some(text)) && DistinctNames(Some(text)) && Composed(Some(text), cap, d, fold).Some?
    requires Left(b, d, hasBase, fold, c) && Writes(Read(text).reqs, c) && BlocksOf(Read(text).reqs) == Tidied(c)
    ensures TidyReqs(Composed(Some(text), cap, d, fold).value.reqs) == Read(text).reqs <==> ComesOutTheSame(d, Read(text).reqs)
  {
    var reqs := Read(text).reqs;
    var b', order', c', newest' := LookBehind(Some(text), cap, d, fold);
    var again := TidyReqs(Recomposed(c', order', newest'));
    ReadsBack(c', order', newest');
    NamesTidied(Recomposed(c', order', newest'));
    MergedNames(text, cap, d, fold);
    MovedBlocks(d, reqs, c, b', order');
    if ComesOutTheSame(d, reqs) {
      SameWhenMoved(b, hasBase, c, b', c', order', d, fold, reqs, again);
    }
    if again == reqs { MovedWhenSame(c, b', c', order', d, fold, reqs); }
  }
}
