/**
 Merging one capability's delta into its living spec: renames, removals, modifications and additions
 over requirement blocks, each of which may refuse the whole delta, and what a second merge of the
 same delta comes to.
 */
module DeltaMerge {
  import opened Wrappers
  import opened Text
  import opened SpecText
  import SpecReader

  datatype Rename = Rename(from: string, to: string)

  /** A parsed delta; `malformed` is a RENAMED entry in a wrong form or without its other half. */
  datatype Delta = Delta(
    malformed: bool,
    purpose: File,
    renamed: seq<Rename>,
    removed: seq<string>,
    modified: seq<Req>,
    added: seq<Req>)

  /** What parsing leaves: no heading outside the fences of a block, and a purpose that ends at the next section. */
  predicate Parsed(d: Delta) {
    && BlockTexts(d.modified) && BlockTexts(d.added)
    && NoSection(Closed, d.purpose, false)
  }

  type Blocks = map<string, File>

  /** `Threw` writes nothing; `Emptied` removes the capability. */
  datatype Merged = Threw | Emptied | Wrote(text: File)

  function Names(reqs: seq<Req>): (names: seq<string>)
    ensures |names| == |reqs| && forall i :: 0 <= i < |reqs| ==> names[i] == reqs[i].name
  {
    seq(|reqs|, i requires 0 <= i < |reqs| => reqs[i].name)
  }

  predicate Distinct<T(==)>(s: seq<T>) {
    forall i, j :: 0 <= i < j < |s| ==> s[i] != s[j]
  }

  /** The last block of a name is the one that counts. */
  function BlocksOf(reqs: seq<Req>): (b: Blocks)
    ensures forall n :: n in b <==> n in Names(reqs)
  {
    if |reqs| == 0 then map[]
    else
      assert reqs == Init(reqs) + [Last(reqs)];
      assert Names(reqs) == Names(Init(reqs)) + [Last(reqs).name];
      BlocksOf(Init(reqs))[Last(reqs).name := Last(reqs).body]
  }

  // ---------- the four operations, one entry at a time

  function ReplaceFirst(order: seq<string>, from: string, to: string): (r: seq<string>)
    ensures |r| == |order|
  {
    if |order| == 0 then []
    else if order[0] == from then [to] + order[1..]
    else [order[0]] + ReplaceFirst(order[1..], from, to)
  }

  /** The blocks and their order once every rename is in. */
  function RenameAll(b: Blocks, order: seq<string>, renames: seq<Rename>): Option<(Blocks, seq<string>)>
    decreases |renames|
  {
    if |renames| == 0 then Some((b, order))
    else
      var r := renames[0];
      if r.from !in b || r.to in b then None
      else RenameAll((b - {r.from})[r.to := b[r.from]], ReplaceFirst(order, r.from, r.to), renames[1..])
  }

  function RemoveAll(b: Blocks, removed: seq<string>): Option<Blocks> {
    if |removed| == 0 then Some(b)
    else
      match RemoveAll(b, Init(removed))
      case None => None
      case Some(c) => if Last(removed) in c then Some(c - {Last(removed)}) else None
  }

  function ModifyAll(b: Blocks, modified: seq<Req>): Option<Blocks> {
    if |modified| == 0 then Some(b)
    else
      match ModifyAll(b, Init(modified))
      case None => None
      case Some(c) =>
        var m := Last(modified);
        if m.name in c && Scenarios(c[m.name]) <= Scenarios(m.body) then Some(c[m.name := m.body]) else None
  }

  predicate NearMiss(b: Blocks, name: string, fold: string -> string) {
    exists k :: k in b && fold(k) == fold(name)
  }

  /** The blocks with the additions in, and the names that are new in the order they came. */
  function AddAll(b: Blocks, added: seq<Req>, fold: string -> string): Option<(Blocks, seq<string>)> {
    if |added| == 0 then Some((b, []))
    else
      match AddAll(b, Init(added), fold)
      case None => None
      case Some((c, newest)) =>
        var a := Last(added);
        if a.name in c then (if c[a.name] == a.body then Some((c, newest)) else None)
        else if NearMiss(c, a.name, fold) then None
        else Some((c[a.name := a.body], newest + [a.name]))
  }

  /** The blocks of `names` that are still there. */
  function Listed(b: Blocks, names: seq<string>): seq<Req> {
    if |names| == 0 then []
    else Listed(b, Init(names)) + if Last(names) in b then [Req(Last(names), b[Last(names)])] else []
  }

  function Unseen(newest: seq<string>, order: seq<string>): (r: seq<string>)
    ensures forall n :: n in r <==> n in newest && n !in order
  {
    if |newest| == 0 then []
    else
      assert newest == Init(newest) + [Last(newest)];
      Unseen(Init(newest), order) + if Last(newest) in order then [] else [Last(newest)]
  }

  /** Removals, modifications and additions, after the renames. */
  function Edited(b: Blocks, d: Delta, hasBase: bool, fold: string -> string): Option<(Blocks, seq<string>)> {
    var removed := if hasBase then RemoveAll(b, d.removed) else Some(b);
    if removed.None? then None
    else
      var modified := ModifyAll(removed.value, d.modified);
      if modified.None? then None else AddAll(modified.value, d.added, fold)
  }

  predicate HasBase(base: Option<File>) {
    base.Some? && TextLines(base.value) > 0
  }

  const PLACEHOLDER := ("TBD - created by archiving change ", ". Update Purpose after archive.")

  function Skeleton(cap: string, purpose: File): File {
    [Words("# " + cap + " Specification"), Blank, Section(false, "Purpose")]
    + (if purpose == [] then [Words(PLACEHOLDER.0 + cap + PLACEHOLDER.1)] else purpose) + [Blank, REQUIREMENTS]
  }

  function Target(base: Option<File>, cap: string, d: Delta): File {
    if HasBase(base) then base.value else Skeleton(cap, d.purpose)
  }

  predicate Readable(base: Option<File>, d: Delta) {
    !d.malformed && Distinct(Names(d.added)) && (HasBase(base) || (d.modified == [] && d.renamed == []))
  }

  function Recomposed(b: Blocks, order: seq<string>, newest: seq<string>): seq<Req> {
    Listed(b, order) + Listed(b, Unseen(newest, order))
  }

  /** The living spec a delta merges to, in its parts; None when the delta is refused. */
  function Composed(base: Option<File>, cap: string, d: Delta, fold: string -> string): Option<Doc> {
    if !Readable(base, d) then None
    else
      var doc := Read(Target(base, cap, d));
      match ComposedBlocks(doc.reqs, d, HasBase(base), fold)
      case None => None
      case Some(reqs) => Some(doc.(reqs := reqs))
  }

  function ComposedBlocks(was: seq<Req>, d: Delta, hasBase: bool, fold: string -> string): Option<seq<Req>> {
    match RenameAll(BlocksOf(was), Names(was), d.renamed)
    case None => None
    case Some((b, order)) =>
      match Edited(b, d, hasBase, fold)
      case None => None
      case Some((c, newest)) => Some(Recomposed(c, order, newest))
  }

  /** The merged text is read once more: without a requirement the capability is emptied. */
  function Merge(base: Option<File>, cap: string, d: Delta, fold: string -> string): Merged {
    match Composed(base, cap, d, fold)
    case None => Threw
    case Some(doc) => if Read(Print(doc)).reqs == [] then Emptied else Wrote(Print(doc))
  }

  // ---------- what each operation comes to

  function SetOf(s: seq<string>): set<string> {
    set n | n in s
  }

  lemma {:induction false} RemovedIff(b: Blocks, removed: seq<string>)
    ensures RemoveAll(b, removed).Some? <==> Distinct(removed) && forall r :: r in removed ==> r in b
    ensures RemoveAll(b, removed).Some? ==> RemoveAll(b, removed).value == b - SetOf(removed)
  {
    if |removed| > 0 {
      var init, last := Init(removed), Last(removed);
      assert removed == init + [last];
      RemovedIff(b, init);
      assert Distinct(removed) <==> Distinct(init) && last !in init by {
        if last in init { var i :| 0 <= i < |init| && init[i] == last; assert removed[i] == removed[|init|]; }
      }
      assert SetOf(removed) == SetOf(init) + {last};
    }
  }

  /** The body of `name` once the modifications are in. */
  function Current(b: Blocks, modified: seq<Req>, name: string): File
    requires name in b
  {
    if |modified| == 0 then b[name]
    else if Last(modified).name == name then Last(modified).body
    else Current(b, Init(modified), name)
  }

  /** Modification `i` names a block that is there and keeps its scenarios. */
  predicate KeepsScenarios(b: Blocks, modified: seq<Req>, i: nat)
    requires i < |modified|
  {
    && modified[i].name in b
    && Scenarios(Current(b, modified[..i], modified[i].name)) <= Scenarios(modified[i].body)
  }

  lemma {:induction false} ModifiedIff(b: Blocks, modified: seq<Req>)
    ensures ModifyAll(b, modified).Some? <==> AllKeep(b, modified)
    ensures ModifyAll(b, modified).Some? ==>
              var c := ModifyAll(b, modified).value;
              c.Keys == b.Keys && forall k :: k in b ==> c[k] == Current(b, modified, k)
  {
    if |modified| > 0 {
      hide AllKeep;
      ModifiedIff(b, Init(modified));
      LastKeeps(b, modified);
    }
  }

  lemma LastKeeps(b: Blocks, modified: seq<Req>)
    requires |modified| > 0
    ensures var init, last := Init(modified), Last(modified);
            AllKeep(b, modified) <==>
              AllKeep(b, init) && last.name in b && Scenarios(Current(b, init, last.name)) <= Scenarios(last.body)
  {
    var init := Init(modified);
    forall i | 0 <= i < |init| ensures KeepsScenarios(b, init, i) <==> KeepsScenarios(b, modified, i) {
      assert init[..i] == modified[..i];
    }
    assert modified[..|init|] == init;
    assert AllKeep(b, modified) <==> AllKeep(b, init) && KeepsScenarios(b, modified, |init|);
  }

  /** Addition `i` is there already, word for word, or is new and misses every name by more than case and spacing. */
  predicate Addable(b: Blocks, added: seq<Req>, i: nat, fold: string -> string)
    requires i < |added|
  {
    var a := added[i];
    if a.name in b then b[a.name] == a.body
    else
      && !NearMiss(b, a.name, fold)
      && forall j :: 0 <= j < i ==> fold(added[j].name) != fold(a.name)
  }

  function NameSet(reqs: seq<Req>): (names: set<string>)
    ensures forall n :: n in names <==> n in Names(reqs)
  {
    set n | n in Names(reqs)
  }

  lemma NamesOfInit(reqs: seq<Req>)
    requires |reqs| > 0
    ensures Names(reqs) == Names(Init(reqs)) + [Last(reqs).name]
    ensures Distinct(Names(reqs)) ==> Distinct(Names(Init(reqs))) && Last(reqs).name !in Names(Init(reqs))
  {
    var init := Names(Init(reqs));
    assert Names(reqs) == init + [Last(reqs).name];
    if Distinct(Names(reqs)) {
      forall j, k | 0 <= j < k < |init| ensures init[j] != init[k] { assert Names(reqs)[j] != Names(reqs)[k]; }
      forall j | 0 <= j < |init| ensures init[j] != Last(reqs).name { assert Names(reqs)[j] != Names(reqs)[|init|]; }
    }
  }

  /** The blocks and the new names that additions leave. */
  ghost predicate AddedTo(b: Blocks, added: seq<Req>, c: Blocks, newest: seq<string>) {
    && c.Keys == b.Keys + NameSet(added)
    && (forall k :: k in b ==> c[k] == b[k])
    && (forall i :: 0 <= i < |added| ==> c[added[i].name] == added[i].body)
    && (forall n :: n in newest <==> n in Names(added) && n !in b)
    && Distinct(newest)
  }

  lemma NamesOfMore(init: seq<Req>, a: Req)
    ensures Names(init + [a]) == Names(init) + [a.name] && NameSet(init + [a]) == NameSet(init) + {a.name}
  {
    assert Names(init + [a]) == Names(init) + [a.name];
  }

  lemma AddedKnown(b: Blocks, init: seq<Req>, a: Req, c: Blocks, newest: seq<string>)
    requires AddedTo(b, init, c, newest) && a.name in b && c[a.name] == a.body
    ensures AddedTo(b, init + [a], c, newest)
  {
    NamesOfMore(init, a);
  }

  lemma AddedNew(b: Blocks, init: seq<Req>, a: Req, c: Blocks, newest: seq<string>)
    requires AddedTo(b, init, c, newest) && a.name !in c
    ensures AddedTo(b, init + [a], c[a.name := a.body], newest + [a.name])
  {
    NamesOfMore(init, a);
    forall i | 0 <= i < |init| ensures init[i].name in c { assert Names(init)[i] in c; }
  }

  lemma AddedOneMore(b: Blocks, added: seq<Req>, fold: string -> string)
    requires |added| > 0 && Last(added).name !in Names(Init(added))
    requires AddAll(b, added, fold).Some?
    requires var (c, newest) := AddAll(b, Init(added), fold).value; AddedTo(b, Init(added), c, newest)
    ensures var (c, newest) := AddAll(b, added, fold).value; AddedTo(b, added, c, newest)
  {
    var init, a := Init(added), Last(added);
    var (c, newest) := AddAll(b, init, fold).value;
    assert added == init + [a];
    if a.name in c { AddedKnown(b, init, a, c, newest); } else { AddedNew(b, init, a, c, newest); }
  }

  /** Additions under distinct names: each looks at the first blocks alone. */
  lemma {:induction false} AddedIff(b: Blocks, added: seq<Req>, fold: string -> string)
    requires Distinct(Names(added))
    ensures AddAll(b, added, fold).Some? <==> forall i :: 0 <= i < |added| ==> Addable(b, added, i, fold)
    ensures AddAll(b, added, fold).Some? ==>
              var (c, newest) := AddAll(b, added, fold).value; AddedTo(b, added, c, newest)
  {
    if |added| > 0 {
      var init, n := Init(added), |added| - 1;
      NamesOfInit(added);
      AddedIff(b, init, fold);
      forall i | 0 <= i < n ensures Addable(b, init, i, fold) <==> Addable(b, added, i, fold) {}
      assert (forall i :: 0 <= i < |added| ==> Addable(b, added, i, fold)) <==>
        (forall i :: 0 <= i < n ==> Addable(b, init, i, fold)) && Addable(b, added, n, fold);
      if AddAll(b, init, fold).Some? {
        LastAddable(b, added, fold);
        if AddAll(b, added, fold).Some? { AddedOneMore(b, added, fold); }
      }
    }
  }

  lemma LastAddable(b: Blocks, added: seq<Req>, fold: string -> string)
    requires |added| > 0 && Last(added).name !in Names(Init(added)) && AddAll(b, Init(added), fold).Some?
    requires AddAll(b, Init(added), fold).value.0.Keys == b.Keys + NameSet(Init(added))
    requires forall k :: k in b ==> AddAll(b, Init(added), fold).value.0[k] == b[k]
    ensures AddAll(b, added, fold).Some? <==> Addable(b, added, |added| - 1, fold)
  {
    var c, a := AddAll(b, Init(added), fold).value.0, Last(added);
    assert a.name in c <==> a.name in b;
    if a.name !in b {
      if NearMiss(c, a.name, fold) {
        var k :| k in c && fold(k) == fold(a.name);
        if k !in b {
          var j :| 0 <= j < |Init(added)| && Names(Init(added))[j] == k;
          assert added[j].name == k;
        }
      } else {
        forall j | 0 <= j < |added| - 1 ensures fold(added[j].name) != fold(a.name) {
          assert Names(Init(added))[j] in c;
        }
      }
    }
  }

  // ---------- when a delta is accepted

  function Kept(b: Blocks, d: Delta, hasBase: bool): Blocks {
    if hasBase then b - SetOf(d.removed) else b
  }

  function Changed(b: Blocks, modified: seq<Req>): (c: Blocks)
    ensures c.Keys == b.Keys
  {
    map k | k in b :: Current(b, modified, k)
  }

  ghost predicate AllKeep(b: Blocks, modified: seq<Req>) {
    forall i :: 0 <= i < |modified| ==> KeepsScenarios(b, modified, i)
  }

  ghost predicate AllAddable(b: Blocks, added: seq<Req>, fold: string -> string) {
    forall i :: 0 <= i < |added| ==> Addable(b, added, i, fold)
  }

  /** What removals, modifications and additions ask of the blocks, each looking at the blocks alone. */
  ghost predicate Guards(b: Blocks, d: Delta, hasBase: bool, fold: string -> string) {
    && (hasBase ==> Distinct(d.removed) && forall r :: r in d.removed ==> r in b)
    && AllKeep(Kept(b, d, hasBase), d.modified)
    && AllAddable(Changed(Kept(b, d, hasBase), d.modified), d.added, fold)
  }

  lemma EditedIff(b: Blocks, d: Delta, hasBase: bool, fold: string -> string)
    requires Distinct(Names(d.added))
    ensures Edited(b, d, hasBase, fold).Some? <==> Guards(b, d, hasBase, fold)
    ensures Guards(b, d, hasBase, fold) ==>
              Edited(b, d, hasBase, fold) == AddAll(Changed(Kept(b, d, hasBase), d.modified), d.added, fold)
  {
    if hasBase { RemovedIff(b, d.removed); }
    if hasBase ==> RemoveAll(b, d.removed).Some? {
      var kept := Kept(b, d, hasBase);
      ModifiedIff(kept, d.modified);
      if AllKeep(kept, d.modified) {
        assert ModifyAll(kept, d.modified).value == Changed(kept, d.modified);
        AddedIff(Changed(kept, d.modified), d.added, fold);
      }
    }
  }

  /** Whether the renames fit the names, whatever the blocks hold. */
  predicate Fits(names: set<string>, renames: seq<Rename>)
    decreases |renames|
  {
    |renames| == 0
    || (renames[0].from in names && renames[0].to !in names
        && Fits(names - {renames[0].from} + {renames[0].to}, renames[1..]))
  }

  lemma {:induction false} RenamedIff(b: Blocks, order: seq<string>, renames: seq<Rename>)
    ensures RenameAll(b, order, renames).Some? <==> Fits(b.Keys, renames)
    decreases |renames|
  {
    if |renames| > 0 {
      var r := renames[0];
      if r.from in b && r.to !in b {
        var c := (b - {r.from})[r.to := b[r.from]];
        assert c.Keys == b.Keys - {r.from} + {r.to};
        RenamedIff(c, ReplaceFirst(order, r.from, r.to), renames[1..]);
      }
    }
  }

  /** A merge throws exactly when the delta is unreadable, a rename does not fit, or some guard fails. */
  lemma MergeAcceptsIff(base: Option<File>, cap: string, d: Delta, fold: string -> string)
    ensures var doc := Read(Target(base, cap, d));
            var moved := RenameAll(BlocksOf(doc.reqs), Names(doc.reqs), d.renamed);
            && (moved.Some? <==> Fits(BlocksOf(doc.reqs).Keys, d.renamed))
            && (Merge(base, cap, d, fold) != Threw <==>
                  Readable(base, d) && moved.Some? && Guards(moved.value.0, d, HasBase(base), fold))
  {
    var doc := Read(Target(base, cap, d));
    RenamedIff(BlocksOf(doc.reqs), Names(doc.reqs), d.renamed);
    var moved := RenameAll(BlocksOf(doc.reqs), Names(doc.reqs), d.renamed);
    if Readable(base, d) && moved.Some? { EditedIff(moved.value.0, d, HasBase(base), fold); }
  }

  // ---------- the engine

  lemma {:induction false} RemovalSticks(b: Blocks, removed: seq<string>, n: nat)
    requires n <= |removed| && RemoveAll(b, removed[..n]).None?
    ensures RemoveAll(b, removed).None?
  {
    if n < |removed| {
      assert Init(removed)[..n] == removed[..n];
      RemovalSticks(b, Init(removed), n);
    } else {
      assert removed[..n] == removed;
    }
  }

  lemma {:induction false} ModificationSticks(b: Blocks, modified: seq<Req>, n: nat)
    requires n <= |modified| && ModifyAll(b, modified[..n]).None?
    ensures ModifyAll(b, modified).None?
  {
    if n < |modified| {
      assert Init(modified)[..n] == modified[..n];
      ModificationSticks(b, Init(modified), n);
    } else {
      assert modified[..n] == modified;
    }
  }

  lemma {:induction false} AdditionSticks(b: Blocks, added: seq<Req>, n: nat, fold: string -> string)
    requires n <= |added| && AddAll(b, added[..n], fold).None?
    ensures AddAll(b, added, fold).None?
  {
    if n < |added| {
      assert Init(added)[..n] == added[..n];
      AdditionSticks(b, Init(added), n, fold);
    } else {
      assert added[..n] == added;
    }
  }

  /** What one more addition does; once one is refused, all of them are. */
  lemma AddNext(b: Blocks, added: seq<Req>, i: nat, fold: string -> string, c: Blocks, newest: seq<string>)
    requires i < |added| && AddAll(b, added[..i], fold) == Some((c, newest))
    ensures var a, next := added[i], AddAll(b, added[..i + 1], fold);
            && next == (if a.name in c then (if c[a.name] == a.body then Some((c, newest)) else None)
                        else if NearMiss(c, a.name, fold) then None
                        else Some((c[a.name := a.body], newest + [a.name])))
            && (next.None? ==> AddAll(b, added, fold).None?)
  {
    TakeNext(added, i);
    if AddAll(b, added[..i + 1], fold).None? { AdditionSticks(b, added, i + 1, fold); }
  }

  lemma NoneMissing(current: multiset<string>, incoming: multiset<string>, missing: seq<string>)
    requires multiset(missing) == current - incoming
    ensures missing == [] <==> current <= incoming
  {
    var left := multiset(missing);
    if current <= incoming {
      assert left == multiset{};
      assert |left| == |missing|;
    }
    if missing == [] {
      forall n ensures current[n] <= incoming[n] { assert left[n] == 0; }
    }
  }

  /** The blocks by name, their order in the file, and the names the additions brought; each step may throw. */
  class MergeContext {
    const fold: string -> string
    var blocks: Blocks
    var order: seq<string>
    var newest: seq<string>

    constructor (reqs: seq<Req>, fold: string -> string)
      ensures blocks == BlocksOf(reqs) && order == Names(reqs) && newest == [] && this.fold == fold
    {
      this.fold := fold;
      blocks, order, newest := BlocksOf(reqs), Names(reqs), [];
    }

    method ApplyRenames(renames: seq<Rename>) returns (accepted: bool)
      modifies `blocks, `order
      ensures accepted <==> old(RenameAll(blocks, order, renames)).Some?
      ensures accepted ==> (blocks, order) == old(RenameAll(blocks, order, renames)).value
    {
      for i := 0 to |renames|
        invariant RenameAll(blocks, order, renames[i..]) == old(RenameAll(blocks, order, renames))
      {
        var r := renames[i];
        assert renames[i..][1..] == renames[i + 1..];
        if r.from !in blocks || r.to in blocks { return false; }
        order := ReplaceFirst(order, r.from, r.to);
        blocks := (blocks - {r.from})[r.to := blocks[r.from]];
      }
      return true;
    }

    method ApplyRemovals(removed: seq<string>) returns (accepted: bool)
      modifies `blocks
      ensures accepted <==> RemoveAll(old(blocks), removed).Some?
      ensures accepted ==> blocks == RemoveAll(old(blocks), removed).value
    {
      for i := 0 to |removed|
        invariant RemoveAll(old(blocks), removed[..i]) == Some(blocks)
      {
        TakeNext(removed, i);
        if removed[i] !in blocks {
          RemovalSticks(old(blocks), removed, i + 1);
          return false;
        }
        blocks := blocks - {removed[i]};
      }
      assert removed[..|removed|] == removed;
      return true;
    }

    method ApplyModifications(modified: seq<Req>) returns (accepted: bool)
      modifies `blocks
      ensures accepted <==> ModifyAll(old(blocks), modified).Some?
      ensures accepted ==> blocks == ModifyAll(old(blocks), modified).value
    {
      for i := 0 to |modified|
        invariant ModifyAll(old(blocks), modified[..i]) == Some(blocks)
      {
        TakeNext(modified, i);
        var m := modified[i];
        if m.name !in blocks {
          ModificationSticks(old(blocks), modified, i + 1);
          return false;
        }
        var missing := SpecReader.MissingScenarioNames(blocks[m.name], m.body);
        NoneMissing(Scenarios(blocks[m.name]), Scenarios(m.body), missing);
        if missing != [] {
          ModificationSticks(old(blocks), modified, i + 1);
          return false;
        }
        blocks := blocks[m.name := m.body];
      }
      assert modified[..|modified|] == modified;
      return true;
    }

    method ApplyAdditions(added: seq<Req>) returns (accepted: bool)
      requires newest == []
      modifies `blocks, `newest
      ensures accepted <==> AddAll(old(blocks), added, fold).Some?
      ensures accepted ==> (blocks, newest) == AddAll(old(blocks), added, fold).value
    {
      for i := 0 to |added|
        invariant AddAll(old(blocks), added[..i], fold) == Some((blocks, newest))
      {
        var a := added[i];
        AddNext(old(blocks), added, i, fold, blocks, newest);
        if a.name in blocks {
          if blocks[a.name] == a.body { continue; }
          return false;
        }
        if NearMiss(blocks, a.name, fold) { return false; }
        blocks, newest := blocks[a.name := a.body], newest + [a.name];
      }
      assert added[..|added|] == added;
      return true;
    }

    /** What follows the renames; a new capability has nothing to remove. */
    method ApplyRest(d: Delta, hasBase: bool) returns (accepted: bool)
      requires newest == []
      modifies `blocks, `newest
      ensures accepted <==> Edited(old(blocks), d, hasBase, fold).Some?
      ensures accepted ==> (blocks, newest) == Edited(old(blocks), d, hasBase, fold).value
    {
      if hasBase {
        accepted := ApplyRemovals(d.removed);
        if !accepted { return; }
      }
      accepted := ApplyModifications(d.modified);
      if !accepted { return; }
      accepted := ApplyAdditions(d.added);
    }

    /** The blocks in the file's order, then the new ones in theirs. */
    method Recompose() returns (reqs: seq<Req>)
      ensures reqs == Recomposed(blocks, order, newest)
    {
      reqs := [];
      for i := 0 to |order|
        invariant reqs == Listed(blocks, order[..i])
      {
        TakeNext(order, i);
        if order[i] in blocks { reqs := reqs + [Req(order[i], blocks[order[i]])]; }
      }
      assert order[..|order|] == order;
      var unseen := Unseen(newest, order);
      for i := 0 to |unseen|
        invariant reqs == Listed(blocks, order) + Listed(blocks, unseen[..i])
      {
        TakeNext(unseen, i);
        if unseen[i] in blocks { reqs := reqs + [Req(unseen[i], blocks[unseen[i]])]; }
      }
      assert unseen[..|unseen|] == unseen;
    }
  }

  /** `mergeLivingSpec`: every step in its order, the first refusal refuses the delta. */
  method MergeLivingSpec(base: Option<File>, cap: string, d: Delta, fold: string -> string) returns (merged: Merged)
    ensures merged == Merge(base, cap, d, fold)
  {
    if d.malformed || !Distinct(Names(d.added)) { return Threw; }
    var hasBase := HasBase(base);
    if !hasBase && (d.modified != [] || d.renamed != []) { return Threw; }
    var doc := SpecReader.ExtractRequirementsSection(Target(base, cap, d));
    var reqs := MergeBlocks(doc.reqs, d, hasBase, fold);
    if reqs.None? { return Threw; }
    var text := SpecReader.CollapseBlankRuns(Whole(doc.(reqs := reqs.value)));
    var again := SpecReader.ExtractRequirementsSection(text);
    return if again.reqs == [] then Emptied else Wrote(text);
  }

  /** The blocks after every operation, or None when one of them throws. */
  method MergeBlocks(was: seq<Req>, d: Delta, hasBase: bool, fold: string -> string) returns (reqs: Option<seq<Req>>)
    ensures reqs == ComposedBlocks(was, d, hasBase, fold)
  {
    var context := new MergeContext(was, fold);
    var accepted := context.ApplyRenames(d.renamed);
    if !accepted { return None; }
    accepted := context.ApplyRest(d, hasBase);
    if !accepted { return None; }
    var all := context.Recompose();
    return Some(all);
  }
}
