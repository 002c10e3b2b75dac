/**
 A merged file in which a fence stays open: the next merge takes everything after the open block for
 that block's text, and either keeps it twice or drops it.
 */
module OpenFences {
  import opened Wrappers
  import opened Text
  import opened SpecText
  import opened DeltaMerge
  import opened MergeAgain

  /** The delta replaces the text of this requirement, whatever that text is. */
  predicate Afresh(d: Delta, name: string) {
    name in Names(d.modified) || (name in d.removed && name in Names(d.added))
  }

  /** An accepted merge that renames nothing and leaves a fence of block `i` open over what follows. */
  ghost predicate LeftOpen(base: Option<File>, cap: string, d: Delta, fold: string -> string, text: File, i: nat) {
    && Parsed(d) && DistinctNames(base) && d.renamed == [] && Merge(base, cap, d, fold) == Wrote(text)
    && OpenFrom(Composed(base, cap, d, fold).value, i) && Rest(Composed(base, cap, d, fold).value, i) != []
  }

  /** A merged file always has text. */
  lemma PrintHasText(doc: Doc)
    requires doc.header.Section?
    ensures HasBase(Some(Print(doc)))
  {
    WholeHasMore(doc);
    TidyKeepsText(Closed, false, Whole(doc));
  }

  lemma FrontNames(reqs: seq<Req>, i: nat, read: seq<Req>)
    requires Distinct(Names(reqs)) && i < |reqs| && |read| == i + 1
    requires forall k :: 0 <= k <= i ==> read[k].name == reqs[k].name
    ensures Names(read) == Names(reqs[..i + 1]) && Distinct(Names(read))
  {
    forall j, k | 0 <= j < k < |read| ensures Names(read)[j] != Names(read)[k] {
      assert Names(reqs)[j] != Names(reqs)[k];
    }
  }

  lemma OpenNames(doc: Doc, i: nat)
    requires i < |doc.reqs| && Distinct(Names(doc.reqs))
    ensures Names(ReadOpen(doc, i).reqs) == Names(doc.reqs[..i + 1]) && Distinct(Names(ReadOpen(doc, i).reqs))
  {
    var read := ReadOpen(doc, i).reqs;
    forall k | 0 <= k <= i ensures read[k].name == doc.reqs[k].name {
      if k < i { assert read[k] == TidyReq(doc.reqs[..i][k]); }
    }
    FrontNames(doc.reqs, i, read);
  }

  /** The second merge reads the open block and all that follows it as one. */
  lemma OpenRead(base: Option<File>, cap: string, d: Delta, fold: string -> string, text: File, i: nat)
    requires LeftOpen(base, cap, d, fold, text, i)
    ensures var doc := Composed(base, cap, d, fold).value;
            && Formed(doc) && text == Print(doc) && Read(text) == ReadOpen(doc, i)
            && Names(Read(text).reqs) == Names(doc.reqs[..i + 1])
    ensures HasBase(Some(text)) && DistinctNames(Some(text))
  {
    hide Composed;
    var doc := Composed(base, cap, d, fold).value;
    ComposedFormed(base, cap, d, fold);
    ReadsOpen(doc, i);
    PrintHasText(doc);
    MergedDistinct(base, cap, d, fold);
    OpenNames(doc, i);
  }

  lemma {:induction false} SurvivingAll(d: Delta, names: seq<string>)
    requires forall n :: n in names ==> Survives(d, n)
    ensures Surviving(d, names) == names
  {
    if |names| > 0 {
      assert names == Init(names) + [Last(names)];
      SurvivingAll(d, Init(names));
    }
  }

  lemma TracksNothing(names: seq<string>)
    ensures Tracked([], names) == names
  {
  }

  /** The names a second merge writes: those up to the open block, and then what the delta adds. */
  function NamesAgain(d: Delta, doc: Doc, i: nat): seq<string>
    requires i < |doc.reqs|
  {
    Names(doc.reqs[..i + 1]) + Unseen(Names(d.added), Names(doc.reqs[..i + 1]))
  }

  /** What an accepted second merge removes, the delta adds. */
  lemma RemovedIsAdded(d: Delta, fold: string -> string, b: Blocks, hasBase: bool, c: Blocks, b': Blocks)
    requires Left(b, d, hasBase, fold, c) && Guards(b', d, true, fold) && b'.Keys <= c.Keys
    ensures forall r :: r in d.removed ==> r in Names(d.added)
  {
    forall r | r in d.removed ensures r in Names(d.added) {
      assert r in b'.Keys && r in SetOf(d.removed);
      assert r !in Kept(b, d, hasBase).Keys;
    }
  }

  lemma FrontHolds(c: Blocks, order: seq<string>, newest: seq<string>, i: nat, b': Blocks)
    requires Covered(c, order, newest)
    requires var reqs := Recomposed(c, order, newest); i < |reqs| && forall k :: k in b' ==> k in Names(reqs[..i + 1])
    ensures b'.Keys <= c.Keys
  {
    var reqs := Recomposed(c, order, newest);
    Recomposes(c, order, newest);
    forall r | r in b' ensures r in c {
      var k :| 0 <= k < i + 1 && Names(reqs[..i + 1])[k] == r;
      assert reqs[k].name in c;
    }
  }

  lemma SecondNames(base: Option<File>, cap: string, d: Delta, fold: string -> string, text: File, i: nat)
    requires LeftOpen(base, cap, d, fold, text, i) && Composed(Some(text), cap, d, fold).Some?
    ensures Names(Composed(Some(text), cap, d, fold).value.reqs) == NamesAgain(d, Composed(base, cap, d, fold).value, i)
  {
    hide Composed;
    var b, order, c, newest := LookBehind(base, cap, d, fold);
    OpenRead(base, cap, d, fold, text, i);
    var b', order', c', newest' := LookBehind(Some(text), cap, d, fold);
    EditedIff(b', d, true, fold);
    FrontHolds(c, order, newest, i, b');
    RemovedIsAdded(d, fold, b, HasBase(base), c, b');
    SurvivingAll(d, Names(Read(text).reqs));
    TracksNothing(Names(Read(text).reqs));
    MergedNames(text, cap, d, fold);
  }

  lemma {:induction false} BlocksHold(reqs: seq<Req>, k: nat)
    requires Distinct(Names(reqs)) && k < |reqs|
    ensures reqs[k].name in BlocksOf(reqs) && BlocksOf(reqs)[reqs[k].name] == reqs[k].body
  {
    NamesOfInit(reqs);
    if k < |reqs| - 1 {
      BlocksHold(Init(reqs), k);
      assert Names(Init(reqs))[k] == reqs[k].name;
    }
  }

  /** A text the delta gives is the same both times; another one is what the second merge read. */
  lemma BodyAgain(b: Blocks, hasBase: bool, c: Blocks, reqs: seq<Req>, c': Blocks, d: Delta, fold: string -> string, k: nat)
    requires Left(b, d, hasBase, fold, c) && Left(BlocksOf(reqs), d, true, fold, c') && Distinct(Names(reqs))
    requires k < |reqs| && reqs[k].name in c && reqs[k].name in c'
    ensures c'[reqs[k].name] == if Given(d, reqs[k].name) then c[reqs[k].name] else reqs[k].body
  {
    if Given(d, reqs[k].name) {
      GivenBody(b, hasBase, c, BlocksOf(reqs), true, c', d, fold, reqs[k].name);
    } else {
      MovedBody(BlocksOf(reqs), d, fold, c', reqs[k].name);
      BlocksHold(reqs, k);
    }
  }

  lemma SomethingAfter(doc: Doc, i: nat)
    requires i < |doc.reqs| && Formed(doc) && Rest(doc, i) != []
    ensures TextLines(Rest(doc, i)) > 0
  {
    TextOfBoth(Printed(doc.reqs[i + 1..]), Tail(doc.after));
    if i + 1 < |doc.reqs| {
      var later := doc.reqs[i + 1..];
      PrintedFirst(later, []);
      var more := later[0].body + (Printed(later[1..]) + []);
      assert Printed(later) + [] == Printed(later);
      TextOfBoth([Blank, Heading(later[0].name)], more);
      assert [Blank, Heading(later[0].name)][1..] == [Heading(later[0].name)];
    } else {
      assert doc.after != [];
      assert Tail(doc.after)[1..] == doc.after;
    }
  }

  lemma SwallowedDiffers(doc: Doc, i: nat)
    requires i < |doc.reqs| && Formed(doc) && Rest(doc, i) != []
    ensures Swallowed(doc, i).body != doc.reqs[i].body
  {
    TextOfBoth(TidyBody(doc.reqs[i].body), Rest(doc, i));
    TidyKeepsText(Closed, false, doc.reqs[i].body);
    SomethingAfter(doc, i);
  }

  lemma {:induction false} Unmodified(b: Blocks, modified: seq<Req>, name: string)
    requires name in b && name !in Names(modified)
    ensures Current(b, modified, name) == b[name]
  {
    if |modified| > 0 {
      NamesOfInit(modified);
      Unmodified(b, Init(modified), name);
    }
  }

  /** A text that changes and that the delta gives is one it gives afresh. */
  lemma ChangedIsAfresh(b: Blocks, d: Delta, fold: string -> string, c: Blocks, name: string)
    requires Left(b, d, true, fold, c) && name in b && name in c && c[name] != b[name]
    ensures Given(d, name) ==> Afresh(d, name)
  {
    if Given(d, name) && !Afresh(d, name) {
      assert name in Kept(b, d, true);
      Unmodified(Kept(b, d, true), d.modified, name);
    }
  }

  /** Block `k` after the second merge. */
  ghost predicate TakenAgain(doc: Doc, i: nat, d: Delta, again: seq<Req>, k: nat)
    requires i < |doc.reqs| && k < |again|
  {
    if k < i then TidyBody(again[k].body) == TidyBody(doc.reqs[k].body)
    else if k == i then again[k].body == if Afresh(d, again[k].name) then doc.reqs[i].body else Swallowed(doc, i).body
    else exists m :: i < m < |doc.reqs| && doc.reqs[m] == again[k]
  }

  /** The blocks of a file are those of the map. */
  ghost predicate Lists(reqs: seq<Req>, c: Blocks) {
    forall k :: 0 <= k < |reqs| ==> reqs[k].name in c && reqs[k].body == c[reqs[k].name]
  }

  lemma BeforeOpen(b: Blocks, hasBase: bool, c: Blocks, doc: Doc, i: nat, c': Blocks, d: Delta, fold: string -> string, k: nat)
    requires i < |doc.reqs| && k < i && Distinct(Names(doc.reqs)) && Lists(doc.reqs, c)
    requires Left(b, d, hasBase, fold, c) && Left(BlocksOf(ReadOpen(doc, i).reqs), d, true, fold, c')
    requires doc.reqs[k].name in c'
    ensures TidyBody(c'[doc.reqs[k].name]) == TidyBody(doc.reqs[k].body)
  {
    var read := ReadOpen(doc, i).reqs;
    OpenNames(doc, i);
    assert read[k] == TidyReq(doc.reqs[k]);
    BodyAgain(b, hasBase, c, read, c', d, fold, k);
    TidyTwice(Closed, false, doc.reqs[k].body);
  }

  lemma AtOpen(b: Blocks, hasBase: bool, c: Blocks, doc: Doc, i: nat, c': Blocks, d: Delta, fold: string -> string)
    requires i < |doc.reqs| && Formed(doc) && Rest(doc, i) != [] && Distinct(Names(doc.reqs)) && Lists(doc.reqs, c)
    requires Left(b, d, hasBase, fold, c) && Left(BlocksOf(ReadOpen(doc, i).reqs), d, true, fold, c')
    requires doc.reqs[i].name in c'
    ensures c'[doc.reqs[i].name] == if Afresh(d, doc.reqs[i].name) then doc.reqs[i].body else Swallowed(doc, i).body
    ensures Given(d, doc.reqs[i].name) ==> Afresh(d, doc.reqs[i].name)
  {
    var read := ReadOpen(doc, i).reqs;
    OpenNames(doc, i);
    assert read[i] == Swallowed(doc, i);
    BodyAgain(b, hasBase, c, read, c', d, fold, i);
    SwallowedDiffers(doc, i);
    BlocksHold(read, i);
    if Given(d, doc.reqs[i].name) { ChangedIsAfresh(BlocksOf(read), d, fold, c', doc.reqs[i].name); }
  }

  lemma AfterOpen(b: Blocks, hasBase: bool, c: Blocks, doc: Doc, i: nat, b': Blocks, c': Blocks, d: Delta, fold: string -> string, n: string)
    requires i < |doc.reqs| && Lists(doc.reqs, c) && forall k :: k in c ==> k in Names(doc.reqs)
    requires Left(b, d, hasBase, fold, c) && Left(b', d, true, fold, c')
    requires n in Names(d.added) && n !in Names(doc.reqs[..i + 1]) && n in c'
    ensures exists m :: i < m < |doc.reqs| && doc.reqs[m] == Req(n, c'[n])
  {
    assert n in c.Keys by { assert n in NameSet(d.added); }
    GivenBody(b, hasBase, c, b', true, c', d, fold, n);
    forall m | 0 <= m <= i ensures doc.reqs[m].name in Names(doc.reqs[..i + 1]) {
      assert Names(doc.reqs[..i + 1])[m] == doc.reqs[m].name;
    }
    var m :| 0 <= m < |doc.reqs| && Names(doc.reqs)[m] == n;
    assert doc.reqs[m] == Req(n, c'[n]);
  }

  lemma SecondName(doc: Doc, i: nat, d: Delta, again: seq<Req>, k: nat)
    requires i < |doc.reqs| && Names(again) == NamesAgain(d, doc, i) && k < |again|
    ensures k <= i ==> again[k].name == doc.reqs[k].name
    ensures k > i ==> again[k].name in Names(d.added) && again[k].name !in Names(doc.reqs[..i + 1])
  {
    assert Names(again)[k] == again[k].name;
    if k > i {
      var added := Unseen(Names(d.added), Names(doc.reqs[..i + 1]));
      assert again[k].name == added[k - i - 1];
    }
  }

  lemma SecondBlock(b: Blocks, hasBase: bool, c: Blocks, doc: Doc, i: nat, c': Blocks, d: Delta, fold: string -> string,
                    again: seq<Req>, k: nat)
    requires i < |doc.reqs| && Formed(doc) && Rest(doc, i) != [] && Distinct(Names(doc.reqs))
    requires Lists(doc.reqs, c) && forall n :: n in c ==> n in Names(doc.reqs)
    requires Left(b, d, hasBase, fold, c) && Left(BlocksOf(ReadOpen(doc, i).reqs), d, true, fold, c')
    requires Lists(again, c') && Names(again) == NamesAgain(d, doc, i) && k < |again|
    ensures TakenAgain(doc, i, d, again, k)
  {
    SecondName(doc, i, d, again, k);
    if k < i {
      BeforeOpen(b, hasBase, c, doc, i, c', d, fold, k);
    } else if k == i {
      AtOpen(b, hasBase, c, doc, i, c', d, fold);
    } else {
      AfterOpen(b, hasBase, c, doc, i, BlocksOf(ReadOpen(doc, i).reqs), c', d, fold, again[k].name);
    }
  }

  lemma SecondBlocks(base: Option<File>, cap: string, d: Delta, fold: string -> string, text: File, i: nat)
    requires LeftOpen(base, cap, d, fold, text, i) && Composed(Some(text), cap, d, fold).Some?
    ensures var doc, again := Composed(base, cap, d, fold).value, Composed(Some(text), cap, d, fold).value;
            && Formed(again) && again == ReadOpen(doc, i).(reqs := again.reqs)
            && Names(again.reqs) == NamesAgain(d, doc, i)
            && (Given(d, doc.reqs[i].name) ==> Afresh(d, doc.reqs[i].name))
            && forall k :: 0 <= k < |again.reqs| ==> TakenAgain(doc, i, d, again.reqs, k)
  {
    hide Composed;
    var doc, again := Composed(base, cap, d, fold).value, Composed(Some(text), cap, d, fold).value;
    var b, order, c, newest := LookBehind(base, cap, d, fold);
    var b', order', c', newest' := LookBehind(Some(text), cap, d, fold);
    OpenRead(base, cap, d, fold, text, i);
    MergedDistinct(base, cap, d, fold);
    SecondNames(base, cap, d, fold, text, i);
    ComposedFormed(Some(text), cap, d, fold);
    Recomposes(c, order, newest);
    Recomposes(c', order', newest');
    SecondName(doc, i, d, again.reqs, i);
    AtOpen(b, HasBase(base), c, doc, i, c', d, fold);
    forall k | 0 <= k < |again.reqs| ensures TakenAgain(doc, i, d, again.reqs, k) {
      SecondBlock(b, HasBase(base), c, doc, i, c', d, fold, again.reqs, k);
    }
  }

  // ---------- what the second merge writes

  lemma StaysOpenBoth(f: Fence, a: File, b: File)
    ensures StaysOpen(f, a + b) <==> StaysOpen(f, a) && StaysOpen(f, b)
  {
    if StaysOpen(f, a + b) {
      forall j | 0 <= j < |a| ensures !Closes(f, a[j]) { assert (a + b)[j] == a[j]; }
      forall j | 0 <= j < |b| ensures !Closes(f, b[j]) { assert (a + b)[|a| + j] == b[j]; }
    }
  }

  ghost predicate NoneCloses(f: Fence, reqs: seq<Req>) {
    forall k :: 0 <= k < |reqs| ==> StaysOpen(f, reqs[k].body)
  }

  lemma {:induction false} PrintedStaysOpen(f: Fence, reqs: seq<Req>)
    requires f.Open?
    ensures StaysOpen(f, Printed(reqs)) <==> NoneCloses(f, reqs)
    decreases |reqs|
  {
    if |reqs| > 0 {
      var q, rest := reqs[0], reqs[1..];
      PrintedStaysOpen(f, rest);
      StaysOpenBoth(f, [Blank, Heading(q.name)] + q.body, Printed(rest));
      StaysOpenBoth(f, [Blank, Heading(q.name)], q.body);
      assert StaysOpen(f, [Blank, Heading(q.name)]);
      assert reqs == [q] + rest;
      assert NoneCloses(f, reqs) <==> StaysOpen(f, q.body) && NoneCloses(f, rest);
    }
  }

  /** The second merge leaves the same fence open. */
  lemma StillOpen(doc: Doc, i: nat, d: Delta, again: Doc)
    requires Formed(doc) && OpenFrom(doc, i) && again == ReadOpen(doc, i).(reqs := again.reqs) && i < |again.reqs|
    requires forall k :: 0 <= k < |again.reqs| ==> TakenAgain(doc, i, d, again.reqs, k)
    ensures OpenFrom(again, i)
  {
    var f, later := Through(Closed, doc.reqs[i].body), again.reqs[i + 1..];
    OpenBlockAgain(doc, i, d, again);
    NoneClosesAgain(f, doc, i, d, again.reqs);
    PrintedStaysOpen(f, later);
    assert Rest(again, i) == Printed(later) by { assert Printed(later) + [] == Printed(later); }
    FrontAgain(doc, i, d, again);
  }

  lemma NoneClosesAgain(f: Fence, doc: Doc, i: nat, d: Delta, again: seq<Req>)
    requires i < |doc.reqs| && i < |again| && StaysOpen(f, Rest(doc, i))
    requires forall k :: 0 <= k < |again| ==> TakenAgain(doc, i, d, again, k)
    ensures NoneCloses(f, again[i + 1..])
  {
    var all, later := doc.reqs[i + 1..], again[i + 1..];
    StaysOpenBoth(f, Printed(all), Tail(doc.after));
    PrintedStaysOpen(f, all);
    forall k | 0 <= k < |later| ensures StaysOpen(f, later[k].body) {
      assert TakenAgain(doc, i, d, again, k + i + 1);
      var m :| i < m < |doc.reqs| && doc.reqs[m] == later[k];
      assert all[m - i - 1] == doc.reqs[m];
    }
  }

  lemma OpenBlockAgain(doc: Doc, i: nat, d: Delta, again: Doc)
    requires Formed(doc) && OpenFrom(doc, i) && i < |again.reqs| && TakenAgain(doc, i, d, again.reqs, i)
    ensures Through(Closed, again.reqs[i].body) == Through(Closed, doc.reqs[i].body)
    ensures TidyBody(again.reqs[i].body) == if Afresh(d, again.reqs[i].name) then TidyBody(doc.reqs[i].body) else Swallowed(doc, i).body
  {
    SwallowedText(doc, i);
    var f := Through(Closed, doc.reqs[i].body);
    TidyKeeps(Closed, false, doc.reqs[i].body);
    ThroughBoth(Closed, TidyBody(doc.reqs[i].body), Rest(doc, i));
    OpenKeepsAll(f, false, Rest(doc, i));
  }

  lemma FrontAgain(doc: Doc, i: nat, d: Delta, again: Doc)
    requires Formed(doc) && OpenFrom(doc, i) && again == ReadOpen(doc, i).(reqs := again.reqs) && i < |again.reqs|
    requires forall k :: 0 <= k < |again.reqs| ==> TakenAgain(doc, i, d, again.reqs, k)
    ensures FrontClosed(UpTo(again, i))
  {
    var front, upto := again.reqs[..i + 1], UpTo(doc, i);
    PartTidied(doc.before);
    PartTidied(doc.preamble);
    forall k | 0 <= k < i ensures IsClosed(front[k].body) {
      assert TakenAgain(doc, i, d, again.reqs, k);
      TidyKeeps(Closed, false, again.reqs[k].body);
      TidyKeeps(Closed, false, doc.reqs[k].body);
      assert IsClosed(upto.reqs[k].body) && upto.reqs[k] == doc.reqs[k];
    }
  }

  /** Two lists that hold the same block under a name are written as the same text only when they are the same. */
  lemma {:induction false} SamePrinted(some: seq<Req>, all: seq<Req>, after: File)
    requires Agree(some, all)
    requires after == [] || after[0].Section?
    ensures Printed(some) == Printed(all) + Tail(after) <==> some == all && after == []
    decreases |some|
  {
    PrintedEnds(some);
    PrintedEnds(all);
    if |some| > 0 && |all| > 0 {
      PrintedFirst(some, []);
      PrintedFirst(all, Tail(after));
      assert Printed(some) + [] == Printed(some) && Printed(some[1..]) + [] == Printed(some[1..]);
      var rest := Printed(all[1..]) + Tail(after);
      if some[0].name == all[0].name {
        var head := [Blank, Heading(some[0].name)];
        CutFront(head, some[0].body + Printed(some[1..]), some[0].body + rest);
        CutFront(some[0].body, Printed(some[1..]), rest);
        SamePrinted(some[1..], all[1..], after);
        assert some == [some[0]] + some[1..] && all == [all[0]] + all[1..];
      } else {
        assert Printed(some)[1] == Heading(some[0].name) && (Printed(all) + Tail(after))[1] == Heading(all[0].name);
      }
    } else if |some| > 0 {
      assert Printed(all) + Tail(after) == Tail(after);
      if after != [] { assert Tail(after)[1] == after[0]; }
    }
  }

  lemma PrintedEnds(reqs: seq<Req>)
    ensures |reqs| > 0 ==> |Printed(reqs)| > 1 && Printed(reqs)[1] == Heading(reqs[0].name)
  {
  }

  lemma CutFront(head: File, a: File, b: File)
    ensures head + a == head + b <==> a == b
  {
    if head + a == head + b {
      assert a == (head + a)[|head|..] && b == (head + b)[|head|..];
    }
  }

  lemma SameWhenSwallowed(doc: Doc, i: nat, d: Delta, again: Doc)
    requires Formed(doc) && Formed(again) && OpenFrom(doc, i) && OpenFrom(again, i)
    requires again == ReadOpen(doc, i).(reqs := again.reqs) && Names(again.reqs) == NamesAgain(d, doc, i)
    requires forall k :: 0 <= k < |again.reqs| ==> TakenAgain(doc, i, d, again.reqs, k)
    ensures Print(again) == Print(doc) <==> Swallowed(again, i) == Swallowed(doc, i)
  {
    ReadsOpen(doc, i);
    ReadsOpen(again, i);
    TidyTwice(Closed, false, doc.before);
    TidyTwice(Closed, false, doc.preamble);
    var front, front' := TidyReqs(doc.reqs[..i]), TidyReqs(again.reqs[..i]);
    forall k | 0 <= k < i ensures front'[k] == front[k] {
      assert TakenAgain(doc, i, d, again.reqs, k);
      SecondName(doc, i, d, again.reqs, k);
    }
    assert front' == front;
    LastSwallowed(doc, i);
    LastSwallowed(again, i);
  }

  lemma LastSwallowed(doc: Doc, i: nat)
    requires i < |doc.reqs|
    ensures Last(ReadOpen(doc, i).reqs) == Swallowed(doc, i)
  {
  }

  lemma {:induction false} LastListed(c: Blocks, order: seq<string>)
    requires |order| > 0 && Last(order) in c
    ensures |Listed(c, order)| > 0 && Last(Listed(c, order)).name == Last(order)
  {
  }

  /** In a base with distinct names only the last block can leave a fence open, and only with nothing after the blocks. */
  lemma OpenIsLast(base: File, n: string)
    requires Distinct(Names(Read(base).reqs)) && n in BlocksOf(Read(base).reqs) && !IsClosed(BlocksOf(Read(base).reqs)[n])
    ensures var doc := Read(base); doc.after == [] && Last(Names(doc.reqs)) == n
  {
    var reqs := Read(base).reqs;
    var m :| 0 <= m < |reqs| && Names(reqs)[m] == n;
    BlocksHold(reqs, m);
    ReadFormed(base);
    assert !IsClosed(reqs[m].body);
  }

  /** What stands after the last block of the base's order is new. */
  lemma AfterLast(c: Blocks, order: seq<string>, newest: seq<string>, i: nat)
    requires |order| > 0 && Last(order) in c
    requires var reqs := Recomposed(c, order, newest);
             Distinct(Names(reqs)) && i + 1 < |reqs| && reqs[i].name == Last(order)
    ensures Recomposed(c, order, newest)[i + 1].name in newest
  {
    var front, unseen := Listed(c, order), Unseen(newest, order);
    var reqs := Recomposed(c, order, newest);
    LastListed(c, order);
    var p := |front| - 1;
    assert Names(reqs)[p] == Names(reqs)[i];
    assert p == i;
    ListedHolds(c, unseen);
    assert reqs[i + 1] == Listed(c, unseen)[0];
  }

  lemma NotSeen(reqs: seq<Req>, i: nat)
    requires Distinct(Names(reqs)) && i + 1 < |reqs|
    ensures reqs[i + 1].name !in Names(reqs[..i + 1])
  {
    var front := Names(reqs[..i + 1]);
    forall k | 0 <= k < |front| ensures front[k] != reqs[i + 1].name { assert Names(reqs)[k] != Names(reqs)[i + 1]; }
  }

  lemma NewestAreAdded(b: Blocks, d: Delta, hasBase: bool, fold: string -> string, c: Blocks, newest: seq<string>)
    requires Distinct(Names(d.added)) && Edited(b, d, hasBase, fold) == Some((c, newest))
    ensures forall n :: n in newest ==> n in Names(d.added)
  {
    EditedIff(b, d, hasBase, fold);
    AddedIff(Changed(Kept(b, d, hasBase), d.modified), d.added, fold);
  }

  /** An open block whose text the delta does not give comes from the base, and what follows it is added. */
  lemma MoreIsAdded(base: Option<File>, cap: string, d: Delta, fold: string -> string, text: File, i: nat)
    requires LeftOpen(base, cap, d, fold, text, i) && !Given(d, Composed(base, cap, d, fold).value.reqs[i].name)
    ensures var doc := Composed(base, cap, d, fold).value;
            Unseen(Names(d.added), Names(doc.reqs[..i + 1])) != []
  {
    hide Composed;
    var doc := Composed(base, cap, d, fold).value;
    var b, order, c, newest := LookBehind(base, cap, d, fold);
    Recomposes(c, order, newest);
    MergedDistinct(base, cap, d, fold);
    if !HasBase(base) { SkeletonHasNone(cap, d.purpose); }
    FromBase(b, d, HasBase(base), fold, c, doc.reqs[i].name);
    OpenIsLast(base.value, doc.reqs[i].name);
    assert i + 1 < |doc.reqs|;
    AfterLast(c, order, newest, i);
    NewestAreAdded(b, d, true, fold, c, newest);
    NotSeen(doc.reqs, i);
    assert doc.reqs[i + 1].name in Unseen(Names(d.added), Names(doc.reqs[..i + 1]));
  }

  lemma FromBase(b: Blocks, d: Delta, hasBase: bool, fold: string -> string, c: Blocks, n: string)
    requires Left(b, d, hasBase, fold, c) && n in c && !Given(d, n) && (hasBase || b == map[])
    ensures hasBase && n in b && c[n] == b[n]
  {
    assert n in Kept(b, d, hasBase).Keys by { assert n !in NameSet(d.added); }
    MovedBody(b, d, fold, c, n);
  }

  /** All that follows the open block is text the delta adds, in the order it adds it. */
  predicate OnlyAdditionsAfter(d: Delta, doc: Doc, i: nat)
    requires i < |doc.reqs|
  {
    doc.after == [] && Names(doc.reqs[i + 1..]) == Unseen(Names(d.added), Names(doc.reqs[..i + 1]))
  }

  /** Block `k` of the second merge is the block of that name in the first. */
  lemma SameUnderName(doc: Doc, i: nat, d: Delta, again: seq<Req>, j: nat, k: nat)
    requires Distinct(Names(doc.reqs)) && i < j < |doc.reqs| && i < k < |again|
    requires TakenAgain(doc, i, d, again, k) && doc.reqs[j].name == again[k].name
    ensures doc.reqs[j] == again[k]
  {
    var m :| i < m < |doc.reqs| && doc.reqs[m] == again[k];
    assert Names(doc.reqs)[m] == Names(doc.reqs)[j];
  }

  lemma AgreeAfterOpen(doc: Doc, i: nat, d: Delta, again: seq<Req>)
    requires Distinct(Names(doc.reqs)) && i < |doc.reqs| && i < |again|
    requires forall k :: 0 <= k < |again| ==> TakenAgain(doc, i, d, again, k)
    ensures Agree(again[i + 1..], doc.reqs[i + 1..])
  {
    var some, all := again[i + 1..], doc.reqs[i + 1..];
    forall j, k | 0 <= j < |all| && 0 <= k < |some| && all[j].name == some[k].name ensures all[j] == some[k] {
      SameUnderName(doc, i, d, again, j + i + 1, k + i + 1);
    }
  }

  /** Blocks of one name are the same in both lists. */
  ghost predicate Agree(some: seq<Req>, all: seq<Req>) {
    forall j, k :: 0 <= j < |all| && 0 <= k < |some| && all[j].name == some[k].name ==> all[j] == some[k]
  }

  lemma SameNamesSame(some: seq<Req>, all: seq<Req>)
    requires Agree(some, all)
    ensures Names(all) == Names(some) <==> all == some
  {
    if Names(all) == Names(some) {
      forall k | 0 <= k < |all| ensures all[k] == some[k] { assert Names(all)[k] == Names(some)[k]; }
    }
  }

  lemma RestAgainIff(doc: Doc, i: nat, d: Delta, again: Doc)
    requires Formed(doc) && Distinct(Names(doc.reqs)) && i < |doc.reqs| && again.after == []
    requires Names(again.reqs) == NamesAgain(d, doc, i)
    requires forall k :: 0 <= k < |again.reqs| ==> TakenAgain(doc, i, d, again.reqs, k)
    ensures i < |again.reqs| && (Rest(again, i) == Rest(doc, i) <==> OnlyAdditionsAfter(d, doc, i))
  {
    var some, all := again.reqs[i + 1..], doc.reqs[i + 1..];
    var front, added := Names(doc.reqs[..i + 1]), Unseen(Names(d.added), Names(doc.reqs[..i + 1]));
    NamesAfterOpen(again.reqs, front, added, i);
    AgreeAfterOpen(doc, i, d, again.reqs);
    SameNamesSame(some, all);
    SamePrinted(some, all, doc.after);
    assert Rest(again, i) == Printed(some);
  }

  lemma NamesAfterOpen(again: seq<Req>, front: seq<string>, added: seq<string>, i: nat)
    requires Names(again) == front + added && |front| == i + 1
    ensures i < |again| && Names(again[i + 1..]) == added
  {
    forall k | 0 <= k < |added| ensures Names(again[i + 1..])[k] == added[k] { assert Names(again)[i + 1 + k] == added[k]; }
  }

  /**
   When a merge leaves a fence open over what it writes after, a second merge that is accepted gives the
   same file exactly when the delta gives the open block its text afresh and everything after it is text
   the delta adds, in its order. Otherwise an open block the delta gives loses what follows it, and one it
   does not give takes it in.
   */
  lemma OpenMergedTwiceIff(base: Option<File>, cap: string, d: Delta, fold: string -> string, text: File, i: nat)
    requires LeftOpen(base, cap, d, fold, text, i) && Merge(Some(text), cap, d, fold) != Threw
    ensures var doc, again := Composed(base, cap, d, fold).value, Composed(Some(text), cap, d, fold).value;
            && Merge(Some(text), cap, d, fold) == Wrote(Print(again))
            && (Print(again) == text <==> Afresh(d, doc.reqs[i].name) && OnlyAdditionsAfter(d, doc, i))
            && Names(again.reqs) == NamesAgain(d, doc, i)
            && again.reqs[i].body == if Afresh(d, doc.reqs[i].name) then doc.reqs[i].body else Swallowed(doc, i).body
  {
    MergeComposes(base, cap, d, fold);
    MergeComposes(Some(text), cap, d, fold);
    hide Composed, Merge, Read, Print;
    var doc, again := Composed(base, cap, d, fold).value, Composed(Some(text), cap, d, fold).value;
    OpenRead(base, cap, d, fold, text, i);
    SecondBlocks(base, cap, d, fold, text, i);
    MergedDistinct(base, cap, d, fold);
    if !Afresh(d, doc.reqs[i].name) { MoreIsAdded(base, cap, d, fold, text, i); }
    OpenTwice(doc, i, d, again);
    Written(Some(text), cap, d, fold, again);
  }

  /** The same on the parts written the first time and the second. */
  lemma OpenTwice(doc: Doc, i: nat, d: Delta, again: Doc)
    requires Formed(doc) && OpenFrom(doc, i) && Rest(doc, i) != [] && Distinct(Names(doc.reqs)) && Formed(again)
    requires again == ReadOpen(doc, i).(reqs := again.reqs) && Names(again.reqs) == NamesAgain(d, doc, i)
    requires forall k :: 0 <= k < |again.reqs| ==> TakenAgain(doc, i, d, again.reqs, k)
    requires !Afresh(d, doc.reqs[i].name) ==> Unseen(Names(d.added), Names(doc.reqs[..i + 1])) != []
    ensures Read(Print(again)).reqs != [] && i < |again.reqs|
    ensures Print(again) == Print(doc) <==> Afresh(d, doc.reqs[i].name) && OnlyAdditionsAfter(d, doc, i)
    ensures again.reqs[i].body == if Afresh(d, doc.reqs[i].name) then doc.reqs[i].body else Swallowed(doc, i).body
  {
    RestAgainIff(doc, i, d, again);
    SecondName(doc, i, d, again.reqs, i);
    assert TakenAgain(doc, i, d, again.reqs, i);
    StillOpen(doc, i, d, again);
    ReadsOpen(again, i);
    SameWhenSwallowed(doc, i, d, again);
    OpenBlockAgain(doc, i, d, again);
    hide Read, Print, OpenFrom, Formed;
    if Afresh(d, doc.reqs[i].name) {
      CutFront(TidyBody(doc.reqs[i].body), Rest(again, i), Rest(doc, i));
    } else {
      MoreAfter(doc, i, d, again);
    }
  }

  lemma MoreAfter(doc: Doc, i: nat, d: Delta, again: Doc)
    requires i < |doc.reqs| && i < |again.reqs| && Names(again.reqs) == NamesAgain(d, doc, i)
    requires Unseen(Names(d.added), Names(doc.reqs[..i + 1])) != []
    ensures Rest(again, i) != []
  {
    NamesAfterOpen(again.reqs, Names(doc.reqs[..i + 1]), Unseen(Names(d.added), Names(doc.reqs[..i + 1])), i);
    PrintedEnds(again.reqs[i + 1..]);
  }

  // ---------- witnesses

  const TICKS := Ticks('`', 3, true, "")
  const TILDES := Ticks('~', 3, true, "")

  /** A delta that only modifies. */
  function Modifies(modified: seq<Req>): Delta {
    Delta(false, [], [], [], modified, [])
  }

  lemma OnlyModifies(text: File, modified: seq<Req>, fold: string -> string)
    requires HasBase(Some(text)) && AllKeep(BlocksOf(Read(text).reqs), modified)
    ensures var doc := Read(text);
            Composed(Some(text), "c", Modifies(modified), fold)
            == Some(doc.(reqs := Recomposed(Changed(BlocksOf(doc.reqs), modified), Names(doc.reqs), [])))
  {
    OnlyModified(BlocksOf(Read(text).reqs), modified, fold);
    assert Names(Modifies(modified).added) == [];
    hide Edited, Recomposed, Changed, Read, AllKeep;
  }

  lemma OnlyModified(b: Blocks, modified: seq<Req>, fold: string -> string)
    requires AllKeep(b, modified)
    ensures Edited(b, Modifies(modified), true, fold) == Some((Changed(b, modified), []))
  {
    var d := Modifies(modified);
    assert Kept(b, d, true) == b;
    EditedIff(b, d, true, fold);
  }

  lemma OneModified(b: Blocks, m: Req)
    requires m.name in b && Scenarios(b[m.name]) <= Scenarios(m.body)
    ensures AllKeep(b, [m]) && Changed(b, [m]) == b[m.name := m.body] && SameScenarios([m])
  {
    assert [m][..0] == [] && Init([m]) == [] && Last([m]) == m;
    assert KeepsScenarios(b, [m], 0);
    assert forall k :: k in b ==> Current(b, [], k) == b[k];
  }

  lemma OneListed(c: Blocks, x: string)
    requires x in c
    ensures Listed(c, [x]) == [Req(x, c[x])] && Recomposed(c, [x], []) == [Req(x, c[x])]
  {
    assert Init([x]) == [];
    assert Listed(c, [x]) == Listed(c, []) + [Req(x, c[x])];
  }

  /** A file of blocks alone under one line of title. */
  function Titles(reqs: seq<Req>): Doc {
    Doc([Words("# c Specification")], REQUIREMENTS, [], reqs, [])
  }

  lemma OneLine(l: Line)
    requires l.Words? || l.Ticks?
    ensures BlockText([l]) && Scenarios([l]) == multiset{} && TidyBody([l]) == [l]
    ensures Through(Closed, [l]) == if l.Ticks? then Open(l.marker, l.length) else Closed
  {
    var f := Step(Closed, l);
    assert [l][1..] == [] && Last([l]) == l;
    assert ScenariosIn(f, [l][1..]) == multiset{} && Tidy(f, false, [l][1..]) == [];
  }

  lemma TitlesFormed(reqs: seq<Req>)
    requires BlockTexts(reqs)
    ensures Formed(Titles(reqs)) && (WellClosed(Titles(reqs)) <==> BlocksClosed(reqs, false))
  {
    var title := Words("# c Specification");
    OneLine(title);
    assert NoSection(Closed, [title], true) by { assert [title][1..] == []; }
    assert IsClosed([]);
  }

  lemma TitlesTidy(reqs: seq<Req>)
    ensures TidyDoc(Titles(reqs)) == Titles(TidyReqs(reqs)) && HasBase(Some(Whole(Titles(reqs))))
  {
    OneLine(Words("# c Specification"));
    WholeHasMore(Titles(reqs));
  }

  /** Two blocks of one line each, as they are written. */
  lemma WordsAreTidy(reqs: seq<Req>, one: string, two: string)
    requires |reqs| == 2 && reqs[0].body == [Words(one)] && reqs[1].body == [Words(two)]
    ensures Formed(Titles(reqs)) && WellClosed(Titles(reqs)) && TidyDoc(Titles(reqs)) == Titles(reqs)
  {
    OneLine(Words(one));
    OneLine(Words(two));
    TitlesFormed(reqs);
    TitlesTidy(reqs);
    assert TidyReqs(reqs) == reqs;
  }

  const WAS := Req("A", [Words("was")])
  const KEEP := Req("B", [Words("keep")])
  const FENCE := Req("A", [TICKS])

  lemma FirstLoss(fold: string -> string)
    ensures var base := Whole(Titles([WAS, KEEP]));
            && Read(base) == Titles([WAS, KEEP])
            && Composed(Some(base), "c", Modifies([FENCE]), fold) == Some(Titles([FENCE, KEEP]))
  {
    var reqs := [WAS, KEEP];
    OneLine(Words("was"));
    OneLine(Words("keep"));
    OneLine(TICKS);
    TitlesFormed(reqs);
    ReadsWhole(Titles(reqs));
    TitlesTidy(reqs);
    TwoBlocks(WAS, KEEP);
    OneModified(BlocksOf(reqs), FENCE);
    OnlyModifies(Whole(Titles(reqs)), [FENCE], fold);
    TwoListed(Changed(BlocksOf(reqs), [FENCE]), "A", "B");
  }

  lemma FenceStaysOpen()
    ensures Formed(Titles([FENCE, KEEP])) && OpenFrom(Titles([FENCE, KEEP]), 0)
    ensures Rest(Titles([FENCE, KEEP]), 0) == [Blank, Heading("B"), Words("keep")]
  {
    var doc := Titles([FENCE, KEEP]);
    OneLine(TICKS);
    OneLine(Words("keep"));
    TitlesFormed(doc.reqs);
    TitlesFormed([FENCE]);
    assert doc.reqs[..1] == [FENCE] && doc.reqs[1..] == [KEEP];
    PrintedFirst([KEEP], []);
    assert [KEEP][1..] == [];
    assert Rest(doc, 0) == [Blank, Heading("B"), Words("keep")];
  }

  const SWALLOWED := Req("A", [TICKS, Blank, Heading("B"), Words("keep")])

  lemma LossRead()
    ensures var text := Print(Titles([FENCE, KEEP])); Read(text) == Titles([SWALLOWED]) && HasBase(Some(text))
  {
    var doc := Titles([FENCE, KEEP]);
    FenceStaysOpen();
    ReadsOpen(doc, 0);
    PrintHasText(doc);
    LossReadOpen();
  }

  lemma LossReadOpen()
    ensures ReadOpen(Titles([FENCE, KEEP]), 0) == Titles([SWALLOWED])
  {
    var doc := Titles([FENCE, KEEP]);
    FenceStaysOpen();
    OneLine(TICKS);
    OneLine(Words("# c Specification"));
    assert Swallowed(doc, 0) == SWALLOWED;
    assert TidyReqs(doc.reqs[..0]) == [] && TidyBody([]) == [];
  }

  lemma SecondLoss(fold: string -> string)
    ensures Composed(Some(Print(Titles([FENCE, KEEP]))), "c", Modifies([FENCE]), fold) == Some(Titles([FENCE]))
  {
    LossRead();
    NoScenarios([Blank, Heading("B"), Words("keep")]);
    assert SWALLOWED.body == [TICKS] + [Blank, Heading("B"), Words("keep")];
    assert Init([SWALLOWED]) == [] && Names([SWALLOWED]) == ["A"];
    var b := BlocksOf([SWALLOWED]);
    assert b == map["A" := SWALLOWED.body];
    OneModified(b, FENCE);
    OnlyModifies(Print(Titles([FENCE, KEEP])), [FENCE], fold);
    OneListed(Changed(b, [FENCE]), "A");
  }

  lemma NoScenarios(rest: File)
    requires rest == [Blank, Heading("B"), Words("keep")]
    ensures Scenarios([TICKS] + rest) == multiset{}
  {
    var f := Open('`', 3);
    assert ([TICKS] + rest)[1..] == rest;
    assert rest[1..][1..] == [Words("keep")] && rest[1..][1..][1..] == [];
    assert ScenariosIn(f, rest[1..][1..]) == multiset{};
    assert ScenariosIn(f, rest[1..]) == multiset{};
    assert ScenariosIn(f, rest) == multiset{};
    assert Step(Closed, TICKS) == f && ([TICKS] + rest)[0] == TICKS;
  }

  /**
   A block "B" that the delta does not mention is dropped by the second merge of a delta that leaves a
   fence of "A" open; both merges are accepted.
   */
  lemma OpenFenceLoses(fold: string -> string) returns (base: File, d: Delta, text: File, again: File)
    ensures Parsed(d) && d.renamed == [] && !Refuses(d)
    ensures Merge(Some(base), "c", d, fold) == Wrote(text) && Merge(Some(text), "c", d, fold) == Wrote(again)
    ensures Read(base).reqs == [WAS, KEEP] && Read(again).reqs == [FENCE] && Words("keep") in text && Words("keep") !in again
  {
    hide Composed;
    base, d, text, again := Whole(Titles([WAS, KEEP])), Modifies([FENCE]), Print(Titles([FENCE, KEEP])), Whole(Titles([FENCE]));
    hide Composed, Merge, Read, Print, Whole;
    FirstLoss(fold);
    FirstWritten();
    Written(Some(base), "c", d, fold, Titles([FENCE, KEEP]));
    SecondLoss(fold);
    SecondWritten();
    Written(Some(text), "c", d, fold, Titles([FENCE]));
    KeepWritten();
    KeepDropped();
    ModifiesFence();
  }

  lemma ModifiesFence()
    ensures Parsed(Modifies([FENCE])) && !Refuses(Modifies([FENCE]))
  {
    OneLine(TICKS);
    assert NoSection(Closed, [], false);
  }

  lemma FirstWritten()
    ensures Read(Print(Titles([FENCE, KEEP]))).reqs != []
  {
    FenceStaysOpen();
    ReadsOpen(Titles([FENCE, KEEP]), 0);
  }

  lemma SecondWritten()
    ensures var doc := Titles([FENCE]); Print(doc) == Whole(doc) && Read(Print(doc)).reqs == [FENCE]
  {
    var doc := Titles([FENCE]);
    OneLine(TICKS);
    TitlesFormed([FENCE]);
    TitlesTidy([FENCE]);
    assert TidyReqs([FENCE]) == [FENCE];
    PrintsClosed(doc);
    ReadsWhole(doc);
  }

  lemma KeepWritten()
    ensures Words("keep") in Print(Titles([FENCE, KEEP]))
  {
    var doc := Titles([FENCE, KEEP]);
    FenceStaysOpen();
    PrintsOpen(doc, 0);
    assert Last(Print(doc)) == Words("keep");
  }

  lemma KeepDropped()
    ensures Words("keep") !in Whole(Titles([FENCE]))
  {
    PrintedFirst([FENCE], []);
    assert [FENCE][1..] == [];
    assert Printed([FENCE]) == [Blank, Heading("A"), TICKS];
  }

  /** An addition that a fence left open before the requirements hides: emptied first, written by the next merge. */
  lemma EmptiedThenWritten(fold: string -> string) returns (base: File, d: Delta)
    ensures Parsed(d) && d.renamed == [] && IsClosed(d.purpose)
    ensures Merge(Some(base), "c", d, fold) == Emptied && Merge(None, "c", d, fold).Wrote?
  {
    var added := Req("N", [Words("new")]);
    base, d := [TICKS], Delta(false, [], [], [], [], [added]);
    OneLine(Words("new"));
    assert SectionAt(Closed, d.purpose, false) == 0 && IsClosed(d.purpose);
    Hidden(base, d, added, fold);
    EmptiedAgain(Some(base), "c", d, fold);
  }

  lemma {:induction false} NothingSeen(f: Fence, lines: File)
    requires StaysOpen(f, lines)
    ensures NoSection(f, lines, true)
  {
    OpenKeepsAll(f, false, lines);
    NoHeadsNoSection(f, lines, true);
  }

  lemma Hidden(base: File, d: Delta, added: Req, fold: string -> string)
    requires base == [TICKS] && d == Delta(false, [], [], [], [], [added]) && added == Req("N", [Words("new")])
    ensures Merge(Some(base), "c", d, fold) == Emptied
  {
    OneLine(TICKS);
    assert base[1..] == [];
    assert !Titled(base) && Read(base) == Doc([TICKS], REQUIREMENTS, [], [], []);
    OneAdded(base, d, added, fold);
    HiddenText(added);
  }

  lemma HiddenText(added: Req)
    requires added == Req("N", [Words("new")])
    ensures Read(Print(Doc([TICKS], REQUIREMENTS, [], [added], []))).reqs == []
  {
    var doc, f := Doc([TICKS], REQUIREMENTS, [], [added], []), Open('`', 3);
    var rest := [Blank, REQUIREMENTS] + Printed([added]);
    PrintedStaysOpen(f, [added]);
    StaysOpenBoth(f, [Blank, REQUIREMENTS], Printed([added]));
    assert Whole(doc) == [TICKS] + rest && ([TICKS] + rest)[1..] == rest;
    OpenKeepsAll(f, false, rest);
    NothingSeen(f, rest);
    assert Print(doc) == [TICKS] + rest;
  }

  lemma OneAddition(added: Req, fold: string -> string)
    ensures AddAll(map[], [added], fold) == Some((map[added.name := added.body], [added.name]))
  {
    var none: Blocks := map[];
    assert Init([added]) == [] && Last([added]) == added;
    assert AddAll(none, [], fold) == Some((none, []));
    assert !NearMiss(none, added.name, fold);
    assert none[added.name := added.body] == map[added.name := added.body];
    assert [] + [added.name] == [added.name];
  }

  lemma OneUnseen(name: string)
    ensures Unseen([name], []) == [name]
  {
    assert Init([name]) == [] && Unseen(Init([name]), []) == [];
  }

  lemma OneAdded(base: File, d: Delta, added: Req, fold: string -> string)
    requires HasBase(Some(base)) && Read(base).reqs == [] && d == Delta(false, [], [], [], [], [added])
    ensures Composed(Some(base), "c", d, fold) == Some(Read(base).(reqs := [added]))
  {
    OneComposed(d, added, fold);
    assert Names(d.added) == [added.name];
    hide ComposedBlocks, Read, Merge;
  }

  lemma OneComposed(d: Delta, added: Req, fold: string -> string)
    requires d == Delta(false, [], [], [], [], [added])
    ensures ComposedBlocks([], d, true, fold) == Some([added])
  {
    OneEdited(d, added, fold);
    OneRecomposed(added);
    assert BlocksOf([]) == map[] && Names([]) == [];
    hide Edited, Recomposed;
  }

  lemma OneEdited(d: Delta, added: Req, fold: string -> string)
    requires d == Delta(false, [], [], [], [], [added])
    ensures Edited(map[], d, true, fold) == Some((map[added.name := added.body], [added.name]))
  {
    OneAddition(added, fold);
  }

  lemma OneRecomposed(added: Req)
    ensures Recomposed(map[added.name := added.body], [], [added.name]) == [added]
  {
    var c: Blocks := map[added.name := added.body];
    OneUnseen(added.name);
    OneListed(c, added.name);
    assert Recomposed(c, [], [added.name]) == Listed(c, []) + Listed(c, [added.name]);
  }

  const D_OPEN := Req("D", [TILDES])
  const E_FENCED := Req("E", [TICKS, TILDES, Blank, Heading("E"), Words("x"), TICKS])
  const D_READ := Req("D", [TILDES, Blank, Heading("E"), TICKS, TILDES])
  const E_READ := Req("E", [Words("x"), TICKS])

  lemma DRead()
    ensures BlockText(D_READ.body) && IsClosed(D_READ.body) && TidyBody(D_READ.body) == D_READ.body
    ensures Scenarios(D_READ.body) == multiset{}
  {
    var f, inside := Open('~', 3), [Blank, Heading("E"), TICKS];
    assert D_READ.body == [TILDES] + (inside + [TILDES]);
    assert ([TILDES] + (inside + [TILDES]))[1..] == inside + [TILDES];
    assert StaysOpen(f, inside);
    OpenKeepsAll(f, false, inside);
    assert [TILDES][1..] == [];
    ThroughBoth(f, inside, [TILDES]);
    NoHeadsBoth(f, inside, [TILDES]);
    TidyBoth(f, false, inside, [TILDES]);
    assert Tidy(f, RunAfter(f, false, inside), [TILDES]) == [TILDES];
    InsideNoScenarios(f, inside, [TILDES]);
    assert ScenariosIn(f, [TILDES]) == multiset{};
  }

  lemma {:induction false} InsideNoScenarios(f: Fence, inside: File, more: File)
    requires StaysOpen(f, inside)
    ensures ScenariosIn(f, inside + more) == ScenariosIn(f, more)
    decreases |inside|
  {
    if |inside| == 0 {
      assert inside + more == more;
    } else {
      assert (inside + more)[1..] == inside[1..] + more;
      assert Step(f, inside[0]) == f;
      InsideNoScenarios(f, inside[1..], more);
    }
  }

  lemma ERead()
    ensures BlockText(E_READ.body) && TidyBody(E_READ.body) == E_READ.body && Scenarios(E_READ.body) == multiset{}
  {
    OneLine(TICKS);
    assert E_READ.body[1..] == [TICKS];
    assert Last(E_READ.body) == TICKS;
  }

  lemma EFenced()
    ensures BlockText(E_FENCED.body)
  {
    var f, inside := Open('`', 3), [TILDES, Blank, Heading("E"), Words("x")];
    assert E_FENCED.body == [TICKS] + (inside + [TICKS]);
    assert ([TICKS] + (inside + [TICKS]))[1..] == inside + [TICKS];
    assert StaysOpen(f, inside);
    OpenKeepsAll(f, false, inside);
    assert [TICKS][1..] == [];
    NoHeadsBoth(f, inside, [TICKS]);
    assert Last(E_FENCED.body) == TICKS;
  }

  /** One text, two readings: where the fences meet decides what the blocks are. */
  lemma ReadsOtherwise()
    ensures var doc, read := Titles([D_OPEN, E_FENCED]), Titles([D_READ, E_READ]);
            && Formed(doc) && !WellClosed(doc) && Print(doc) == Whole(read) && Read(Print(doc)) == read
  {
    var doc, read := Titles([D_OPEN, E_FENCED]), Titles([D_READ, E_READ]);
    OneLine(TILDES);
    EFenced();
    DRead();
    ERead();
    TitlesFormed(doc.reqs);
    TitlesFormed(read.reqs);
    assert !IsClosed(doc.reqs[0].body);
    PrintsTwo(D_OPEN, E_FENCED);
    PrintsTwo(D_READ, E_READ);
    assert Printed(doc.reqs) == Printed(read.reqs);
    assert Whole(doc) == Whole(read);
    TitlesTidy(read.reqs);
    assert TidyReqs(read.reqs) == read.reqs;
    PrintsClosed(read);
    ReadsWhole(read);
  }

  lemma PrintsTwo(p: Req, q: Req)
    ensures Printed([p, q]) == [Blank, Heading(p.name)] + p.body + ([Blank, Heading(q.name)] + q.body)
  {
    assert [p, q][1..] == [q] && [q][1..] == [];
    assert Printed([q]) == [Blank, Heading(q.name)] + q.body;
  }

  lemma TwoModified(b: Blocks, p: Req, q: Req)
    requires p.name in b && q.name in b && p.name != q.name
    requires Scenarios(b[p.name]) == multiset{} && Scenarios(b[q.name]) == multiset{}
    ensures AllKeep(b, [p, q]) && Changed(b, [p, q]) == b[p.name := p.body][q.name := q.body]
  {
    OneModified(b, p);
    assert [p, q][..0] == [] && [p, q][..1] == [p] && Init([p, q]) == [p] && Last([p, q]) == q;
    assert Init([p]) == [] && Last([p]) == p;
    assert KeepsScenarios(b, [p, q], 0) && KeepsScenarios(b, [p, q], 1);
    forall k | k in b ensures Current(b, [p, q], k) == b[p.name := p.body][q.name := q.body][k] {
      assert Current(b, [p], k) == if k == p.name then p.body else b[k];
    }
  }

  /** Modifying both blocks of such a file, whatever they held. */
  lemma ModifiesBoth(text: File, one: File, two: File, fold: string -> string)
    requires HasBase(Some(text)) && Read(text) == Titles([Req("D", one), Req("E", two)])
    requires Scenarios(one) == multiset{} && Scenarios(two) == multiset{}
    ensures Composed(Some(text), "c", Modifies([E_FENCED, D_OPEN]), fold) == Some(Titles([D_OPEN, E_FENCED]))
  {
    var reqs := [Req("D", one), Req("E", two)];
    var b := BlocksOf(reqs);
    TwoBlocks(reqs[0], reqs[1]);
    TwoModified(b, E_FENCED, D_OPEN);
    OnlyModifies(text, [E_FENCED, D_OPEN], fold);
    TwoListed(Changed(b, [E_FENCED, D_OPEN]), "D", "E");
  }

  /**
   That a fence is left open does not decide by itself: where later text closes it, this delta gives the
   same file twice although the first merge does not read back as the blocks it wrote.
   */
  lemma OpenYetTheSame(fold: string -> string) returns (base: File, d: Delta, text: File)
    ensures Parsed(d) && d.renamed == [] && !Settled(Some(base), "c", d, fold)
    ensures Merge(Some(base), "c", d, fold) == Wrote(text) && Merge(Some(text), "c", d, fold) == Wrote(text)
    ensures Read(text).reqs == [D_READ, E_READ]
  {
    hide Composed;
    base, d := Whole(Titles(ONE_TWO)), Modifies([E_FENCED, D_OPEN]);
    text := Print(Titles([D_OPEN, E_FENCED]));
    FirstOfBoth(fold);
    SecondOfBoth(fold);
    ReadsOtherwise();
    BothParsed();
  }

  const ONE_TWO := [Req("D", [Words("one")]), Req("E", [Words("two")])]

  lemma FirstOfBoth(fold: string -> string)
    ensures Composed(Some(Whole(Titles(ONE_TWO))), "c", Modifies([E_FENCED, D_OPEN]), fold) == Some(Titles([D_OPEN, E_FENCED]))
  {
    OneLine(Words("one"));
    OneLine(Words("two"));
    TitlesFormed(ONE_TWO);
    ReadsWhole(Titles(ONE_TWO));
    TitlesTidy(ONE_TWO);
    ModifiesBoth(Whole(Titles(ONE_TWO)), [Words("one")], [Words("two")], fold);
  }

  lemma SecondOfBoth(fold: string -> string)
    ensures var doc := Titles([D_OPEN, E_FENCED]); Composed(Some(Print(doc)), "c", Modifies([E_FENCED, D_OPEN]), fold) == Some(doc)
  {
    var doc := Titles([D_OPEN, E_FENCED]);
    ReadsOtherwise();
    PrintHasText(doc);
    DRead();
    ERead();
    ModifiesBoth(Print(doc), D_READ.body, E_READ.body, fold);
  }

  lemma BothParsed()
    ensures Parsed(Modifies([E_FENCED, D_OPEN]))
  {
    EFenced();
    OneLine(TILDES);
    assert NoSection(Closed, [], false);
  }
}
