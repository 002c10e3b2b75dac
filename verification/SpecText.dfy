/**
 A capability spec as lines: code fences, the blank lines a merge collapses, the requirement blocks
 it is read as, and the text they are written back as. A block that leaves a fence open takes in what
 is written after it the next time the file is read.
 */
module SpecText {
  import opened Wrappers
  import opened Text

  /**
   One line by what it matches. `Ticks` starts with a fence run and is bare when nothing follows it;
   `Section` is a second-level heading, `Heading` the one of a requirement block.
   */
  datatype Line =
    | Blank
    | Words(text: string)
    | Ticks(marker: char, length: nat, bare: bool, text: string)
    | Scenario(name: string)
    | Section(requirements: bool, title: string)
    | Heading(name: string)

  type File = seq<Line>

  // ---------- fences

  datatype Fence = Closed | Open(marker: char, length: nat)

  predicate Closes(f: Fence, l: Line) {
    f.Open? && l.Ticks? && l.bare && l.marker == f.marker && l.length >= f.length
  }

  function Step(f: Fence, l: Line): Fence {
    if f.Closed? then (if l.Ticks? then Open(l.marker, l.length) else Closed)
    else if Closes(f, l) then Closed else f
  }

  /** The fence after the lines. */
  function Through(f: Fence, lines: File): Fence
    decreases |lines|
  {
    if |lines| == 0 then f else Through(Step(f, lines[0]), lines[1..])
  }

  predicate IsClosed(lines: File) {
    Through(Closed, lines) == Closed
  }

  predicate IsHead(l: Line) {
    l.Section? || l.Heading?
  }

  /** No heading of a section or of a requirement is seen outside a fence. */
  predicate NoHeads(f: Fence, lines: File)
    decreases |lines|
  {
    |lines| == 0 || (!(f.Closed? && IsHead(lines[0])) && NoHeads(Step(f, lines[0]), lines[1..]))
  }

  predicate Sought(l: Line, requirements: bool) {
    l.Section? && (requirements ==> l.requirements)
  }

  /** The first section heading outside a fence; only that of the requirements when asked. */
  function SectionAt(f: Fence, lines: File, requirements: bool): (i: nat)
    ensures i <= |lines|
    ensures i < |lines| ==> Sought(lines[i], requirements)
    decreases |lines|
  {
    if |lines| == 0 || (f.Closed? && Sought(lines[0], requirements)) then 0
    else 1 + SectionAt(Step(f, lines[0]), lines[1..], requirements)
  }

  predicate NoSection(f: Fence, lines: File, requirements: bool) {
    SectionAt(f, lines, requirements) == |lines|
  }

  lemma {:induction false} ThroughBoth(f: Fence, a: File, b: File)
    ensures Through(f, a + b) == Through(Through(f, a), b)
    decreases |a|
  {
    if |a| == 0 {
      assert a + b == b;
    } else {
      assert (a + b)[1..] == a[1..] + b;
      ThroughBoth(Step(f, a[0]), a[1..], b);
    }
  }

  lemma {:induction false} NoHeadsBoth(f: Fence, a: File, b: File)
    ensures NoHeads(f, a + b) <==> NoHeads(f, a) && NoHeads(Through(f, a), b)
    decreases |a|
  {
    if |a| == 0 {
      assert a + b == b;
    } else {
      assert (a + b)[1..] == a[1..] + b;
      NoHeadsBoth(Step(f, a[0]), a[1..], b);
    }
  }

  lemma {:induction false} SectionAtBoth(f: Fence, a: File, b: File, requirements: bool)
    ensures SectionAt(f, a + b, requirements) ==
            if NoSection(f, a, requirements) then |a| + SectionAt(Through(f, a), b, requirements)
            else SectionAt(f, a, requirements)
    decreases |a|
  {
    if |a| == 0 {
      assert a + b == b;
    } else {
      assert (a + b)[1..] == a[1..] + b;
      SectionAtBoth(Step(f, a[0]), a[1..], b, requirements);
    }
  }

  lemma {:induction false} NoHeadsNoSection(f: Fence, lines: File, requirements: bool)
    requires NoHeads(f, lines)
    ensures NoSection(f, lines, requirements)
    decreases |lines|
  {
    if |lines| > 0 { NoHeadsNoSection(Step(f, lines[0]), lines[1..], requirements); }
  }

  /** What stands before the section heading that was found. */
  lemma {:induction false} BeforeSection(f: Fence, lines: File, requirements: bool)
    ensures var i := SectionAt(f, lines, requirements);
            && NoSection(f, lines[..i], requirements)
            && (i < |lines| ==> Through(f, lines[..i]) == Closed)
    decreases |lines|
  {
    var i := SectionAt(f, lines, requirements);
    if 0 < i {
      BeforeSection(Step(f, lines[0]), lines[1..], requirements);
      assert lines[..i][0] == lines[0] && lines[..i][1..] == lines[1..][..i - 1];
    }
  }

  // ---------- trimming

  predicate Trimmed(lines: File) {
    lines == [] || Last(lines) != Blank
  }

  function TrimEnd(lines: File): (t: File)
    ensures Trimmed(t) && t <= lines
    ensures Trimmed(lines) ==> t == lines
  {
    if lines != [] && Last(lines) == Blank then TrimEnd(Init(lines)) else lines
  }

  function TrimStart(lines: File): (t: File)
    ensures t == [] || t[0] != Blank
    ensures lines == [] || lines[0] != Blank ==> t == lines
  {
    if lines != [] && lines[0] == Blank then TrimStart(lines[1..]) else lines
  }

  function Trim(lines: File): (t: File)
    ensures Trimmed(t) && (t == [] || t[0] != Blank)
  {
    var t := TrimEnd(TrimStart(lines));
    t
  }

  lemma {:induction false} TrimEndKeeps(f: Fence, lines: File)
    ensures Through(f, TrimEnd(lines)) == Through(f, lines)
    ensures NoHeads(f, lines) ==> NoHeads(f, TrimEnd(lines))
    ensures forall requirements :: NoSection(f, lines, requirements) ==> NoSection(f, TrimEnd(lines), requirements)
  {
    if lines != [] && Last(lines) == Blank {
      var init := Init(lines);
      assert lines == init + [Blank];
      ThroughBoth(f, init, [Blank]);
      NoHeadsBoth(f, init, [Blank]);
      SectionAtBoth(f, init, [Blank], true);
      SectionAtBoth(f, init, [Blank], false);
      TrimEndKeeps(f, init);
    }
  }

  lemma {:induction false} TrimStartKeeps(lines: File)
    ensures Through(Closed, TrimStart(lines)) == Through(Closed, lines)
    ensures NoHeads(Closed, lines) ==> NoHeads(Closed, TrimStart(lines))
  {
    if lines != [] && lines[0] == Blank { TrimStartKeeps(lines[1..]); }
  }

  lemma {:induction false} TrimsBlank(lines: File)
    requires Trimmed(lines)
    ensures TrimEnd(lines + [Blank]) == lines
  {
    assert Init(lines + [Blank]) == lines;
  }

  // ---------- collapsing blank runs outside fences

  /** `run` is whether the line before was a blank one outside a fence. */
  function Tidy(f: Fence, run: bool, lines: File): File
    decreases |lines|
  {
    if |lines| == 0 then []
    else if f.Closed? && lines[0].Blank? then
      (if run then [] else [Blank]) + Tidy(f, true, lines[1..])
    else [lines[0]] + Tidy(Step(f, lines[0]), false, lines[1..])
  }

  function RunAfter(f: Fence, run: bool, lines: File): bool
    decreases |lines|
  {
    if |lines| == 0 then run else RunAfter(Step(f, lines[0]), f.Closed? && lines[0].Blank?, lines[1..])
  }

  lemma {:induction false} TidyBoth(f: Fence, run: bool, a: File, b: File)
    ensures Tidy(f, run, a + b) == Tidy(f, run, a) + Tidy(Through(f, a), RunAfter(f, run, a), b)
    decreases |a|
  {
    if |a| == 0 {
      assert a + b == b;
    } else {
      assert (a + b)[0] == a[0] && (a + b)[1..] == a[1..] + b;
      TidyBoth(Step(f, a[0]), f.Closed? && a[0].Blank?, a[1..], b);
    }
  }

  lemma {:induction false} NoRunAfterText(f: Fence, run: bool, lines: File)
    requires lines != [] && Trimmed(lines)
    ensures !RunAfter(f, run, lines)
    decreases |lines|
  {
    if |lines| > 1 {
      assert Last(lines[1..]) == Last(lines);
      NoRunAfterText(Step(f, lines[0]), f.Closed? && lines[0].Blank?, lines[1..]);
    } else {
      assert RunAfter(Step(f, lines[0]), false, lines[1..]) == false;
    }
  }

  /** Tidying keeps the fence, the headings, the sections and the scenarios. */
  lemma {:induction false} TidyKeeps(f: Fence, run: bool, lines: File)
    ensures Through(f, Tidy(f, run, lines)) == Through(f, lines)
    ensures NoHeads(f, lines) ==> NoHeads(f, Tidy(f, run, lines))
    ensures ScenariosIn(f, Tidy(f, run, lines)) == ScenariosIn(f, lines)
    decreases |lines|
  {
    if |lines| > 0 {
      var rest, g := lines[1..], Step(f, lines[0]);
      var blank := f.Closed? && lines[0].Blank?;
      TidyKeeps(g, blank, rest);
      if !(blank && run) {
        var t := Tidy(f, run, lines);
        assert t[0] == lines[0] && t[1..] == Tidy(g, blank, rest);
      } else {
        assert Tidy(f, run, lines) == Tidy(f, true, rest);
      }
    }
  }

  lemma {:induction false} TidyHidesNoSection(f: Fence, run: bool, lines: File, requirements: bool)
    requires NoSection(f, lines, requirements)
    ensures NoSection(f, Tidy(f, run, lines), requirements)
    decreases |lines|
  {
    if |lines| > 0 {
      var rest, g := lines[1..], Step(f, lines[0]);
      var blank := f.Closed? && lines[0].Blank?;
      TidyHidesNoSection(g, blank, rest, requirements);
      if !(blank && run) {
        var t := Tidy(f, run, lines);
        assert t[0] == lines[0] && t[1..] == Tidy(g, blank, rest);
      } else {
        assert Tidy(f, run, lines) == Tidy(f, true, rest);
      }
    }
  }

  lemma {:induction false} TidyTwice(f: Fence, run: bool, lines: File)
    ensures Tidy(f, run, Tidy(f, run, lines)) == Tidy(f, run, lines)
    decreases |lines|
  {
    if |lines| > 0 {
      var rest, g := lines[1..], Step(f, lines[0]);
      var blank := f.Closed? && lines[0].Blank?;
      TidyTwice(g, blank, rest);
      if !(blank && run) {
        var t := Tidy(f, run, lines);
        assert t[0] == lines[0] && t[1..] == Tidy(g, blank, rest);
      } else {
        assert Tidy(f, run, lines) == Tidy(f, true, rest);
      }
    }
  }

  /** A text keeps its first line when that is not blank, and its last one. */
  lemma {:induction false} TidyEnds(f: Fence, run: bool, lines: File)
    requires lines != [] && Trimmed(lines)
    ensures var t := Tidy(f, run, lines);
            t != [] && Last(t) == Last(lines) && (lines[0] != Blank ==> t[0] == lines[0])
    decreases |lines|
  {
    var rest, g := lines[1..], Step(f, lines[0]);
    var blank := f.Closed? && lines[0].Blank?;
    if |rest| > 0 {
      assert Last(rest) == Last(lines);
      TidyEnds(g, blank, rest);
      TidyFirst(f, run, lines);
    } else {
      assert Tidy(g, blank, rest) == [];
      assert lines[0] == Last(lines);
    }
  }

  lemma TidyFirst(f: Fence, run: bool, lines: File)
    requires |lines| > 0
    ensures var t := Tidy(Step(f, lines[0]), f.Closed? && lines[0].Blank?, lines[1..]);
            var all := Tidy(f, run, lines);
            && all == (if f.Closed? && lines[0].Blank? && run then t else [lines[0]] + t)
            && (t != [] ==> all != [] && Last(all) == Last(t))
  {
    var t := Tidy(Step(f, lines[0]), f.Closed? && lines[0].Blank?, lines[1..]);
    assert [] + t == t;
    if t != [] { assert Last([lines[0]] + t) == Last(t); }
  }

  /** No line closes the fence. */
  predicate StaysOpen(f: Fence, lines: File) {
    f.Open? && forall i :: 0 <= i < |lines| ==> !Closes(f, lines[i])
  }

  /** Inside a fence that stays open everything is kept and nothing is seen. */
  lemma {:induction false} OpenKeepsAll(f: Fence, run: bool, lines: File)
    requires StaysOpen(f, lines)
    ensures Through(f, lines) == f && NoHeads(f, lines) && Tidy(f, run, lines) == lines
    decreases |lines|
  {
    if |lines| > 0 {
      assert !Closes(f, lines[0]);
      assert forall i :: 0 <= i < |lines| - 1 ==> lines[1..][i] == lines[i + 1];
      OpenKeepsAll(f, false, lines[1..]);
    }
  }

  /** The scenario names of a block outside its fences, with how often each stands there. */
  function ScenariosIn(f: Fence, lines: File): multiset<string>
    decreases |lines|
  {
    if |lines| == 0 then multiset{}
    else
      var rest := ScenariosIn(Step(f, lines[0]), lines[1..]);
      if f.Closed? && lines[0].Scenario? then rest + multiset{lines[0].name} else rest
  }

  function Scenarios(body: File): multiset<string> {
    ScenariosIn(Closed, body)
  }

  function TidyBody(body: File): File {
    Tidy(Closed, false, body)
  }

  // ---------- reading a file

  /** One requirement block: its name and everything under its heading, without trailing blank lines. */
  datatype Req = Req(name: string, body: File)

  /** A file as a merge sees it: what stands before the requirements and after them, and the blocks. */
  datatype Doc = Doc(before: File, header: Line, preamble: File, reqs: seq<Req>, after: File)

  const REQUIREMENTS := Section(true, "Requirements")

  /** What stands before the first requirement heading, and the blocks from there on. */
  function SplitBlocks(f: Fence, lines: File): (File, seq<Req>)
    decreases |lines|
  {
    if |lines| == 0 then ([], [])
    else
      var (pre, reqs) := SplitBlocks(Step(f, lines[0]), lines[1..]);
      if f.Closed? && lines[0].Heading? then ([], [Req(lines[0].name, TrimEnd(pre))] + reqs)
      else ([lines[0]] + pre, reqs)
  }

  /** A file without a section for its requirements gets one at its end. */
  function Read(text: File): Doc {
    var i := SectionAt(Closed, text, true);
    if i == |text| then Doc(TrimEnd(text), REQUIREMENTS, [], [], [])
    else
      var rest := text[i + 1..];
      var j := SectionAt(Closed, rest, false);
      var (pre, reqs) := SplitBlocks(Closed, rest[..j]);
      Doc(TrimEnd(text[..i]), text[i], Trim(pre), reqs, TrimEnd(rest[j..]))
  }

  // ---------- writing it back

  function Lead(part: File): File {
    if part == [] then [] else part + [Blank]
  }

  function Tail(part: File): File {
    if part == [] then [] else [Blank] + part
  }

  function Printed(reqs: seq<Req>): File {
    if |reqs| == 0 then [] else [Blank, Heading(reqs[0].name)] + reqs[0].body + Printed(reqs[1..])
  }

  /** The parts with one blank line between them. */
  function Whole(doc: Doc): File {
    Lead(doc.before) + [doc.header] + Tail(doc.preamble) + Printed(doc.reqs) + Tail(doc.after)
  }

  /** The file written, its blank runs collapsed; its last line end is left out, as every part is trimmed. */
  function Print(doc: Doc): File {
    Tidy(Closed, false, Whole(doc))
  }

  function TidyReq(q: Req): Req {
    q.(body := TidyBody(q.body))
  }

  function TidyReqs(reqs: seq<Req>): (r: seq<Req>)
    ensures |r| == |reqs| && forall i :: 0 <= i < |reqs| ==> r[i] == TidyReq(reqs[i])
  {
    seq(|reqs|, i requires 0 <= i < |reqs| => TidyReq(reqs[i]))
  }

  function TidyDoc(doc: Doc): Doc {
    Doc(TidyBody(doc.before), doc.header, TidyBody(doc.preamble), TidyReqs(doc.reqs), TidyBody(doc.after))
  }

  // ---------- what reading gives

  /** A block as any parse leaves it: no heading outside its fences and no blank line at its end. */
  predicate BlockText(body: File) {
    NoHeads(Closed, body) && Trimmed(body)
  }

  predicate BlockTexts(reqs: seq<Req>) {
    forall i :: 0 <= i < |reqs| ==> BlockText(reqs[i].body)
  }

  predicate Formed(doc: Doc) {
    && Trimmed(doc.before) && NoSection(Closed, doc.before, true)
    && doc.header.Section? && doc.header.requirements
    && BlockText(doc.preamble) && (doc.preamble == [] || doc.preamble[0] != Blank)
    && BlockTexts(doc.reqs)
    && Trimmed(doc.after) && (doc.after == [] || doc.after[0].Section?)
  }

  /** Every block but the last leaves its fences closed, and the last one too when something follows. */
  predicate BlocksClosed(reqs: seq<Req>, followed: bool) {
    forall i :: 0 <= i < |reqs| && (followed || i < |reqs| - 1) ==> IsClosed(reqs[i].body)
  }

  /** No part but the very last of the file leaves a fence open. */
  predicate WellClosed(doc: Doc) {
    && IsClosed(doc.before)
    && ((doc.reqs != [] || doc.after != []) ==> IsClosed(doc.preamble))
    && BlocksClosed(doc.reqs, doc.after != [])
  }

  lemma OneMoreBlock(q: Req, reqs: seq<Req>)
    requires BlockText(q.body) && BlockTexts(reqs) && BlocksClosed(reqs, false) && (reqs != [] ==> IsClosed(q.body))
    ensures BlockTexts([q] + reqs) && BlocksClosed([q] + reqs, false)
    ensures Last([q] + reqs) == if reqs == [] then q else Last(reqs)
  {
    var all := [q] + reqs;
    assert forall i :: 0 < i < |all| ==> all[i] == reqs[i - 1];
  }

  lemma {:induction false} SplitFormed(f: Fence, lines: File)
    requires NoSection(f, lines, false)
    ensures var (pre, reqs) := SplitBlocks(f, lines);
            && NoHeads(f, pre) && BlockTexts(reqs) && BlocksClosed(reqs, false)
            && (reqs != [] ==> Through(f, pre) == Closed)
            && Through(f, lines) == if reqs == [] then Through(f, pre) else Through(Closed, Last(reqs).body)
    decreases |lines|
  {
    if |lines| > 0 {
      var (pre, reqs) := SplitBlocks(Step(f, lines[0]), lines[1..]);
      SplitFormed(Step(f, lines[0]), lines[1..]);
      if f.Closed? && lines[0].Heading? {
        TrimEndKeeps(Closed, pre);
        OneMoreBlock(Req(lines[0].name, TrimEnd(pre)), reqs);
      } else {
        assert ([lines[0]] + pre)[1..] == pre;
      }
    }
  }

  predicate Titled(text: File) {
    SectionAt(Closed, text, true) < |text|
  }

  lemma BodyFormed(rest: File)
    ensures var j := SectionAt(Closed, rest, false);
            var (pre, reqs) := SplitBlocks(Closed, rest[..j]);
            var after := TrimEnd(rest[j..]);
            && BlockText(Trim(pre)) && BlockTexts(reqs) && BlocksClosed(reqs, after != [])
            && ((reqs != [] || after != []) ==> IsClosed(Trim(pre)))
            && (after == [] || after[0].Section?)
  {
    var j := SectionAt(Closed, rest, false);
    BeforeSection(Closed, rest, false);
    BlocksFormed(rest[..j]);
    AfterStarts(rest, j);
  }

  lemma BlocksFormed(lines: File)
    requires NoSection(Closed, lines, false)
    ensures var (pre, reqs) := SplitBlocks(Closed, lines);
            && BlockText(Trim(pre)) && BlockTexts(reqs) && BlocksClosed(reqs, false)
            && (reqs != [] ==> IsClosed(Trim(pre)))
            && (IsClosed(lines) ==> IsClosed(Trim(pre)) && BlocksClosed(reqs, true))
  {
    var (pre, reqs) := SplitBlocks(Closed, lines);
    SplitFormed(Closed, lines);
    TrimKeeps(pre);
    if IsClosed(lines) && reqs != [] {
      forall i | 0 <= i < |reqs| ensures IsClosed(reqs[i].body) { if i == |reqs| - 1 { assert reqs[i] == Last(reqs); } }
    }
  }

  lemma TrimKeeps(pre: File)
    ensures Through(Closed, Trim(pre)) == Through(Closed, pre)
    ensures NoHeads(Closed, pre) ==> NoHeads(Closed, Trim(pre))
  {
    TrimStartKeeps(pre);
    TrimEndKeeps(Closed, TrimStart(pre));
  }

  lemma AfterStarts(rest: File, j: nat)
    requires j <= |rest| && (j < |rest| ==> rest[j].Section?)
    ensures var after := TrimEnd(rest[j..]); after == [] || (j < |rest| && after[0].Section?)
  {
    var after := TrimEnd(rest[j..]);
    if after != [] { assert after[0] == rest[j]; }
  }

  /** Any text reads as a formed file, and a text with a requirements section as a well-closed one. */
  lemma ReadFormed(text: File)
    ensures Formed(Read(text))
    ensures Titled(text) ==> WellClosed(Read(text))
    ensures !Titled(text) ==> Read(text) == Doc(TrimEnd(text), REQUIREMENTS, [], [], [])
  {
    if Titled(text) { ReadTitled(text); } else { ReadUntitled(text); }
  }

  lemma ReadTitled(text: File)
    requires Titled(text)
    ensures Formed(Read(text)) && WellClosed(Read(text))
  {
    var i := SectionAt(Closed, text, true);
    BeforeSection(Closed, text, true);
    TrimEndKeeps(Closed, text[..i]);
    BodyFormed(text[i + 1..]);
  }

  lemma ReadUntitled(text: File)
    requires !Titled(text)
    ensures Read(text) == Doc(TrimEnd(text), REQUIREMENTS, [], [], []) && Formed(Read(text))
  {
    TrimEndKeeps(Closed, text);
  }

  // ---------- what was written reads back

  lemma {:induction false} SplitOver(f: Fence, x: File, y: File)
    requires NoHeads(f, x)
    ensures var (pre, reqs) := SplitBlocks(Through(f, x), y); SplitBlocks(f, x + y) == (x + pre, reqs)
    decreases |x|
  {
    if |x| == 0 {
      var (pre, reqs) := SplitBlocks(f, y);
      assert x + y == y && x + pre == pre;
    } else {
      assert (x + y)[0] == x[0] && (x + y)[1..] == x[1..] + y;
      SplitOver(Step(f, x[0]), x[1..], y);
      var (pre, reqs) := SplitBlocks(Through(f, x), y);
      assert [x[0]] + (x[1..] + pre) == x + pre;
    }
  }

  lemma SplitHeading(q: Req, following: File, pre: File, reqs: seq<Req>)
    requires BlockText(q.body) && SplitBlocks(Through(Closed, q.body), following) == (pre, reqs)
    requires pre == [] || pre == [Blank]
    ensures SplitBlocks(Closed, [Blank, Heading(q.name)] + (q.body + following)) == ([Blank], [q] + reqs)
  {
    var tail := q.body + following;
    var lines := [Blank, Heading(q.name)] + tail;
    SplitOver(Closed, q.body, following);
    TrimsBlank(q.body);
    assert q.body + [] == q.body;
    assert lines[1..] == [Heading(q.name)] + tail;
    assert lines[1..][1..] == tail;
    assert SplitBlocks(Closed, lines[1..]) == ([], [q] + reqs);
    assert [Blank] + [] == [Blank];
  }

  lemma RestFormed(reqs: seq<Req>, followed: bool)
    requires |reqs| > 0 && BlockTexts(reqs) && BlocksClosed(reqs, followed)
    ensures BlockText(reqs[0].body) && BlockTexts(reqs[1..]) && BlocksClosed(reqs[1..], followed)
    ensures |reqs| > 1 || followed ==> IsClosed(reqs[0].body)
    ensures |reqs| > 1 ==> Last(reqs[1..]) == Last(reqs)
  {
    assert forall i :: 0 <= i < |reqs| - 1 ==> reqs[1..][i] == reqs[i + 1];
  }

  lemma PrintedFirst(reqs: seq<Req>, end: File)
    requires |reqs| > 0
    ensures Printed(reqs) + end == [Blank, Heading(reqs[0].name)] + (reqs[0].body + (Printed(reqs[1..]) + end))
  {
    var head, rest := [Blank, Heading(reqs[0].name)], Printed(reqs[1..]);
    assert Printed(reqs) == head + reqs[0].body + rest;
    Assoc(head + reqs[0].body, rest, end);
    Assoc(head, reqs[0].body, rest + end);
  }

  /** The last block takes in what is left of the file, less a blank line at its end. */
  lemma SplitLast(q: Req, end: File)
    requires BlockText(q.body) && (end == [] || end == [Blank])
    ensures SplitBlocks(Closed, Printed([q]) + end) == ([Blank], [q])
  {
    EndSplits(Through(Closed, q.body), end);
    SplitHeading(q, end, end, []);
    PrintedFirst([q], end);
    assert [q][1..] == [] && Printed([]) + end == end;
    assert [q] + [] == [q];
  }

  lemma SplitMore(reqs: seq<Req>, end: File)
    requires |reqs| > 1 && BlockText(reqs[0].body) && IsClosed(reqs[0].body)
    requires SplitBlocks(Closed, Printed(reqs[1..]) + end) == ([Blank], reqs[1..])
    ensures SplitBlocks(Closed, Printed(reqs) + end) == ([Blank], reqs)
  {
    SplitHeading(reqs[0], Printed(reqs[1..]) + end, [Blank], reqs[1..]);
    PrintedFirst(reqs, end);
    assert [reqs[0]] + reqs[1..] == reqs;
  }

  /** The blocks written one after the other split into themselves. */
  lemma {:induction false} SplitPrinted(reqs: seq<Req>, end: File)
    requires BlockTexts(reqs) && BlocksClosed(reqs, false) && (end == [] || end == [Blank])
    ensures SplitBlocks(Closed, Printed(reqs) + end) == (if reqs == [] then end else [Blank], reqs)
    decreases |reqs|
  {
    if |reqs| == 0 {
      assert Printed(reqs) + end == end;
      EndSplits(Closed, end);
    } else {
      RestFormed(reqs, false);
      if |reqs| == 1 {
        assert reqs == [reqs[0]];
        SplitLast(reqs[0], end);
      } else {
        SplitPrinted(reqs[1..], end);
        SplitMore(reqs, end);
      }
    }
  }

  lemma EndSplits(f: Fence, end: File)
    requires end == [] || end == [Blank]
    ensures SplitBlocks(f, end) == (end, [])
  {
    if end == [Blank] {
      assert end[1..] == [];
      assert SplitBlocks(Step(f, Blank), end[1..]) == ([], []);
      assert [Blank] + [] == [Blank];
    }
  }

  lemma {:induction false} PrintedHides(reqs: seq<Req>)
    requires BlockTexts(reqs) && BlocksClosed(reqs, false)
    ensures NoSection(Closed, Printed(reqs), false)
    ensures Through(Closed, Printed(reqs)) == if reqs == [] then Closed else Through(Closed, Last(reqs).body)
    decreases |reqs|
  {
    if |reqs| > 0 {
      var q, rest := reqs[0], reqs[1..];
      RestFormed(reqs, false);
      PrintedHides(rest);
      var tail := q.body + Printed(rest);
      HeadingHides(q.name, tail);
      PrintedFirst(reqs, []);
      assert Printed(reqs) + [] == Printed(reqs) && Printed(rest) + [] == Printed(rest);
      NoHeadsNoSection(Closed, q.body, false);
      SectionAtBoth(Closed, q.body, Printed(rest), false);
      ThroughBoth(Closed, q.body, Printed(rest));
      if |rest| == 0 { assert tail == q.body && reqs == [q]; }
    }
  }

  lemma HeadingHides(name: string, tail: File)
    ensures var lines := [Blank, Heading(name)] + tail;
            && (NoSection(Closed, tail, false) ==> NoSection(Closed, lines, false))
            && Through(Closed, lines) == Through(Closed, tail)
  {
    var lines := [Blank, Heading(name)] + tail;
    assert lines[1..] == [Heading(name)] + tail && lines[1..][1..] == tail;
  }

  lemma TailHides(part: File)
    requires NoHeads(Closed, part)
    ensures NoSection(Closed, Tail(part), false) && NoHeads(Closed, Tail(part))
    ensures Through(Closed, Tail(part)) == Through(Closed, part)
  {
    NoHeadsNoSection(Closed, part, false);
    if part != [] { assert ([Blank] + part)[1..] == part; }
  }

  lemma LeadHides(part: File)
    requires NoSection(Closed, part, true) && IsClosed(part)
    ensures NoSection(Closed, Lead(part), true) && IsClosed(Lead(part)) && (Trimmed(part) ==> TrimEnd(Lead(part)) == part)
  {
    SectionAtBoth(Closed, part, [Blank], true);
    ThroughBoth(Closed, part, [Blank]);
    if Trimmed(part) { TrimsBlank(part); }
  }

  /** The part between the requirements heading and what follows the blocks. */
  lemma ReadsBody(doc: Doc, end: File)
    requires Formed(doc) && WellClosed(doc) && (end == [] || (end == [Blank] && doc.after != []))
    ensures var (pre, reqs) := SplitBlocks(Closed, Tail(doc.preamble) + Printed(doc.reqs) + end);
            Trim(pre) == doc.preamble && reqs == doc.reqs
  {
    var blocks := Printed(doc.reqs) + end;
    assert Tail(doc.preamble) + Printed(doc.reqs) + end == Tail(doc.preamble) + blocks;
    TailHides(doc.preamble);
    SplitOver(Closed, Tail(doc.preamble), blocks);
    SplitPrinted(doc.reqs, end);
    if doc.reqs == [] {
      assert blocks == end;
      EndSplits(Through(Closed, doc.preamble), end);
    }
    var (pre, reqs) := SplitBlocks(Closed, Tail(doc.preamble) + blocks);
    TrimsTail(doc.preamble);
    assert pre == Tail(doc.preamble) || pre == Tail(doc.preamble) + [Blank];
  }

  lemma TrimsTail(part: File)
    requires Trimmed(part) && (part == [] || part[0] != Blank)
    ensures Trim(Tail(part)) == part && Trim(Tail(part) + [Blank]) == part
  {
    if part == [] {
      assert Trim([Blank]) == [] by { assert TrimStart([Blank]) == TrimStart([Blank][1..]); }
    } else {
      assert ([Blank] + part)[1..] == part;
      assert ([Blank] + part + [Blank])[1..] == part + [Blank];
      TrimsBlank(part);
    }
  }

  /** How a text in four parts is read. */
  lemma ReadParts(text: File, lead: File, header: Line, body: File, after: File)
    requires text == lead + ([header] + (body + after))
    requires NoSection(Closed, lead, true) && IsClosed(lead) && header.Section? && header.requirements
    requires NoSection(Closed, body, false) && (after == [] || (IsClosed(body) && after[0].Section?))
    ensures Titled(text)
    ensures var (pre, reqs) := SplitBlocks(Closed, body);
            Read(text) == Doc(TrimEnd(lead), header, Trim(pre), reqs, TrimEnd(after))
  {
    var rest := body + after;
    HeaderFound(text, lead, header, rest);
    SectionAtBoth(Closed, body, after, false);
    assert SectionAt(Closed, rest, false) == |body|;
    assert rest[..|body|] == body && rest[|body|..] == after;
  }

  lemma HeaderFound(text: File, lead: File, header: Line, rest: File)
    requires text == lead + ([header] + rest)
    requires NoSection(Closed, lead, true) && IsClosed(lead) && header.Section? && header.requirements
    ensures SectionAt(Closed, text, true) == |lead| < |text|
    ensures text[..|lead|] == lead && text[|lead|] == header && text[|lead| + 1..] == rest
  {
    SectionAtBoth(Closed, lead, [header] + rest, true);
    assert ([header] + rest)[0] == header;
  }

  lemma WholeParts(doc: Doc, end: File)
    requires end == if doc.after == [] then [] else [Blank]
    ensures Whole(doc) == Lead(doc.before) + ([doc.header] + (Tail(doc.preamble) + Printed(doc.reqs) + end + doc.after))
  {
    assert Tail(doc.after) == end + doc.after;
  }

  lemma BodyHides(doc: Doc, end: File)
    requires Formed(doc) && WellClosed(doc) && (end == [] || (end == [Blank] && doc.after != []))
    ensures var body := Tail(doc.preamble) + Printed(doc.reqs) + end;
            NoSection(Closed, body, false) && (doc.after != [] ==> IsClosed(body))
  {
    var head := Tail(doc.preamble) + Printed(doc.reqs);
    TailHides(doc.preamble);
    PrintedHides(doc.reqs);
    SectionAtBoth(Closed, Tail(doc.preamble), Printed(doc.reqs), false);
    ThroughBoth(Closed, Tail(doc.preamble), Printed(doc.reqs));
    SectionAtBoth(Closed, head, end, false);
    ThroughBoth(Closed, head, end);
  }

  /** A well-closed file reads back as it was written. */
  lemma ReadsWhole(doc: Doc)
    requires Formed(doc) && WellClosed(doc)
    ensures Read(Whole(doc)) == doc && Titled(Whole(doc))
  {
    var end := if doc.after == [] then [] else [Blank];
    var body := Tail(doc.preamble) + Printed(doc.reqs) + end;
    LeadHides(doc.before);
    BodyHides(doc, end);
    ReadsBody(doc, end);
    WholeParts(doc, end);
    ReadParts(Whole(doc), Lead(doc.before), doc.header, body, doc.after);
  }

  // ---------- tidying part by part

  /** After a trimmed part the next line is no part of a blank run. */
  lemma TidyThenMore(part: File, more: File)
    requires Trimmed(part)
    ensures Tidy(Closed, false, part + more) == TidyBody(part) + Tidy(Through(Closed, part), false, more)
  {
    TidyBoth(Closed, false, part, more);
    if part != [] { NoRunAfterText(Closed, false, part); }
  }

  lemma TidyAfterBlank(part: File)
    requires part == [] || part[0] != Blank
    ensures Tidy(Closed, true, part) == TidyBody(part)
  {
  }

  lemma TidyTail(part: File, more: File)
    requires Trimmed(part) && (part == [] || part[0] != Blank)
    ensures Tidy(Closed, false, Tail(part) + more) == Tail(TidyBody(part)) + Tidy(Through(Closed, part), false, more)
  {
    if part == [] {
      assert Tail(part) + more == more;
      assert Tail(TidyBody(part)) + Tidy(Closed, false, more) == Tidy(Closed, false, more);
    } else {
      var left := Tidy(Through(Closed, part), false, more);
      Assoc([Blank], part, more);
      assert ([Blank] + (part + more))[1..] == part + more;
      assert Tidy(Closed, false, [Blank] + (part + more)) == [Blank] + Tidy(Closed, true, part + more);
      TidyBoth(Closed, true, part, more);
      NoRunAfterText(Closed, true, part);
      TidyAfterBlank(part);
      TidyEnds(Closed, false, part);
      Assoc([Blank], TidyBody(part), left);
    }
  }

  lemma TidyHeading(name: string, more: File)
    ensures Tidy(Closed, false, [Blank, Heading(name)] + more) == [Blank, Heading(name)] + Tidy(Closed, false, more)
  {
    var lines := [Blank, Heading(name)] + more;
    assert lines[1..][0] == Heading(name) && lines[1..][1..] == more;
  }

  function FenceAfter(reqs: seq<Req>): Fence {
    if reqs == [] then Closed else Through(Closed, Last(reqs).body)
  }

  lemma TidyReqsFirst(reqs: seq<Req>)
    requires |reqs| > 0
    ensures TidyReqs(reqs)[0] == TidyReq(reqs[0]) && TidyReqs(reqs)[1..] == TidyReqs(reqs[1..])
  {
  }

  lemma {:induction false} TidyPrinted(reqs: seq<Req>, more: File)
    requires BlockTexts(reqs) && BlocksClosed(reqs, false)
    ensures Tidy(Closed, false, Printed(reqs) + more) == Printed(TidyReqs(reqs)) + Tidy(FenceAfter(reqs), false, more)
    decreases |reqs|
  {
    if |reqs| == 0 {
      assert Printed(reqs) + more == more;
      assert Printed(TidyReqs(reqs)) + Tidy(Closed, false, more) == Tidy(Closed, false, more);
    } else {
      var q, rest := reqs[0], reqs[1..];
      var following := Printed(rest) + more;
      RestFormed(reqs, false);
      PrintedFirst(reqs, more);
      TidyHeading(q.name, q.body + following);
      TidyThenMore(q.body, following);
      TidyReqsFirst(reqs);
      var left := Tidy(FenceAfter(reqs), false, more);
      PrintedFirst(TidyReqs(reqs), left);
      if |rest| == 0 {
        assert following == more && reqs == [q];
        assert Printed(TidyReqs(rest)) + left == left;
      } else {
        TidyPrinted(rest, more);
      }
    }
  }

  /** Everything up to what follows the blocks. */
  function Front(doc: Doc): File {
    Lead(doc.before) + [doc.header] + Tail(doc.preamble) + Printed(doc.reqs)
  }

  predicate FrontClosed(doc: Doc) {
    IsClosed(doc.before) && (doc.reqs != [] ==> IsClosed(doc.preamble)) && BlocksClosed(doc.reqs, false)
  }

  function FrontFence(doc: Doc): Fence {
    if doc.reqs == [] then Through(Closed, doc.preamble) else FenceAfter(doc.reqs)
  }

  lemma Regroup(a: File, b: File, c: File, d: File, e: File)
    ensures a + b + c + d + e == a + (b + (c + (d + e)))
  {
  }

  lemma Assoc(a: File, b: File, c: File)
    ensures a + b + c == a + (b + c)
  {
  }

  lemma TidyLead(part: File, header: Line, more: File)
    requires Trimmed(part) && IsClosed(part) && header.Section?
    ensures Tidy(Closed, false, Lead(part) + ([header] + more)) == Lead(TidyBody(part)) + ([header] + Tidy(Closed, false, more))
  {
    var lines := [header] + more;
    assert lines[0] == header && lines[1..] == more;
    assert TidyBody(lines) == [header] + Tidy(Closed, false, more);
    LeadThenText(part, lines);
  }

  lemma LeadThenText(part: File, lines: File)
    requires Trimmed(part) && IsClosed(part) && lines != [] && lines[0] != Blank
    ensures Tidy(Closed, false, Lead(part) + lines) == Lead(TidyBody(part)) + TidyBody(lines)
  {
    if part == [] {
      assert Lead(part) + lines == lines;
      assert Lead(TidyBody(part)) + TidyBody(lines) == TidyBody(lines);
    } else {
      Assoc(part, [Blank], lines);
      TidyThenMore(part, [Blank] + lines);
      BlankThenText(lines);
      TidyEnds(Closed, false, part);
      Assoc(TidyBody(part), [Blank], TidyBody(lines));
    }
  }

  lemma BlankThenText(lines: File)
    requires lines != [] && lines[0] != Blank
    ensures Tidy(Closed, false, [Blank] + lines) == [Blank] + TidyBody(lines)
  {
    assert ([Blank] + lines)[1..] == lines;
    TidyAfterBlank(lines);
  }

  lemma TidyBlocks(preamble: File, reqs: seq<Req>, more: File)
    requires BlockText(preamble) && (preamble == [] || preamble[0] != Blank) && (reqs != [] ==> IsClosed(preamble))
    requires BlockTexts(reqs) && BlocksClosed(reqs, false)
    ensures Tidy(Closed, false, Tail(preamble) + (Printed(reqs) + more)) ==
            Tail(TidyBody(preamble)) + (Printed(TidyReqs(reqs))
              + Tidy(if reqs == [] then Through(Closed, preamble) else FenceAfter(reqs), false, more))
  {
    TidyTail(preamble, Printed(reqs) + more);
    if reqs == [] {
      assert Printed(reqs) + more == more;
      var left := Tidy(Through(Closed, preamble), false, more);
      assert Printed(TidyReqs(reqs)) + left == left;
    } else {
      TidyPrinted(reqs, more);
    }
  }

  /** As long as fences are closed where parts meet, tidying the file is tidying its parts. */
  lemma TidyFront(doc: Doc, more: File)
    requires Formed(doc) && FrontClosed(doc)
    ensures Tidy(Closed, false, Front(doc) + more) == Front(TidyDoc(doc)) + Tidy(FrontFence(doc), false, more)
  {
    var t, left := TidyDoc(doc), Tidy(FrontFence(doc), false, more);
    Regroup(Lead(doc.before), [doc.header], Tail(doc.preamble), Printed(doc.reqs), more);
    Regroup(Lead(t.before), [t.header], Tail(t.preamble), Printed(t.reqs), left);
    TidyLead(doc.before, doc.header, Tail(doc.preamble) + (Printed(doc.reqs) + more));
    TidyBlocks(doc.preamble, doc.reqs, more);
  }

  lemma TidiedFormed(doc: Doc)
    requires Formed(doc)
    ensures Formed(TidyDoc(doc)) && TidyDoc(TidyDoc(doc)) == TidyDoc(doc)
    ensures WellClosed(TidyDoc(doc)) <==> WellClosed(doc)
    ensures FrontClosed(TidyDoc(doc)) <==> FrontClosed(doc)
  {
    PartTidied(doc.before);
    PartTidied(doc.preamble);
    PartTidied(doc.after);
    TidyHidesNoSection(Closed, false, doc.before, true);
    var t := TidyDoc(doc);
    forall i | 0 <= i < |doc.reqs|
      ensures BlockText(t.reqs[i].body) && TidyReq(t.reqs[i]) == t.reqs[i]
      ensures IsClosed(t.reqs[i].body) <==> IsClosed(doc.reqs[i].body)
    {
      PartTidied(doc.reqs[i].body);
    }
    assert TidyReqs(t.reqs) == t.reqs;
  }

  lemma PartTidied(part: File)
    requires Trimmed(part)
    ensures var t := TidyBody(part);
            && Trimmed(t) && (t == [] <==> part == []) && TidyBody(t) == t
            && (NoHeads(Closed, part) ==> NoHeads(Closed, t)) && (IsClosed(t) <==> IsClosed(part))
            && (part != [] && part[0] != Blank ==> t[0] == part[0])
  {
    TidyKeeps(Closed, false, part);
    TidyTwice(Closed, false, part);
    if part != [] { TidyEnds(Closed, false, part); }
  }

  /** A well-closed file is written as its tidied parts. */
  lemma PrintsClosed(doc: Doc)
    requires Formed(doc) && WellClosed(doc)
    ensures Print(doc) == Whole(TidyDoc(doc))
  {
    TidyFront(doc, Tail(doc.after));
    if doc.after == [] {
      assert Tail(TidyBody(doc.after)) == [];
    } else {
      if doc.reqs != [] { assert IsClosed(Last(doc.reqs).body); }
      assert FrontFence(doc) == Closed;
      TidyTail(doc.after, []);
      assert Tail(doc.after) + [] == Tail(doc.after);
      assert Tail(TidyBody(doc.after)) + [] == Tail(TidyBody(doc.after));
    }
  }

  /**
   A merged file reads back as the parts that were written exactly when no part but its very last leaves
   a fence open.
   */
  lemma ReadsBackIff(doc: Doc)
    requires Formed(doc)
    ensures Read(Print(doc)) == TidyDoc(doc) <==> WellClosed(doc)
  {
    var text, t := Print(doc), TidyDoc(doc);
    TidiedFormed(doc);
    if WellClosed(doc) {
      PrintsClosed(doc);
      ReadsWhole(t);
    } else {
      ReadFormed(text);
      UntitledHasMore(doc);
    }
  }

  /** A file that reads as untitled holds more than what stands before its requirements. */
  lemma UntitledHasMore(doc: Doc)
    requires Formed(doc)
    ensures TrimEnd(Print(doc)) != TidyBody(doc.before)
  {
    WholeHasMore(doc);
    TidyKeepsText(Closed, false, Whole(doc));
    TidyKeepsText(Closed, false, doc.before);
    TrimKeepsText(Print(doc));
  }

  lemma WholeHasMore(doc: Doc)
    requires doc.header.Section?
    ensures TextLines(Whole(doc)) > TextLines(doc.before)
  {
    var more := Tail(doc.preamble) + Printed(doc.reqs) + Tail(doc.after);
    assert Whole(doc) == Lead(doc.before) + ([doc.header] + more);
    TextOfBoth(Lead(doc.before), [doc.header] + more);
    TextOfBoth(doc.before, [Blank]);
    assert ([doc.header] + more)[1..] == more;
  }

  /** The lines that are not blank. */
  function TextLines(lines: File): nat {
    if |lines| == 0 then 0 else (if lines[0].Blank? then 0 else 1) + TextLines(lines[1..])
  }

  lemma {:induction false} TextOfBoth(a: File, b: File)
    ensures TextLines(a + b) == TextLines(a) + TextLines(b)
    decreases |a|
  {
    if |a| == 0 {
      assert a + b == b;
    } else {
      assert (a + b)[1..] == a[1..] + b;
      TextOfBoth(a[1..], b);
    }
  }

  lemma {:induction false} TidyKeepsText(f: Fence, run: bool, lines: File)
    ensures TextLines(Tidy(f, run, lines)) == TextLines(lines)
    decreases |lines|
  {
    if |lines| > 0 {
      var rest, g := lines[1..], Step(f, lines[0]);
      var blank := f.Closed? && lines[0].Blank?;
      TidyKeepsText(g, blank, rest);
      if !(blank && run) {
        var t := Tidy(f, run, lines);
        assert t[0] == lines[0] && t[1..] == Tidy(g, blank, rest);
      } else {
        assert Tidy(f, run, lines) == Tidy(f, true, rest);
      }
    }
  }

  lemma {:induction false} TrimKeepsText(lines: File)
    ensures TextLines(TrimEnd(lines)) == TextLines(lines)
  {
    if lines != [] && Last(lines) == Blank {
      TextOfBoth(Init(lines), [Blank]);
      assert lines == Init(lines) + [Blank];
      TrimKeepsText(Init(lines));
    }
  }

  // ---------- a fence that stays open

  /** What is written after block `i`. */
  function Rest(doc: Doc, i: nat): File
    requires i < |doc.reqs|
  {
    Printed(doc.reqs[i + 1..]) + Tail(doc.after)
  }

  /** Block `i` is the first part that leaves a fence open, and nothing after it closes that fence. */
  predicate OpenFrom(doc: Doc, i: nat) {
    && i < |doc.reqs|
    && FrontClosed(UpTo(doc, i))
    && StaysOpen(Through(Closed, doc.reqs[i].body), Rest(doc, i))
  }

  function UpTo(doc: Doc, i: nat): Doc
    requires i < |doc.reqs|
  {
    doc.(reqs := doc.reqs[..i + 1], after := [])
  }

  lemma {:induction false} PrintedBoth(a: seq<Req>, b: seq<Req>)
    ensures Printed(a + b) == Printed(a) + Printed(b)
    decreases |a|
  {
    if |a| == 0 {
      assert a + b == b;
    } else {
      assert (a + b)[0] == a[0] && (a + b)[1..] == a[1..] + b;
      PrintedBoth(a[1..], b);
      PrintedFirst(a + b, []);
      PrintedFirst(a, Printed(b));
    }
  }

  lemma WholeUpTo(doc: Doc, i: nat)
    requires i < |doc.reqs|
    ensures Whole(doc) == Front(UpTo(doc, i)) + Rest(doc, i)
  {
    var front := UpTo(doc, i);
    assert doc.reqs == front.reqs + doc.reqs[i + 1..];
    PrintedBoth(front.reqs, doc.reqs[i + 1..]);
    Regroup(Lead(doc.before), [doc.header], Tail(doc.preamble), Printed(front.reqs), Rest(doc, i));
    Regroup(Lead(doc.before), [doc.header], Tail(doc.preamble), Printed(doc.reqs), Tail(doc.after));
    Assoc(Printed(front.reqs), Printed(doc.reqs[i + 1..]), Tail(doc.after));
  }

  /** From the open block on the file is written line for line. */
  lemma PrintsOpen(doc: Doc, i: nat)
    requires Formed(doc) && OpenFrom(doc, i)
    ensures Print(doc) == Front(TidyDoc(UpTo(doc, i))) + Rest(doc, i)
  {
    var front := UpTo(doc, i);
    WholeUpTo(doc, i);
    TidyFront(front, Rest(doc, i));
    OpenKeepsAll(Through(Closed, doc.reqs[i].body), false, Rest(doc, i));
    assert Last(front.reqs) == doc.reqs[i];
  }

  /** The block takes in everything after it. */
  function Swallowed(doc: Doc, i: nat): Req
    requires i < |doc.reqs|
  {
    Req(doc.reqs[i].name, TidyBody(doc.reqs[i].body) + Rest(doc, i))
  }

  /** How a file is read in which block `i` leaves a fence open for good. */
  function ReadOpen(doc: Doc, i: nat): Doc
    requires i < |doc.reqs|
  {
    Doc(TidyBody(doc.before), doc.header, TidyBody(doc.preamble), TidyReqs(doc.reqs[..i]) + [Swallowed(doc, i)], [])
  }

  lemma {:induction false} PrintedTrimmed(reqs: seq<Req>)
    requires BlockTexts(reqs)
    ensures Trimmed(Printed(reqs))
  {
    if |reqs| > 0 {
      var q, rest := reqs[0], reqs[1..];
      assert BlockTexts(rest) by { assert forall k :: 0 <= k < |rest| ==> rest[k] == reqs[k + 1]; }
      PrintedTrimmed(rest);
      assert Printed(reqs) == [Blank, Heading(q.name)] + q.body + Printed(rest);
      if Printed(rest) != [] {
        assert Last(Printed(reqs)) == Last(Printed(rest));
      } else if q.body != [] {
        assert Last(Printed(reqs)) == Last(q.body);
      } else {
        assert Last(Printed(reqs)) == Heading(q.name);
      }
    }
  }

  lemma RestTrimmed(doc: Doc, i: nat)
    requires Formed(doc) && i < |doc.reqs|
    ensures Trimmed(Rest(doc, i))
  {
    var later := doc.reqs[i + 1..];
    forall k | 0 <= k < |later| ensures BlockText(later[k].body) { assert later[k] == doc.reqs[k + i + 1]; }
    PrintedTrimmed(later);
    if doc.after != [] { assert Last(Rest(doc, i)) == Last(doc.after); }
  }

  lemma SwallowedText(doc: Doc, i: nat)
    requires Formed(doc) && OpenFrom(doc, i)
    ensures BlockText(Swallowed(doc, i).body) && !IsClosed(Swallowed(doc, i).body)
    ensures TidyBody(Swallowed(doc, i).body) == Swallowed(doc, i).body
  {
    var body, rest := TidyBody(doc.reqs[i].body), Rest(doc, i);
    var f := Through(Closed, doc.reqs[i].body);
    assert BlockText(doc.reqs[i].body);
    PartTidied(doc.reqs[i].body);
    TidyKeeps(Closed, false, doc.reqs[i].body);
    OpenKeepsAll(f, false, rest);
    NoHeadsBoth(Closed, body, rest);
    ThroughBoth(Closed, body, rest);
    RestTrimmed(doc, i);
    if rest != [] { assert Last(body + rest) == Last(rest); } else { assert body + rest == body; }
    TidyThenMore(body, rest);
  }

  lemma OpenFormed(doc: Doc, i: nat)
    requires Formed(doc) && OpenFrom(doc, i)
    ensures Formed(ReadOpen(doc, i)) && WellClosed(ReadOpen(doc, i))
  {
    var read := ReadOpen(doc, i);
    SwallowedText(doc, i);
    forall k | 0 <= k < |read.reqs|
      ensures BlockText(read.reqs[k].body) && (k < i ==> IsClosed(read.reqs[k].body))
    {
      if k < i { BeforeOpenFormed(doc, i, k); }
    }
    PartTidied(doc.before);
    PartTidied(doc.preamble);
    TidyHidesNoSection(Closed, false, doc.before, true);
  }

  lemma BeforeOpenFormed(doc: Doc, i: nat, k: nat)
    requires Formed(doc) && OpenFrom(doc, i) && k < i
    ensures var q := ReadOpen(doc, i).reqs[k]; BlockText(q.body) && IsClosed(q.body)
  {
    var front := UpTo(doc, i);
    assert front.reqs[k] == doc.reqs[k] && IsClosed(front.reqs[k].body);
    assert ReadOpen(doc, i).reqs[k] == TidyReq(doc.reqs[k]) && BlockText(doc.reqs[k].body);
    PartTidied(doc.reqs[k].body);
  }

  /** A file with an open fence reads back with everything after the open block as that block's text. */
  lemma ReadsOpen(doc: Doc, i: nat)
    requires Formed(doc) && OpenFrom(doc, i)
    ensures Read(Print(doc)) == ReadOpen(doc, i)
    ensures Print(doc) == Whole(ReadOpen(doc, i))
  {
    PrintsOpen(doc, i);
    OpenFormed(doc, i);
    ReadsWhole(ReadOpen(doc, i));
    WholeOpen(doc, i);
  }

  lemma WholeOpen(doc: Doc, i: nat)
    requires i < |doc.reqs|
    ensures Whole(ReadOpen(doc, i)) == Front(TidyDoc(UpTo(doc, i))) + Rest(doc, i)
  {
    var read, front := ReadOpen(doc, i), TidyDoc(UpTo(doc, i));
    var before, last := TidyReqs(doc.reqs[..i]), TidyReq(doc.reqs[i]);
    TidyUpTo(doc, i);
    PrintedBoth(before, [last]);
    PrintedBoth(before, [Swallowed(doc, i)]);
    PrintedOpen(last, Rest(doc, i));
    Regroup(Lead(front.before), [front.header], Tail(front.preamble), Printed(front.reqs), Rest(doc, i));
    Assoc(Printed(before), Printed([last]), Rest(doc, i));
    Regroup(Lead(read.before), [read.header], Tail(read.preamble), Printed(read.reqs), Tail(read.after));
    assert Printed(read.reqs) + Tail(read.after) == Printed(read.reqs);
  }

  lemma TidyUpTo(doc: Doc, i: nat)
    requires i < |doc.reqs|
    ensures TidyReqs(doc.reqs[..i + 1]) == TidyReqs(doc.reqs[..i]) + [TidyReq(doc.reqs[i])]
  {
    assert doc.reqs[..i + 1] == doc.reqs[..i] + [doc.reqs[i]];
  }

  lemma PrintedOpen(q: Req, rest: File)
    ensures Printed([q]) + rest == Printed([Req(q.name, q.body + rest)])
  {
    var r := Req(q.name, q.body + rest);
    PrintedFirst([q], rest);
    PrintedFirst([r], []);
    assert [q][1..] == [] && [r][1..] == [];
    assert Printed([]) + rest == rest && Printed([]) + [] == [];
    assert (q.body + rest) + [] == q.body + rest;
    assert Printed([r]) + [] == Printed([r]);
  }

  // ---------- files without blocks

  lemma {:induction false} NoSectionAtAll(f: Fence, lines: File)
    requires NoSection(f, lines, false)
    ensures NoSection(f, lines, true)
    decreases |lines|
  {
    if |lines| > 0 { NoSectionAtAll(Step(f, lines[0]), lines[1..]); }
  }

  /** A text whose requirements section is its last line reads as one without a requirement. */
  lemma EndsInHeader(x: File, header: Line)
    requires NoSection(Closed, x, true) && header.Section? && header.requirements
    ensures var doc := Read(x + [header]); doc.preamble == [] && doc.reqs == [] && doc.after == []
    ensures IsClosed(x) ==> IsClosed(Read(x + [header]).before)
  {
    var text := x + [header];
    SectionAtBoth(Closed, x, [header], true);
    if Titled(text) {
      assert text[|x| + 1..] == [] && text[..|x|] == x;
      assert SplitBlocks(Closed, text[|x| + 1..]) == ([], []);
      TrimEndKeeps(Closed, x);
    } else {
      assert IsClosed(x) ==> SectionAt(Closed, [header], true) == 0;
    }
  }

  lemma BlankHides(f: Fence)
    ensures NoSection(f, [Blank], true) && Through(f, [Blank]) == f
  {
    assert [Blank][1..] == [];
  }

  /** A file written without blocks reads as one. */
  lemma NoneReadsNone(doc: Doc)
    requires Formed(doc) && doc.preamble == [] && doc.reqs == [] && doc.after == []
    ensures Read(Print(doc)).reqs == []
  {
    var lead := Lead(doc.before);
    if doc.before != [] {
      BlankHides(Through(Closed, doc.before));
      SectionAtBoth(Closed, doc.before, [Blank], true);
    }
    assert Whole(doc) == lead + [doc.header];
    TidyBoth(Closed, false, lead, [doc.header]);
    assert [doc.header][1..] == [];
    assert Tidy(Through(Closed, lead), RunAfter(Closed, false, lead), [doc.header]) == [doc.header];
    TidyHidesNoSection(Closed, false, lead, true);
    EndsInHeader(TidyBody(lead), doc.header);
  }

  /** A requirement heading after closed text without sections is seen. */
  lemma BlockSeen(lead: File, header: Line, body: File, heading: Line, more: File)
    requires NoSection(Closed, lead, true) && IsClosed(lead) && header.Section? && header.requirements
    requires NoHeads(Closed, body) && IsClosed(body) && heading.Heading?
    ensures Read(lead + ([header] + (body + ([heading] + more)))).reqs != []
  {
    var tail := [heading] + more;
    var rest := body + tail;
    HeaderFound(lead + ([header] + rest), lead, header, rest);
    NoHeadsNoSection(Closed, body, false);
    SectionAtBoth(Closed, body, tail, false);
    var j := SectionAt(Closed, rest, false);
    assert tail[0] == heading;
    var z := tail[..j - |body|];
    assert rest[..j] == body + z && z[0] == heading;
    SplitOver(Closed, body, z);
  }

  /** A first block after closed text is seen, whatever its fences and those after it are. */
  lemma FirstBlockSeen(doc: Doc)
    requires Formed(doc) && doc.reqs != [] && IsClosed(doc.before) && IsClosed(doc.preamble)
    ensures Read(Print(doc)).reqs != []
  {
    var front, rest := UpTo(doc, 0), Rest(doc, 0);
    var t, more := TidyDoc(front), Tidy(FrontFence(front), false, rest);
    WholeUpTo(doc, 0);
    TidiedFormed(front);
    TidyFront(front, rest);
    Regroup(Lead(t.before), [t.header], Tail(t.preamble), Printed(t.reqs), more);
    PartTidied(doc.before);
    PartTidied(doc.preamble);
    LeadHides(t.before);
    TailHides(t.preamble);
    BlankAtEnd(Tail(t.preamble));
    FirstHeading(Tail(t.preamble), t.reqs, more);
    var later := t.reqs[0].body + (Printed(t.reqs[1..]) + more);
    BlockSeen(Lead(t.before), t.header, Tail(t.preamble) + [Blank], Heading(t.reqs[0].name), later);
  }

  lemma FirstHeading(tail: File, reqs: seq<Req>, more: File)
    requires |reqs| > 0
    ensures tail + (Printed(reqs) + more)
            == (tail + [Blank]) + ([Heading(reqs[0].name)] + (reqs[0].body + (Printed(reqs[1..]) + more)))
  {
    var heading, later := [Heading(reqs[0].name)], reqs[0].body + (Printed(reqs[1..]) + more);
    PrintedFirst(reqs, more);
    assert [Blank, Heading(reqs[0].name)] == [Blank] + heading;
    Assoc([Blank], heading, later);
    Assoc(tail, [Blank], heading + later);
  }

  lemma BlankAtEnd(part: File)
    requires NoHeads(Closed, part) && IsClosed(part)
    ensures NoHeads(Closed, part + [Blank]) && IsClosed(part + [Blank])
  {
    BlankHides(Closed);
    NoHeadsBoth(Closed, part, [Blank]);
    ThroughBoth(Closed, part, [Blank]);
    assert NoHeads(Closed, [Blank]) by { assert [Blank][1..] == []; }
  }
}
