/**
 The loops that read and write a spec line by line, over a mask of the lines inside code fences, each
 proved against the functions of `SpecText`.
 */
module SpecReader {
  import opened Text
  import opened SpecText

  predicate InFence(f: Fence, l: Line) {
    f.Open? || l.Ticks?
  }

  /** The fence in front of line `i`. */
  function At(lines: File, i: nat): Fence
    requires i <= |lines|
  {
    Through(Closed, lines[..i])
  }

  lemma Onward(lines: File, i: nat)
    requires i < |lines|
    ensures At(lines, i + 1) == Step(At(lines, i), lines[i])
  {
    assert lines[..i + 1] == lines[..i] + [lines[i]];
    ThroughBoth(Closed, lines[..i], [lines[i]]);
    assert [lines[i]][1..] == [];
  }

  /** The mask of a file: a line is inside a fence when it opens one or stands in an open one. */
  predicate IsMask(mask: seq<bool>, lines: File) {
    |mask| == |lines| && forall i :: 0 <= i < |lines| ==> (mask[i] <==> InFence(At(lines, i), lines[i]))
  }

  method BuildCodeFenceMask(lines: File) returns (mask: seq<bool>)
    ensures IsMask(mask, lines)
  {
    mask := [];
    var active := Closed;
    for index := 0 to |lines|
      invariant |mask| == index && active == At(lines, index)
      invariant forall i :: 0 <= i < index ==> (mask[i] <==> InFence(At(lines, i), lines[i]))
    {
      Onward(lines, index);
      var line := lines[index];
      if active.Closed? {
        mask := mask + [line.Ticks?];
        if line.Ticks? { active := Open(line.marker, line.length); }
      } else {
        mask := mask + [true];
        if line.Ticks? && line.bare && line.marker == active.marker && line.length >= active.length { active := Closed; }
      }
    }
  }

  /** Each blank line outside a fence that follows another is dropped. */
  method CollapseBlankRuns(lines: File) returns (kept: File)
    ensures kept == TidyBody(lines)
  {
    var mask := BuildCodeFenceMask(lines);
    kept := [];
    var blankRun: nat := 0;
    assert lines[0..] == lines;
    for index := 0 to |lines|
      invariant TidyBody(lines) == kept + Tidy(At(lines, index), blankRun > 0, lines[index..])
    {
      Onward(lines, index);
      assert lines[index..][0] == lines[index] && lines[index..][1..] == lines[index + 1..];
      assert mask[index] <==> InFence(At(lines, index), lines[index]);
      TidyNext(At(lines, index), blankRun > 0, lines[index..], kept);
      if mask[index] {
        blankRun, kept := 0, kept + [lines[index]];
      } else if lines[index].Blank? {
        blankRun := blankRun + 1;
        if blankRun == 1 { kept := kept + [lines[index]]; }
      } else {
        blankRun, kept := 0, kept + [lines[index]];
      }
    }
  }

  lemma TidyNext(f: Fence, run: bool, lines: File, kept: File)
    requires |lines| > 0
    ensures var blank := f.Closed? && lines[0].Blank?;
            kept + Tidy(f, run, lines)
            == (if blank && run then kept else kept + [lines[0]]) + Tidy(Step(f, lines[0]), blank, lines[1..])
  {
    var blank := f.Closed? && lines[0].Blank?;
    var rest := Tidy(Step(f, lines[0]), blank, lines[1..]);
    if blank && run { assert Tidy(f, run, lines) == [] + rest; }
    assert kept + ([lines[0]] + rest) == (kept + [lines[0]]) + rest;
  }

  /** The first line from `start` that is a section heading outside a fence; only that of the requirements when asked. */
  method FindSection(lines: File, mask: seq<bool>, start: nat, requirements: bool) returns (index: nat)
    requires IsMask(mask, lines) && start <= |lines|
    ensures start <= index <= |lines| && index == start + SectionAt(At(lines, start), lines[start..], requirements)
  {
    index := start;
    while index < |lines| && (mask[index] || !Sought(lines[index], requirements))
      invariant start <= index <= |lines|
      invariant start + SectionAt(At(lines, start), lines[start..], requirements)
                == index + SectionAt(At(lines, index), lines[index..], requirements)
    {
      Onward(lines, index);
      assert lines[index..][1..] == lines[index + 1..];
      index := index + 1;
    }
    if index < |lines| { assert !InFence(At(lines, index), lines[index]); }
  }

  /** The mask of the lines between two places outside any fence. */
  lemma MaskSlice(mask: seq<bool>, lines: File, from: nat, to: nat)
    requires IsMask(mask, lines) && from <= to <= |lines| && At(lines, from) == Closed
    ensures IsMask(mask[from..to], lines[from..to])
  {
    var part := lines[from..to];
    forall i | 0 <= i < |part| ensures At(part, i) == At(lines, from + i) {
      assert lines[..from + i] == lines[..from] + part[..i];
      ThroughBoth(Closed, lines[..from], part[..i]);
    }
  }

  predicate HeadingAt(lines: File, mask: seq<bool>, i: nat)
    requires |mask| == |lines| && i < |lines|
  {
    !mask[i] && lines[i].Heading?
  }

  /** What splitting gives from line `i` on. */
  function From(lines: File, i: nat): (File, seq<Req>)
    requires i <= |lines|
  {
    SplitBlocks(At(lines, i), lines[i..])
  }

  lemma NotAHeading(lines: File, mask: seq<bool>, i: nat)
    requires IsMask(mask, lines) && i < |lines| && !HeadingAt(lines, mask, i)
    ensures From(lines, i) == ([lines[i]] + From(lines, i + 1).0, From(lines, i + 1).1)
  {
    Onward(lines, i);
    assert lines[i..][0] == lines[i] && lines[i..][1..] == lines[i + 1..];
    assert !(At(lines, i).Closed? && lines[i].Heading?);
  }

  lemma AHeading(lines: File, mask: seq<bool>, i: nat)
    requires IsMask(mask, lines) && i < |lines| && HeadingAt(lines, mask, i)
    ensures From(lines, i) == ([], [Req(lines[i].name, TrimEnd(From(lines, i + 1).0))] + From(lines, i + 1).1)
  {
    Onward(lines, i);
    assert lines[i..][0] == lines[i] && lines[i..][1..] == lines[i + 1..];
    assert At(lines, i).Closed?;
  }

  /** The requirement blocks of a section's lines, each trimmed at its end. */
  method ParseBlocks(lines: File, mask: seq<bool>) returns (blocks: seq<Req>)
    requires IsMask(mask, lines)
    ensures blocks == SplitBlocks(Closed, lines).1
  {
    blocks := [];
    var cursor := 0;
    assert lines[0..] == lines;
    while cursor < |lines|
      invariant cursor <= |lines| && From(lines, 0).1 == blocks + From(lines, cursor).1
      decreases |lines| - cursor
    {
      cursor := SkipToHeading(lines, mask, cursor);
      if cursor < |lines| {
        var block;
        block, cursor := TakeBlock(lines, mask, cursor, blocks);
        blocks := blocks + [block];
      }
    }
    assert From(lines, |lines|) == ([], []);
  }

  /** One block, from its heading to the next one. */
  method TakeBlock(lines: File, mask: seq<bool>, start: nat, ghost blocks: seq<Req>) returns (block: Req, cursor: nat)
    requires IsMask(mask, lines) && start < |lines| && HeadingAt(lines, mask, start)
    ensures start < cursor <= |lines| && blocks + From(lines, start).1 == (blocks + [block]) + From(lines, cursor).1
  {
    var body;
    body, cursor := TakeBody(lines, mask, start + 1);
    block := Req(lines[start].name, TrimEnd(body));
    AHeading(lines, mask, start);
    assert blocks + ([block] + From(lines, cursor).1) == (blocks + [block]) + From(lines, cursor).1;
  }

  method SkipToHeading(lines: File, mask: seq<bool>, start: nat) returns (cursor: nat)
    requires IsMask(mask, lines) && start <= |lines|
    ensures start <= cursor <= |lines| && From(lines, cursor).1 == From(lines, start).1
    ensures cursor < |lines| ==> HeadingAt(lines, mask, cursor)
  {
    cursor := start;
    while cursor < |lines| && !HeadingAt(lines, mask, cursor)
      invariant start <= cursor <= |lines| && From(lines, cursor).1 == From(lines, start).1
    {
      NotAHeading(lines, mask, cursor);
      cursor := cursor + 1;
    }
  }

  /** The lines up to the next requirement heading. */
  method TakeBody(lines: File, mask: seq<bool>, start: nat) returns (body: File, cursor: nat)
    requires IsMask(mask, lines) && start <= |lines|
    ensures start <= cursor <= |lines| && From(lines, start) == (body, From(lines, cursor).1)
  {
    body, cursor := [], start;
    assert [] + From(lines, start).0 == From(lines, start).0;
    while cursor < |lines| && !HeadingAt(lines, mask, cursor)
      invariant start <= cursor <= |lines|
      invariant From(lines, start) == (body + From(lines, cursor).0, From(lines, cursor).1)
    {
      NotAHeading(lines, mask, cursor);
      assert body + ([lines[cursor]] + From(lines, cursor + 1).0) == (body + [lines[cursor]]) + From(lines, cursor + 1).0;
      body, cursor := body + [lines[cursor]], cursor + 1;
    }
    if cursor < |lines| { AHeading(lines, mask, cursor); } else { assert From(lines, cursor) == ([], []); }
    assert body + [] == body;
  }

  /** `extractRequirementsSection`: the parts of a spec, found by index over one mask. */
  method ExtractRequirementsSection(lines: File) returns (doc: Doc)
    ensures doc == Read(lines)
  {
    var mask := BuildCodeFenceMask(lines);
    assert lines[..0] == [] && lines[0..] == lines;
    var header := FindSection(lines, mask, 0, true);
    if header == |lines| { return Doc(TrimEnd(lines), REQUIREMENTS, [], [], []); }
    ClosedAfter(lines, header);
    var end := FindSection(lines, mask, header + 1, false);
    MaskSlice(mask, lines, header + 1, end);
    var preamble, blocks := ReadBlocks(lines[header + 1..end], mask[header + 1..end]);
    Slices(lines, header + 1, end);
    ReadsAs(lines, header, end - header - 1);
    doc := Doc(TrimEnd(lines[..header]), lines[header], Trim(preamble), blocks, TrimEnd(lines[end..]));
  }

  lemma ClosedAfter(lines: File, header: nat)
    requires header == SectionAt(Closed, lines, true) < |lines|
    ensures At(lines, header + 1) == Closed
  {
    BeforeSection(Closed, lines, true);
    Onward(lines, header);
  }

  /** The parts of a text by the places of its two headings. */
  lemma ReadsAs(lines: File, header: nat, j: nat)
    requires header == SectionAt(Closed, lines, true) < |lines| && j == SectionAt(Closed, lines[header + 1..], false)
    ensures var rest := lines[header + 1..];
            var (pre, reqs) := SplitBlocks(Closed, rest[..j]);
            Read(lines) == Doc(TrimEnd(lines[..header]), lines[header], Trim(pre), reqs, TrimEnd(rest[j..]))
  {
    hide SplitBlocks, SectionAt, Trim, TrimEnd;
  }

  lemma Slices(lines: File, from: nat, to: nat)
    requires from <= to <= |lines|
    ensures lines[from..to] == lines[from..][..to - from] && lines[to..] == lines[from..][to - from..]
  {
  }

  method ReadBlocks(body: File, mask: seq<bool>) returns (preamble: File, blocks: seq<Req>)
    requires IsMask(mask, body)
    ensures (preamble, blocks) == SplitBlocks(Closed, body)
  {
    assert body[..0] == [] && body[0..] == body;
    blocks := ParseBlocks(body, mask);
    var first;
    preamble, first := TakeBody(body, mask, 0);
  }

  method ScenarioNames(lines: File) returns (names: seq<string>)
    ensures multiset(names) == Scenarios(lines)
  {
    var mask := BuildCodeFenceMask(lines);
    names := [];
    assert lines[0..] == lines && lines[..0] == [];
    for index := 0 to |lines|
      invariant multiset(names) + ScenariosIn(At(lines, index), lines[index..]) == Scenarios(lines)
    {
      Onward(lines, index);
      assert lines[index..][1..] == lines[index + 1..];
      assert mask[index] <==> InFence(At(lines, index), lines[index]);
      if !mask[index] && lines[index].Scenario? { names := names + [lines[index].name]; }
    }
  }

  /** Counting one name off against those there are. */
  lemma TakeOne(there: multiset<string>, taken: multiset<string>, name: string)
    ensures var now := taken + multiset{name};
            if name in there - taken then there - now == there - taken - multiset{name} && now - there == taken - there
            else there - now == there - taken && now - there == taken - there + multiset{name}
  {
  }

  /** The names of `current` that `incoming` does not have, or has less often. */
  method MissingScenarioNames(current: File, incoming: File) returns (missing: seq<string>)
    ensures multiset(missing) == Scenarios(current) - Scenarios(incoming)
  {
    var there := ScenarioNames(incoming);
    var remaining := multiset(there);
    var names := ScenarioNames(current);
    missing := [];
    for i := 0 to |names|
      invariant remaining == Scenarios(incoming) - multiset(names[..i])
      invariant multiset(missing) == multiset(names[..i]) - Scenarios(incoming)
    {
      assert names[..i + 1] == names[..i] + [names[i]];
      TakeOne(Scenarios(incoming), multiset(names[..i]), names[i]);
      if names[i] in remaining {
        remaining := remaining - multiset{names[i]};
      } else {
        missing := missing + [names[i]];
      }
    }
    assert names[..|names|] == names;
  }
}
