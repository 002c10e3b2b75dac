/**
 Ticking the boxes of a change's task list: one task's boxes when it is done, all of them when the
 change is archived, and none of them in the form the approval seal hashes. Whitespace inside a line
 is a space or a tab.
 */
module Checkboxes {
  import opened Wrappers
  import opened Text

  predicate IsGap(c: char) {
    c == ' ' || c == '\t'
  }

  /** How many spaces and tabs `s` has from `from` on. */
  function GapRun(s: string, from: nat): (n: nat)
    requires from <= |s|
    ensures from + n <= |s|
    decreases |s| - from
  {
    if from == |s| || !IsGap(s[from]) then 0 else 1 + GapRun(s, from + 1)
  }

  // ---------- one line

  /** A bullet with a box: where its bracket opens, whether whitespace follows its dash, and its mark. */
  datatype Box = Box(open: nat, spaced: bool, mark: char)

  function BoxFrom(line: string, dash: nat, open: nat): Option<Box> {
    if dash < open && open + 2 < |line| && line[dash] == '-' && line[open] == '[' && line[open + 2] == ']'
    then Some(Box(open, open > dash + 1, line[open + 1])) else None
  }

  function BoxOf(line: string): (box: Option<Box>)
    ensures box.Some? ==> box.value.open + 2 < |line|
  {
    var dash := GapRun(line, 0);
    if dash == |line| then None else BoxFrom(line, dash, dash + 1 + GapRun(line, dash + 1))
  }

  function Marked(line: string, box: Box, mark: char): string
    requires box.open + 2 < |line|
  {
    line[box.open + 1 := mark]
  }

  /** The number `text` starts with, when an optional dot or parenthesis and then whitespace or the end follow. */
  function HeadingNumber(text: string): Option<nat> {
    var after := DigitRun(text);
    var next := if after < |text| && (text[after] == '.' || text[after] == ')') then after + 1 else after;
    if after > 0 && (next == |text| || IsGap(text[next])) then Some(Value(text[..after])) else None
  }

  predicate IsHeading(line: string) {
    |line| > 2 && line[0] == '#' && line[1] == '#' && IsGap(line[2]) && 2 + GapRun(line, 2) < |line|
  }

  /** The section a heading opens: its number, or none. */
  function SectionOf(line: string): Option<nat>
    requires IsHeading(line)
  {
    HeadingNumber(line[2 + GapRun(line, 2)..])
  }

  /** The number an item's text starts with: digits, a dot or parenthesis, then whitespace. */
  function OwnNumber(text: string): Option<nat> {
    var from := text[GapRun(text, 0)..];
    var after := DigitRun(from);
    if after > 0 && after + 1 < |from| && (from[after] == '.' || from[after] == ')') && IsGap(from[after + 1])
    then Some(Value(from[..after])) else None
  }

  /** The task a box stands for: its own number, or else its section's. */
  function TaskOf(line: string, box: Box, section: Option<nat>): Option<nat>
    requires box.open + 2 < |line|
  {
    var own := OwnNumber(line[box.open + 3..]);
    if own.Some? then own else section
  }

  /** One task's tick: an unticked item with whitespace after its dash, numbered for the task. */
  function TickLine(line: string, section: Option<nat>, target: nat): string {
    match BoxOf(line)
    case None => line
    case Some(box) =>
      if box.spaced && box.mark == ' ' && TaskOf(line, box, section) == Some(target) then Marked(line, box, 'x') else line
  }

  /** The archive's tick: every unticked box with whitespace after its dash. */
  function TickAnyLine(line: string): string {
    match BoxOf(line)
    case None => line
    case Some(box) => if box.spaced && box.mark == ' ' then Marked(line, box, 'x') else line
  }

  /** The seal's normal form: no ticked box. */
  function UntickLine(line: string): string {
    match BoxOf(line)
    case None => line
    case Some(box) => if box.mark == 'x' || box.mark == 'X' then Marked(line, box, ' ') else line
  }

  /** Text that differs only outside a stretch of whitespace has the same stretch. */
  lemma {:induction false} SameGapRun(s: string, t: string, from: nat, at: nat)
    requires from <= |s| == |t| && at < |s|
    requires forall k :: 0 <= k < |s| && k != at ==> s[k] == t[k]
    requires from + GapRun(s, from) < at
    ensures GapRun(t, from) == GapRun(s, from)
    decreases |s| - from
  {
    if from < |s| && IsGap(s[from]) {
      SameGapRun(s, t, from + 1, at);
    }
  }

  /** Changing a box's mark changes nothing else that is read off the line. */
  lemma MarkedBox(line: string, mark: char)
    requires BoxOf(line).Some?
    ensures BoxOf(Marked(line, BoxOf(line).value, mark)) == Some(BoxOf(line).value.(mark := mark))
  {
    var box := BoxOf(line).value;
    var marked := Marked(line, box, mark);
    var dash := GapRun(line, 0);
    SameGapRun(line, marked, 0, box.open + 1);
    SameGapRun(line, marked, dash + 1, box.open + 1);
  }

  lemma MarkedTask(line: string, box: Box, mark: char, section: Option<nat>)
    requires box.open + 2 < |line|
    ensures TaskOf(Marked(line, box, mark), box.(mark := mark), section) == TaskOf(line, box, section)
  {
    assert Marked(line, box, mark)[box.open + 3..] == line[box.open + 3..];
  }

  lemma HeadingHasNoBox(line: string)
    requires IsHeading(line)
    ensures BoxOf(line).None?
  {
  }

  // ---------- what a tick keeps, line by line

  /** Ticking a line for one task and then another, in either order or twice, is ticking it for both. */
  lemma TickLineLaws(line: string, section: Option<nat>, a: nat, b: nat)
    ensures TickLine(TickLine(line, section, a), section, a) == TickLine(line, section, a)
    ensures TickLine(TickLine(line, section, a), section, b) == TickLine(TickLine(line, section, b), section, a)
  {
    if BoxOf(line).Some? {
      var box := BoxOf(line).value;
      MarkedBox(line, 'x');
      MarkedTask(line, box, 'x', section);
    }
  }

  lemma TickLineForms(line: string, section: Option<nat>, target: nat)
    ensures UntickLine(TickLine(line, section, target)) == UntickLine(line)
    ensures TickAnyLine(TickLine(line, section, target)) == TickAnyLine(line)
    ensures TickLine(TickAnyLine(line), section, target) == TickAnyLine(line)
    ensures UntickLine(TickAnyLine(line)) == UntickLine(line)
  {
    if BoxOf(line).Some? {
      var box := BoxOf(line).value;
      MarkedBox(line, 'x');
      MarkedTask(line, box, 'x', section);
      assert Marked(Marked(line, box, 'x'), box.(mark := 'x'), ' ') == Marked(line, box, ' ');
      assert Marked(line, box, box.mark) == line;
    }
  }

  /** A ticked line is a heading exactly when it was, and opens the same section. */
  lemma TickLineKeepsHeading(line: string, section: Option<nat>, target: nat)
    ensures IsHeading(TickLine(line, section, target)) <==> IsHeading(line)
    ensures IsHeading(line) ==> TickLine(line, section, target) == line
  {
    if BoxOf(line).Some? { MarkedBox(line, 'x'); }
    if IsHeading(line) { HeadingHasNoBox(line); }
    if IsHeading(TickLine(line, section, target)) { HeadingHasNoBox(TickLine(line, section, target)); }
  }

  // ---------- whole files

  /** The section in force before line `i`: the last heading's number, if any. */
  function SectionAt(lines: seq<string>, i: nat): Option<nat>
    requires i <= |lines|
  {
    if i == 0 then None
    else if IsHeading(lines[i - 1]) then SectionOf(lines[i - 1])
    else SectionAt(lines, i - 1)
  }

  /** The first `n` lines, each ticked under its own section. */
  function TickedUpTo(lines: seq<string>, n: nat, target: nat): (r: seq<string>)
    requires n <= |lines|
    ensures |r| == n
  {
    if n == 0 then [] else TickedUpTo(lines, n - 1, target) + [TickLine(lines[n - 1], SectionAt(lines, n - 1), target)]
  }

  function TickLines(lines: seq<string>, target: nat): (r: seq<string>)
    ensures |r| == |lines|
  {
    TickedUpTo(lines, |lines|, target)
  }

  lemma {:induction false} TickedLine(lines: seq<string>, n: nat, target: nat, i: nat)
    requires i < n <= |lines|
    ensures TickedUpTo(lines, n, target)[i] == TickLine(lines[i], SectionAt(lines, i), target)
  {
    if i < n - 1 { TickedLine(lines, n - 1, target, i); }
  }

  function TickAnyLines(lines: seq<string>): (r: seq<string>)
    ensures |r| == |lines|
  {
    seq(|lines|, i requires 0 <= i < |lines| => TickAnyLine(lines[i]))
  }

  function UntickLines(lines: seq<string>): (r: seq<string>)
    ensures |r| == |lines|
  {
    seq(|lines|, i requires 0 <= i < |lines| => UntickLine(lines[i]))
  }

  function Lines(content: string): seq<string> {
    Split(content, '\n')
  }

  /** The content with one task's boxes ticked; a task number that is no number changes nothing. */
  function TickTask(content: string, target: Option<nat>): string {
    if target.None? then content else Join(TickLines(Lines(content), target.value), '\n')
  }

  function TickAll(content: string): string {
    Join(TickAnyLines(Lines(content)), '\n')
  }

  function Untick(content: string): string {
    Join(UntickLines(Lines(content)), '\n')
  }

  /** One line of the walk: what it becomes, whether that is a change, and the section after it. */
  method TickNext(line: string, section: Option<nat>, target: nat) returns (ticked: string, changed: bool, next: Option<nat>)
    ensures ticked == TickLine(line, section, target)
    ensures next == if IsHeading(line) then SectionOf(line) else section
    ensures !changed ==> ticked == line
  {
    ticked, changed, next := line, false, section;
    if IsHeading(line) {
      HeadingHasNoBox(line);
      next := SectionOf(line);
      return;
    }
    var box := BoxOf(line);
    if box.None? || !box.value.spaced || !(box.value.mark == ' ' || box.value.mark == 'x' || box.value.mark == 'X') { return; }
    var own := OwnNumber(line[box.value.open + 3..]);
    var identifier := if own.Some? then own else section;
    if identifier != Some(target) || box.value.mark != ' ' { return; }
    ticked, changed := line[box.value.open + 1 := 'x'], true;
  }

  method TickEach(lines: seq<string>, target: nat) returns (ticked: seq<string>, changed: bool)
    ensures ticked == TickLines(lines, target)
    ensures !changed ==> ticked == lines
  {
    var section: Option<nat> := None;
    ticked, changed := [], false;
    for i := 0 to |lines|
      invariant section == SectionAt(lines, i)
      invariant ticked == TickedUpTo(lines, i, target)
      invariant !changed ==> ticked == lines[..i]
    {
      var line, changes, next := TickNext(lines[i], section, target);
      section, changed, ticked := next, changed || changes, ticked + [line];
    }
    assert lines[..|lines|] == lines;
  }

  method TickTaskCheckboxContent(content: string, target: Option<nat>) returns (updated: string)
    ensures updated == TickTask(content, target)
  {
    if target.None? { return content; }
    var lines := Lines(content);
    var ticked, changed := TickEach(lines, target.value);
    JoinSplit(content, '\n');
    updated := if changed then Join(ticked, '\n') else content;
  }

  lemma {:induction false} TickKeepsSections(lines: seq<string>, target: nat, i: nat)
    requires i <= |lines|
    ensures SectionAt(TickLines(lines, target), i) == SectionAt(lines, i)
  {
    if i > 0 {
      var line, section := lines[i - 1], SectionAt(lines, i - 1);
      TickedLine(lines, |lines|, target, i - 1);
      TickLineKeepsHeading(line, section, target);
      TickKeepsSections(lines, target, i - 1);
    }
  }

  lemma TickAnyKeepsHeading(line: string)
    ensures IsHeading(TickAnyLine(line)) <==> IsHeading(line)
    ensures IsHeading(line) ==> TickAnyLine(line) == line
  {
    if BoxOf(line).Some? { MarkedBox(line, 'x'); }
    if IsHeading(line) { HeadingHasNoBox(line); }
    if IsHeading(TickAnyLine(line)) { HeadingHasNoBox(TickAnyLine(line)); }
  }

  lemma {:induction false} TickAnyKeepsSections(lines: seq<string>, i: nat)
    requires i <= |lines|
    ensures SectionAt(TickAnyLines(lines), i) == SectionAt(lines, i)
  {
    if i > 0 {
      assert TickAnyLines(lines)[i - 1] == TickAnyLine(lines[i - 1]);
      TickAnyKeepsHeading(lines[i - 1]);
      TickAnyKeepsSections(lines, i - 1);
    }
  }

  lemma TickLinesLaws(lines: seq<string>, a: nat, b: nat)
    ensures TickLines(TickLines(lines, a), a) == TickLines(lines, a)
    ensures TickLines(TickLines(lines, a), b) == TickLines(TickLines(lines, b), a)
    ensures UntickLines(TickLines(lines, a)) == UntickLines(lines)
    ensures TickAnyLines(TickLines(lines, a)) == TickAnyLines(lines)
    ensures TickLines(TickAnyLines(lines), a) == TickAnyLines(lines)
  {
    forall i | 0 <= i < |lines|
      ensures TickLines(TickLines(lines, a), a)[i] == TickLines(lines, a)[i]
      ensures TickLines(TickLines(lines, a), b)[i] == TickLines(TickLines(lines, b), a)[i]
      ensures UntickLines(TickLines(lines, a))[i] == UntickLines(lines)[i]
      ensures TickAnyLines(TickLines(lines, a))[i] == TickAnyLines(lines)[i]
      ensures TickLines(TickAnyLines(lines), a)[i] == TickAnyLines(lines)[i]
    {
      var section, n := SectionAt(lines, i), |lines|;
      TickKeepsSections(lines, a, i);
      TickKeepsSections(lines, b, i);
      TickAnyKeepsSections(lines, i);
      TickedLine(lines, n, a, i);
      TickedLine(lines, n, b, i);
      TickedLine(TickLines(lines, a), n, a, i);
      TickedLine(TickLines(lines, a), n, b, i);
      TickedLine(TickLines(lines, b), n, a, i);
      TickedLine(TickAnyLines(lines), n, a, i);
      TickLineLaws(lines[i], section, a, b);
      TickLineForms(lines[i], section, a);
    }
  }

  lemma MarkedStaysOneLine(line: string, box: Box, mark: char)
    requires '\n' !in line && mark != '\n' && box.open + 2 < |line|
    ensures '\n' !in Marked(line, box, mark)
  {
    var marked := Marked(line, box, mark);
    forall k | 0 <= k < |marked| ensures marked[k] != '\n' {
      assert k != box.open + 1 ==> marked[k] == line[k];
    }
  }

  /**
   Ticking is idempotent and order-independent, leaves the seal's normal form alone, and is absorbed
   by the archive's tick in either order.
   */
  lemma TickTaskLaws(content: string, a: Option<nat>, b: Option<nat>)
    ensures TickTask(TickTask(content, a), a) == TickTask(content, a)
    ensures TickTask(TickTask(content, a), b) == TickTask(TickTask(content, b), a)
    ensures Untick(TickTask(content, a)) == Untick(content)
    ensures TickAll(TickTask(content, a)) == TickAll(content)
    ensures TickTask(TickAll(content), a) == TickAll(content)
  {
    var lines := Lines(content);
    TickedLines(content, a);
    TickedLines(content, b);
    TickedAnyLines(content);
    if a.Some? { TickLinesLaws(lines, a.value, if b.Some? then b.value else 0); }
  }

  /** The archive's tick is invisible to the seal's normal form, and ticks nothing twice. */
  lemma TickAllForms(content: string)
    ensures Untick(TickAll(content)) == Untick(content) && TickAll(TickAll(content)) == TickAll(content)
  {
    var lines := Lines(content);
    TickedAnyLines(content);
    forall i | 0 <= i < |lines|
      ensures UntickLines(TickAnyLines(lines))[i] == UntickLines(lines)[i]
      ensures TickAnyLines(TickAnyLines(lines))[i] == TickAnyLines(lines)[i]
    {
      TickLineForms(lines[i], None, 0);
      if BoxOf(lines[i]).Some? { MarkedBox(lines[i], 'x'); }
    }
    assert UntickLines(TickAnyLines(lines)) == UntickLines(lines);
    assert TickAnyLines(TickAnyLines(lines)) == TickAnyLines(lines);
  }

  lemma TickedLines(content: string, a: Option<nat>)
    ensures Lines(TickTask(content, a)) == if a.None? then Lines(content) else TickLines(Lines(content), a.value)
  {
    var lines := Lines(content);
    PiecesHoldNoSeparator(content, '\n');
    if a.Some? {
      var ticked := TickLines(lines, a.value);
      forall i | 0 <= i < |ticked| ensures '\n' !in ticked[i] {
        TickedLine(lines, |lines|, a.value, i);
        if ticked[i] != lines[i] { MarkedStaysOneLine(lines[i], BoxOf(lines[i]).value, 'x'); }
      }
      SplitJoin(ticked, '\n');
    }
  }

  lemma TickedAnyLines(content: string)
    ensures Lines(TickAll(content)) == TickAnyLines(Lines(content))
  {
    var lines := Lines(content);
    PiecesHoldNoSeparator(content, '\n');
    var ticked := TickAnyLines(lines);
    forall i | 0 <= i < |ticked| ensures '\n' !in ticked[i] {
      if ticked[i] != lines[i] { MarkedStaysOneLine(lines[i], BoxOf(lines[i]).value, 'x'); }
    }
    SplitJoin(ticked, '\n');
  }

  /** A tick changes only the mark of an unticked item of that very task. */
  lemma OnlyItsMarksChange(content: string, target: nat, i: nat)
    requires i < |Lines(content)|
    ensures |Lines(TickTask(content, Some(target)))| == |Lines(content)|
    ensures var line, ticked := Lines(content)[i], Lines(TickTask(content, Some(target)))[i];
            ticked != line <==>
              && BoxOf(line).Some? && BoxOf(line).value.spaced && BoxOf(line).value.mark == ' '
              && TaskOf(line, BoxOf(line).value, SectionAt(Lines(content), i)) == Some(target)
    ensures var line, ticked := Lines(content)[i], Lines(TickTask(content, Some(target)))[i];
            ticked != line ==> ticked == Marked(line, BoxOf(line).value, 'x')
  {
    TickedLines(content, Some(target));
    TickedLine(Lines(content), |Lines(content)|, target, i);
    var line := Lines(content)[i];
    if BoxOf(line).Some? && BoxOf(line).value.mark == ' ' {
      assert Marked(line, BoxOf(line).value, 'x')[BoxOf(line).value.open + 1] == 'x';
    }
  }
}
