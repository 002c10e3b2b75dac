/**
 The own-folder gate: blank every comment with an index-jumping scan, then report the lines that
 still name the change folder. The scan is proved against an automaton that reads one character at
 a time.
 */
module OwnFolderGate {
  import opened Wrappers
  import opened Text

  // ---------- the automaton

  /** `Open` and `Close` are the second characters of a comment's opening and of a block's closing. */
  datatype Mode = Code | Open(line: bool) | Line | Block | Close

  /** Whether the two characters at `i` are `a` and `b`. */
  predicate Pair(text: string, i: nat, a: char, b: char) {
    i + 1 < |text| && text[i] == a && text[i + 1] == b
  }

  function Step(mode: Mode, text: string, i: nat): Mode
    requires i < |text|
  {
    match mode
    case Code => if Pair(text, i, '/', '*') then Open(false) else if Pair(text, i, '/', '/') then Open(true) else Code
    case Open(line) => if line then Line else Block
    case Line => if text[i] == '\n' then Code else Line
    case Block => if Pair(text, i, '*', '/') then Close else Block
    case Close => Code
  }

  /** The automaton's mode before it reads character `i`. */
  function ModeAt(text: string, i: nat): Mode
    requires i <= |text|
  {
    if i == 0 then Code else Step(ModeAt(text, i - 1), text, i - 1)
  }

  /** Whether character `i` belongs to a comment. A line comment ends before its newline. */
  predicate InComment(text: string, i: nat)
    requires i < |text|
  {
    match ModeAt(text, i)
    case Code => Pair(text, i, '/', '*') || Pair(text, i, '/', '/')
    case Line => text[i] != '\n'
    case _ => true
  }

  /** What the gate sees at `i`: the character itself outside comments, else a space or the newline. */
  function Visible(text: string, i: nat): char
    requires i < |text|
  {
    if InComment(text, i) && text[i] != '\n' then ' ' else text[i]
  }

  // ---------- the scan

  /** The first `*` followed by `/` at or after `from`. */
  function IndexOfClose(text: string, from: nat): (r: Option<nat>)
    requires from <= |text|
    ensures r.Some? ==> r.value >= from && Pair(text, r.value, '*', '/')
    ensures forall k | from <= k < (if r.Some? then r.value else |text|) :: !Pair(text, k, '*', '/')
    decreases |text| - from
  {
    if from == |text| then None
    else if Pair(text, from, '*', '/') then Some(from)
    else IndexOfClose(text, from + 1)
  }

  /** The first newline at or after `from`. */
  function IndexOfNewline(text: string, from: nat): (r: Option<nat>)
    requires from <= |text|
    ensures r.Some? ==> from <= r.value < |text| && text[r.value] == '\n'
    ensures forall k | from <= k < (if r.Some? then r.value else |text|) :: text[k] != '\n'
    decreases |text| - from
  {
    if from == |text| then None
    else if text[from] == '\n' then Some(from)
    else IndexOfNewline(text, from + 1)
  }

  lemma {:induction false} BlockRuns(text: string, i: nat, j: nat)
    requires i <= j <= |text| && ModeAt(text, i) == Block
    requires forall k | i <= k < j :: !Pair(text, k, '*', '/')
    ensures forall k | i <= k <= j :: ModeAt(text, k) == Block
  {
    if i < j {
      BlockRuns(text, i, j - 1);
    }
  }

  lemma {:induction false} LineRuns(text: string, i: nat, j: nat)
    requires i <= j <= |text| && ModeAt(text, i) == Line
    requires forall k | i <= k < j :: text[k] != '\n'
    ensures forall k | i <= k <= j :: ModeAt(text, k) == Line
  {
    if i < j {
      LineRuns(text, i, j - 1);
    }
  }

  /** The block comment that opens at `i` is exactly what the jump to its close skips. */
  lemma BlockExtent(text: string, i: nat)
    requires i < |text| && ModeAt(text, i) == Code && Pair(text, i, '/', '*')
    ensures var close := IndexOfClose(text, i + 2); var end := if close.Some? then close.value + 2 else |text|;
            && i < end <= |text|
            && (forall k | i <= k < end :: InComment(text, k))
            && (end < |text| ==> ModeAt(text, end) == Code)
  {
    var close := IndexOfClose(text, i + 2);
    assert ModeAt(text, i + 1) == Open(false) && ModeAt(text, i + 2) == Block;
    if close.Some? {
      BlockRuns(text, i + 2, close.value);
      assert ModeAt(text, close.value + 1) == Close;
    } else {
      BlockRuns(text, i + 2, |text|);
    }
  }

  /** The line comment that opens at `i` runs to its newline, which it does not hold. */
  lemma LineExtent(text: string, i: nat)
    requires i < |text| && ModeAt(text, i) == Code && Pair(text, i, '/', '/')
    ensures var newline := IndexOfNewline(text, i + 2); var end := if newline.Some? then newline.value else |text|;
            && i < end <= |text|
            && (forall k | i <= k < end :: InComment(text, k) && text[k] != '\n')
            && (end < |text| ==> ModeAt(text, end) == Line && text[end] == '\n')
  {
    var newline := IndexOfNewline(text, i + 2);
    var end := if newline.Some? then newline.value else |text|;
    assert ModeAt(text, i + 1) == Open(true) && ModeAt(text, i + 2) == Line;
    LineRuns(text, i + 2, end);
  }

  /** `chars` shows the first `n` characters as the gate sees them and the rest as they are. */
  ghost predicate Shown(chars: array<char>, text: string, n: nat)
    reads chars
  {
    && chars.Length == |text|
    && (forall i | 0 <= i < |text| && i < n :: chars[i] == Visible(text, i))
    && (forall i | 0 <= i < |text| && i >= n :: chars[i] == text[i])
  }

  /** The cursor loop over one comment. */
  method BlankRange(chars: array<char>, text: string, index: nat, end: nat)
    requires index <= end <= |text| && Shown(chars, text, index)
    requires forall k | index <= k < end :: InComment(text, k)
    modifies chars
    ensures Shown(chars, text, end)
  {
    var cursor := index;
    while cursor < end
      invariant index <= cursor <= end && Shown(chars, text, cursor)
    {
      if chars[cursor] != '\n' { chars[cursor] := ' '; }
      cursor := cursor + 1;
    }
  }

  /** `blankComments`. */
  method BlankComments(text: string) returns (blanked: string)
    ensures |blanked| == |text|
    ensures forall i | 0 <= i < |text| :: blanked[i] == Visible(text, i)
  {
    var chars := new char[|text|];
    forall i | 0 <= i < |text| { chars[i] := text[i]; }
    var index := 0;
    while index < |text|
      invariant index <= |text| && Shown(chars, text, index)
      invariant index < |text| ==> ModeAt(text, index) == Code || (ModeAt(text, index) == Line && text[index] == '\n')
    {
      if Pair(text, index, '/', '*') {
        BlockExtent(text, index);
        var close := IndexOfClose(text, index + 2);
        var end := if close == None then |text| else close.value + 2;
        BlankRange(chars, text, index, end);
        index := end;
      } else if Pair(text, index, '/', '/') {
        LineExtent(text, index);
        var newline := IndexOfNewline(text, index + 2);
        var end := if newline == None then |text| else newline.value;
        BlankRange(chars, text, index, end);
        index := end;
      } else {
        assert index + 1 < |text| ==> ModeAt(text, index + 1) == Code;
        index := index + 1;
      }
    }
    blanked := chars[..];
  }

  // ---------- lines

  /** Whether `folder` stands in `line` with no name character on either side. */
  predicate Names(line: string, folder: string, edge: char -> bool) {
    exists k | 0 <= k <= |line| - |folder| :: StandsAt(line, folder, edge, k)
  }

  predicate StandsAt(line: string, folder: string, edge: char -> bool, k: nat) {
    && k + |folder| <= |line| && line[k..k + |folder|] == folder
    && (k > 0 ==> !edge(line[k - 1]))
    && (k + |folder| < |line| ==> !edge(line[k + |folder|]))
  }

  /** Where line `n` of a split text starts. */
  function Offset(lines: seq<string>, n: nat): nat
    requires n <= |lines|
  {
    if n == 0 then 0 else Offset(lines, n - 1) + |lines[n - 1]| + 1
  }

  lemma {:induction false} OffsetTail(lines: seq<string>, n: nat)
    requires 0 < n <= |lines|
    ensures Offset(lines, n) == |lines[0]| + 1 + Offset(lines[1..], n - 1)
  {
    if n > 1 {
      OffsetTail(lines, n - 1);
    } else {
      assert Offset(lines, 1) == Offset(lines, 0) + |lines[0]| + 1;
    }
  }

  /** Line `n` of a split text is the stretch of the text that starts at its offset. */
  lemma {:induction false} LineIsStretch(text: string, n: nat)
    requires n < |Split(text, '\n')|
    ensures var lines := Split(text, '\n');
            Offset(lines, n) + |lines[n]| <= |text| &&
            text[Offset(lines, n)..Offset(lines, n) + |lines[n]|] == lines[n]
  {
    if text != [] {
      var lines, rest := Split(text, '\n'), Split(text[1..], '\n');
      assert text == [text[0]] + text[1..];
      if text[0] == '\n' {
        if n > 0 {
          LineIsStretch(text[1..], n - 1);
          OffsetTail(lines, n);
          assert lines[1..] == rest;
        }
      } else {
        LineIsStretch(text[1..], n);
        if n > 0 {
          OffsetTail(lines, n);
          OffsetTail(rest, n);
          assert lines[1..] == rest[1..];
        } else {
          assert text[1..][..|rest[0]|] == rest[0];
          assert text[..1 + |rest[0]|] == [text[0]] + text[1..][..|rest[0]|];
        }
      }
    }
  }

  /** Texts of one length with newlines at the same positions split into lines of the same lengths. */
  lemma {:induction false} SplitsAlike(a: string, b: string)
    requires |a| == |b| && forall i | 0 <= i < |a| :: a[i] == '\n' <==> b[i] == '\n'
    ensures |Split(a, '\n')| == |Split(b, '\n')|
    ensures forall n | 0 <= n < |Split(a, '\n')| :: |Split(a, '\n')[n]| == |Split(b, '\n')[n]|
  {
    if a != [] {
      SplitsAlike(a[1..], b[1..]);
    }
  }

  lemma {:induction false} OffsetsAlike(a: seq<string>, b: seq<string>, n: nat)
    requires |a| == |b| && n <= |a| && forall k | 0 <= k < |a| :: |a[k]| == |b[k]|
    ensures Offset(a, n) == Offset(b, n)
  {
    if n > 0 { OffsetsAlike(a, b, n - 1); }
  }

  /** Line `n` (from 0) of the source, each character as the gate sees it. */
  ghost function SeenLine(text: string, n: nat): (seen: string)
    requires n < |Split(text, '\n')|
    ensures |seen| == |Split(text, '\n')[n]| && Offset(Split(text, '\n'), n) + |seen| <= |text|
    ensures forall k | 0 <= k < |seen| :: seen[k] == Visible(text, Offset(Split(text, '\n'), n) + k)
  {
    LineIsStretch(text, n);
    var start, length := Offset(Split(text, '\n'), n), |Split(text, '\n')[n]|;
    seq(length, k requires 0 <= k < length => Visible(text, start + k))
  }

  /** Line `n` (from 1) of `text` names `folder` in what the gate sees of it. */
  ghost predicate VisiblyNames(text: string, folder: string, edge: char -> bool, n: nat) {
    1 <= n <= |Split(text, '\n')| && Names(SeenLine(text, n - 1), folder, edge)
  }

  lemma BlankedLine(text: string, blanked: string, n: nat)
    requires |blanked| == |text| && forall i | 0 <= i < |text| :: blanked[i] == Visible(text, i)
    requires n < |Split(text, '\n')|
    ensures |Split(blanked, '\n')| == |Split(text, '\n')| && Split(blanked, '\n')[n] == SeenLine(text, n)
  {
    SplitsAlike(text, blanked);
    OffsetsAlike(Split(text, '\n'), Split(blanked, '\n'), n);
    LineIsStretch(blanked, n);
    Stretch(text, blanked, Offset(Split(text, '\n'), n), Split(blanked, '\n')[n], SeenLine(text, n));
  }

  lemma Stretch(text: string, blanked: string, start: nat, line: string, seen: string)
    requires |blanked| == |text| && forall i | 0 <= i < |text| :: blanked[i] == Visible(text, i)
    requires |seen| == |line| && start + |line| <= |text| && blanked[start..start + |line|] == line
    requires forall k | 0 <= k < |seen| :: seen[k] == Visible(text, start + k)
    ensures line == seen
  {
    hide Visible;
    forall k | 0 <= k < |seen| ensures line[k] == seen[k] {
      assert line[k] == blanked[start + k];
    }
  }

  /** The numbers, from 1, of the lines that name the folder. */
  method NamingLines(lines: seq<string>, folder: string, edge: char -> bool) returns (found: seq<nat>)
    ensures forall n: nat :: n in found <==> 1 <= n <= |lines| && Names(lines[n - 1], folder, edge)
    ensures forall i, j | 0 <= i < j < |found| :: found[i] < found[j]
  {
    found := [];
    var index := 0;
    while index < |lines|
      invariant index <= |lines|
      invariant forall n: nat :: n in found <==> 1 <= n <= index && Names(lines[n - 1], folder, edge)
      invariant forall i | 0 <= i < |found| :: found[i] <= index
      invariant forall i, j | 0 <= i < j < |found| :: found[i] < found[j]
    {
      if Names(lines[index], folder, edge) { found := found + [index + 1]; }
      index := index + 1;
    }
  }

  /** `findOwnFolderLines`: exactly the source lines that visibly name the folder, in order. */
  method FindOwnFolderLines(text: string, folder: string, edge: char -> bool) returns (found: seq<nat>)
    ensures folder == [] ==> found == []
    ensures folder != [] ==> forall n: nat :: n in found <==> VisiblyNames(text, folder, edge, n)
    ensures forall i, j | 0 <= i < j < |found| :: found[i] < found[j]
  {
    if |folder| == 0 { return []; }
    var blanked := BlankComments(text);
    var lines := Split(blanked, '\n');
    BlankedLine(text, blanked, 0);
    forall n | 0 <= n < |lines| ensures lines[n] == SeenLine(text, n)
    {
      BlankedLine(text, blanked, n);
    }
    found := NamingLines(lines, folder, edge);
  }

  /**
   For a folder name without spaces a reported line holds the folder itself, in source characters
   that are all outside comments.
   */
  lemma ReportedOutsideComments(text: string, folder: string, edge: char -> bool, n: nat)
    requires VisiblyNames(text, folder, edge, n) && ' ' !in folder && '\n' !in folder
    ensures exists at :: HoldsOutsideComments(text, folder, n, at)
  {
    var seen := SeenLine(text, n - 1);
    var k :| 0 <= k <= |seen| - |folder| && StandsAt(seen, folder, edge, k);
    var at := Offset(Split(text, '\n'), n - 1) + k;
    forall i | at <= i < at + |folder| ensures text[i] == folder[i - at] && !InComment(text, i) {
      assert folder[i - at] == seen[i - at + k] == Visible(text, i);
      assert folder[i - at] in folder;
    }
    assert HoldsOutsideComments(text, folder, n, at);
  }

  ghost predicate HoldsOutsideComments(text: string, folder: string, n: nat, at: nat) {
    var lines := Split(text, '\n');
    && 1 <= n <= |lines|
    && Offset(lines, n - 1) <= at && at + |folder| <= Offset(lines, n - 1) + |lines[n - 1]| <= |text|
    && forall i | at <= i < at + |folder| :: text[i] == folder[i - at] && !InComment(text, i)
  }

  /** Blanking keeps every newline in place and adds none. */
  lemma NewlinesStay(text: string, i: nat)
    requires i < |text|
    ensures Visible(text, i) == '\n' <==> text[i] == '\n'
    ensures Visible(text, i) == text[i] || (Visible(text, i) == ' ' && InComment(text, i))
  {
  }
}
