/**
 The heartbeat: counters advanced with only the text appended since the last poll, against a fresh
 fold over every complete line of the stream.
 */
module Heartbeat {
  import opened Wrappers
  import opened Text
  import opened LineReaders

  /** What one non-blank line parses to; a cost that is not a finite number is None. */
  datatype Event = Malformed | Tokens(total: real, cost: Option<real>) | Tool(summary: Option<string>) | Other

  datatype Stats = Stats(events: nat, tokens: real, tools: nat, cost: Option<real>, summary: Option<string>)

  const ZERO := Stats(0, 0.0, 0, None, None)

  function Count(stats: Stats, line: string, parse: string -> Event): Stats {
    if IsBlank(line) then stats else
      var counted := stats.(events := stats.events + 1);
      match parse(line)
      case Malformed => counted
      case Other => counted
      case Tokens(total, cost) =>
        counted.(tokens := stats.tokens + total,
                 cost := if cost.None? then stats.cost
                         else Some((if stats.cost.Some? then stats.cost.value else 0.0) + cost.value))
      case Tool(summary) =>
        counted.(tools := stats.tools + 1, summary := if summary.Some? then summary else stats.summary)
  }

  function Fold(lines: seq<string>, parse: string -> Event): Stats {
    if lines == [] then ZERO else Count(Fold(lines[..|lines| - 1], parse), lines[|lines| - 1], parse)
  }

  /** The batch definition: fold over every line of the stream that has its newline. */
  function Batch(stream: string, parse: string -> Event): Stats {
    Fold(Complete(stream), parse)
  }

  /** A partial last line changes nothing until its newline arrives. */
  lemma PartialLineWaits(stream: string, partial: string, parse: string -> Event)
    requires '\n' !in partial
    ensures Batch(stream + partial, parse) == Batch(stream, parse)
  {
    Grows(stream, partial);
    PiecesHoldNoSeparator(stream, '\n');
    SplitSingle(Tail(stream) + partial, '\n');
    assert Complete(stream) + [] == Complete(stream);
  }

  lemma RestWaits(stream: string, offset: nat, parse: string -> Event)
    requires offset <= |stream| && '\n' !in stream[offset..]
    ensures Batch(stream[..offset], parse) == Batch(stream, parse)
  {
    PartialLineWaits(stream[..offset], stream[offset..], parse);
    assert stream == stream[..offset] + stream[offset..];
  }

  /** Once it does, the whole line counts, once. */
  lemma PartialLineCounts(stream: string, partial: string, parse: string -> Event)
    requires '\n' !in partial
    ensures Batch(stream + partial + "\n", parse) == Count(Batch(stream, parse), Tail(stream) + partial, parse)
  {
    PiecesHoldNoSeparator(stream, '\n');
    assert stream + partial + "\n" == stream + (partial + "\n");
    Grows(stream, partial + "\n");
    SplitTerminated(Tail(stream) + partial, '\n');
    assert Tail(stream) + (partial + "\n") == (Tail(stream) + partial) + "\n";
    var before := Complete(stream);
    assert (before + [Tail(stream) + partial])[..|before|] == before;
  }

  lemma CompleteOfTerminated(text: string)
    requires text == [] || Last(text) == '\n'
    ensures Tail(text) == []
  {
    if text != [] {
      assert text == text[..|text| - 1] + ['\n'];
      Grows(text[..|text| - 1], "\n");
      PiecesHoldNoSeparator(text[..|text| - 1], '\n');
      SplitTerminated(Tail(text[..|text| - 1]), '\n');
    }
  }

  /** The position after the last newline of `text`. */
  function AfterLastNewline(text: string): (n: nat)
    ensures n <= |text| && (n == 0 || text[n - 1] == '\n')
    ensures '\n' !in text[n..]
  {
    if text == [] then 0 else if Last(text) == '\n' then |text| else AfterLastNewline(text[..|text| - 1])
  }

  /** `Emptied` is a stream emptied and polled before anything is appended to it. */
  datatype Op = Append(text: string) | Emptied | Poll | FailedRead | Clear

  /** One stream and the accumulator kept for it; None when the map holds none. */
  class Monitor {
    var stream: string
    var offset: nat
    var stats: Stats
    const parse: string -> Event

    ghost predicate Valid()
      reads this
    {
      offset <= |stream| ==>
        && (offset == 0 || stream[offset - 1] == '\n')
        && stats == Batch(stream[..offset], parse)
    }

    constructor (parse: string -> Event)
      ensures Valid() && stream == [] && this.parse == parse
    {
      stream, offset, stats, this.parse := [], 0, ZERO, parse;
    }

    /** A missing file or a finished task drops the accumulator. */
    method Reset()
      modifies this`offset, this`stats
      ensures Valid() && offset == 0
    {
      offset, stats := 0, ZERO;
    }

    /** The line loop of a poll. */
    method CountLines(lines: seq<string>, ghost done: seq<string>)
      requires stats == Fold(done, parse)
      modifies this`stats
      ensures stats == Fold(done + lines, parse)
    {
      var i := 0;
      assert done + lines[..0] == done;
      while i < |lines|
        invariant i <= |lines| && stats == Fold(done + lines[..i], parse)
      {
        assert done + lines[..i + 1] == (done + lines[..i]) + [lines[i]];
        assert (done + lines[..i + 1])[..|done| + i] == done + lines[..i];
        stats := Count(stats, lines[i], parse);
        i := i + 1;
      }
      assert lines[..i] == lines;
    }

    /** Count the lines that were completed since the last poll. */
    method Advance()
      requires Valid() && offset <= |stream|
      modifies this`offset, this`stats
      ensures Valid() && offset <= |stream| && '\n' !in stream[offset..]
    {
      var end := AfterLastNewline(stream[offset..]);
      FreshLines(stream, offset, end);
      if end > 0 {
        CountLines(Split(stream[offset..][..end - 1], '\n'), Complete(stream[..offset]));
        offset := offset + end;
      }
    }

    /** `computeTaskHeartbeatStats` on a readable stream. */
    method DoPoll() returns (shown: Stats)
      requires Valid()
      modifies this`offset, this`stats
      ensures Valid() && offset <= |stream| && shown == Batch(stream, parse) && shown == stats
    {
      if offset > |stream| { Reset(); }
      Advance();
      RestWaits(stream, offset, parse);
      shown := stats;
    }

    /**
     Any interleaving of appends, polls, failed reads, clears and of streams emptied: every poll shows
     the batch result of the stream as it is then.
     */
    method Run(ops: seq<Op>) returns (shown: seq<Stats>)
      requires Valid() && offset <= |stream|
      modifies this
      ensures Valid() && stream == After(old(stream), ops)
      ensures shown == Expected(old(stream), ops, parse)
    {
      shown := [];
      var i := 0;
      while i < |ops|
        invariant i <= |ops| && Valid() && offset <= |stream| && stream == After(old(stream), ops[..i])
        invariant shown == Expected(old(stream), ops[..i], parse)
      {
        assert ops[..i + 1][..i] == ops[..i];
        match ops[i] {
          case Append(text) =>
            ghost var was := stream;
            stream := stream + text;
            assert stream[..offset] == was[..offset];
          case Emptied =>
            stream := [];
            var now := DoPoll();
            shown := shown + [now];
          case Poll =>
            var now := DoPoll();
            shown := shown + [now];
          case FailedRead =>
            Reset();
            shown := shown + [ZERO];
          case Clear => Reset();
        }
        i := i + 1;
      }
      assert ops[..i] == ops;
    }
  }

  lemma TerminatedLines(text: string)
    ensures Complete(text + "\n") == Split(text, '\n')
  {
    Grows(text, "\n");
    PiecesHoldNoSeparator(text, '\n');
    SplitTerminated(Tail(text), '\n');
  }

  /** The lines between the counted offset and the last newline are the new complete lines. */
  lemma FreshLines(stream: string, offset: nat, end: nat)
    requires offset <= |stream| && (offset == 0 || stream[offset - 1] == '\n')
    requires end == AfterLastNewline(stream[offset..])
    ensures '\n' !in stream[offset + end..]
    ensures end > 0 ==> stream[offset + end - 1] == '\n'
    ensures end > 0 ==>
      Complete(stream[..offset + end]) == Complete(stream[..offset]) + Split(stream[offset..][..end - 1], '\n')
  {
    var done, added := stream[..offset], stream[offset..];
    assert stream[offset + end..] == added[end..];
    CompleteOfTerminated(done);
    if end > 0 {
      assert stream[..offset + end] == done + added[..end];
      assert added[..end] == added[..end - 1] + ['\n'];
      Grows(done, added[..end]);
      assert [] + added[..end] == added[..end];
      TerminatedLines(added[..end - 1]);
    }
  }

  /** The stream after `ops`. */
  function After(stream: string, ops: seq<Op>): string {
    if ops == [] then stream
    else
      var before, op := After(stream, ops[..|ops| - 1]), ops[|ops| - 1];
      if op.Append? then before + op.text else if op.Emptied? then [] else before
  }

  /** What each poll must show: the batch result of the stream at that moment, zero for a failed read. */
  function Expected(stream: string, ops: seq<Op>, parse: string -> Event): seq<Stats> {
    if ops == [] then []
    else
      var front, op := ops[..|ops| - 1], ops[|ops| - 1];
      Expected(stream, front, parse) +
      if op.Poll? || op.Emptied? then [Batch(After(stream, ops), parse)] else if op.FailedRead? then [ZERO] else []
  }
}
