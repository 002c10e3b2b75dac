/**
 The three line readers: the harness event stream, the MCP session on stdin, and the NDJSON answer
 of a forwarded command. Each buffers arbitrary chunks; each is proved to see the lines of the
 whole text. The promise chains that run handlers one at a time are modelled link by link.
 */
module LineReaders {
  import opened Wrappers
  import opened Text

  /** The lines of a text that end in a newline. */
  function Complete(text: string): seq<string> { Init(Split(text, '\n')) }

  /** What follows the last newline. */
  function Tail(text: string): string { Last(Split(text, '\n')) }

  lemma Grows(text: string, chunk: string)
    ensures Complete(text + chunk) == Complete(text) + Complete(Tail(text) + chunk)
    ensures Tail(text + chunk) == Tail(Tail(text) + chunk)
  {
    SplitConcat(text, chunk, '\n');
  }

  /** A text cut into chunks. */
  function Whole(chunks: seq<string>): string {
    if chunks == [] then [] else Whole(chunks[..|chunks| - 1]) + chunks[|chunks| - 1]
  }

  function NonBlank(lines: seq<string>): seq<string> {
    if lines == [] then []
    else NonBlank(lines[..|lines| - 1]) + (if IsBlank(lines[|lines| - 1]) then [] else [lines[|lines| - 1]])
  }

  lemma {:induction false} NonBlankConcat(a: seq<string>, b: seq<string>)
    ensures NonBlank(a + b) == NonBlank(a) + NonBlank(b)
  {
    if b == [] {
      assert a + b == a;
    } else {
      assert (a + b)[..|a + b| - 1] == a + b[..|b| - 1];
      NonBlankConcat(a, b[..|b| - 1]);
    }
  }

  // ---------- a chain of `then`s

  /** One link of a promise chain: not called yet, its handler running, or settled. */
  datatype Link = Waiting | Running | Fulfilled | Rejected

  class PromiseChain<T> {
    var items: seq<T>
    var links: seq<Link>
    ghost var front: nat             // how many links have settled
    ghost var fault: Option<nat>     // the link whose handler threw instead of returning a promise
    ghost var calls: seq<T>          // the items whose handlers were called, in call order

    ghost predicate Valid()
      reads this
    {
      && |links| == |items| && front <= |links|
      && (forall i | 0 <= i < front :: links[i].Fulfilled? || links[i].Rejected?)
      && (front < |links| ==> links[front].Waiting? || links[front].Running?)
      && (forall i | front < i < |links| :: links[i].Waiting?)
      && match fault
         case None =>
           && (forall i | 0 <= i < front :: links[i].Fulfilled?)
           && calls == items[..if front < |links| && links[front].Running? then front + 1 else front]
         case Some(at) =>
           && at < front && calls == items[..at + 1]
           && (forall i | at <= i < front :: links[i].Rejected?)
           && (front < |links| ==> links[front].Waiting?)
    }

    constructor ()
      ensures Valid() && items == [] && fault == None && calls == []
    {
      items, links, front, fault, calls := [], [], 0, None, [];
    }

    /** `pending = pending.then(() => onLine(item).catch(() => {}))`. */
    method Then(item: T)
      requires Valid()
      modifies this
      ensures Valid() && items == old(items) + [item] && fault == old(fault) && calls == old(calls)
    {
      items, links := items + [item], links + [Waiting];
    }

    /** Link `i` may react: the promise before it has settled. */
    predicate Ready(i: nat)
      reads this
    {
      i < |links| && links[i].Waiting? && (i == 0 || (i <= |links| && (links[i - 1].Fulfilled? || links[i - 1].Rejected?)))
    }

    /** The event loop lets link `i` react, whichever link it picks. A rejection passes by the handler. */
    method React(i: nat)
      requires Valid() && |items| == |links|
      modifies this
      ensures Valid() && items == old(items)
      ensures fault == old(fault)
      ensures links == if !old(Ready(i)) then old(links)
                       else old(links)[i := if i > 0 && old(links[i - 1]).Rejected? then Rejected else Running]
    {
      if !Ready(i) { return; }
      if i > 0 && links[i - 1].Rejected? {
        links, front := links[i := Rejected], front + 1;
      } else {
        links, calls := links[i := Running], calls + [items[i]];
      }
    }

    /** The running handler ends; `threw` when it threw before giving a promise, else its promise settles. */
    method Settle(i: nat, threw: bool)
      requires Valid()
      modifies this
      ensures Valid() && items == old(items)
      ensures !threw ==> fault == old(fault)
      ensures links == if i < |old(links)| && old(links)[i].Running?
                       then old(links)[i := if threw then Rejected else Fulfilled] else old(links)
    {
      if i >= |links| || !links[i].Running? { return; }
      links, front := links[i := if threw then Rejected else Fulfilled], front + 1;
      if threw { fault := Some(i); }
    }

    /** Handlers run one at a time, in order. */
    lemma OneAtATime()
      requires Valid()
      ensures forall i, j | 0 <= i < |links| && 0 <= j < |links| && links[i].Running? && links[j].Running? :: i == j
      ensures calls <= items
      ensures front == |links| && fault == None ==> calls == items
      ensures fault.Some? ==> |calls| == fault.value + 1
    {
    }
  }

  // ---------- EventStreamParser

  datatype StreamOp = Feed(chunk: string) | Flush | React(link: nat) | Settle(link: nat, threw: bool)

  class EventStreamParser {
    var buffer: string
    const chain: PromiseChain<string>
    /** Everything fed so far; a flush ends the line it finds. */
    ghost var fed: string

    ghost predicate Valid()
      reads this, chain
    {
      chain.Valid() && buffer == Tail(fed) && chain.items == NonBlank(Complete(fed))
    }

    constructor ()
      ensures Valid() && fed == [] && fresh(chain)
      ensures chain.fault == None
    {
      var c := new PromiseChain<string>();
      buffer, chain, fed := [], c, [];
    }

    method Enqueue(line: string)
      requires chain.Valid()
      modifies chain
      ensures chain.Valid() && chain.items == old(chain.items) + NonBlank([line])
      ensures chain.fault == old(chain.fault)
    {
      assert NonBlank([line]) == NonBlank([]) + (if IsBlank(line) then [] else [line]);
      if IsBlank(line) { return; }
      chain.Then(line);
    }

    method DoFeed(chunk: string)
      requires Valid()
      modifies this, chain
      ensures Valid() && fed == old(fed) + chunk && chain.fault == old(chain.fault)
    {
      Grows(fed, chunk);
      var lines := Split(buffer + chunk, '\n');
      var i := 0;
      while i < |lines| - 1
        invariant 0 <= i <= |lines| - 1 && buffer == old(buffer) && fed == old(fed)
        invariant chain.Valid() && chain.items == old(chain.items) + NonBlank(lines[..i])
        invariant chain.fault == old(chain.fault)
      {
        Enqueue(lines[i]);
        NonBlankConcat(lines[..i], [lines[i]]);
        assert lines[..i + 1] == lines[..i] + [lines[i]];
        i := i + 1;
      }
      NonBlankConcat(Complete(fed), Init(lines));
      buffer := Last(lines);
      fed := fed + chunk;
    }

    /** `flush` up to the await: the tail becomes a line unless it is blank. */
    method DoFlush()
      requires Valid()
      modifies this, chain
      ensures Valid() && fed == old(fed) + "\n" && buffer == [] && chain.fault == old(chain.fault)
    {
      Grows(fed, "\n");
      PiecesHoldNoSeparator(fed, '\n');
      SplitTerminated(buffer, '\n');
      NonBlankConcat(Complete(fed), [buffer]);
      Enqueue(buffer);
      buffer := [];
      fed := fed + "\n";
    }

    method Apply(op: StreamOp)
      requires Valid()
      modifies this, chain
      ensures Valid() && fed == old(fed) + TextOfOp(op)
      ensures (op.Settle? && op.threw) || chain.fault == old(chain.fault)
    {
      match op
      case Feed(chunk) => DoFeed(chunk);
      case Flush => DoFlush();
      case React(link) => chain.React(link); assert fed + [] == fed;
      case Settle(link, threw) => chain.Settle(link, threw); assert fed + [] == fed;
    }

    /**
     Any interleaving of chunks, flushes and event-loop turns. The chain holds the non-blank lines of
     the whole text in order; once it has drained, every one was handled exactly when no handler threw
     outright, and a rejected promise never stops the rest.
     */
    method Run(ops: seq<StreamOp>)
      requires Valid() && chain.fault == None
      modifies this, chain
      ensures Valid() && fed == old(fed) + TextOf(ops)
      ensures (forall i | 0 <= i < |ops| :: ops[i].Settle? ==> !ops[i].threw) ==> chain.fault == None
      ensures chain.front == |chain.links| && chain.fault == None ==> chain.calls == NonBlank(Complete(fed))
    {
      var i := 0;
      while i < |ops|
        invariant i <= |ops| && Valid() && fed == old(fed) + TextOf(ops[..i])
        invariant (forall k | 0 <= k < i :: ops[k].Settle? ==> !ops[k].threw) ==> chain.fault == None
      {
        assert ops[..i + 1][..i] == ops[..i];
        Apply(ops[i]);
        i := i + 1;
      }
      assert ops[..i] == ops;
      chain.OneAtATime();
    }
  }

  function TextOfOp(op: StreamOp): string {
    if op.Feed? then op.chunk else if op.Flush? then "\n" else []
  }

  /** The text a run of operations amounts to. */
  function TextOf(ops: seq<StreamOp>): string {
    if ops == [] then []
    else TextOf(ops[..|ops| - 1]) + TextOfOp(ops[|ops| - 1])
  }

  // ---------- the MCP session

  /** `readLines`: every line, blank ones too, and a last line without a newline unless it is empty. */
  method ReadLines(chunks: seq<string>) returns (delivered: seq<string>)
    ensures delivered == Complete(Whole(chunks)) + if Tail(Whole(chunks)) == [] then [] else [Tail(Whole(chunks))]
  {
    delivered := [];
    var buffer := [];
    var i := 0;
    while i < |chunks|
      invariant i <= |chunks|
      invariant delivered == Complete(Whole(chunks[..i])) && buffer == Tail(Whole(chunks[..i]))
    {
      assert chunks[..i + 1][..i] == chunks[..i];
      Grows(Whole(chunks[..i]), chunks[i]);
      var lines := Split(buffer + chunks[i], '\n');
      delivered, buffer := delivered + Init(lines), Last(lines);
      i := i + 1;
    }
    assert chunks[..i] == chunks;
    if |buffer| > 0 { delivered := delivered + [buffer]; }
  }

  /** No character is lost: the delivered lines and the newlines between them are the text. */
  lemma DeliveredLinesRebuildText(text: string)
    ensures Join(Complete(text) + [Tail(text)], '\n') == text
  {
    JoinSplit(text, '\n');
    InitAndLast(Split(text, '\n'));
  }

  /** What one line of a session is: not JSON, a `tools/call`, or any other message. */
  datatype Message = NotJson | ToolCall | Other

  function Those(lines: seq<string>, classify: string -> Message, tool: bool): seq<string> {
    if lines == [] then []
    else
      var front, last := Those(lines[..|lines| - 1], classify, tool), lines[|lines| - 1];
      if classify(last).ToolCall? == tool then front + [last] else front
  }

  datatype SessionOp = Line(line: string) | Turn(link: nat) | Ends(link: nat)

  function LinesOf(ops: seq<SessionOp>): seq<string> {
    if ops == [] then []
    else LinesOf(ops[..|ops| - 1]) + (if ops[|ops| - 1].Line? then [ops[|ops| - 1].line] else [])
  }

  /** `serveSession`: tool calls are chained, everything else is answered as it arrives. */
  class McpSession {
    const classify: string -> Message
    const chain: PromiseChain<string>
    var atOnce: seq<string>

    constructor (classify: string -> Message)
      ensures this.classify == classify && atOnce == [] && fresh(chain)
      ensures chain.Valid() && chain.items == [] && chain.fault == None
    {
      var c := new PromiseChain<string>();
      this.classify, chain, atOnce := classify, c, [];
    }

    /**
     Any interleaving of lines and event-loop turns. `tail` swallows a failed call, so no call can
     stop a later one: tool calls run one at a time in arrival order, whatever each one does.
     */
    method Serve(ops: seq<SessionOp>)
      requires chain.Valid() && chain.items == [] && chain.fault == None && atOnce == []
      modifies this, chain
      ensures chain.Valid() && chain.fault == None
      ensures chain.items == Those(LinesOf(ops), classify, true) && atOnce == Those(LinesOf(ops), classify, false)
      ensures chain.calls <= chain.items && (chain.front == |chain.links| ==> chain.calls == chain.items)
    {
      var i := 0;
      while i < |ops|
        invariant i <= |ops| && chain.Valid() && chain.fault == None
        invariant chain.items == Those(LinesOf(ops[..i]), classify, true)
        invariant atOnce == Those(LinesOf(ops[..i]), classify, false)
      {
        assert ops[..i + 1][..i] == ops[..i];
        ghost var lines := LinesOf(ops[..i]);
        match ops[i] {
          case Line(line) =>
            assert (lines + [line])[..|lines|] == lines;
            if classify(line) == ToolCall { chain.Then(line); } else { atOnce := atOnce + [line]; }
          case Turn(link) => chain.React(link); assert lines + [] == lines;
          case Ends(link) => chain.Settle(link, false); assert lines + [] == lines;
        }
        i := i + 1;
      }
      assert ops[..i] == ops;
      chain.OneAtATime();
    }
  }

  // ---------- the forwarded command

  datatype End = End(exitCode: int, error: Option<string>, next: Option<string>)

  /** What one NDJSON line parses to; `Fatal` is the JSON `null`, which has no fields to read. */
  datatype Parsed = Malformed | Output(stderr: bool, text: string) | Ended(end: End) | Fatal

  datatype Answer = Answer(output: seq<(bool, string)>, end: Option<End>, dead: bool)

  function ParseLine(line: string, parse: string -> Parsed): Parsed {
    if line == "" then Malformed else parse(line)
  }

  function Accept(a: Answer, line: string, parse: string -> Parsed): Answer {
    if a.dead then a else
      match ParseLine(line, parse)
      case Malformed => a
      case Output(stderr, text) => a.(output := a.output + [(stderr, text)])
      case Ended(end) => a.(end := Some(end))
      case Fatal => a.(dead := true)
  }

  /** The answer of a list of lines, read in order. */
  function AnswerOf(lines: seq<string>, parse: string -> Parsed): Answer {
    if lines == [] then Answer([], None, false)
    else Accept(AnswerOf(lines[..|lines| - 1], parse), lines[|lines| - 1], parse)
  }

  function AnswerLines(text: string): seq<string> {
    Complete(text) + if IsBlank(Tail(text)) then [] else [Tail(text)]
  }

  lemma {:induction false} AnswerExtends(a: seq<string>, b: seq<string>, parse: string -> Parsed)
    requires AnswerOf(a, parse).dead
    ensures AnswerOf(a + b, parse) == AnswerOf(a, parse)
  {
    if b == [] {
      assert a + b == a;
    } else {
      assert (a + b)[..|a + b| - 1] == a + b[..|b| - 1];
      AnswerExtends(a, b[..|b| - 1], parse);
    }
  }

  datatype Reading = Exit(end: End) | MissingExit | Threw

  /** The line loop of `readEnd`; it stops at a line that kills the reading. */
  method AcceptLines(ghost read: seq<string>, lines: seq<string>, answer: Answer, parse: string -> Parsed)
    returns (r: Answer)
    requires answer == AnswerOf(read, parse)
    ensures r == AnswerOf(read + lines, parse)
  {
    r := answer;
    assert read + lines[..0] == read;
    var k := 0;
    while k < |lines| && !r.dead
      invariant k <= |lines| && r == AnswerOf(read + lines[..k], parse)
    {
      assert read + lines[..k + 1] == (read + lines[..k]) + [lines[k]];
      r := Accept(r, lines[k], parse);
      k := k + 1;
    }
    if r.dead { AnswerExtends(read + lines[..k], lines[k..], parse); }
    assert (read + lines[..k]) + lines[k..] == read + lines;
    assert k == |lines| ==> lines[..k] == lines;
  }

  /** `readEnd`: the output in order and the last end among the lines of the whole text. */
  method ReadEnd(chunks: seq<string>, parse: string -> Parsed) returns (r: Reading, output: seq<(bool, string)>)
    ensures var a := AnswerOf(AnswerLines(Whole(chunks)), parse);
      && output == a.output
      && r == if a.dead then Threw else if a.end.Some? then Exit(a.end.value) else MissingExit
  {
    var buffer: string := [];
    var answer := Answer([], None, false);
    var i := 0;
    while i < |chunks|
      invariant i <= |chunks| && buffer == Tail(Whole(chunks[..i]))
      invariant answer == AnswerOf(Complete(Whole(chunks[..i])), parse) && !answer.dead
    {
      assert chunks[..i + 1][..i] == chunks[..i];
      ghost var text := Whole(chunks[..i]);
      Grows(text, chunks[i]);
      var lines := Split(buffer + chunks[i], '\n');
      answer := AcceptLines(Complete(text), Init(lines), answer, parse);
      if answer.dead {
        WholeSplits(chunks, i + 1);
        StopsReading(text + chunks[i], Whole(chunks[i + 1..]), Complete(text + chunks[i]), parse);
        return Threw, answer.output;
      }
      buffer := Last(lines);
      i := i + 1;
    }
    assert chunks[..i] == chunks;
    assert Complete(Whole(chunks)) + [] == Complete(Whole(chunks));
    if !IsBlank(buffer) {
      ghost var before := Complete(Whole(chunks));
      assert (before + [buffer])[..|before|] == before;
      answer := Accept(answer, buffer, parse);
    }
    output := answer.output;
    r := if answer.dead then Threw else if answer.end.Some? then Exit(answer.end.value) else MissingExit;
  }

  lemma {:induction false} WholeSplits(chunks: seq<string>, i: nat)
    requires i <= |chunks|
    ensures Whole(chunks) == Whole(chunks[..i]) + Whole(chunks[i..])
  {
    if i == |chunks| {
      assert chunks[..i] == chunks && Whole(chunks[i..]) == [];
    } else {
      var front, n := chunks[..|chunks| - 1], |chunks|;
      WholeSplits(front, i);
      assert front[..i] == chunks[..i] && front[i..] == chunks[i..][..n - i - 1];
      assert Whole(chunks[i..]) == Whole(front[i..]) + chunks[n - 1];
    }
  }

  /** A line that kills the reading fixes the answer, whatever follows it. */
  lemma StopsReading(text: string, more: string, read: seq<string>, parse: string -> Parsed)
    requires read <= Complete(text) && AnswerOf(read, parse).dead
    ensures AnswerOf(AnswerLines(text + more), parse) == AnswerOf(read, parse)
  {
    Grows(text, more);
    var all := AnswerLines(text + more);
    assert Complete(text) <= all;
    AnswerExtends(read, all[|read|..], parse);
    assert read + all[|read|..] == all;
  }

  /** The exit a reading reports is the last line that carries one. */
  lemma {:induction false} LastEndWins(lines: seq<string>, parse: string -> Parsed)
    requires !AnswerOf(lines, parse).dead
    ensures forall i | 0 <= i < |lines| :: !ParseLine(lines[i], parse).Fatal?
    ensures match AnswerOf(lines, parse).end
      case None => forall i | 0 <= i < |lines| :: !ParseLine(lines[i], parse).Ended?
      case Some(end) => exists i :: 0 <= i < |lines| && LastEndAt(lines, parse, i, end)
  {
    if lines != [] {
      var front, last := lines[..|lines| - 1], |lines| - 1;
      LastEndWins(front, parse);
      match AnswerOf(front, parse).end
      case None =>
        if ParseLine(lines[last], parse).Ended? {
          assert LastEndAt(lines, parse, last, ParseLine(lines[last], parse).end);
        }
      case Some(end) =>
        var i :| 0 <= i < |front| && LastEndAt(front, parse, i, end);
        if ParseLine(lines[last], parse).Ended? {
          assert LastEndAt(lines, parse, last, ParseLine(lines[last], parse).end);
        } else {
          assert LastEndAt(lines, parse, i, end);
        }
    }
  }

  ghost predicate LastEndAt(lines: seq<string>, parse: string -> Parsed, i: nat, end: End)
    requires i < |lines|
  {
    && ParseLine(lines[i], parse) == Ended(end)
    && forall j | i < j < |lines| :: !ParseLine(lines[j], parse).Ended?
  }
}
