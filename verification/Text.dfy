/** Splitting text on one character, joining it back, and blank text. */
module Text {
  /** The pieces of `s` between the occurrences of `sep`; always at least one. */
  function Split(s: string, sep: char): (r: seq<string>)
    ensures |r| >= 1
  {
    if s == [] then [[]]
    else
      var rest := Split(s[1..], sep);
      if s[0] == sep then [[]] + rest else [[s[0]] + rest[0]] + rest[1..]
  }

  /** The pieces glued back with `sep` between them. */
  function Join(pieces: seq<string>, sep: char): string {
    if pieces == [] then []
    else if |pieces| == 1 then pieces[0]
    else pieces[0] + [sep] + Join(pieces[1..], sep)
  }

  function Init<T>(s: seq<T>): seq<T>
    requires s != []
  {
    s[..|s| - 1]
  }

  function Last<T>(s: seq<T>): T
    requires s != []
  {
    s[|s| - 1]
  }

  lemma InitAndLast<T>(s: seq<T>)
    requires s != []
    ensures Init(s) + [Last(s)] == s
  {
  }

  lemma TakeNext<T>(s: seq<T>, i: nat)
    requires i < |s|
    ensures Init(s[..i + 1]) == s[..i] && Last(s[..i + 1]) == s[i] && s[..i + 1] == s[..i] + [s[i]]
  {
  }

  /** Splitting text piece by piece gives the same lines as splitting the whole. */
  lemma {:induction false} SplitConcat(a: string, b: string, sep: char)
    ensures Split(a + b, sep) == Init(Split(a, sep)) + Split(Last(Split(a, sep)) + b, sep)
  {
    if a == [] {
      assert a + b == b;
    } else {
      assert (a + b)[1..] == a[1..] + b;
      SplitConcat(a[1..], b, sep);
      var rest := Split(a[1..], sep);
      if a[0] == sep {
        ConsPiece([], rest, Split(Last(rest) + b, sep));
      } else if |rest| == 1 {
        assert (([a[0]] + rest[0]) + b)[1..] == rest[0] + b;
      } else {
        ConsFirstPiece(a[0], rest, Split(Last(rest) + b, sep));
      }
    }
  }

  lemma ConsPiece(piece: string, pieces: seq<string>, more: seq<string>)
    requires |pieces| >= 1
    ensures Last([piece] + pieces) == Last(pieces)
    ensures Init([piece] + pieces) + more == [piece] + (Init(pieces) + more)
  {
  }

  lemma ConsFirstPiece(c: char, pieces: seq<string>, more: seq<string>)
    requires |pieces| > 1
    ensures var first := [[c] + pieces[0]] + pieces[1..];
            && Last(first) == Last(pieces)
            && Init(first) + more == [[c] + (Init(pieces) + more)[0]] + (Init(pieces) + more)[1..]
  {
  }

  /** No piece holds the separator. */
  lemma {:induction false} PiecesHoldNoSeparator(s: string, sep: char)
    ensures forall k | 0 <= k < |Split(s, sep)| :: sep !in Split(s, sep)[k]
  {
    if s != [] {
      PiecesHoldNoSeparator(s[1..], sep);
    }
  }

  /** A text without the separator is its own only piece. */
  lemma {:induction false} SplitSingle(s: string, sep: char)
    requires sep !in s
    ensures Split(s, sep) == [s]
  {
    if s != [] {
      SplitSingle(s[1..], sep);
      assert [s[0]] + s[1..] == s;
    }
  }

  lemma {:induction false} JoinSplit(s: string, sep: char)
    ensures Join(Split(s, sep), sep) == s
  {
    if s != [] {
      JoinSplit(s[1..], sep);
      var rest := Split(s[1..], sep);
      if s[0] == sep {
        assert ([[]] + rest)[1..] == rest;
      } else {
        assert ([[s[0]] + rest[0]] + rest[1..])[1..] == rest[1..];
      }
    }
  }

  lemma {:induction false} SplitTerminated(p: string, sep: char)
    requires sep !in p
    ensures Split(p + [sep], sep) == [p, []]
  {
    SplitConcat(p, [sep], sep);
    SplitSingle(p, sep);
    if p != [] {
      SplitTerminated(p[1..], sep);
      assert (p + [sep])[1..] == p[1..] + [sep];
      assert [p[0]] + p[1..] == p;
    }
  }

  lemma {:induction false} SplitPiece(p: string, rest: string, sep: char)
    requires sep !in p
    ensures Split(p + [sep] + rest, sep) == [p] + Split(rest, sep)
  {
    SplitTerminated(p, sep);
    SplitConcat(p + [sep], rest, sep);
    assert [] + rest == rest;
  }

  lemma {:induction false} SplitJoin(pieces: seq<string>, sep: char)
    requires pieces != []
    requires forall k | 0 <= k < |pieces| :: sep !in pieces[k]
    ensures Split(Join(pieces, sep), sep) == pieces
  {
    if |pieces| == 1 {
      SplitSingle(pieces[0], sep);
    } else {
      SplitJoin(pieces[1..], sep);
      SplitPiece(pieces[0], Join(pieces[1..], sep), sep);
    }
  }

  /** Whitespace as these modules take it: space, tab, line feed and carriage return. */
  predicate IsSpace(c: char) {
    c == ' ' || c == '\t' || c == '\n' || c == '\r'
  }

  /** Whether trimming leaves nothing. */
  predicate IsBlank(s: string) {
    forall k | 0 <= k < |s| :: IsSpace(s[k])
  }

  predicate IsDigit(c: char) {
    '0' <= c <= '9'
  }

  function DigitOf(c: char): (d: nat)
    requires IsDigit(c)
    ensures d <= 9 && (d == 0 <==> c == '0')
  {
    var d := c as int - '0' as int;
    assert c as int >= '0' as int && c as int <= '9' as int;
    d
  }

  predicate AllDigits(s: string) {
    forall k :: 0 <= k < |s| ==> IsDigit(s[k])
  }

  /** How many digits `s` starts with. */
  function DigitRun(s: string): (n: nat)
    ensures n <= |s| && AllDigits(s[..n]) && (n < |s| ==> !IsDigit(s[n]))
  {
    if s == [] || !IsDigit(s[0]) then 0 else
      var n := DigitRun(s[1..]);
      assert s[..n + 1] == [s[0]] + s[1..][..n];
      n + 1
  }

  /** The number a run of digits denotes. */
  function Value(digits: string): nat
    requires AllDigits(digits)
  {
    if digits == [] then 0 else Value(Init(digits)) * 10 + DigitOf(Last(digits))
  }
}
