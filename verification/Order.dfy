/** Paths in the order a plain `sort()` gives them: by code unit, a prefix before its extensions. */
module Order {
  predicate Less(a: string, b: string) {
    b != [] && (a == [] || a[0] < b[0] || (a[0] == b[0] && Less(a[1..], b[1..])))
  }

  lemma {:induction false} LessTransitive(a: string, b: string, c: string)
    requires Less(a, b) && Less(b, c)
    ensures Less(a, c)
  {
    if a != [] && a[0] == b[0] == c[0] {
      LessTransitive(a[1..], b[1..], c[1..]);
    }
  }

  lemma {:induction false} LessTotal(a: string, b: string)
    ensures a == b || Less(a, b) || Less(b, a)
    ensures !(Less(a, b) && Less(b, a)) && !Less(a, a)
  {
    if a != [] && b != [] {
      LessTotal(a[1..], b[1..]);
      assert [a[0]] + a[1..] == a && [b[0]] + b[1..] == b;
    }
    if a != [] { LessTotal(a[1..], a[1..]); }
  }

  ghost predicate Sorted(list: seq<string>) {
    forall i, j | 0 <= i < j < |list| :: Less(list[i], list[j])
  }

  /** `list` is the elements of `s`, each once, in order. */
  ghost predicate Lists(list: seq<string>, s: set<string>) {
    Sorted(list) && forall x :: x in list <==> x in s
  }

  function Insert(list: seq<string>, x: string): seq<string> {
    if list == [] || Less(x, list[0]) then [x] + list
    else [list[0]] + Insert(list[1..], x)
  }

  lemma {:induction false} InsertSorts(list: seq<string>, x: string)
    requires Sorted(list) && x !in list
    ensures Sorted(Insert(list, x))
    ensures forall y :: y in Insert(list, x) <==> y in list || y == x
  {
    if list != [] {
      LessTotal(x, list[0]);
      if Less(x, list[0]) {
        forall k | 1 <= k < |list| ensures Less(x, list[k]) {
          LessTransitive(x, list[0], list[k]);
        }
      } else {
        assert x !in list[1..];
        InsertSorts(list[1..], x);
        var tail := Insert(list[1..], x);
        forall k | 0 <= k < |tail| ensures Less(list[0], tail[k]) {
          assert tail[k] in tail;
        }
        assert list == [list[0]] + list[1..];
      }
    }
  }

  method SortSet(s: set<string>) returns (list: seq<string>)
    ensures Lists(list, s)
  {
    list := [];
    var todo := s;
    while todo != {}
      invariant todo <= s && Lists(list, s - todo)
      decreases todo
    {
      var x :| x in todo;
      InsertSorts(list, x);
      list, todo := Insert(list, x), todo - {x};
    }
  }

  /** A set has one listing only. */
  lemma {:induction false} ListsUnique(a: seq<string>, b: seq<string>, s: set<string>)
    requires Lists(a, s) && Lists(b, s)
    ensures a == b
  {
    assert a != [] ==> a[0] in s;
    assert b != [] ==> b[0] in s;
    if a != [] {
      assert a[0] in b;
      if a[0] != b[0] {
        assert b[0] in a && a[0] in b;
        LessTotal(a[0], b[0]);
      }
      ListsTail(a, s);
      ListsTail(b, s);
      ListsUnique(a[1..], b[1..], s - {a[0]});
      assert a == [a[0]] + a[1..] && b == [b[0]] + b[1..];
    }
  }

  lemma ListsTail(a: seq<string>, s: set<string>)
    requires a != [] && Lists(a, s)
    ensures Lists(a[1..], s - {a[0]})
  {
    forall x ensures x in a[1..] <==> x in s - {a[0]} {
      if x in a[1..] { assert x in a; LessTotal(x, a[0]); }
      if x in s - {a[0]} { assert a == [a[0]] + a[1..]; assert x in a; }
    }
  }
}
