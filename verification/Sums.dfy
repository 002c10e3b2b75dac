/** Sums over sequences, changed one element at a time or compared element by element. */
module Sums {
  function Sum(ns: seq<nat>): nat {
    if |ns| == 0 then 0 else Sum(ns[..|ns| - 1]) + ns[|ns| - 1]
  }

  lemma SumAppend(ns: seq<nat>, n: nat)
    ensures Sum(ns + [n]) == Sum(ns) + n
  {
    assert (ns + [n])[..|ns|] == ns;
  }

  lemma {:induction false} SumUpdate(ns: seq<nat>, i: nat, n: nat)
    requires i < |ns|
    ensures Sum(ns[i := n]) == Sum(ns) - ns[i] + n
  {
    var init := ns[..|ns| - 1];
    if i == |ns| - 1 {
      assert ns[i := n][..|ns| - 1] == init;
    } else {
      SumUpdate(init, i, n);
      assert ns[i := n][..|ns| - 1] == init[i := n];
    }
  }

  /** What is paid element by element is paid in all. */
  lemma {:induction false} SumPays(before: seq<nat>, after: seq<nat>, paid: seq<nat>)
    requires |before| == |after| == |paid|
    requires forall i :: 0 <= i < |before| ==> after[i] + paid[i] <= before[i]
    ensures Sum(after) + Sum(paid) <= Sum(before)
  {
    if |before| > 0 {
      var last := |before| - 1;
      SumPays(before[..last], after[..last], paid[..last]);
    }
  }

  lemma {:induction false} SumOfEqual(ns: seq<nat>, each: nat)
    requires forall i :: 0 <= i < |ns| ==> ns[i] == each
    ensures Sum(ns) == |ns| * each
  {
    if |ns| > 0 {
      SumOfEqual(ns[..|ns| - 1], each);
      assert (|ns| - 1 + 1) * each == (|ns| - 1) * each + each;
    }
  }
}
