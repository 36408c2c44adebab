/**
 The 0/1 knapsack of toogle/utils.py, where an item's value is its size: the
 table is filled row by row and walked back to a chosen set of indices.
 */
module Knapsack {
  import opened Basics

  predicate NonNegative(items: seq<int>) {
    forall i :: 0 <= i < |items| ==> items[i] >= 0
  }

  // ------------------------------------------------------------ what is wanted

  /** The total size of the items at the given indices. */
  function SumAt(items: seq<int>, indices: seq<nat>): int
    requires forall k :: 0 <= k < |indices| ==> indices[k] < |items|
  {
    if indices == [] then 0 else items[indices[0]] + SumAt(items, indices[1..])
  }

  predicate StrictlyDecreasing(s: seq<nat>) {
    forall i, j :: 0 <= i < j < |s| ==> s[i] > s[j]
  }

  /** A choice among the first `n` items: distinct indices, written from the last to the first. */
  predicate Choice(s: seq<nat>, n: nat) {
    StrictlyDecreasing(s) && forall k :: 0 <= k < |s| ==> s[k] < n
  }

  /** `s` is a choice that fits, and no choice that fits is larger. */
  ghost predicate Optimal(items: seq<int>, space: int, s: seq<nat>) {
    && Choice(s, |items|) && SumAt(items, s) <= space
    && forall other :: Choice(other, |items|) && SumAt(items, other) <= space
                       ==> SumAt(items, other) <= SumAt(items, s)
  }

  // ----------------------------------------------------------- the table's law

  /** The largest total of the first `i` items that fits into `j`. */
  function Best(items: seq<int>, i: nat, j: nat): (r: int)
    requires i <= |items| && NonNegative(items)
    ensures 0 <= r <= j
  {
    if i == 0 || j == 0 then 0
    else if j >= items[i - 1] then
      Max(Best(items, i - 1, j), Best(items, i - 1, j - items[i - 1]) + items[i - 1])
    else Best(items, i - 1, j)
  }

  lemma {:induction false} ChoiceNonNegative(items: seq<int>, n: nat, s: seq<nat>)
    requires n <= |items| && NonNegative(items) && Choice(s, n)
    ensures SumAt(items, s) >= 0
  {
    if s == [] {
    } else {
      ChoiceNonNegative(items, s[0], s[1..]);
    }
  }

  /** No choice among the first `n` items beats the table. */
  lemma {:induction false} BestIsUpperBound(items: seq<int>, n: nat, j: nat, s: seq<nat>)
    requires n <= |items| && NonNegative(items) && Choice(s, n) && SumAt(items, s) <= j
    ensures SumAt(items, s) <= Best(items, n, j)
    decreases n
  {
    if s != [] && j > 0 {
      if s[0] == n - 1 {
        ChoiceNonNegative(items, n - 1, s[1..]);
        BestIsUpperBound(items, n - 1, j - items[n - 1], s[1..]);
      } else {
        BestIsUpperBound(items, n - 1, j, s);
      }
    }
  }

  /** Some choice among the first `n` items reaches the table's value. */
  lemma {:induction false} BestIsAttained(items: seq<int>, n: nat, j: nat) returns (s: seq<nat>)
    requires n <= |items| && NonNegative(items)
    ensures Choice(s, n) && SumAt(items, s) == Best(items, n, j)
    decreases n
  {
    if n == 0 || j == 0 {
      s := [];
    } else if Best(items, n, j) == Best(items, n - 1, j) {
      s := BestIsAttained(items, n - 1, j);
    } else {
      s := BestIsAttained(items, n - 1, j - items[n - 1]);
      s := [n - 1] + s;
    }
  }

  lemma BestIsOptimal(items: seq<int>, space: nat, s: seq<nat>)
    requires NonNegative(items) && Choice(s, |items|)
    requires SumAt(items, s) == Best(items, |items|, space)
    ensures Optimal(items, space, s)
  {
    forall other | Choice(other, |items|) && SumAt(items, other) <= space
      ensures SumAt(items, other) <= SumAt(items, s)
    {
      BestIsUpperBound(items, |items|, space, other);
    }
  }

  // ------------------------------------------------------------- the algorithm

  /** Rows 0 to `rows` - 1 hold the optima of the first items. */
  ghost predicate Filled(dp: array2<int>, items: seq<int>, rows: nat)
    requires NonNegative(items) && rows <= dp.Length0 <= |items| + 1
    reads dp
  {
    forall i, j :: 0 <= i < rows && 0 <= j < dp.Length1 ==> dp[i, j] == Best(items, i, j)
  }

  /** The body of the outer loop: row `i` from row `i` - 1. */
  method FillRow(dp: array2<int>, items: seq<int>, i: nat)
    requires NonNegative(items) && 1 <= i < dp.Length0 == |items| + 1 && 1 <= dp.Length1
    requires Filled(dp, items, i) && dp[i, 0] == 0
    modifies dp
    ensures Filled(dp, items, i + 1)
    ensures forall k, l :: i < k < dp.Length0 && 0 <= l < dp.Length1 ==> dp[k, l] == old(dp[k, l])
  {
    for j := 1 to dp.Length1
      invariant forall k, l :: 0 <= k < dp.Length0 && k != i && 0 <= l < dp.Length1 ==> dp[k, l] == old(dp[k, l])
      invariant forall l :: 0 <= l < j ==> dp[i, l] == Best(items, i, l)
    {
      if j >= items[i - 1] {
        dp[i, j] := Max(dp[i - 1, j], dp[i - 1, j - items[i - 1]] + items[i - 1]);
      } else {
        dp[i, j] := dp[i - 1, j];
      }
    }
  }

  method FillTable(items: seq<int>, space: nat) returns (dp: array2<int>)
    requires NonNegative(items)
    ensures fresh(dp) && dp.Length0 == |items| + 1 && dp.Length1 == space + 1
    ensures Filled(dp, items, |items| + 1)
  {
    var n := |items|;
    dp := new int[n + 1, space + 1]((i, j) => 0);
    for i := 1 to n + 1
      invariant Filled(dp, items, i)
      invariant forall k :: i <= k <= n ==> dp[k, 0] == 0
    {
      FillRow(dp, items, i);
    }
  }

  lemma {:induction false} SumAtAppend(items: seq<int>, s: seq<nat>, x: nat)
    requires x < |items| && forall k :: 0 <= k < |s| ==> s[k] < |items|
    ensures SumAt(items, s + [x]) == SumAt(items, s) + items[x]
  {
    if s == [] {
      assert s + [x] == [x];
    } else {
      var rest := s[1..];
      assert (s + [x])[1..] == rest + [x] && (s + [x])[0] == s[0];
      SumAtAppend(items, rest, x);
    }
  }

  /** Appending an index below all others keeps a choice and adds that item. */
  lemma ChoiceAppend(items: seq<int>, s: seq<nat>, x: nat)
    requires Choice(s, |items|) && x < |items|
    requires forall k :: 0 <= k < |s| ==> x < s[k]
    ensures Choice(s + [x], |items|) && SumAt(items, s + [x]) == SumAt(items, s) + items[x]
  {
    hide SumAt;
    SumAtAppend(items, s, x);
    assert forall k :: 0 <= k < |s| ==> (s + [x])[k] == s[k];
  }

  lemma NothingChosen(items: seq<int>)
    ensures SumAt(items, []) == 0
  {
  }

  lemma NothingLeft(items: seq<int>, i: nat, j: nat)
    requires i <= |items| && NonNegative(items) && (i == 0 || j == 0)
    ensures Best(items, i, j) == 0
  {
  }

  /** A cell that differs from the one above it took its item. */
  lemma WalkStep(items: seq<int>, i: nat, j: nat)
    requires 0 < i <= |items| && NonNegative(items) && Best(items, i, j) != Best(items, i - 1, j)
    ensures 0 < items[i - 1] <= j && Best(items, i, j) == Best(items, i - 1, j - items[i - 1]) + items[i - 1]
  {
  }

  /** dp_backpack_algorithm: an optimal choice, for every non-negative list of items. */
  method Backpack(space: int, items: seq<int>) returns (res: seq<nat>)
    requires NonNegative(items)
    ensures space >= 0 ==> Optimal(items, space, res) && SumAt(items, res) == Best(items, |items|, space)
    ensures space < 0 ==> res == []
    ensures forall k :: 0 <= k < |res| ==> res[k] < |items| && items[res[k]] > 0
  {
    hide Best, SumAt;
    if space < 0 {
      return [];  // the rows of the table are empty and neither loop is entered
    }
    var dp := FillTable(items, space);
    res := [];
    NothingChosen(items);
    var i, j: int := |items|, space;
    while i > 0 && j > 0
      invariant 0 <= i <= |items| && 0 <= j <= space && Filled(dp, items, |items| + 1)
      invariant Choice(res, |items|) && (forall k :: 0 <= k < |res| ==> i <= res[k])
      invariant SumAt(items, res) + j == space
      invariant SumAt(items, res) + Best(items, i, j) == Best(items, |items|, space)
      invariant forall k :: 0 <= k < |res| ==> items[res[k]] > 0
      decreases i
    {
      if dp[i, j] != dp[i - 1, j] {
        WalkStep(items, i, j);
        ChoiceAppend(items, res, i - 1);
        res := res + [i - 1];
        j := j - items[i - 1];
      }
      i := i - 1;
    }
    NothingLeft(items, i, j);
    BestIsOptimal(items, space, res);
  }
}
