/**
 The use order of the OrderedDict that TorrentVideoReader keeps at most four pieces
 in, and what it is: the last four distinct pieces that were used.
 */
module LruCache {

  const CAPACITY := 4

  function Removed(s: seq<nat>, x: nat): (r: seq<nat>)
    ensures |r| <= |s| && x !in r && forall y :: y in r <==> y in s && y != x
  {
    if s == [] then []
    else
      var front, last := s[..|s| - 1], s[|s| - 1];
      assert s == front + [last];
      Removed(front, x) + if last == x then [] else [last]
  }

  /** `popitem(last=False)` for as long as there are more than four. */
  function Shrunk(order: seq<nat>): (r: seq<nat>)
    ensures |r| <= CAPACITY && forall y :: y in r ==> y in order
    ensures order != [] ==> r != [] && r[|r| - 1] == order[|order| - 1]
  {
    if |order| > CAPACITY then Shrunk(order[1..]) else order
  }

  /** The use order after `key` was read: `move_to_end`, or insertion at the end and eviction. */
  function Touched(order: seq<nat>, key: nat): (r: seq<nat>)
    ensures |order| <= CAPACITY ==> |r| <= CAPACITY
    ensures r != [] && r[|r| - 1] == key
    ensures forall y :: y in r ==> y in order || y == key
    ensures key in order ==> forall y :: y in r <==> y in order
  {
    if key in order then Moved(order, key) else Shrunk(order + [key])
  }

  function Moved(order: seq<nat>, key: nat): (r: seq<nat>)
    requires key in order
    ensures |r| <= |order| && r != [] && r[|r| - 1] == key && forall y :: y in r <==> y in order
  {
    RemovedShorter(order, key);
    Removed(order, key) + [key]
  }

  lemma {:induction false} RemovedShorter(s: seq<nat>, x: nat)
    requires x in s
    ensures |Removed(s, x)| < |s|
  {
    var front := s[..|s| - 1];
    if s[|s| - 1] != x { RemovedShorter(front, x); }
  }

  // ------------------------------------------------------------------- meaning

  /** Reading `uses` backwards: its last `n` distinct keys outside `skip`, the latest at the end. */
  function Latest(uses: seq<nat>, n: nat, skip: set<nat>): (r: seq<nat>)
    ensures |r| <= n && forall x :: x in r ==> x !in skip && x in uses
    decreases |uses|
  {
    if uses == [] || n == 0 then []
    else
      var front, last := uses[..|uses| - 1], uses[|uses| - 1];
      assert uses == front + [last];
      if last in skip then Latest(front, n, skip) else Latest(front, n - 1, skip + {last}) + [last]
  }

  lemma RemovedAppend(s: seq<nat>, y: nat, x: nat)
    ensures Removed(s + [y], x) == Removed(s, x) + if y == x then [] else [y]
  {
    assert (s + [y])[..|s|] == s;
  }

  lemma {:induction false} RemovedAbsent(s: seq<nat>, x: nat)
    requires x !in s
    ensures Removed(s, x) == s
  {
    if s == [] {
    } else {
      assert s == s[..|s| - 1] + [s[|s| - 1]];
      RemovedAbsent(s[..|s| - 1], x);
    }
  }

  function DropFull(s: seq<nat>, n: nat): seq<nat> {
    if |s| == n + 1 then s[1..] else s
  }

  /** `m` without `x`, or without its oldest key if that leaves room for none. */
  function Reduced(m: seq<nat>, n: nat, x: nat): seq<nat> {
    if x in m then Removed(m, x) else DropFull(m, n)
  }

  lemma ReducedLast(before: seq<nat>, n: nat, x: nat)
    requires x !in before
    ensures Reduced(before + [x], n, x) == before
  {
    RemovedAppend(before, x, x);
    RemovedAbsent(before, x);
  }

  lemma ReducedAppend(m: seq<nat>, n: nat, y: nat, x: nat)
    requires y != x && n > 0 && |m| <= n
    ensures Reduced(m + [y], n, x) == Reduced(m, n - 1, x) + [y]
  {
    RemovedAppend(m, y, x);
  }

  lemma ReducedOne(y: nat, x: nat)
    requires y != x
    ensures Reduced([y], 0, x) == []
  {
  }

  /** The latest use is of a key that is skipped already. */
  lemma LatestSkip(uses: seq<nat>, n: nat, skip: set<nat>)
    requires uses != [] && uses[|uses| - 1] in skip
    ensures Latest(uses, n, skip) == Latest(uses[..|uses| - 1], n, skip)
  {
  }

  lemma LatestTake(uses: seq<nat>, n: nat, skip: set<nat>, y: nat)
    requires uses != [] && n > 0 && uses[|uses| - 1] == y && y !in skip
    ensures Latest(uses, n, skip) == Latest(uses[..|uses| - 1], n - 1, skip + {y}) + [y]
  {
  }

  /** The latest use is of another key, which both sides keep. */
  lemma OtherUse(uses: seq<nat>, n: nat, skip: set<nat>, more: set<nat>, x: nat, y: nat)
    requires uses != [] && uses[|uses| - 1] == y && y != x && y !in skip && y !in more && n > 0
    requires var front := uses[..|uses| - 1];
      Latest(front, n - 1, more + {y}) == Reduced(Latest(front, n, skip + {y}), n - 1, x)
    ensures Latest(uses, n, more) == Reduced(Latest(uses, n + 1, skip), n, x)
  {
    hide Latest, Reduced;
    LatestTake(uses, n, more, y);
    LatestTake(uses, n + 1, skip, y);
    ReducedAppend(Latest(uses[..|uses| - 1], n, skip + {y}), n, y, x);
  }

  /** Skipping one more key costs that key if it was there, and the oldest key otherwise. */
  lemma {:induction false} LatestSkipping(uses: seq<nat>, n: nat, skip: set<nat>, more: set<nat>, x: nat)
    requires x !in skip && more == skip + {x}
    ensures Latest(uses, n, more) == Reduced(Latest(uses, n + 1, skip), n, x)
    decreases |uses|
  {
    if uses == [] {
    } else {
      hide Latest, Reduced;
      var front, y := uses[..|uses| - 1], uses[|uses| - 1];
      if y in skip {
        LatestSkip(uses, n, more);
        LatestSkip(uses, n + 1, skip);
        LatestSkipping(front, n, skip, more, x);
      } else if y == x {
        LatestSkip(uses, n, more);
        LatestTake(uses, n + 1, skip, x);
        ReducedLast(Latest(front, n, more), n, x);
      } else if n > 0 {
        assert more + {y} == skip + {y} + {x};
        LatestSkipping(front, n - 1, skip + {y}, more + {y}, x);
        OtherUse(uses, n, skip, more, x, y);
      } else {
        LatestTake(uses, 1, skip, y);
        ReducedOne(y, x);
      }
    }
  }

  /** Touching keeps the order at the last four distinct keys used. */
  lemma TouchedIsLatest(uses: seq<nat>, key: nat)
    ensures Touched(Latest(uses, CAPACITY, {}), key) == Latest(uses + [key], CAPACITY, {})
  {
    hide Latest, Reduced, Touched;
    assert (uses + [key])[..|uses|] == uses;
    assert {} + {key} == {key};
    LatestTake(uses + [key], CAPACITY, {}, key);
    LatestSkipping(uses, CAPACITY - 1, {}, {key}, key);
    TouchedIsReduced(Latest(uses, CAPACITY, {}), key);
  }

  lemma TouchedIsReduced(order: seq<nat>, key: nat)
    requires |order| <= CAPACITY
    ensures Touched(order, key) == Reduced(order, CAPACITY - 1, key) + [key]
  {
    if key !in order && |order| == CAPACITY {
      assert Shrunk(order + [key]) == (order + [key])[1..];
      assert (order + [key])[1..] == order[1..] + [key];
    }
  }

  /** The order after all of `uses`, from an empty cache. */
  function Replayed(uses: seq<nat>): (r: seq<nat>)
    ensures |r| <= CAPACITY
  {
    if uses == [] then [] else Touched(Replayed(uses[..|uses| - 1]), uses[|uses| - 1])
  }

  lemma ReplayedMore(uses: seq<nat>, key: nat)
    ensures Replayed(uses + [key]) == Touched(Replayed(uses), key)
  {
    assert (uses + [key])[..|uses|] == uses;
  }

  /** The cache holds the last four distinct keys used, whatever the uses were. */
  lemma {:induction false} CacheIsLatest(uses: seq<nat>)
    ensures Replayed(uses) == Latest(uses, CAPACITY, {})
  {
    if uses == [] {
    } else {
      hide Latest, Touched;
      var front, last := uses[..|uses| - 1], uses[|uses| - 1];
      assert uses == front + [last];
      CacheIsLatest(front);
      ReplayedMore(front, last);
      TouchedIsLatest(front, last);
    }
  }
}
