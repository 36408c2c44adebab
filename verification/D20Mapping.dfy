/**
 WarhammerD20DiceMigrate.d20_mapping: the faces of a D20 are shared out among the
 groups of a distribution, each group first getting one face, the rest going by
 rounded shares, and one pass over the groups repairing the total.
 */
module D20Mapping {
  import opened Basics
  import opened Binomial

  const TOTAL_FACES := 20

  // ----------------------------------------------------------------- rounding

  /** Python's `round`: the nearest integer, and of two nearest ones the even one. */
  function Round(x: real): (r: int)
    ensures -0.5 <= r as real - x <= 0.5
    ensures (r as real - x == 0.5 || r as real - x == -0.5) ==> r % 2 == 0
    ensures x >= 0.0 ==> r >= 0
  {
    var f := x.Floor;
    var rest := x - f as real;
    if rest < 0.5 then f
    else if rest > 0.5 then f + 1
    else if f % 2 == 0 then f else f + 1
  }

  /** Nothing but this function rounds to nearest with ties to even. */
  lemma RoundIsUnique(x: real, r: int)
    requires -0.5 <= r as real - x <= 0.5
    requires (r as real - x == 0.5 || r as real - x == -0.5) ==> r % 2 == 0
    ensures r == Round(x)
  {
    var d := r - Round(x);
    assert -1.0 <= d as real <= 1.0;
  }

  // ------------------------------------------------------------- sharing faces

  /** One face each, and the rounded share of the remaining faces. */
  function FirstSizes(dist: seq<real>): (r: seq<int>)
    ensures |r| == |dist|
  {
    seq(|dist|, i requires 0 <= i < |dist| => 1 + Round(Times(dist[i], (TOTAL_FACES - |dist|) as real)))
  }

  /** Take one face from each of the last `diff` groups that have more than one. */
  function Trimmed(s: seq<int>, diff: nat): (r: seq<int>)
    ensures |r| == |s|
  {
    if s == [] || diff == 0 then s
    else
      var front, last := s[..|s| - 1], s[|s| - 1];
      if last > 1 then Trimmed(front, diff - 1) + [last - 1] else Trimmed(front, diff) + [last]
  }

  /** Give one face to each of the first `missing` groups. */
  function Padded(s: seq<int>, missing: nat): (r: seq<int>)
    ensures |r| == |s|
  {
    seq(|s|, i requires 0 <= i < |s| => s[i] + if i < missing then 1 else 0)
  }

  /** The face counts after the repair pass. */
  function Sizes(dist: seq<real>): (r: seq<int>)
    ensures |r| == |dist|
  {
    var first := FirstSizes(dist);
    var diff := Sum(first) - TOTAL_FACES;
    if diff > 0 then Trimmed(first, diff) else Padded(first, -diff)
  }

  // ------------------------------------------------------------- the algorithm

  /** Too many faces: take them back, from the last group to the first. */
  method TrimBack(sizes0: seq<int>, diff0: nat) returns (sizes: seq<int>)
    ensures sizes == Trimmed(sizes0, diff0)
  {
    sizes := sizes0;
    var diff, i := diff0, |sizes|;
    assert sizes[..i] == sizes && sizes[i..] == [];
    while i > 0 && diff > 0
      invariant 0 <= i <= |sizes| == |sizes0| && diff >= 0
      invariant sizes[..i] == sizes0[..i]
      invariant Trimmed(sizes0, diff0) == Trimmed(sizes[..i], diff) + sizes[i..]
    {
      i := i - 1;
      assert sizes[..i + 1][..i] == sizes[..i];
      if sizes[i] > 1 {
        ghost var was := sizes;
        sizes := sizes[i := sizes[i] - 1];
        diff := diff - 1;
        assert sizes[i..] == [was[i] - 1] + was[i + 1..];
        assert sizes[..i] == was[..i];
      } else {
        assert sizes[i..] == [sizes[i]] + sizes[i + 1..];
      }
    }
    assert sizes == sizes[..i] + sizes[i..];
  }

  /** Too few faces: hand them out, from the first group to the last. */
  method PadFront(sizes0: seq<int>, missing: nat) returns (sizes: seq<int>)
    ensures sizes == Padded(sizes0, missing)
  {
    sizes := sizes0;
    var i := 0;
    while i < |sizes| && i < missing
      invariant 0 <= i <= |sizes| == |sizes0| && i <= missing
      invariant forall k :: 0 <= k < |sizes| ==> sizes[k] == sizes0[k] + if k < i then 1 else 0
    {
      sizes := sizes[i := sizes[i] + 1];
      i := i + 1;
    }
  }

  // ------------------------------------------------- one pass is always enough

  predicate Distribution(dist: seq<real>) {
    Total(dist) == 1.0 && forall i :: 0 <= i < |dist| ==> dist[i] >= 0.0
  }

  /** How many groups have a face to spare. */
  function Spare(s: seq<int>): (r: nat) {
    if s == [] then 0 else Spare(s[..|s| - 1]) + if s[|s| - 1] > 1 then 1 else 0
  }

  /** The ideal, fractional number of faces of group `i`. */
  function Ideal(dist: seq<real>, i: nat): real
    requires i < |dist|
  {
    1.0 + Times(dist[i], (TOTAL_FACES - |dist|) as real)
  }

  lemma {:induction false} TrimmedSum(s: seq<int>, diff: nat)
    requires diff <= Spare(s)
    ensures Sum(Trimmed(s, diff)) == Sum(s) - diff
  {
    if s != [] && diff > 0 {
      var front, last := s[..|s| - 1], s[|s| - 1];
      TrimmedSum(front, if last > 1 then diff - 1 else diff);
      assert Trimmed(s, diff)[..|s| - 1] == Trimmed(front, if last > 1 then diff - 1 else diff);
    }
  }

  lemma {:induction false} TrimmedBounds(s: seq<int>, diff: nat, i: nat)
    requires i < |s|
    ensures s[i] - 1 <= Trimmed(s, diff)[i] <= s[i]
    ensures s[i] >= 1 ==> Trimmed(s, diff)[i] >= 1
  {
    if diff > 0 && i < |s| - 1 {
      var front, last := s[..|s| - 1], s[|s| - 1];
      TrimmedBounds(front, if last > 1 then diff - 1 else diff, i);
    }
  }

  lemma {:induction false} PaddedSum(s: seq<int>, missing: nat)
    requires missing <= |s|
    ensures Sum(Padded(s, missing)) == Sum(s) + missing
  {
    if s == [] {
    } else {
      var front := s[..|s| - 1];
      assert Padded(s, missing)[..|s| - 1] == Padded(front, if missing == |s| then missing - 1 else missing);
      PaddedSum(front, if missing == |s| then missing - 1 else missing);
    }
  }

  /** Rounding up happens only in groups with a face to spare, by half a face at
      most; rounding down costs any group half a face at most. */
  lemma {:induction false} RoundingBounds(dist: seq<real>, rest: real, sizes: seq<int>)
    requires rest >= 0.0 && |sizes| == |dist|
    requires forall i :: 0 <= i < |dist| ==> dist[i] >= 0.0 && sizes[i] == 1 + Round(Times(dist[i], rest))
    ensures Sum(sizes) as real <= |dist| as real + Times(Total(dist), rest) + Spare(sizes) as real / 2.0
    ensures Sum(sizes) as real >= |dist| as real + Times(Total(dist), rest) - |dist| as real / 2.0
    ensures forall i :: 0 <= i < |dist| ==> sizes[i] >= 1
  {
    if dist == [] {
    } else {
      var n := |dist| - 1;
      RoundingBounds(dist[..n], rest, sizes[..n]);
      NonNegative(dist[n], rest);
      Distributes(Total(dist[..n]), dist[n], rest);
      forall i | 0 <= i < |dist| ensures sizes[i] >= 1 {
        NonNegative(dist[i], rest);
      }
    }
  }

  lemma Distributes(a: real, b: real, c: real)
    ensures Times(a + b, c) == Times(a, c) + Times(b, c)
  {
  }

  /** The repair pass hits the total exactly, leaves every group a face and stays
      within one and a half faces of every ideal share, whenever there are at
      most as many groups as faces. */
  lemma RepairSuffices(dist: seq<real>)
    requires Distribution(dist) && |dist| <= TOTAL_FACES
    ensures Sum(Sizes(dist)) == TOTAL_FACES
    ensures forall i :: 0 <= i < |dist| ==> Sizes(dist)[i] >= 1
    ensures forall i :: 0 <= i < |dist| ==> -1.5 <= Sizes(dist)[i] as real - Ideal(dist, i) <= 1.5
  {
    hide Sum, Trimmed, Padded, Spare, Total, Round;
    var first := FirstSizes(dist);
    var diff := Sum(first) - TOTAL_FACES;
    FirstBounds(dist);
    if diff > 0 {
      TrimmedSum(first, diff);
    } else {
      PaddedSum(first, -diff);
    }
    forall i | 0 <= i < |dist|
      ensures Sizes(dist)[i] >= 1 && -1.5 <= Sizes(dist)[i] as real - Ideal(dist, i) <= 1.5
    {
      RepairedShare(dist, i);
    }
  }

  /** Before the repair at most one face too many for every two groups that can spare
      one, or one too few for every two groups. */
  lemma FirstBounds(dist: seq<real>)
    requires Distribution(dist) && |dist| <= TOTAL_FACES
    ensures Sum(FirstSizes(dist)) - TOTAL_FACES <= Spare(FirstSizes(dist))
    ensures TOTAL_FACES - Sum(FirstSizes(dist)) <= |dist|
    ensures forall i :: 0 <= i < |dist| ==> FirstSizes(dist)[i] >= 1
  {
    hide Sum, Spare, Total, Round;
    var first, rest := FirstSizes(dist), (TOTAL_FACES - |dist|) as real;
    RoundingBounds(dist, rest, first);
    assert Times(Total(dist), rest) == rest by { assert Total(dist) == 1.0; }
  }

  lemma RepairedShare(dist: seq<real>, i: nat)
    requires Distribution(dist) && |dist| <= TOTAL_FACES && i < |dist| && FirstSizes(dist)[i] >= 1
    ensures Sizes(dist)[i] >= 1 && -1.5 <= Sizes(dist)[i] as real - Ideal(dist, i) <= 1.5
  {
    hide Sum, Total, Round;
    var first := FirstSizes(dist);
    var diff := Sum(first) - TOTAL_FACES;
    if diff > 0 {
      TrimmedBounds(first, diff, i);
    } else {
      PaddedBounds(first, -diff, i);
    }
  }

  lemma PaddedBounds(s: seq<int>, missing: nat, i: nat)
    requires i < |s|
    ensures s[i] <= Padded(s, missing)[i] <= s[i] + 1
  {
  }

  lemma {:induction false} SumAtLeast(s: seq<int>)
    requires forall i :: 0 <= i < |s| ==> s[i] >= 1
    ensures Sum(s) >= |s|
  {
    if s == [] {
    } else {
      SumAtLeast(s[..|s| - 1]);
    }
  }

  /** The mapping is right exactly for distributions of at most twenty groups:
      a guard the caller could check, which d20_mapping does not. */
  lemma MappingWorksIff(dist: seq<real>)
    requires Distribution(dist)
    ensures (Sum(Sizes(dist)) == TOTAL_FACES && forall i :: 0 <= i < |dist| ==> Sizes(dist)[i] >= 1)
            <==> |dist| <= TOTAL_FACES
  {
    if |dist| <= TOTAL_FACES {
      RepairSuffices(dist);
    } else if forall i :: 0 <= i < |dist| ==> Sizes(dist)[i] >= 1 {
      SumAtLeast(Sizes(dist));
    }
  }

  /** How many groups behind group `i` have a face to spare. */
  function SparesBehind(s: seq<int>, i: nat): (n: nat) {
    if i + 1 >= |s| then 0 else SparesBehind(s[..|s| - 1], i) + if s[|s| - 1] > 1 then 1 else 0
  }

  /** Trimming takes one face each from the last `diff` groups that have one to spare. */
  lemma {:induction false} TrimmedAt(s: seq<int>, diff: nat, i: nat)
    requires i < |s|
    ensures Trimmed(s, diff)[i] == s[i] - if s[i] > 1 && SparesBehind(s, i) < diff then 1 else 0
  {
    if diff > 0 && i < |s| - 1 {
      TrimmedAt(s[..|s| - 1], if s[|s| - 1] > 1 then diff - 1 else diff, i);
    }
  }

  /** One face and the whole number nearest to the rest of the ideal share, ties to even. */
  predicate Nearest(size: int, ideal: real) {
    var d := size as real - ideal;
    -0.5 <= d <= 0.5 && (d == 0.5 || d == -0.5 ==> size % 2 == 1)
  }

  lemma FirstIsNearest(dist: seq<real>, first: seq<int>)
    requires |dist| == |first| && forall k :: 0 <= k < |dist| ==> Nearest(first[k], Ideal(dist, k))
    ensures first == FirstSizes(dist)
  {
    hide Round, Times;
    forall k | 0 <= k < |dist| ensures first[k] == FirstSizes(dist)[k] {
      RoundIsUnique(Times(dist[k], (TOTAL_FACES - |dist|) as real), first[k] - 1);
    }
  }

  /** Every face count, group by group: the nearest whole number to the ideal share; if
      those make too many faces, the last groups with one to spare give one up, and if
      too few, the first groups get one. */
  lemma SizesAt(dist: seq<real>, first: seq<int>, i: nat)
    requires i < |dist| == |first| && forall k :: 0 <= k < |dist| ==> Nearest(first[k], Ideal(dist, k))
    ensures var surplus := Sum(first) - TOTAL_FACES;
      Sizes(dist)[i] == first[i] + (if first[i] > 1 && SparesBehind(first, i) < surplus then -1
                                    else if i < -surplus then 1 else 0)
  {
    FirstIsNearest(dist, first);
    hide FirstSizes, Sum, Trimmed, SparesBehind, Nearest, Ideal;
    var surplus := Sum(first) - TOTAL_FACES;
    if surplus > 0 { TrimmedAt(first, surplus, i); }
  }

  /** From the chat command's numbers, which may be negative: a pool of dice is
      mapped right exactly for 0 to 19 dice; below zero the distribution is empty. */
  lemma DicePoolsMapped(n: int, attack: int, defense: int)
    requires 1 <= attack <= 7 && 1 <= defense <= 7
    ensures var sizes := Sizes(D6Roll(n, attack, defense));
      (Sum(sizes) == TOTAL_FACES && forall i :: 0 <= i < |sizes| ==> sizes[i] >= 1) <==> 0 <= n <= 19
  {
    if n < 0 {
      assert Sizes(D6Roll(n, attack, defense)) == [];
    } else {
      BinomialTheorem(n, attack, defense);
      ProbabilitiesNonNegative(n, attack, defense);
      MappingWorksIff(D6Roll(n, attack, defense));
    }
  }

  // -------------------------------------------------------------------- ranges

  /** A line of the mapping table: the faces `first` to `last` stand for `val`. */
  datatype Line = Line(first: int, last: int, val: nat)

  /** The lines cover `lo` to `hi` - 1 in order, each from where the one before it ended. */
  predicate Tiles(lines: seq<Line>, lo: int, hi: int) {
    if lines == [] then lo == hi
    else
      var l := lines[|lines| - 1];
      l.first <= l.last && l.last + 1 == hi && Tiles(lines[..|lines| - 1], lo, l.first)
  }

  /** The value on face `f`; of overlapping lines the last would count. */
  function ValueOn(lines: seq<Line>, f: int): nat {
    if lines == [] then 0
    else
      var l := lines[|lines| - 1];
      if l.first <= f <= l.last then l.val else ValueOn(lines[..|lines| - 1], f)
  }

  /** Every face of a tiled range is on exactly one line. */
  lemma {:induction false} ExactlyOneLine(lines: seq<Line>, lo: int, hi: int, f: int) returns (i: nat)
    requires Tiles(lines, lo, hi) && lo <= f < hi
    ensures i < |lines| && lines[i].first <= f <= lines[i].last && ValueOn(lines, f) == lines[i].val
    ensures forall k :: 0 <= k < |lines| && lines[k].first <= f <= lines[k].last ==> k == i
  {
    var front, l := lines[..|lines| - 1], lines[|lines| - 1];
    if f >= l.first {
      i := |lines| - 1;
      LinesBelow(front, lo, l.first);
      assert forall k :: 0 <= k < |front| ==> front[k] == lines[k];
    } else {
      i := ExactlyOneLine(front, lo, l.first, f);
      forall k | 0 <= k < |lines| && lines[k].first <= f <= lines[k].last ensures k == i {
        if k < |front| { assert front[k] == lines[k]; }
      }
    }
  }

  lemma {:induction false} LinesBelow(lines: seq<Line>, lo: int, hi: int)
    requires Tiles(lines, lo, hi)
    ensures lo <= hi && forall k :: 0 <= k < |lines| ==> lo <= lines[k].first <= lines[k].last < hi
  {
    if lines == [] {
    } else {
      LinesBelow(lines[..|lines| - 1], lo, lines[|lines| - 1].first);
      forall k | 0 <= k < |lines| ensures lo <= lines[k].first <= lines[k].last < hi {
        if k < |lines| - 1 { assert lines[..|lines| - 1][k] == lines[k]; }
      }
    }
  }

  /** The sum of the values on the faces `lo` to `hi` - 1. */
  function FaceSum(lines: seq<Line>, lo: int, hi: int): int
    decreases hi - lo
  {
    if hi <= lo then 0 else FaceSum(lines, lo, hi - 1) + ValueOn(lines, hi - 1)
  }

  /** The lines for these face counts; a group without faces has none. */
  function LinesOf(sizes: seq<int>): seq<Line> {
    if sizes == [] then []
    else
      var front, last := sizes[..|sizes| - 1], sizes[|sizes| - 1];
      LinesOf(front) + if last == 0 then [] else [Line(Sum(front) + 1, Sum(sizes), |front|)]
  }

  /** Groups that all have faces get lines that tile the faces from 1 on, one
      line each, with as many faces as the group has. */
  lemma {:induction false} LinesTile(sizes: seq<int>)
    requires forall i :: 0 <= i < |sizes| ==> sizes[i] >= 1
    ensures Tiles(LinesOf(sizes), 1, Sum(sizes) + 1) && |LinesOf(sizes)| == |sizes|
    ensures forall i :: 0 <= i < |sizes| ==>
      LinesOf(sizes)[i].val == i && LinesOf(sizes)[i].last - LinesOf(sizes)[i].first + 1 == sizes[i]
  {
    if sizes == [] {
    } else {
      hide LinesOf, Tiles, Sum;
      var front := sizes[..|sizes| - 1];
      LinesTile(front);
      LastLine(sizes);
      TilesMore(LinesOf(front), 1, Sum(front) + 1, Line(Sum(front) + 1, Sum(sizes), |front|));
    }
  }

  /** Whatever the face counts, each group with some has one line, from behind all faces
      before it to its own last one, and there are no other lines. */
  lemma {:induction false} LinesAre(sizes: seq<int>, l: Line)
    ensures l in LinesOf(sizes) <==>
      l.val < |sizes| && sizes[l.val] != 0 && l.first == Sum(sizes[..l.val]) + 1 && l.last == Sum(sizes[..l.val + 1])
  {
    if sizes == [] {
    } else {
      var front, n := sizes[..|sizes| - 1], |sizes| - 1;
      LinesAre(front, l);
      assert sizes[..n + 1] == sizes;
      if l.val < n { assert front[..l.val] == sizes[..l.val] && front[..l.val + 1] == sizes[..l.val + 1]; }
      hide Sum;
    }
  }

  lemma LastLine(sizes: seq<int>)
    requires sizes != [] && sizes[|sizes| - 1] >= 1
    ensures var front := sizes[..|sizes| - 1];
      && Sum(sizes) == Sum(front) + sizes[|sizes| - 1]
      && LinesOf(sizes) == LinesOf(front) + [Line(Sum(front) + 1, Sum(sizes), |front|)]
  {
  }

  lemma TilesMore(lines: seq<Line>, lo: int, hi: int, l: Line)
    requires Tiles(lines, lo, hi) && l.first == hi <= l.last
    ensures Tiles(lines + [l], lo, l.last + 1)
  {
    assert (lines + [l])[..|lines|] == lines;
  }

  /** `sum(val * size for val, size in enumerate(sizes))`. */
  function Weighted(sizes: seq<int>): int {
    if sizes == [] then 0 else Weighted(sizes[..|sizes| - 1]) + (|sizes| - 1) * sizes[|sizes| - 1]
  }

  lemma {:induction false} FacesOfLast(lines: seq<Line>, lo: int, hi: int)
    requires lines != [] && Tiles(lines[..|lines| - 1], lo, lines[|lines| - 1].first)
    requires lo <= lines[|lines| - 1].first <= hi <= lines[|lines| - 1].last + 1
    ensures FaceSum(lines, lo, hi) ==
      FaceSum(lines[..|lines| - 1], lo, lines[|lines| - 1].first)
      + lines[|lines| - 1].val * (hi - lines[|lines| - 1].first)
    decreases hi - lo
  {
    var l := lines[|lines| - 1];
    if hi > l.first {
      FacesOfLast(lines, lo, hi - 1);
      assert l.val * (hi - l.first) == l.val * (hi - 1 - l.first) + l.val;
    } else {
      FacesBelow(lines, lo, hi);
    }
  }

  lemma {:induction false} FacesBelow(lines: seq<Line>, lo: int, hi: int)
    requires lines != [] && hi <= lines[|lines| - 1].first
    ensures FaceSum(lines, lo, hi) == FaceSum(lines[..|lines| - 1], lo, hi)
    decreases hi - lo
  {
    if hi <= lo {
    } else {
      FacesBelow(lines, lo, hi - 1);
    }
  }

  /** The weighted sum of the sizes is the sum of what a roll of each face gives. */
  lemma {:induction false} WeightedIsFaceSum(sizes: seq<int>)
    requires forall i :: 0 <= i < |sizes| ==> sizes[i] >= 1
    ensures Weighted(sizes) == FaceSum(LinesOf(sizes), 1, Sum(sizes) + 1)
  {
    if sizes == [] {
    } else {
      var front := sizes[..|sizes| - 1];
      assert Weighted(sizes) == Weighted(front) + |front| * sizes[|front|];
      hide LinesOf, Sum, Tiles, FaceSum, Weighted;
      WeightedIsFaceSum(front);
      LinesTile(front);
      LinesBelow(LinesOf(front), 1, Sum(front) + 1);
      LastLine(sizes);
      var lines := LinesOf(sizes);
      assert lines[..|lines| - 1] == LinesOf(front);
      assert lines[|lines| - 1] == Line(Sum(front) + 1, Sum(sizes), |front|);
      FacesOfLast(lines, 1, Sum(sizes) + 1);
      assert Sum(sizes) + 1 - (Sum(front) + 1) == sizes[|front|];
    }
  }

  // ---------------------------------------------------------------- the method

  lemma SumPrefix(s: seq<int>, i: nat)
    requires i < |s|
    ensures Sum(s[..i + 1]) == Sum(s[..i]) + s[i]
  {
    assert s[..i + 1][..i] == s[..i];
  }

  method MakeLines(sizes: seq<int>) returns (lines: seq<Line>)
    ensures lines == LinesOf(sizes)
  {
    lines := [];
    var start := 1;
    for val := 0 to |sizes|
      invariant lines == LinesOf(sizes[..val]) && start == Sum(sizes[..val]) + 1
    {
      SumPrefix(sizes, val);
      assert sizes[..val + 1][..val] == sizes[..val];
      if sizes[val] == 0 {
        continue;
      }
      var end := start + sizes[val] - 1;
      lines := lines + [Line(start, end, val)];
      start := end + 1;
    }
    assert sizes[..|sizes|] == sizes;
  }

  method Expectations(dist: seq<real>, sizes: seq<int>) returns (original: real, mapped: real)
    requires |sizes| == |dist|
    ensures original == Expectation(dist) && mapped == Weighted(sizes) as real / 20.0
  {
    original, mapped := 0.0, 0.0;
    for i := 0 to |dist|
      invariant original == Expectation(dist[..i]) && mapped == Weighted(sizes[..i]) as real / 20.0
    {
      assert dist[..i + 1][..i] == dist[..i] && sizes[..i + 1][..i] == sizes[..i];
      original := original + Times(i as real, dist[i]);
      mapped := mapped + Times(i as real, sizes[i] as real / 20.0);
    }
    assert dist[..|dist|] == dist && sizes[..|dist|] == sizes;
  }

  /** d20_mapping without the logarithms: the lines, the new distribution and
      both expectations, for any list of numbers. */
  method Map(dist: seq<real>)
    returns (lines: seq<Line>, sizes: seq<int>, newDist: seq<real>, original: real, mapped: real)
    ensures sizes == Sizes(dist) && lines == LinesOf(sizes)
    ensures |newDist| == |dist| && forall i :: 0 <= i < |dist| ==> newDist[i] == sizes[i] as real / 20.0
    ensures original == Expectation(dist) && mapped == Weighted(sizes) as real / 20.0
  {
    sizes := FirstSizes(dist);
    var diff := Sum(sizes) - TOTAL_FACES;
    if diff > 0 {
      sizes := TrimBack(sizes, diff);
    } else if diff < 0 {
      sizes := PadFront(sizes, -diff);
    } else {
      assert sizes == Padded(sizes, 0);
    }
    lines := MakeLines(sizes);
    newDist := seq(|sizes|, i requires 0 <= i < |sizes| => sizes[i] as real / 20.0);
    original, mapped := Expectations(dist, sizes);
  }

  lemma {:induction false} NewTotal(sizes: seq<int>, newDist: seq<real>)
    requires |newDist| == |sizes| && forall i :: 0 <= i < |sizes| ==> newDist[i] == sizes[i] as real / 20.0
    ensures Total(newDist) == Sum(sizes) as real / 20.0
  {
    if sizes == [] {
    } else {
      NewTotal(sizes[..|sizes| - 1], newDist[..|sizes| - 1]);
    }
  }

  /** The new distribution is one again. */
  lemma NewDistributionSums(dist: seq<real>, newDist: seq<real>)
    requires Distribution(dist) && |dist| <= TOTAL_FACES
    requires |newDist| == |dist| && forall i :: 0 <= i < |dist| ==> newDist[i] == Sizes(dist)[i] as real / 20.0
    ensures Total(newDist) == 1.0
  {
    var sizes := Sizes(dist);
    RepairSuffices(dist);
    NewTotal(sizes, newDist);
  }

  /** The table for a distribution of at most twenty groups: its lines tile the
      faces 1 to 20 in order, one line per group, and the mapped expectation is
      the mean of what the twenty faces give. */
  lemma TableIsRight(dist: seq<real>)
    requires Distribution(dist) && |dist| <= TOTAL_FACES
    ensures var lines := LinesOf(Sizes(dist));
      && Tiles(lines, 1, 21) && |lines| == |dist|
      && (forall i :: 0 <= i < |lines| ==> lines[i].val == i)
      && Weighted(Sizes(dist)) == FaceSum(lines, 1, 21)
  {
    var sizes := Sizes(dist);
    RepairSuffices(dist);
    LinesTile(sizes);
    WeightedIsFaceSum(sizes);
  }
}
