/**
 get_font_wrap: lines are broken where the next glyph would no longer fit.  Widths
 add up glyph by glyph and are whole numbers of pixels.
 */
module FontWrap {

  type Font = char -> nat

  /** `font.getbbox(line)[2]`. */
  function Width(font: Font, line: string): nat {
    if line == "" then 0 else Width(font, line[..|line| - 1]) + font(line[|line| - 1])
  }

  /** Python's `line[:pos]` for a position of either sign: how many characters it keeps. */
  function Kept(line: string, pos: int): (k: nat)
    ensures k <= |line|
  {
    if pos >= 0 then (if pos <= |line| then pos else |line|)
    else if |line| + pos >= 0 then |line| + pos else 0
  }

  /** The width of the first `k` characters. */
  function Upto(font: Font, line: string, k: nat): nat
    requires k <= |line|
  {
    Width(font, line[..k])
  }

  lemma UptoNext(font: Font, line: string, k: nat)
    requires k < |line|
    ensures Upto(font, line, k + 1) == Upto(font, line, k) + font(line[k])
  {
    assert line[..k + 1][..k] == line[..k];
  }

  lemma {:induction false} UptoMonotone(font: Font, line: string, j: nat, k: nat)
    requires j <= k <= |line|
    ensures Upto(font, line, j) <= Upto(font, line, k)
    decreases k
  {
    if j == k {
    } else {
      UptoNext(font, line, k - 1);
      UptoMonotone(font, line, j, k - 1);
    }
  }

  // ---------------------------------------------------------------- the search

  /** How many characters fit into the box. */
  function Fitting(font: Font, line: string, box: nat, n: nat): (k: nat)
    requires n <= |line|
    ensures k <= n && Upto(font, line, k) <= box
    ensures k < n ==> Upto(font, line, k + 1) > box
  {
    if n == 0 then 0
    else if Upto(font, line, n) <= box then n
    else Fitting(font, line, box, n - 1)
  }

  /** How many characters stay short of the box; none if already one reaches it. */
  function Short(font: Font, line: string, box: nat, n: nat): (k: nat)
    requires n <= |line|
    ensures k <= n && (k > 0 ==> Upto(font, line, k) < box)
    ensures k < n ==> Upto(font, line, k + 1) >= box
  {
    if n == 0 then 0
    else if Upto(font, line, n) < box then n
    else Short(font, line, box, n - 1)
  }

  /** The first guess, from the average width of a character. */
  function Guess(font: Font, line: string, box: nat): (g: int)
    requires Width(font, line) > box
    ensures -1 <= g
  {
    box * |line| / Width(font, line) - 1
  }

  lemma LessTimes(a: int, b: int, n: int)
    requires a < b && n > 0
    ensures a * n < b * n
  {
  }

  lemma NoMoreTimes(w: int, n: int, q: int)
    requires w > 0 && q >= n
    ensures w * n <= w * q
  {
  }

  lemma GuessInside(font: Font, line: string, box: nat)
    requires Width(font, line) > box
    ensures line != "" && Guess(font, line, box) <= |line| - 2
  {
    var w, n, q := Width(font, line), |line|, box * |line| / Width(font, line);
    LessTimes(box, w, n);
    if q >= n { NoMoreTimes(w, n, q); }
  }

  /** What the two comparisons of the inner loop say about a place. */
  lemma Sides(font: Font, line: string, box: nat, k: nat)
    requires k <= |line|
    ensures Upto(font, line, k) <= box <==> k <= Fitting(font, line, box, |line|)
    ensures Upto(font, line, k) < box <==> 0 < box && k <= Short(font, line, box, |line|)
  {
    var fit, short := Fitting(font, line, box, |line|), Short(font, line, box, |line|);
    UptoMonotone(font, line, 0, k);
    if k <= fit { UptoMonotone(font, line, k, fit); } else { UptoMonotone(font, line, fit + 1, k); }
    if k <= short { UptoMonotone(font, line, k, short); } else { UptoMonotone(font, line, short + 1, k); }
  }

  /** Where the inner loop ends.  From a guess that is too large, or that wraps around
      to a place too far behind, it goes down to the last place that fits; from any
      other it goes up until one more character would reach the width of the box. */
  function Found(font: Font, line: string, box: nat): (k: nat)
    requires Width(font, line) > box
    ensures k <= |line|
  {
    GuessInside(font, line, box);
    var n, guess := |line|, Guess(font, line, box);
    var fit, short := Fitting(font, line, box, n), Short(font, line, box, n);
    if guess > fit || (guess == -1 && (fit < n - 1 || box == 0)) then fit
    else if guess > short then guess else short
  }

  /** A place where the inner loop may end. */
  predicate SplitAt(font: Font, line: string, box: nat, k: nat) {
    k < |line| && Upto(font, line, k) <= box <= Upto(font, line, k + 1)
  }

  lemma FoundPlace(font: Font, line: string, box: nat)
    requires Width(font, line) > box
    ensures SplitAt(font, line, box, Found(font, line, box))
  {
    hide Upto, Guess, Fitting, Short, Width;
    var k := Found(font, line, box);
    UptoAll(font, line);
    Sides(font, line, box, |line|);
    Sides(font, line, box, k);
    Sides(font, line, box, k + 1);
    GuessInside(font, line, box);
    if box == 0 { NothingShort(font, line); }
  }

  lemma NothingShort(font: Font, line: string)
    requires Width(font, line) > 0
    ensures Guess(font, line, 0) == -1
  {
  }

  /** Whether a break at the found position would leave the line as it is. */
  predicate Stuck(font: Font, line: string, box: nat)
    requires Width(font, line) > box && line != ""
  {
    var first, guess := font(line[0]), Guess(font, line, box);
    || first > box
    || (first == box > 0 && (guess == 0 || (guess == -1 && Upto(font, line, |line| - 1) <= box)))
  }

  lemma FoundNothingIff(font: Font, line: string, box: nat)
    requires Width(font, line) > box && line != ""
    ensures Found(font, line, box) == 0 <==> Stuck(font, line, box)
  {
    hide Upto, Guess, Fitting, Short;
    UptoAll(font, line);
    FirstWidth(font, line);
    Sides(font, line, box, 1);
    Sides(font, line, box, |line| - 1);
    Sides(font, line, box, |line|);
    if box == 0 { NothingShort(font, line); }
  }

  /** The inner loop: from the guess step by step to a place where what is kept fits
      and one more character would reach the width of the box.  It always ends, but may
      end in front of the first character. */
  method FindSplit(font: Font, line: string, box: nat) returns (k: nat)
    requires Width(font, line) > box
    ensures k == Found(font, line, box) && SplitAt(font, line, box, k)
    ensures line != "" && (k == 0 <==> Stuck(font, line, box))
  {
    hide Upto, Fitting, Short, Stuck, Guess;
    var pos := Guess(font, line, box);
    ghost var n, guess := |line|, pos;
    GuessInside(font, line, box);
    ghost var fit, short := Fitting(font, line, box, n), Short(font, line, box, n);
    UptoAll(font, line);
    FirstWidth(font, line);
    Sides(font, line, box, n);
    if box == 0 { NothingShort(font, line); }
    while true
      invariant -n <= pos < n
      invariant guess > fit ==> fit <= pos <= guess
      invariant 0 <= guess <= fit ==> guess <= pos && (pos > guess ==> pos <= short)
      invariant guess == -1 && fit < n - 1 ==> fit - n <= pos <= -1
      invariant guess == -1 && fit == n - 1 ==> pos == -1 || (0 <= pos <= short && 0 < box)
      decreases if guess > fit then pos - fit
                else if guess == -1 && fit < n - 1 then n + pos - fit
                else n - pos
    {
      var left, right := Upto(font, line, Kept(line, pos)), Upto(font, line, Kept(line, pos + 1));
      Sides(font, line, box, Kept(line, pos));
      Sides(font, line, box, Kept(line, pos + 1));
      if left > box {
        pos := pos - 1;
      } else if right < box {
        pos := pos + 1;
      } else {
        break;
      }
    }
    k := Kept(line, pos);
    FoundPlace(font, line, box);
    FoundNothingIff(font, line, box);
  }

  lemma UptoAll(font: Font, line: string)
    ensures Upto(font, line, |line|) == Width(font, line)
  {
    assert line[..|line|] == line;
  }

  lemma FirstWidth(font: Font, line: string)
    requires line != ""
    ensures Upto(font, line, 1) == font(line[0]) && Upto(font, line, 0) == 0
  {
    UptoNext(font, line, 0);
  }

  // ---------------------------------------------------------- when a line ends

  /** The loop over a line after any number of turns, if the inner loop may end at any
      possible place: `cuts` are the places found, `rest` is what is left of the line. */
  ghost predicate Cuts(font: Font, line: string, box: nat, cuts: seq<nat>, rest: string)
    decreases |cuts|
  {
    if cuts == [] then rest == line
    else
      && Width(font, line) > box && SplitAt(font, line, box, cuts[0])
      && Cuts(font, line[cuts[0]..], box, cuts[1..], rest)
  }

  /** A glyph wider than the box is never split off: whatever place the inner loop
      may find, the glyph is still in the rest, which is still too wide. */
  lemma WideGlyphStays(font: Font, line: string, box: nat, i: nat, k: nat)
    requires i < |line| && font(line[i]) > box
    requires k <= |line| && Upto(font, line, k) <= box
    ensures k <= i && line[k..][i - k] == line[i] && Width(font, line[k..]) > box
  {
    UptoNext(font, line, i);
    if k > i { UptoMonotone(font, line, i + 1, k); }
    GlyphBound(font, line[k..], i - k);
  }

  /** So, with such a glyph, what is left is too wide after any number of turns: the
      loop over the line never ends. */
  lemma {:induction false} WideNeverEnds(font: Font, line: string, box: nat, i: nat, cuts: seq<nat>, rest: string)
    requires i < |line| && font(line[i]) > box
    requires Cuts(font, line, box, cuts, rest)
    ensures Width(font, rest) > box
    decreases |cuts|
  {
    if cuts == [] {
      GlyphBound(font, line, i);
    } else {
      WideGlyphStays(font, line, box, i, cuts[0]);
      WideNeverEnds(font, line[cuts[0]..], box, i - cuts[0], cuts[1..], rest);
    }
  }

  predicate Narrow(font: Font, line: string, box: nat) {
    forall i :: 0 <= i < |line| ==> font(line[i]) < box
  }

  /** With only narrower glyphs every turn takes something off the line, so there
      are no more turns than characters. */
  lemma {:induction false} NarrowEnds(font: Font, line: string, box: nat, cuts: seq<nat>, rest: string)
    requires Narrow(font, line, box) && Cuts(font, line, box, cuts, rest)
    ensures |cuts| + |rest| <= |line|
    decreases |cuts|
  {
    if cuts == [] {
    } else {
      WideNotEmpty(font, line, box);
      FirstWidth(font, line);
      assert cuts[0] > 0;
      NarrowEnds(font, line[cuts[0]..], box, cuts[1..], rest);
    }
  }

  /** What is left of a line after some turns of the loop. */
  function After(font: Font, line: string, box: nat, turns: nat): string
    decreases turns
  {
    if turns == 0 || Width(font, line) <= box then line
    else After(font, line[Found(font, line, box)..], box, turns - 1)
  }

  /** The loop over a line comes to its end. */
  ghost predicate Ends(font: Font, line: string, box: nat) {
    exists turns: nat :: Width(font, After(font, line, box, turns)) <= box
  }

  lemma {:induction false} StuckStays(font: Font, line: string, box: nat, turns: nat)
    requires Width(font, line) > box && Found(font, line, box) == 0
    ensures After(font, line, box, turns) == line
  {
    if turns == 0 {
    } else {
      StuckStays(font, line, box, turns - 1);
    }
  }

  lemma EndsStep(font: Font, line: string, box: nat)
    requires Width(font, line) > box && line != ""
    ensures Ends(font, line, box) <==> !Stuck(font, line, box) && Ends(font, line[Found(font, line, box)..], box)
  {
    hide Width, Stuck, Found;
    var k := Found(font, line, box);
    FoundNothingIff(font, line, box);
    if turns: nat :| Width(font, After(font, line, box, turns)) <= box {
      assert After(font, line, box, turns) == After(font, line[k..], box, turns - 1);
      if k == 0 { StuckStays(font, line, box, turns); }
    }
    if turns: nat :| Width(font, After(font, line[k..], box, turns)) <= box {
      assert After(font, line, box, turns + 1) == After(font, line[k..], box, turns);
    }
  }

  lemma AfterStep(font: Font, line: string, box: nat, turns: nat)
    ensures turns > 0 && Width(font, line) > box ==>
      After(font, line, box, turns) == After(font, line[Found(font, line, box)..], box, turns - 1)
    ensures turns == 0 || Width(font, line) <= box ==> After(font, line, box, turns) == line
  {
    hide Width, Found;
  }

  lemma {:induction false} AfterCuts(font: Font, line: string, box: nat, turns: nat) returns (cuts: seq<nat>)
    ensures Cuts(font, line, box, cuts, After(font, line, box, turns))
    decreases turns
  {
    hide Width, Found, After, SplitAt;
    cuts := [];
    AfterStep(font, line, box, turns);
    if turns > 0 && Width(font, line) > box {
      var k := Found(font, line, box);
      FoundPlace(font, line, box);
      var more := AfterCuts(font, line[k..], box, turns - 1);
      cuts := [k] + more;
      assert cuts[1..] == more;
    }
  }

  predicate Suffix(s: string, line: string) {
    |s| <= |line| && s == line[|line| - |s|..]
  }

  lemma SuffixOfItself(line: string)
    ensures Suffix(line, line)
  {
  }

  lemma SuffixOfSuffix(s: string, line: string, k: nat)
    requires k <= |line| && Suffix(s, line[k..])
    ensures Suffix(s, line)
  {
  }

  lemma {:induction false} AfterIsSuffix(font: Font, line: string, box: nat, turns: nat)
    ensures Suffix(After(font, line, box, turns), line)
    decreases turns
  {
    hide Width, Found, After, Suffix;
    AfterStep(font, line, box, turns);
    if turns == 0 || Width(font, line) <= box {
      SuffixOfItself(line);
    } else {
      var k := Found(font, line, box);
      AfterIsSuffix(font, line[k..], box, turns - 1);
      SuffixOfSuffix(After(font, line, box, turns), line, k);
    }
  }

  /** No glyph is wider than the box. */
  predicate NoneWider(font: Font, line: string, box: nat) {
    forall i :: 0 <= i < |line| ==> font(line[i]) <= box
  }

  lemma EndsNoneWider(font: Font, line: string, box: nat)
    requires Ends(font, line, box)
    ensures NoneWider(font, line, box)
  {
    var turns: nat :| Width(font, After(font, line, box, turns)) <= box;
    var cuts := AfterCuts(font, line, box, turns);
    forall i | 0 <= i < |line| ensures font(line[i]) <= box {
      if font(line[i]) > box { WideNeverEnds(font, line, box, i, cuts, After(font, line, box, turns)); }
    }
  }

  lemma {:induction false} WidthBound(font: Font, line: string, box: nat)
    requires NoneWider(font, line, box)
    ensures Width(font, line) <= box * |line|
  {
    if line == "" {
    } else {
      WidthBound(font, line[..|line| - 1], box);
    }
  }

  /** A line that the loop gets on with: its first glyph is narrower than the box, or just
      as wide when the line fits or its glyphs take up half the box or less on average. */
  predicate Passes(font: Font, line: string, box: nat) {
    || line == "" || font(line[0]) < box
    || (font(line[0]) == box && (Width(font, line) <= box || 2 * Width(font, line) <= box * |line|))
  }

  /** The loop gets on with all that it comes to. */
  ghost predicate GetsOn(font: Font, line: string, box: nat) {
    forall turns: nat :: Passes(font, After(font, line, box, turns), box)
  }

  /** How the average width decides about the guess. */
  lemma GuessIs(a: nat, w: nat)
    requires w > 0
    ensures a / w - 1 == 0 <==> w <= a < 2 * w
    ensures a / w - 1 == -1 <==> a < w
  {
  }

  lemma StuckIff(font: Font, line: string, box: nat)
    requires Width(font, line) > box && line != ""
    ensures Stuck(font, line, box) ==> !Passes(font, line, box)
    ensures NoneWider(font, line, box) && !Passes(font, line, box) ==> Stuck(font, line, box)
  {
    GuessIs(box * |line|, Width(font, line));
    if NoneWider(font, line, box) { WidthBound(font, line, box); }
  }

  lemma EndingPassesNow(font: Font, line: string, box: nat)
    requires Ends(font, line, box)
    ensures Passes(font, line, box)
  {
    if Width(font, line) <= box {
      if line != "" { GlyphBound(font, line, 0); }
    } else {
      WideNotEmpty(font, line, box);
      hide *;
      EndsStep(font, line, box);
      EndsNoneWider(font, line, box);
      StuckIff(font, line, box);
    }
  }

  lemma {:induction false} EndingPassesOn(font: Font, line: string, box: nat, turns: nat)
    requires Ends(font, line, box)
    ensures Passes(font, After(font, line, box, turns), box)
    decreases turns
  {
    hide *;
    AfterStep(font, line, box, turns);
    if turns == 0 || Width(font, line) <= box {
      EndingPassesNow(font, line, box);
    } else {
      WideNotEmpty(font, line, box);
      EndsStep(font, line, box);
      EndingPassesOn(font, line[Found(font, line, box)..], box, turns - 1);
    }
  }

  lemma {:induction false} PassingOnEnds(font: Font, line: string, box: nat)
    requires GetsOn(font, line, box)
    ensures Ends(font, line, box)
    decreases |line|
  {
    hide Width, Stuck, Found, Passes, Ends;
    assert After(font, line, box, 0) == line;
    if Width(font, line) <= box {
      Fits(font, line, box);
    } else {
      WideNotEmpty(font, line, box);
      StuckIff(font, line, box);
      FoundNothingIff(font, line, box);
      var rest := line[Found(font, line, box)..];
      forall turns: nat ensures Passes(font, After(font, rest, box, turns), box) {
        assert After(font, line, box, turns + 1) == After(font, rest, box, turns);
      }
      PassingOnEnds(font, rest, box);
      EndsStep(font, line, box);
    }
  }

  lemma Fits(font: Font, line: string, box: nat)
    requires Width(font, line) <= box
    ensures Ends(font, line, box)
  {
    assert After(font, line, box, 0) == line;
  }

  /** The loop over any line ends if and only if it gets on with all that it comes to. */
  lemma EndsIff(font: Font, line: string, box: nat)
    ensures Ends(font, line, box) <==> GetsOn(font, line, box)
  {
    hide Passes, Ends, After;
    if Ends(font, line, box) {
      forall turns: nat ensures Passes(font, After(font, line, box, turns), box) {
        EndingPassesOn(font, line, box, turns);
      }
    } else if GetsOn(font, line, box) {
      PassingOnEnds(font, line, box);
    }
  }

  /** It ends whenever it would get on with the line from any glyph on. */
  lemma PassingEnds(font: Font, line: string, box: nat)
    requires forall i :: 0 <= i < |line| ==> Passes(font, line[i..], box)
    ensures Ends(font, line, box)
  {
    forall turns: nat ensures Passes(font, After(font, line, box, turns), box) {
      AfterIsSuffix(font, line, box, turns);
    }
    PassingOnEnds(font, line, box);
  }

  /** If it ends, it gets on with the line from any glyph on that does not stand behind
      one of no width: such a glyph, if as wide as the box, begins a line of its own. */
  lemma {:induction false} EndingPasses(font: Font, line: string, box: nat, i: nat)
    requires Ends(font, line, box) && i < |line| && (i == 0 || box == 0 || font(line[i - 1]) > 0)
    ensures Passes(font, line[i..], box)
    decreases |line|
  {
    EndsNoneWider(font, line, box);
    if font(line[i]) < box {
    } else if Width(font, line) <= box || box == 0 {
      SuffixFits(font, line, box, i);
    } else {
      hide Width, Stuck, Found, Passes, Ends, Upto, NoneWider, SplitAt;
      EndsStep(font, line, box);
      StuckIff(font, line, box);
      var k := Found(font, line, box);
      FoundPlace(font, line, box);
      FoundNothingIff(font, line, box);
      if i == 0 {
        assert line[0..] == line;
      } else {
        FullGlyphBreaks(font, line, box, i, k);
        EndingPasses(font, line[k..], box, i - k);
        assert line[k..][i - k..] == line[i..];
      }
    }
  }

  /** A glyph as wide as the box does not fit behind one that has a width. */
  lemma FullGlyphBreaks(font: Font, line: string, box: nat, i: nat, k: nat)
    requires 0 < i < |line| && font(line[i]) == box && font(line[i - 1]) > 0 && SplitAt(font, line, box, k)
    ensures k <= i
  {
    UptoNext(font, line, i - 1);
    UptoNext(font, line, i);
    if k > i { UptoMonotone(font, line, i + 1, k); }
  }

  lemma SuffixFits(font: Font, line: string, box: nat, i: nat)
    requires NoneWider(font, line, box) && i <= |line| && (Width(font, line) <= box || box == 0)
    ensures Passes(font, line[i..], box)
  {
    if box == 0 {
      WidthBound(font, line[i..], box);
    } else {
      SuffixWidth(font, line, i);
    }
  }

  lemma {:induction false} SuffixWidth(font: Font, line: string, i: nat)
    requires i <= |line|
    ensures Width(font, line[i..]) <= Width(font, line)
  {
    if i == |line| {
    } else {
      var front := line[..|line| - 1];
      SuffixWidth(font, front, i);
      assert line[i..][..|line| - 1 - i] == front[i..];
    }
  }

  /** Unless a glyph of no width stands right in front of one as wide as the box, the
      loop over a line ends if and only if no glyph is wider than the box, and each one
      just as wide begins a rest that fits or takes up half the box or less a glyph. */
  lemma LineEndsIff(font: Font, line: string, box: nat)
    requires forall i :: 0 < i < |line| && font(line[i]) == box > 0 ==> font(line[i - 1]) > 0
    ensures Ends(font, line, box) <==> forall i :: 0 <= i < |line| ==> Passes(font, line[i..], box)
  {
    if Ends(font, line, box) {
      EndsNoneWider(font, line, box);
      forall i | 0 <= i < |line| ensures Passes(font, line[i..], box) {
        if font(line[i]) == box { EndingPasses(font, line, box, i); }
      }
    } else if forall i :: 0 <= i < |line| ==> Passes(font, line[i..], box) {
      PassingEnds(font, line, box);
    }
  }

  lemma {:induction false} GlyphBound(font: Font, line: string, i: nat)
    requires i < |line|
    ensures Width(font, line) >= font(line[i])
  {
    if i == |line| - 1 {
    } else {
      GlyphBound(font, line[..|line| - 1], i);
    }
  }

  /** With a glyph exactly as wide as the box it may or may not end: two such
      glyphs leave the loop where it is, but one before two narrow ones does not. */
  lemma EqualGlyphExamples(font: Font)
    requires font('W') == 10 && font('i') == 1
    ensures !Ends(font, "WW", 10) && Ends(font, "Wii", 10)
  {
    WidthOfTwo(font, 'W', 'W');
    WidthOfTwo(font, 'W', 'i');
    assert "Wii"[..2] == "Wi";
    assert Width(font, "WW") == 20 && Width(font, "Wii") == 12;
    hide Width, Ends;
    assert "WW"[0..] == "WW";
    if Ends(font, "WW", 10) { EndingPasses(font, "WW", 10, 0); }
    assert "Wii"[0..] == "Wii" && "Wii"[1..][0] == 'i' && "Wii"[2..][0] == 'i';
    PassingEnds(font, "Wii", 10);
  }

  lemma WidthOfTwo(font: Font, a: char, b: char)
    ensures Width(font, [a, b]) == font(a) + font(b)
  {
    var s: string := [a, b];
    assert s[..1] == [a] && s[..1][..0] == "";
    assert Width(font, [a]) == Width(font, "") + font(a);
  }

  // -------------------------------------------------------------------- a line

  function Concat(pieces: seq<string>): string {
    if pieces == [] then "" else Concat(pieces[..|pieces| - 1]) + pieces[|pieces| - 1]
  }

  /** One more character would have made `piece` reach the width of the box. */
  predicate Break(font: Font, piece: string, next: string, box: nat) {
    piece != "" && next != "" && Width(font, piece + [next[0]]) >= box
  }

  /** The pieces fit, and every break is as late as it can be. */
  ghost predicate WellBroken(font: Font, pieces: seq<string>, box: nat) {
    && (forall i :: 0 <= i < |pieces| ==> Width(font, pieces[i]) <= box)
    && (forall i, j :: 0 <= i && j == i + 1 && j < |pieces| ==> Break(font, pieces[i], pieces[j], box))
  }

  /** The pieces so far, and what is left of the line. */
  ghost predicate BrokenSoFar(font: Font, pieces: seq<string>, line: string, box: nat) {
    WellBroken(font, pieces, box) && (pieces != [] ==> Break(font, pieces[|pieces| - 1], line, box))
  }

  lemma ConcatMore(pieces: seq<string>, piece: string)
    ensures Concat(pieces + [piece]) == Concat(pieces) + piece
  {
    assert (pieces + [piece])[..|pieces|] == pieces;
  }

  lemma Associative(a: string, b: string, c: string)
    ensures a + (b + c) == a + b + c
  {
  }

  /** The loop over one line; `ended` tells whether it ends.  If not, it comes to a rest
      that stays as it is, while empty pieces are appended for ever. */
  method WrapLine(font: Font, line0: string, box: nat) returns (pieces: seq<string>, ended: bool)
    ensures ended <==> Ends(font, line0, box)
    ensures ended ==> pieces != [] && Concat(pieces) == line0 && WellBroken(font, pieces, box)
    ensures !ended ==> exists rest :: Concat(pieces) + rest == line0 && WellBroken(font, pieces, box)
                                      && rest != "" && Width(font, rest) > box && Stuck(font, rest, box)
  {
    hide Width, Stuck, WellBroken, BrokenSoFar, Break, Concat, Found, Ends;
    pieces := [];
    var line := line0;
    NothingBroken(font, line, box);
    while box < Width(font, line)
      invariant Ends(font, line0, box) <==> Ends(font, line, box)
      invariant Concat(pieces) + line == line0
      invariant BrokenSoFar(font, pieces, line, box)
      decreases |line|
    {
      WideNotEmpty(font, line, box);
      EndsStep(font, line, box);
      var k := FindSplit(font, line, box);
      if k == 0 {
        BrokenBefore(font, pieces, line, box);
        return pieces, false;
      }
      var piece, rest := line[..k], line[k..];
      assert line == piece + rest;
      ConcatMore(pieces, piece);
      Associative(Concat(pieces), piece, rest);
      BreakMore(font, pieces, line, k, box);
      pieces, line := pieces + [piece], rest;
    }
    Fits(font, line, box);
    ConcatMore(pieces, line);
    BreakLast(font, pieces, line, box);
    return pieces + [line], true;
  }

  lemma BrokenBefore(font: Font, pieces: seq<string>, line: string, box: nat)
    requires BrokenSoFar(font, pieces, line, box)
    ensures WellBroken(font, pieces, box)
  {
  }

  lemma NothingBroken(font: Font, line: string, box: nat)
    ensures BrokenSoFar(font, [], line, box) && Concat([]) + line == line
  {
  }

  lemma WideNotEmpty(font: Font, line: string, box: nat)
    requires Width(font, line) > box
    ensures line != ""
  {
  }

  lemma BreakMore(font: Font, pieces: seq<string>, line: string, k: nat, box: nat)
    requires BrokenSoFar(font, pieces, line, box) && 0 < k < |line|
    requires Upto(font, line, k) <= box <= Upto(font, line, k + 1)
    ensures BrokenSoFar(font, pieces + [line[..k]], line[k..], box)
  {
    hide Width;
    assert line[..k][0] == line[0] && line[..k + 1] == line[..k] + [line[k..][0]];
    assert forall i :: 0 <= i < |pieces| ==> (pieces + [line[..k]])[i] == pieces[i];
  }

  lemma BreakLast(font: Font, pieces: seq<string>, line: string, box: nat)
    requires BrokenSoFar(font, pieces, line, box) && Width(font, line) <= box
    ensures WellBroken(font, pieces + [line], box)
  {
    hide Width, Break;
  }

  // ---------------------------------------------------------------- paragraphs

  /** `text.split("\n")`. */
  function Split(text: string): (r: seq<string>)
    ensures r != []
  {
    if text == "" then [""]
    else
      var front, c := Split(text[..|text| - 1]), text[|text| - 1];
      if c == '\n' then front + [""] else front[..|front| - 1] + [front[|front| - 1] + [c]]
  }

  /** `"\n".join(lines)`. */
  function Join(lines: seq<string>): string {
    if lines == [] then ""
    else if |lines| == 1 then lines[0]
    else Join(lines[..|lines| - 1]) + "\n" + lines[|lines| - 1]
  }

  function Flatten(pieces: seq<seq<string>>): seq<string> {
    if pieces == [] then [] else Flatten(pieces[..|pieces| - 1]) + pieces[|pieces| - 1]
  }

  /** The whole text; `ended` tells whether the loop over every paragraph ends. */
  method Wrap(font: Font, text: string, box: nat)
    returns (wrapped: string, pieces: seq<seq<string>>, ended: bool)
    ensures ended <==> forall p :: 0 <= p < |Split(text)| ==> Ends(font, Split(text)[p], box)
    ensures ended ==> wrapped == Join(Flatten(pieces)) && Split(wrapped) == Flatten(pieces)
    ensures ended ==> Letters(wrapped) == Letters(text)
    ensures ended ==> |pieces| == |Split(text)| && forall p :: 0 <= p < |pieces| ==>
      pieces[p] != [] && Concat(pieces[p]) == Split(text)[p] && WellBroken(font, pieces[p], box)
  {
    var lines := Split(text);
    SplitFeeds(text);
    assert NoFeeds(lines);
    var res: seq<string> := [];
    pieces := [];
    assert Flatten(pieces) == res;
    assert NoFeeds(res) && AllBroken(font, lines[..0], pieces, box);
    hide Split, Join, WellBroken, Concat, Ends, Flatten, NoFeeds, AllBroken;
    for p := 0 to |lines|
      invariant |pieces| == p && res == Flatten(pieces) && (p > 0 ==> res != [])
      invariant NoFeeds(res) && AllBroken(font, lines[..p], pieces, box)
    {
      var broken, lineEnded := WrapLine(font, lines[p], box);
      if !lineEnded {
        assert !Ends(font, Split(text)[p], box);
        return "", pieces, false;
      }
      FeedsMore(res, broken, lines, p);
      BrokenMore(font, lines, p, pieces, broken, box);
      FlattenMore(pieces, broken);
      res, pieces := res + broken, pieces + [broken];
    }
    assert lines[..|lines|] == lines;
    Wrapped(font, text, pieces, box);
    return Join(res), pieces, true;
  }

  predicate NoFeeds(lines: seq<string>) {
    forall i :: 0 <= i < |lines| ==> '\n' !in lines[i]
  }

  /** Each line is cut into its pieces, as late as can be. */
  ghost predicate AllBroken(font: Font, lines: seq<string>, pieces: seq<seq<string>>, box: nat) {
    |pieces| == |lines| && forall p :: 0 <= p < |pieces| ==>
      && Ends(font, lines[p], box)
      && pieces[p] != [] && Concat(pieces[p]) == lines[p] && WellBroken(font, pieces[p], box)
  }

  lemma FeedsMore(res: seq<string>, broken: seq<string>, lines: seq<string>, p: nat)
    requires NoFeeds(res) && p < |lines| && NoFeeds(lines) && Concat(broken) == lines[p]
    ensures NoFeeds(res + broken)
  {
    PiecesWithout(broken, '\n');
  }

  lemma BrokenMore(font: Font, lines: seq<string>, p: nat, pieces: seq<seq<string>>, broken: seq<string>, box: nat)
    requires p < |lines| && AllBroken(font, lines[..p], pieces, box) && Ends(font, lines[p], box)
    requires broken != [] && Concat(broken) == lines[p] && WellBroken(font, broken, box)
    ensures AllBroken(font, lines[..p + 1], pieces + [broken], box)
  {
    hide Ends, Concat, WellBroken;
    var more := pieces + [broken];
    forall q | 0 <= q < |more|
      ensures Ends(font, lines[..p + 1][q], box) && more[q] != [] && Concat(more[q]) == lines[..p + 1][q]
      ensures WellBroken(font, more[q], box)
    {
      if q < p { assert more[q] == pieces[q] && lines[..p + 1][q] == lines[..p][q]; }
    }
  }

  /** What is known once all paragraphs are broken. */
  lemma Wrapped(font: Font, text: string, pieces: seq<seq<string>>, box: nat)
    requires AllBroken(font, Split(text), pieces, box) && NoFeeds(Flatten(pieces)) && Flatten(pieces) != []
    ensures forall p :: 0 <= p < |Split(text)| ==> Ends(font, Split(text)[p], box)
    ensures |pieces| == |Split(text)| && forall p :: 0 <= p < |pieces| ==>
      pieces[p] != [] && Concat(pieces[p]) == Split(text)[p] && WellBroken(font, pieces[p], box)
    ensures Split(Join(Flatten(pieces))) == Flatten(pieces) && Letters(Join(Flatten(pieces))) == Letters(text)
  {
    hide Split, Join, Letters, WellBroken, Concat, Ends, Flatten;
    SplitJoin(Flatten(pieces));
    OnlyLineFeeds(text, pieces);
  }

  lemma FlattenMore(pieces: seq<seq<string>>, broken: seq<string>)
    ensures Flatten(pieces + [broken]) == Flatten(pieces) + broken
  {
    assert (pieces + [broken])[..|pieces|] == pieces;
  }

  /** Paragraphs have no line feeds in them. */
  lemma {:induction false} SplitFeeds(text: string)
    ensures forall p :: 0 <= p < |Split(text)| ==> '\n' !in Split(text)[p]
  {
    if text == "" {
    } else {
      SplitFeeds(text[..|text| - 1]);
    }
  }

  /** The characters of a text without its line feeds. */
  function Letters(text: string): string {
    if text == "" then ""
    else Letters(text[..|text| - 1]) + if text[|text| - 1] == '\n' then "" else [text[|text| - 1]]
  }

  lemma {:induction false} LettersAppend(a: string, b: string)
    ensures Letters(a + b) == Letters(a) + Letters(b)
  {
    if b == "" {
      assert a + b == a;
    } else {
      LettersAppend(a, b[..|b| - 1]);
      assert (a + b)[..|a + b| - 1] == a + b[..|b| - 1];
    }
  }

  lemma {:induction false} LettersPlain(line: string)
    requires '\n' !in line
    ensures Letters(line) == line
  {
    if line == "" {
    } else {
      LettersPlain(line[..|line| - 1]);
      assert line == line[..|line| - 1] + [line[|line| - 1]];
    }
  }

  /** Joining lines adds nothing but line feeds. */
  lemma {:induction false} LettersJoin(lines: seq<string>)
    requires forall i :: 0 <= i < |lines| ==> '\n' !in lines[i]
    ensures Letters(Join(lines)) == Concat(lines)
  {
    if lines == [] {
    } else {
      var front, last := lines[..|lines| - 1], lines[|lines| - 1];
      LettersJoin(front);
      LettersPlain(last);
      hide Letters;
      if front == [] {
        assert Concat(lines) == "" + last;
      } else {
        LettersAppend(Join(front) + "\n", last);
        LettersAppend(Join(front), "\n");
        LineFeed(Join(front));
      }
    }
  }

  lemma LineFeed(text: string)
    ensures Letters(text + "\n") == Letters(text)
  {
    assert (text + "\n")[..|text|] == text;
  }

  /** Joining undoes splitting. */
  lemma {:induction false} JoinSplit(text: string)
    ensures Join(Split(text)) == text
  {
    if text == "" {
    } else {
      var front, c := Split(text[..|text| - 1]), text[|text| - 1];
      JoinSplit(text[..|text| - 1]);
      assert text == text[..|text| - 1] + [c];
      hide Split, Join;
      if c == '\n' {
        JoinMore(front, "");
      } else {
        assert front == front[..|front| - 1] + [front[|front| - 1]];
        JoinLonger(front[..|front| - 1], front[|front| - 1], [c]);
      }
    }
  }

  lemma JoinMore(front: seq<string>, last: string)
    ensures Join(front + [last]) == if front == [] then last else Join(front) + "\n" + last
  {
    assert (front + [last])[..|front|] == front;
  }

  lemma JoinLonger(front: seq<string>, last: string, c: string)
    ensures Join(front + [last + c]) == Join(front + [last]) + c
  {
    hide Join;
    JoinMore(front, last);
    JoinMore(front, last + c);
    if front != [] { Associative(Join(front) + "\n", last, c); }
  }

  /** Both ways of putting the pieces of all paragraphs together. */
  lemma {:induction false} ConcatFlatten(pieces: seq<seq<string>>, lines: seq<string>)
    requires |pieces| == |lines| && forall p :: 0 <= p < |pieces| ==> Concat(pieces[p]) == lines[p]
    ensures Concat(Flatten(pieces)) == Concat(lines)
  {
    if pieces == [] {
    } else {
      var front, last := pieces[..|pieces| - 1], pieces[|pieces| - 1];
      ConcatFlatten(front, lines[..|lines| - 1]);
      hide Flatten;
      ConcatAppend(Flatten(front), last);
    }
  }

  lemma {:induction false} ConcatAppend(a: seq<string>, b: seq<string>)
    ensures Concat(a + b) == Concat(a) + Concat(b)
  {
    if b == [] {
      assert a + b == a;
    } else {
      ConcatAppend(a, b[..|b| - 1]);
      assert (a + b)[..|a + b| - 1] == a + b[..|b| - 1];
      Associative(Concat(a), Concat(b[..|b| - 1]), b[|b| - 1]);
    }
  }

  /** Wrapping puts in line feeds and changes nothing else. */
  lemma OnlyLineFeeds(text: string, pieces: seq<seq<string>>)
    requires |pieces| == |Split(text)| && forall p :: 0 <= p < |pieces| ==> Concat(pieces[p]) == Split(text)[p]
    requires forall i :: 0 <= i < |Flatten(pieces)| ==> '\n' !in Flatten(pieces)[i]
    ensures Letters(Join(Flatten(pieces))) == Letters(text)
  {
    hide *;
    LettersJoin(Flatten(pieces));
    ConcatFlatten(pieces, Split(text));
    SplitFeeds(text);
    LettersJoin(Split(text));
    JoinSplit(text);
  }

  /** A character not in the line is in none of its pieces. */
  lemma {:induction false} PiecesWithout(pieces: seq<string>, c: char)
    requires c !in Concat(pieces)
    ensures forall i :: 0 <= i < |pieces| ==> c !in pieces[i]
  {
    if pieces == [] {
    } else {
      PiecesWithout(pieces[..|pieces| - 1], c);
    }
  }

  /** Splitting undoes joining for lines without line feeds, so the lines of the
      wrapped text are exactly the pieces. */
  lemma {:induction false} SplitJoin(lines: seq<string>)
    requires lines != [] && forall i :: 0 <= i < |lines| ==> '\n' !in lines[i]
    ensures Split(Join(lines)) == lines
  {
    if |lines| == 1 {
      SplitPlain(lines[0]);
      assert lines == [lines[0]];
    } else {
      var front, last := lines[..|lines| - 1], lines[|lines| - 1];
      hide Split;
      SplitJoin(front);
      assert Join(lines) == Join(front) + "\n" + last;
      hide Join;
      SplitAppend(Join(front), last);
      assert lines == front + [last];
    }
  }

  lemma {:induction false} SplitPlain(line: string)
    requires '\n' !in line
    ensures Split(line) == [line]
  {
    if line == "" {
    } else {
      SplitPlain(line[..|line| - 1]);
      assert line == line[..|line| - 1] + [line[|line| - 1]];
    }
  }

  lemma {:induction false} SplitAppend(text: string, line: string)
    requires '\n' !in line
    ensures Split(text + "\n" + line) == Split(text) + [line]
  {
    var all := text + "\n" + line;
    if line == "" {
      assert all == text + "\n" && all[..|all| - 1] == text;
    } else {
      var front := line[..|line| - 1];
      SplitAppend(text, front);
      assert all[..|all| - 1] == text + "\n" + front;
      assert line == front + [line[|line| - 1]];
    }
  }
}
