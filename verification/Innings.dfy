/**
 The course of a baseball game as a value: half-innings, rounds, extra rounds and the
 end, with the box score of every half-inning.
 */
module Innings {
  import opened Basics
  import opened Diamond

  datatype Phase = Regular | Extra | Over

  /** A finished half-inning of `team`. */
  datatype Half = Half(team: nat, faced: nat, runs: nat, outs: nat, left: nat)

  /** The game's fields, `between` between half-innings, and a log of the half-innings. */
  datatype Course<T> = Course(
    atk: nat, score: seq<seq<int>>, base: seq<Runner<T>>, round: nat, turnOut: nat,
    phase: Phase, between: bool, turns: seq<nat>, faced: nat, halfRuns: nat, log: seq<Half>)

  function RunsIn(log: seq<Half>, team: nat): int {
    if log == [] then 0
    else RunsIn(log[..|log| - 1], team) + if log[|log| - 1].team == team then log[|log| - 1].runs else 0
  }

  function HalvesOf(log: seq<Half>, team: nat): nat {
    if log == [] then 0
    else HalvesOf(log[..|log| - 1], team) + if log[|log| - 1].team == team then 1 else 0
  }

  /** Runs for the batting side go to the last entry of its list. */
  function Scored(score: seq<int>, runs: nat): (r: seq<int>)
    requires score != []
    ensures |r| == |score|
  {
    score[|score| - 1 := score[|score| - 1] + runs]
  }

  function NoRunners<T>(): (r: seq<Runner<T>>)
    ensures IsBases(r) && Runners(r) == 0
  {
    [Empty, Empty, Empty]
  }

  predicate Shaped<T>(g: Course<T>) {
    && g.atk < 2 && |g.score| == 2 && |g.turns| == 2 && IsBases(g.base)
    && g.score[0] != [] && g.score[1] != []
  }

  /** The turn of one batter. */
  function Turned<T>(g: Course<T>, play: Play, who: T): (r: Course<T>)
    requires Shaped(g)
    ensures Shaped(r)
  {
    var e := EffectOf(g.base, play, who);
    var team, runs := g.atk, e.runs;
    g.(base := e.base,
       score := g.score[team := Scored(g.score[team], runs)],
       turnOut := (if g.between then 0 else g.turnOut) + e.outs, between := false,
       turns := g.turns[team := g.turns[team] + 1],
       faced := g.faced + 1, halfRuns := g.halfRuns + e.runs)
  }

  /** swap_defense, behind a half-inning. */
  function Swapped<T>(g: Course<T>): (r: Course<T>)
    requires Shaped(g)
    ensures Shaped(r)
  {
    g.(atk := 1 - g.atk, base := NoRunners(), between := true, faced := 0, halfRuns := 0,
       log := g.log + [Half(g.atk, g.faced, g.halfRuns, g.turnOut, Runners(g.base))])
  }

  function NextRound<T>(g: Course<T>): (r: Course<T>)
    requires Shaped(g)
    ensures Shaped(r)
  {
    g.(round := g.round + 1, score := [g.score[0] + [0], g.score[1] + [0]])
  }

  /** Behind both halves of a round: on to the next one, into extra rounds, or the end. */
  function RoundEnded<T>(g: Course<T>): (r: Course<T>)
    requires Shaped(g)
    ensures Shaped(r)
  {
    if g.phase.Regular? then
      var next := NextRound(g);
      if next.round < 9 then next
      else if Sum(next.score[0]) == Sum(next.score[1]) then next.(phase := Extra)
      else next.(phase := Over)
    else if Sum(g.score[0]) != Sum(g.score[1]) then g.(phase := Over)
    else NextRound(g)
  }

  /** From one batter to the next. */
  function Advanced<T>(g: Course<T>, play: Play, who: T): (r: Course<T>)
    requires Shaped(g) && !g.phase.Over?
    ensures Shaped(r)
  {
    var t := Turned(g, play, who);
    if t.turnOut < 3 then t
    else
      var s := Swapped(t);
      if s.atk == 0 then RoundEnded(s) else s
  }

  // ------------------------------------------------------------------- invariant

  predicate Balanced(h: Half) {
    h.faced == h.runs + h.outs + h.left && 3 <= h.outs <= 4 && h.left <= 3 && h.team < 2
  }

  ghost predicate Inv<T>(g: Course<T>) {
    && Shaped(g)
    && |g.score[0]| == |g.score[1]| == g.round + 1
    && (forall i :: 0 <= i < |g.log| ==> Balanced(g.log[i]))
    && (if g.between then g.faced == 0 && g.halfRuns == 0 && Runners(g.base) == 0
        else g.faced == g.halfRuns + g.turnOut + Runners(g.base) && g.turnOut < 3)
    && Sum(g.score[0]) == RunsIn(g.log, 0) + (if g.atk == 0 then g.halfRuns else 0)
    && Sum(g.score[1]) == RunsIn(g.log, 1) + (if g.atk == 1 then g.halfRuns else 0)
    && HalvesOf(g.log, 0) == HalvesOf(g.log, 1) + g.atk
    && (g.phase.Regular? ==> g.round < 9)
    && (!g.phase.Regular? ==> g.round >= 9)
    && (g.phase.Over? ==> g.between && g.atk == 0 && Sum(g.score[0]) != Sum(g.score[1]))
  }

  lemma SumScored(score: seq<int>, runs: nat)
    requires score != []
    ensures Sum(Scored(score, runs)) == Sum(score) + runs
  {
    assert Scored(score, runs)[..|score| - 1] == score[..|score| - 1];
  }

  lemma SumZero(score: seq<int>)
    ensures Sum(score + [0]) == Sum(score)
  {
    assert (score + [0])[..|score|] == score;
  }

  /** In the middle of a half-inning, or at its very end. */
  ghost predicate TurnInv<T>(g: Course<T>) {
    && Shaped(g) && !g.between && g.turnOut <= 4
    && |g.score[0]| == |g.score[1]| == g.round + 1
    && (forall i :: 0 <= i < |g.log| ==> Balanced(g.log[i]))
    && g.faced == g.halfRuns + g.turnOut + Runners(g.base)
    && Sum(g.score[0]) == RunsIn(g.log, 0) + (if g.atk == 0 then g.halfRuns else 0)
    && Sum(g.score[1]) == RunsIn(g.log, 1) + (if g.atk == 1 then g.halfRuns else 0)
    && HalvesOf(g.log, 0) == HalvesOf(g.log, 1) + g.atk
    && (g.phase.Regular? ==> g.round < 9)
    && (!g.phase.Regular? ==> g.round >= 9)
  }

  lemma TurnKeeps<T>(g: Course<T>, play: Play, who: T)
    requires Inv(g) && !g.phase.Over?
    ensures TurnInv(Turned(g, play, who)) && Turned(g, play, who).phase == g.phase
  {
    hide Sum, RunsIn, HalvesOf, EffectOf, Runners;
    PlayBalance(g.base, play, who);
    SumScored(g.score[g.atk], EffectOf(g.base, play, who).runs);
  }

  lemma SwapKeeps<T>(g: Course<T>)
    requires TurnInv(g) && 3 <= g.turnOut && !g.phase.Over?
    ensures var s := Swapped(g);
      && Inv(s) && s.phase == g.phase && s.between
  {
    hide Sum;
    var h := Half(g.atk, g.faced, g.halfRuns, g.turnOut, Runners(g.base));
  }

  lemma RoundKeeps<T>(g: Course<T>)
    requires Inv(g) && g.between && g.atk == 0 && !g.phase.Over?
    ensures Inv(RoundEnded(g))
  {
    hide Sum, RunsIn, HalvesOf;
    SumZero(g.score[0]);
    SumZero(g.score[1]);
  }

  /** Every turn keeps the books: for each half-inning, batters faced are runs,
      outs and runners left; outs are three or four; the scores are the sums of the
      half-innings; and a finished game is not a tie. */
  lemma AdvanceKeeps<T>(g: Course<T>, play: Play, who: T)
    requires Inv(g) && !g.phase.Over?
    ensures Inv(Advanced(g, play, who))
  {
    hide Turned, Swapped, RoundEnded;
    var t := Turned(g, play, who);
    TurnKeeps(g, play, who);
    if t.turnOut >= 3 {
      SwapKeeps(t);
      if Swapped(t).atk == 0 { RoundKeeps(Swapped(t)); }
    }
  }

  /** A half-inning gets its fourth out exactly when two are out, someone is on base,
      and the batter hits into a double play. */
  lemma FourOutsIff<T>(g: Course<T>, play: Play, who: T)
    requires Inv(g) && !g.phase.Over?
    ensures var log := Advanced(g, play, who).log;
      |log| > |g.log| && log[|log| - 1].outs == 4
      <==> !g.between && g.turnOut == 2 && play.DoublePlay? && Runners(g.base) > 0
  {
    hide Sum, RunsIn, HalvesOf;
    var t := Turned(g, play, who);
    assert t.turnOut >= 3 ==> Swapped(t).log == g.log + [Half(t.atk, t.faced, t.halfRuns, t.turnOut, Runners(t.base))];
  }

  /** While fewer than three are out the same side goes on batting. */
  lemma HalfGoesOn<T>(g: Course<T>, play: Play, who: T)
    requires Inv(g) && !g.phase.Over? && (if g.between then 0 else g.turnOut) + EffectOf(g.base, play, who).outs < 3
    ensures var r, e := Advanced(g, play, who), EffectOf(g.base, play, who);
      && r.atk == g.atk && r.base == e.base && !r.between && r.round == g.round && r.phase == g.phase && r.log == g.log
      && r.turnOut == (if g.between then 0 else g.turnOut) + e.outs
  {
    hide Sum, RunsIn, HalvesOf, EffectOf;
  }

  /** With three out the half-inning goes into the log as it was, the bases are cleared
      and the sides change. */
  lemma HalfEnds<T>(g: Course<T>, play: Play, who: T)
    requires Inv(g) && !g.phase.Over? && (if g.between then 0 else g.turnOut) + EffectOf(g.base, play, who).outs >= 3
    ensures var r, e := Advanced(g, play, who), EffectOf(g.base, play, who);
      && r.between && r.atk == 1 - g.atk && r.base == [Empty, Empty, Empty]
      && r.log == g.log + [Half(g.atk, g.faced + 1, g.halfRuns + e.runs,
                                (if g.between then 0 else g.turnOut) + e.outs, Runners(e.base))]
  {
    hide Sum, RunsIn, HalvesOf, EffectOf, Runners;
  }

  /** When the game is over: exactly behind the second half of the ninth or a later
      round, if the totals differ then.  Before that, each second half begins a round. */
  lemma OverIff<T>(g: Course<T>, play: Play, who: T)
    requires Inv(g) && !g.phase.Over?
    ensures var r, e := Advanced(g, play, who), EffectOf(g.base, play, who);
      var ended := g.atk == 1 && (if g.between then 0 else g.turnOut) + e.outs >= 3;
      && (r.phase.Over? <==> ended && g.round >= 8 && Sum(g.score[0]) != Sum(g.score[1]) + e.runs)
      && (!r.phase.Over? ==> r.round == g.round + if ended then 1 else 0)
      && (!r.phase.Over? ==> (r.phase.Extra? <==> r.round >= 9))
  {
    AdvancedTotals(g, play, who, 0);
    AdvancedTotals(g, play, who, 1);
    AdvanceKeeps(g, play, who);
    hide Sum, RunsIn, HalvesOf, EffectOf, Runners;
    var t := Turned(g, play, who);
    SumScored(g.score[g.atk], EffectOf(g.base, play, who).runs);
    SumZero(t.score[0]);
    SumZero(t.score[1]);
  }

  /** The totals and the turns after an advance, whatever ended with it. */
  lemma AdvancedTotals<T>(g: Course<T>, play: Play, who: T, team: nat)
    requires Shaped(g) && !g.phase.Over? && team < 2
    ensures var r := Advanced(g, play, who);
      && r.turns == g.turns[g.atk := g.turns[g.atk] + 1]
      && Sum(r.score[team]) == Sum(g.score[team]) + if team == g.atk then EffectOf(g.base, play, who).runs else 0
  {
    hide Sum, EffectOf, Runners;
    var t := Turned(g, play, who);
    SumScored(g.score[g.atk], EffectOf(g.base, play, who).runs);
    SumZero(t.score[0]);
    SumZero(t.score[1]);
  }

  /** Both totals of a game. */
  function Totals<T>(g: Course<T>): (r: seq<int>)
    requires Shaped(g)
    ensures |r| == 2
  {
    [Sum(g.score[0]), Sum(g.score[1])]
  }

  /** A game before its first turn. */
  function Opening<T>(): (r: Course<T>)
    ensures Shaped(r)
  {
    Course(0, [[0], [0]], NoRunners(), 0, 0, Regular, true, [0, 0], 0, 0, [])
  }

  lemma OpeningInv<T>()
    ensures Inv(Opening<T>()) && Totals(Opening<T>()) == [0, 0]
  {
    assert Sum([0]) == 0;
    var g := Opening<T>();
    assert g.score[0] == [0] && g.score[1] == [0];
  }

  lemma TotalsAfter<T>(g: Course<T>, play: Play, who: T, runs: nat)
    requires Shaped(g) && !g.phase.Over? && EffectOf(g.base, play, who).runs == runs
    ensures var r := Advanced(g, play, who);
      && r.turns == g.turns[g.atk := g.turns[g.atk] + 1]
      && Totals(r) == Totals(g)[g.atk := Totals(g)[g.atk] + runs]
  {
    hide Advanced, Sum, EffectOf;
    AdvancedTotals(g, play, who, 0);
    AdvancedTotals(g, play, who, 1);
  }
}
