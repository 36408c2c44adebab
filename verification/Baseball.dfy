/**
 The baseball game: players with their statistics, the turns at bat, the half-innings
 and the end of the game, over any sequence of drawn numbers.
 */
module Baseball {
  import opened Basics
  import opened Diamond
  import opened Innings

  /** The statistics dictionary; its keys are fixed. */
  datatype Stats = Stats(
    atBat: int, hit: int, walk: int, strikeOut: int, double: int, triple: int, homeRun: int,
    groundOut: int, flyOut: int, popOut: int, doublePlay: int, sacrificeFly: int,
    pitch: int, hitByPitch: int, hrByPitch: int, pitchWalk: int, pitchStrike: int, earnedRuns: int)

  /** How often a batter's turns have come out one way or another. */
  function Outcomes(s: Stats): int {
    s.hit + s.walk + s.strikeOut + s.double + s.triple + s.homeRun
    + s.groundOut + s.flyOut + s.popOut + s.doublePlay
  }

  /** A batter's statistics after a turn; `onBase` tells whether anyone was on base.
      A sacrifice fly is booked as a double play, as the program does. */
  function BatterStats(s0: Stats, play: Play, onBase: bool): Stats {
    var s := s0.(atBat := s0.atBat + 1);
    match play
    case Walk => s.(walk := s.walk + 1)
    case StrikeOut => s.(strikeOut := s.strikeOut + 1)
    case Single => s.(hit := s.hit + 1)
    case Double => s.(double := s.double + 1)
    case Triple => s.(triple := s.triple + 1)
    case HomeRun => s.(homeRun := s.homeRun + 1)
    case GroundOut => s.(groundOut := s.groundOut + 1)
    case FlyOut => s.(flyOut := s.flyOut + 1)
    case PopOut => s.(popOut := s.popOut + 1)
    case DoublePlay => if onBase then s.(doublePlay := s.doublePlay + 1) else s.(flyOut := s.flyOut + 1)
    case SacrificeFly => if onBase then s.(doublePlay := s.doublePlay + 1) else s.(flyOut := s.flyOut + 1)
  }

  /** A pitcher's statistics after a turn that brought `runs` runs. */
  function PitcherStats(s0: Stats, play: Play, runs: nat): Stats {
    var s := s0.(pitch := s0.pitch + 1, earnedRuns := s0.earnedRuns + runs);
    match play
    case Walk => s.(pitchWalk := s.pitchWalk + 1)
    case StrikeOut => s.(pitchStrike := s.pitchStrike + 1)
    case Single => s.(hitByPitch := s.hitByPitch + 1)
    case Double => s.(hitByPitch := s.hitByPitch + 1)
    case Triple => s.(hitByPitch := s.hitByPitch + 1)
    case HomeRun => s.(hitByPitch := s.hitByPitch + 1, hrByPitch := s.hrByPitch + 1)
    case _ => s
  }

  /** Every turn is booked under exactly one outcome, and none as a sacrifice fly. */
  lemma TurnsAreBooked(s: Stats, play: Play, onBase: bool)
    ensures var after := BatterStats(s, play, onBase);
      && after.atBat - Outcomes(after) == s.atBat - Outcomes(s)
      && after.atBat == s.atBat + 1 && after.sacrificeFly == s.sacrificeFly
      && after.earnedRuns == s.earnedRuns
  {
  }

  predicate IsHit(play: Play) {
    play.Single? || play.Double? || play.Triple? || play.HomeRun?
  }

  function OneIf(b: bool): int {
    if b then 1 else 0
  }

  /** What a turn adds to each of the batter's counters. */
  lemma BatterCounters(s: Stats, play: Play, onBase: bool)
    ensures var after := BatterStats(s, play, onBase);
      && after.walk == s.walk + OneIf(play.Walk?) && after.strikeOut == s.strikeOut + OneIf(play.StrikeOut?)
      && after.hit == s.hit + OneIf(play.Single?) && after.double == s.double + OneIf(play.Double?)
      && after.triple == s.triple + OneIf(play.Triple?) && after.homeRun == s.homeRun + OneIf(play.HomeRun?)
      && after.groundOut == s.groundOut + OneIf(play.GroundOut?) && after.popOut == s.popOut + OneIf(play.PopOut?)
      && after.doublePlay == s.doublePlay + OneIf((play.DoublePlay? || play.SacrificeFly?) && onBase)
      && after.flyOut
         == s.flyOut + OneIf(play.FlyOut? || ((play.DoublePlay? || play.SacrificeFly?) && !onBase))
      && after.pitch == s.pitch && after.hitByPitch == s.hitByPitch && after.hrByPitch == s.hrByPitch
      && after.pitchWalk == s.pitchWalk && after.pitchStrike == s.pitchStrike
  {
  }

  /** What a turn adds to each of the pitcher's counters: one pitch, the runs, and under
      `hitByPitch` the hits of every kind. */
  lemma PitcherCounters(s: Stats, play: Play, runs: nat)
    ensures var after := PitcherStats(s, play, runs);
      && after.pitch == s.pitch + 1 && after.earnedRuns == s.earnedRuns + runs
      && after.pitchWalk == s.pitchWalk + OneIf(play.Walk?)
      && after.pitchStrike == s.pitchStrike + OneIf(play.StrikeOut?)
      && after.hitByPitch == s.hitByPitch + OneIf(IsHit(play))
      && after.hrByPitch == s.hrByPitch + OneIf(play.HomeRun?)
      && after.atBat == s.atBat && Outcomes(after) == Outcomes(s) && after.sacrificeFly == s.sacrificeFly
  {
  }

  // ---------------------------------------------------------------- experience

  datatype Xp = Xp(xp: int, level: int)

  /** get_xp: one level up at most. */
  function Gained(x: Xp, num: int): Xp {
    if x.xp + num >= 10 * x.level then Xp(x.xp + num - 10 * x.level, x.level + 1)
    else Xp(x.xp + num, x.level)
  }

  /** All experience ever earned: what the levels have used up, and the rest. */
  function Earned(x: Xp): int {
    x.xp + 5 * (x.level * (x.level - 1))
  }

  /** No experience is lost in going up a level, and one level per gain is enough
      as long as no gain is above ten. */
  lemma GainConserves(x: Xp, num: int)
    ensures Earned(Gained(x, num)) == Earned(x) + num
    ensures x.level >= 1 && 0 <= x.xp < 10 * x.level && 0 <= num <= 10 ==>
            Gained(x, num).level >= 1 && 0 <= Gained(x, num).xp < 10 * Gained(x, num).level
  {
    assert (x.level + 1) * x.level == x.level * (x.level - 1) + 2 * x.level;
  }

  function BatterXp(play: Play, onBase: bool): nat {
    match play
    case Walk => 1
    case Single => 1
    case Double => 2
    case Triple => 3
    case HomeRun => 5
    case SacrificeFly => if onBase then 1 else 0
    case _ => 0
  }

  function PitcherXp(play: Play, onBase: bool): nat {
    match play
    case StrikeOut => 3
    case GroundOut => 1
    case FlyOut => 1
    case PopOut => 1
    case DoublePlay => if onBase then 5 else 1
    case SacrificeFly => if onBase then 0 else 1
    case _ => 0
  }

  /** The bonus for a turn, beside the one point both players get: the batter's is the
      number of bases he reaches on a walk or a hit, five for a home run, and one for a
      sacrifice fly; the pitcher's is one for an out, three for a strikeout, five for
      a double play.  A play that gives one of them a bonus gives the other none. */
  lemma Bonuses(play: Play, onBase: bool, n: nat)
    ensures Advances(play, n) ==> BatterXp(play, onBase) == (if n == 4 then 5 else n) && PitcherXp(play, onBase) == 0
    ensures (forall k: nat :: !Advances(play, k)) ==>
      && BatterXp(play, onBase) == OneIf(play.SacrificeFly? && onBase)
      && PitcherXp(play, onBase) == (if play.StrikeOut? then 3 else if play.DoublePlay? && onBase then 5
                                     else if play.SacrificeFly? && onBase then 0 else 1)
  {
    match play
    case Walk => assert Advances(play, 1);
    case Single => assert Advances(play, 1);
    case Double => assert Advances(play, 2);
    case Triple => assert Advances(play, 3);
    case HomeRun => assert Advances(play, 4);
    case _ =>
  }

  // ------------------------------------------------------------------- players

  class Player {
    const table: Table
    var stats: Stats
    var xp: Xp

    constructor (table: Table)
      ensures this.table == table && xp == Xp(0, 1)
      ensures stats == Stats(0, 0, 0, 0, 0, 0, 0, 0, 0, 0, 0, 0, 0, 0, 0, 0, 0, 0)
    {
      this.table, xp := table, Xp(0, 1);
      stats := Stats(0, 0, 0, 0, 0, 0, 0, 0, 0, 0, 0, 0, 0, 0, 0, 0, 0, 0);
    }

    method GetXp(num: int)
      modifies this`xp
      ensures xp == Gained(old(xp), num)
    {
      xp := xp.(xp := xp.xp + num);
      var levelXp := 10 * xp.level;
      if xp.xp >= levelXp {
        xp := Xp(xp.xp - levelXp, xp.level + 1);
      }
    }
  }

  // --------------------------------------------------------------------- a turn

  /** push: the runners and the batter move up `num` bases; those who score are
      charged to the pitcher, the batter of a home run being left to the caller. */
  method PushRunners(base0: seq<Runner<Player>>, num: nat, batter: Player, pitcher: Player)
    returns (base: seq<Runner<Player>>, runs: nat)
    requires IsBases(base0) && 1 <= num <= 4
    modifies pitcher`stats
    ensures base == Pushed(base0, num, batter) && runs == RunsOf(base0, num)
    ensures pitcher.stats == old(pitcher.stats).(
      earnedRuns := old(pitcher.stats.earnedRuns) + runs - if num == 4 then 1 else 0)
  {
    base, runs := base0, 0;
    if num == 4 {
      runs := 1;
      for i := 0 to 3
        invariant runs == 1 + (if i > 0 then One(base0[0]) else 0) + (if i > 1 then One(base0[1]) else 0)
                            + (if i > 2 then One(base0[2]) else 0)
        invariant pitcher.stats == old(pitcher.stats).(earnedRuns := old(pitcher.stats.earnedRuns) + runs - 1)
      {
        if base[i].On? {
          runs := runs + 1;
          pitcher.stats := pitcher.stats.(earnedRuns := pitcher.stats.earnedRuns + 1);
        }
      }
      return [Empty, Empty, Empty], runs;
    }
    var i := 2;
    while i > 2 - num
      invariant 2 - num <= i <= 2 && |base| == 3
      invariant forall k :: 0 <= k < 3 ==> base[k] == if k > i then Empty else base0[k]
      invariant runs == (if i < 2 then One(base0[2]) else 0) + (if i < 1 then One(base0[1]) else 0)
                        + (if i < 0 then One(base0[0]) else 0)
      invariant pitcher.stats == old(pitcher.stats).(earnedRuns := old(pitcher.stats.earnedRuns) + runs)
    {
      if base[i].On? {
        base := base[i := Empty];
        runs := runs + 1;
        pitcher.stats := pitcher.stats.(earnedRuns := pitcher.stats.earnedRuns + 1);
      }
      i := i - 1;
    }
    i := 1;
    while i >= 0
      invariant -1 <= i <= 1 && |base| == 3
      invariant forall k :: 0 <= k <= i ==> base[k] == if k > 2 - num then Empty else base0[k]
      invariant forall k :: 0 <= k < 3 && k > i ==> base[k] == if k - num > i then base0[k - num] else Empty
    {
      if base[i].On? {
        base := base[i + num := base[i]];
        base := base[i := Empty];
      }
      i := i - 1;
    }
    base := base[num - 1 := On(batter)];
  }

  function Rewarded(x: Xp, bonus: nat): Xp {
    if bonus == 0 then Gained(x, 1) else Gained(Gained(x, 1), bonus)
  }

  /** turn, once the play has been drawn: bases, runs and outs, and what both players
      have booked and earned. */
  method TakeTurn(base0: seq<Runner<Player>>, batter: Player, pitcher: Player, play: Play)
    returns (base: seq<Runner<Player>>, runs: nat, outs: nat)
    requires IsBases(base0) && batter != pitcher
    modifies batter, pitcher
    ensures IsBases(base) && PlaysOut(base0, play, batter, base, runs, outs)
    ensures EffectOf(base0, play, batter) == Effect(base, runs, outs)
    ensures batter.stats == BatterStats(old(batter.stats), play, Runners(base0) > 0)
    ensures pitcher.stats == PitcherStats(old(pitcher.stats), play, runs)
    ensures batter.xp == Rewarded(old(batter.xp), BatterXp(play, Runners(base0) > 0))
    ensures pitcher.xp == Rewarded(old(pitcher.xp), PitcherXp(play, Runners(base0) > 0))
  {
    hide Pushed, RunsOf, Lead, Gained, Runners, One, PlaysOut;
    EffectIsPlayed(base0, play, batter);
    batter.stats := batter.stats.(atBat := batter.stats.atBat + 1);
    pitcher.stats := pitcher.stats.(pitch := pitcher.stats.pitch + 1);
    batter.GetXp(1);
    pitcher.GetXp(1);
    base, runs, outs := base0, 0, 0;
    match play
    case Walk =>
      base, runs := PushRunners(base, 1, batter, pitcher);
      batter.stats := batter.stats.(walk := batter.stats.walk + 1);
      pitcher.stats := pitcher.stats.(pitchWalk := pitcher.stats.pitchWalk + 1);
      batter.GetXp(1);
    case Single =>
      base, runs := PushRunners(base, 1, batter, pitcher);
      batter.stats := batter.stats.(hit := batter.stats.hit + 1);
      pitcher.stats := pitcher.stats.(hitByPitch := pitcher.stats.hitByPitch + 1);
      batter.GetXp(1);
    case Double =>
      base, runs := PushRunners(base, 2, batter, pitcher);
      batter.stats := batter.stats.(double := batter.stats.double + 1);
      pitcher.stats := pitcher.stats.(hitByPitch := pitcher.stats.hitByPitch + 1);
      batter.GetXp(2);
    case Triple =>
      base, runs := PushRunners(base, 3, batter, pitcher);
      batter.stats := batter.stats.(triple := batter.stats.triple + 1);
      pitcher.stats := pitcher.stats.(hitByPitch := pitcher.stats.hitByPitch + 1);
      batter.GetXp(3);
    case HomeRun =>
      base, runs := PushRunners(base, 4, batter, pitcher);
      assert base == Pushed(base0, 4, batter);
      batter.stats := batter.stats.(homeRun := batter.stats.homeRun + 1);
      pitcher.stats := pitcher.stats.(hitByPitch := pitcher.stats.hitByPitch + 1,
        hrByPitch := pitcher.stats.hrByPitch + 1, earnedRuns := pitcher.stats.earnedRuns + 1);
      batter.GetXp(5);
    case StrikeOut =>
      outs := 1;
      batter.stats := batter.stats.(strikeOut := batter.stats.strikeOut + 1);
      pitcher.stats := pitcher.stats.(pitchStrike := pitcher.stats.pitchStrike + 1);
      pitcher.GetXp(3);
    case GroundOut =>
      outs := 1;
      batter.stats := batter.stats.(groundOut := batter.stats.groundOut + 1);
      pitcher.GetXp(1);
    case FlyOut =>
      outs := FlyOut(batter, pitcher);
    case PopOut =>
      outs := 1;
      batter.stats := batter.stats.(popOut := batter.stats.popOut + 1);
      pitcher.GetXp(1);
    case DoublePlay =>
      var i := FindLead(base);
      if i >= 0 {
        outs, base := 2, base[i := Empty];
        batter.stats := batter.stats.(doublePlay := batter.stats.doublePlay + 1);
        pitcher.GetXp(5);
      } else {
        outs := FlyOut(batter, pitcher);
      }
    case SacrificeFly =>
      var i := FindLead(base);
      if i >= 0 {
        outs := 1;
        batter.stats := batter.stats.(doublePlay := batter.stats.doublePlay + 1);
        base, runs := PushRunners(base, 1, batter, pitcher);
        base := base[0 := Empty];
        batter.GetXp(1);
      } else {
        outs := FlyOut(batter, pitcher);
      }
  }

  /** A caught fly: one out. */
  method FlyOut(batter: Player, pitcher: Player) returns (outs: nat)
    requires batter != pitcher
    modifies batter`stats, pitcher`xp
    ensures outs == 1 && batter.stats == old(batter.stats).(flyOut := old(batter.stats.flyOut) + 1)
    ensures pitcher.xp == Gained(old(pitcher.xp), 1)
  {
    outs := 1;
    batter.stats := batter.stats.(flyOut := batter.stats.flyOut + 1);
    pitcher.GetXp(1);
  }

  /** `for i in range(2, -1, -1): if base[i]`. */
  method FindLead(base: seq<Runner<Player>>) returns (i: int)
    requires IsBases(base)
    ensures i == Lead(base)
  {
    i := 2;
    while i >= 0 && base[i].Empty?
      invariant -1 <= i <= 2 && forall k :: i < k < 3 ==> base[k].Empty?
    {
      i := i - 1;
    }
  }

  // -------------------------------------------------------------------- the game

  /** How often the batter in slot `i` has been up when his side has had `n` turns. */
  function Visits(n: nat, i: nat): nat {
    n / 9 + if i < n % 9 then 1 else 0
  }

  lemma VisitsNext(n: nat, i: nat)
    requires i < 9
    ensures Visits(n + 1, i) == Visits(n, i) + if i == n % 9 then 1 else 0
    ensures (n + 1) % 9 == (n % 9 + 1) % 9
  {
    var q, r := n / 9, n % 9;
    assert n == 9 * q + r;
    if r == 8 { assert n + 1 == 9 * (q + 1) + 0; } else { assert n + 1 == 9 * q + (r + 1); }
  }

  predicate Different(team: seq<Player>) {
    forall i, j :: 0 <= i < j < |team| ==> team[i] != team[j]
  }

  predicate Sides(teams: seq<seq<Player>>) {
    |teams| == 2 && |teams[0]| >= 9 && |teams[1]| >= 9
  }

  /** No player is in two places, and every table of weights is positive. */
  predicate Rosters(teams: seq<seq<Player>>)
    requires Sides(teams)
  {
    && (forall t, i :: 0 <= t < 2 && 0 <= i < |teams[t]| ==> Weighted(teams[t][i].table))
    && Different(teams[0]) && Different(teams[1])
    && (forall i, j :: 0 <= i < |teams[0]| && 0 <= j < |teams[1]| ==> teams[0][i] != teams[1][j])
  }

  function Pitcher(team: seq<Player>): Player
    requires |team| >= 9
  {
    team[|team| - 1]
  }

  /** The players' books for given totals and turns: every run of a side is charged
      to the other side's pitcher, and every batter has been up as often as his slot. */
  ghost predicate Booked(teams: seq<seq<Player>>, earned0: seq<int>, atBat0: seq<seq<int>>,
                         totals: seq<int>, turns: seq<nat>)
    requires Sides(teams) && |earned0| == |totals| == |turns| == |atBat0| == 2
    requires |atBat0[0]| == |atBat0[1]| == 9
    reads teams[0], teams[1]
  {
    && Pitcher(teams[0]).stats.earnedRuns == earned0[0] + totals[1]
    && Pitcher(teams[1]).stats.earnedRuns == earned0[1] + totals[0]
    && (forall i :: 0 <= i < 9 ==> teams[0][i].stats.atBat == atBat0[0][i] + Visits(turns[0], i))
    && (forall i :: 0 <= i < 9 ==> teams[1][i].stats.atBat == atBat0[1][i] + Visits(turns[1], i))
  }

  /** How often the first nine of a team have been up so far. */
  ghost function AtBats(team: seq<Player>): (r: seq<int>)
    requires |team| >= 9
    reads team
    ensures |r| == 9
  {
    seq(9, i requires 0 <= i < 9 reads team => team[i].stats.atBat)
  }

  class Game {
    const teams: seq<seq<Player>>
    var atk: nat
    var def: nat
    var score: seq<seq<int>>
    var batSeq: seq<nat>
    var base: seq<Runner<Player>>
    var round: nat
    var turnOut: nat
    var phase: Phase
    var between: bool             // whether a half-inning is about to begin
    ghost var course: Course<Player>
    ghost var earned0: seq<int>   // the pitchers' earned runs before the game
    ghost var atBat0: seq<seq<int>>

    /** The fields are those of the course `g`. */
    ghost predicate Matches(g: Course<Player>)
      reads this`atk, this`def, this`score, this`base, this`round, this`turnOut, this`phase, this`between
    {
      && g.atk == atk && def == 1 - atk && g.score == score && g.base == base
      && g.round == round && g.turnOut == turnOut && g.phase == phase && g.between == between
    }

    ghost predicate Valid()
      reads this
    {
      && Sides(teams) && Rosters(teams) && Shaped(course) && Inv(course)
      && Matches(course)
      && |batSeq| == 2 && batSeq[0] == course.turns[0] % 9 && batSeq[1] == course.turns[1] % 9
      && |earned0| == 2 && |atBat0| == 2 && |atBat0[0]| == 9 && |atBat0[1]| == 9
    }

    ghost predicate Books()
      requires Valid()
      reads this, teams[0], teams[1]
    {
      Booked(teams, earned0, atBat0, Totals(course), course.turns)
    }

    /** The nine batters of a side have been up equally often, give or take one. */
    lemma EvenTurns(t: nat, i: nat, j: nat)
      requires Valid() && Books() && t < 2 && i < 9 && j < 9
      ensures -1 <= (teams[t][i].stats.atBat - atBat0[t][i]) - (teams[t][j].stats.atBat - atBat0[t][j]) <= 1
    {
      assert teams[t][i].stats.atBat == atBat0[t][i] + Visits(course.turns[t], i);
      assert teams[t][j].stats.atBat == atBat0[t][j] + Visits(course.turns[t], j);
    }

    constructor (team1: seq<Player>, team2: seq<Player>)
      requires Sides([team1, team2]) && Rosters([team1, team2])
      ensures Valid() && Books() && teams == [team1, team2]
      ensures phase.Regular? && score == [[0], [0]] && base == NoRunners()
    {
      teams := [team1, team2];
      atk, def, score, batSeq, base := 0, 1, [[0], [0]], [0, 0], NoRunners();
      round, turnOut, phase, between := 0, 0, Regular, true;
      course := Opening();
      earned0 := [Pitcher(team1).stats.earnedRuns, Pitcher(team2).stats.earnedRuns];
      atBat0 := [AtBats(team1), AtBats(team2)];
      new;
      OpeningInv<Player>();
      hide Inv, Rosters, Booked, Totals, AtBats;
    }

    /** The players' part of a turn. */
    method AtBat(k: nat) returns (newBase: seq<Runner<Player>>, runs: nat, outs: nat)
      requires Valid() && Books() && k < |teams[atk][batSeq[atk]].table|
      modifies teams[0], teams[1]
      ensures Valid()
      ensures var batter := teams[atk][batSeq[atk]];
        EffectOf(base, batter.table[k].0, batter) == Effect(newBase, runs, outs)
      ensures Booked(teams, earned0, atBat0,
                     Totals(course)[atk := Totals(course)[atk] + runs],
                     course.turns[atk := course.turns[atk] + 1])
    {
      hide Inv, EffectOf, Rewarded, Weighted, Visits, Totals;
      var batter, pitcher := teams[atk][batSeq[atk]], Pitcher(teams[def]);
      var play := batter.table[k].0;
      newBase, runs, outs := TakeTurn(base, batter, pitcher, play);
      assert batter.stats.earnedRuns == old(batter.stats.earnedRuns);
      assert batter.stats.atBat == old(batter.stats.atBat) + 1;
      assert pitcher.stats.atBat == old(pitcher.stats.atBat);
      forall i | 0 <= i < 9
        ensures Visits(course.turns[atk] + 1, i) == Visits(course.turns[atk], i) + if i == batSeq[atk] then 1 else 0
      {
        VisitsNext(course.turns[atk], i);
      }
    }

    /** The game's part of a turn: bases, score and outs, and what may end with it. */
    method Record(ghost g: Course<Player>, ghost play: Play, ghost batter: Player,
                  newBase: seq<Runner<Player>>, runs: nat, outs: nat)
      requires Shaped(g) && Matches(g) && !phase.Over?
      requires EffectOf(g.base, play, batter) == Effect(newBase, runs, outs)
      modifies this`atk, this`def, this`score, this`base, this`round, this`turnOut, this`phase, this`between
      ensures Matches(Advanced(g, play, batter))
    {
      hide EffectOf, Sum, Runners;
      if between {
        turnOut, between := 0, false;
      }
      base, turnOut := newBase, turnOut + outs;
      score := score[atk := Scored(score[atk], runs)];
      if turnOut >= 3 {
        atk, def, base, between := 1 - atk, 1 - def, [Empty, Empty, Empty], true;
        if atk == 0 { EndRound(Swapped(Turned(g, play, batter))); }
      }
    }

    /** One turn of `game`: the next batter of the batting side takes his turn; then
        the half-inning, the round and the game may end. */
    method Advance(drawn: int) returns (k: nat)
      requires Valid() && Books() && !phase.Over?
      requires 1 <= drawn <= TotalWeight(teams[atk][batSeq[atk]].table)
      modifies this, teams[0], teams[1]
      ensures Valid() && Books() && earned0 == old(earned0) && atBat0 == old(atBat0)
      ensures var batter := teams[old(atk)][old(batSeq[atk])];
        k < |batter.table| && InShare(batter.table, k, drawn)
        && course == Advanced(old(course), batter.table[k].0, batter)
    {
      hide Inv, EffectOf, Weighted, Visits, Sum, Runners, TotalWeight, Advanced, Rosters, Booked, Totals, InShare;
      var batter := teams[atk][batSeq[atk]];
      BatterWeighted(teams, atk, batSeq[atk]);
      k := Draw(batter.table, drawn);
      ghost var play := batter.table[k].0;
      AdvanceKeeps(course, play, batter);
      VisitsNext(course.turns[atk], 0);
      var newBase, runs, outs := AtBat(k);
      TotalsAfter(course, play, batter, runs);
      batSeq := batSeq[atk := (batSeq[atk] + 1) % 9];
      Record(course, play, batter, newBase, runs, outs);
      course := Advanced(course, play, batter);
    }

    /** next_round: another entry in both score lists. */
    method NextInning()
      requires |score| == 2
      modifies this`round, this`score
      ensures round == old(round) + 1 && score == [old(score)[0] + [0], old(score)[1] + [0]]
    {
      round, score := round + 1, [score[0] + [0], score[1] + [0]];
    }

    /** Behind the second half of a round: `g` is the course of the game so far. */
    method EndRound(ghost g: Course<Player>)
      requires Shaped(g) && g.round == round && g.score == score && g.phase == phase
      modifies this`round, this`score, this`phase
      ensures RoundEnded(g) == g.(round := round, score := score, phase := phase)
    {
      if phase.Regular? {
        NextInning();
        if round >= 9 {
          phase := if Sum(score[0]) == Sum(score[1]) then Extra else Over;
        }
      } else if Sum(score[0]) != Sum(score[1]) {
        phase := Over;
      } else {
        NextInning();
      }
    }

    /** The whole game, or as much of it as there are drawn numbers: the books
        agree after every turn, and if the game is over it is not a tie. */
    method Play(draws: seq<int>)
      requires Valid() && Books()
      modifies this, teams[0], teams[1]
      ensures Valid() && Books() && earned0 == old(earned0) && atBat0 == old(atBat0)
      ensures phase.Over? ==> Sum(score[0]) != Sum(score[1]) && HalvesOf(course.log, 0) == HalvesOf(course.log, 1)
      ensures phase.Over? ==>
        Sum(score[0]) == RunsIn(course.log, 0) && Sum(score[1]) == RunsIn(course.log, 1)
    {
      hide Sum, Visits, TotalWeight, Advanced, HalvesOf;
      var n := 0;
      while n < |draws| && !phase.Over?
        invariant Valid() && Books() && earned0 == old(earned0) && atBat0 == old(atBat0)
      {
        var total := TotalWeight(teams[atk][batSeq[atk]].table);
        PositiveTotal(teams[atk][batSeq[atk]].table);
        var k := Advance(1 + draws[n] % total);
        n := n + 1;
      }
    }
  }

  lemma BatterWeighted(teams: seq<seq<Player>>, t: nat, i: nat)
    requires Sides(teams) && Rosters(teams) && t < 2 && i < |teams[t]|
    ensures Weighted(teams[t][i].table)
  {
  }

  lemma PositiveTotal(table: Table)
    requires Weighted(table)
    ensures TotalWeight(table) >= 1
  {
    TotalMonotone(table, 0, |table|);
    assert table[..|table|] == table;
  }
}
