/**
 What one play does to the bases, the score and the outs, and how a play is drawn
 from a table of weights.
 */
module Diamond {

  datatype Play =
    | HomeRun | Single | Double | Triple | Walk
    | FlyOut | PopOut | GroundOut | StrikeOut | DoublePlay | SacrificeFly

  // -------------------------------------------------------------- drawing a play

  type Table = seq<(Play, int)>

  function TotalWeight(table: Table): int {
    if table == [] then 0 else TotalWeight(table[..|table| - 1]) + table[|table| - 1].1
  }

  predicate Weighted(table: Table) {
    table != [] && forall i :: 0 <= i < |table| ==> table[i].1 > 0
  }

  lemma {:induction false} TotalMonotone(table: Table, i: nat, j: nat)
    requires i <= j <= |table| && forall k :: 0 <= k < |table| ==> table[k].1 > 0
    ensures 0 <= TotalWeight(table[..i]) <= TotalWeight(table[..j])
    ensures i < j ==> TotalWeight(table[..i]) < TotalWeight(table[..j])
    decreases j
  {
    if i < j {
      TotalMonotone(table, i, j - 1);
      assert table[..j][..j - 1] == table[..j - 1];
    } else if i > 0 {
      TotalMonotone(table, i - 1, i - 1);
      assert table[..i][..i - 1] == table[..i - 1];
    }
  }

  /** The numbers of 1..total that belong to entry `k`. */
  predicate InShare(table: Table, k: nat, drawn: int)
    requires k < |table|
  {
    TotalWeight(table[..k]) < drawn <= TotalWeight(table[..k + 1])
  }

  /** Player.play for the drawn number: the entry whose share of 1..total it falls
      into.  Exactly `weight` numbers lead to an entry, and the fallback behind the
      loop is never reached. */
  method Draw(table: Table, drawn: int) returns (k: nat)
    requires Weighted(table) && 1 <= drawn <= TotalWeight(table)
    ensures k < |table| && InShare(table, k, drawn)
  {
    var r := drawn;
    assert table[..|table|] == table;
    k := 0;
    while k < |table|
      invariant 0 <= k <= |table| && r == drawn - TotalWeight(table[..k]) && r > 0
    {
      assert table[..k + 1][..k] == table[..k];
      r := r - table[k].1;
      if r <= 0 { return k; }
      k := k + 1;
    }
    assert false;
  }

  /** Every number of 1..total belongs to one entry only, and an entry owns as
      many numbers as its weight. */
  lemma SharesAreWeights(table: Table, k: nat, drawn: int, other: nat)
    requires Weighted(table) && k < |table| && other < |table|
    requires InShare(table, k, drawn) && InShare(table, other, drawn)
    ensures k == other
    ensures TotalWeight(table[..k + 1]) - TotalWeight(table[..k]) == table[k].1
    ensures 0 <= TotalWeight(table[..k]) && TotalWeight(table[..k + 1]) <= TotalWeight(table)
  {
    assert table[..k + 1][..k] == table[..k] && table[..|table|] == table;
    TotalMonotone(table, k + 1, |table|);
    TotalMonotone(table, 0, k);
    if k < other { TotalMonotone(table, k + 1, other); }
    if other < k { TotalMonotone(table, other + 1, k); }
  }

  // ------------------------------------------------------------------ the bases

  datatype Runner<T> = Empty | On(who: T)

  /** First, second and third base. */
  predicate IsBases<T>(base: seq<Runner<T>>) {
    |base| == 3
  }

  function One<T>(r: Runner<T>): nat {
    if r.On? then 1 else 0
  }

  function Runners<T>(base: seq<Runner<T>>): (n: nat)
    requires IsBases(base)
  {
    One(base[0]) + One(base[1]) + One(base[2])
  }

  /** Everyone moves up `num` bases, the batter from home plate. */
  function Pushed<T>(base: seq<Runner<T>>, num: nat, who: T): (r: seq<Runner<T>>)
    requires IsBases(base) && 1 <= num <= 4
    ensures IsBases(r)
  {
    seq(3, j requires 0 <= j < 3 => if j == num - 1 then On(who) else if j >= num then base[j - num] else Empty)
  }

  /** Those who come beyond third base score; a batter who goes four bases does too. */
  function RunsOf<T>(base: seq<Runner<T>>, num: nat): (n: nat)
    requires IsBases(base) && 1 <= num <= 4
  {
    (if 0 + num >= 3 then One(base[0]) else 0) + (if 1 + num >= 3 then One(base[1]) else 0)
    + One(base[2]) + (if num == 4 then 1 else 0)
  }

  /** No one gets lost on the way round. */
  lemma PushBalance<T>(base: seq<Runner<T>>, num: nat, who: T)
    requires IsBases(base) && 1 <= num <= 4
    ensures Runners(base) + 1 == Runners(Pushed(base, num, who)) + RunsOf(base, num)
  {
  }

  /** The runner nearest to home plate. */
  function Lead<T>(base: seq<Runner<T>>): (i: int)
    requires IsBases(base)
    ensures -1 <= i < 3
    ensures i >= 0 ==> base[i].On?
    ensures forall k :: i < k < 3 ==> base[k].Empty?
    ensures i == -1 <==> Runners(base) == 0
  {
    if base[2].On? then 2 else if base[1].On? then 1 else if base[0].On? then 0 else -1
  }

  /** What a play does: the bases afterwards, the runs it brings and the outs it costs. */
  datatype Effect<T> = Effect(base: seq<Runner<T>>, runs: nat, outs: nat)

  function EffectOf<T>(base: seq<Runner<T>>, play: Play, who: T): (e: Effect<T>)
    requires IsBases(base)
    ensures IsBases(e.base)
  {
    match play
    case Walk => Effect(Pushed(base, 1, who), RunsOf(base, 1), 0)
    case Single => Effect(Pushed(base, 1, who), RunsOf(base, 1), 0)
    case Double => Effect(Pushed(base, 2, who), RunsOf(base, 2), 0)
    case Triple => Effect(Pushed(base, 3, who), RunsOf(base, 3), 0)
    case HomeRun => Effect(Pushed(base, 4, who), RunsOf(base, 4), 0)
    case DoublePlay =>
      if Lead(base) >= 0 then Effect(base[Lead(base) := Empty], 0, 2) else Effect(base, 0, 1)
    case SacrificeFly =>
      if Lead(base) >= 0 then Effect(Pushed(base, 1, who)[0 := Empty], RunsOf(base, 1), 1) else Effect(base, 0, 1)
    case _ => Effect(base, 0, 1)
  }

  /** The box score of one play: the batter and everyone on base are afterwards on
      base, out, or have scored. */
  lemma PlayBalance<T>(base: seq<Runner<T>>, play: Play, who: T)
    requires IsBases(base)
    ensures var e := EffectOf(base, play, who);
      Runners(base) + 1 == Runners(e.base) + e.runs + e.outs
    ensures EffectOf(base, play, who).outs <= 2
  {
    match play
    case Walk => PushBalance(base, 1, who);
    case Single => PushBalance(base, 1, who);
    case Double => PushBalance(base, 2, who);
    case Triple => PushBalance(base, 3, who);
    case HomeRun => PushBalance(base, 4, who);
    case SacrificeFly => PushBalance(base, 1, who);
    case _ =>
  }

  // ------------------------------------------------------------- place by place

  /** The plays on which everyone moves up `n` bases. */
  predicate Advances(play: Play, n: nat) {
    match play
    case Walk => n == 1
    case Single => n == 1
    case Double => n == 2
    case Triple => n == 3
    case HomeRun => n == 4
    case _ => false
  }

  /** Who stands on base `b`; the batter stands on base -1. */
  function At<T>(base: seq<Runner<T>>, who: T, b: int): Runner<T>
    requires IsBases(base) && -1 <= b < 3
  {
    if b == -1 then On(who) else base[b]
  }

  /** Those on base `from` or beyond who are carried past third base by `n` bases. */
  function Home<T>(base: seq<Runner<T>>, who: T, n: nat, from: int): set<int>
    requires IsBases(base) && -1 <= from
  {
    set b | from <= b < 3 && b + n >= 3 && At(base, who, b).On?
  }

  /** Everyone on base `b` is afterwards on base `b + n` if there is one, nobody else is
      on base, and the runs are those who came past third base. */
  ghost predicate MovedUp<T>(before: seq<Runner<T>>, who: T, n: nat, after: seq<Runner<T>>, runs: nat)
    requires IsBases(before) && IsBases(after)
  {
    && (forall b :: -1 <= b < 3 && 0 <= b + n < 3 ==> after[b + n] == At(before, who, b))
    && (forall b :: 0 <= b < 3 && b < n - 1 ==> after[b].Empty?)
    && runs == |Home(before, who, n, -1)|
  }

  /** Nobody is ahead of the runner on base `i`. */
  predicate IsLead<T>(base: seq<Runner<T>>, i: nat)
    requires IsBases(base)
  {
    i < 3 && base[i].On? && forall k :: i < k < 3 ==> base[k].Empty?
  }

  predicate SomeoneOn<T>(base: seq<Runner<T>>)
    requires IsBases(base)
  {
    base[0].On? || base[1].On? || base[2].On?
  }

  /** What each play does to every single base. */
  ghost predicate PlaysOut<T>(before: seq<Runner<T>>, play: Play, who: T, after: seq<Runner<T>>, runs: nat, outs: nat)
    requires IsBases(before) && IsBases(after)
  {
    && (forall n :: Advances(play, n) ==> MovedUp(before, who, n, after, runs) && outs == 0)
    && (play.DoublePlay? && SomeoneOn(before) ==>
          runs == 0 && outs == 2 && exists i: nat :: IsLead(before, i) && after == before[i := Empty])
    && (play.SacrificeFly? && SomeoneOn(before) ==>
          && after == [Empty, before[0], before[1]]
          && outs == 1 && runs == (if before[2].On? then 1 else 0))
    && ((play.DoublePlay? || play.SacrificeFly?) && !SomeoneOn(before) ==> after == before && runs == 0 && outs == 1)
    && (play.FlyOut? || play.PopOut? || play.GroundOut? || play.StrikeOut? ==>
          after == before && runs == 0 && outs == 1)
  }

  lemma HomeFrom<T>(base: seq<Runner<T>>, who: T, n: nat, from: int)
    requires IsBases(base) && -1 <= from < 3
    ensures |Home(base, who, n, from)|
         == |Home(base, who, n, from + 1)| + if from + n >= 3 && At(base, who, from).On? then 1 else 0
  {
    var next := Home(base, who, n, from + 1);
    assert Home(base, who, n, from) == next + if from + n >= 3 && At(base, who, from).On? then {from} else {};
  }

  /** Pushing everyone up moves each of them, and brings home those who run out of bases. */
  lemma PushMoves<T>(base: seq<Runner<T>>, n: nat, who: T)
    requires IsBases(base) && 1 <= n <= 4
    ensures MovedUp(base, who, n, Pushed(base, n, who), RunsOf(base, n))
  {
    HomeFrom(base, who, n, -1);
    HomeFrom(base, who, n, 0);
    HomeFrom(base, who, n, 1);
    HomeFrom(base, who, n, 2);
    assert Home(base, who, n, 3) == {};
    hide Home;
  }

  /** Every play, base by base. */
  lemma EffectIsPlayed<T>(base: seq<Runner<T>>, play: Play, who: T)
    requires IsBases(base)
    ensures var e := EffectOf(base, play, who);
      PlaysOut(base, play, who, e.base, e.runs, e.outs)
  {
    forall n | Advances(play, n)
      ensures var e := EffectOf(base, play, who); MovedUp(base, who, n, e.base, e.runs) && e.outs == 0
    {
      PushMoves(base, n, who);
    }
    if Lead(base) >= 0 {
      assert IsLead(base, Lead(base));
    }
    hide MovedUp;
  }
}
