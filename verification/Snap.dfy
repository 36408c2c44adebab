/**
 The card simulation of MarvelSnapZone: six rounds of drawing a card and playing
 the cards the knapsack picks, which are popped from the hand one by one.
 */
module Snap {
  import opened Basics
  import opened Knapsack

  // ------------------------------------------------------------------ popping

  function Without(s: seq<int>, i: nat): seq<int>
    requires i < |s|
  {
    s[..i] + s[i + 1..]
  }

  /** What is left after popping the indices one after the other; a pop outside the list raises. */
  function Popped(hand: seq<int>, indices: seq<nat>): (r: seq<int>)
    requires Choice(indices, |hand|)
    decreases |indices|
  {
    if indices == [] then hand else Popped(Without(hand, indices[0]), indices[1..])
  }

  /** The cards the indices mean: those at these positions of the original hand. */
  function Picked(hand: seq<int>, indices: seq<nat>): (r: seq<int>)
    requires Choice(indices, |hand|)
    ensures |r| == |indices| && forall k :: 0 <= k < |r| ==> r[k] == hand[indices[k]]
  {
    seq(|indices|, k requires 0 <= k < |indices| => hand[indices[k]])
  }

  /** The cards of `s[..n]` whose positions are not in `indices`, in their old order. */
  function Unchosen(s: seq<int>, indices: seq<nat>, n: nat): seq<int>
    requires n <= |s|
  {
    if n == 0 then []
    else Unchosen(s, indices, n - 1) + (if n - 1 in indices then [] else [s[n - 1]])
  }

  lemma {:induction false} UnchosenGap(s: seq<int>, indices: seq<nat>, lo: nat, n: nat)
    requires lo <= n <= |s| && forall k :: lo <= k < n ==> k !in indices
    ensures Unchosen(s, indices, n) == Unchosen(s, indices, lo) + s[lo..n]
  {
    if lo == n {
    } else {
      UnchosenGap(s, indices, lo, n - 1);
      assert s[lo..n] == s[lo..n - 1] + [s[n - 1]];
    }
  }

  lemma {:induction false} UnchosenBelow(s: seq<int>, t: seq<int>, indices: seq<nat>, n: nat)
    requires indices != [] && n <= indices[0] && n <= |s| && n <= |t| && s[..n] == t[..n]
    ensures Unchosen(s, indices, n) == Unchosen(t, indices[1..], n)
  {
    if n == 0 {
    } else {
      assert s[n - 1] == s[..n][n - 1] && t[n - 1] == t[..n][n - 1];
      assert s[..n - 1] == s[..n][..n - 1] && t[..n - 1] == t[..n][..n - 1];
      UnchosenBelow(s, t, indices, n - 1);
    }
  }

  /** Popping a choice leaves the cards at all other positions, in order. */
  lemma {:induction false} PoppedIsUnchosen(hand: seq<int>, indices: seq<nat>, n: nat)
    requires n <= |hand| && Choice(indices, n)
    ensures Popped(hand, indices) == Unchosen(hand, indices, n) + hand[n..]
    decreases |indices|
  {
    if indices == [] {
      UnchosenGap(hand, indices, 0, n);
      assert hand == hand[0..n] + hand[n..];
    } else {
      var y := indices[0];
      var after := Without(hand, y);
      FirstChosen(indices, n);
      WithoutParts(hand, y, n);
      PoppedIsUnchosen(after, indices[1..], y);
      UnchosenBelow(hand, after, indices, y);
      UnchosenFrom(hand, indices, y, n);
      Glue(Unchosen(hand, indices, y), hand[y + 1..n], hand[n..]);
      PopStep(hand, indices);
      hide Choice, Popped, Unchosen, Without;
    }
  }

  lemma Glue(a: seq<int>, b: seq<int>, c: seq<int>)
    ensures a + (b + c) == a + b + c
  {
  }

  /** The first index of a choice, and what is known of the others. */
  lemma FirstChosen(indices: seq<nat>, n: nat)
    requires Choice(indices, n) && indices != []
    ensures indices[0] < n && Choice(indices[1..], indices[0])
    ensures indices[0] in indices && forall k :: indices[0] < k < n ==> k !in indices
  {
  }

  lemma WithoutParts(hand: seq<int>, y: nat, n: nat)
    requires y < n <= |hand|
    ensures |Without(hand, y)| == |hand| - 1
    ensures hand[..y] == Without(hand, y)[..y] && Without(hand, y)[y..] == hand[y + 1..n] + hand[n..]
  {
  }

  /** Between the first index and `n` nothing is chosen. */
  lemma UnchosenFrom(hand: seq<int>, indices: seq<nat>, y: nat, n: nat)
    requires y < n <= |hand| && y in indices && forall k :: y < k < n ==> k !in indices
    ensures Unchosen(hand, indices, n) == Unchosen(hand, indices, y) + hand[y + 1..n]
  {
    UnchosenGap(hand, indices, y + 1, n);
    assert Unchosen(hand, indices, y + 1) == Unchosen(hand, indices, y);
  }

  /** One pop: the rest of the indices is a choice from what it leaves. */
  lemma PopStep(hand: seq<int>, indices: seq<nat>)
    requires Choice(indices, |hand|) && indices != []
    ensures |Without(hand, indices[0])| == |hand| - 1 && Choice(indices[1..], |hand| - 1)
    ensures Popped(hand, indices) == Popped(Without(hand, indices[0]), indices[1..])
  {
  }

  /** A card below a pop is the same card before and after it. */
  lemma PickedBelow(hand: seq<int>, indices: seq<nat>)
    requires Choice(indices, |hand|) && indices != []
    ensures Choice(indices[1..], indices[0])
    ensures Picked(hand, indices) == [hand[indices[0]]] + Picked(Without(hand, indices[0]), indices[1..])
  {
  }

  lemma WithoutOne(s: seq<int>, i: nat)
    requires i < |s|
    ensures multiset(s) == multiset(Without(s, i)) + multiset{s[i]}
  {
    assert s == s[..i] + ([s[i]] + s[i + 1..]);
  }

  /** Every copy of a card is either still in the hand or among those picked. */
  lemma {:induction false} PoppedCounts(hand: seq<int>, indices: seq<nat>, card: int)
    requires Choice(indices, |hand|)
    ensures multiset(hand)[card] == multiset(Popped(hand, indices))[card] + multiset(Picked(hand, indices))[card]
    decreases |indices|
  {
    if indices == [] {
      assert Picked(hand, indices) == [];
    } else {
      var y := indices[0];
      WithoutOne(hand, y);
      PickedBelow(hand, indices);
      PoppedCounts(Without(hand, y), indices[1..], card);
    }
  }

  lemma PoppedConserves(hand: seq<int>, indices: seq<nat>)
    requires Choice(indices, |hand|)
    ensures multiset(hand) == multiset(Popped(hand, indices)) + multiset(Picked(hand, indices))
  {
    forall card
      ensures multiset(hand)[card] == (multiset(Popped(hand, indices)) + multiset(Picked(hand, indices)))[card] {
      PoppedCounts(hand, indices, card);
    }
  }

  lemma {:induction false} PickedSum(hand: seq<int>, indices: seq<nat>)
    requires Choice(indices, |hand|)
    ensures Sum(Picked(hand, indices)) == SumAt(hand, indices)
    decreases |indices|
  {
    if indices == [] {
    } else {
      PickedSum(hand, indices[1..]);
      assert Picked(hand, indices) == [hand[indices[0]]] + Picked(hand, indices[1..]);
      SumFront(hand[indices[0]], Picked(hand, indices[1..]));
    }
  }

  /** `[hand.pop(x) for x in indices]`.  Because the indices come last to first,
      each pop still finds the card its index was computed for. */
  method PopAll(hand0: seq<int>, indices: seq<nat>) returns (hand: seq<int>, play: seq<int>)
    requires Choice(indices, |hand0|)
    ensures play == Picked(hand0, indices)
    ensures hand == Unchosen(hand0, indices, |hand0|)
    ensures multiset(hand0) == multiset(hand) + multiset(play)
  {
    hide Choice, Popped, Picked, Unchosen, Without;
    hand, play := hand0, [];
    var rest := indices;
    while rest != []
      invariant Choice(rest, |hand|)
      invariant Popped(hand, rest) == Popped(hand0, indices)
      invariant Picked(hand0, indices) == play + Picked(hand, rest)
    {
      var x := rest[0];
      PopStep(hand, rest);
      PickedBelow(hand, rest);
      FirstChosen(rest, |hand|);
      Glue(play, [hand[x]], Picked(Without(hand, x), rest[1..]));
      play, hand, rest := play + [hand[x]], Without(hand, x), rest[1..];
    }
    NothingPicked(hand);
    PoppedIsUnchosen(hand0, indices, |hand0|);
    PoppedConserves(hand0, indices);
    assert hand0[|hand0|..] == [];
  }

  lemma NothingPicked(hand: seq<int>)
    ensures Picked(hand, []) == [] && Popped(hand, []) == hand
  {
  }

  // ------------------------------------------------------------------- rounds

  predicate Positive(s: seq<int>) {
    forall i :: 0 <= i < |s| ==> s[i] >= 1
  }

  predicate SomeFits(hand: seq<int>, energy: int) {
    exists i :: 0 <= i < |hand| && hand[i] <= energy
  }

  /** A legal play of cards from `hand` that wastes the least energy any legal play can. */
  ghost predicate LeastWaste(hand: seq<int>, energy: int, play: seq<int>) {
    exists indices :: Optimal(hand, energy, indices) && play == Picked(hand, indices)
  }

  /** The cards of a hand are positive, so no play is empty unless nothing fits. */
  lemma EmptyPlay(hand: seq<int>, energy: nat, indices: seq<nat>)
    requires Positive(hand) && Optimal(hand, energy, indices)
    ensures indices == [] <==> !SomeFits(hand, energy)
  {
    if indices != [] {
      ChoiceNonNegative(hand, |hand|, indices[1..]);
      assert hand[indices[0]] <= energy;
    }
    forall i | 0 <= i < |hand| && hand[i] <= energy ensures indices != [] {
      var single: seq<nat> := [i];
      assert Choice(single, |hand|) && SumAt(hand, single) == hand[i];
    }
  }

  /** One round after the draw: what is played, and the energy it leaves unused. */
  method PlayRound(hand0: seq<int>, energy: nat) returns (hand: seq<int>, play: seq<int>)
    requires Positive(hand0)
    ensures multiset(hand0) == multiset(hand) + multiset(play)
    ensures Positive(hand)
    ensures LeastWaste(hand0, energy, play)
    ensures play == [] <==> !SomeFits(hand0, energy)
    ensures 0 <= Sum(play) <= energy
  {
    var indices := Backpack(energy, hand0);
    hand, play := PopAll(hand0, indices);
    EmptyPlay(hand0, energy, indices);
    ChoiceNonNegative(hand0, |hand0|, indices);
    PickedSum(hand0, indices);
    StillPositive(hand0, hand, play);
  }

  lemma StillPositive(hand0: seq<int>, hand: seq<int>, play: seq<int>)
    requires Positive(hand0) && multiset(hand0) == multiset(hand) + multiset(play)
    ensures Positive(hand)
  {
    forall i | 0 <= i < |hand| ensures hand[i] >= 1 {
      assert hand[i] in multiset(hand0);
    }
  }

  // --------------------------------------------------------------- simulation

  function Repeat(card: int, count: int): (r: seq<int>) {
    seq(if count < 0 then 0 else count, _ => card)
  }

  /** The deck of a cost curve: `counts[i]` cards of cost `i` + 1. */
  function Cards(counts: seq<int>): (r: seq<int>)
    ensures Positive(r)
  {
    if counts == [] then []
    else Cards(counts[..|counts| - 1]) + Repeat(|counts|, counts[|counts| - 1])
  }

  /** Only the first six costs are looked at. */
  function Deck(counts: seq<int>): (r: seq<int>)
    requires |counts| >= 6
    ensures Positive(r)
  {
    Cards(counts[..6])
  }

  lemma {:induction false} CardsOfCost(counts: seq<int>, cost: int)
    ensures multiset(Cards(counts))[cost]
         == if 1 <= cost <= |counts| && counts[cost - 1] > 0 then counts[cost - 1] else 0
  {
    if counts == [] {
    } else {
      var front, last := counts[..|counts| - 1], counts[|counts| - 1];
      CardsOfCost(front, cost);
      RepeatedCard(|counts|, last, cost);
      assert Cards(counts) == Cards(front) + Repeat(|counts|, last);
      hide Cards, Repeat;
    }
  }

  lemma {:induction false} RepeatedCard(card: int, count: int, other: int)
    ensures multiset(Repeat(card, count))[other] == if card == other && count > 0 then count else 0
  {
    if count > 0 {
      RepeatedCard(card, count - 1, other);
      assert Repeat(card, count) == Repeat(card, count - 1) + [card];
    }
  }

  /** The deck has as many cards of each cost from 1 to 6 as the curve says, and no others. */
  lemma DeckOfCost(counts: seq<int>, cost: int)
    requires |counts| >= 6
    ensures multiset(Deck(counts))[cost] == if 1 <= cost <= 6 && counts[cost - 1] > 0 then counts[cost - 1] else 0
  {
    CardsOfCost(counts[..6], cost);
  }

  datatype Round = Round(hand: seq<int>, play: seq<int>)

  datatype Outcome =
    | Ok(rounds: seq<Round>, deck: seq<int>, hand: seq<int>)
    | IndexError
    | ValueError

  /** A round played as well as it can be; it is jammed when nothing in the hand fits. */
  ghost predicate PlayedWell(round: Round, energy: nat) {
    && LeastWaste(round.hand, energy, round.play)
    && 0 <= Sum(round.play) <= energy
    && (round.play == [] <==> !SomeFits(round.hand, energy))
  }

  function AllPlayed(rounds: seq<Round>): seq<int> {
    if rounds == [] then [] else AllPlayed(rounds[..|rounds| - 1]) + rounds[|rounds| - 1].play
  }

  /** The hand of a round is what the round before left, and one card more. */
  ghost predicate OneMore(before: multiset<int>, hand: seq<int>) {
    before <= multiset(hand) && |hand| == |before| + 1
  }

  /** Three cards at first, and each round begins with one more than the last one left. */
  ghost predicate HandsFollow(rounds: seq<Round>) {
    && (rounds != [] ==> |rounds[0].hand| == 4)
    && forall r :: 1 <= r < |rounds| ==> OneMore(LeftOver(rounds[r - 1]), rounds[r].hand)
  }

  /** `hand` is what these rounds have left. */
  ghost predicate LeftBy(rounds: seq<Round>, hand: seq<int>) {
    if rounds == [] then |hand| == 3 else multiset(hand) == LeftOver(rounds[|rounds| - 1])
  }

  lemma HandsMore(rounds: seq<Round>, round: Round, hand1: seq<int>, hand: seq<int>)
    requires HandsFollow(rounds) && LeftBy(rounds, hand1)
    requires OneMore(multiset(hand1), round.hand) && multiset(hand) == LeftOver(round)
    ensures HandsFollow(rounds + [round]) && LeftBy(rounds + [round], hand)
  {
    var more := rounds + [round];
    if rounds == [] {
      assert |multiset(hand1)| == 3;
    } else {
      forall r | 1 <= r < |more| ensures OneMore(LeftOver(more[r - 1]), more[r].hand) {
        if r < |rounds| { assert OneMore(LeftOver(rounds[r - 1]), rounds[r].hand); }
      }
    }
  }

  lemma WhatIsLeft(round: Round, hand: seq<int>)
    requires multiset(round.hand) == multiset(hand) + multiset(round.play)
    ensures multiset(hand) == LeftOver(round)
  {
  }

  ghost function LeftOver(round: Round): multiset<int> {
    multiset(round.hand) - multiset(round.play)
  }

  ghost predicate Conserved(counts: seq<int>, deck: seq<int>, hand: seq<int>, played: seq<int>)
    requires |counts| >= 6
  {
    multiset(Deck(counts)) == multiset(deck) + multiset(hand) + multiset(played)
  }

  predicate Six(m: map<nat, int>) {
    forall r | 1 <= r <= 6 :: r in m
  }

  predicate Jammed(rounds: seq<Round>, r: nat) {
    1 <= r <= |rounds| && !SomeFits(rounds[r - 1].hand, r)
  }

  function Wasted(rounds: seq<Round>, r: nat): int {
    if 1 <= r <= |rounds| then r - Sum(rounds[r - 1].play) else 0
  }

  /** The counters once these rounds have been added to `jam0` and `waste0`. */
  ghost predicate Counted(rounds: seq<Round>, jam0: map<nat, int>, jam: map<nat, int>,
                          waste0: map<nat, int>, waste: map<nat, int>)
    requires Six(jam0) && Six(waste0)
  {
    && Six(jam) && Six(waste)
    && forall r | 1 <= r <= 6 ::
         && jam[r] == jam0[r] + (if Jammed(rounds, r) then 1 else 0)
         && waste[r] == waste0[r] + Wasted(rounds, r)
  }

  /** random.randrange on the deck, then pop: any card may come. */
  method Draw(deck0: seq<int>, hand0: seq<int>) returns (deck: seq<int>, hand: seq<int>)
    requires deck0 != []
    ensures |deck| == |deck0| - 1
    ensures multiset(deck0) + multiset(hand0) == multiset(deck) + multiset(hand)
    ensures Positive(deck0) && Positive(hand0) ==> Positive(deck) && Positive(hand)
    ensures OneMore(multiset(hand0), hand) && |hand| == |hand0| + 1
  {
    var x: nat :| x < |deck0|;
    WithoutOne(deck0, x);
    deck, hand := Without(deck0, x), hand0 + [deck0[x]];
    assert multiset(hand) == multiset(hand0) + multiset{deck0[x]};
  }

  /** The opening hand, drawn card by card; drawing from an empty deck raises. */
  method Deal(deck0: seq<int>, n: nat) returns (dealt: bool, deck: seq<int>, hand: seq<int>)
    requires Positive(deck0)
    ensures dealt <==> n <= |deck0|
    ensures dealt ==> |deck| == |deck0| - n && |hand| == n && Positive(deck) && Positive(hand)
    ensures dealt ==> multiset(deck0) == multiset(deck) + multiset(hand)
  {
    deck, hand := deck0, [];
    for k := 0 to n
      invariant |deck| == |deck0| - k && |hand| == k && Positive(deck) && Positive(hand)
      invariant multiset(deck0) == multiset(deck) + multiset(hand)
    {
      if deck == [] { return false, deck, hand; }
      deck, hand := Draw(deck, hand);
    }
    dealt := true;
  }

  /** The body of the round loop: a draw, the play and the two counters. */
  method SimulateRound(deck0: seq<int>, hand0: seq<int>, energy: nat, jam0: map<nat, int>, waste0: map<nat, int>)
    returns (deck: seq<int>, hand: seq<int>, round: Round, jam: map<nat, int>, waste: map<nat, int>)
    requires deck0 != [] && Positive(deck0) && Positive(hand0)
    requires Six(jam0) && Six(waste0) && 1 <= energy <= 6
    ensures |deck| == |deck0| - 1 && Positive(deck) && Positive(hand)
    ensures multiset(deck0) + multiset(hand0) == multiset(deck) + multiset(hand) + multiset(round.play)
    ensures PlayedWell(round, energy) && OneMore(multiset(hand0), round.hand)
    ensures multiset(hand) == LeftOver(round)
    ensures jam == jam0[energy := jam0[energy] + if SomeFits(round.hand, energy) then 0 else 1]
    ensures waste == waste0[energy := waste0[energy] + energy - Sum(round.play)]
  {
    hide OneMore, LeftOver, Positive, LeastWaste, SomeFits;
    deck, hand := Draw(deck0, hand0);
    var before := hand;
    var play;
    hand, play := PlayRound(before, energy);
    round := Round(before, play);
    WhatIsLeft(round, hand);
    jam, waste := jam0, waste0;
    if |play| == 0 {
      jam := jam[energy := jam[energy] + 1];
      waste := waste[energy := waste[energy] + energy];
    } else {
      assert jam0 == jam0[energy := jam0[energy]];
      waste := waste[energy := waste[energy] + (energy - Sum(play))];
    }
  }

  /** A simulated game after its first rounds: the cards, the plays and the counters. */
  ghost predicate GameSoFar(counts: seq<int>, rounds: seq<Round>, deck: seq<int>, hand: seq<int>,
                            jam0: map<nat, int>, jam: map<nat, int>, waste0: map<nat, int>, waste: map<nat, int>)
    requires |counts| >= 6 && Six(jam0) && Six(waste0)
  {
    && Conserved(counts, deck, hand, AllPlayed(rounds))
    && (forall r :: 0 <= r < |rounds| ==> PlayedWell(rounds[r], r + 1))
    && HandsFollow(rounds) && LeftBy(rounds, hand)
    && Counted(rounds, jam0, jam, waste0, waste)
  }

  /** One simulated game: three cards, then six rounds of one draw and one play. */
  method Simulate(counts: seq<int>, jam0: map<nat, int>, waste0: map<nat, int>)
    returns (out: Outcome, jam: map<nat, int>, waste: map<nat, int>)
    requires Six(jam0) && Six(waste0)
    ensures out == IndexError <==> |counts| < 6
    ensures out == ValueError <==> |counts| >= 6 && |Deck(counts)| < 9
    ensures out.Ok? ==> |out.rounds| == 6 && GameSoFar(counts, out.rounds, out.deck, out.hand, jam0, jam, waste0, waste)
  {
    hide HandsFollow, LeftBy, OneMore, LeftOver, PlayedWell, Conserved;
    jam, waste := jam0, waste0;
    if |counts| < 6 { return IndexError, jam, waste; }
    var dealt, deck, hand := Deal(Deck(counts), 3);
    if !dealt { return ValueError, jam, waste; }
    GameStart(counts, deck, hand, jam, waste);
    var rounds: seq<Round> := [];
    for r := 0 to 6
      invariant |rounds| == r && |deck| == |Deck(counts)| - 3 - r && Positive(deck) && Positive(hand)
      invariant GameSoFar(counts, rounds, deck, hand, jam0, jam, waste0, waste)
    {
      if deck == [] { return ValueError, jam, waste; }
      ghost var deck1, hand1, jam1, waste1 := deck, hand, jam, waste;
      var round;
      deck, hand, round, jam, waste := SimulateRound(deck, hand, r + 1, jam, waste);
      GameMore(counts, rounds, round, deck1, hand1, deck, hand, jam0, jam1, jam, waste0, waste1, waste);
      rounds := rounds + [round];
    }
    return Ok(rounds, deck, hand), jam, waste;
  }

  lemma GameStart(counts: seq<int>, deck: seq<int>, hand: seq<int>, jam: map<nat, int>, waste: map<nat, int>)
    requires |counts| >= 6 && Six(jam) && Six(waste)
    requires multiset(Deck(counts)) == multiset(deck) + multiset(hand) && |hand| == 3
    ensures GameSoFar(counts, [], deck, hand, jam, jam, waste, waste)
  {
  }

  lemma GameMore(counts: seq<int>, rounds: seq<Round>, round: Round,
                 deck1: seq<int>, hand1: seq<int>, deck: seq<int>, hand: seq<int>,
                 jam0: map<nat, int>, jam1: map<nat, int>, jam: map<nat, int>,
                 waste0: map<nat, int>, waste1: map<nat, int>, waste: map<nat, int>)
    requires |counts| >= 6 && Six(jam0) && Six(waste0) && |rounds| < 6
    requires GameSoFar(counts, rounds, deck1, hand1, jam0, jam1, waste0, waste1)
    requires PlayedWell(round, |rounds| + 1)
    requires OneMore(multiset(hand1), round.hand) && multiset(hand) == LeftOver(round)
    requires multiset(deck1) + multiset(hand1) == multiset(deck) + multiset(hand) + multiset(round.play)
    requires var r := |rounds| + 1;
      && jam == jam1[r := jam1[r] + if SomeFits(round.hand, r) then 0 else 1]
      && waste == waste1[r := waste1[r] + r - Sum(round.play)]
    ensures GameSoFar(counts, rounds + [round], deck, hand, jam0, jam, waste0, waste)
  {
    hide HandsFollow, LeftBy, OneMore, LeftOver, PlayedWell, Conserved, Counted;
    HandsMore(rounds, round, hand1, hand);
    PlayedMore(rounds, round);
    CountedMore(rounds, round, jam0, jam1, jam, waste0, waste1, waste);
    StillConserved(counts, deck1, hand1, AllPlayed(rounds), deck, hand, round.play);
  }

  lemma PlayedMore(rounds: seq<Round>, round: Round)
    ensures AllPlayed(rounds + [round]) == AllPlayed(rounds) + round.play
  {
    assert (rounds + [round])[..|rounds|] == rounds;
  }

  lemma CountedMore(rounds: seq<Round>, round: Round, jam0: map<nat, int>, jam1: map<nat, int>, jam: map<nat, int>,
                    waste0: map<nat, int>, waste1: map<nat, int>, waste: map<nat, int>)
    requires Six(jam0) && Six(waste0) && |rounds| < 6 && Counted(rounds, jam0, jam1, waste0, waste1)
    requires var r := |rounds| + 1;
      && jam == jam1[r := jam1[r] + if SomeFits(round.hand, r) then 0 else 1]
      && waste == waste1[r := waste1[r] + r - Sum(round.play)]
    ensures Counted(rounds + [round], jam0, jam, waste0, waste)
  {
    var more := rounds + [round];
    forall r | 1 <= r <= 6
      ensures jam[r] == jam0[r] + (if Jammed(more, r) then 1 else 0)
      ensures waste[r] == waste0[r] + Wasted(more, r)
    {
      if r <= |rounds| { assert more[r - 1] == rounds[r - 1]; }
    }
  }

  lemma StillConserved(counts: seq<int>, deck0: seq<int>, hand0: seq<int>, played: seq<int>,
                       deck: seq<int>, hand: seq<int>, play: seq<int>)
    requires |counts| >= 6 && Conserved(counts, deck0, hand0, played)
    requires multiset(deck0) + multiset(hand0) == multiset(deck) + multiset(hand) + multiset(play)
    ensures Conserved(counts, deck, hand, played + play)
  {
    forall c ensures multiset(Deck(counts))[c] == multiset(deck)[c] + multiset(hand)[c] + multiset(played + play)[c] {
      assert (multiset(deck0) + multiset(hand0))[c] == multiset(deck0)[c] + multiset(hand0)[c];
    }
  }

  /** A complete game: every card of the deck accounted for, six rounds played well. */
  ghost predicate Played(counts: seq<int>, game: Outcome)
    requires |counts| >= 6
  {
    && game.Ok? && |game.rounds| == 6
    && Conserved(counts, game.deck, game.hand, AllPlayed(game.rounds)) && HandsFollow(game.rounds)
    && forall r :: 0 <= r < 6 ==> PlayedWell(game.rounds[r], r + 1)
  }

  /** In how many of the games round `r` was jammed. */
  function JammedGames(games: seq<Outcome>, r: nat): nat {
    if games == [] then 0
    else
      var last := games[|games| - 1];
      JammedGames(games[..|games| - 1], r) + if last.Ok? && Jammed(last.rounds, r) then 1 else 0
  }

  /** The energy that round `r` wasted in all the games. */
  function WastedEnergy(games: seq<Outcome>, r: nat): int {
    if games == [] then 0
    else
      var last := games[|games| - 1];
      WastedEnergy(games[..|games| - 1], r) + if last.Ok? then Wasted(last.rounds, r) else 0
  }

  /** The counters are those of the games played. */
  ghost predicate Tallied(counts: seq<int>, games: seq<Outcome>, jam: map<nat, int>, waste: map<nat, int>)
    requires |counts| >= 6
  {
    && (forall g :: 0 <= g < |games| ==> Played(counts, games[g]))
    && Six(jam) && Six(waste)
    && forall r | 1 <= r <= 6 :: jam[r] == JammedGames(games, r) && waste[r] == WastedEnergy(games, r)
  }

  lemma TalliedMore(counts: seq<int>, games: seq<Outcome>, game: Outcome, jam0: map<nat, int>, jam: map<nat, int>,
                    waste0: map<nat, int>, waste: map<nat, int>)
    requires |counts| >= 6 && Tallied(counts, games, jam0, waste0)
    requires Played(counts, game) && Counted(game.rounds, jam0, jam, waste0, waste)
    ensures Tallied(counts, games + [game], jam, waste)
  {
    var more := games + [game];
    assert more[..|games|] == games;
    hide Played, Jammed, Wasted;
  }

  lemma RoundBounds(r: nat, n: nat, jam: int, waste: int, jammed: bool, more: int)
    requires r * jam <= waste <= r * n
    requires 0 <= more <= r && (jammed ==> more == r)
    ensures r * (jam + if jammed then 1 else 0) <= waste + more <= r * (n + 1)
  {
  }

  /** A jammed round wastes all its energy and no round wastes more, so over any games
      the average waste of a round lies between its jam rate times its energy and its
      energy. */
  lemma {:induction false} RateBounds(counts: seq<int>, games: seq<Outcome>, r: nat)
    requires |counts| >= 6 && 1 <= r <= 6 && forall g :: 0 <= g < |games| ==> Played(counts, games[g])
    ensures JammedGames(games, r) <= |games|
    ensures r * JammedGames(games, r) <= WastedEnergy(games, r) <= r * |games|
  {
    if games == [] {
    } else {
      var front, game := games[..|games| - 1], games[|games| - 1];
      RateBounds(counts, front, r);
      assert Played(counts, game) && PlayedWell(game.rounds[r - 1], r);
      RoundBounds(r, |front|, JammedGames(front, r), WastedEnergy(front, r),
                  Jammed(game.rounds, r), Wasted(game.rounds, r));
    }
  }

  /** calcualte_cost_jam_rate: the counters over `iters` games, or an exception. */
  method CostJamRate(counts: seq<int>, iters: nat)
    returns (ok: bool, jam: map<nat, int>, waste: map<nat, int>, games: seq<Outcome>)
    ensures iters > 0 ==> (ok <==> |counts| >= 6 && |Deck(counts)| >= 9)
    ensures ok && iters > 0 ==> |games| == iters && Tallied(counts, games, jam, waste)
    ensures iters == 0 ==> ok && forall r | 1 <= r <= 6 :: r in jam && r in waste && jam[r] == waste[r] == 0
  {
    jam := map[1 := 0, 2 := 0, 3 := 0, 4 := 0, 5 := 0, 6 := 0];
    waste := map[1 := 0, 2 := 0, 3 := 0, 4 := 0, 5 := 0, 6 := 0];
    games := [];
    for n := 0 to iters
      invariant n > 0 ==> |counts| >= 6 && |Deck(counts)| >= 9
      invariant |games| == n && Six(jam) && Six(waste)
      invariant |counts| >= 6 ==> Tallied(counts, games, jam, waste)
      invariant n == 0 ==> forall r | 1 <= r <= 6 :: jam[r] == waste[r] == 0
    {
      var game, jam1, waste1 := Simulate(counts, jam, waste);
      if !game.Ok? { return false, jam1, waste1, games; }
      TalliedMore(counts, games, game, jam, jam1, waste, waste1);
      jam, waste, games := jam1, waste1, games + [game];
    }
    ok := true;
  }
}
