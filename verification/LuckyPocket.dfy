/**
 gbLuckyPocket: a total split at random cut points into pockets, and the claims of the
 group's members on them.
 */
module LuckyPocket {
  import opened Basics

  lemma {:induction false} SumSplit(s: seq<int>, k: nat)
    requires k <= |s|
    ensures Sum(s) == Sum(s[..k]) + Sum(s[k..])
  {
    if k == |s| {
      assert s[..k] == s && s[k..] == [];
    } else {
      SumSplit(s[..|s| - 1], k);
      assert s[..|s| - 1][..k] == s[..k] && s[k..][..|s| - k - 1] == s[..|s| - 1][k..];
    }
  }

  // ------------------------------------------------------------------- splitting

  predicate Increasing(s: seq<int>) {
    forall i, j :: 0 <= i < j < |s| ==> s[i] < s[j]
  }

  predicate Distinct(s: seq<int>) {
    forall i, j :: 0 <= i < j < |s| ==> s[i] != s[j]
  }

  /** `sorted` on distinct cut points. */
  method Sort(points: seq<int>) returns (sorted: seq<int>)
    requires Distinct(points)
    ensures Increasing(sorted) && |sorted| == |points| && forall x :: x in sorted <==> x in points
  {
    sorted := [];
    for n := 0 to |points|
      invariant |sorted| == n && Increasing(sorted) && SameMembers(sorted, points[..n])
    {
      var x := points[n];
      assert points[..n + 1] == points[..n] + [x];
      NotYetSorted(points, n, sorted);
      hide SameMembers;
      var k := 0;
      while k < n && sorted[k] < x
        invariant 0 <= k <= n && forall i :: 0 <= i < k ==> sorted[i] < x
      {
        k := k + 1;
      }
      sorted := sorted[..k] + [x] + sorted[k..];
    }
    assert points[..|points|] == points;
  }

  predicate SameMembers(s: seq<int>, t: seq<int>) {
    (forall x :: x in s ==> x in t) && (forall x :: x in t ==> x in s)
  }

  lemma NotYetSorted(points: seq<int>, n: nat, sorted: seq<int>)
    requires Distinct(points) && n < |points| && SameMembers(sorted, points[..n])
    ensures forall i :: 0 <= i < |sorted| ==> sorted[i] != points[n]
  {
    forall i | 0 <= i < |sorted| ensures sorted[i] != points[n] {
      assert sorted[i] in sorted;
    }
  }

  /** `points[i + 1] - points[i]` for all `i`. */
  function Gaps(points: seq<int>): (r: seq<int>)
    requires points != []
    ensures |r| == |points| - 1 && forall i :: 0 <= i < |r| ==> r[i] == points[i + 1] - points[i]
  {
    seq(|points| - 1, i requires 0 <= i < |points| - 1 => points[i + 1] - points[i])
  }

  lemma {:induction false} GapsSum(points: seq<int>)
    requires points != []
    ensures Sum(Gaps(points)) == points[|points| - 1] - points[0]
  {
    if |points| > 1 {
      var front := points[..|points| - 1];
      GapsSum(front);
      assert Gaps(points)[..|points| - 2] == Gaps(front);
    } else {
      assert Gaps(points) == [];
    }
  }

  datatype Split = Refused | Pockets(amounts: seq<int>)

  /** The pockets between the cut points of `1..total`. */
  function Cut(total: int, sorted: seq<int>): (r: seq<int>)
    ensures |r| == |sorted| + 1
  {
    Gaps([0] + sorted + [total])
  }

  lemma CutSizes(total: int, sorted: seq<int>)
    requires total >= 1 && Increasing(sorted) && forall x :: x in sorted ==> 1 <= x < total
    ensures Sum(Cut(total, sorted)) == total
    ensures forall i :: 0 <= i < |Cut(total, sorted)| ==> Cut(total, sorted)[i] >= 1
  {
    var points := [0] + sorted + [total];
    GapsSum(points);
    forall i | 0 <= i <= |sorted| ensures points[i + 1] - points[i] >= 1 {
      if i > 0 { assert points[i] == sorted[i - 1] && sorted[i - 1] in sorted; }
      if i < |sorted| { assert points[i + 1] == sorted[i] && sorted[i] in sorted; }
    }
  }

  /** The first `k` pockets together reach up to the cut point behind them. */
  lemma CutPrefix(total: int, sorted: seq<int>, k: nat)
    requires 1 <= k <= |sorted|
    ensures Sum(Cut(total, sorted)[..k]) == sorted[k - 1]
  {
    var points := [0] + sorted + [total];
    GapsSum(points[..k + 1]);
    assert Gaps(points[..k + 1]) == Cut(total, sorted)[..k];
  }

  /** Handing out `total` in `num` pockets, cut at the sampled points: for every
      sample the pockets are positive and add up, and pocket boundaries are exactly
      the sampled points. */
  method SplitTotal(total: int, num: int, sample: seq<int>) returns (r: Split)
    requires total >= num >= 1 ==>
      |sample| == num - 1 && Distinct(sample) && forall x :: x in sample ==> 1 <= x < total
    ensures r.Refused? <==> total <= 0 || num <= 0 || total < num
    ensures r.Pockets? ==> |r.amounts| == num && Sum(r.amounts) == total
    ensures r.Pockets? ==> forall i :: 0 <= i < num ==> r.amounts[i] >= 1
    ensures r.Pockets? ==> forall k :: 1 <= k < num ==> Sum(r.amounts[..k]) in sample
  {
    if total <= 0 || num <= 0 { return Refused; }
    if total < num { return Refused; }
    var sorted := Sort(sample);
    CutSizes(total, sorted);
    forall k | 1 <= k < num ensures Sum(Cut(total, sorted)[..k]) in sample {
      CutPrefix(total, sorted, k);
      assert sorted[k - 1] in sorted;
    }
    return Pockets(Cut(total, sorted));
  }

  // -------------------------------------------------------------------- claiming

  datatype Member = Member(id: string, name: string)

  /** `best` is the first of the members with the most: what `max` returns. */
  ghost predicate FirstLargest(members: seq<(string, int)>, best: (string, int)) {
    exists i :: 0 <= i < |members| && First(members, i) && members[i] == best
  }

  predicate First(members: seq<(string, int)>, i: nat)
    requires i < |members|
  {
    && (forall k :: 0 <= k < |members| ==> members[k].1 <= members[i].1)
    && (forall k :: 0 <= k < i ==> members[k].1 < members[i].1)
  }

  lemma LargestOfOne(members: seq<(string, int)>)
    requires members != []
    ensures FirstLargest(members[..1], members[0])
  {
    assert First(members[..1], 0);
  }

  lemma LargestMore(members: seq<(string, int)>, n: nat, best: (string, int))
    requires n < |members| && FirstLargest(members[..n], best)
    ensures FirstLargest(members[..n + 1], if members[n].1 > best.1 then members[n] else best)
  {
    var before, more := members[..n], members[..n + 1];
    assert more == before + [members[n]];
    var i :| 0 <= i < |before| && First(before, i) && before[i] == best;
    if members[n].1 > best.1 {
      assert First(more, n) && more[n] == members[n];
    } else {
      assert First(more, i) && more[i] == best;
    }
  }

  datatype Claimed =
    | Nothing                                          // all pockets are gone
    | AlreadyClaimed
    | Paid(amount: int, luckiest: (string, int), finished: bool)

  /** The stored record of one group's packet. */
  class Packet {
    var index: nat
    var memberIds: seq<string>
    var members: seq<(string, int)>
    var pockets: seq<int>

    ghost predicate Valid()
      reads this
    {
      && index <= |pockets| && |memberIds| == index && |members| == index
      && (forall i :: 0 <= i < index ==> members[i].1 == pockets[i])
      && (forall i, j :: 0 <= i < j < index ==> memberIds[i] != memberIds[j] && members[i].0 != members[j].0)
    }

    constructor (pockets: seq<int>)
      ensures Valid() && this.pockets == pockets && index == 0 && memberIds == []
    {
      index, memberIds, members := 0, [], [];
      this.pockets := pockets;
    }

    function NameOf(m: Member): string {
      if m.name == "" then m.id else m.name
    }

    /** Someone of this id or this name has had a pocket. */
    predicate Known(m: Member)
      reads this
    {
      m.id in memberIds || exists i :: 0 <= i < |members| && members[i].0 == NameOf(m)
    }

    /** What has been claimed so far. */
    function Amounts(): (r: seq<int>)
      reads this
      ensures |r| == |members|
    {
      seq(|members|, i requires 0 <= i < |members| reads this => members[i].1)
    }

    /** What has been claimed and what is still there make up the total. */
    lemma NothingLost()
      requires Valid()
      ensures Sum(Amounts()) + Sum(pockets[index..]) == Sum(pockets)
      ensures index == |pockets| ==> Sum(Amounts()) == Sum(pockets)
    {
      assert Amounts() == pockets[..index];
      SumSplit(pockets, index);
    }

    /** `max(members, key=...)`. */
    method Luckiest() returns (best: (string, int))
      requires members != []
      ensures FirstLargest(members, best)
    {
      LargestOfOne(members);
      hide FirstLargest;
      best := members[0];
      for i := 1 to |members|
        invariant FirstLargest(members[..i], best)
      {
        LargestMore(members, i, best);
        if members[i].1 > best.1 {
          best := members[i];
        }
      }
      assert members[..|members|] == members;
    }

    /** The first member with the most holds the largest pocket there was. */
    lemma LargestPocket(best: (string, int))
      requires Valid() && index == |pockets| && FirstLargest(members, best)
      ensures forall i :: 0 <= i < |pockets| ==> pockets[i] <= best.1
    {
      forall i | 0 <= i < |pockets| ensures pockets[i] <= best.1 {
        assert members[i].1 == pockets[i];
      }
    }

    /** One member asks for a pocket. */
    method Claim(m: Member) returns (r: Claimed)
      requires Valid()
      modifies this
      ensures Valid() && pockets == old(pockets)
      ensures r.Nothing? <==> old(index) == |pockets|
      ensures r.AlreadyClaimed? <==> old(index) < |pockets| && old(Known(m))
      ensures !r.Paid? ==> unchanged(this)
      ensures r.Paid? ==> r.amount == pockets[old(index)] && index == old(index) + 1
      ensures r.Paid? ==> memberIds == old(memberIds) + [m.id] && members == old(members) + [(NameOf(m), r.amount)]
      ensures r.Paid? ==> (r.finished <==> index == |pockets|)
      ensures r.Paid? && r.finished ==> FirstLargest(members, r.luckiest)
    {
      hide FirstLargest;
      if index >= |pockets| { return Nothing; }
      var name := NameOf(m);
      if Known(m) { return AlreadyClaimed; }
      var amount := pockets[index];
      index, memberIds, members := index + 1, memberIds + [m.id], members + [(name, amount)];
      var finished := index >= |pockets|;
      var luckiest := ("", 0);
      if finished {
        luckiest := Luckiest();
      }
      return Paid(amount, luckiest, finished);
    }
  }

  function CountPaid(id: string, ms: seq<Member>, paid: seq<bool>): nat
    requires |paid| == |ms|
  {
    if ms == [] then 0
    else CountPaid(id, ms[..|ms| - 1], paid[..|ms| - 1])
         + if paid[|ms| - 1] && ms[|ms| - 1].id == id then 1 else 0
  }

  /** Any sequence of claims on one packet: no id is paid twice, what is paid and
      what is left make up the total, and once all pockets are gone the announced
      winner holds the largest. */
  method ClaimAll(packet: Packet, ms: seq<Member>) returns (paid: seq<bool>, winner: (string, int))
    requires packet.Valid() && packet.index == 0 && packet.pockets != []
    modifies packet
    ensures packet.Valid() && packet.pockets == old(packet.pockets) && |paid| == |ms|
    ensures forall id :: CountPaid(id, ms, paid) <= 1
    ensures Sum(packet.Amounts()) + Sum(packet.pockets[packet.index..]) == Sum(packet.pockets)
    ensures packet.index == |packet.pockets| ==> FirstLargest(packet.members, winner)
    ensures packet.index == |packet.pockets| ==> forall i :: 0 <= i < |packet.pockets| ==> packet.pockets[i] <= winner.1
  {
    hide FirstLargest;
    paid, winner := [], ("", 0);
    for n := 0 to |ms|
      invariant packet.Valid() && packet.pockets == old(packet.pockets) && |paid| == n
      invariant forall id :: CountPaid(id, ms[..n], paid) == if id in packet.memberIds then 1 else 0
      invariant packet.index == |packet.pockets| ==> FirstLargest(packet.members, winner)
    {
      var r := packet.Claim(ms[n]);
      assert ms[..n + 1][..n] == ms[..n] && (paid + [r.Paid?])[..n] == paid;
      paid := paid + [r.Paid?];
      if r.Paid? && r.finished { winner := r.luckiest; }
    }
    assert ms[..|ms|] == ms;
    packet.NothingLost();
    if packet.index == |packet.pockets| {
      packet.LargestPocket(winner);
    }
  }
}
