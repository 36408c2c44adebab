/**
 The binomial distribution of WarhammerD20DiceMigrate.d6roll, over exact reals.
 */
module Binomial {

  function Fact(n: nat): (r: nat)
    ensures r >= 1
  {
    if n == 0 then 1 else n * Fact(n - 1)
  }

  /** A product with a name of its own keeps nonlinear terms out of the proofs
      that only need to know that two products are the same. */
  function Times(a: real, b: real): real {
    a * b
  }

  function Pow(p: real, k: nat): real {
    if k == 0 then 1.0 else Times(p, Pow(p, k - 1))
  }

  /** The chance that one die of the pool gets through: it hits on `attack` or
      more and the defender misses a save of `defense` or more. */
  function HitChance(attack: int, defense: int): real {
    (7 - attack) as real / 6.0 * (defense - 1) as real / 6.0
  }

  /** The throws of two dice, the attacker's and the defender's, that let a die through. */
  function Throws(attack: int, defense: int): set<(int, int)> {
    set hit, save | 1 <= hit <= 6 && 1 <= save <= 6 && hit >= attack && save < defense :: (hit, save)
  }

  /** Those of them with one given throw of the attacker. */
  function ThrowsWith(hit: int, defense: int): set<(int, int)> {
    set save | 1 <= save <= 6 && save < defense :: (hit, save)
  }

  lemma {:induction false} ThrowsWithCount(hit: int, defense: int)
    requires 1 <= defense <= 7
    ensures |ThrowsWith(hit, defense)| == defense - 1
    decreases defense
  {
    if defense == 1 {
      assert ThrowsWith(hit, defense) == {};
    } else {
      ThrowsWithCount(hit, defense - 1);
      assert ThrowsWith(hit, defense) == ThrowsWith(hit, defense - 1) + {(hit, defense - 1)};
    }
  }

  lemma {:induction false} ThrowsCount(attack: int, defense: int)
    requires 1 <= attack <= 7 && 1 <= defense <= 7
    ensures |Throws(attack, defense)| == (7 - attack) * (defense - 1)
    decreases 7 - attack
  {
    if attack == 7 {
      assert Throws(attack, defense) == {};
    } else {
      ThrowsCount(attack + 1, defense);
      ThrowsWithCount(attack, defense);
      ThrowsSplit(attack, defense);
      hide Throws, ThrowsWith;
      assert (7 - attack) * (defense - 1) == (7 - (attack + 1)) * (defense - 1) + (defense - 1);
    }
  }

  lemma ThrowsSplit(attack: int, defense: int)
    requires 1 <= attack <= 6 && 1 <= defense <= 7
    ensures |Throws(attack, defense)| == |Throws(attack + 1, defense)| + |ThrowsWith(attack, defense)|
  {
    assert Throws(attack, defense) == Throws(attack + 1, defense) + ThrowsWith(attack, defense);
    assert Throws(attack + 1, defense) !! ThrowsWith(attack, defense);
  }

  /** The chance counts throws: it is the share of the 36 throws of two dice in which
      the attacker reaches `attack` and the defender stays below `defense`. */
  lemma ChanceCountsThrows(attack: int, defense: int)
    requires 1 <= attack <= 7 && 1 <= defense <= 7
    ensures 36.0 * HitChance(attack, defense) == |Throws(attack, defense)| as real
  {
    ThrowsCount(attack, defense);
    var a, d := 7 - attack, defense - 1;
    assert 36.0 * (a as real / 6.0 * d as real / 6.0) == a as real * d as real == (a * d) as real;
  }

  function Quotient(f: int, d: int, u: real, v: real): real
    requires d >= 1
  {
    f as real / d as real * u * v
  }

  function Term(n: nat, x: nat, p: real): real
    requires x <= n
  {
    Quotient(Fact(n), Fact(x) * Fact(n - x), Pow(p, x), Pow(1.0 - p, n - x))
  }

  /** d6roll; `range(0, n + 1)` is empty for a negative `n`. */
  function D6Roll(n: int, attack: int, defense: int): (r: seq<real>)
    ensures |r| == if n < 0 then 0 else n + 1
  {
    if n < 0 then []
    else seq(n + 1, x requires 0 <= x <= n => Term(n, x, HitChance(attack, defense)))
  }

  function Total(s: seq<real>): real {
    if s == [] then 0.0 else Total(s[..|s| - 1]) + s[|s| - 1]
  }

  /** `sum(i * p for i, p in enumerate(s))`. */
  function Expectation(s: seq<real>): real {
    if s == [] then 0.0 else Expectation(s[..|s| - 1]) + Times((|s| - 1) as real, s[|s| - 1])
  }

  // ------------------------------------------------------------------ Pascal

  function Choose(n: nat, x: nat): nat {
    if x == 0 then 1 else if n == 0 then 0 else Choose(n - 1, x - 1) + Choose(n - 1, x)
  }

  lemma {:induction false} ChooseBeyond(n: nat, x: nat)
    requires x > n
    ensures Choose(n, x) == 0
  {
    if n == 0 {
    } else {
      ChooseBeyond(n - 1, x - 1);
      ChooseBeyond(n - 1, x);
    }
  }

  /** The step of ChooseFact, with the factorials as plain numbers. */
  lemma PascalStep(a: int, b: int, x: int, y: int, fx1: int, fy1: int, f: int)
    requires a * (fx1 * (y * fy1)) == f && b * ((x * fx1) * fy1) == f
    ensures (a + b) * ((x * fx1) * (y * fy1)) == (x + y) * f
  {
    var u, v := x * fx1, y * fy1;
    assert a * (u * v) == x * f by {
      assert u * v == x * (fx1 * v);
      assert a * (x * (fx1 * v)) == x * (a * (fx1 * v));
    }
    assert b * (u * v) == y * f by {
      assert u * v == y * (u * fy1);
      assert b * (y * (u * fy1)) == y * (b * (u * fy1));
    }
    assert (a + b) * (u * v) == a * (u * v) + b * (u * v);
    assert (x + y) * f == x * f + y * f;
  }

  lemma FullRow(n: int, c: int, f: int)
    requires c * (f * 1) == f
    ensures c * ((n * f) * 1) == n * f
  {
    assert c * (n * f) == n * (c * f);
  }

  /** The factors that one step down Pascal's triangle splits off. */
  lemma FactSteps(n: nat, x: nat)
    requires 0 < x < n
    ensures Fact(n) == n * Fact(n - 1) && Fact(x) == x * Fact(x - 1) && Fact(n - x) == (n - x) * Fact(n - x - 1)
    ensures Choose(n, x) == Choose(n - 1, x - 1) + Choose(n - 1, x)
  {
  }

  /** Pascal's triangle holds the quotients of factorials. */
  lemma {:induction false} ChooseFact(n: nat, x: nat)
    requires x <= n
    ensures Choose(n, x) * (Fact(x) * Fact(n - x)) == Fact(n)
  {
    if x == 0 {
    } else if x == n {
      ChooseFact(n - 1, n - 1);
      ChooseBeyond(n - 1, n);
      FullRow(n, Choose(n - 1, n - 1), Fact(n - 1));
    } else {
      hide Fact, Choose;
      FactSteps(n, x);
      ChooseFact(n - 1, x - 1);
      ChooseFact(n - 1, x);
      PascalStep(Choose(n - 1, x - 1), Choose(n - 1, x), x, n - x, Fact(x - 1), Fact(n - x - 1), Fact(n - 1));
    }
  }

  // ------------------------------------------------------------ rows of the pool

  /** The chance that exactly `x` of `n` dice get through, each with chance `p`
      and failing with chance `q`: the last one either does or does not. */
  function Row(n: nat, x: nat, p: real, q: real): real {
    if n == 0 then (if x == 0 then 1.0 else 0.0)
    else (if x == 0 then 0.0 else Times(p, Row(n - 1, x - 1, p, q))) + Times(q, Row(n - 1, x, p, q))
  }

  lemma {:induction false} RowBeyond(n: nat, x: nat, p: real, q: real)
    requires x > n
    ensures Row(n, x, p, q) == 0.0
  {
    if n == 0 {
    } else {
      RowBeyond(n - 1, x - 1, p, q);
      RowBeyond(n - 1, x, p, q);
    }
  }

  function Closed(c: int, u: real, v: real): real {
    c as real * (u * v)
  }

  lemma ClosedStep(a: int, b: int, u: real, v: real, w: real, z: real, p: real, q: real, r0: real, r1: real)
    requires w == Times(q, v) && z == Times(p, u) && r0 == Closed(a, u, w) && r1 == Closed(b, z, v)
    ensures Closed(a + b, z, w) == Times(p, r0) + Times(q, r1)
  {
    var x, y := a as real, b as real;
    assert (x + y) * (z * w) == x * (z * w) + y * (z * w);
    assert x * ((p * u) * w) == p * (x * (u * w));
    assert y * (z * (q * v)) == q * (y * (z * v));
  }

  lemma ClosedEdges(a: int, u: real, v: real, p: real, q: real)
    ensures Closed(a, Times(p, u), 1.0) == Times(p, Closed(a, u, 1.0))
    ensures Closed(1, 1.0, Times(q, v)) == Times(q, Closed(1, 1.0, v))
  {
  }

  /** The closed form of a row. */
  lemma {:induction false} RowClosed(n: nat, x: nat, p: real, q: real)
    requires x <= n
    ensures Row(n, x, p, q) == Closed(Choose(n, x), Pow(p, x), Pow(q, n - x))
  {
    if n == 0 {
    } else {
      if x == 0 {
        RowClosed(n - 1, 0, p, q);
        ClosedEdges(0, 0.0, Pow(q, n - 1), p, q);
      } else if x == n {
        RowClosed(n - 1, n - 1, p, q);
        RowBeyond(n - 1, n, p, q);
        ChooseBeyond(n - 1, n);
        ClosedEdges(Choose(n - 1, n - 1), Pow(p, n - 1), 0.0, p, q);
      } else {
        RowClosed(n - 1, x - 1, p, q);
        RowClosed(n - 1, x, p, q);
        ClosedStep(Choose(n - 1, x - 1), Choose(n - 1, x), Pow(p, x - 1), Pow(q, n - x - 1), Pow(q, n - x),
                   Pow(p, x), p, q, Row(n - 1, x - 1, p, q), Row(n - 1, x, p, q));
      }
    }
  }

  lemma QuotientTimes(c: int, d: int, f: int, u: real, v: real)
    requires d >= 1 && c * d == f
    ensures Quotient(f, d, u, v) == Closed(c, u, v)
  {
    assert f as real == c as real * d as real;
    assert f as real / d as real == c as real;
  }

  /** The factorial formula of d6roll gives the rows. */
  lemma TermIsRow(n: nat, x: nat, p: real)
    requires x <= n
    ensures Term(n, x, p) == Row(n, x, p, 1.0 - p)
  {
    assert Term(n, x, p) == Closed(Choose(n, x), Pow(p, x), Pow(1.0 - p, n - x)) by {
      ChooseFact(n, x);
      QuotientTimes(Choose(n, x), Fact(x) * Fact(n - x), Fact(n), Pow(p, x), Pow(1.0 - p, n - x));
    }
    RowClosed(n, x, p, 1.0 - p);
  }

  // ---------------------------------------------------------- total and expectation

  /** The first `k` values of `f`, added up. */
  function Mass(f: nat -> real, k: nat): real {
    if k == 0 then 0.0 else Mass(f, k - 1) + f(k - 1)
  }

  function Moment(f: nat -> real, k: nat): real {
    if k == 0 then 0.0 else Moment(f, k - 1) + Times((k - 1) as real, f(k - 1))
  }

  predicate StepAt(f: nat -> real, g: nat -> real, x: nat, p: real, q: real) {
    g(x) == (if x == 0 then 0.0 else Times(p, f(x - 1))) + Times(q, f(x))
  }

  /** `g` is the row after `f`: one more die, which gets through with chance `p`. */
  ghost predicate NextRow(f: nat -> real, g: nat -> real, p: real, q: real) {
    forall x: nat :: StepAt(f, g, x, p, q)
  }

  lemma {:induction false} MassStep(f: nat -> real, g: nat -> real, k: nat, p: real, q: real)
    requires NextRow(f, g, p, q)
    ensures Mass(g, k + 1) == Times(p, Mass(f, k)) + Times(q, Mass(f, k + 1))
  {
    assert StepAt(f, g, k, p, q);
    if k == 0 {
      assert Mass(g, 1) == g(0) && Mass(f, 1) == f(0);
    } else {
      MassStep(f, g, k - 1, p, q);
    }
  }

  lemma MomentAlgebra(p: real, q: real, k: real, k1: real, r0: real, r1: real, g: real,
                      e: real, m: real, e1: real, m1: real, e2: real)
    requires k1 == k - 1.0 && g == Times(p, r0) + Times(q, r1)
    requires e1 == e + Times(k1, r0) && m1 == m + r0 && e2 == e1 + Times(k, r1)
    ensures Times(p, e + m) + Times(q, e1) + Times(k, g) == Times(p, e1 + m1) + Times(q, e2)
  {
    assert k * (p * r0 + q * r1) == p * (k * r0) + q * (k * r1);
    assert k1 * r0 + r0 == k * r0;
    assert e1 + m1 == (e + m) + k * r0;
    assert p * ((e + m) + k * r0) == p * (e + m) + p * (k * r0);
    assert q * (e1 + k * r1) == q * e1 + q * (k * r1);
  }

  lemma {:induction false} MomentStep(f: nat -> real, g: nat -> real, k: nat, p: real, q: real)
    requires NextRow(f, g, p, q)
    ensures Moment(g, k + 1) == Times(p, Moment(f, k) + Mass(f, k)) + Times(q, Moment(f, k + 1))
  {
    assert StepAt(f, g, k, p, q);
    if k == 0 {
      assert Moment(g, 1) == Times(0.0, g(0)) && Moment(f, 1) == Times(0.0, f(0));
    } else {
      MomentStep(f, g, k - 1, p, q);
      MomentAlgebra(p, q, k as real, (k - 1) as real, f(k - 1), f(k), g(k),
                    Moment(f, k - 1), Mass(f, k - 1), Moment(f, k), Mass(f, k), Moment(f, k + 1));
    }
  }

  function RowOf(n: nat, p: real, q: real): nat -> real {
    (x: nat) => Row(n, x, p, q)
  }

  lemma RowsFollow(n: nat, p: real, q: real)
    ensures NextRow(RowOf(n, p, q), RowOf(n + 1, p, q), p, q)
  {
    var f, g := RowOf(n, p, q), RowOf(n + 1, p, q);
    forall x: nat ensures StepAt(f, g, x, p, q) {
      assert g(x) == Row(n + 1, x, p, q);
    }
  }

  lemma {:induction false} MassIsOne(n: nat, p: real, q: real)
    requires p + q == 1.0
    ensures Mass(RowOf(n, p, q), n + 1) == 1.0
    ensures Mass(RowOf(n, p, q), n + 2) == 1.0
  {
    var f := RowOf(n, p, q);
    RowBeyond(n, n + 1, p, q);
    assert Mass(f, n + 2) == Mass(f, n + 1) + f(n + 1);
    if n == 0 {
      assert Mass(f, 1) == Mass(f, 0) + f(0);
    } else {
      MassIsOne(n - 1, p, q);
      RowsFollow(n - 1, p, q);
      MassStep(RowOf(n - 1, p, q), f, n, p, q);
      assert Times(p, 1.0) + Times(q, 1.0) == 1.0;
    }
  }

  lemma MeanAlgebra(m: real, p: real, q: real)
    requires p + q == 1.0
    ensures Times(p, Times(m, p) + 1.0) + Times(q, Times(m, p)) == Times(m + 1.0, p)
  {
    var r := m * p;
    assert p * (r + 1.0) + q * r == (p + q) * r + p;
  }

  lemma {:induction false} MomentIsMean(n: nat, p: real, q: real)
    requires p + q == 1.0
    ensures Moment(RowOf(n, p, q), n + 1) == Times(n as real, p)
    ensures Moment(RowOf(n, p, q), n + 2) == Times(n as real, p)
  {
    var f := RowOf(n, p, q);
    RowBeyond(n, n + 1, p, q);
    assert Moment(f, n + 2) == Moment(f, n + 1) + Times((n + 1) as real, f(n + 1));
    if n == 0 {
      assert Moment(f, 1) == Moment(f, 0) + Times(0.0, f(0));
    } else {
      var m := n - 1;
      MomentIsMean(m, p, q);
      MassIsOne(m, p, q);
      RowsFollow(m, p, q);
      MomentStep(RowOf(m, p, q), f, n, p, q);
      MeanAlgebra(m as real, p, q);
    }
  }

  lemma {:induction false} PrefixSums(s: seq<real>, f: nat -> real)
    requires forall x :: 0 <= x < |s| ==> s[x] == f(x)
    ensures Total(s) == Mass(f, |s|) && Expectation(s) == Moment(f, |s|)
  {
    if s == [] {
    } else {
      PrefixSums(s[..|s| - 1], f);
    }
  }

  lemma PoolSums(n: nat, attack: int, defense: int)
    ensures Total(D6Roll(n, attack, defense)) == 1.0
    ensures Expectation(D6Roll(n, attack, defense)) == n as real * HitChance(attack, defense)
  {
    var p := HitChance(attack, defense);
    var s := D6Roll(n, attack, defense);
    forall x | 0 <= x < |s| ensures s[x] == RowOf(n, p, 1.0 - p)(x) { TermIsRow(n, x, p); }
    PrefixSums(s, RowOf(n, p, 1.0 - p));
    MassIsOne(n, p, 1.0 - p);
    MomentIsMean(n, p, 1.0 - p);
  }

  /** d6roll is a distribution, and its expectation is the number of dice times the
      chance of one die, for every `n` and all attack and defense values; for those in
      reach of a D6 that chance counts the throws that let a die through. */
  lemma BinomialTheorem(n: nat, attack: int, defense: int)
    ensures Total(D6Roll(n, attack, defense)) == 1.0
    ensures Expectation(D6Roll(n, attack, defense)) == n as real * HitChance(attack, defense)
    ensures 1 <= attack <= 7 && 1 <= defense <= 7 ==>
            36.0 * Expectation(D6Roll(n, attack, defense)) == n as real * |Throws(attack, defense)| as real
  {
    hide *;
    PoolSums(n, attack, defense);
    if 1 <= attack <= 7 && 1 <= defense <= 7 {
      ChanceCountsThrows(attack, defense);
      MeanCounts(n as real, HitChance(attack, defense), |Throws(attack, defense)| as real);
    }
  }

  lemma MeanCounts(n: real, p: real, count: real)
    requires 36.0 * p == count
    ensures 36.0 * (n * p) == n * count
  {
  }

  lemma NonNegative(a: real, b: real)
    requires a >= 0.0 && b >= 0.0
    ensures Times(a, b) >= 0.0
  {
  }

  lemma {:induction false} RowNonNegative(n: nat, x: nat, p: real, q: real)
    requires p >= 0.0 && q >= 0.0
    ensures Row(n, x, p, q) >= 0.0
  {
    if n == 0 {
    } else {
      RowNonNegative(n - 1, x, p, q);
      NonNegative(q, Row(n - 1, x, p, q));
      if x > 0 {
        RowNonNegative(n - 1, x - 1, p, q);
        NonNegative(p, Row(n - 1, x - 1, p, q));
      }
    }
  }

  lemma ProductBound(a: real, d: real)
    requires 0.0 <= a <= 1.0 && 0.0 <= d <= 6.0
    ensures 0.0 <= a * d <= 6.0
  {
    NonNegative(1.0 - a, d);
    NonNegative(a, d);
  }

  lemma HitChanceIsChance(attack: int, defense: int)
    requires 1 <= attack <= 7 && 1 <= defense <= 7
    ensures 0.0 <= HitChance(attack, defense) <= 1.0
  {
    ProductBound((7 - attack) as real / 6.0, (defense - 1) as real);
  }

  /** With die values in reach of a D6 no probability is negative. */
  lemma ProbabilitiesNonNegative(n: int, attack: int, defense: int)
    requires 1 <= attack <= 7 && 1 <= defense <= 7
    ensures forall x :: 0 <= x < |D6Roll(n, attack, defense)| ==> D6Roll(n, attack, defense)[x] >= 0.0
  {
    var p := HitChance(attack, defense);
    HitChanceIsChance(attack, defense);
    forall x | 0 <= x < |D6Roll(n, attack, defense)| ensures D6Roll(n, attack, defense)[x] >= 0.0 {
      TermIsRow(n, x, p);
      RowNonNegative(n, x, p, 1.0 - p);
    }
  }
}
