/** What several modules need: small arithmetic, sums, and Python's white space. */
module Basics {
  function Max(a: int, b: int): int {
    if a >= b then a else b
  }

  function Min(a: int, b: int): int {
    if a <= b then a else b
  }

  /** Python's `sum`. */
  function Sum(s: seq<int>): int {
    if s == [] then 0 else Sum(s[..|s| - 1]) + s[|s| - 1]
  }

  lemma {:induction false} SumFront(x: int, s: seq<int>)
    ensures Sum([x] + s) == x + Sum(s)
  {
    if s == [] {
      assert Sum([x]) == Sum([]) + x;
      assert [x] + s == [x];
    } else {
      var all := [x] + s;
      assert all[..|all| - 1] == [x] + s[..|s| - 1];
      SumFront(x, s[..|s| - 1]);
    }
  }

  /** The characters that str.strip removes. */
  predicate IsSpace(c: char) {
    var k := c as int;
    || 9 <= k <= 13 || 28 <= k <= 32 || k == 0x85 || k == 0xA0 || k == 0x1680 || 0x2000 <= k <= 0x200A
    || k == 0x2028 || k == 0x2029 || k == 0x202F || k == 0x205F || k == 0x3000
  }
}
