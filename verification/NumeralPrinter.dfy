/**
 The canonical Chinese writing of numbers below 10^12, and the proof that the
 parser undoes it; and what the parser makes of bare runs of digits.
 */
module NumeralPrinter {
  import opened Bytes
  import opened Numerals

  // ------------------------------------------------------- what the scan adds up

  /** What the scan has read so far, as a number. */
  function Reading(vals: seq<nat>): int {
    Fold(vals).res + Fold(vals).tmp
  }

  /** The next digit will start a new summand. */
  predicate Settled(vals: seq<nat>) {
    !Fold(vals).lis || Fold(vals).tmp == 0
  }

  lemma FoldAppend(vals: seq<nat>, x: nat)
    ensures Fold(vals + [x]) == Step(Fold(vals), x, vals == [])
  {
    assert (vals + [x])[..|vals|] == vals;
  }

  lemma PairStep(st: Scan, d: nat, u: nat, first: bool)
    requires !st.lis || st.tmp == 0
    requires 1 <= d <= 9 && u >= 10
    ensures Step(Step(st, d, first), u, false) == Scan(d * u, st.res + st.tmp, false)
  {
  }

  /** A digit and its unit add their product. */
  lemma PairAdds(vals: seq<nat>, d: nat, u: nat)
    requires Settled(vals) && 1 <= d <= 9 && u >= 10
    ensures Reading(vals + [d, u]) == Reading(vals) + d * u && Settled(vals + [d, u])
  {
    PairStep(Fold(vals), d, u, vals == []);
    FoldAppend(vals, d);
    FoldAppend(vals + [d], u);
    assert vals + [d] + [u] == vals + [d, u];
  }

  lemma ZeroStep(st: Scan, first: bool)
    requires !st.lis || st.tmp == 0
    requires first ==> st == Scan(0, 0, false)
    ensures var next := Step(st, 0, first);
      next.res + next.tmp == st.res + st.tmp && (!next.lis || next.tmp == 0)
  {
  }

  /** A zero adds nothing. */
  lemma ZeroAdds(vals: seq<nat>)
    requires Settled(vals)
    ensures Reading(vals + [0]) == Reading(vals) && Settled(vals + [0])
  {
    ZeroStep(Fold(vals), vals == []);
    FoldAppend(vals, 0);
  }

  /** A digit at the end adds itself. */
  lemma DigitAdds(vals: seq<nat>, d: nat)
    requires Settled(vals) && 1 <= d <= 9
    ensures Reading(vals + [d]) == Reading(vals) + d
  {
    FoldAppend(vals, d);
  }

  // ----------------------------------------------------------------- the printer

  /** One place of a group: a digit with its unit, a zero standing for a gap, or nothing. */
  function Place(digit: nat, unit: nat, gap: bool): (r: seq<nat>) {
    if digit > 0 then [digit, unit] else if gap then [0] else []
  }

  lemma PlaceAdds(vals: seq<nat>, digit: nat, unit: nat, gap: bool)
    requires Settled(vals) && digit <= 9 && unit >= 10
    ensures var after := vals + Place(digit, unit, gap);
      Reading(after) == Reading(vals) + digit * unit && Settled(after)
  {
    if digit > 0 {
      PairAdds(vals, digit, unit);
    } else if gap {
      ZeroAdds(vals);
    } else {
      assert vals + [] == vals;
    }
  }

  /** The thousands and hundreds of a group; `zero` writes 零 in front because
      higher digits were left out, `more` tells that tens or ones will follow. */
  function UpperHalf(a: nat, b: nat, zero: bool, more: bool): seq<nat> {
    (if zero then [0] else []) + Place(a, 1000, false) + Place(b, 100, a > 0 && more)
  }

  /** Four decimal digits, the highest first; `short` writes 十 for a leading 一十. */
  function Digits(a: nat, b: nat, c: nat, d: nat, zero: bool, short: bool): seq<nat> {
    (if short && a == 0 && b == 0 && c == 1 then [10]
     else UpperHalf(a, b, zero, c > 0 || d > 0) + Place(c, 10, b > 0 && d > 0))
    + (if d > 0 then [d] else [])
  }

  lemma UpperHalfReading(a: nat, b: nat, zero: bool, more: bool)
    requires a <= 9 && b <= 9
    ensures var vals := UpperHalf(a, b, zero, more);
      Reading(vals) == 1000 * a + 100 * b && Settled(vals)
  {
    var t0: seq<nat> := if zero then [0] else [];
    if zero { ZeroAdds([]); assert [] + [0] == t0; }
    PlaceAdds(t0, a, 1000, false);
    PlaceAdds(t0 + Place(a, 1000, false), b, 100, a > 0 && more);
  }

  /** Reading a group from left to right adds up its digits. */
  lemma DigitsReading(a: nat, b: nat, c: nat, d: nat, zero: bool, short: bool)
    requires a <= 9 && b <= 9 && c <= 9 && d <= 9
    ensures Reading(Digits(a, b, c, d, zero, short)) == 1000 * a + 100 * b + 10 * c + d
  {
    if short && a == 0 && b == 0 && c == 1 {
      FoldAppend([], 10);
      assert [] + [10] == [10];
      DigitsEnd([10], d);
    } else {
      var upper := UpperHalf(a, b, zero, c > 0 || d > 0);
      UpperHalfReading(a, b, zero, c > 0 || d > 0);
      PlaceAdds(upper, c, 10, b > 0 && d > 0);
      DigitsEnd(upper + Place(c, 10, b > 0 && d > 0), d);
    }
  }

  lemma DigitsEnd(vals: seq<nat>, d: nat)
    requires Settled(vals) && d <= 9
    ensures Reading(vals + if d > 0 then [d] else []) == Reading(vals) + d
  {
    if d > 0 { DigitAdds(vals, d); } else { assert vals + [] == vals; }
  }

  /** A group does not end like 一百二, nor in a zero, which would not be counted. */
  lemma DigitsWhole(a: nat, b: nat, c: nat, d: nat, zero: bool, short: bool)
    requires a <= 9 && b <= 9 && c <= 9 && d <= 9 && (short ==> !zero) && a + b + c + d > 0
    ensures var vals := Digits(a, b, c, d, zero, short);
      vals != [] && Completed(vals) == vals && vals[|vals| - 1] != 0
  {
  }

  /** A group of decimal digits: the numerals of `g`. */
  function Group(g: nat, zero: bool, short: bool): seq<nat> {
    Digits(g / 1000, g / 100 % 10, g / 10 % 10, g % 10, zero, short)
  }

  lemma DecimalDigits(g: nat)
    requires g < 10000
    ensures g == 1000 * (g / 1000) + 100 * (g / 100 % 10) + 10 * (g / 10 % 10) + g % 10
    ensures g / 1000 <= 9
  {
    var q, r := g / 10, g / 100;
    assert g == 10 * q + g % 10 && q == 10 * (g / 100) + q % 10 && r == 10 * (g / 1000) + r % 10;
  }

  /** The scan gives every group its number. */
  lemma GroupScanned(g: nat, zero: bool, short: bool)
    requires 0 < g < 10000 && (short ==> !zero)
    ensures Group(g, zero, short) != [] && Scanned(Completed(Group(g, zero, short))) == g
  {
    hide Digits, Completed, Fold;
    DecimalDigits(g);
    DigitsReading(g / 1000, g / 100 % 10, g / 10 % 10, g % 10, zero, short);
    DigitsWhole(g / 1000, g / 100 % 10, g / 10 % 10, g % 10, zero, short);
  }

  // ------------------------------------------------------------------ characters

  predicate Writable(v: nat) {
    v <= 10 || v == 100 || v == 1000
  }

  /** Neither a big unit, nor a point or comma, nor an ASCII digit. */
  predicate Plain(c: char) {
    c != '亿' && c != '兆' && c != '万' && c != '.' && c != ',' && !('0' <= c <= '9')
  }

  function Char(v: nat): (c: char)
    requires Writable(v)
    ensures Value(c) == Ok(v)
    ensures Plain(c)
  {
    match v
    case 0 => '零' case 1 => '一' case 2 => '二' case 3 => '三' case 4 => '四'
    case 5 => '五' case 6 => '六' case 7 => '七' case 8 => '八' case 9 => '九'
    case 10 => '十' case 100 => '百' case _ => '千'
  }

  predicate AllWritable(vals: seq<nat>) {
    forall i :: 0 <= i < |vals| ==> Writable(vals[i])
  }

  function Text(vals: seq<nat>): (s: string)
    requires AllWritable(vals)
    ensures |s| == |vals| && forall i :: 0 <= i < |s| ==> s[i] == Char(vals[i])
  {
    seq(|vals|, i requires 0 <= i < |vals| => Char(vals[i]))
  }

  lemma {:induction false} ValuesOfText(vals: seq<nat>)
    requires AllWritable(vals)
    ensures Values(Text(vals)) == Ok(vals)
  {
    if vals == [] {
    } else {
      var front := vals[..|vals| - 1];
      ValuesOfText(front);
      assert Text(vals)[..|vals| - 1] == Text(front);
      assert vals == front + [vals[|vals| - 1]];
    }
  }

  lemma {:induction false} DecimalsOfText(ds: seq<nat>)
    requires forall i :: 0 <= i < |ds| ==> ds[i] <= 9
    ensures Decimals(Text(ds)) == Ok(ds)
  {
    if ds == [] {
    } else {
      hide Char, Value, Decimals;
      var front, last := ds[..|ds| - 1], ds[|ds| - 1];
      DecimalsOfText(front);
      assert Text(ds) == Text(front) + [Char(last)];
      assert ds == front + [last];
    }
  }

  // -------------------------------------------------------------------- cutting

  lemma {:induction false} FindAt(x: string, c: char, y: string)
    requires c !in x
    ensures Find(x + [c] + y, c) == |x|
  {
    var s := x + [c] + y;
    assert s[|x|] == c;
    assert forall k :: 0 <= k < |x| ==> s[k] == x[k] && x[k] != c;
  }

  lemma Cut(x: string, c: char, y: string)
    requires c !in x && c !in y
    ensures var s := x + [c] + y;
      c in s && Before(s, c) == x && Behind(s, c) == y
  {
    var s := x + [c] + y;
    FindAt(x, c, y);
    assert s[|x|] == c && s[..|x|] == x && s[|x| + 1..] == y;
    assert Find(y, c) == |y| && y[..|y|] == y;
  }

  /** `".三一四"`, or nothing. */
  function Point(ds: seq<nat>, point: bool): string
    requires forall i :: 0 <= i < |ds| ==> ds[i] <= 9
  {
    if point then "." + Text(ds) else ""
  }

  lemma PlainIsNoLiteral(x: string)
    requires x != "" && forall i :: 0 <= i < |x| ==> Plain(x[i])
    ensures !AsciiDigits(x) && '.' !in x
  {
    assert Plain(x[0]);
  }

  /** Text without ASCII digits is no number for `float`. */
  lemma NoFloatPoint(x: string, y: string)
    requires forall i :: 0 <= i < |x| ==> Plain(x[i])
    requires forall i :: 0 <= i < |y| ==> Plain(y[i])
    ensures !FloatLiteral(x + ['.'] + y) && '.' !in x && '.' !in y
  {
    var s := x + ['.'] + y;
    FindAt(x, '.', y);
    assert s[..|x|] == x && s[|x| + 1..] == y;
    if x != "" { PlainIsNoLiteral(x); }
    if y != "" { PlainIsNoLiteral(y); }
  }

  lemma NoFloatPlain(x: string)
    requires x != "" && forall i :: 0 <= i < |x| ==> Plain(x[i])
    ensures !FloatLiteral(x) && Before(x, '.') == x && '.' !in x
  {
    PlainIsNoLiteral(x);
    assert Find(x, '.') == |x| && x[..|x|] == x;
  }

  lemma UnderKPoint(x: string, y: string, ds: seq<nat>, n: int)
    requires '.' !in x && '.' !in y && !FloatLiteral(x + ['.'] + y)
    requires Decimals(y) == Ok(ds) && IntegerPart(x) == Ok(n)
    ensures UnderK(x + ['.'] + y) == Ok(Fraction(ds) + n as real)
  {
    hide FloatLiteral, FloatValue, Before, Behind, Decimals, IntegerPart, Fraction;
    Cut(x, '.', y);
  }

  lemma UnderKPlain(x: string, n: int)
    requires '.' !in x && !FloatLiteral(x) && Before(x, '.') == x
    requires IntegerPart(x) == Ok(n)
    ensures UnderK(x) == Ok(n as real)
  {
    hide FloatLiteral, FloatValue, Before, Behind, Decimals, IntegerPart;
  }

  lemma IntegerPartOfText(vals: seq<nat>)
    requires AllWritable(vals)
    ensures IntegerPart(Text(vals)) == Ok(Scanned(Completed(vals)))
  {
    hide Text, Scanned, Completed, Values;
    ValuesOfText(vals);
  }

  lemma PointBetween(x: string, y: string)
    ensures x + ("." + y) == x + ['.'] + y
  {
  }

  lemma UnderKOfPointed(vals: seq<nat>, ds: seq<nat>)
    requires AllWritable(vals) && AllWritable(ds) && forall i :: 0 <= i < |ds| ==> ds[i] <= 9
    ensures UnderK(Text(vals) + ['.'] + Text(ds)) == Ok(Fraction(ds) + Scanned(Completed(vals)) as real)
  {
    hide *;
    IntegerPartOfText(vals);
    NoFloatPoint(Text(vals), Text(ds));
    DecimalsOfText(ds);
    UnderKPoint(Text(vals), Text(ds), ds, Scanned(Completed(vals)));
  }

  lemma UnderKOfPlain(vals: seq<nat>)
    requires AllWritable(vals) && vals != []
    ensures UnderK(Text(vals)) == Ok(Scanned(Completed(vals)) as real)
  {
    hide *;
    IntegerPartOfText(vals);
    NoFloatPlain(Text(vals));
    UnderKPlain(Text(vals), Scanned(Completed(vals)));
  }

  /** Below the big units, the parser adds the scan of the text and the decimals. */
  lemma UnderKOfText(vals: seq<nat>, ds: seq<nat>, point: bool)
    requires AllWritable(vals) && forall i :: 0 <= i < |ds| ==> ds[i] <= 9
    requires (vals != [] || point) && (!point ==> ds == [])
    ensures UnderK(Text(vals) + Point(ds, point)) == Ok(Fraction(ds) + Scanned(Completed(vals)) as real)
  {
    hide UnderK, Text, Scanned, Completed;
    if point {
      PointBetween(Text(vals), Text(ds));
      UnderKOfPointed(vals, ds);
    } else {
      UnderKOfPlain(vals);
      assert Text(vals) + "" == Text(vals);
    }
  }

  lemma UnitPresent(x: string, u: char, y: string, units: string)
    requires units != "" && units[0] == u && u !in x && u !in y && UnderK(x).Ok?
    ensures FromUnits(x + [u] + y, units) == Plus(Scaled(UnderK(x).value, u), FromUnits(y, units[1..]))
  {
    Cut(x, u, y);
  }

  lemma UnitAbsent(s: string, units: string)
    requires units != "" && units[0] !in s
    ensures FromUnits(s, units) == FromUnits(s, units[1..])
  {
  }

  // ------------------------------------------------------------------- round trip

  lemma DigitsWritable(a: nat, b: nat, c: nat, d: nat, zero: bool, short: bool)
    requires a <= 9 && b <= 9 && c <= 9 && d <= 9
    ensures AllWritable(Digits(a, b, c, d, zero, short))
  {
  }

  /** The characters of a group; none for a group of zeros. */
  function GroupText(g: nat, zero: bool, short: bool): string
    requires g < 10000
  {
    DecimalDigits(g);
    DigitsWritable(g / 1000, g / 100 % 10, g / 10 % 10, g % 10, zero, short);
    if g == 0 then "" else Text(Group(g, zero, short))
  }

  /** A group with its big unit behind it. */
  function WithUnit(g: nat, zero: bool, short: bool, unit: char): string
    requires g < 10000
  {
    if g == 0 then "" else GroupText(g, zero, short) + [unit]
  }

  /** The groups of a number below 10^12, the lowest without a unit, and decimals. */
  function Printed(a: nat, b: nat, c: nat, short: bool, ds: seq<nat>, point: bool): string
    requires a < 10000 && b < 10000 && c < 10000 && forall i :: 0 <= i < |ds| ==> ds[i] <= 9
  {
    WithUnit(a, false, short, '亿')
    + (WithUnit(b, a > 0 && b < 1000, short && a == 0, '万')
       + LowGroup(c, a > 0 || b > 0, (a > 0 || b > 0) && (c < 1000 || b == 0), short && a == 0 && b == 0, ds, point))
  }

  /** The lowest group and the decimals; a number without any group is written 零. */
  function LowGroup(c: nat, upper: bool, zero: bool, short: bool, ds: seq<nat>, point: bool): string
    requires c < 10000 && forall i :: 0 <= i < |ds| ==> ds[i] <= 9
  {
    (if c == 0 && !upper then "零" else GroupText(c, zero, short)) + Point(ds, point)
  }

  /** The canonical writing of `n`, with the decimals `ds` behind a point if there is one. */
  function Print(n: nat, short: bool, ds: seq<nat>, point: bool): string
    requires n < 1000000000000 && forall i :: 0 <= i < |ds| ==> ds[i] <= 9
  {
    Printed(n / 100000000, n / 10000 % 10000, n % 10000, short, ds, point)
  }

  lemma GroupTextParsed(g: nat, zero: bool, short: bool)
    requires 0 < g < 10000 && (short ==> !zero)
    ensures UnderK(GroupText(g, zero, short)) == Ok(g as real)
    ensures forall i :: 0 <= i < |GroupText(g, zero, short)| ==> Plain(GroupText(g, zero, short)[i])
  {
    hide UnderK, Digits, Text, Scanned, Completed;
    DecimalDigits(g);
    DigitsWritable(g / 1000, g / 100 % 10, g / 10 % 10, g % 10, zero, short);
    GroupScanned(g, zero, short);
    UnderKOfPlain(Group(g, zero, short));
  }

  /** What is left when all big units have been cut off. */
  lemma TailParsed(vals: seq<nat>, ds: seq<nat>, point: bool)
    requires AllWritable(vals) && forall i :: 0 <= i < |ds| ==> ds[i] <= 9
    requires !point ==> ds == []
    ensures FromUnits(Text(vals) + Point(ds, point), "") == Ok(Fraction(ds) + Scanned(Completed(vals)) as real)
  {
    if vals == [] && !point {
      assert Text(vals) + Point(ds, point) == "";
      assert Completed(vals) == [] && Fold([]) == Scan(0, 0, false);
    } else {
      hide UnderK, Scanned, Completed, Fraction;
      UnderKOfText(vals, ds, point);
      assert |Text(vals) + Point(ds, point)| > 0;
    }
  }

  lemma NothingScanned()
    ensures Scanned(Completed([])) == 0 && Scanned(Completed([0])) == 0
  {
    var none: seq<nat> := [];
    hide Step;
    assert Fold(none) == Scan(0, 0, false);
    assert Fold([0]) == Scan(0, 0, true) by {
      FirstZero();
      assert [0][..0] == none;
    }
  }

  lemma FirstZero()
    ensures Step(Scan(0, 0, false), 0, true) == Scan(0, 0, true)
  {
  }

  function LowValues(c: nat, upper: bool, zero: bool, short: bool): seq<nat> {
    if c == 0 then (if upper then [] else [0]) else Group(c, zero, short)
  }

  lemma LowGroupIsText(c: nat, upper: bool, zero: bool, short: bool)
    requires c < 10000
    ensures var vals := LowValues(c, upper, zero, short);
      AllWritable(vals) && (if c == 0 && !upper then "零" else GroupText(c, zero, short)) == Text(vals)
  {
    hide Digits;
    DecimalDigits(c);
    DigitsWritable(c / 1000, c / 100 % 10, c / 10 % 10, c % 10, zero, short);
  }

  lemma LowGroupParsed(c: nat, upper: bool, zero: bool, short: bool, ds: seq<nat>, point: bool)
    requires c < 10000 && (short ==> !zero) && forall i :: 0 <= i < |ds| ==> ds[i] <= 9
    requires !point ==> ds == []
    ensures FromUnits(LowGroup(c, upper, zero, short, ds, point), "") == Ok(c as real + Fraction(ds))
  {
    hide FromUnits, Text, Point, Group, GroupText, Scanned, Completed, Fraction;
    LowGroupIsText(c, upper, zero, short);
    TailParsed(LowValues(c, upper, zero, short), ds, point);
    if c > 0 { GroupScanned(c, zero, short); } else { NothingScanned(); }
  }

  /** No big unit hides in the lowest group and its decimals. */
  lemma LowGroupWithoutUnits(c: nat, upper: bool, zero: bool, short: bool, ds: seq<nat>, point: bool)
    requires c < 10000 && forall i :: 0 <= i < |ds| ==> ds[i] <= 9
    ensures var s := LowGroup(c, upper, zero, short, ds, point);
      '亿' !in s && '兆' !in s && '万' !in s
  {
    hide Text, Group, GroupText, Plain;
    LowGroupIsText(c, upper, zero, short);
    UnitsNotPlain();
  }

  lemma UnitsNotPlain()
    ensures !Plain('亿') && !Plain('兆') && !Plain('万')
  {
  }

  /** Cutting one big unit: its group times the unit, and the rest. */
  lemma UnitParsed(g: nat, zero: bool, short: bool, unit: char, rest: string, units: string, value: real)
    requires g < 10000 && (short ==> !zero) && units != "" && units[0] == unit && !Plain(unit)
    requires unit !in rest && FromUnits(rest, units[1..]) == Ok(value)
    ensures FromUnits(WithUnit(g, zero, short, unit) + rest, units) == Ok(Scaled(g as real, unit) + value)
  {
    hide UnderK, GroupText, Plain;
    if g == 0 {
      assert WithUnit(g, zero, short, unit) + rest == rest;
      UnitAbsent(rest, units);
      assert Scaled(0.0, unit) == 0.0;
    } else {
      var x := GroupText(g, zero, short);
      GroupTextParsed(g, zero, short);
      UnitPresent(x, unit, rest, units);
    }
  }

  /** The parser undoes the printer on all three groups. */
  lemma PrintedParsed(a: nat, b: nat, c: nat, short: bool, ds: seq<nat>, point: bool)
    requires a < 10000 && b < 10000 && c < 10000 && forall i :: 0 <= i < |ds| ==> ds[i] <= 9
    requires !point ==> ds == []
    ensures FromUnits(Printed(a, b, c, short, ds, point), "亿兆万")
         == Ok(Scaled(a as real, '亿') + (Scaled(b as real, '万') + (c as real + Fraction(ds))))
  {
    hide FromUnits, WithUnit, LowGroup, Scaled, Plain;
    var low :=
      LowGroup(c, a > 0 || b > 0, (a > 0 || b > 0) && (c < 1000 || b == 0), short && a == 0 && b == 0, ds, point);
    LowGroupParsed(c, a > 0 || b > 0, (a > 0 || b > 0) && (c < 1000 || b == 0), short && a == 0 && b == 0, ds, point);
    LowGroupWithoutUnits(c, a > 0 || b > 0, (a > 0 || b > 0) && (c < 1000 || b == 0), short && a == 0 && b == 0,
                         ds, point);
    UnitsNotPlain();
    assert "万"[1..] == "" && "兆万"[1..] == "万" && "亿兆万"[1..] == "兆万";
    UnitParsed(b, a > 0 && b < 1000, short && a == 0, '万', low, "万", c as real + Fraction(ds));
    var middle := WithUnit(b, a > 0 && b < 1000, short && a == 0, '万') + low;
    WithUnitOnly(b, a > 0 && b < 1000, short && a == 0, '万', '兆');
    WithUnitOnly(b, a > 0 && b < 1000, short && a == 0, '万', '亿');
    UnitAbsent(middle, "兆万");
    UnitParsed(a, false, short, '亿', middle, "亿兆万", Scaled(b as real, '万') + (c as real + Fraction(ds)));
  }

  lemma WithUnitOnly(g: nat, zero: bool, short: bool, unit: char, other: char)
    requires g < 10000 && unit != other && !Plain(other)
    ensures other !in WithUnit(g, zero, short, unit)
  {
    hide Text, Digits, Plain;
    DecimalDigits(g);
    DigitsWritable(g / 1000, g / 100 % 10, g / 10 % 10, g % 10, zero, short);
  }

  /** The parser undoes the canonical writing of every number below 10^12, with
      or without 一 before a leading 十, and with any decimals. */
  lemma RoundTrip(n: nat, short: bool, ds: seq<nat>, point: bool)
    requires n < 1000000000000 && forall i :: 0 <= i < |ds| ==> ds[i] <= 9
    requires !point ==> ds == []
    ensures FromUnits(Print(n, short, ds, point), "亿兆万") == Ok(n as real + Fraction(ds))
  {
    hide FromUnits, Printed, Fraction, Scaled;
    Groups(n);
    PrintedParsed(n / 100000000, n / 10000 % 10000, n % 10000, short, ds, point);
  }

  lemma Groups(n: nat)
    requires n < 1000000000000
    ensures n / 100000000 < 10000
    ensures n as real
         == Scaled((n / 100000000) as real, '亿') + (Scaled((n / 10000 % 10000) as real, '万') + (n % 10000) as real)
  {
    var a, b, c := n / 100000000, n / 10000 % 10000, n % 10000;
    assert n == 100000000 * a + 10000 * b + c;
  }

  // ------------------------------------------------------------- bare digit runs

  predicate AllDigits(vals: seq<nat>) {
    forall i :: 0 <= i < |vals| ==> vals[i] <= 9
  }

  /** No zero behind a digit that is not zero: 零零五 and 二三, but not 二零三. */
  predicate ZerosInFront(vals: seq<nat>) {
    forall i, j :: 0 <= i < j < |vals| && vals[j] == 0 ==> vals[i] == 0
  }

  /** How the scan may stand after a run of digits of value `base`; `inFront` tells
      whether all its zeros are in front. */
  predicate RunState(st: Scan, base: nat, inFront: bool) {
    && st.res >= 0 && st.tmp >= 0
    && (if inFront then st.res == 0 && st.tmp == base && (!st.lis ==> base == 0) else st.res + st.tmp < base)
  }

  lemma {:induction false} DigitRun(vals: seq<nat>)
    requires AllDigits(vals)
    ensures RunState(Fold(vals), Base10(vals), ZerosInFront(vals))
  {
    if vals != [] {
      hide Step, RunState, ZerosInFront;
      var front, x := vals[..|vals| - 1], vals[|vals| - 1];
      DigitRun(front);
      assert vals == front + [x];
      ZerosExtend(front, x);
      EmptyRun();
    } else {
      assert ZerosInFront(vals);
    }
  }

  lemma EmptyRun()
    ensures Fold([]) == Scan(0, 0, false) && Base10([]) == 0
    ensures forall x: nat :: ZerosInFront([x])
  {
  }

  /** What another digit does to a run: a zero is fine only behind zeros. */
  lemma ZerosExtend(front: seq<nat>, x: nat)
    requires AllDigits(front)
    ensures ZerosInFront(front + [x]) ==> ZerosInFront(front) && (x == 0 ==> Base10(front) == 0)
    ensures ZerosInFront(front) && !ZerosInFront(front + [x]) ==> x == 0 && Base10(front) > 0 && front != []
    ensures front == [] ==> ZerosInFront(front + [x])
  {
    var vals := front + [x];
    assert forall k :: 0 <= k < |front| ==> vals[k] == front[k];
    assert vals[|front|] == x;
    BaseZeroIff(front);
  }

  lemma {:induction false} BaseZeroIff(vals: seq<nat>)
    ensures Base10(vals) == 0 <==> forall i :: 0 <= i < |vals| ==> vals[i] == 0
  {
    if vals == [] {
    } else {
      var front := vals[..|vals| - 1];
      BaseZeroIff(front);
      assert forall k :: 0 <= k < |front| ==> vals[k] == front[k];
    }
  }

  /** A run of digits is read as a decimal number exactly when no zero stands
      behind a digit other than zero; otherwise too small a number comes out. */
  lemma DigitRunIff(vals: seq<nat>)
    requires AllDigits(vals) && vals != []
    ensures Scanned(Completed(vals)) == Base10(vals) <==> ZerosInFront(vals)
    ensures !ZerosInFront(vals) ==> Scanned(Completed(vals)) < Base10(vals)
  {
    hide Step;
    DigitRun(vals);
    if ZerosInFront(vals) && vals[|vals| - 1] == 0 { BaseZeroIff(vals); }
    if !ZerosInFront(vals) { EmptyRun(); }
  }

  /** The same for a string of Chinese digits of any length. */
  lemma ChineseDigitsIff(vals: seq<nat>)
    requires AllDigits(vals) && vals != []
    ensures AllWritable(vals)
    ensures UnderK(Text(vals)) == Ok(Base10(vals) as real) <==> ZerosInFront(vals)
  {
    hide UnderK, Text, Scanned, Completed, Base10, ZerosInFront;
    DigitRunIff(vals);
    UnderKOfPlain(vals);
  }

  /** A digit right behind a group's hundreds or thousands counts in tens of that
      unit's tenth: 三百五 is 350 and 一千二 is 1200. */
  lemma ColloquialTail(vals: seq<nat>, u: nat, d: nat)
    requires vals != [] && 1 <= d <= 9 && u >= 100
    ensures Scanned(Completed(vals + [u, d])) == Reading(vals + [u]) + d * (u / 10)
  {
    assert vals + [u] + [d, u / 10] == vals + [u, d] + [u / 10];
    PairAdds(vals + [u], d, u / 10);
  }

  /** But 万 and 亿 are cut off before that rule could see them: behind a group of any
      size the digit counts as itself, so that 一万二 is read as 10002, not 12000. */
  lemma BigUnitHasNoTail(g: nat, short: bool, unit: char, d: nat)
    requires 0 < g < 10000 && 1 <= d <= 9 && (unit == '万' || unit == '亿')
    ensures FromUnits(WithUnit(g, false, short, unit) + [Char(d)], "亿兆万")
         == Ok(Scaled(g as real, unit) + d as real)
  {
    hide FromUnits, WithUnit, Char, Scaled, Plain;
    UnitsNotPlain();
    DigitRead(d, "兆万");
    UnitTail();
    if unit == '亿' {
      UnitParsed(g, false, short, unit, [Char(d)], "亿兆万", d as real);
    } else {
      var all := WithUnit(g, false, short, unit) + [Char(d)];
      DigitRead(d, "");
      UnitParsed(g, false, short, unit, [Char(d)], "万", d as real);
      WithUnitOnly(g, false, short, unit, '兆');
      WithUnitOnly(g, false, short, unit, '亿');
      UnitAbsent(all, "兆万");
      UnitAbsent(all, "亿兆万");
    }
  }

  lemma UnitTail()
    ensures "亿兆万"[1..] == "兆万" && "兆万"[1..] == "万" && "万"[1..] == ""
  {
  }

  /** A digit alone has no big unit in it. */
  lemma {:induction false} DigitRead(d: nat, units: string)
    requires 1 <= d <= 9 && forall i :: 0 <= i < |units| ==> !Plain(units[i])
    ensures FromUnits([Char(d)], units) == Ok(d as real)
    ensures '亿' != Char(d) && '兆' != Char(d) && '万' != Char(d)
  {
    SingleDigit(d);
    if units != "" {
      DigitRead(d, units[1..]);
      hide UnderK;
      UnitAbsent([Char(d)], units);
    }
  }

  lemma SingleDigit(d: nat)
    requires 1 <= d <= 9
    ensures UnderK([Char(d)]) == Ok(d as real)
  {
    hide UnderK, Char;
    ChineseDigitsIff([d]);
    assert Text([d]) == [Char(d)];
  }
}
