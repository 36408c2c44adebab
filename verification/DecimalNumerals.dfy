/**
 The other writings that the numeral parser takes: ASCII digits with a point, on their
 own and in front of big units, and the formal and colloquial characters of its table;
 and the texts it refuses.
 */
module DecimalNumerals {
  import opened Bytes
  import opened Numerals
  import opened NumeralPrinter

  // ------------------------------------------------------------- decimal places

  /** `x` times ten, `n` times over. */
  function TimesTen(x: real, n: nat): real {
    if n == 0 then x else 10.0 * TimesTen(x, n - 1)
  }

  lemma {:induction false} TimesTenAdds(x: real, y: real, n: nat)
    ensures TimesTen(x + y, n) == TimesTen(x, n) + TimesTen(y, n)
    ensures TimesTen(x / 10.0, n + 1) == TimesTen(x, n)
  {
    if n == 0 {
      assert TimesTen(x / 10.0, 1) == 10.0 * TimesTen(x / 10.0, 0);
    } else {
      TimesTenAdds(x, y, n - 1);
    }
  }

  /** Digits written one behind the other. */
  lemma {:induction false} Base10Append(a: seq<nat>, b: seq<nat>)
    ensures Base10(a + b) as real == TimesTen(Base10(a) as real, |b|) + Base10(b) as real
  {
    if b == [] {
      assert a + b == a;
    } else {
      var front := b[..|b| - 1];
      Base10Append(a, front);
      assert (a + b)[..|a + b| - 1] == a + front;
    }
  }

  lemma FractionFirst(ds: seq<nat>)
    requires ds != []
    ensures Fraction(ds) == (ds[0] as real + Fraction(ds[1..])) / 10.0
    ensures Base10(ds) as real == TimesTen(ds[0] as real, |ds| - 1) + Base10(ds[1..]) as real
  {
    assert ds == [ds[0]] + ds[1..];
    Base10Append([ds[0]], ds[1..]);
    assert Base10([ds[0]]) == ds[0];
  }

  /** The fraction is the number its decimals spell, moved behind the point. */
  lemma {:induction false} FractionIsBase10(ds: seq<nat>)
    ensures TimesTen(Fraction(ds), |ds|) == Base10(ds) as real
  {
    if ds == [] {
    } else {
      hide Fraction, Base10, TimesTen;
      FractionIsBase10(ds[1..]);
      FractionFirst(ds);
      TimesTenAdds(ds[0] as real + Fraction(ds[1..]), 0.0, |ds| - 1);
      TimesTenAdds(ds[0] as real, Fraction(ds[1..]), |ds| - 1);
    }
  }

  /** `str(n)` has the digits of `n`, and no zero in front of another digit. */
  lemma {:induction false} WrittenDigits(n: nat)
    ensures Base10(Written(n)) == n && AllDigits(Written(n)) && Written(n) != []
    ensures n > 0 ==> Written(n)[0] > 0
  {
    if n < 10 {
      assert Written(n)[..0] == [];
    } else {
      WrittenDigits(n / 10);
      assert Written(n)[..|Written(n)| - 1] == Written(n / 10);
    }
  }

  // --------------------------------------------------------------- ASCII digits

  function AsciiText(ds: seq<nat>): (s: string)
    requires AllDigits(ds)
    ensures |s| == |ds| && AsciiDigits(s) && AsciiValues(s) == ds
  {
    seq(|ds|, i requires 0 <= i < |ds| => ('0' as int + ds[i]) as char)
  }

  predicate NoBigUnit(s: string) {
    '亿' !in s && '兆' !in s && '万' !in s
  }

  lemma NoPoint(x: string)
    requires AsciiDigits(x)
    ensures '.' !in x && Find(x, '.') == |x|
    ensures NoBigUnit(x)
  {
  }

  /** A string of ASCII digits is read in base ten. */
  lemma DigitsRead(x: string)
    requires AsciiDigits(x) && x != ""
    ensures UnderK(x) == Ok(Base10(AsciiValues(x)) as real)
  {
    NoPoint(x);
    assert x[..|x|] == x && AsciiValues("") == [];
  }

  lemma LiteralParts(x: string, y: string)
    requires AsciiDigits(x) && AsciiDigits(y) && |x| + |y| > 0
    ensures UnderK(x + ['.'] + y) == Ok(Base10(AsciiValues(x)) as real + Fraction(AsciiValues(y)))
  {
    var s := x + ['.'] + y;
    NoPoint(x);
    FindAt(x, '.', y);
    assert s[..|x|] == x && s[|x| + 1..] == y;
    hide Base10, Fraction, AsciiValues, AsciiDigits, Find;
  }

  lemma ValuesAppend(x: string, y: string)
    requires AsciiDigits(x) && AsciiDigits(y)
    ensures AsciiDigits(x + y) && AsciiValues(x + y) == AsciiValues(x) + AsciiValues(y)
    ensures |AsciiValues(y)| == |y|
  {
  }

  /** With a point between them, digits are read as the number all of them spell,
      divided by ten for each digit behind the point. */
  lemma LiteralRead(x: string, y: string)
    requires AsciiDigits(x) && AsciiDigits(y) && |x| + |y| > 0
    ensures AsciiDigits(x + y) && UnderK(x + ['.'] + y).Ok?
    ensures TimesTen(UnderK(x + ['.'] + y).value, |y|) == Base10(AsciiValues(x + y)) as real
  {
    hide *;
    LiteralParts(x, y);
    ValuesAppend(x, y);
    Base10Append(AsciiValues(x), AsciiValues(y));
    FractionIsBase10(AsciiValues(y));
    TimesTenAdds(Base10(AsciiValues(x)) as real, Fraction(AsciiValues(y)), |y|);
  }

  /** `".314"`, or nothing. */
  function AsciiPoint(ds: seq<nat>, point: bool): string
    requires AllDigits(ds)
  {
    if point then ['.'] + AsciiText(ds) else ""
  }

  /** A number in ASCII digits, with decimals behind a point. */
  function Ascii(n: nat, ds: seq<nat>, point: bool): (s: string)
    requires AllDigits(ds)
    ensures s != ""
  {
    WrittenDigits(n);
    AsciiText(Written(n)) + AsciiPoint(ds, point)
  }

  lemma AsciiParts(n: nat, ds: seq<nat>)
    requires AllDigits(ds) && AllDigits(Written(n))
    ensures Ascii(n, ds, true) == AsciiText(Written(n)) + ['.'] + AsciiText(ds)
    ensures Ascii(n, [], false) == AsciiText(Written(n))
  {
    hide AsciiText, Written;
    assert AsciiText(Written(n)) + (['.'] + AsciiText(ds)) == AsciiText(Written(n)) + ['.'] + AsciiText(ds);
  }

  lemma NoUnitsBetween(x: string, y: string)
    requires AsciiDigits(x) && AsciiDigits(y)
    ensures NoBigUnit(x + ['.'] + y)
  {
    NoPoint(x);
    NoPoint(y);
  }

  lemma AsciiIsRead(x: string, n: nat, ds: seq<nat>, point: bool)
    requires AllDigits(ds) && (!point ==> ds == []) && x != "" && AsciiDigits(x) && Base10(AsciiValues(x)) == n
    ensures var s := if point then x + ['.'] + AsciiText(ds) else x;
      && UnderK(s) == Ok(n as real + Fraction(ds))
      && NoBigUnit(s)
  {
    hide *;
    if point {
      LiteralParts(x, AsciiText(ds));
      NoUnitsBetween(x, AsciiText(ds));
    } else {
      DigitsRead(x);
      NoPoint(x);
      NoFraction();
    }
  }

  lemma NoFraction()
    ensures Fraction([]) == 0.0
  {
  }

  lemma AsciiRead(n: nat, ds: seq<nat>, point: bool)
    requires AllDigits(ds) && (!point ==> ds == [])
    ensures UnderK(Ascii(n, ds, point)) == Ok(n as real + Fraction(ds))
    ensures NoBigUnit(Ascii(n, ds, point))
  {
    hide *;
    WrittenDigits(n);
    AsciiIsRead(AsciiText(Written(n)), n, ds, point);
    AsciiParts(n, ds);
  }

  // ------------------------------------------------------------------ big units

  /** Without a big unit the text is read as it is. */
  lemma NoUnits(s: string)
    requires NoBigUnit(s)
    ensures FromUnits(s, "亿兆万") == FromUnits(s, "兆万") == FromUnits(s, "万") == FromUnits(s, "")
    ensures FromUnits(s, "") == if s == "" then Ok(0.0) else UnderK(s)
  {
    UnitTail();
    hide UnderK;
  }

  lemma UnitValues()
    ensures forall x :: Scaled(x, '亿') == x * 100000000.0
    ensures forall x :: Scaled(x, '兆') == x * 1000000.0 && Scaled(x, '万') == x * 10000.0
  {
  }

  lemma UnitElsewhere(x: string, unit: char, rest: string)
    requires NoBigUnit(x)
    requires NoBigUnit(rest)
    ensures unit != '亿' ==> '亿' !in x + [unit] + rest
    ensures unit != '兆' ==> '兆' !in x + [unit] + rest
  {
  }

  /** What stands in front of a big unit counts in that unit. */
  lemma BigUnitCounts(x: string, unit: char, rest: string)
    requires UnderK(x).Ok? && NoBigUnit(x)
    requires NoBigUnit(rest)
    requires unit == '亿' || unit == '兆' || unit == '万'
    ensures FromUnits(x + [unit] + rest, "亿兆万")
         == Plus(Scaled(UnderK(x).value, unit), FromUnits(rest, ""))
  {
    var s := x + [unit] + rest;
    UnitTail();
    NoUnits(rest);
    UnitElsewhere(x, unit, rest);
    hide *;
    if unit == '亿' {
      UnitPresent(x, unit, rest, "亿兆万");
    } else {
      UnitAbsent(s, "亿兆万");
      if unit == '兆' {
        UnitPresent(x, unit, rest, "兆万");
      } else {
        UnitAbsent(s, "兆万");
        UnitPresent(x, unit, rest, "万");
      }
    }
  }

  /** The ASCII and the Chinese writing of the same number and decimals read alike. */
  lemma WritingsReadAlike(n: nat, short: bool, ds: seq<nat>, point: bool)
    requires n < 1000000000000 && AllDigits(ds) && (!point ==> ds == [])
    ensures FromUnits(Ascii(n, ds, point), "亿兆万") == Ok(n as real + Fraction(ds))
    ensures FromUnits(Print(n, short, ds, point), "亿兆万") == FromUnits(Ascii(n, ds, point), "亿兆万")
  {
    hide FromUnits, Print, Ascii, Fraction, UnderK;
    AsciiRead(n, ds, point);
    NoUnits(Ascii(n, ds, point));
    RoundTrip(n, short, ds, point);
  }

  lemma AsciiUnit(g: nat, ds: seq<nat>, point: bool, unit: char, rest: string)
    requires AllDigits(ds) && (!point ==> ds == []) && NoBigUnit(rest)
    requires unit == '亿' || unit == '兆' || unit == '万'
    ensures FromUnits(Ascii(g, ds, point) + [unit] + rest, "亿兆万")
         == Plus(Scaled(g as real + Fraction(ds), unit), FromUnits(rest, ""))
  {
    hide *;
    AsciiRead(g, ds, point);
    BigUnitCounts(Ascii(g, ds, point), unit, rest);
  }

  lemma ChineseUnit(y: string, v: real, unit: char, rest: string)
    requires y != "" && NoBigUnit(y) && NoBigUnit(rest) && FromUnits(y, "") == Ok(v)
    requires unit == '亿' || unit == '兆' || unit == '万'
    ensures FromUnits(y + [unit] + rest, "亿兆万") == Plus(Scaled(v, unit), FromUnits(rest, ""))
  {
    hide *;
    NoUnits(y);
    BigUnitCounts(y, unit, rest);
  }

  /** A number below 10000 in Chinese characters, with decimals behind a point. */
  function Chinese(g: nat, short: bool, ds: seq<nat>, point: bool): string
    requires g < 10000 && AllDigits(ds)
  {
    LowGroup(g, false, false, short, ds, point)
  }

  lemma ChineseRead(g: nat, short: bool, ds: seq<nat>, point: bool)
    requires g < 10000 && AllDigits(ds) && (!point ==> ds == [])
    ensures var y := Chinese(g, short, ds, point);
      y != "" && NoBigUnit(y) && FromUnits(y, "") == Ok(g as real + Fraction(ds))
  {
    LowGroupParsed(g, false, false, short, ds, point);
    LowGroupWithoutUnits(g, false, false, short, ds, point);
    LowGroupWritten(g, short, ds, point);
    hide FromUnits, LowGroup, Fraction;
  }

  /** Also in front of a big unit, where 3.5万 and 三.五万 are both 35000. */
  lemma UnitWritingsReadAlike(g: nat, short: bool, ds: seq<nat>, point: bool, unit: char, rest: string)
    requires g < 10000 && AllDigits(ds) && (!point ==> ds == []) && NoBigUnit(rest)
    requires unit == '亿' || unit == '兆' || unit == '万'
    ensures FromUnits(Ascii(g, ds, point) + [unit] + rest, "亿兆万")
         == Plus(Scaled(g as real + Fraction(ds), unit), FromUnits(rest, ""))
    ensures FromUnits(Chinese(g, short, ds, point) + [unit] + rest, "亿兆万")
         == FromUnits(Ascii(g, ds, point) + [unit] + rest, "亿兆万")
  {
    hide *;
    AsciiUnit(g, ds, point, unit, rest);
    ChineseRead(g, short, ds, point);
    ChineseUnit(Chinese(g, short, ds, point), g as real + Fraction(ds), unit, rest);
  }

  lemma LowGroupWritten(g: nat, short: bool, ds: seq<nat>, point: bool)
    requires g < 10000 && AllDigits(ds)
    ensures LowGroup(g, false, false, short, ds, point) != ""
  {
    hide Digits;
    if g > 0 { GroupScanned(g, false, short); }
  }

  // -------------------------------------------------------- the rest of the table

  /** The formal characters stand for what the common ones do. */
  lemma FormalLowDigits()
    ensures Value('壹') == Value('一') && Value('贰') == Value('二') && Value('叁') == Value('三')
    ensures Value('肆') == Value('四') && Value('伍') == Value('五')
  {
  }

  lemma FormalHighDigits()
    ensures Value('陆') == Value('六') && Value('柒') == Value('七') && Value('捌') == Value('八')
    ensures Value('玖') == Value('九')
  {
  }

  lemma FormalUnits()
    ensures Value('拾') == Value('十') && Value('佰') == Value('百') && Value('仟') == Value('千')
  {
  }

  /** So do the colloquial ones. */
  lemma ColloquialCharacters()
    ensures Value('单') == Value('上') == Value('一') == Ok(1)
    ensures Value('两') == Value('俩') == Value('二') == Ok(2)
    ensures Value(',').Err? && Value('.').Err?
  {
  }

  /** And the letters for their units. */
  lemma UnitLetters()
    ensures Value('k') == Value('千') == Ok(1000) && Value('w') == Value('万') == Ok(10000)
    ensures Value('m') == Value('兆') == Ok(1000000) && Value('e') == Value('亿') == Ok(100000000)
  {
  }

  lemma AsciiCharacters(c: char)
    requires '0' <= c <= '9'
    ensures Value(c) == Ok(c as int - '0' as int)
  {
  }

  /** Two characters that the parser cannot tell apart. */
  predicate Alike(a: char, b: char) {
    a == b || (Value(a).Ok? && Value(a) == Value(b) && Plain(a) && Plain(b))
  }

  predicate AllAlike(s: string, t: string) {
    |s| == |t| && forall i :: 0 <= i < |s| ==> Alike(s[i], t[i])
  }

  lemma AlikeSplit(s: string, t: string, c: char)
    requires AllAlike(s, t) && !Plain(c)
    ensures Find(s, c) == Find(t, c) && (c in s <==> c in t)
    decreases |s|
  {
    if s != "" && s[0] != c { AlikeSplit(s[1..], t[1..], c); }
  }

  lemma AlikeParts(s: string, t: string, c: char)
    requires AllAlike(s, t) && !Plain(c)
    ensures (c in s <==> c in t) && AllAlike(Before(s, c), Before(t, c))
    ensures c in s ==> AllAlike(Behind(s, c), Behind(t, c))
  {
    AlikeSplit(s, t, c);
    if c in s {
      var i := Find(s, c);
      AlikeSlices(s, t, i);
      AlikeSplit(s[i + 1..], t[i + 1..], c);
      AlikeSlices(s[i + 1..], t[i + 1..], Find(s[i + 1..], c));
    } else {
      AlikeSlices(s, t, |s|);
    }
    hide AllAlike;
  }

  lemma AlikeSlices(s: string, t: string, i: nat)
    requires AllAlike(s, t) && i <= |s|
    ensures |s| == |t| && AllAlike(s[..i], t[..i]) && (i < |s| ==> AllAlike(s[i + 1..], t[i + 1..]))
  {
    hide Alike;
  }

  lemma {:induction false} AlikeValues(s: string, t: string)
    requires AllAlike(s, t)
    ensures Values(s) == Values(t) && Decimals(s) == Decimals(t)
  {
    if s == "" {
    } else {
      AlikeValues(s[..|s| - 1], t[..|t| - 1]);
      assert Alike(s[|s| - 1], t[|t| - 1]);
    }
  }

  lemma AlikeLiteral(s: string, t: string)
    requires AllAlike(s, t)
    ensures FloatLiteral(s) ==> s == t
    ensures AllKnown(s) <==> AllKnown(t)
    ensures ',' in s <==> ',' in t
  {
    AlikeSplit(s, t, ',');
    if FloatLiteral(s) {
      forall k | 0 <= k < |s| ensures s[k] == t[k] {
        var i := Find(s, '.');
        assert k < i ==> s[k] == s[..i][k];
        assert k > i ==> s[k] == s[i + 1..][k - i - 1];
      }
    }
  }

  lemma AlikeInteger(s: string, t: string)
    requires AllAlike(s, t)
    ensures IntegerPart(s) == IntegerPart(t)
  {
    AlikeValues(s, t);
    AlikeLiteral(s, t);
    hide AllAlike, Values, Scanned, Completed, AllKnown;
  }

  lemma AlikeUnderK(s: string, t: string)
    requires AllAlike(s, t)
    ensures UnderK(s) == UnderK(t)
  {
    hide AllAlike, FloatLiteral, FloatValue, Before, Behind, Decimals, IntegerPart;
    AlikeBack(s, t);
    AlikeLiteral(s, t);
    AlikeLiteral(t, s);
    AlikePoint(s, t);
    AlikeInteger(Before(s, '.'), Before(t, '.'));
    if '.' in s { AlikeValues(Behind(s, '.'), Behind(t, '.')); }
  }

  lemma AlikePoint(s: string, t: string)
    requires AllAlike(s, t)
    ensures ('.' in s <==> '.' in t) && AllAlike(Before(s, '.'), Before(t, '.'))
    ensures '.' in s ==> AllAlike(Behind(s, '.'), Behind(t, '.'))
  {
    AlikeParts(s, t, '.');
  }

  lemma AlikeBack(s: string, t: string)
    requires AllAlike(s, t)
    ensures AllAlike(t, s)
  {
  }

  /** Exchanging common, formal and colloquial characters for each other anywhere in a
      text changes nothing, whether it can be read or not. */
  lemma {:induction false} VariantsReadAlike(s: string, t: string, units: string)
    requires AllAlike(s, t) && forall i :: 0 <= i < |units| ==> !Plain(units[i])
    ensures FromUnits(s, units) == FromUnits(t, units)
    decreases |units|
  {
    hide UnderK, AllAlike, Before, Behind, Plain, Scaled;
    if units == "" {
      AlikeUnderK(s, t);
      SameLength(s, t);
    } else {
      AlikeParts(s, t, units[0]);
      if units[0] in s {
        AlikeUnderK(Before(s, units[0]), Before(t, units[0]));
        VariantsReadAlike(Behind(s, units[0]), Behind(t, units[0]), units[1..]);
      } else {
        VariantsReadAlike(s, t, units[1..]);
      }
    }
  }

  lemma SameLength(s: string, t: string)
    requires AllAlike(s, t)
    ensures s == "" <==> t == ""
  {
  }

  // ------------------------------------------------------------------- refusals

  lemma {:induction false} ValuesIff(s: string)
    ensures Values(s).Ok? <==> forall k :: 0 <= k < |s| ==> Value(s[k]).Ok?
  {
    if s == "" {
    } else {
      var front := s[..|s| - 1];
      ValuesIff(front);
      assert forall k :: 0 <= k < |front| ==> s[k] == front[k];
    }
  }

  predicate Refused(s: string, k: nat) {
    k < |s| && s[k] != ',' && Value(s[k]).Err?
  }

  /** A text without a point that is no literal is read exactly when all its characters
      are known and none is a comma; a comma among known characters cannot be compared
      with a number, and any unknown character is a missing key. */
  lemma RefusedIff(s: string)
    requires '.' !in s && !FloatLiteral(s)
    ensures UnderK(s).Ok? <==> ',' !in s && forall k: nat :: !Refused(s, k)
    ensures UnderK(s) == Err(TypeError) <==> ',' in s && forall k: nat :: !Refused(s, k)
    ensures UnderK(s) == Err(KeyError) <==> exists k: nat :: Refused(s, k)
  {
    assert Before(s, '.') == s;
    ValuesIff(s);
    OnlyKeyErrors(s);
    ColloquialCharacters();
    KnownIff(s);
    hide FloatLiteral, Before, Values, Scanned, Completed, Fraction, Value, AllKnown, Refused;
  }

  lemma KnownIff(s: string)
    ensures AllKnown(s) <==> forall k: nat :: !Refused(s, k)
    ensures (forall k :: 0 <= k < |s| ==> Value(s[k]).Ok?) <==> ',' !in s && forall k: nat :: !Refused(s, k)
  {
    ColloquialCharacters();
    hide Value;
    if AllKnown(s) && ',' !in s {
      assert forall k :: 0 <= k < |s| ==> s[k] != ',';
    }
    if forall k: nat :: !Refused(s, k) {
      forall k | 0 <= k < |s| ensures s[k] == ',' || Value(s[k]).Ok? { assert !Refused(s, k); }
    }
  }

  lemma CutTwice(x: string, c: char, y: string, z: string)
    requires c !in x && c !in y
    ensures var s := x + [c] + (y + [c] + z);
      c in s && Before(s, c) == x && Behind(s, c) == y
  {
    var rest := y + [c] + z;
    var s := x + [c] + rest;
    FindAt(x, c, rest);
    FindAt(y, c, z);
    assert s[|x|] == c && s[..|x|] == x && s[|x| + 1..] == rest && rest[..|y|] == y;
  }

  /** What stands behind the second occurrence of a big unit is not read at all. */
  lemma RepeatedUnitEnds(x: string, unit: char, y: string, z: string, units: string)
    requires units != "" && units[0] == unit && unit !in x && unit !in y
    ensures FromUnits(x + [unit] + (y + [unit] + z), units) == FromUnits(x + [unit] + y, units)
  {
    CutTwice(x, unit, y, z);
    Cut(x, unit, y);
    hide UnderK, Before, Behind;
  }

  /** Behind the point a comma is passed over, and a character worth ten or more leaves
      all its digits. */
  lemma DecimalsMore(s: string, c: char)
    ensures c == ',' ==> Decimals(s + [c]) == Decimals(s)
    ensures c != ',' && Value(c).Ok? && Decimals(s).Ok? ==>
      Decimals(s + [c]) == Ok(Decimals(s).value + Written(Value(c).value))
    ensures c != ',' && Value(c).Err? ==> Decimals(s + [c]).Err?
  {
    assert (s + [c])[..|s|] == s;
    hide Value, Written;
  }
}
