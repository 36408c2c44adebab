/**
 The Chinese numeral parser of CurrencyExchange.cn2digit: a scan over the values of
 the characters, and a cut at the big units.  Fractions are exact reals.
 */
module Numerals {
  import opened Bytes

  datatype Error = KeyError | TypeError

  // ------------------------------------------------------------------ the table

  /** The number a character stands for. */
  function Value(c: char): (r: Result<nat, Error>) {
    if c == '零' || c == '0' then Ok(0)
    else if c == '一' || c == '单' || c == '上' || c == '壹' || c == '1' then Ok(1)
    else if c == '俩' || c == '二' || c == '两' || c == '贰' || c == '2' then Ok(2)
    else if c == '三' || c == '叁' || c == '3' then Ok(3)
    else if c == '四' || c == '肆' || c == '4' then Ok(4)
    else if c == '五' || c == '伍' || c == '5' then Ok(5)
    else if c == '六' || c == '陆' || c == '6' then Ok(6)
    else if c == '七' || c == '柒' || c == '7' then Ok(7)
    else if c == '八' || c == '捌' || c == '8' then Ok(8)
    else if c == '九' || c == '玖' || c == '9' then Ok(9)
    else if c == '十' || c == '拾' then Ok(10)
    else if c == '百' || c == '佰' then Ok(100)
    else if c == '千' || c == '仟' || c == 'k' then Ok(1000)
    else if c == '万' || c == 'w' then Ok(10000)
    else if c == '兆' || c == 'm' then Ok(1000000)
    else if c == '亿' || c == 'e' then Ok(100000000)
    else Err(KeyError)
  }

  function Values(s: string): (r: Result<seq<nat>, Error>)
    ensures r.Ok? ==> |r.value| == |s|
  {
    if s == "" then Ok([])
    else
      var front, last := Values(s[..|s| - 1]), Value(s[|s| - 1]);
      if front.Err? then front else if last.Err? then Err(last.error) else Ok(front.value + [last.value])
  }

  // -------------------------------------------------------------------- the scan

  /** `tmp_total`, `res_total` and `lis` of the scan. */
  datatype Scan = Scan(tmp: int, res: int, lis: bool)

  function Step(st: Scan, num: nat, first: bool): Scan {
    if num >= 10 && !first then Scan(st.tmp * num, st.res, false)
    else if num >= 10 then Scan(st.tmp + num, st.res, false)
    else if num == 0 && !first then Scan(st.tmp, st.res, false)
    else if st.lis then Scan(st.tmp * 10 + num, st.res, true)
    else Scan(num, st.res + st.tmp, true)
  }

  /** The state after all of `vals`. */
  function Fold(vals: seq<nat>): Scan {
    if vals == [] then Scan(0, 0, false)
    else Step(Fold(vals[..|vals| - 1]), vals[|vals| - 1], |vals| == 1)
  }

  /** `res_total` once the last value has been scanned; a zero there, unless it is
      the only value, does not add what is still pending. */
  function Scanned(vals: seq<nat>): int {
    var st := Fold(vals);
    if |vals| > 1 && vals[|vals| - 1] == 0 then st.res else st.res + st.tmp
  }

  /** A digit right behind a hundred or more is meant in tens: 一百二 is 120. */
  function Completed(vals: seq<nat>): (r: seq<nat>) {
    if |vals| > 1 && vals[|vals| - 1] < 10 && vals[|vals| - 2] >= 100
    then vals + [vals[|vals| - 2] / 10]
    else vals
  }

  method ScanValues(vals0: seq<nat>) returns (total: int)
    ensures total == Scanned(Completed(vals0))
  {
    var vals := vals0;
    if |vals| > 1 && vals[|vals| - 1] < 10 && vals[|vals| - 2] >= 100 {
      vals := vals + [vals[|vals| - 2] / 10];
    }
    var tmp, res, lis := 0, 0, false;
    ghost var pending := Scan(0, 0, false);
    for index := 0 to |vals|
      invariant pending == Fold(vals[..index])
      invariant index < |vals| || |vals| == 0 ==> pending == Scan(tmp, res, lis)
      invariant index == |vals| ==> res == Scanned(vals)
    {
      assert vals[..index + 1][..index] == vals[..index];
      assert vals[..|vals|] == vals;
      var num := vals[index];
      pending := Step(pending, num, index == 0);
      if num >= 10 && index != 0 {
        tmp := tmp * num;
        if index == |vals| - 1 { res := res + tmp; }
        lis := false;
      } else if num >= 10 && index == 0 {
        tmp := tmp + num;
        lis := false;
        if index == |vals| - 1 { res := res + tmp; }
      } else if num == 0 && index != 0 {
        lis := false;
      } else {
        if lis {
          tmp := tmp * 10 + num;
        } else {
          res := res + tmp;
          tmp := num;
        }
        lis := true;
        if index == |vals| - 1 { res := res + tmp; }
      }
    }
    total := res;
  }

  // ------------------------------------------------------------------- splitting

  /** Position of the first `c`, or the length. */
  function Find(s: string, c: char): (i: nat)
    ensures i <= |s| && (i < |s| ==> s[i] == c) && (i == |s| <==> c !in s)
    ensures forall k :: 0 <= k < i ==> s[k] != c
  {
    if s == "" || s[0] == c then 0 else 1 + Find(s[1..], c)
  }

  /** `s.split(c)[0]`. */
  function Before(s: string, c: char): string {
    s[..Find(s, c)]
  }

  /** `s.split(c)[1]`: what follows the first `c`, up to a second one. */
  function Behind(s: string, c: char): string
    requires c in s
  {
    var rest := s[Find(s, c) + 1..];
    Before(rest, c)
  }

  // ------------------------------------------------------------- digits, fractions

  function Base10(digits: seq<nat>): nat {
    if digits == [] then 0 else 10 * Base10(digits[..|digits| - 1]) + digits[|digits| - 1]
  }

  /** The fraction whose decimals these are. */
  function Fraction(digits: seq<nat>): real {
    if digits == [] then 0.0 else (digits[0] as real + Fraction(digits[1..])) / 10.0
  }

  /** `str(n)`, digit by digit. */
  function Written(n: nat): seq<nat> {
    if n < 10 then [n] else Written(n / 10) + [n % 10]
  }

  /** cn2num: the decimals written by the characters behind a point. */
  function Decimals(s: string): Result<seq<nat>, Error> {
    if s == "" then Ok([])
    else
      var front, last := Decimals(s[..|s| - 1]), s[|s| - 1];
      if front.Err? then front
      else if last == ',' then front
      else
        var v := Value(last);
        if v.Err? then Err(v.error) else Ok(front.value + Written(v.value))
  }

  predicate AsciiDigits(s: string) {
    forall i :: 0 <= i < |s| ==> '0' <= s[i] <= '9'
  }

  function AsciiValues(s: string): seq<nat>
    requires AsciiDigits(s)
  {
    seq(|s|, i requires 0 <= i < |s| => (s[i] as int - '0' as int) as nat)
  }

  /** Strings of digits with at most one point that Python's `float` accepts. */
  predicate FloatLiteral(s: string) {
    var i := Find(s, '.');
    var tail := if i < |s| then s[i + 1..] else "";
    AsciiDigits(s[..i]) && AsciiDigits(tail) && i + |tail| > 0
  }

  function FloatValue(s: string): real
    requires FloatLiteral(s)
  {
    var i := Find(s, '.');
    var tail := if i < |s| then s[i + 1..] else "";
    Base10(AsciiValues(s[..i])) as real + Fraction(AsciiValues(tail))
  }

  // ------------------------------------------------------------------- the parser

  /** Every character is in the table; a comma is, but stands for an empty text. */
  predicate AllKnown(s: string) {
    forall k :: 0 <= k < |s| ==> s[k] == ',' || Value(s[k]).Ok?
  }

  /** The values that the scan works on.  The text a comma stands for cannot be
      compared with a number, which ends the scan wherever it meets one. */
  function Scannable(s: string): Result<seq<nat>, Error> {
    if ',' in s && AllKnown(s) then Err(TypeError) else Values(s)
  }

  lemma {:induction false} UnknownValue(s: string, k: nat)
    requires k < |s| && Value(s[k]).Err?
    ensures Values(s) == Err(KeyError)
  {
    if k == |s| - 1 {
      OnlyKeyErrors(s[..|s| - 1]);
    } else {
      UnknownValue(s[..|s| - 1], k);
    }
  }

  lemma {:induction false} OnlyKeyErrors(s: string)
    ensures Values(s).Err? ==> Values(s) == Err(KeyError)
  {
    if s == "" {
    } else {
      OnlyKeyErrors(s[..|s| - 1]);
    }
  }

  /** The loop that looks up the characters, and what becomes of a comma. */
  method LookUp(s: string) returns (r: Result<seq<nat>, Error>)
    ensures r == Scannable(s)
  {
    hide Value;
    var vals: seq<nat>, comma := [], false;
    for k := 0 to |s|
      invariant AllKnown(s[..k]) && (comma <==> ',' in s[..k])
      invariant !comma ==> Values(s[..k]) == Ok(vals)
    {
      assert s[..k + 1] == s[..k] + [s[k]] && s[..k + 1][..k] == s[..k];
      if s[k] == ',' {
        comma := true;
      } else {
        var v := Value(s[k]);
        if v.Err? {
          UnknownValue(s, k);
          assert !AllKnown(s);
          return Err(KeyError);
        }
        vals := vals + [v.value];
      }
    }
    assert s[..|s|] == s;
    return if comma then Err(TypeError) else Ok(vals);
  }

  function IntegerPart(s: string): Result<int, Error> {
    var vals := Scannable(s);
    if vals.Err? then Err(vals.error) else Ok(Scanned(Completed(vals.value)))
  }

  /** under_k_parse. */
  function UnderK(s: string): Result<real, Error> {
    if FloatLiteral(s) then Ok(FloatValue(s))
    else
      var decimals := if '.' in s then Decimals(Behind(s, '.')) else Ok([]);
      if decimals.Err? then Err(decimals.error)
      else
        var whole := IntegerPart(Before(s, '.'));
        if whole.Err? then Err(whole.error) else Ok(Fraction(decimals.value) + whole.value as real)
  }

  function UnitValue(unit: char): real {
    if unit == '亿' then 100000000.0 else if unit == '兆' then 1000000.0 else 10000.0
  }

  function Scaled(x: real, unit: char): real {
    x * UnitValue(unit)
  }

  function Plus(total: real, rest: Result<real, Error>): Result<real, Error> {
    if rest.Ok? then Ok(total + rest.value) else rest
  }

  /** cn2digits from the given big units on. */
  function FromUnits(s: string, units: string): Result<real, Error>
    decreases |units|
  {
    if units == "" then (if s == "" then Ok(0.0) else UnderK(s))
    else if units[0] in s then
      var left := UnderK(Before(s, units[0]));
      if left.Err? then left
      else
        Plus(Scaled(left.value, units[0]), FromUnits(Behind(s, units[0]), units[1..]))
    else FromUnits(s, units[1..])
  }

  method UnderKParse(s0: string) returns (r: Result<real, Error>)
    ensures r == UnderK(s0)
  {
    if FloatLiteral(s0) { return Ok(FloatValue(s0)); }
    var s, total := s0, 0.0;
    if '.' in s {
      var decimals := Decimals(Behind(s, '.'));
      if decimals.Err? { return Err(decimals.error); }
      total := Fraction(decimals.value);
      s := Before(s, '.');
    } else {
      assert Before(s, '.') == s;
    }
    var vals := LookUp(s);
    if vals.Err? { return Err(vals.error); }
    var whole := ScanValues(vals.value);
    return Ok(total + whole as real);
  }

  /** cn2digits: one pass over the big units, 亿, 兆 and 万 in the program, cutting
      the string at each. */
  method Cn2Digits(cn: string, bigUnits: string) returns (r: Result<real, Error>)
    ensures r == FromUnits(cn, bigUnits)
  {
    hide UnderK, Before, Behind;
    var s, total, units := cn, 0.0, bigUnits;
    while units != ""
      decreases |units|
      invariant FromUnits(cn, bigUnits) == Plus(total, FromUnits(s, units))
    {
      var unit := units[0];
      if unit in s {
        var left := UnderKParse(Before(s, unit));
        if left.Err? { return left; }
        total := total + Scaled(left.value, unit);
        s := Behind(s, unit);
      }
      units := units[1..];
    }
    if s != "" {
      var last := UnderKParse(s);
      if last.Err? { return last; }
      total := total + last.value;
    }
    return Ok(total);
  }
}
