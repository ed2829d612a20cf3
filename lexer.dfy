/** The character-level number lexer of the expression parser
    (CreasePatternAnalyzer/Parser.swift:10-150, 371-383).

    Each Swift `parse…` function takes the input as an `inout String`, removes
    characters from its front and puts the last one back when it does not
    belong to the number. Here the string comes in as a parameter and what is
    left of it goes out as the result `str`. The functions after each method
    say declaratively which prefix the method consumes and what it is worth. */
module Lexer {
  import opened Wrappers
  import opened Libm

  predicate IsDigit(c: char) {
    '0' <= c <= '9'
  }

  predicate IsAlphanumeric(c: char) {
    IsDigit(c) || ('a' <= c <= 'z') || ('A' <= c <= 'Z') || c == '_'
  }

  /** `toNumber`: the value of a decimal digit, and nothing for any other character. */
  function ToNumber(c: char): (r: Option<nat>)
    ensures r.Some? <==> IsDigit(c)
    ensures r.Some? ==> r.value <= 9 && r.value == c as int - '0' as int
  {
    match c
    case '0' => Some(0)
    case '1' => Some(1)
    case '2' => Some(2)
    case '3' => Some(3)
    case '4' => Some(4)
    case '5' => Some(5)
    case '6' => Some(6)
    case '7' => Some(7)
    case '8' => Some(8)
    case '9' => Some(9)
    case _ => None
  }

  function DigitChar(n: nat): char
    requires n <= 9
  {
    ('0' as int + n) as char
  }

  /** `toNumber` reads every digit character back as the digit it spells. */
  lemma ToNumberOfDigit(n: nat)
    requires n <= 9
    ensures ToNumber(DigitChar(n)) == Some(n)
  {
  }

  function Digit(c: char): nat
    requires IsDigit(c)
  {
    ToNumber(c).value
  }

  predicate AllDigits(s: string) {
    forall i | 0 <= i < |s| :: IsDigit(s[i])
  }

  /** The length of the longest prefix of `s` made of digits. */
  function DigitRun(s: string): (k: nat)
    ensures k <= |s| && AllDigits(s[..k])
    ensures k == |s| || !IsDigit(s[k])
  {
    if s == [] || !IsDigit(s[0]) then 0 else 1 + DigitRun(s[1..])
  }

  /** The length of the longest prefix of `s` made of `[A-Za-z0-9_]`. */
  function NameRun(s: string): (k: nat)
    ensures k <= |s| && forall i | 0 <= i < k :: IsAlphanumeric(s[i])
    ensures k == |s| || !IsAlphanumeric(s[k])
  {
    if s == [] || !IsAlphanumeric(s[0]) then 0 else 1 + NameRun(s[1..])
  }

  function Ten(n: nat): (r: nat)
    ensures 1 <= r
  {
    if n == 0 then 1 else 10 * Ten(n - 1)
  }

  /** The decimal value of a string of digits, most significant first. */
  function IntValue(ds: string): (v: nat)
    requires AllDigits(ds)
    ensures v < Ten(|ds|)
  {
    if ds == [] then 0 else 10 * IntValue(ds[..|ds| - 1]) + Digit(ds[|ds| - 1])
  }

  /** The value IntValue gives a number written with its digits. */
  lemma {:induction false} IntValueOfDigits(ds: string, d: nat)
    requires AllDigits(ds) && d <= 9
    ensures AllDigits(ds + [DigitChar(d)])
    ensures IntValue(ds + [DigitChar(d)]) == 10 * IntValue(ds) + d
  {
    var s := ds + [DigitChar(d)];
    assert s[..|s| - 1] == ds;
  }

  /** One tenth to the power `n`, the weight of the `n`-th digit after the point. */
  function Tenth(n: nat): (r: real)
    ensures 0.0 < r <= 1.0
  {
    if n == 0 then 1.0 else Tenth(n - 1) / 10.0
  }

  /** The value of the digits after a decimal point: the sum of digit `k` times `10^-k`. */
  function Fraction(ds: string): real
    requires AllDigits(ds)
  {
    if ds == [] then 0.0 else Fraction(ds[..|ds| - 1]) + Tenth(|ds|) * Digit(ds[|ds| - 1]) as real
  }

  lemma DigitWeight(d: nat, t: real)
    requires d <= 9 && 0.0 < t
    ensures 0.0 <= t * d as real <= 9.0 * t
  {
  }

  /** Any run of decimals is worth at least 0 and falls short of 1 by at least its last weight. */
  lemma {:induction false} FractionBounds(ds: string)
    requires AllDigits(ds)
    ensures 0.0 <= Fraction(ds) <= 1.0 - Tenth(|ds|)
  {
    if ds != [] {
      FractionBounds(ds[..|ds| - 1]);
      DigitWeight(Digit(ds[|ds| - 1]), Tenth(|ds|));
    }
  }

  /** `parseInt` (CreasePatternAnalyzer/Parser.swift:104-122). */
  method ParseInt(s: string) returns (r: Option<nat>, str: string)
    ensures var k := DigitRun(s);
      if k == 0 then r == None && str == s else r == Some(IntValue(s[..k])) && str == s[k..]
  {
    str := s;
    if str == [] {
      return None, str;
    }
    var value := 0;
    var c := str[0];
    str := str[1..];
    if !IsDigit(c) {
      str := [c] + str;
      return None, str;
    }
    ghost var i := 1;
    while true
      invariant 1 <= i <= |s| && str == s[i..] && c == s[i - 1] && IsDigit(c)
      invariant AllDigits(s[..i]) && value == IntValue(s[..i - 1])
      decreases |str|
    {
      IntValueStep(s, i);
      value := 10 * value + ToNumber(c).value;
      if str == [] {
        break;
      }
      c := str[0];
      str := str[1..];
      i := i + 1;
      if !IsDigit(c) {
        break;
      }
      DigitsExtend(s, i);
    }
    if !IsDigit(c) {
      str := [c] + str;
      DigitRunIs(s, i - 1);
      assert str == s[i - 1..];
    } else {
      DigitRunIs(s, i);
    }
    return Some(value), str;
  }

  lemma IntValueStep(s: string, i: nat)
    requires 1 <= i <= |s| && AllDigits(s[..i])
    ensures AllDigits(s[..i - 1])
    ensures IntValue(s[..i]) == 10 * IntValue(s[..i - 1]) + Digit(s[i - 1])
  {
    assert s[..i][..i - 1] == s[..i - 1];
  }

  lemma FractionStep(s: string, i: nat)
    requires 1 <= i <= |s| && AllDigits(s[..i])
    ensures AllDigits(s[..i - 1])
    ensures Fraction(s[..i]) == Fraction(s[..i - 1]) + Tenth(i) * Digit(s[i - 1]) as real
  {
    assert s[..i][..i - 1] == s[..i - 1];
  }

  lemma DigitsExtend(s: string, i: nat)
    requires 1 <= i <= |s| && AllDigits(s[..i - 1]) && IsDigit(s[i - 1])
    ensures AllDigits(s[..i])
  {
    assert forall j | 0 <= j < i - 1 :: s[..i][j] == s[..i - 1][j];
  }

  /** A digit prefix followed by the end or a non-digit is the whole digit run. */
  lemma {:induction false} DigitRunIs(s: string, k: nat)
    requires k <= |s| && AllDigits(s[..k]) && (k == |s| || !IsDigit(s[k]))
    ensures DigitRun(s) == k
  {
    if k > 0 {
      assert s[1..][..k - 1] == s[1..k];
      DigitRunIs(s[1..], k - 1);
    } else if s != [] {
      assert !IsDigit(s[0]);
    }
  }

  /** `parseDecimal` (CreasePatternAnalyzer/Parser.swift:81-102): the digits
      after a decimal point, weighted 0.1, 0.01, ...; nothing is consumed when
      the string does not start with a digit. */
  method ParseDecimal(s: string) returns (decimal: real, str: string)
    ensures var k := DigitRun(s); decimal == Fraction(s[..k]) && str == s[k..]
  {
    str := s;
    if str == [] {
      return 0.0, str;
    }
    decimal := 0.0;
    var multiplier := 0.1;
    var c := str[0];
    str := str[1..];
    if !IsDigit(c) {
      str := [c] + str;
      return 0.0, str;
    }
    ghost var i := 1;
    while true
      invariant 1 <= i <= |s| && str == s[i..] && c == s[i - 1] && IsDigit(c)
      invariant AllDigits(s[..i]) && decimal == Fraction(s[..i - 1]) && multiplier == Tenth(i)
      decreases |str|
    {
      FractionStep(s, i);
      decimal := decimal + multiplier * ToNumber(c).value as real;
      multiplier := multiplier * 0.1;
      if str == [] {
        break;
      }
      c := str[0];
      str := str[1..];
      i := i + 1;
      if !IsDigit(c) {
        break;
      }
      DigitsExtend(s, i);
    }
    if !IsDigit(c) {
      str := [c] + str;
      DigitRunIs(s, i - 1);
      assert str == s[i - 1..];
    } else {
      DigitRunIs(s, i);
    }
  }

  /** What `parseExponent` accepts: an optional sign and a run of digits. */
  function ScanExponent(s: string): (r: Option<(int, string)>)
    ensures r.Some? ==> |r.value.1| < |s|
  {
    if s == [] then None
    else if s[0] == '+' || s[0] == '-' then
      var k := DigitRun(s[1..]);
      if k == 0 then None
      else
        var n: int := IntValue(s[1..][..k]);
        Some((if s[0] == '-' then -n else n, s[1..][k..]))
    else
      var k := DigitRun(s);
      if k == 0 then None else Some((IntValue(s[..k]), s[k..]))
  }

  /** `parseExponent` (CreasePatternAnalyzer/Parser.swift:58-79): on failure the
      string comes back unchanged, sign included. */
  method ParseExponent(s: string) returns (r: Option<int>, str: string)
    ensures ScanExponent(s).None? ==> r.None? && str == s
    ensures ScanExponent(s).Some? ==> r == Some(ScanExponent(s).value.0) && str == ScanExponent(s).value.1
  {
    str := s;
    if str == [] {
      return None, str;
    }
    var c := str[0];
    str := str[1..];
    match c {
      case '+' =>
        var parsed;
        parsed, str := ParseInt(str);
        if parsed.Some? {
          return Some(parsed.value), str;
        }
        str := [c] + str;
      case '-' =>
        var parsed;
        parsed, str := ParseInt(str);
        if parsed.Some? {
          return Some(-(parsed.value as int)), str;
        }
        str := [c] + str;
      case _ =>
        str := [c] + str;
        assert str == s;
        var parsed;
        parsed, str := ParseInt(str);
        if parsed.Some? {
          return Some(parsed.value), str;
        }
    }
    return None, str;
  }

  /** `double *= pow(10.0, Double(exponent))`, with the power taken exactly:
      `v` shifted by `exponent` decimal places. */
  function Scale(v: real, exponent: int): real
    decreases if exponent < 0 then -exponent else exponent
  {
    if exponent == 0 then v
    else if exponent > 0 then 10.0 * Scale(v, exponent - 1)
    else Scale(v, exponent + 1) / 10.0
  }

  /** The shift is the product with the power of ten. */
  lemma {:induction false} ScaleIsProduct(v: real, exponent: int)
    ensures Scale(v, exponent) == v * Pow10(exponent)
    decreases if exponent < 0 then -exponent else exponent
  {
    if exponent > 0 {
      var p := Pow10(exponent - 1);
      ScaleIsProduct(v, exponent - 1);
      assert Pow10(exponent) == 10.0 * p;
      assert Scale(v, exponent) == 10.0 * (v * p);
      assert 10.0 * (v * p) == v * (10.0 * p);
    } else if exponent < 0 {
      var p := Pow10(exponent + 1);
      ScaleIsProduct(v, exponent + 1);
      assert Pow10(exponent) == p / 10.0;
      assert Scale(v, exponent) == (v * p) / 10.0;
      assert (v * p) / 10.0 == v * (p / 10.0);
    }
  }

  lemma {:induction false} ScaleNonNegative(v: real, exponent: int)
    requires 0.0 <= v
    ensures 0.0 <= Scale(v, exponent)
    decreases if exponent < 0 then -exponent else exponent
  {
    if exponent > 0 {
      ScaleNonNegative(v, exponent - 1);
    } else if exponent < 0 {
      ScaleNonNegative(v, exponent + 1);
    }
  }

  /** The optional exponent after a mantissa `v` whose digits ended before `t`:
      `e` or `E` and a valid exponent scale `v`; anything else is left in place. */
  function ScaleByExponent(v: real, t: string): (r: (real, string))
    ensures |r.1| <= |t|
  {
    if t != [] && (t[0] == 'e' || t[0] == 'E') then ExponentPart(v, t) else (v, t)
  }

  /** `e` or `E` and what follows it. */
  function ExponentPart(v: real, t: string): (r: (real, string))
    requires t != [] && (t[0] == 'e' || t[0] == 'E')
    ensures |r.1| <= |t|
  {
    match ScanExponent(t[1..])
    case None => (v, t)
    case Some((e, rest)) => (Scale(v, e), rest)
  }

  /** An optional `.` and digits after an integer part worth `v`. */
  function PointFraction(v: real, t: string): (r: (real, string))
    ensures |r.1| <= |t|
  {
    if t != [] && t[0] == '.' then Decimals(v, t) else (v, t)
  }

  /** A `.` and the digits after it. */
  function Decimals(v: real, t: string): (r: (real, string))
    requires t != [] && t[0] == '.'
    ensures |r.1| < |t|
  {
    var m := DigitRun(t[1..]);
    (v + Fraction(t[1..][..m]), t[1..][m..])
  }

  /** The part of a number before its exponent: digits with an optional
      fraction, or a point followed by at least one digit. */
  function Mantissa(s: string): (r: Option<(real, string)>)
    requires s != []
    ensures r.Some? <==> IsDigit(s[0]) || (s[0] == '.' && |s| > 1 && IsDigit(s[1]))
    ensures r.Some? ==> |r.value.1| < |s|
  {
    if s[0] == '.' then
      if |s| == 1 || !IsDigit(s[1]) then None
      else
        var k := DigitRun(s[1..]);
        Some((Fraction(s[1..][..k]), s[1..][k..]))
    else if IsDigit(s[0]) then
      var k := DigitRun(s);
      Some(PointFraction(IntValue(s[..k]) as real, s[k..]))
    else None
  }

  /** What `parseDouble` accepts: a mantissa, then an optional exponent. */
  function ScanDouble(s: string): (r: Option<(real, string)>)
    requires s != []
    ensures r.Some? <==> IsDigit(s[0]) || (s[0] == '.' && |s| > 1 && IsDigit(s[1]))
    ensures r.Some? ==> |r.value.1| < |s|
  {
    match Mantissa(s)
    case None => None
    case Some((v, t)) => Some(ScaleByExponent(v, t))
  }

  /** `parseDouble` (CreasePatternAnalyzer/Parser.swift:10-56). Its caller only
      calls it on a non-empty string; on an empty one the first `remove` traps. */
  method ParseDouble(s: string) returns (r: Option<real>, str: string)
    requires s != []
    ensures ScanDouble(s).None? ==> r.None? && str == s
    ensures ScanDouble(s).Some? ==> r == Some(ScanDouble(s).value.0) && str == ScanDouble(s).value.1
  {
    var mantissa;
    mantissa, str := ParseMantissa(s);
    if mantissa.None? {
      return None, str;
    }
    var double;
    double, str := ParseExponentPart(mantissa.value, str);
    return Some(double), str;
  }

  /** The first part of `parseDouble` (CreasePatternAnalyzer/Parser.swift:12-42):
      the source returns at once when the string ends after the integer part,
      which is what the exponent part does with an empty string. */
  method ParseMantissa(s: string) returns (r: Option<real>, str: string)
    requires s != []
    ensures Mantissa(s).None? ==> r.None? && str == s
    ensures Mantissa(s).Some? ==> r == Some(Mantissa(s).value.0) && str == Mantissa(s).value.1
  {
    var double := 0.0;
    str := s;
    var c := str[0];
    str := str[1..];
    if c == '.' {
      if str == [] {
        str := [c] + str;
        return None, str;
      }
      var c2 := str[0];
      if !IsDigit(c2) {
        str := [c] + str;
        return None, str;
      }
      var decimal;
      decimal, str := ParseDecimal(str);
      double := double + decimal;
      return Some(double), str;
    } else if IsDigit(c) {
      str := [c] + str;
      assert str == s;
      var parsed;
      parsed, str := ParseInt(str);
      if parsed.Some? {
        double := double + parsed.value as real;
      } else {
        return None, str;
      }
      double, str := ParsePointFraction(double, str);
      return Some(double), str;
    } else {
      str := [c] + str;
      return None, str;
    }
  }

  /** The optional fraction after the integer part (CreasePatternAnalyzer/Parser.swift:34-37). */
  method ParsePointFraction(v: real, s: string) returns (double: real, str: string)
    ensures (double, str) == PointFraction(v, s)
  {
    double := v;
    str := s;
    if str == [] {
      return double, str;
    }
    var c := str[0];
    str := str[1..];
    if c == '.' {
      var decimal;
      decimal, str := ParseDecimal(str);
      double := double + decimal;
    } else {
      str := [c] + str;
      assert str == s;
    }
  }

  /** The tail of `parseDouble` (CreasePatternAnalyzer/Parser.swift:43-55): an
      `e` or `E` followed by a valid exponent scales the mantissa. */
  method ParseExponentPart(mantissa: real, s: string) returns (double: real, str: string)
    ensures (double, str) == ScaleByExponent(mantissa, s)
  {
    double := mantissa;
    str := s;
    if str == [] {
      return double, str;
    }
    var c := str[0];
    str := str[1..];
    if c != 'E' && c != 'e' {
      str := [c] + str;
      assert str == s;
      return double, str;
    }
    var exponent;
    exponent, str := ParseExponent(str);
    if exponent.Some? {
      assert ScanExponent(s[1..]) == Some((exponent.value, str));
      double := Scale(double, exponent.value);
    } else {
      str := [c] + str;
      assert str == s;
    }
  }

  /** A number is never negative: the lexer has no sign of its own. */
  lemma ScanDoubleIsNonNegative(s: string)
    requires s != [] && ScanDouble(s).Some?
    ensures 0.0 <= ScanDouble(s).value.0
  {
    var (v, t) := Mantissa(s).value;
    if s[0] == '.' {
      FractionBounds(s[1..][..DigitRun(s[1..])]);
    } else {
      var k := DigitRun(s);
      var u := s[k..];
      if u != [] && u[0] == '.' {
        FractionBounds(u[1..][..DigitRun(u[1..])]);
      }
    }
    ScaleKeepsSign(v, t);
  }

  lemma ScaleKeepsSign(v: real, t: string)
    requires 0.0 <= v
    ensures 0.0 <= ScaleByExponent(v, t).0
  {
    if t != [] && (t[0] == 'e' || t[0] == 'E') && ScanExponent(t[1..]).Some? {
      var e := ScanExponent(t[1..]).value.0;
      ScaleNonNegative(v, e);
    }
  }

  /** A plain run of digits followed by anything that cannot continue a
      number is read as the integer those digits spell. */
  lemma ScanInteger(ds: string, t: string)
    requires ds != [] && AllDigits(ds)
    requires t == [] || !(IsDigit(t[0]) || t[0] == '.' || t[0] == 'e' || t[0] == 'E')
    ensures ScanDouble(ds + t) == Some((IntValue(ds) as real, t))
  {
    var s := ds + t;
    assert s[..|ds|] == ds && s[|ds|..] == t;
    DigitRunIs(s, |ds|);
  }

  /** `read(functionName:)` (CreasePatternAnalyzer/Parser.swift:371-383): the
      longest prefix of name characters; nothing when the first one is not. */
  method ReadFunctionName(s: string) returns (name: string, str: string)
    ensures name == s[..NameRun(s)] && str == s[NameRun(s)..]
  {
    name := "";
    str := s;
    while str != []
      invariant |name| <= |s| && name == s[..|name|] && str == s[|name|..]
      invariant forall i | 0 <= i < |name| :: IsAlphanumeric(s[i])
      decreases |str|
    {
      var c := str[0];
      str := str[1..];
      if !IsAlphanumeric(c) {
        str := [c] + str;
        break;
      }
      name := name + [c];
    }
    NameRunIs(s, |name|);
  }

  lemma {:induction false} NameRunIs(s: string, k: nat)
    requires k <= |s| && (forall i | 0 <= i < k :: IsAlphanumeric(s[i]))
    requires k == |s| || !IsAlphanumeric(s[k])
    ensures NameRun(s) == k
  {
    if k > 0 {
      NameRunIs(s[1..], k - 1);
    }
  }
}
