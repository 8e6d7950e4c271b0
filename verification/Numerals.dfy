// Decimal text: what Rust's `parse::<i64>`, `parse::<i128>`, `parse::<usize>` and `parse::<f64>`
// accept, over exact values, and the digits a canonical printer writes.
module Numerals {
  import opened Prelude

  const I64_MIN := -0x8000_0000_0000_0000
  const I64_MAX := 0x7FFF_FFFF_FFFF_FFFF
  const U64_MAX := 0xFFFF_FFFF_FFFF_FFFF
  const I128_MIN := -0x8000_0000_0000_0000_0000_0000_0000_0000
  const I128_MAX := 0x7FFF_FFFF_FFFF_FFFF_FFFF_FFFF_FFFF_FFFF

  /** `char::is_whitespace`: the Unicode White_Space property. */
  predicate IsSpace(c: char) {
    var u := c as int;
    9 <= u <= 13 || u == 32 || u == 0x85 || u == 0xA0 || u == 0x1680 || 0x2000 <= u <= 0x200A
    || u == 0x2028 || u == 0x2029 || u == 0x202F || u == 0x205F || u == 0x3000
  }

  function TrimStart(s: string): string {
    if s != "" && IsSpace(s[0]) then TrimStart(s[1..]) else s
  }

  function TrimEnd(s: string): string {
    if s != "" && IsSpace(s[|s| - 1]) then TrimEnd(s[..|s| - 1]) else s
  }

  function Trim(s: string): string {
    TrimEnd(TrimStart(s))
  }

  function LowerChar(c: char): char {
    if 'A' <= c <= 'Z' then (c as int + 32) as char else c
  }

  /** `to_ascii_lowercase`. */
  function Lower(s: string): (r: string)
    ensures |r| == |s|
    ensures forall i :: 0 <= i < |s| ==> r[i] == LowerChar(s[i])
  {
    Map(LowerChar, s)
  }

  predicate IsDigit(c: char) {
    '0' <= c <= '9'
  }

  predicate AllDigits(s: string) {
    forall i :: 0 <= i < |s| ==> IsDigit(s[i])
  }

  function DigitValue(c: char): nat
    requires IsDigit(c)
  {
    c as int - '0' as int
  }

  function Value(s: string): nat
    requires AllDigits(s)
  {
    if s == "" then 0 else Value(s[..|s| - 1]) * 10 + DigitValue(s[|s| - 1])
  }

  function ParseUnsigned(s: string): Option<nat> {
    if s != "" && AllDigits(s) then Some(Value(s)) else None
  }

  function ParseInt(s: string): Option<int> {
    if s != "" && s[0] == '-' then
      match ParseUnsigned(s[1..]) case Some(n) => Some(0 - n as int) case None => None
    else if s != "" && s[0] == '+' then
      match ParseUnsigned(s[1..]) case Some(n) => Some(n) case None => None
    else
      match ParseUnsigned(s) case Some(n) => Some(n) case None => None
  }

  function Within(v: Option<int>, lo: int, hi: int): Option<int> {
    if v.Some? && lo <= v.value <= hi then v else None
  }

  function ParseI64(s: string): Option<int> {
    Within(ParseInt(s), I64_MIN, I64_MAX)
  }

  function ParseI128(s: string): Option<int> {
    Within(ParseInt(s), I128_MIN, I128_MAX)
  }

  /** An unsigned parse takes a leading `+` but no `-`, not even for zero. */
  function ParseUsize(s: string): Option<nat> {
    if s != "" && s[0] == '-' then None
    else match ParseInt(s)
      case None => None
      case Some(n) => if 0 <= n <= U64_MAX then Some(n) else None
  }

  /** A float: an exact value, one of the infinities, or NaN. Nothing compares with NaN. */
  datatype Floating = Finite(r: real) | PosInf | NegInf | NaN
  {
    predicate Le(o: Floating) {
      !NaN? && !o.NaN? && (NegInf? || o.PosInf? || (Finite? && o.Finite? && r <= o.r))
    }

    predicate Lt(o: Floating) {
      !NaN? && !o.NaN? && !o.Le(this)
    }

    /** `f64::min`: NaN gives way to the other side. */
    function Min(o: Floating): Floating {
      if NaN? then o else if o.NaN? || Le(o) then this else o
    }

    function Max(o: Floating): Floating {
      if NaN? then o else if o.NaN? || o.Le(this) then this else o
    }
  }

  function Pow10(n: nat): (p: real)
    ensures p > 0.0
  {
    if n == 0 then 1.0 else 10.0 * Pow10(n - 1)
  }

  function Scale(m: real, e: int): real {
    if e >= 0 then m * Pow10(e) else m / Pow10(-e)
  }

  /** Index of the first character satisfying `stop`, or the length. */
  function Find(s: string, stop: char -> bool): (i: nat)
    ensures i <= |s|
    ensures forall j :: 0 <= j < i ==> !stop(s[j])
    ensures i < |s| ==> stop(s[i])
  {
    if s == "" then 0
    else
      var i := Find(s[..|s| - 1], stop);
      if i < |s| - 1 || stop(s[|s| - 1]) then i else |s|
  }

  predicate IsE(c: char) { c == 'e' || c == 'E' }

  predicate IsDot(c: char) { c == '.' }

  function ParseMantissa(s: string): Option<real> {
    var d := Find(s, IsDot);
    var whole := s[..d];
    var frac := if d < |s| then s[d + 1..] else "";
    if whole + frac != "" && AllDigits(whole) && AllDigits(frac)
    then Some(Value(whole + frac) as real / Pow10(|frac|)) else None
  }

  function ParseDecimal(s: string): Option<real> {
    var e := Find(s, IsE);
    match ParseMantissa(s[..e])
    case None => None
    case Some(m) =>
      if e == |s| then Some(m)
      else match ParseInt(s[e + 1..])
        case None => None
        case Some(x) => Some(Scale(m, x))
  }

  predicate IsSign(c: char) { c == '+' || c == '-' }

  predicate IsFloatWord(s: string) {
    var w := Lower(s);
    w == "inf" || w == "infinity" || w == "nan"
  }

  function ParseF64(s: string): Option<Floating> {
    var body := if s != "" && IsSign(s[0]) then s[1..] else s;
    if IsFloatWord(body) then
      Some(if Lower(body) == "nan" then NaN else if s != "" && s[0] == '-' then NegInf else PosInf)
    else match ParseDecimal(body)
      case None => None
      case Some(v) => Some(Finite(if s != "" && s[0] == '-' then -v else v))
  }

  /** An unsigned decimal is never negative and starts with a digit or the point. */
  lemma DecimalStart(s: string)
    requires ParseDecimal(s).Some?
    ensures ParseDecimal(s).value >= 0.0
    ensures s != "" && (IsDigit(s[0]) || s[0] == '.')
  {
    hide ParseMantissa, ParseInt, Scale;
    var e := Find(s, IsE);
    MantissaStart(s[..e]);
    if e < |s| {
      ScaleKeepsSign(ParseMantissa(s[..e]).value, ParseInt(s[e + 1..]).value);
    }
  }

  lemma MantissaStart(m: string)
    requires ParseMantissa(m).Some?
    ensures ParseMantissa(m).value >= 0.0
    ensures m != "" && (IsDigit(m[0]) || m[0] == '.')
  {
    hide Value, Pow10;
    var d := Find(m, IsDot);
    if d > 0 { assert m[..d][0] == m[0]; }
  }

  lemma ScaleKeepsSign(v: real, e: int)
    requires v >= 0.0
    ensures Scale(v, e) >= 0.0
  {
    hide Pow10;
  }

  // ----- canonical digits -----

  function Digit(d: nat): (c: char)
    requires d < 10
    ensures IsDigit(c) && DigitValue(c) == d
  {
    (d + '0' as int) as char
  }

  function ShowNat(n: nat): (s: string)
    ensures s != "" && AllDigits(s)
  {
    if n < 10 then [Digit(n)] else ShowNat(n / 10) + [Digit(n % 10)]
  }

  function ShowInt(i: int): string {
    if i < 0 then "-" + ShowNat(-i) else ShowNat(i)
  }

  lemma {:induction false} ValueOfShow(n: nat)
    ensures Value(ShowNat(n)) == n
  {
    if n < 10 {
      assert ShowNat(n)[..0] == "";
    } else {
      ValueOfShow(n / 10);
      assert ShowNat(n)[..|ShowNat(n)| - 1] == ShowNat(n / 10);
    }
  }

  /** Printing an integer and parsing it back is the identity. */
  lemma ParseShowInt(i: int)
    ensures ParseInt(ShowInt(i)) == Some(i)
    ensures i >= 0 && i <= U64_MAX ==> ParseUsize(ShowInt(i)) == Some(i)
  {
    hide Value, ShowNat;
    if i < 0 {
      ValueOfShow(-i);
      assert ShowInt(i)[1..] == ShowNat(-i);
    } else {
      ValueOfShow(i);
      assert IsDigit(ShowNat(i)[0]);
    }
  }

  /** A float literal with an explicit exponent, so it never reads as an integer: m * 10^-k. */
  function ShowFloat(m: int, k: nat): string {
    (if m < 0 then "-" else "") + UnsignedFloat(if m < 0 then -m else m, k)
  }

  function UnsignedFloat(a: nat, k: nat): string {
    ShowNat(a) + (['e'] + ShowExponent(k))
  }

  function ShowExponent(k: nat): string {
    "-" + ShowNat(k)
  }

  lemma ParseMantissaDigits(a: nat)
    ensures ParseMantissa(ShowNat(a)) == Some(a as real)
  {
    var head := ShowNat(a);
    assert forall j :: 0 <= j < |head| ==> IsDigit(head[j]);
    var d := Find(head, IsDot);
    assert d == |head|;
    assert head[..d] == head && head + "" == head;
    ValueOfShow(a);
    assert Pow10(0) == 1.0;
  }

  lemma ParseExponent(k: nat)
    ensures ParseInt(ShowExponent(k)) == Some(0 - k as int)
  {
    assert ShowExponent(k)[1..] == ShowNat(k);
    ValueOfShow(k);
  }

  lemma FloatParts(a: nat, k: nat)
    ensures var body := UnsignedFloat(a, k); var e := Find(body, IsE);
      e < |body| && body[..e] == ShowNat(a) && body[e + 1..] == ShowExponent(k)
    ensures IsDigit(UnsignedFloat(a, k)[0]) && !AllDigits(UnsignedFloat(a, k))
  {
    hide ShowNat, ShowExponent, Find;
    var head, body := ShowNat(a), UnsignedFloat(a, k);
    assert body[|head|] == 'e';
    assert forall j :: 0 <= j < |head| ==> body[j] == head[j] && IsDigit(head[j]);
    assert Find(body, IsE) == |head|;
  }

  lemma ParseUnsignedFloat(a: nat, k: nat)
    ensures ParseDecimal(UnsignedFloat(a, k)) == Some(a as real / Pow10(k))
    ensures IsDigit(UnsignedFloat(a, k)[0]) && !AllDigits(UnsignedFloat(a, k))
  {
    hide ParseMantissa, ParseInt, UnsignedFloat, ShowNat, ShowExponent, Find;
    FloatParts(a, k);
    ParseMantissaDigits(a);
    ParseExponent(k);
    assert k == 0 ==> Scale(a as real, -k) == a as real / Pow10(k);
  }

  lemma DigitIsNoWord(s: string)
    requires s != "" && (IsDigit(s[0]) || s[0] == '.')
    ensures !IsFloatWord(s)
  {
    assert Lower(s)[0] == s[0];
  }

  /** A sign in front of an unsigned decimal only decides the sign of its value. */
  lemma ParseSigned(body: string)
    requires ParseDecimal(body).Some?
    ensures ParseF64(body) == Some(Finite(ParseDecimal(body).value))
    ensures ParseF64("+" + body) == Some(Finite(ParseDecimal(body).value))
    ensures ParseF64("-" + body) == Some(Finite(-ParseDecimal(body).value))
  {
    hide ParseDecimal;
    DecimalStart(body);
    DigitIsNoWord(body);
    assert ("+" + body)[1..] == body;
    assert ("-" + body)[1..] == body;
  }

  /** Printing a decimal real with an exponent and parsing it back is the identity. */
  lemma ParseShowFloat(m: int, k: nat)
    ensures ParseF64(ShowFloat(m, k)) == Some(Finite(m as real / Pow10(k)))
  {
    hide ParseDecimal, ParseF64, UnsignedFloat;
    var a := if m < 0 then -m else m;
    ParseUnsignedFloat(a, k);
    ParseSigned(UnsignedFloat(a, k));
    if m < 0 {
      NegateQuotient(a as real, Pow10(k));
      assert -(a as real) == m as real;
    } else {
      assert ShowFloat(m, k) == UnsignedFloat(a, k);
    }
  }

  /** The exponent keeps a printed float from reading as an integer. */
  lemma ShowFloatIsNoInt(m: int, k: nat)
    ensures ParseInt(ShowFloat(m, k)) == None
  {
    hide ParseDecimal, UnsignedFloat, Value;
    var a := if m < 0 then -m else m;
    ParseUnsignedFloat(a, k);
    if m < 0 {
      assert ShowFloat(m, k)[1..] == UnsignedFloat(a, k);
    } else {
      assert ShowFloat(m, k) == UnsignedFloat(a, k);
    }
  }

  // ----- what decimal text means -----

  function Twos(n: nat): nat {
    if n == 0 then 1 else 2 * Twos(n - 1)
  }

  /** The integer ranges are those of their widths. */
  lemma WidthsMean()
    ensures U64_MAX == Twos(64) - 1 && I64_MAX == Twos(63) - 1 && I64_MIN == 0 - Twos(63)
    ensures I128_MAX == Twos(127) - 1 && I128_MIN == 0 - Twos(127)
  {
    hide Twos;
    TwosTo32();
    TwosAdd(32, 31);
    TwosAdd(32, 32);
    TwosAdd(64, 63);
  }

  lemma TwosTo32()
    ensures Twos(31) == 0x8000_0000 && Twos(32) == 0x1_0000_0000
  {
    TwosTo8();
    hide Twos;
    TwosAdd(8, 7);
    TwosAdd(8, 8);
    TwosAdd(16, 15);
    TwosAdd(16, 16);
  }

  lemma TwosTo8()
    ensures Twos(7) == 0x80 && Twos(8) == 0x100
  {
    assert Twos(1) == 2 && Twos(2) == 4 && Twos(3) == 8 && Twos(4) == 16;
    assert Twos(5) == 32 && Twos(6) == 64;
  }

  lemma {:induction false} TwosAdd(a: nat, b: nat)
    ensures Twos(a + b) == Twos(a) * Twos(b)
  {
    if b > 0 {
      TwosAdd(a, b - 1);
      Doubled(Twos(a), Twos(b - 1));
    }
  }

  lemma Doubled(x: nat, y: nat)
    ensures 2 * (x * y) == x * (2 * y)
  {}

  /** What counts as a blank: tab, line feed, vertical tab, form feed, carriage return, space, next line,
      and the other blanks of Unicode; no letter, digit or ASCII symbol does. */
  lemma SpacesMean(c: char)
    ensures IsSpace(c) <==> c in "\t\n\U{B}\U{C}\r \U{85}\U{A0}\U{1680}\U{2028}\U{2029}\U{202F}\U{205F}\U{3000}"
                            || c in "\U{2000}\U{2001}\U{2002}\U{2003}\U{2004}\U{2005}"
                            || c in "\U{2006}\U{2007}\U{2008}\U{2009}\U{200A}"
    ensures '!' <= c <= '~' ==> !IsSpace(c)
  {}

  /** Lower case changes the ASCII capitals alone. */
  lemma LowerMeans(c: char)
    ensures c in "ABCDEFGHIJKLMNOPQRSTUVWXYZ" ==> LowerChar(c) as int - 'a' as int == c as int - 'A' as int
    ensures c !in "ABCDEFGHIJKLMNOPQRSTUVWXYZ" ==> LowerChar(c) == c
  {}

  function Tens(n: nat): (t: nat)
    ensures t > 0 && t as real == Pow10(n)
  {
    if n == 0 then 1 else 10 * Tens(n - 1)
  }

  /** Digits count by position. */
  lemma {:induction false} ValueConcat(a: string, b: string)
    requires AllDigits(a) && AllDigits(b)
    ensures AllDigits(a + b) && Value(a + b) == Value(a) * Tens(|b|) + Value(b)
  {
    if b == "" {
      assert a + b == a;
    } else {
      var front, last := b[..|b| - 1], b[|b| - 1];
      ValuePush(a + front, last);
      ValuePush(front, last);
      assert a + b == a + front + [last] && b == front + [last];
      assert Tens(|b|) == 10 * Tens(|front|);
      hide Value, DigitValue, Tens;
      ValueConcat(a, front);
      Shift(Value(a + front), Value(a), Value(front), DigitValue(last), Tens(|front|));
    }
  }

  lemma ValuePush(s: string, c: char)
    requires AllDigits(s) && IsDigit(c)
    ensures AllDigits(s + [c]) && Value(s + [c]) == Value(s) * 10 + DigitValue(c)
  {
    assert (s + [c])[..|s|] == s;
  }

  lemma Shift(x: nat, a: nat, y: nat, d: nat, t: nat)
    requires x == a * t + y
    ensures x * 10 + d == a * (10 * t) + (y * 10 + d)
  {
    assert a * (10 * t) == 10 * (a * t);
  }

  /** A digit on its own counts from zero. */
  lemma DigitMeans(c: char)
    requires IsDigit(c)
    ensures Value([c]) == c as int - '0' as int
  {
    assert [c][..0] == "";
  }

  /** The value of digits around a point: the whole part plus the fraction over the power of ten of its
      length. */
  function Pointed(whole: string, frac: string): real
    requires AllDigits(whole) && AllDigits(frac)
  {
    Value(whole) as real + Value(frac) as real / Pow10(|frac|)
  }

  /** Digits on either side of a point may be missing, not on both. */
  lemma PointMeans(whole: string, frac: string)
    requires AllDigits(whole) && AllDigits(frac) && whole + frac != ""
    ensures ParseDecimal(whole + "." + frac) == Some(Pointed(whole, frac))
  {
    hide *;
    var s := whole + "." + frac;
    PointSplits(whole, frac);
    NoExponent(s);
    MantissaOf(s, whole, frac);
  }

  lemma PointSum(whole: string, frac: string)
    requires AllDigits(whole) && AllDigits(frac)
    ensures AllDigits(whole + frac)
    ensures Value(whole + frac) as real / Pow10(|frac|) == Pointed(whole, frac)
  {
    hide Value, Pow10, Tens;
    ValueConcat(whole, frac);
    PointValue(Value(whole + frac), Value(whole), Value(frac), Tens(|frac|));
  }

  lemma NoExponent(s: string)
    requires Find(s, IsE) == |s|
    ensures ParseDecimal(s) == ParseMantissa(s)
  {
    hide Find, ParseMantissa, ParseInt, Scale;
    assert s[..|s|] == s;
  }

  lemma MantissaOf(s: string, whole: string, frac: string)
    requires AllDigits(whole) && AllDigits(frac) && whole + frac != ""
    requires Find(s, IsDot) == |whole| < |s| && s[..|whole|] == whole && s[|whole| + 1..] == frac
    ensures ParseMantissa(s) == Some(Pointed(whole, frac))
  {
    hide Value, Find, Pow10, Pointed;
    PointSum(whole, frac);
  }

  lemma PointValue(x: nat, a: nat, b: nat, t: nat)
    requires t > 0
    ensures x == a * t + b ==> x as real / t as real == a as real + b as real / t as real
  {
    if x == a * t + b {
      assert x as real == a as real * t as real + b as real;
      SplitQuotient(a as real, b as real, t as real);
    }
  }

  lemma PointSplits(whole: string, frac: string)
    requires AllDigits(whole) && AllDigits(frac)
    ensures var s := whole + "." + frac;
      && Find(s, IsE) == |s| && s[..|s|] == s
      && Find(s, IsDot) == |whole| && s[..|whole|] == whole && s[|whole| + 1..] == frac
  {
    hide Find;
    var s := whole + "." + frac;
    assert s[|whole|] == '.' && forall j :: 0 <= j < |whole| ==> s[j] == whole[j] && IsDigit(s[j]);
    assert forall j :: |whole| < j < |s| ==> s[j] == frac[j - |whole| - 1] && IsDigit(s[j]);
    assert Find(s, IsDot) == |whole|;
    assert Find(s, IsE) == |s|;
  }

  lemma SplitQuotient(a: real, b: real, p: real)
    requires p > 0.0
    ensures (a * p + b) / p == a + b / p
  {
    var q := b / p;
    assert b == q * p;
    assert a * p + b == (a + q) * p;
  }

  /** Text without a point is read as a whole number by the float parser too. */
  lemma WholeMeans(whole: string)
    requires AllDigits(whole) && whole != ""
    ensures ParseDecimal(whole) == Some(Value(whole) as real)
  {
    hide Value;
    assert Find(whole, IsDot) == |whole| && Find(whole, IsE) == |whole|;
    NoExponent(whole);
    assert whole[..|whole|] == whole && whole + "" == whole;
    assert Pow10(0) == 1.0;
  }

  /** An exponent scales by its power of ten, up or down. */
  lemma ExponentMeans(mantissa: string, e: char, x: int)
    requires (e == 'e' || e == 'E') && ParseMantissa(mantissa).Some?
    requires forall j :: 0 <= j < |mantissa| ==> mantissa[j] != 'e' && mantissa[j] != 'E'
    ensures var r := ParseDecimal(mantissa + [e] + ShowInt(x));
      && r.Some?
      && (x >= 0 ==> r.value == ParseMantissa(mantissa).value * Pow10(x))
      && (x < 0 ==> r.value * Pow10(-x) == ParseMantissa(mantissa).value)
  {
    hide ParseMantissa, ParseInt, ShowInt, Find;
    ExponentSplits(mantissa, e, ShowInt(x));
    ParseShowInt(x);
    ScaleMeans(ParseMantissa(mantissa).value, x);
    hide Scale;
  }

  lemma ExponentSplits(mantissa: string, e: char, x: string)
    requires IsE(e) && forall j :: 0 <= j < |mantissa| ==> !IsE(mantissa[j])
    ensures var s := mantissa + [e] + x;
      Find(s, IsE) == |mantissa| && |mantissa| < |s| && s[..|mantissa|] == mantissa && s[|mantissa| + 1..] == x
  {
    hide Find;
    var s := mantissa + [e] + x;
    assert s[|mantissa|] == e && forall j :: 0 <= j < |mantissa| ==> s[j] == mantissa[j];
    assert Find(s, IsE) == |mantissa|;
  }

  lemma ScaleMeans(m: real, x: int)
    ensures x >= 0 ==> Scale(m, x) == m * Pow10(x)
    ensures x < 0 ==> Scale(m, x) * Pow10(-x) == m
  {
    hide Pow10;
  }

  /** Integers take either sign; an unsigned parse takes no minus, and each width its own range. */
  lemma IntegerMeans(digits: string)
    requires AllDigits(digits) && digits != ""
    ensures ParseInt(digits) == ParseInt("+" + digits) == Some(Value(digits))
    ensures ParseInt("-" + digits) == Some(0 - Value(digits) as int)
    ensures ParseUsize("-" + digits) == None
    ensures ParseUsize(digits) == ParseUsize("+" + digits)
         == if Value(digits) <= U64_MAX then Some(Value(digits)) else None
    ensures ParseI64(digits) == if Value(digits) <= I64_MAX then Some(Value(digits)) else None
    ensures ParseI64("-" + digits) == if Value(digits) <= -I64_MIN then Some(0 - Value(digits) as int) else None
  {
    assert ("+" + digits)[1..] == digits && ("-" + digits)[1..] == digits;
    assert IsDigit(digits[0]);
  }

  /** The words for infinity and NaN, in any case and with either sign. */
  lemma WordsMean(w: string)
    requires Lower(w) == "inf" || Lower(w) == "infinity" || Lower(w) == "nan"
    ensures ParseF64(w) == ParseF64("+" + w) == Some(if Lower(w) == "nan" then NaN else PosInf)
    ensures ParseF64("-" + w) == Some(if Lower(w) == "nan" then NaN else NegInf)
  {
    assert Lower(w)[0] == LowerChar(w[0]);
    assert ("+" + w)[1..] == w && ("-" + w)[1..] == w;
  }

  /** Between `i` and `j` stands all of `s` but the blanks at both ends. */
  ghost predicate TrimsTo(s: string, i: nat, j: nat) {
    && i <= j <= |s|
    && (forall k :: 0 <= k < i || j <= k < |s| ==> IsSpace(s[k]))
    && (i < j ==> !IsSpace(s[i]) && !IsSpace(s[j - 1]))
  }

  /** Trimming takes blanks off both ends and nothing else. */
  lemma TrimMeans(s: string)
    ensures exists i: nat, j: nat :: TrimsTo(s, i, j) && Trim(s) == s[i..j]
  {
    var i := TrimStartAt(s);
    var n := TrimEndAt(s[i..]);
    assert s[i..][..n] == s[i..i + n];
    assert forall k :: i + n <= k < |s| ==> s[k] == s[i..][k - i];
    assert TrimsTo(s, i, i + n);
  }

  lemma {:induction false} TrimStartAt(s: string) returns (i: nat)
    ensures i <= |s| && TrimStart(s) == s[i..] && (forall k :: 0 <= k < i ==> IsSpace(s[k]))
    ensures i < |s| ==> !IsSpace(s[i])
  {
    if s != "" && IsSpace(s[0]) {
      var j := TrimStartAt(s[1..]);
      i := j + 1;
    } else {
      i := 0;
    }
  }

  lemma {:induction false} TrimEndAt(s: string) returns (n: nat)
    ensures n <= |s| && TrimEnd(s) == s[..n] && (forall k :: n <= k < |s| ==> IsSpace(s[k]))
    ensures n > 0 ==> !IsSpace(s[n - 1])
  {
    if s != "" && IsSpace(s[|s| - 1]) {
      n := TrimEndAt(s[..|s| - 1]);
      assert s[..|s| - 1][..n] == s[..n];
    } else {
      n := |s|;
    }
  }

  lemma NegateQuotient(a: real, p: real)
    requires p > 0.0
    ensures -(a / p) == (-a) / p
  {
    var q := a / p;
    assert a == q * p;
    assert -a == (-q) * p;
  }
}
