/**
 * The numeric coercions the adapter relies on: `parseInt` with no radix
 * and loose equality with the number zero.
 */
module JsNumbers {
  import opened JsValues
  import opened JsStrings

  /** The result of `parseInt`: an integer, or `NaN` when no digits were found. */
  datatype IntOrNaN = NaN | Int(i: int)

  /** The value of a digit in radixes up to 36, or 36 for a character that is no digit. */
  function DigitValue(c: char): (d: nat)
    ensures d <= 36
    ensures '0' <= c <= '9' ==> d == c as int - '0' as int
  {
    if '0' <= c <= '9' then c as int - '0' as int
    else if 'a' <= c <= 'z' then c as int - 'a' as int + 10
    else if 'A' <= c <= 'Z' then c as int - 'A' as int + 10
    else 36
  }

  /** The length of the longest prefix of `s` made of digits of the radix. */
  function DigitRun(s: string, radix: nat): (k: nat)
    ensures k <= |s|
    ensures forall i :: 0 <= i < k ==> DigitValue(s[i]) < radix
    ensures k < |s| ==> DigitValue(s[k]) >= radix
  {
    if s == [] || DigitValue(s[0]) >= radix then 0 else 1 + DigitRun(s[1..], radix)
  }

  /** The value of a string of digits in the radix, most significant first. */
  function DigitsValue(ds: string, radix: nat): nat
  {
    if ds == [] then 0
    else DigitsValue(ds[..|ds| - 1], radix) * radix + DigitValue(ds[|ds| - 1])
  }

  /** The value of the longest run of digits of the radix at the start of `ds`, or `NaN` if there is none. */
  function ParseDigits(ds: string, radix: nat): (r: IntOrNaN)
    ensures r.Int? ==> r.i >= 0
  {
    var k := DigitRun(ds, radix);
    if k == 0 then NaN else Int(DigitsValue(ds[..k], radix))
  }

  /** An unsigned number: a `0x`/`0X` prefix selects radix 16, otherwise radix 10. */
  function ParseUnsigned(u: string): (r: IntOrNaN)
    ensures r.Int? ==> r.i >= 0
  {
    if |u| >= 2 && u[0] == '0' && (u[1] == 'x' || u[1] == 'X') then ParseDigits(u[2..], 16)
    else ParseDigits(u, 10)
  }

  /**
   * `parseInt(s)` on a string: leading white space is skipped, one sign is
   * read, a `0x`/`0X` prefix selects radix 16, and the longest run of
   * digits that follows is the value; characters after it are ignored and
   * an empty run gives `NaN`.
   */
  function ParseIntString(s: string): IntOrNaN
  {
    var t := TrimStart(s);
    if |t| > 0 && t[0] == '-' then
      match ParseUnsigned(t[1..])
      case NaN => NaN
      case Int(m) => Int(-m)
    else if |t| > 0 && t[0] == '+' then ParseUnsigned(t[1..])
    else ParseUnsigned(t)
  }

  /** `parseInt(v)`: the value is first converted to a string. */
  function ParseInt(v: JsValue): (r: IntOrNaN)
    ensures v.Num? ==> r == Int(v.n)
    ensures v.Undef? || v.Null? || v.Bool? || v.Obj? ==> r == NaN
  {
    ParseIntOfNonString(v);
    ParseIntString(ToJsString(v))
  }

  /** Numbers read back as themselves; the other non-strings spell a word and give `NaN`. */
  lemma ParseIntOfNonString(v: JsValue)
    ensures v.Num? ==> ParseIntString(ToJsString(v)) == Int(v.n)
    ensures v.Undef? || v.Null? || v.Bool? || v.Obj? ==> ParseIntString(ToJsString(v)) == NaN
  {
    match v
    case Num(n) => ParseIntStringOfInt(n);
    case Str(_) =>
    case _ => ParseIntNoDigit(ToJsString(v));
  }

  /** A string that starts with a character that is neither white space, a sign nor a decimal digit is `NaN`. */
  lemma ParseIntNoDigit(s: string)
    requires |s| > 0 && DigitValue(s[0]) >= 10 && !IsWhiteSpace(s[0]) && s[0] != '-' && s[0] != '+'
    ensures ParseIntString(s) == NaN
  {
    assert TrimStart(s) == s;
    assert DigitRun(s, 10) == 0;
  }

  lemma WordTrims(w: string)
    requires IsWord(w)
    ensures Trim(w) == w
  {
    forall k | 0 <= k < |w| ensures !IsWhiteSpace(w[k]) {
      assert 'a' <= w[k] <= 'z';
    }
  }

  /** The decimal notation of any integer parses as that integer. */
  lemma ParseIntStringOfInt(n: int)
    ensures ParseIntString(IntToString(n)) == Int(n)
  {
    if n < 0 {
      ParseNegative(n);
    } else {
      ParseNat(n);
    }
  }

  lemma ParseNegative(n: int)
    requires n < 0
    ensures ParseIntString(IntToString(n)) == Int(n)
  {
    var m: nat := -n;
    assert IntToString(n) == "-" + NatToString(m);
    ParseSignedNat(m);
  }

  lemma DigitsValueSnoc(ds: string, c: char, radix: nat)
    ensures DigitsValue(ds + [c], radix) == DigitsValue(ds, radix) * radix + DigitValue(c)
  {
  }

  /** Reading back the decimal notation of a natural number gives the number. */
  lemma {:induction false} DigitsValueOfNat(m: nat)
    ensures DigitsValue(NatToString(m), 10) == m
    decreases m
  {
    if m >= 10 {
      DigitsValueOfNat(m / 10);
      DigitsValueSnoc(NatToString(m / 10), DigitChar(m % 10), 10);
    }
  }

  /** Every character of a decimal notation is a decimal digit, so the digit run covers it. */
  lemma DigitRunOfNat(m: nat)
    ensures DigitRun(NatToString(m), 10) == |NatToString(m)|
  {
  }

  /**
   * `parseInt` gives back an integer-valued number unchanged, and reads
   * its decimal notation as the number: `parseInt(String(n)) == n`.
   */
  lemma ParseIntOfNumber(n: int)
    ensures ParseInt(Num(n)) == Int(n)
    ensures ParseInt(Str(IntToString(n))) == Int(n)
  {
    ParseIntStringOfInt(n);
  }

  /** The decimal notation of a natural number parses as that number. */
  lemma ParseNat(m: nat)
    ensures ParseIntString(NatToString(m)) == Int(m)
  {
    var u := NatToString(m);
    assert TrimStart(u) == u by { assert !IsWhiteSpace(u[0]); }
    ParseUnsignedNat(m);
  }

  /** A minus sign before the decimal notation of a natural number negates it. */
  lemma ParseSignedNat(m: nat)
    ensures ParseIntString("-" + NatToString(m)) == Int(-(m as int))
  {
    var s := "-" + NatToString(m);
    assert TrimStart(s) == s by { assert !IsWhiteSpace(s[0]); }
    assert s[1..] == NatToString(m);
    ParseUnsignedNat(m);
  }

  lemma ParseUnsignedNat(m: nat)
    ensures ParseUnsigned(NatToString(m)) == Int(m)
  {
    var u := NatToString(m);
    assert !(|u| >= 2 && u[0] == '0');
    DigitRunOfNat(m);
    DigitsValueOfNat(m);
    assert u[..|u|] == u;
  }

  /** An optionally signed decimal mantissa made only of zeros and at most one point. */
  predicate ZeroMantissa(m: string)
  {
    (forall i :: 0 <= i < |m| ==> m[i] == '0' || m[i] == '.') && Count(m, '.') <= 1 && '0' in m
  }

  predicate IsDecimalDigits(d: string)
  {
    |d| >= 1 && forall i :: 0 <= i < |d| ==> '0' <= d[i] <= '9'
  }

  /** An exponent part `e[+-]digits`, or nothing. */
  predicate ExponentPart(e: string)
  {
    e == [] ||
    (e[0] in "eE" &&
      var d := if |e| > 1 && e[1] in "+-" then e[2..] else e[1..];
      IsDecimalDigits(d))
  }

  /** The position of the first `e` or `E` of `u`, or its length. */
  function ExponentStart(u: string): (k: nat)
    ensures k <= |u|
  {
    if u == [] || u[0] in "eE" then 0 else 1 + ExponentStart(u[1..])
  }

  /** A signed decimal literal whose digits are all zeros, such as `-0`, `0.0`, `.0` or `00e7`. */
  predicate DecimalZero(t: string)
  {
    var u := if |t| > 0 && t[0] in "+-" then t[1..] else t;
    var k := ExponentStart(u);
    ZeroMantissa(u[..k]) && ExponentPart(u[k..])
  }

  /** A `0x`, `0o` or `0b` literal whose digits are all zeros. */
  predicate PrefixedZero(t: string)
  {
    |t| >= 3 && t[0] == '0' && t[1] in "xXoObB" && forall i :: 2 <= i < |t| ==> t[i] == '0'
  }

  /**
   * `Number(s) === 0`: after trimming, the string is empty or a numeric
   * literal whose digits are all zeros.
   */
  predicate StringIsZero(s: string)
  {
    var t := Trim(s);
    t == [] || DecimalZero(t) || PrefixedZero(t)
  }

  /** A decimal mantissa: digits with at most one point, and at least one digit. */
  predicate DecimalMantissa(m: string)
  {
    (forall i :: 0 <= i < |m| ==> '0' <= m[i] <= '9' || m[i] == '.') && Count(m, '.') <= 1 &&
    exists i :: 0 <= i < |m| && '0' <= m[i] <= '9'
  }

  /** A signed decimal literal such as `5`, `-1.50`, `.5`, `2.` or `1e3`. */
  predicate DecimalLiteral(t: string)
  {
    var u := if |t| > 0 && t[0] in "+-" then t[1..] else t;
    var k := ExponentStart(u);
    DecimalMantissa(u[..k]) && ExponentPart(u[k..])
  }

  predicate InfinityLiteral(t: string)
  {
    t == "Infinity" || t == "+Infinity" || t == "-Infinity"
  }

  /** The radix selected by the letter of a `0x`, `0o` or `0b` prefix. */
  function PrefixRadix(c: char): (radix: nat)
    ensures radix in {2, 8, 16}
  {
    if c in "xX" then 16 else if c in "oO" then 8 else 2
  }

  /** An unsigned `0x`, `0o` or `0b` literal with at least one digit of its radix. */
  predicate PrefixedLiteral(t: string)
  {
    |t| >= 3 && t[0] == '0' && t[1] in "xXoObB" &&
    forall i :: 2 <= i < |t| ==> DigitValue(t[i]) < PrefixRadix(t[1])
  }

  /**
   * `Number(s)` is not `NaN`: after trimming, the string is empty or a
   * decimal, `Infinity` or prefixed literal.
   */
  predicate StringIsNumeric(s: string)
  {
    var t := Trim(s);
    t == [] || DecimalLiteral(t) || InfinityLiteral(t) || PrefixedLiteral(t)
  }

  /** The characters of `m` other than the decimal point. */
  function WithoutPoint(m: string): (r: string)
    ensures |r| <= |m|
  {
    if m == [] then [] else (if m[0] == '.' then [] else [m[0]]) + WithoutPoint(m[1..])
  }

  /** The number of characters after the decimal point, or 0 without one. */
  function FractionDigits(m: string): nat
  {
    if m == [] then 0 else if m[0] == '.' then |m| - 1 else FractionDigits(m[1..])
  }

  function Pow10(e: nat): (p: nat)
    ensures p >= 1
  {
    if e == 0 then 1 else 10 * Pow10(e - 1)
  }

  /** The value of an exponent part `e[+-]digits`, or 0 when there is none. */
  function ExponentValue(e: string): int
  {
    if |e| < 2 then 0
    else if e[1] == '-' then -(DigitsValue(e[2..], 10) as int)
    else if e[1] == '+' then DigitsValue(e[2..], 10)
    else DigitsValue(e[1..], 10)
  }

  /**
   * The decimal literal `t` denotes the integer `n`: with digits D, f of
   * them after the point, and exponent e, its value is ±D·10^(e-f).
   */
  predicate DecimalDenotes(t: string, n: int)
  {
    var u := if |t| > 0 && t[0] in "+-" then t[1..] else t;
    var k := ExponentStart(u);
    var d: int := DigitsValue(WithoutPoint(u[..k]), 10);
    var v := if |t| > 0 && t[0] == '-' then -d else d;
    var p := ExponentValue(u[k..]) - FractionDigits(u[..k]);
    if p >= 0 then n == v * Pow10(p) else n * Pow10(-p) == v
  }

  /**
   * `Number(s) == n` for an integer-valued number `n`: a blank string is 0,
   * a literal denotes its value, and `Infinity` or `NaN` equals no integer.
   */
  predicate NumberEquals(s: string, n: int)
    ensures NumberEquals(s, n) ==> StringIsNumeric(s)
  {
    var t := Trim(s);
    if t == [] then n == 0
    else if DecimalLiteral(t) then DecimalDenotes(t, n)
    else if PrefixedLiteral(t) then n == DigitsValue(t[2..], PrefixRadix(t[1]))
    else false
  }

  /**
   * Loose equality `v == s` with a string on the right, step by step: a
   * string compares by identity, a number compares with `Number(s)`, a
   * boolean is first converted to 1 or 0, `null` and `undefined` equal no
   * string, and a plain object compares through its string form.
   */
  predicate LooselyEqualsString(v: JsValue, s: string)
    ensures (v.Num? || v.Bool?) && LooselyEqualsString(v, s) ==> StringIsNumeric(s)
    ensures v.Undef? || v.Null? ==> !LooselyEqualsString(v, s)
    ensures v.Obj? ==> (LooselyEqualsString(v, s) <==> s == "[object Object]")
  {
    match v
    case Undef => false
    case Null => false
    case Bool(b) => NumberEquals(s, if b then 1 else 0)
    case Num(n) => NumberEquals(s, n)
    case Str(t) => t == s
    case Obj(_) => ToJsString(v) == s
  }

  /**
   * A lower-case word is no numeral and does not read as zero, so no number
   * or boolean loosely equals it.
   */
  lemma WordIsNotNumeric(w: string)
    requires IsWord(w)
    ensures !StringIsNumeric(w)
    ensures !StringIsZero(w)
    ensures !LooseEqualsZero(Str(w))
  {
    WordIsNotNumber(w);
    WordIsNotZero(w);
  }

  lemma WordIsNotNumber(w: string)
    requires IsWord(w)
    ensures !StringIsNumeric(w)
  {
    WordTrims(w);
    WordIsNoDecimal(w);
    WordIsNoOtherLiteral(w);
  }

  lemma WordIsNotZero(w: string)
    requires IsWord(w)
    ensures !StringIsZero(w)
  {
    WordTrims(w);
    WordIsNoDecimal(w);
    WordIsNoOtherLiteral(w);
  }

  /** A word starts with a letter, so neither its mantissa nor it is a decimal literal. */
  lemma WordIsNoDecimal(w: string)
    requires IsWord(w)
    ensures !DecimalLiteral(w) && !DecimalZero(w)
  {
    assert 'a' <= w[0] <= 'z';
    var k := ExponentStart(w);
    if k > 0 {
      assert w[..k][0] == w[0];
    } else {
      assert w[..k] == [];
    }
  }

  lemma WordIsNoOtherLiteral(w: string)
    requires IsWord(w)
    ensures !InfinityLiteral(w) && !PrefixedLiteral(w) && !PrefixedZero(w)
  {
    assert 'a' <= w[0] <= 'z';
    assert "Infinity"[0] == 'I' && "+Infinity"[0] == '+' && "-Infinity"[0] == '-';
  }

  /** `5 == '5'`, `-15 == '-1.5e1'`, `31 == '0x1F'` and `true == '1'` hold; `5 == '5px'` does not. */
  lemma LooseEqualityExamples()
    ensures LooselyEqualsString(Num(5), "5")
    ensures LooselyEqualsString(Num(-15), "-1.5e1")
    ensures LooselyEqualsString(Num(31), "0x1F")
    ensures LooselyEqualsString(Bool(true), "1")
    ensures !LooselyEqualsString(Num(5), "5px")
  {
    SingleDigitEquals("5", 5);
    SingleDigitEquals("1", 1);
    NegativeFractionWithExponent();
    HexEquals();
    FivePxIsNotFive();
  }

  /** Without white space, `Number` reads the string itself. */
  lemma NumberEqualsUntrimmed(s: string, n: int)
    requires forall k :: 0 <= k < |s| ==> !IsWhiteSpace(s[k])
    ensures NumberEquals(s, n) <==>
              if s == [] then n == 0
              else if DecimalLiteral(s) then DecimalDenotes(s, n)
              else if PrefixedLiteral(s) then n == DigitsValue(s[2..], PrefixRadix(s[1]))
              else false
  {
  }

  lemma SingleDigitEquals(s: string, n: nat)
    requires |s| == 1 && s[0] == DigitChar(n % 10) && n < 10
    ensures NumberEquals(s, n)
  {
    NumberEqualsUntrimmed(s, n);
    assert ExponentStart(s) == 1;
    assert s[..1] == s && s[1..] == [];
    assert WithoutPoint(s) == s;
    assert DigitsValue(s, 10) == n by {
      assert s[..0] == [];
    }
  }

  lemma NegativeFractionWithExponent()
    ensures NumberEquals("-1.5e1", -15)
  {
    var s := "-1.5e1";
    forall k | 0 <= k < |s| ensures !IsWhiteSpace(s[k]) {
      assert s[k] in "-1.5e";
    }
    NumberEqualsUntrimmed(s, -15);
    OnePointFiveEOne();
  }

  lemma OnePointFiveEOne()
    ensures DecimalLiteral("-1.5e1") && DecimalDenotes("-1.5e1", -15)
  {
    OnePointFiveEOneIsLiteral();
    OnePointFiveEOneDenotes();
  }

  lemma OnePointFiveEOneIsLiteral()
    ensures DecimalLiteral("-1.5e1")
  {
    var u := "-1.5e1"[1..];
    assert u == "1.5e1";
    ExponentStartOfFraction();
    assert u[..3] == "1.5" && u[3..] == "e1";
    OnePointFive();
    ExponentOne();
  }

  lemma OnePointFiveEOneDenotes()
    ensures DecimalDenotes("-1.5e1", -15)
  {
    var u := "-1.5e1"[1..];
    assert u == "1.5e1";
    ExponentStartOfFraction();
    assert u[..3] == "1.5" && u[3..] == "e1";
    OnePointFiveValue();
    ExponentOneValue();
    assert Pow10(0) == 1;
  }

  lemma ExponentStartOfFraction()
    ensures ExponentStart("1.5e1") == 3
  {
    assert ExponentStart("e1") == 0;
    assert ExponentStart("5e1") == 1;
    assert ExponentStart(".5e1") == 2;
  }

  lemma ExponentOne()
    ensures ExponentPart("e1")
  {
    assert "e1"[1..] == "1";
  }

  lemma ExponentOneValue()
    ensures ExponentValue("e1") == 1
  {
    assert "e1"[1..] == "1";
    assert DigitsValue("1", 10) == 1 by { assert "1"[..0] == []; }
  }

  lemma OnePointFive()
    ensures DecimalMantissa("1.5")
  {
    assert Count("5", '.') == 0;
    assert Count(".5", '.') == 1;
    assert Count("1.5", '.') == 1;
    assert "1.5"[0] == '1';
  }

  lemma OnePointFiveValue()
    ensures DigitsValue(WithoutPoint("1.5"), 10) == 15 && FractionDigits("1.5") == 1
  {
    assert WithoutPoint("5") == "5";
    assert WithoutPoint(".5") == "5";
    assert WithoutPoint("1.5") == "15";
    assert "15"[..1] == "1" && "1"[..0] == [];
  }

  lemma HexEquals()
    ensures NumberEquals("0x1F", 31)
  {
    var s := "0x1F";
    forall k | 0 <= k < |s| ensures !IsWhiteSpace(s[k]) {
      assert s[k] in "0x1F";
    }
    NumberEqualsUntrimmed(s, 31);
    HexIsNoDecimal();
    HexDigits();
  }

  lemma HexDigits()
    ensures PrefixedLiteral("0x1F") && DigitsValue("0x1F"[2..], PrefixRadix('x')) == 31
  {
    assert "0x1F"[2..] == "1F";
    assert "1F"[..1] == "1" && "1"[..0] == [];
  }

  lemma HexIsNoDecimal()
    ensures !DecimalLiteral("0x1F")
  {
    var s := "0x1F";
    var k := ExponentStart(s);
    assert ExponentStart("F") == 1;
    assert ExponentStart("1F") == 2;
    assert ExponentStart("x1F") == 3;
    assert k == 4;
    assert s[..k][1] == 'x';
  }

  lemma FivePxIsNotFive()
    ensures !NumberEquals("5px", 5)
  {
    var s := "5px";
    forall k | 0 <= k < |s| ensures !IsWhiteSpace(s[k]) {
      assert s[k] in "5px";
    }
    NumberEqualsUntrimmed(s, 5);
    FivePxIsNoDecimal();
    assert !PrefixedLiteral(s) by { assert s[0] == '5'; }
  }

  lemma FivePxIsNoDecimal()
    ensures !DecimalLiteral("5px")
  {
    var s := "5px";
    assert ExponentStart("x") == 1;
    assert ExponentStart("px") == 2;
    assert ExponentStart(s) == 3;
    assert s[..3][1] == 'p';
  }

  /**
   * Loose `==` with a lower-case word, as `transition == 'slide'` and
   * `imageSize == 'custom'` use it, is string identity: `LooseEqualsWord`
   * agrees with the step-by-step `LooselyEqualsString` on every value.
   */
  lemma WordEqualityIsIdentity(v: JsValue, w: string)
    requires IsWord(w)
    ensures LooselyEqualsString(v, w) <==> LooseEqualsWord(v, w)
  {
    WordIsNotNumeric(w);
    if v.Obj? {
      assert "[object Object]"[0] == '[';
      assert 'a' <= w[0] <= 'z';
    }
  }

  /** A blank string is zero, and any other string that is zero contains the digit `0`. */
  lemma StringIsZeroShape(s: string)
    ensures (forall k :: 0 <= k < |s| ==> IsWhiteSpace(s[k])) ==> StringIsZero(s)
    ensures StringIsZero(s) ==> '0' in s || forall k :: 0 <= k < |s| ==> IsWhiteSpace(s[k])
  {
    var t := Trim(s);
    if t == [] {
      var a, b :| 0 <= a <= b <= |s| && t == s[a..b] &&
                  (forall k :: 0 <= k < a ==> IsWhiteSpace(s[k])) &&
                  (forall k :: b <= k < |s| ==> IsWhiteSpace(s[k]));
      assert a == b;
    } else if DecimalZero(t) {
      var u := if |t| > 0 && t[0] in "+-" then t[1..] else t;
      var k := ExponentStart(u);
      assert '0' in u[..k];
      assert '0' in t;
    } else if PrefixedZero(t) {
      assert t[0] in t;
    }
  }

  /**
   * Loose equality `v == 0`: booleans and strings are compared through
   * their numeric value, `null` and `undefined` equal only each other, and a
   * plain object reads as `'[object Object]'`, which is not a number.
   */
  predicate LooseEqualsZero(v: JsValue)
    ensures !v.Str? ==> (LooseEqualsZero(v) <==> v == Bool(false) || v == Num(0))
    ensures v.Str? && (forall k :: 0 <= k < |v.s| ==> IsWhiteSpace(v.s[k])) ==> LooseEqualsZero(v)
    ensures v.Str? && LooseEqualsZero(v) ==> '0' in v.s || forall k :: 0 <= k < |v.s| ==> IsWhiteSpace(v.s[k])
  {
    match v
    case Undef => false
    case Null => false
    case Bool(b) => !b
    case Num(n) => n == 0
    case Str(s) => StringIsZeroShape(s); StringIsZero(s)
    case Obj(_) => false
  }

  /**
   * Some spellings of a count and how `== 0` reads them: the empty string,
   * `'0'` with or without surrounding spaces, `'0.0'` and `false` equal
   * zero; `null`, `undefined` and `'5'` do not.
   */
  lemma ZeroSpellings()
    ensures LooseEqualsZero(Str("")) && LooseEqualsZero(Str("0")) && LooseEqualsZero(Str(" 0 "))
    ensures LooseEqualsZero(Str("0.0")) && LooseEqualsZero(Bool(false))
    ensures !LooseEqualsZero(Null) && !LooseEqualsZero(Undef) && !LooseEqualsZero(Str("5"))
  {
    assert Trim("") == "";
    ZeroDigitIsZero();
    PaddedZeroIsZero();
    ZeroPointZeroIsZero();
    FiveIsNotZero();
  }

  lemma ZeroDigitIsZero()
    ensures StringIsZero("0")
  {
  }

  lemma PaddedZeroIsZero()
    ensures StringIsZero(" 0 ")
  {
    PaddedZeroTrims();
    ZeroDigitIsZero();
  }

  lemma PaddedZeroTrims()
    ensures Trim(" 0 ") == "0"
  {
  }

  lemma ZeroPointZeroIsZero()
    ensures StringIsZero("0.0")
  {
    ZeroPointZeroTrims();
    ZeroPointZeroIsDecimalZero();
  }

  lemma ZeroPointZeroTrims()
    ensures Trim("0.0") == "0.0"
  {
    var s := "0.0";
    forall k | 0 <= k < |s| ensures !IsWhiteSpace(s[k]) {
      assert s[k] == '0' || s[k] == '.';
    }
  }

  lemma ZeroPointZeroIsDecimalZero()
    ensures DecimalZero("0.0")
  {
    assert ExponentStart("0.0") == 3;
    assert "0.0"[..3] == "0.0" && "0.0"[3..] == "";
    assert Count("0.0", '.') == 1;
  }

  lemma FiveIsNotZero()
    ensures !StringIsZero("5")
  {
    FiveTrims();
    FiveIsNoDecimalZero();
    assert !PrefixedZero("5");
  }

  lemma FiveIsNoDecimalZero()
    ensures !DecimalZero("5")
  {
    assert ExponentStart("5") == 1;
    assert "5"[..1] == "5";
  }

  lemma FiveTrims()
    ensures Trim("5") == "5"
  {
    assert !IsWhiteSpace("5"[0]);
  }
}
