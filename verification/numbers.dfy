/**
 * The Kotlin numeric conversions the interpreter and its library rely on.
 * A script number is a `Double`, modelled as a `real`; the conversions to
 * `Int` and `Byte` are written out because Dafny's integers are unbounded.
 */
module Numbers {
  const IntMin: int := -0x8000_0000
  const IntMax: int := 0x7FFF_FFFF

  /** A Kotlin `Byte`: a signed 8-bit value. */
  newtype Int8 = x: int | -128 <= x < 128

  /** Rounding toward zero: the integer part of `x`. */
  function Trunc(x: real): (r: int)
    ensures 0.0 <= x ==> 0 <= r && r as real <= x < r as real + 1.0
    ensures x < 0.0 ==> r <= 0 && r as real - 1.0 < x <= r as real
  {
    if x >= 0.0 then x.Floor else -((-x).Floor)
  }

  /** `Double.toInt()`: truncation toward zero, saturating at the bounds of a 32-bit `Int`. */
  function ToInt(x: real): (r: int)
    ensures IntMin <= r <= IntMax
    ensures IntMin <= Trunc(x) <= IntMax ==> r == Trunc(x)
    ensures Trunc(x) > IntMax ==> r == IntMax
    ensures Trunc(x) < IntMin ==> r == IntMin
  {
    var t := Trunc(x);
    if t > IntMax then IntMax else if t < IntMin then IntMin else t
  }

  /** `Int.toByte()`: keep the low eight bits and read them as a two's-complement byte. */
  function ToByte(n: int): (r: Int8)
    ensures (n - r as int) % 256 == 0
    ensures -128 <= n < 128 ==> r as int == n
  {
    var m := n % 256;
    if m >= 128 then (m - 256) as Int8 else m as Int8
  }

  /** Truncation is monotone, so the order of two numbers survives `toInt()`. */
  lemma TruncMonotone(x: real, y: real)
    requires x <= y
    ensures Trunc(x) <= Trunc(y)
  {}

  lemma ToIntMonotone(x: real, y: real)
    requires x <= y
    ensures ToInt(x) <= ToInt(y)
  {
    TruncMonotone(x, y);
  }

  /** The byte a number narrows to depends only on its residue modulo 256. */
  lemma ToBytePeriodic(n: int, k: int)
    ensures ToByte(n + 256 * k) == ToByte(n)
  {
    assert (n + 256 * k) % 256 == n % 256;
  }

  predicate IsDigit(c: char) { '0' <= c <= '9' }

  predicate AllDigits(ds: string) { forall i :: 0 <= i < |ds| ==> IsDigit(ds[i]) }

  /** The character of a decimal digit. */
  function Digit(k: int): (c: char)
    requires 0 <= k < 10
    ensures IsDigit(c) && c as int - '0' as int == k
  {
    ('0' as int + k) as char
  }

  /** The number a string of decimal digits denotes, most significant first. */
  function DigitsValue(ds: string): nat
    requires AllDigits(ds)
  {
    if ds == [] then 0 else 10 * DigitsValue(ds[..|ds|-1]) + (ds[|ds|-1] as int - '0' as int)
  }

  /**
   * The decimal text of an integer, as `Int.toString()` writes it: an
   * optional minus sign, then the digits of the magnitude with no leading
   * zero.
   */
  function DecimalText(n: int): (r: string)
    ensures |r| >= 1
    ensures n < 0 <==> r[0] == '-'
    ensures n >= 0 ==> AllDigits(r) && DigitsValue(r) == n && (|r| > 1 ==> r[0] != '0')
    ensures n < 0 ==> |r| >= 2 && AllDigits(r[1..]) && DigitsValue(r[1..]) == -n && r[1] != '0'
    decreases if n < 0 then 1 - n else n
  {
    if n < 0 then
      var m := DecimalText(-n);
      assert ("-" + m)[1..] == m;
      "-" + m
    else if n < 10 then [Digit(n)]
    else
      var r := DecimalText(n / 10) + [Digit(n % 10)];
      assert r[..|r|-1] == DecimalText(n / 10);
      r
  }

  /** A digit string that does not start with `0` denotes a positive number. */
  lemma {:induction false} LeadingDigitPositive(ds: string)
    requires |ds| >= 1 && AllDigits(ds) && ds[0] != '0'
    ensures DigitsValue(ds) >= 1
  {
    if |ds| > 1 {
      LeadingDigitPositive(ds[..|ds|-1]);
    }
  }

  /**
   * The decimal text is the only one: every digit string without a leading
   * zero is the text `DecimalText` writes for the number it denotes.
   */
  lemma {:induction false} DecimalTextOfDigits(ds: string)
    requires |ds| >= 1 && AllDigits(ds) && (|ds| > 1 ==> ds[0] != '0')
    ensures DecimalText(DigitsValue(ds)) == ds
  {
    var p, d := ds[..|ds|-1], ds[|ds|-1] as int - '0' as int;
    if |ds| > 1 {
      LeadingDigitPositive(p);
      DecimalTextOfDigits(p);
      var n := DigitsValue(ds);
      assert n / 10 == DigitsValue(p) && n % 10 == d;
      assert Digit(d) == ds[|ds|-1];
      assert p + [ds[|ds|-1]] == ds;
    } else {
      assert Digit(d) == ds[0];
    }
  }
}
