/**
 * Java's 32-bit `int`, with the wrap-around of its `+` and `-`, and the decimal
 * text that `Integer.toString` writes and `Integer.parseInt` reads back.
 */
module JavaInt {
  import opened Wrappers

  const MinInt: int := -0x8000_0000
  const MaxInt: int := 0x7fff_ffff

  /** The values a Java `int` can hold. */
  type Int32 = x: int | -0x8000_0000 <= x <= 0x7fff_ffff

  /** Two's-complement wrap-around: the Int32 congruent to `x` modulo 2^32. */
  function Wrap(x: int): (r: Int32)
    ensures MinInt <= x <= MaxInt ==> r == x
    ensures (x - r) % 0x1_0000_0000 == 0
  {
    var k := (x - MinInt) / 0x1_0000_0000;
    assert x - MinInt == k * 0x1_0000_0000 + (x - MinInt) % 0x1_0000_0000;
    (x - MinInt) % 0x1_0000_0000 + MinInt
  }

  predicate IsDigit(c: char) {
    '0' <= c <= '9'
  }

  predicate AllDigits(s: string) {
    forall i :: 0 <= i < |s| ==> IsDigit(s[i])
  }

  function DigitChar(d: int): (c: char)
    requires 0 <= d < 10
    ensures IsDigit(c) && c as int - '0' as int == d
  {
    ('0' as int + d) as char
  }

  /** The decimal digits of `n`, most significant first, with no leading zero. */
  function Decimal(n: nat): (s: string)
    ensures |s| > 0 && AllDigits(s)
    decreases n
  {
    if n < 10 then [DigitChar(n)] else Decimal(n / 10) + [DigitChar(n % 10)]
  }

  /** The number a non-empty run of decimal digits denotes, read left to right. */
  function DigitsValue(s: string): nat
    requires AllDigits(s)
    decreases |s|
  {
    if s == [] then 0
    else DigitsValue(s[..|s| - 1]) * 10 + (s[|s| - 1] as int - '0' as int)
  }

  lemma {:induction false} DecimalRoundTrip(n: nat)
    ensures DigitsValue(Decimal(n)) == n
    decreases n
  {
    if n >= 10 {
      var s := Decimal(n);
      assert s[..|s| - 1] == Decimal(n / 10);
      DecimalRoundTrip(n / 10);
    }
  }

  /** `Integer.toString`: a minus sign for negatives, then the digits of the magnitude. */
  function ShowInt(n: int): (s: string)
    ensures |s| > 0
    ensures n >= 0 ==> AllDigits(s)
    ensures n < 0 ==> s[0] == '-' && AllDigits(s[1..])
  {
    if n < 0 then "-" + Decimal(-n) else Decimal(n)
  }

  /**
   * `Integer.parseInt`: an optional `+` or `-`, then at least one decimal digit,
   * and the value must fit in an `int`; anything else is a NumberFormatException,
   * here `None`.
   */
  function ParseInt(s: string): (r: Option<Int32>)
    ensures r.Some? ==> |s| > 0 && (s[0] == '-' || s[0] == '+' || IsDigit(s[0]))
    ensures r.Some? ==> AllDigits(s[1..]) && (|s| >= 2 || IsDigit(s[0]))
    ensures |s| > 0 && AllDigits(s) ==> (r.Some? <==> DigitsValue(s) <= MaxInt)
    ensures |s| > 0 && AllDigits(s) && r.Some? ==> r.value == DigitsValue(s)
  {
    var signed := |s| > 0 && (s[0] == '-' || s[0] == '+');
    var digits := if signed then s[1..] else s;
    if digits == [] || !AllDigits(digits) then None
    else
      var v: int := if signed && s[0] == '-' then -(DigitsValue(digits) as int) else DigitsValue(digits) as int;
      if MinInt <= v <= MaxInt then Some(v) else None
  }

  /** What `Integer.toString` writes, `Integer.parseInt` reads back unchanged. */
  lemma ParseShowRoundTrip(n: Int32)
    ensures ParseInt(ShowInt(n)) == Some(n)
  {
    var s := ShowInt(n);
    if n < 0 {
      var d := Decimal(-(n as int));
      assert s == "-" + d && s[0] == '-' && s[1..] == d;
      DecimalRoundTrip(-(n as int));
    } else {
      var d := Decimal(n);
      assert s == d && !(s[0] == '-' || s[0] == '+');
      DecimalRoundTrip(n);
    }
  }

  /** The text of an integer is plain: no comma, no line break, never empty. */
  lemma ShowIntIsPlain(n: int)
    ensures |ShowInt(n)| > 0
    ensures forall i :: 0 <= i < |ShowInt(n)| ==> ShowInt(n)[i] !in {',', '\n', '\r'}
  {
    if n < 0 {
      assert ShowInt(n) == "-" + Decimal(-n);
    }
  }
}
