/**
 * The JavaScript number operations the timers and the statistics screen
 * format with: integer division rounded up or down, the remainder operator
 * `%`, Number.prototype.toString on integers and padStart(2, '0').
 */
module NumberText {

  /** The character of a decimal digit. */
  function DigitChar(d: int): (c: char)
    requires 0 <= d <= 9
    ensures '0' <= c <= '9' && c as int - '0' as int == d
  {
    ('0' as int + d) as char
  }

  /** A non-empty string of decimal digits. */
  predicate IsDigits(s: string) {
    |s| > 0 && forall i :: 0 <= i < |s| ==> '0' <= s[i] <= '9'
  }

  /** The value of a string of decimal digits, read most significant first. */
  function DigitsValue(s: string): nat
    requires forall i :: 0 <= i < |s| ==> '0' <= s[i] <= '9'
  {
    if s == [] then 0
    else DigitsValue(s[..|s| - 1]) * 10 + (s[|s| - 1] as int - '0' as int)
  }

  /** Number.prototype.toString of a non-negative integer: decimal, without leading zeros. */
  function NatToString(n: nat): string {
    if n < 10 then [DigitChar(n)] else NatToString(n / 10) + [DigitChar(n % 10)]
  }

  /**
   * The decimal text of n is digits without a leading zero (unless n is 0),
   * one digit below 10, at most two below 100, and reading it back gives n.
   */
  lemma {:induction false} NatToStringRoundTrip(n: nat)
    ensures var s := NatToString(n);
      && IsDigits(s) && DigitsValue(s) == n
      && (s[0] == '0' ==> n == 0)
      && (n < 10 <==> |s| == 1)
      && (n < 100 <==> |s| <= 2)
  {
    if n >= 10 {
      var s := NatToString(n);
      NatToStringRoundTrip(n / 10);
      assert s[..|s| - 1] == NatToString(n / 10);
      assert s[0] == NatToString(n / 10)[0];
    }
  }

  /** Number.prototype.toString of an integer: a minus sign before a negative one. */
  function IntToString(n: int): string {
    if n < 0 then "-" + NatToString(-n) else NatToString(n)
  }

  /** The text of an integer is its digits, after a minus sign when it is negative. */
  lemma IntToStringShape(n: int)
    ensures var s := IntToString(n);
      && (n >= 0 ==> IsDigits(s) && DigitsValue(s) == n && (s[0] == '0' ==> n == 0) && (n < 100 <==> |s| <= 2))
      && (n < 0 ==> |s| >= 2 && s[0] == '-' && IsDigits(s[1..]) && DigitsValue(s[1..]) == -n)
  {
    if n < 0 {
      NatToStringRoundTrip(-n);
      assert ("-" + NatToString(-n))[1..] == NatToString(-n);
    } else {
      NatToStringRoundTrip(n);
    }
  }

  /** padStart(2, '0'): zeros before a string shorter than two characters. */
  function PadStart2(s: string): string {
    if |s| >= 2 then s else seq(2 - |s|, _ => '0') + s
  }

  /** The padded string has at least two characters: the input at its end, and only zeros before it. */
  lemma PadStart2Shape(s: string)
    ensures var r := PadStart2(s);
      && |r| == (if |s| >= 2 then |s| else 2)
      && r[|r| - |s|..] == s
      && forall i :: 0 <= i < |r| - |s| ==> r[i] == '0'
  {
  }

  /** Leading zeros do not change the value of a string of digits. */
  lemma {:induction false} LeadingZerosValue(z: nat, s: string)
    requires forall i :: 0 <= i < |s| ==> '0' <= s[i] <= '9'
    ensures DigitsValue(seq(z, _ => '0') + s) == DigitsValue(s)
  {
    if s == [] {
      if z > 0 {
        var zs := seq(z, _ => '0');
        assert zs + s == zs;
        assert zs[..z - 1] == seq(z - 1, _ => '0');
        LeadingZerosValue(z - 1, s);
        assert seq(z - 1, _ => '0') + s == seq(z - 1, _ => '0');
      }
    } else {
      var t := seq(z, _ => '0') + s;
      assert t[..|t| - 1] == seq(z, _ => '0') + s[..|s| - 1];
      LeadingZerosValue(z, s[..|s| - 1]);
    }
  }

  /** Padding the text of a non-negative integer keeps its digits and its value. */
  lemma PaddedValue(n: nat)
    ensures IsDigits(PadStart2(IntToString(n)))
    ensures DigitsValue(PadStart2(IntToString(n))) == n
    ensures |PadStart2(IntToString(n))| >= 2
    ensures n < 100 ==> |PadStart2(IntToString(n))| == 2
  {
    var s := IntToString(n);
    IntToStringShape(n);
    if |s| < 2 {
      LeadingZerosValue(2 - |s|, s);
    }
  }

  /** The quotient a / b truncated toward zero, as JavaScript's `%` uses it. */
  function TruncDiv(a: int, b: int): int
    requires b > 0
  {
    if a >= 0 then a / b else -((-a) / b)
  }

  /**
   * JavaScript's `%` on integers: a - b * TruncDiv(a, b), so the remainder
   * has the sign of the dividend.
   */
  function JsRem(a: int, b: int): (r: int)
    requires b > 0
    ensures a == TruncDiv(a, b) * b + r
    ensures a >= 0 ==> 0 <= r < b
    ensures a < 0 ==> -b < r <= 0
  {
    if a >= 0 then a % b
    else
      var q, m := (-a) / b, (-a) % b;
      assert -a == q * b + m;
      assert (-q) * b == -(q * b);
      -m
  }

  /** Math.ceil(a / d) for an integer a and a positive integer d. */
  function CeilDiv(a: int, d: int): (q: int)
    requires d > 0
    ensures (q - 1) * d < a <= q * d
  {
    var f := (-a) / d;
    assert f * d <= -a < f * d + d;
    -f
  }
}
