/** Decimal rendering of integers, as Java's `Integer.toString` and `%s` produce
    it, and the parser that reads a "W-L" score back. */
module Text {
  import opened Domain

  predicate IsDigit(c: char) {
    '0' <= c <= '9'
  }

  predicate AllDigits(s: string) {
    forall i :: 0 <= i < |s| ==> IsDigit(s[i])
  }

  function DigitChar(d: nat): char
    requires d < 10
  {
    (d + '0' as int) as char
  }

  /** The decimal digits of `n`: at least one digit, and no leading zero unless
      `n` is itself zero. */
  function NatToDecimal(n: nat): (s: string)
    ensures |s| >= 1 && AllDigits(s)
    ensures s[0] == '0' <==> n == 0
  {
    if n < 10 then [DigitChar(n)] else NatToDecimal(n / 10) + [DigitChar(n % 10)]
  }

  /** `Integer.toString(n)`: a minus sign before the digits of a negative number.
      The digits denote the magnitude of `n`, and only zero starts with '0'. */
  function IntToDecimal(n: int): (s: string)
    ensures n >= 0 ==> |s| >= 1 && AllDigits(s) && DigitsValue(s) == n
    ensures n < 0 ==> |s| >= 2 && s[0] == '-' && AllDigits(s[1..]) && DigitsValue(s[1..]) == -n
    ensures n < 0 ==> s[1] != '0'
    ensures s[0] == '0' <==> n == 0
  {
    if n < 0 then
      DecimalRoundTrip(-n);
      assert ("-" + NatToDecimal(-n))[1..] == NatToDecimal(-n);
      "-" + NatToDecimal(-n)
    else
      DecimalRoundTrip(n);
      NatToDecimal(n)
  }

  /** The number a string of decimal digits denotes (0 for the empty string). */
  function DigitsValue(s: string): nat
    requires AllDigits(s)
  {
    if s == [] then 0 else DigitsValue(s[..|s| - 1]) * 10 + (s[|s| - 1] as int - '0' as int)
  }

  lemma {:induction false} DecimalRoundTrip(n: nat)
    ensures DigitsValue(NatToDecimal(n)) == n
  {
    if n >= 10 {
      var s := NatToDecimal(n);
      assert s[..|s| - 1] == NatToDecimal(n / 10);
      DecimalRoundTrip(n / 10);
    }
  }

  /** The position of the first `c` in `s`, if any. */
  function IndexOf(s: string, c: char): (r: Option<nat>)
    ensures r.Some? ==> r.value < |s| && s[r.value] == c && forall i :: 0 <= i < r.value ==> s[i] != c
    ensures r.None? ==> forall i :: 0 <= i < |s| ==> s[i] != c
  {
    if s == [] then None
    else if s[0] == c then Some(0)
    else match IndexOf(s[1..], c)
      case None => None
      case Some(k) => Some(k + 1)
  }

  /** Reads "W-L", two non-empty digit strings around the first '-', back as (W, L). */
  function ParseScore(s: string): Option<(nat, nat)> {
    match IndexOf(s, '-')
    case None => None
    case Some(k) =>
      var left, right := s[..k], s[k + 1..];
      if left != [] && right != [] && AllDigits(left) && AllDigits(right)
      then Some((DigitsValue(left), DigitsValue(right)))
      else None
  }

  /** A score written as two non-negative decimal numbers joined by '-' reads
      back as the same two numbers. */
  lemma ScoreTextRoundTrip(x: nat, y: nat)
    ensures ParseScore(NatToDecimal(x) + "-" + NatToDecimal(y)) == Some((x, y))
  {
    var d, e := NatToDecimal(x), NatToDecimal(y);
    var s := d + "-" + e;
    assert s[|d|] == '-';
    assert forall i :: 0 <= i < |d| ==> s[i] == d[i];
    assert IndexOf(s, '-') == Some(|d|);
    assert s[..|d|] == d;
    assert s[|d| + 1..] == e;
    DecimalRoundTrip(x);
    DecimalRoundTrip(y);
  }
}
