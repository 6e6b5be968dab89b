/**
 * JavaScript's `Number(s)` on a route parameter, for the decimal integer
 * forms: surrounding whitespace, an optional sign and digits. Every other
 * string is NaN here.
 */
module Numbers {
  import opened Wrappers
  import opened Strings

  predicate IsDigit(c: char) {
    '0' <= c <= '9'
  }

  predicate AllDigits(s: string) {
    forall i :: 0 <= i < |s| ==> IsDigit(s[i])
  }

  function Digit(d: nat): (c: char)
    requires d < 10
    ensures IsDigit(c)
  {
    ('0' as int + d) as char
  }

  /** The value of a string of decimal digits, most significant first. */
  function DigitsValue(s: string): nat
    requires AllDigits(s)
    decreases |s|
  {
    if s == [] then 0
    else DigitsValue(s[..|s| - 1]) * 10 + (s[|s| - 1] as int - '0' as int)
  }

  /**
   * The plain decimal rendering of `n`, as `String(n)` gives it below 1e21
   * (JavaScript switches to exponent form from there on).
   */
  function ShowNat(n: nat): (s: string)
    ensures s != [] && AllDigits(s)
    ensures n > 0 ==> s[0] != '0'
    ensures n == 0 ==> s == "0"
    decreases n
  {
    if n < 10 then [Digit(n)] else ShowNat(n / 10) + [Digit(n % 10)]
  }

  /** `String(n)` for an integer: a minus sign exactly for negative `n`, then the digits of its magnitude. */
  function ShowInt(n: int): (s: string)
    ensures s != [] && (s[0] == '-' <==> n < 0)
    ensures n >= 0 ==> AllDigits(s)
    ensures n < 0 ==> AllDigits(s[1..])
    ensures n == 0 ==> s == "0"
    ensures n > 0 ==> s[0] != '0'
    ensures n < 0 ==> |s| > 1 && s[1] != '0'
  {
    if n < 0 then "-" + ShowNat(-n) else ShowNat(n)
  }

  /** A decimal integer with an optional sign, as `Number` reads it once trimmed. */
  function SignedInteger(t: string): Option<int> {
    if t != [] && (t[0] == '-' || t[0] == '+') then
      var digits := t[1..];
      if digits != [] && AllDigits(digits) then
        var n: int := DigitsValue(digits);
        Some(if t[0] == '-' then -n else n)
      else None
    else if t != [] && AllDigits(t) then Some(DigitsValue(t))
    else None
  }

  /**
   * `Number(s)`; None stands for NaN. A blank string is 0. The value is
   * exact at every size, where JavaScript rounds beyond 2^53.
   */
  function NumberOf(s: string): Option<int> {
    var t := Trim(s);
    if t == [] then Some(0) else SignedInteger(t)
  }

  lemma {:induction false} ShowNatValue(n: nat)
    ensures DigitsValue(ShowNat(n)) == n
    decreases n
  {
    if n >= 10 {
      var s := ShowNat(n);
      ShowNatValue(n / 10);
      assert s[..|s| - 1] == ShowNat(n / 10);
    }
  }

  /** A string of digits is the number it spells. */
  lemma NumberOfDigits(s: string)
    requires s != [] && AllDigits(s)
    ensures NumberOf(s) == Some(DigitsValue(s))
  {
  }

  /** A minus sign followed by digits is the negated number the digits spell. */
  lemma NumberOfNegative(d: string)
    requires d != [] && AllDigits(d)
    ensures NumberOf("-" + d) == Some(-(DigitsValue(d) as int))
  {
  }

  /** `Number(String(n)) === n` for every integer `n`, on the exact decimal forms above. */
  lemma NumberOfShowInt(n: int)
    ensures NumberOf(ShowInt(n)) == Some(n)
  {
    if n < 0 {
      var d := ShowNat(-n);
      ShowNatValue(-n);
      NumberOfNegative(d);
      assert ShowInt(n) == "-" + d;
    } else {
      ShowNatValue(n);
      NumberOfDigits(ShowNat(n));
    }
  }
}
