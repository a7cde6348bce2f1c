/** The number a printed concurrency cap stands for (packages/agent/src/agent-loop.ts:900-917,
    packages/agent/src/tool-dag-scheduler.ts:210-226), read back from its text. */
module Numerals {
  import opened Wrappers
  import opened PlanRequest

  // A number as JSON prints it: a sign, whole digits, a fraction and a power of ten.
  datatype Numeral = Numeral(negative: bool, whole: string, fraction: Option<string>, exponent: Option<Exponent>)

  datatype Exponent = Exponent(negative: bool, digits: string)

  ghost predicate AllDigits(s: string) {
    s != "" && Digital(s)
  }

  ghost predicate Printed(n: Numeral) {
    && AllDigits(n.whole) && (n.fraction.Some? ==> AllDigits(n.fraction.value))
    && (n.exponent.Some? ==> AllDigits(n.exponent.value.digits))
  }

  function Fraction(n: Numeral): string {
    if n.fraction.Some? then "." + n.fraction.value else ""
  }

  function Power(n: Numeral): string {
    if n.exponent.None? then "" else "e" + (if n.exponent.value.negative then "-" else "+") + n.exponent.value.digits
  }

  function Spelled(n: Numeral): string {
    (if n.negative then "-" else "") + (n.whole + (Fraction(n) + Power(n)))
  }

  function Tens(n: nat): (r: real)
    ensures r >= 1.0
  {
    if n == 0 then 1.0 else 10.0 * Tens(n - 1)
  }

  ghost predicate Digital(s: string) {
    forall i | 0 <= i < |s| :: '0' <= s[i] <= '9'
  }

  // What a row of digits counts: each one more digit at the end makes ten times as much.
  ghost function Count(digits: string): real {
    if digits == "" then 0.0 else 10.0 * Count(digits[..|digits| - 1]) + Digit(digits[|digits| - 1])
  }

  // What the digits behind a point come to.
  ghost function Share(digits: string): real {
    Count(digits) / Tens(|digits|)
  }

  ghost function Magnitude(n: Numeral): real {
    Count(n.whole) + if n.fraction.Some? then Share(n.fraction.value) else 0.0
  }

  // The power of ten with a whole exponent.
  ghost function TenTo(exponent: real): real {
    if exponent < 0.0 then 1.0 else Tens(exponent.Floor)
  }

  ghost function Scale(m: real, exponent: Option<Exponent>): real {
    if exponent.None? then m
    else if exponent.value.negative then m / TenTo(Count(exponent.value.digits))
    else m * TenTo(Count(exponent.value.digits))
  }

  ghost function Worth(n: Numeral): real {
    var w := Scale(Magnitude(n), n.exponent);
    if n.negative then -w else w
  }

  lemma {:induction false} PowerIsTens(n: nat)
    ensures Power10(n) == Tens(n)
  {
    if n > 0 {
      PowerIsTens(n - 1);
    }
  }

  ghost predicate NoDigit(rest: string) {
    rest == "" || !('0' <= rest[0] <= '9')
  }

  lemma {:induction false} CountNonNegative(digits: string)
    requires Digital(digits)
    ensures Count(digits) >= 0.0
  {
    if digits != "" {
      CountNonNegative(digits[..|digits| - 1]);
    }
  }

  // A digit more at the end of what is read.
  lemma {:induction false} DigitsSnoc(digits: string, c: char, rest: string, value: real)
    requires Digital(digits) && '0' <= c <= '9' && NoDigit(rest)
    ensures Digits(digits + [c] + rest, value) == (10.0 * Digits(digits, value).0 + Digit(c), rest)
    decreases |digits|
  {
    var all := digits + [c] + rest;
    if digits == "" {
      assert all[0] == c && all[1..] == rest;
    } else {
      assert all[0] == digits[0] && all[1..] == digits[1..] + [c] + rest;
      DigitsSnoc(digits[1..], c, rest, 10.0 * value + Digit(digits[0]));
    }
  }

  lemma {:induction false} DigitsRead(digits: string, rest: string)
    requires Digital(digits) && NoDigit(rest)
    ensures Digits(digits + rest, 0.0) == (Count(digits), rest)
    decreases |digits|
  {
    if digits == "" {
      assert digits + rest == rest;
    } else {
      var n := |digits| - 1;
      DigitsRead(digits[..n], "");
      assert digits[..n] + "" == digits[..n] && digits[..n] + [digits[n]] == digits;
      DigitsSnoc(digits[..n], digits[n], rest, 0.0);
    }
  }

  lemma DecimalsRead(digits: string, rest: string, whole: real)
    requires Digital(digits) && NoDigit(rest)
    ensures Decimals(digits + rest, whole) == (whole + Share(digits), rest)
  {
    DigitsRead(digits, rest);
    AfterDigits(Count(digits), rest, |digits|, whole);
    OverTens(Count(digits), |digits|);
  }

  lemma AfterDigits(count: real, rest: string, places: nat, whole: real)
    ensures AfterPoint((count, rest), places + |rest|, whole) == (whole + Over(count, places), rest)
  {
  }

  lemma OverTens(count: real, places: nat)
    ensures Over(count, places) == count / Tens(places)
  {
    PowerIsTens(places);
  }

  lemma ScaledRead(value: real, n: Numeral)
    requires Printed(n)
    ensures Scaled(value, Power(n)) == Scale(value, n.exponent)
  {
    if n.exponent.Some? {
      var digits := n.exponent.value.digits;
      assert Power(n)[2..] == digits && digits + "" == digits;
      DigitsRead(digits, "");
      CountNonNegative(digits);
      PowerIsTens(Count(digits).Floor);
    }
  }

  lemma MagnitudeRead(n: Numeral, text: string)
    requires Printed(n) && text == n.whole + (Fraction(n) + Power(n))
    ensures Unscaled(text) == (Magnitude(n), Power(n))
  {
    DigitsRead(n.whole, Fraction(n) + Power(n));
    PointRead(n, Count(n.whole));
  }

  lemma PointRead(n: Numeral, whole: real)
    requires Printed(n)
    ensures BehindPoint((whole, Fraction(n) + Power(n))) ==
            (whole + if n.fraction.Some? then Share(n.fraction.value) else 0.0, Power(n))
  {
    if n.fraction.Some? {
      WithPoint(n.fraction.value, Power(n), whole);
    } else {
      WithoutPoint(Power(n), whole);
    }
  }

  lemma WithPoint(digits: string, power: string, whole: real)
    requires Digital(digits) && NoDigit(power)
    ensures BehindPoint((whole, "." + digits + power)) == (whole + Share(digits), power)
  {
    var after := "." + digits + power;
    assert after[0] == '.' && after[1..] == digits + power;
    DecimalsRead(digits, power, whole);
  }

  lemma WithoutPoint(power: string, whole: real)
    requires power == "" || power[0] != '.'
    ensures BehindPoint((whole, "" + power)) == (whole + 0.0, power)
  {
    assert "" + power == power;
  }

  // A printed number is read as what it spells.
  lemma NumberIsRead(n: Numeral)
    requires Printed(n)
    ensures NumberOf(Spelled(n)) == Worth(n)
  {
    var text := n.whole + (Fraction(n) + Power(n));
    SignRead(n, text);
    MagnitudeRead(n, text);
    ScaledRead(Magnitude(n), n);
  }

  lemma SignRead(n: Numeral, text: string)
    requires Printed(n) && text == n.whole + (Fraction(n) + Power(n))
    ensures var s := Spelled(n); s != "" && (s[0] == '-' <==> n.negative) && (if n.negative then s[1..] else s) == text
  {
    assert text[0] == n.whole[0] && '0' <= n.whole[0] <= '9';
    assert n.negative ==> Spelled(n)[1..] == text;
    assert !n.negative ==> Spelled(n) == text;
  }
}
