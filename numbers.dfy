// The numeric conversions the converters apply: Go's int(float64), which
// truncates toward zero, and the decimal rendering of fmt's %d verb.

module Numbers {

  /** int(r) for a float64 r in range: the integer part, rounded toward zero. */
  function Trunc(r: real): (t: int)
    ensures r >= 0.0 ==> 0 <= t && t as real <= r < t as real + 1.0
    ensures r < 0.0 ==> t <= 0 && t as real - 1.0 < r <= t as real
  {
    if r >= 0.0 then r.Floor else -((-r).Floor)
  }

  /** Truncation never moves a value away from zero, and keeps the order of non-negative values. */
  lemma TruncMonotonic(a: real, b: real)
    requires 0.0 <= a <= b
    ensures Trunc(a) <= Trunc(b)
  {
    assert Trunc(a) as real <= a <= b < Trunc(b) as real + 1.0;
  }

  /** The integer parts of two non-negative values add up to at most the integer part of their sum. */
  lemma TruncSum(a: real, b: real)
    requires a >= 0.0 && b >= 0.0
    ensures Trunc(a) + Trunc(b) <= Trunc(a + b)
  {
    assert (Trunc(a) + Trunc(b)) as real <= a + b < Trunc(a + b) as real + 1.0;
  }

  /** A value strictly below an integer bound truncates below it. */
  lemma TruncBelow(r: real, n: int)
    requires 0.0 <= r < n as real
    ensures Trunc(r) < n
  {
  }

  /** Multiplying by a positive factor keeps a strict order. */
  lemma ScaleLess(a: real, b: real, c: real)
    requires a < b && c > 0.0
    ensures a * c < b * c
  {
    assert b * c - a * c == (b - a) * c;
  }

  /** Multiplying by a non-negative factor keeps a weak order. */
  lemma ScaleLe(a: real, b: real, c: real)
    requires a <= b && c >= 0.0
    ensures a * c <= b * c
  {
    assert b * c - a * c == (b - a) * c;
  }

  function DigitChar(d: nat): (c: char)
    requires d < 10
    ensures '0' <= c <= '9' && c as int - '0' as int == d
  {
    ('0' as int + d) as char
  }

  /** fmt.Sprintf("%d", n) for a non-negative n. */
  function Decimal(n: nat): (s: string)
    ensures s != [] && forall k | 0 <= k < |s| :: '0' <= s[k] <= '9'
  {
    if n < 10 then [DigitChar(n)] else Decimal(n / 10) + [DigitChar(n % 10)]
  }

  /** The value of a string of decimal digits. */
  function DecimalValue(s: string): nat
    requires forall k | 0 <= k < |s| :: '0' <= s[k] <= '9'
  {
    if s == [] then 0 else 10 * DecimalValue(s[..|s| - 1]) + (s[|s| - 1] as int - '0' as int)
  }

  /** Reading back the digits gives the number. */
  lemma {:induction false} DecimalRoundTrip(n: nat)
    ensures DecimalValue(Decimal(n)) == n
  {
    if n >= 10 {
      var s := Decimal(n);
      assert s[..|s| - 1] == Decimal(n / 10);
      DecimalRoundTrip(n / 10);
    }
  }
}
