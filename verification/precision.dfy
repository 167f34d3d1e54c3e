/** The converted amount and its display precision: banker's rounding of
    the absolute converted value, and for values below one the extra
    digits needed to get past the leading zeros of its ten-digit
    fixed-point rendering. */
module Precision {

  import opened Results
  import opened Chars

  function Abs(x: real): (r: real)
    ensures r >= 0.0 && (r == x || r == -x)
  {
    if x < 0.0 then -x else x
  }

  /** `x` measured in units of the `d`-th decimal place. */
  function Scale(x: real, d: nat): real {
    x * Pow10(d) as real
  }

  /** The integer nearest to `y`, ties to the even one. */
  function HalfEvenUnits(y: real): (k: int)
    ensures -0.5 <= k as real - y <= 0.5
    ensures y == y.Floor as real ==> k == y.Floor
    ensures y - y.Floor as real == 0.5 ==> k % 2 == 0
  {
    var n := y.Floor;
    if y - n as real > 0.5 then n + 1
    else if y - n as real < 0.5 then n
    else if n % 2 == 0 then n else n + 1
  }

  /** `k` units of the `d`-th decimal place, scaled back, is `k`. */
  lemma ScaleUnits(k: int, d: nat)
    ensures Scale(k as real / Pow10(d) as real, d) == k as real
  {
  }

  /** `Math.Round(x, d)`: to the nearest value with `d` decimals, ties to
      the even neighbour. */
  function RoundHalfEven(x: real, d: nat): (r: real)
    ensures x >= 0.0 ==> r >= 0.0
    ensures Scale(r, d) == Scale(r, d).Floor as real
    ensures -0.5 <= Scale(r, d) - Scale(x, d) <= 0.5
  {
    var k := HalfEvenUnits(Scale(x, d));
    ScaleUnits(k, d);
    k as real / Pow10(d) as real
  }

  /** A value that already has `d` decimals is not changed by rounding. */
  lemma RoundExact(x: real, d: nat)
    requires Scale(x, d) == Scale(x, d).Floor as real
    ensures RoundHalfEven(x, d) == x
  {
    var p := Pow10(d) as real;
    var k := HalfEvenUnits(Scale(x, d));
    assert k as real == x * p;
    assert (k as real / p) * p == x * p;
  }

  /** At an exact tie the result lands on an even last digit. */
  lemma TieGoesToEven(x: real, d: nat)
    requires Scale(x, d) - Scale(x, d).Floor as real == 0.5
    ensures Scale(RoundHalfEven(x, d), d).Floor % 2 == 0
  {
    var k := HalfEvenUnits(Scale(x, d));
    ScaleUnits(k, d);
    assert Scale(RoundHalfEven(x, d), d) == k as real;
  }

  /** Rounding of the invariant-culture fixed-point formats: to the nearest
      `d`-decimal value, ties away from zero, as an integer count of units
      of the `d`-th place. */
  function RoundHalfAwayUnits(x: real, d: nat): (n: nat)
    requires x >= 0.0
    ensures -0.5 < n as real - Scale(x, d) <= 0.5
  {
    (Scale(x, d) + 0.5).Floor
  }

  function DigitChar(d: nat): (c: char)
    requires d < 10
    ensures IsDigit(c)
  {
    ('0' as int + d) as char
  }

  /** Decimal digits of `n`, without leading zeros ("0" for zero). */
  function NatDigits(n: nat): (r: string)
    ensures |r| >= 1 && AllDigits(r) && DigitsValue(r) == n
    decreases n
  {
    if n < 10 then [DigitChar(n)]
    else
      var r := NatDigits(n / 10) + [DigitChar(n % 10)];
      assert r[..|r| - 1] == NatDigits(n / 10);
      r
  }

  /** The last `w` decimal digits of `m`, padded with leading zeros. */
  function PadDigits(m: nat, w: nat): (r: string)
    ensures |r| == w && AllDigits(r)
  {
    if w == 0 then [] else PadDigits(m / 10, w - 1) + [DigitChar(m % 10)]
  }

  /** Number of leading `'0'` characters. */
  function LeadingZeros(s: string): (z: nat)
    ensures z <= |s|
    ensures forall i :: 0 <= i < z ==> s[i] == '0'
    ensures z < |s| ==> s[z] != '0'
  {
    if s == [] || s[0] != '0' then 0 else 1 + LeadingZeros(s[1..])
  }

  /** `x.ToString("F10", CultureInfo.InvariantCulture)` for `x >= 0`. */
  function F10(x: real): string
    requires x >= 0.0
  {
    var n := RoundHalfAwayUnits(x, 10);
    NatDigits(n / Pow10(10)) + "." + PadDigits(n % Pow10(10), 10)
  }

  /** The rendering always has a decimal point, followed by exactly the ten
      fraction digits. */
  lemma F10Point(x: real)
    requires x >= 0.0
    ensures var n := RoundHalfAwayUnits(x, 10);
      var s := F10(x);
      var i := |NatDigits(n / Pow10(10))|;
      IndexOf(s, '.') == Some(i) && s[i + 1..] == PadDigits(n % Pow10(10), 10)
  {
    var n := RoundHalfAwayUnits(x, 10);
    var a := NatDigits(n / Pow10(10));
    var s := F10(x);
    assert s[..|a|] == a;
    assert '.' !in a;
    assert s[|a|] == '.';
  }

  lemma {:induction false} LeadingZerosAppend(a: string, c: char)
    ensures LeadingZeros(a + [c]) ==
      if LeadingZeros(a) == |a| then |a| + (if c == '0' then 1 else 0) else LeadingZeros(a)
    decreases |a|
  {
    if a != [] && a[0] == '0' {
      assert (a + [c])[1..] == a[1..] + [c];
      LeadingZerosAppend(a[1..], c);
    } else if a == [] {
      assert a + [c] == [c];
    }
  }

  /** The leading zeros of a padded `w`-digit rendering count the places
      before the first significant digit: all `w` of them for zero, and
      otherwise exactly the `z` with `10^(w-z-1) <= m < 10^(w-z)`. */
  lemma {:induction false} LeadingZerosMagnitude(m: nat, w: nat)
    requires m < Pow10(w)
    ensures var z := LeadingZeros(PadDigits(m, w));
      && (m == 0 <==> z == w)
      && (m > 0 ==> Pow10(w - z - 1) <= m < Pow10(w - z))
  {
    if w > 0 {
      var a := PadDigits(m / 10, w - 1);
      var c := DigitChar(m % 10);
      assert m / 10 < Pow10(w - 1);
      LeadingZerosMagnitude(m / 10, w - 1);
      LeadingZerosAppend(a, c);
      var z' := LeadingZeros(a);
      if m / 10 == 0 {
        assert c == '0' <==> m == 0;
      } else {
        assert z' < w - 1;
        assert Pow10(w - z' - 1) == 10 * Pow10(w - 1 - z' - 1);
        assert Pow10(w - z') == 10 * Pow10(w - 1 - z');
      }
    }
  }

  /** `CalculateConvertedAmount`: the rounded absolute value of
      `amount * rate` and the number of decimals to show it with. */
  function CalculateConvertedAmount(amount: real, rate: real, baseDigits: nat): (r: (real, nat))
    ensures r.0 >= 0.0
    ensures baseDigits <= r.1 <= baseDigits + 10
    ensures Abs(amount * rate) >= 1.0 ==> r.1 == baseDigits
    ensures r.0 == RoundHalfEven(Abs(amount * rate), r.1)
    ensures -0.5 <= Scale(r.0, r.1) - Scale(Abs(amount * rate), r.1) <= 0.5
  {
    var raw := Abs(amount * rate);
    var converted := RoundHalfEven(raw, baseDigits);
    if raw < 1.0 then
      var rendered := F10(raw);
      F10Point(raw);
      match IndexOf(rendered, '.')
      case None => (converted, baseDigits)
      case Some(i) =>
        var precision := baseDigits + LeadingZeros(rendered[i + 1..]);
        (RoundHalfEven(raw, precision), precision)
    else (converted, baseDigits)
  }

  /** Below one, the precision is the base plus the number of zero places
      between the decimal point and the first significant digit of the
      value rounded to ten decimals (all ten when that rounding leaves no
      fraction). */
  lemma SmallAmountPrecision(amount: real, rate: real, baseDigits: nat)
    requires Abs(amount * rate) < 1.0
    ensures var m := RoundHalfAwayUnits(Abs(amount * rate), 10) % Pow10(10);
      var z := CalculateConvertedAmount(amount, rate, baseDigits).1 - baseDigits;
      && (m == 0 <==> z == 10)
      && (m > 0 ==> Pow10(9 - z) <= m < Pow10(10 - z))
  {
    var raw := Abs(amount * rate);
    F10Point(raw);
    LeadingZerosMagnitude(RoundHalfAwayUnits(raw, 10) % Pow10(10), 10);
  }

  /** A value that renders as `0.0000000000` or `1.0000000000` (zero, or
      within half a unit of the tenth place below one) is shown with all
      ten extra decimals. */
  lemma NoFractionGivesTenExtraDigits(amount: real, rate: real, baseDigits: nat)
    requires Abs(amount * rate) < 1.0
    requires Scale(Abs(amount * rate), 10) < 0.5 || Scale(Abs(amount * rate), 10) >= Pow10(10) as real - 0.5
    ensures CalculateConvertedAmount(amount, rate, baseDigits).1 == baseDigits + 10
  {
    var raw := Abs(amount * rate);
    var n := RoundHalfAwayUnits(raw, 10);
    var p := Pow10(10);
    assert Scale(raw, 10) < p as real by {
      assert Scale(raw, 10) == raw * p as real;
      assert raw * p as real < 1.0 * p as real;
    }
    assert n == 0 || n == p;
    assert n % p == 0;
    SmallAmountPrecision(amount, rate, baseDigits);
  }
}
