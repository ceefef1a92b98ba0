// The level-weighted school total of School.calculateScores, computed exactly on integers.
// The source evaluates the weights in double precision and rounds once with Math.round,
// which is floor(x + 1/2); on exact values that is RoundDiv below.

module WeightedTotal {

  /** Math.round applied to the exact value x: the integer nearest to x, halves going up. */
  function RoundHalfUp(x: real): (n: int)
  {
    (x + 0.5).Floor
  }

  /** Math.round of num / den, for a positive den, on integers. */
  function RoundDiv(num: int, den: int): (r: int)
    requires den > 0
    ensures den * (2 * r - 1) <= 2 * num < den * (2 * r + 1)
  {
    var q := (2 * num + den) / (2 * den);
    assert 2 * num + den == (2 * den) * q + (2 * num + den) % (2 * den);
    assert den * (2 * q - 1) == (2 * den) * q - den;
    assert den * (2 * q + 1) == (2 * den) * q + den;
    q
  }

  /** The integer rounding is Math.round of the exact quotient. */
  lemma RoundDivIsRoundHalfUp(num: int, den: int)
    requires den > 0
    ensures RoundDiv(num, den) == RoundHalfUp(num as real / den as real)
  {
    var r := RoundDiv(num, den);
    var x := num as real / den as real;
    var d := den as real;
    var below := (2 * r - 1) as real;
    var above := (2 * r + 1) as real;
    assert (den * (2 * r - 1)) as real == d * below;
    assert (den * (2 * r + 1)) as real == d * above;
    assert 2.0 * num as real == d * (2.0 * x);
    RealScaleLe(d, below, 2.0 * x);
    RealScaleLt(d, 2.0 * x, above);
    assert r as real <= x + 0.5 < r as real + 1.0;
  }

  lemma RealScaleLe(d: real, a: real, b: real)
    requires d > 0.0 && d * a <= d * b
    ensures a <= b
  {
    assert d * (b - a) == d * b - d * a;
  }

  lemma RealScaleLt(d: real, a: real, b: real)
    requires d > 0.0 && d * a < d * b
    ensures a < b
  {
    assert d * (b - a) == d * b - d * a;
  }

  lemma IntScaleLt(d: int, a: int, b: int)
    requires d > 0 && d * a < d * b
    ensures a < b
  {
    assert d * (b - a) == d * b - d * a;
  }

  /** With an odd denominator the exact quotient is never halfway between two integers, so
      the rounding never meets a tie: the lower bound of RoundDiv is strict. */
  lemma RoundDivNeverTies(num: int, den: int)
    requires den > 0 && den % 2 == 1
    ensures den * (2 * RoundDiv(num, den) - 1) < 2 * num
  {
    var r := RoundDiv(num, den);
    var a := den / 2;
    assert den == 2 * a + 1;
    assert den * (2 * r - 1) == 2 * (2 * a * r + r - a) - 1;
  }

  lemma RoundDivMonotone(num: int, num': int, den: int)
    requires den > 0 && num <= num'
    ensures RoundDiv(num, den) <= RoundDiv(num', den)
  {
    var r := RoundDiv(num, den);
    var r' := RoundDiv(num', den);
    assert den * (2 * r - 1) < den * (2 * r' + 1);
    IntScaleLt(den, 2 * r - 1, 2 * r' + 1);
  }

  /** The school total from the four subject sums. Middle level: N + C + round(8M/5 + 8S/5);
      any other level: N + round(10M/9 + 10S/9 + 8C/7), written over the common
      denominators 5 and 63. */
  function SchoolTotal(isMiddle: bool, n: int, c: int, m: int, s: int): (total: int)
  {
    if isMiddle then n + c + RoundDiv(8 * (m + s), 5)
    else n + RoundDiv(70 * (m + s) + 72 * c, 63)
  }

  /** The integer total equals the source's formula evaluated on exact values. */
  lemma SchoolTotalIsFormula(isMiddle: bool, n: int, c: int, m: int, s: int)
    ensures SchoolTotal(isMiddle, n, c, m, s) ==
              if isMiddle then
                n + c + RoundHalfUp(m as real * 8.0 / 5.0 + s as real * 8.0 / 5.0)
              else
                n + RoundHalfUp(m as real * 10.0 / 9.0 + s as real * 10.0 / 9.0 + c as real * 8.0 / 7.0)
  {
    if isMiddle {
      RoundDivIsRoundHalfUp(8 * (m + s), 5);
      assert (8 * (m + s)) as real / 5 as real == m as real * 8.0 / 5.0 + s as real * 8.0 / 5.0;
    } else {
      RoundDivIsRoundHalfUp(70 * (m + s) + 72 * c, 63);
      assert (70 * (m + s) + 72 * c) as real / 63 as real
          == m as real * 10.0 / 9.0 + s as real * 10.0 / 9.0 + c as real * 8.0 / 7.0;
    }
  }

  /** Subject sums of at least 0 give a total of at least 0. */
  lemma SchoolTotalNonNegative(isMiddle: bool, n: int, c: int, m: int, s: int)
    requires n >= 0 && c >= 0 && m >= 0 && s >= 0
    ensures SchoolTotal(isMiddle, n, c, m, s) >= 0
  {
    RoundDivMonotone(0, if isMiddle then 8 * (m + s) else 70 * (m + s) + 72 * c, if isMiddle then 5 else 63);
  }

  /** Raising any subject sum never lowers the total. */
  lemma SchoolTotalMonotone(isMiddle: bool, n: int, c: int, m: int, s: int,
                            n': int, c': int, m': int, s': int)
    requires n <= n' && c <= c' && m <= m' && s <= s'
    ensures SchoolTotal(isMiddle, n, c, m, s) <= SchoolTotal(isMiddle, n', c', m', s')
  {
    if isMiddle {
      RoundDivMonotone(8 * (m + s), 8 * (m' + s'), 5);
    } else {
      RoundDivMonotone(70 * (m + s) + 72 * c, 70 * (m' + s') + 72 * c', 63);
    }
  }
}
