/** Integer percentages and three-way bands. Python computes `int(100 * a / b)` and
    `round(100 * a / b)` in floating point; for the integer sizes a test produces the
    quotient is exact enough that `int` truncates the true rational toward zero and
    `round` rounds it to the nearest integer, ties to even. */
module Bands {

  /** Euclidean division by a positive divisor brackets the dividend. */
  lemma DivBracket(n: int, d: int)
    requires d > 0
    ensures d * (n / d) <= n < d * (n / d) + d
  {
    assert n == d * (n / d) + n % d;
  }

  /** Cancelling a positive factor keeps an inequality. */
  lemma CancelLeq(d: int, a: int, b: int)
    requires d > 0 && d * a <= d * b
    ensures a <= b
  {
  }

  lemma CancelLess(d: int, a: int, b: int)
    requires d > 0 && d * a < d * b
    ensures a < b
  {
  }

  /** `int(n / d)`: the rational quotient truncated toward zero. */
  function TruncDiv(n: int, d: int): (q: int)
    requires d != 0
    ensures n >= 0 && d > 0 ==> d * q <= n < d * q + d
    ensures n <= 0 && d > 0 ==> d * q - d < n <= d * q
    decreases if d < 0 then 1 else 0
  {
    if d < 0 then TruncDiv(-n, -d)
    else if n >= 0 then
      DivBracket(n, d);
      n / d
    else
      DivBracket(-n, d);
      -((-n) / d)
  }

  /** `round(n / d)`: the nearest integer to the rational quotient, an exact half going to the even neighbour. */
  function RoundHalfEven(n: int, d: int): (r: int)
    requires d != 0
    ensures d > 0 ==> -d <= 2 * (n - d * r) <= d
    ensures d > 0 && (2 * (n - d * r) == d || 2 * (n - d * r) == -d) ==> r % 2 == 0
    decreases if d < 0 then 1 else 0
  {
    if d < 0 then RoundHalfEven(-n, -d)
    else
      var q := n / d;
      var rem := n % d;
      assert n == d * q + rem;
      assert d * (q + 1) == d * q + d;
      if 2 * rem < d then q
      else if 2 * rem > d then q + 1
      else if q % 2 == 0 then q
      else q + 1
  }

  datatype Band = High | Middle | Low

  /** `High if x >= hi else (Middle if x >= lo else Low)` */
  function Banded(x: int, hi: int, lo: int): Band {
    if x >= hi then High else if x >= lo then Middle else Low
  }

  function Rank(b: Band): nat {
    match b
      case Low => 0
      case Middle => 1
      case High => 2
  }

  /** The three bands partition the integers: each x is in exactly the band its interval names. */
  lemma BandedPartition(x: int, hi: int, lo: int)
    requires lo <= hi
    ensures Banded(x, hi, lo) == High <==> x >= hi
    ensures Banded(x, hi, lo) == Middle <==> lo <= x < hi
    ensures Banded(x, hi, lo) == Low <==> x < lo
  {
  }

  /** A larger score never lands in a lower band. */
  lemma BandedMonotone(x: int, y: int, hi: int, lo: int)
    requires x <= y
    ensures Rank(Banded(x, hi, lo)) <= Rank(Banded(y, hi, lo))
  {
  }

  /** KOS-2 levels: high from 8, medium from 4. */
  function KosLevel(x: int): Band { Banded(x, 8, 4) }

  /** Bennett percentage bands: high from 75, medium from 40. */
  function BennettBand(pct: int): Band { Banded(pct, 75, 40) }

  /** CDI levels: high from 19, moderate from 13. */
  function CdiBand(raw: int): Band { Banded(raw, 19, 13) }

  /** `int(100 * raw / max_score) if max_score else 0`: for a positive maximum, the largest
      percentage not above the exact one for a share that is not negative, and the smallest
      not below it for one that is not positive. */
  function Percent(raw: int, maxScore: int): (pct: int)
    ensures maxScore == 0 ==> pct == 0
    ensures maxScore > 0 && raw >= 0 ==> maxScore * pct <= 100 * raw < maxScore * pct + maxScore
    ensures maxScore > 0 && raw <= 0 ==> maxScore * pct - maxScore < 100 * raw <= maxScore * pct
  {
    if maxScore != 0 then TruncDiv(100 * raw, maxScore) else 0
  }

  /** A share of a whole is a percentage of at most 100, and at least 0 when the share is not negative. */
  lemma PercentBounds(raw: int, maxScore: int)
    requires 0 <= maxScore && raw <= maxScore
    ensures Percent(raw, maxScore) <= 100
    ensures 0 <= raw ==> 0 <= Percent(raw, maxScore)
  {
    if maxScore != 0 {
      var q := TruncDiv(100 * raw, maxScore);
      if raw >= 0 {
        assert maxScore * q <= maxScore * 100;
        CancelLeq(maxScore, q, 100);
        assert maxScore * 0 < maxScore * (q + 1);
        CancelLess(maxScore, 0, q + 1);
      } else {
        assert maxScore * q - maxScore < 100 * raw < 0;
        assert maxScore * (q - 1) < maxScore * 0;
        CancelLess(maxScore, q - 1, 0);
      }
    }
  }

  /** `round(100 * a / b) if b else 0`, as used for completion scores: for a positive whole, a
      percentage within one half of the exact one, and an even one when the exact one lies
      halfway between two. */
  function RoundPercent(a: int, b: int): (pct: int)
    ensures b == 0 ==> pct == 0
    ensures b > 0 ==> -b <= 2 * (100 * a - b * pct) <= b
    ensures b > 0 && (2 * (100 * a - b * pct) == b || 2 * (100 * a - b * pct) == -b) ==> pct % 2 == 0
  {
    if b != 0 then RoundHalfEven(100 * a, b) else 0
  }

  /** A share of a whole rounds to at most 100, and any count that is not negative to at least 0. */
  lemma RoundPercentBounds(a: int, b: int)
    requires 0 <= b
    ensures a <= b ==> RoundPercent(a, b) <= 100
    ensures 0 <= a ==> 0 <= RoundPercent(a, b)
  {
    if b != 0 {
      var r := RoundHalfEven(100 * a, b);
      assert -b <= 2 * (100 * a - b * r) <= b;
      if a <= b {
        assert b * (2 * r - 1) <= 200 * b by {
          assert b * (2 * r - 1) == 2 * (b * r) - b;
        }
        CancelLeq(b, 2 * r - 1, 200);
      }
      if 0 <= a {
        assert 0 <= b * (2 * r + 1) by {
          assert b * (2 * r + 1) == 2 * (b * r) + b;
        }
        CancelLeq(b, 0, 2 * r + 1);
      }
    }
  }

  /** Half of the whole or more rounds to at least 50 per cent, less than half to at most 50. */
  lemma RoundPercentHalf(a: int, t: int)
    requires 0 < t
    ensures 2 * a >= t ==> RoundPercent(a, t) >= 50
    ensures 2 * a < t ==> RoundPercent(a, t) <= 50
  {
    var r := RoundHalfEven(100 * a, t);
    assert -t <= 2 * (100 * a - t * r) <= t;
    assert t * (2 * r) == 2 * (t * r);
    if 2 * a >= t {
      CancelLeq(t, 99, 2 * r);
    } else {
      CancelLess(t, 2 * r, 101);
    }
  }

  /** The whole of a positive count rounds to exactly 100 per cent. */
  lemma RoundPercentWhole(t: int)
    requires 0 < t
    ensures RoundPercent(t, t) == 100
  {
    var r := RoundHalfEven(100 * t, t);
    assert -t <= 2 * (100 * t - t * r) <= t;
    CancelLess(t, 99, r);
    CancelLess(t, r, 101);
  }

  /** A quotient within half a divisor of `n` is the floor quotient of `n` or one more. */
  lemma NearFloor(n: int, d: int, q: int, r: int)
    requires 0 < d && d * q <= n < d * q + d
    requires -d <= 2 * (n - d * r) <= d
    ensures q <= r <= q + 1
  {
    assert d * (r + 1) == d * r + d;
    CancelLess(d, q, r + 1);
    assert d * (q + 2) == d * q + 2 * d;
    CancelLess(d, r, q + 2);
  }

  /** Rounding a non-negative quotient gives the truncated quotient or one more. */
  lemma RoundNearTrunc(n: int, d: int)
    requires 0 <= n && 0 < d
    ensures TruncDiv(n, d) <= RoundHalfEven(n, d) <= TruncDiv(n, d) + 1
  {
    NearFloor(n, d, TruncDiv(n, d), RoundHalfEven(n, d));
  }
}
