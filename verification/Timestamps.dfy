/**
 64-bit timestamps as libav and Go handle them: two's complement wrap-around,
 AV_NOPTS_VALUE as the "missing" sentinel, timebases as positive rationals, and
 rescaling between timebases to the nearest tick with halves away from zero.
 */
module Timestamps {
  import opened Arithmetic

  const MIN_INT64: int := -0x8000_0000_0000_0000
  const MAX_INT64: int := 0x7FFF_FFFF_FFFF_FFFF

  /** AV_NOPTS_VALUE: the smallest int64. */
  const NO_PTS: int := MIN_INT64

  type int64 = x: int | MIN_INT64 <= x <= MAX_INT64

  /** The int64 congruent to `x` modulo 2^64: what a Go int64 addition leaves behind. */
  function Wrap(x: int): (r: int64)
    ensures MIN_INT64 <= x <= MAX_INT64 ==> r == x
  {
    (x - MIN_INT64) % 0x1_0000_0000_0000_0000 + MIN_INT64
  }

  /** A timebase of `num / den` seconds per tick. */
  datatype Rational = Rational(num: int, den: int) {
    predicate Valid() {
      num > 0 && den > 0
    }

    ghost function Seconds(): (s: real)
      requires Valid()
      ensures s > 0.0
    {
      num as real / den as real
    }
  }

  /** AV_TIME_BASE_Q: microseconds. */
  const MICROSECONDS := Rational(1, 1_000_000)

  /** Division rounded to the nearest integer, halves away from zero. */
  function DivRound(n: int, d: int): int
    requires d > 0
  {
    if n >= 0 then (2 * n + d) / (2 * d) else -((-2 * n + d) / (2 * d))
  }

  lemma {:induction false} DivRoundNearest(n: int, d: int)
    requires d > 0
    ensures -d <= 2 * (DivRound(n, d) * d - n) <= d
    ensures 2 * (DivRound(n, d) * d - n) == d ==> n >= 0
    ensures 2 * (DivRound(n, d) * d - n) == -d ==> n <= 0
  {
    var m := if n >= 0 then n else -n;
    var q := (2 * m + d) / (2 * d);
    var r := (2 * m + d) % (2 * d);
    assert 2 * m + d == q * (2 * d) + r;
    assert q * (2 * d) == 2 * (q * d);
    assert DivRound(n, d) == if n >= 0 then q else -q;
    assert (-q) * d == -(q * d);
  }

  /** av_rescale_q: `x` ticks of timebase `from`, counted in ticks of timebase `to`. */
  function RescaleQ(x: int, from: Rational, to: Rational): int
    requires from.Valid() && to.Valid()
  {
    PositiveProduct(from.den, to.num);
    DivRound(x * (from.num * to.den), from.den * to.num)
  }

  lemma PositiveProduct(x: int, y: int)
    requires x > 0 && y > 0
    ensures x * y > 0
  {
  }

  lemma DivRoundExact(x: int, d: int)
    requires d > 0
    ensures DivRound(x * d, d) == x
  {
    DivRoundNearest(x * d, d);
    var gap := DivRound(x * d, d) - x;
    assert DivRound(x * d, d) * d - x * d == gap * d;
    SmallMultiple(gap, d);
  }

  /** With equal timebases rescaling changes nothing. */
  lemma RescaleSameTimebase(x: int, tb: Rational)
    requires tb.Valid()
    ensures RescaleQ(x, tb, tb) == x
  {
    PositiveProduct(tb.den, tb.num);
    assert tb.num * tb.den == tb.den * tb.num;
    DivRoundExact(x, tb.den * tb.num);
  }

  /** Seconds spanned by `x` ticks of `tb`. */
  ghost function InSeconds(x: int, tb: Rational): real
    requires tb.Valid()
  {
    x as real * tb.Seconds()
  }

  lemma AddTicks(t: int, d: int, tb: Rational)
    requires tb.Valid()
    ensures InSeconds(t + d, tb) == InSeconds(t, tb) + InSeconds(d, tb)
  {
    assert (t + d) as real == t as real + d as real;
  }

  /** Rescaling moves an instant by at most half a tick of the target timebase. */
  lemma {:induction false} RescaleWithinHalfTick(x: int, from: Rational, to: Rational)
    requires from.Valid() && to.Valid()
    ensures var e := InSeconds(RescaleQ(x, from, to), to) - InSeconds(x, from);
            -to.Seconds() / 2.0 <= e <= to.Seconds() / 2.0
  {
    var q := RescaleQ(x, from, to);
    var n, d := x * (from.num * to.den), from.den * to.num;
    var scale := from.den as real * to.den as real;
    PositiveProduct(from.den, to.num);
    DivRoundNearest(n, d);
    PositiveReal(from.den as real, to.den as real);
    RescaleError(x, q, from, to, scale);
    HalfBound(InSeconds(q, to) - InSeconds(x, from), to.Seconds(), scale, q * d - n, d);
  }

  /** The rescaling error and the target tick, cleared of denominators. */
  lemma RescaleError(x: int, q: int, from: Rational, to: Rational, scale: real)
    requires from.Valid() && to.Valid() && scale == from.den as real * to.den as real
    ensures (InSeconds(q, to) - InSeconds(x, from)) * scale
         == (q * (from.den * to.num) - x * (from.num * to.den)) as real
    ensures to.Seconds() * scale == (from.den * to.num) as real
  {
    TicksTimesDenominators(x, from, to.den);
    TicksTimesDenominators(q, to, from.den);
    TicksTimesDenominators(1, to, from.den);
    CommuteReal(from.den as real, to.den as real);
    Distribute(InSeconds(q, to), InSeconds(x, from), scale);
    ProductsCommute(q, to.num, from.den);
    ProductsCommute(1, to.num, from.den);
    ProductsCommute(x, to.den, from.num);
    assert x * from.num * to.den == x * (from.num * to.den);
  }

  lemma CommuteReal(x: real, y: real)
    ensures x * y == y * x
  {
  }

  lemma Distribute(x: real, y: real, scale: real)
    ensures (x - y) * scale == x * scale - y * scale
  {
  }

  lemma ProductsCommute(x: int, y: int, z: int)
    ensures x * y * z == x * (z * y)
  {
  }

  lemma PositiveReal(x: real, y: real)
    requires x > 0.0 && y > 0.0
    ensures x * y > 0.0
  {
  }

  lemma CancelDenominator(n: real, d: real)
    requires d != 0.0
    ensures n / d * d == n
  {
  }

  /** Multiplying a duration by the denominators turns it into a whole number. */
  lemma TicksTimesDenominators(x: int, tb: Rational, other: int)
    requires tb.Valid()
    ensures InSeconds(x, tb) * (tb.den as real * other as real) == (x * tb.num * other) as real
  {
    var n, d, o, r := tb.num as real, tb.den as real, other as real, x as real;
    CancelDenominator(n, d);
    calc {
      r * (n / d) * (d * o);
      r * (n / d * d) * o;
      r * n * o;
    }
    assert (x * tb.num) as real == r * n;
    assert (x * tb.num * other) as real == (x * tb.num) as real * o;
  }

  /** A comparison survives division by a positive scale. */
  lemma CancelScale(x: real, scale: real)
    requires scale > 0.0 && x * scale <= 0.0
    ensures x <= 0.0
  {
    if x > 0.0 {
      PositiveReal(x, scale);
    }
  }

  lemma HalfBound(err: real, tick: real, scale: real, diff: int, d: int)
    requires scale > 0.0
    requires err * scale == diff as real
    requires tick * scale == d as real
    requires -d <= 2 * diff <= d
    ensures -tick / 2.0 <= err <= tick / 2.0
  {
    assert (2.0 * err - tick) * scale == 2.0 * (err * scale) - tick * scale;
    assert (-2.0 * err - tick) * scale == -2.0 * (err * scale) - tick * scale;
    CancelScale(2.0 * err - tick, scale);
    CancelScale(-2.0 * err - tick, scale);
  }
}
