/**
 The smoothed load (pkg/loadprobe/sampler.go): an exponentially weighted moving average
 of clamped readings, in real arithmetic.
 */
module Ewma {

  /** A probe reading; the source's float may be not-a-number. */
  datatype Reading = NaN | Number(v: real)

  function Clamp01(r: Reading): (c: real)
    ensures 0.0 <= c <= 1.0
    ensures r.Number? && 0.0 <= r.v <= 1.0 ==> c == r.v
    ensures r.NaN? || r.v <= 0.0 ==> c == 0.0
    ensures r.Number? && r.v >= 1.0 ==> c == 1.0
  {
    if r.NaN? || r.v < 0.0 then 0.0 else if r.v > 1.0 then 1.0 else r.v
  }

  const DEFAULT_WINDOW := 5

  /** The window that counts: the one configured, or five readings. */
  function Window(configured: int): (w: int)
    ensures w >= 1
    ensures configured >= 1 ==> w == configured
    ensures configured < 1 ==> w == 5
  {
    if configured <= 0 then DEFAULT_WINDOW else configured
  }

  function Alpha(window: int): (alpha: real)
    requires window >= 1
    ensures 0.0 < alpha <= 1.0
  {
    2.0 / (window as real + 1.0)
  }

  /** A smoothing factor: the weight `a` of a new reading and `b` = 1 - `a` of the old average. */
  datatype Smoothing = Smoothing(a: real, b: real) {
    predicate Valid() {
      0.0 < a <= 1.0 && b == 1.0 - a
    }
  }

  function SmoothingOver(window: int): (s: Smoothing)
    requires window >= 1
    ensures s.Valid()
  {
    Smoothing(Alpha(window), 1.0 - Alpha(window))
  }

  /** The average after `xs`: the first reading as it is, then mixed with the average so far. */
  function Average(s: Smoothing, xs: seq<real>): real {
    if |xs| == 0 then 0.0
    else if |xs| == 1 then xs[0]
    else s.a * xs[|xs| - 1] + s.b * Average(s, xs[..|xs| - 1])
  }

  /** How one round of the sampling loop ends. */
  datatype Round = Sampled(raw: Reading) | TimedOut | Failed | Cancelled

  predicate Ends(r: Round) {
    r.Failed? || r.Cancelled?
  }

  /** The clamped readings of the rounds before the loop ends; skipped rounds give none. */
  function Readings(rounds: seq<Round>): seq<real> {
    if rounds == [] || Ends(rounds[0]) then []
    else (if rounds[0].Sampled? then [Clamp01(rounds[0].raw)] else []) + Readings(rounds[1..])
  }

  lemma ReadingsFrom(seen: seq<real>, rounds: seq<Round>, n: nat)
    requires n < |rounds|
    ensures seen + Readings(rounds[n..])
         == if Ends(rounds[n]) then seen
            else (if rounds[n].Sampled? then seen + [Clamp01(rounds[n].raw)] else seen) + Readings(rounds[n + 1..])
  {
    assert rounds[n..][1..] == rounds[n + 1..];
  }

  lemma AverageNext(s: Smoothing, xs: seq<real>, x: real)
    ensures Average(s, xs + [x]) == if xs == [] then x else s.a * x + s.b * Average(s, xs)
  {
    assert (xs + [x])[..|xs|] == xs;
  }

  /** The same in the loop's variables. */
  lemma ValueNext(s: Smoothing, xs: seq<real>, x: real, alpha: real, value: real)
    requires s.Valid() && s.a == alpha && value == Average(s, xs)
    ensures Average(s, xs + [x]) == if xs == [] then x else alpha * x + (1.0 - alpha) * value
  {
    AverageNext(s, xs, x);
  }

  /** The sampling loop. */
  method Loop(configuredWindow: int, rounds: seq<Round>) returns (value: real, failed: bool)
    ensures value == Average(SmoothingOver(Window(configuredWindow)), Readings(rounds))
    ensures failed <==> exists i :: 0 <= i < |rounds| && rounds[i].Failed? && forall j :: 0 <= j < i ==> !Ends(rounds[j])
  {
    var alpha := Alpha(Window(configuredWindow));
    var first := true;
    ghost var smoothing, seen := SmoothingOver(Window(configuredWindow)), [];
    value := 0.0;
    for n := 0 to |rounds|
      invariant first <==> seen == []
      invariant value == Average(smoothing, seen)
      invariant Readings(rounds) == seen + Readings(rounds[n..])
      invariant forall j :: 0 <= j < n ==> !Ends(rounds[j])
    {
      ReadingsFrom(seen, rounds, n);
      match rounds[n]
      case Cancelled => return value, false;
      case Failed => return value, true;
      case TimedOut =>
      case Sampled(raw) =>
        var clamped := Clamp01(raw);
        ValueNext(smoothing, seen, clamped, alpha, value);
        if first {
          value := clamped;
          first := false;
        } else {
          value := alpha * clamped + (1.0 - alpha) * value;
        }
        seen := seen + [clamped];
    }
    assert seen + [] == seen;
    failed := false;
  }

  // --- Closed form ---

  function Pow(x: real, n: nat): real {
    if n == 0 then 1.0 else x * Pow(x, n - 1)
  }

  /** The weight of reading `i` of `n`. */
  function Weight(s: Smoothing, n: nat, i: nat): real
    requires i < n
  {
    if i == 0 then Pow(s.b, n - 1) else s.a * Pow(s.b, n - 1 - i)
  }

  function Weights(s: Smoothing, n: nat): (ws: seq<real>)
    ensures |ws| == n
  {
    seq(n, i requires 0 <= i < n => Weight(s, n, i))
  }

  /** Each reading times its weight. */
  function Terms(s: Smoothing, xs: seq<real>): (ts: seq<real>)
    ensures |ts| == |xs|
  {
    seq(|xs|, i requires 0 <= i < |xs| => Weight(s, |xs|, i) * xs[i])
  }

  function Sum(ts: seq<real>): real {
    if ts == [] then 0.0 else Sum(ts[..|ts| - 1]) + ts[|ts| - 1]
  }

  lemma {:induction false} PowNonNegative(x: real, n: nat)
    requires x >= 0.0
    ensures Pow(x, n) >= 0.0
  {
    if n > 0 {
      PowNonNegative(x, n - 1);
    }
  }

  lemma Swap(x: real, y: real, z: real)
    ensures x * (y * z) == y * (x * z)
  {
  }

  lemma Assoc(x: real, y: real, z: real)
    ensures (x * y) * z == x * (y * z)
  {
  }

  lemma Distribute(b: real, x: real, y: real)
    ensures b * (x + y) == b * x + b * y
  {
  }

  /** One more reading multiplies every earlier weight by the decay. */
  lemma WeightShrinks(s: Smoothing, n: nat, i: nat)
    requires i < n
    ensures Weight(s, n + 1, i) == s.b * Weight(s, n, i)
  {
    if i > 0 {
      Swap(s.a, s.b, Pow(s.b, n - 1 - i));
    }
  }

  lemma TermShrinks(s: Smoothing, xs: seq<real>, x: real, i: nat)
    requires i < |xs|
    ensures Terms(s, xs + [x])[i] == s.b * Terms(s, xs)[i]
  {
    WeightShrinks(s, |xs|, i);
    Assoc(s.b, Weight(s, |xs|, i), xs[i]);
  }

  ghost predicate Scaled(b: real, ts: seq<real>, scaled: seq<real>) {
    |ts| == |scaled| && forall i :: 0 <= i < |ts| ==> scaled[i] == b * ts[i]
  }

  /** Scaling every term scales the sum. */
  lemma {:induction false} SumScales(b: real, ts: seq<real>, scaled: seq<real>)
    requires Scaled(b, ts, scaled)
    ensures Sum(scaled) == b * Sum(ts)
  {
    if ts != [] {
      var n := |ts| - 1;
      SumScales(b, ts[..n], scaled[..n]);
      Distribute(b, Sum(ts[..n]), ts[n]);
    }
  }

  lemma WeightsShrink(s: Smoothing, n: nat)
    ensures Scaled(s.b, Weights(s, n), Weights(s, n + 1)[..n])
  {
    forall i | 0 <= i < n ensures Weights(s, n + 1)[..n][i] == s.b * Weights(s, n)[i] {
      WeightShrinks(s, n, i);
    }
  }

  lemma TermsShrink(s: Smoothing, xs: seq<real>, x: real)
    ensures Scaled(s.b, Terms(s, xs), Terms(s, xs + [x])[..|xs|])
  {
    forall i | 0 <= i < |xs| ensures Terms(s, xs + [x])[..|xs|][i] == s.b * Terms(s, xs)[i] {
      TermShrinks(s, xs, x, i);
    }
  }

  /** The newest of at least two readings has weight `a`. */
  lemma NewestWeight(s: Smoothing, n: nat)
    requires n > 0
    ensures Weight(s, n + 1, n) == s.a
  {
    assert Pow(s.b, 0) == 1.0;
  }

  lemma WeightsWithOneMore(s: Smoothing, n: nat)
    requires n > 0
    ensures Sum(Weights(s, n + 1)) == s.b * Sum(Weights(s, n)) + s.a
  {
    NewestWeight(s, n);
    WeightsShrink(s, n);
    SumScales(s.b, Weights(s, n), Weights(s, n + 1)[..n]);
  }

  lemma TermsWithOneMore(s: Smoothing, xs: seq<real>, x: real)
    requires xs != []
    ensures Sum(Terms(s, xs + [x])) == s.b * Sum(Terms(s, xs)) + s.a * x
  {
    NewestWeight(s, |xs|);
    TermsShrink(s, xs, x);
    SumScales(s.b, Terms(s, xs), Terms(s, xs + [x])[..|xs|]);
  }

  lemma SingleReading(s: Smoothing, x: real)
    ensures Average(s, [x]) == Sum(Terms(s, [x])) == x
    ensures Sum(Weights(s, 1)) == 1.0
  {
    assert Weight(s, 1, 0) == Pow(s.b, 0) == 1.0;
    assert Terms(s, [x])[..0] == [] && Weights(s, 1)[..0] == [];
    assert Terms(s, [x])[0] == 1.0 * x && Weights(s, 1)[0] == 1.0;
  }

  lemma WeightsStayOne(s: Smoothing, n: nat)
    requires s.Valid() && n > 0 && Sum(Weights(s, n)) == 1.0
    ensures Sum(Weights(s, n + 1)) == 1.0
  {
    WeightsWithOneMore(s, n);
  }

  lemma SumStaysAverage(s: Smoothing, xs: seq<real>, x: real)
    requires xs != [] && Average(s, xs) == Sum(Terms(s, xs))
    ensures Average(s, xs + [x]) == Sum(Terms(s, xs + [x]))
  {
    AverageNext(s, xs, x);
    TermsWithOneMore(s, xs, x);
  }

  /** The recurrence is the weighted sum of all readings, with weights adding up to 1. */
  lemma {:induction false} AverageIsWeightedSum(s: Smoothing, xs: seq<real>)
    requires xs != [] && s.Valid()
    ensures Average(s, xs) == Sum(Terms(s, xs))
    ensures Sum(Weights(s, |xs|)) == 1.0
  {
    var n := |xs| - 1;
    if n == 0 {
      SingleReading(s, xs[0]);
      assert xs == [xs[0]];
    } else {
      AverageIsWeightedSum(s, xs[..n]);
      SumStaysAverage(s, xs[..n], xs[n]);
      WeightsStayOne(s, n);
      assert xs == xs[..n] + [xs[n]];
    }
  }

  lemma WeightsNonNegative(s: Smoothing, n: nat, i: nat)
    requires s.Valid() && i < n
    ensures Weight(s, n, i) >= 0.0
  {
    PowNonNegative(s.b, if i == 0 then n - 1 else n - 1 - i);
  }

  lemma NonNegativeProduct(x: real, y: real)
    requires x >= 0.0 && y >= 0.0
    ensures x * y >= 0.0
  {
  }

  lemma MixBounds(alpha: real, x: real, y: real, lo: real, hi: real)
    requires 0.0 < alpha <= 1.0 && lo <= x <= hi && lo <= y <= hi
    ensures lo <= alpha * x + (1.0 - alpha) * y <= hi
  {
    NonNegativeProduct(alpha, x - lo);
    NonNegativeProduct(1.0 - alpha, y - lo);
    NonNegativeProduct(alpha, hi - x);
    NonNegativeProduct(1.0 - alpha, hi - y);
  }

  /** The average stays between the smallest and the largest reading. */
  lemma {:induction false} AverageStaysBetween(s: Smoothing, xs: seq<real>, lo: real, hi: real)
    requires s.Valid() && xs != []
    requires forall i :: 0 <= i < |xs| ==> lo <= xs[i] <= hi
    ensures lo <= Average(s, xs) <= hi
  {
    if |xs| > 1 {
      AverageStaysBetween(s, xs[..|xs| - 1], lo, hi);
      MixBounds(s.a, xs[|xs| - 1], Average(s, xs[..|xs| - 1]), lo, hi);
    }
  }

  lemma {:induction false} ReadingsAreClamped(rounds: seq<Round>)
    ensures forall i :: 0 <= i < |Readings(rounds)| ==> 0.0 <= Readings(rounds)[i] <= 1.0
  {
    if rounds != [] {
      ReadingsAreClamped(rounds[1..]);
    }
  }

  /** Whatever the probe reports, the published value is within [0, 1]. */
  lemma PublishedValueInUnit(configuredWindow: int, rounds: seq<Round>)
    ensures 0.0 <= Average(SmoothingOver(Window(configuredWindow)), Readings(rounds)) <= 1.0
  {
    ReadingsAreClamped(rounds);
    if Readings(rounds) != [] {
      AverageStaysBetween(SmoothingOver(Window(configuredWindow)), Readings(rounds), 0.0, 1.0);
    }
  }

  /** Skipped rounds leave the average as it was. */
  lemma {:induction false} SkippedRoundsChangeNothing(before: seq<Round>, after: seq<Round>)
    requires forall i :: 0 <= i < |before| ==> !Ends(before[i])
    ensures Readings(before + [TimedOut] + after) == Readings(before + after)
  {
    if before == [] {
      assert before + [TimedOut] + after == [TimedOut] + after;
      assert before + after == after;
      assert Readings([TimedOut] + after) == [] + Readings(after);
    } else {
      SkippedRoundsChangeNothing(before[1..], after);
      assert (before + [TimedOut] + after)[1..] == before[1..] + [TimedOut] + after;
      assert (before + after)[1..] == before[1..] + after;
    }
  }

  /** The window in plain terms: a reading moves the average by 2 / (window + 1) of its distance to it. */
  lemma ReadingMovesAverage(window: int, xs: seq<real>, x: real)
    requires window >= 1 && xs != []
    ensures var before, after := Average(SmoothingOver(window), xs), Average(SmoothingOver(window), xs + [x]);
            (after - before) * (window as real + 1.0) == 2.0 * (x - before)
  {
    var s := SmoothingOver(window);
    AverageNext(s, xs, x);
    MovedBy(s.a, s.b, Average(s, xs), x, window as real + 1.0);
  }

  lemma MovedBy(a: real, b: real, before: real, x: real, n: real)
    requires n > 0.0 && a == 2.0 / n && b == 1.0 - a
    ensures (a * x + b * before - before) * n == 2.0 * (x - before)
  {
    assert a * x + b * before - before == a * (x - before);
    Assoc(a, x - before, n);
    assert a * n == 2.0;
    assert a * (x - before) * n == a * n * (x - before);
  }

  function Repeat(c: real, m: nat): seq<real> {
    seq(m, _ => c)
  }

  lemma Contract(a: real, b: real, c: real, v: real)
    requires b == 1.0 - a
    ensures a * c + b * v - c == b * (v - c)
  {
  }

  lemma ConvergeOnce(s: Smoothing, xs: seq<real>, c: real)
    requires xs != [] && s.Valid()
    ensures Average(s, xs + [c]) - c == s.b * (Average(s, xs) - c)
  {
    AverageNext(s, xs, c);
    Contract(s.a, s.b, c, Average(s, xs));
  }

  function Shrunk(b: real, m: nat, distance: real): real {
    if m == 0 then distance else b * Shrunk(b, m - 1, distance)
  }

  lemma {:induction false} ShrunkIsPower(b: real, m: nat, distance: real)
    ensures Shrunk(b, m, distance) == Pow(b, m) * distance
  {
    if m > 0 {
      ShrunkIsPower(b, m - 1, distance);
      Assoc(b, Pow(b, m - 1), distance);
    }
  }

  lemma RepeatMore(xs: seq<real>, c: real, m: nat)
    requires m > 0
    ensures xs + Repeat(c, m) == xs + Repeat(c, m - 1) + [c]
  {
  }

  lemma {:induction false} DistanceShrinks(s: Smoothing, xs: seq<real>, c: real, m: nat)
    requires xs != [] && s.Valid()
    ensures Average(s, xs + Repeat(c, m)) - c == Shrunk(s.b, m, Average(s, xs) - c)
  {
    if m == 0 {
      assert xs + Repeat(c, 0) == xs;
    } else {
      DistanceShrinks(s, xs, c, m - 1);
      RepeatMore(xs, c, m);
      ConvergeOnce(s, xs + Repeat(c, m - 1), c);
    }
  }

  /** `m` further readings equal to `c` shrink the distance to `c` by exactly (1 - alpha)^m. */
  lemma ConstantLoadConverges(s: Smoothing, xs: seq<real>, c: real, m: nat)
    requires xs != [] && s.Valid()
    ensures Average(s, xs + Repeat(c, m)) - c == Pow(s.b, m) * (Average(s, xs) - c)
  {
    DistanceShrinks(s, xs, c, m);
    ShrunkIsPower(s.b, m, Average(s, xs) - c);
  }

  lemma {:induction false} PowAntitone(x: real, m: nat, n: nat)
    requires 0.0 <= x <= 1.0 && m <= n
    ensures Pow(x, n) <= Pow(x, m)
  {
    if m < n {
      PowAntitone(x, m, n - 1);
      PowNonNegative(x, n - 1);
    }
  }

  lemma TwoThirds()
    ensures Pow(2.0 / 3.0, 3) == 8.0 / 27.0 && Pow(2.0 / 3.0, 4) == 16.0 / 81.0
  {
    var b := 2.0 / 3.0;
    assert Pow(b, 1) == b * Pow(b, 0) == b;
    assert Pow(b, 2) == b * Pow(b, 1) == 4.0 / 9.0;
    assert Pow(b, 3) == b * Pow(b, 2) == 8.0 / 27.0;
    assert Pow(b, 4) == b * Pow(b, 3) == 16.0 / 81.0;
  }

  /**
   With the default window, full load takes a value of 0 to 0.8 at the fourth sample, but at the
   first one when there was none before.
   */
  lemma DefaultCrossesThresholdInFour(xs: seq<real>, m: nat)
    requires Average(SmoothingOver(DEFAULT_WINDOW), xs) == 0.0
    ensures Average(SmoothingOver(DEFAULT_WINDOW), xs + Repeat(1.0, m)) >= 0.8 <==> m >= if xs == [] then 1 else 4
  {
    var s := SmoothingOver(DEFAULT_WINDOW);
    if xs == [] {
      assert xs + Repeat(1.0, m) == Repeat(1.0, m);
      if m > 0 {
        AverageStaysBetween(s, Repeat(1.0, m), 1.0, 1.0);
      }
    } else {
      assert s.b == 2.0 / 3.0;
      ConstantLoadConverges(s, xs, 1.0, m);
      TwoThirds();
      if m >= 4 {
        PowAntitone(2.0 / 3.0, 4, m);
      } else {
        PowAntitone(2.0 / 3.0, m, 3);
      }
    }
  }
}
