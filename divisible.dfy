/** Channel rounding: `_make_divisible` and `InvertedResidualConfig.adjust_channels`.

    Python floats are modelled as `real`: `int(x)` truncates toward zero and
    `//` on ints floors, both written out below because Dafny's `/` is
    Euclidean. */
module Divisible {
  import opened Wrappers

  /** Python's `int(x)` on a float: truncation toward zero. */
  function Trunc(x: real): (r: int)
    ensures x - 1.0 < r as real
    ensures 0.0 <= x ==> r as real <= x
    ensures x <= 0.0 ==> x <= r as real
    ensures x <= 0.0 ==> r as real < x + 1.0
  {
    if x >= 0.0 then x.Floor else -((-x).Floor)
  }

  /** Python's `a // b` on ints: floor division, for either sign of `b`. */
  function FloorDiv(a: int, b: int): (q: int)
    requires b != 0
    ensures b > 0 ==> q * b <= a < q * b + b
  {
    if b > 0 then a / b else (-a) / (-b)
  }

  /** `int(v + divisor / 2) // divisor * divisor`: `v` rounded half up to a
      multiple of `divisor`, before the floor and the bump are applied. */
  function RoundToMultiple(v: real, divisor: int): int
    requires divisor != 0
  {
    FloorDiv(Trunc(v + divisor as real / 2.0), divisor) * divisor
  }

  /** `_make_divisible(v, divisor, min_value)`; `None` stands for the default
      `min_value`, which is `divisor`. */
  function MakeDivisible(v: real, divisor: int, minValue: Option<int>): int
    requires divisor != 0
  {
    var floor := if minValue.None? then divisor else minValue.value;
    var rounded := RoundToMultiple(v, divisor);
    var newV := if floor >= rounded then floor else rounded;
    if (newV as real) < 0.9 * v then newV + divisor else newV
  }

  /** `InvertedResidualConfig.adjust_channels(channels, width_mult)`. */
  function AdjustChannels(channels: int, widthMult: real): int {
    MakeDivisible(channels as real * widthMult, 8, None)
  }

  lemma MultipleMod(q: int, d: int)
    requires d > 0
    ensures (q * d) % d == 0
  {
    DivOfMultiple(q, 0, d);
  }

  /** Adding less than one step to a multiple of `d` does not change the
      quotient. */
  lemma DivOfMultiple(q: int, h: int, d: int)
    requires d > 0 && 0 <= h < d
    ensures (q * d + h) / d == q
    ensures (q * d + h) % d == h
  {
    var n := q * d + h;
    var k := n / d - q;
    assert n == (n / d) * d + n % d;
    assert n % d == h - k * d;
  }

  lemma FloorOfIntPlusFraction(k: int, f: real)
    requires 0.0 <= f < 1.0
    ensures (k as real + f).Floor == k
  {
  }

  /** The rounded value is a multiple of `divisor` lying within half a step
      below `v`, and, for non-negative `v`, not above `v + divisor / 2`. */
  lemma {:induction false} RoundToMultipleBounds(v: real, d: int)
    requires d > 0
    ensures RoundToMultiple(v, d) % d == 0
    ensures v - d as real / 2.0 < RoundToMultiple(v, d) as real
    ensures 0.0 <= v ==> RoundToMultiple(v, d) as real <= v + d as real / 2.0
  {
    var t := Trunc(v + d as real / 2.0);
    var q := FloorDiv(t, d);
    MultipleMod(q, d);
    assert q * d > t - d;
    assert (q * d) as real > t as real - d as real;
  }

  /** With the default `min_value` the result is a positive multiple of the
      divisor, at least one divisor step. */
  lemma {:induction false} MultipleOfDivisor(v: real, d: int)
    requires d > 0
    ensures MakeDivisible(v, d, None) % d == 0
    ensures MakeDivisible(v, d, None) >= d
  {
    RoundToMultipleBounds(v, d);
    var rounded := RoundToMultiple(v, d);
    var newV := if d >= rounded then d else rounded;
    assert newV % d == 0;
    assert (newV + d) % d == 0 by {
      MultipleMod(newV / d + 1, d);
      assert newV == (newV / d) * d;
      assert newV + d == (newV / d + 1) * d;
    }
  }

  /** With an explicit `min_value` the result is only guaranteed to be at
      least `min_value`. */
  lemma {:induction false} AtLeastMinValue(v: real, d: int, m: int)
    requires d > 0
    ensures MakeDivisible(v, d, Some(m)) >= m
  {
  }

  /** An explicit `min_value` that is not a multiple of the divisor can come
      back unrounded. */
  lemma ExplicitMinNotRounded()
    ensures MakeDivisible(0.0, 8, Some(3)) == 3
    ensures MakeDivisible(0.0, 8, Some(3)) % 8 != 0
  {
    assert Trunc(4.0) == 4;
  }

  /** Rounding never loses more than 10% of a non-negative `v`, and never
      exceeds `v` by more than one divisor step unless the floor
      `min_value` is what was returned. */
  lemma {:induction false} LosesAtMostTenPercent(v: real, d: int, minValue: Option<int>)
    requires d > 0
    requires 0.0 <= v
    ensures 0.9 * v <= MakeDivisible(v, d, minValue) as real
    ensures var floor := if minValue.None? then d else minValue.value;
            MakeDivisible(v, d, minValue) as real <= v + d as real
            || MakeDivisible(v, d, minValue) == floor
  {
    RoundToMultipleBounds(v, d);
  }

  /** The `+divisor` bump fires only when the floored, rounded value is below
      90% of `v`, and then lifts the result above `v`. */
  lemma {:induction false} BumpOnlyWhenShort(v: real, d: int, minValue: Option<int>)
    requires d > 0
    requires 0.0 <= v
    ensures var floor := if minValue.None? then d else minValue.value;
            var r := MakeDivisible(v, d, minValue);
            var rounded := RoundToMultiple(v, d);
            var newV := if floor >= rounded then floor else rounded;
            (r != newV <==> (newV as real) < 0.9 * v) &&
            (r != newV ==> r == newV + d && v < r as real)
  {
    RoundToMultipleBounds(v, d);
  }

  /** A non-negative multiple of the divisor that is at least `min_value` is a
      fixed point. */
  lemma {:induction false} FixedPoint(n: int, d: int, minValue: Option<int>)
    requires d > 0
    requires n >= 0 && n % d == 0
    requires minValue.None? ==> n >= d
    requires minValue.Some? ==> n >= minValue.value
    ensures MakeDivisible(n as real, d, minValue) == n
  {
    var q := n / d;
    var h := d / 2;
    var x := n as real + d as real / 2.0;
    assert x == (n + h) as real + (d % 2) as real / 2.0;
    FloorOfIntPlusFraction(n + h, (d % 2) as real / 2.0);
    assert Trunc(x) == n + h;
    assert n == q * d;
    DivOfMultiple(q, h, d);
    assert FloorDiv(n + h, d) == q;
    assert RoundToMultiple(n as real, d) == n;
  }

  /** `_make_divisible` with the default `min_value` is idempotent. */
  lemma {:induction false} Idempotent(v: real, d: int)
    requires d > 0
    ensures var r := MakeDivisible(v, d, None);
            MakeDivisible(r as real, d, None) == r
  {
    var r := MakeDivisible(v, d, None);
    MultipleOfDivisor(v, d);
    FixedPoint(r, d, None);
  }

  /** With an explicit `min_value` idempotence fails: 5 comes back from the
      floor, and rounding 5 again gives 8. */
  lemma ExplicitMinNotIdempotent()
    ensures MakeDivisible(0.0, 8, Some(5)) == 5
    ensures MakeDivisible(5.0, 8, Some(5)) == 8
  {
    assert Trunc(4.0) == 4;
    assert Trunc(9.0) == 9;
  }

  /** `adjust_channels` yields a multiple of 8 that is at least 8, and leaves
      a channel count that already is one unchanged at width 1.0. */
  lemma {:induction false} AdjustChannelsProperties(channels: int, widthMult: real)
    ensures AdjustChannels(channels, widthMult) % 8 == 0
    ensures AdjustChannels(channels, widthMult) >= 8
    ensures widthMult == 1.0 && channels >= 8 && channels % 8 == 0 ==>
              AdjustChannels(channels, widthMult) == channels
  {
    MultipleOfDivisor(channels as real * widthMult, 8);
    if widthMult == 1.0 && channels >= 8 && channels % 8 == 0 {
      assert channels as real * widthMult == channels as real;
      FixedPoint(channels, 8, None);
    }
  }
}
