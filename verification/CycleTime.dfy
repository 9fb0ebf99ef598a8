/** Nanoseconds to counter cycles: the scale chosen at detection, the conversion, and how far the
    two floor divisions can push a budget away from `ns * hz / 10^9`. */
module CycleTime {
  import opened Words

  const NANOSECONDS_IN_SECOND: int := 1_000_000_000
  const FINE_SCALE: int := 10_000

  /** The two fields the conversion reads. */
  datatype Scale = Scale(multiplier: u64, divisor: u64)

  predicate Multiplier(m: u64) {
    m == 1 || m == FINE_SCALE
  }

  /** `10^9 * m / hz` */
  function DivisorFor(m: u64, hz: u64): u64
    requires Multiplier(m) && hz > 0
  {
    QuotientAtMost(NANOSECONDS_IN_SECOND * m, hz);
    NANOSECONDS_IN_SECOND * m / hz
  }

  /** `nanoseconds * multiplier / divisor`, with the product taken in 64 bits. A zero divisor is
      outside of what C defines. */
  function CyclesOf(scale: Scale, nanoseconds: u64): u64
    requires scale.divisor > 0
  {
    var product := nanoseconds * scale.multiplier % U64_LIMIT;
    QuotientAtMost(product, scale.divisor);
    product / scale.divisor
  }

  // ----- division -----

  lemma QuotientBounds(a: int, d: int)
    requires d > 0
    ensures a / d * d <= a < a / d * d + d
  {
    assert a == a / d * d + a % d;
  }

  lemma QuotientAtMost(a: int, d: int)
    requires a >= 0 && d > 0
    ensures 0 <= a / d <= a
  {
    QuotientBounds(a, d);
    var q := a / d;
    if q > a {
      MulMonotone(a + 1, q, d);
      MulMonotone(1, d, a + 1);
    }
    if q < 0 {
      MulMonotone(q, -1, d);
    }
  }

  lemma MulMonotone(a: int, b: int, c: int)
    requires a <= b && c >= 0
    ensures a * c <= b * c
  {
  }

  lemma QuotientAtLeast(q: int, a: int, d: int)
    requires d > 0 && q * d <= a
    ensures q <= a / d
  {
    QuotientBounds(a, d);
    if q > a / d {
      MulMonotone(a / d + 1, q, d);
    }
  }

  // ----- the divisor -----

  /** The divisor is within one of the exact quotient, and is zero exactly when the counter is
      faster than the scale. */
  lemma DivisorBounds(m: u64, hz: u64)
    requires Multiplier(m) && hz > 0
    ensures var d := DivisorFor(m, hz);
            && d * hz <= NANOSECONDS_IN_SECOND * m < d * hz + hz
            && (d == 0 <==> hz > NANOSECONDS_IN_SECOND * m)
  {
    var s := NANOSECONDS_IN_SECOND * m;
    QuotientBounds(s, hz);
    var d := DivisorFor(m, hz);
    if d > 0 {
      MulMonotone(1, d, hz);
    }
  }

  lemma CancelFactor(a: int, b: int, c: int)
    requires c > 0 && a * c <= b * c
    ensures a <= b
  {
    if a > b {
      MulMonotone(b + 1, a, c);
    }
  }

  /** What a caller is promised, at least the whole cycles in the time asked for, is kept exactly
      when the product fits in 64 bits. */
  lemma NeverShortIff(m: u64, hz: u64, ns: u64)
    requires Multiplier(m) && 0 < hz <= NANOSECONDS_IN_SECOND * m
    ensures var d := DivisorFor(m, hz);
            && d > 0
            && (CyclesOf(Scale(m, d), ns) >= ns * hz / NANOSECONDS_IN_SECOND <==> ns * m < U64_LIMIT)
  {
    DivisorBounds(m, hz);
    var d := DivisorFor(m, hz);
    if ns * m < U64_LIMIT {
      NestedFloor(NANOSECONDS_IN_SECOND, ns, hz, m, d);
    } else {
      QuotientAtMost(NANOSECONDS_IN_SECOND * m, hz);
      WrappedProduct(NANOSECONDS_IN_SECOND, ns, hz, m, d);
    }
  }

  /** The budget covers the whole cycles in the time asked for. */
  predicate Covers(scale: Scale, hz: u64, nanoseconds: u64) {
    scale.divisor > 0 && CyclesOf(scale, nanoseconds) >= nanoseconds * hz / 1_000_000_000
  }

  ghost predicate CoversAll(scale: Scale, hz: u64) {
    forall ns: u64 :: Covers(scale, hz, ns)
  }

  ghost predicate CoversWhatFits(scale: Scale, hz: u64) {
    forall ns: u64 :: Covers(scale, hz, ns) <==> ns * 10_000 < 0x1_0000_0000_0000_0000
  }

  /** Up to 1 GHz the coarse scale covers every request, because no product wraps. */
  lemma CoarseScaleCovers(hz: u64)
    requires 0 < hz <= 1_000_000_000
    ensures DivisorFor(1, hz) == 1_000_000_000 / hz
    ensures CoversAll(Scale(1, DivisorFor(1, hz)), hz)
  {
    forall ns: u64
      ensures Covers(Scale(1, DivisorFor(1, hz)), hz, ns)
    {
      NeverShortIff(1, hz, ns);
    }
  }

  /** The fine scale covers exactly the requests whose product fits. */
  lemma FineScaleCovers(hz: u64)
    requires 0 < hz <= 10_000_000_000_000
    ensures DivisorFor(10_000, hz) == 10_000_000_000_000 / hz
    ensures CoversWhatFits(Scale(10_000, DivisorFor(10_000, hz)), hz)
  {
    forall ns: u64
      ensures Covers(Scale(10_000, DivisorFor(10_000, hz)), hz, ns) <==> ns * 10_000 < 0x1_0000_0000_0000_0000
    {
      NeverShortIff(10_000, hz, ns);
    }
  }

  /** A wrapped product loses more than the rounded divisor gives back. */
  lemma WrappedProduct(b: nat, n: nat, h: nat, m: nat, d: nat)
    requires 0 < b && 0 < h < U64_LIMIT && 0 < m && 0 < d <= 0x1_0000_0000_0000
    requires b * m < d * h + h
    requires n * m >= U64_LIMIT
    ensures n * m % U64_LIMIT / d < n * h / b
  {
    var p := n * m;
    var r := p % U64_LIMIT;
    QuotientBounds(r, d);
    QuotientAtMost(r, d);
    QuotientBounds(p, U64_LIMIT);
    LossExceedsGain(b * m, h, d, p, r, r / d);
    CancelScale(r / d + 1, b, n, h, m);
    QuotientAtLeast(r / d + 1, n * h, b);
  }

  lemma LossExceedsGain(s: nat, h: nat, d: nat, p: nat, r: nat, c: nat)
    requires h < U64_LIMIT && 0 < d <= 0x1_0000_0000_0000 && s < d * h + h
    requires r < U64_LIMIT && r + U64_LIMIT <= p && c * d <= r
    ensures (c + 1) * s <= p * h
  {
    if d == 1 && c == U64_LIMIT - 1 {
      MulMonotone(s, 2 * h - 1, c + 1);
      MulMonotone(2 * U64_LIMIT - 1, p, h);
    } else {
      if d >= 2 {
        MulMonotone(2, d, c);
      }
      var e := d + 1;
      assert (c + 1) * e == c * d + c + d + 1;
      MulMonotone(s, e * h, c + 1);
      assert (c + 1) * (e * h) == ((c + 1) * e) * h;
      MulMonotone((c + 1) * e, p, h);
    }
  }

  lemma CancelScale(c: nat, b: nat, n: nat, h: nat, m: nat)
    requires m > 0 && c * (b * m) <= n * m * h
    ensures c * b <= n * h
  {
    assert c * (b * m) == (c * b) * m;
    assert n * m * h == (n * h) * m;
    CancelFactor(c * b, n * h, m);
  }

  lemma NestedFloor(b: nat, n: nat, h: nat, m: nat, d: nat)
    requires b > 0 && h > 0 && d > 0 && d * h <= b * m
    ensures n * h / b <= n * m / d
  {
    var time := n * h;
    QuotientBounds(time, b);
    QuotientAtMost(time, b);
    ScaledFloor(time / b, b, n, h, m, d);
    QuotientAtLeast(time / b, n * m, d);
  }

  /** Scaling up and dividing by the rounded divisor loses nothing that a floor had kept. */
  lemma ScaledFloor(q: nat, b: nat, n: nat, h: nat, m: nat, d: nat)
    requires h > 0 && q * b <= n * h && d * h <= b * m
    ensures q * d <= n * m
  {
    calc {
      (q * d) * h;
    ==
      (d * h) * q;
    <= { MulMonotone(d * h, b * m, q); }
      (b * m) * q;
    ==
      (q * b) * m;
    <= { MulMonotone(q * b, n * h, m); }
      (n * h) * m;
    ==
      (n * m) * h;
    }
    CancelFactor(q * d, n * m, h);
  }

  /** The budget overshoots by at most the relative error of the divisor. */
  lemma OvershootBound(m: u64, hz: u64, ns: u64)
    requires Multiplier(m) && 0 < hz <= NANOSECONDS_IN_SECOND * m
    requires ns * m < U64_LIMIT
    ensures var d := DivisorFor(m, hz);
            && d > 0
            && CyclesOf(Scale(m, d), ns) * (NANOSECONDS_IN_SECOND * m - hz) <= ns * m * hz
            && CyclesOf(Scale(m, d), ns) * (NANOSECONDS_IN_SECOND * m) <= 2 * (ns * m * hz)
  {
    DivisorBounds(m, hz);
    Overshoot(NANOSECONDS_IN_SECOND * m, hz, DivisorFor(m, hz), ns * m);
  }

  lemma Overshoot(s: nat, h: nat, d: nat, p: nat)
    requires d > 0 && h > 0 && d * h <= s < d * h + h
    ensures p / d * (s - h) <= p * h
    ensures p / d * s <= 2 * (p * h)
  {
    QuotientBounds(p, d);
    QuotientAtMost(p, d);
    Regroup(p / d, d, p, h);
    MulMonotone(1, d, h);
    Squeeze(s, h, d * h, p / d, p * h);
  }

  lemma Regroup(c: nat, d: nat, p: nat, h: nat)
    requires c * d <= p
    ensures c * (d * h) <= p * h
  {
    MulMonotone(c * d, p, h);
    assert c * (d * h) == (c * d) * h;
  }

  lemma Squeeze(s: nat, h: nat, near: nat, c: nat, bound: nat)
    requires h <= near <= s < near + h && c * near <= bound
    ensures c * (s - h) <= bound && c * s <= 2 * bound
  {
    MulMonotone(s - h, near, c);
    MulMonotone(s, 2 * near, c);
    assert c * (2 * near) == 2 * (c * near);
  }

  /** A counter that divides the scaled second evenly is converted exactly. */
  lemma ExactWhenDivides(m: u64, hz: u64, ns: u64)
    requires Multiplier(m) && 0 < hz <= NANOSECONDS_IN_SECOND * m
    requires (NANOSECONDS_IN_SECOND * m) % hz == 0
    requires ns * m < U64_LIMIT
    ensures DivisorFor(m, hz) > 0
    ensures CyclesOf(Scale(m, DivisorFor(m, hz)), ns) == ns * hz / NANOSECONDS_IN_SECOND
  {
    DivisorBounds(m, hz);
    NeverShortIff(m, hz, ns);
    var d := DivisorFor(m, hz);
    var c := CyclesOf(Scale(m, d), ns);
    QuotientBounds(ns * m, d);
    QuotientAtMost(ns * m, d);
    EvenDivisor(c, d, ns, m, hz, NANOSECONDS_IN_SECOND);
    QuotientAtLeast(c, ns * hz, NANOSECONDS_IN_SECOND);
  }

  lemma EvenDivisor(c: nat, d: nat, n: nat, m: nat, h: nat, b: nat)
    requires m > 0 && d * h == b * m && c * d <= n * m
    ensures c * b <= n * h
  {
    calc {
      (c * b) * m;
    == { assert (c * b) * m == c * (b * m); }
      c * (d * h);
    ==
      (c * d) * h;
    <= { MulMonotone(c * d, n * m, h); }
      (n * m) * h;
    ==
      (n * h) * m;
    }
    CancelFactor(c * b, n * h, m);
  }

  /** An input that breaks the promise: on a 2 GHz counter a request of 2^60 ns
      (36 years) wraps to a budget of 0 cycles. */
  lemma ProductWrapIsShort()
    ensures CyclesOf(Scale(FINE_SCALE, DivisorFor(FINE_SCALE, 2_000_000_000)), 0x1000_0000_0000_0000) == 0
    ensures 0x1000_0000_0000_0000 * 2_000_000_000 / NANOSECONDS_IN_SECOND == 0x2000_0000_0000_0000
  {
    var d := DivisorFor(FINE_SCALE, 2_000_000_000);
    assert d == 5_000;
    var product := 0x1000_0000_0000_0000 * FINE_SCALE;
    assert product == 625 * U64_LIMIT;
    assert product % U64_LIMIT == 0;
    QuotientAtMost(0, d);
  }

  /** Elapsed cycles at or past the budget leave the elapsed time short of the request by less than
      one tick of the counter. */
  lemma LessThanOneTickShort(hz: u64, ns: u64, cycles: nat, elapsed: nat)
    requires cycles >= ns * hz / NANOSECONDS_IN_SECOND && elapsed >= cycles
    ensures (elapsed + 1) * NANOSECONDS_IN_SECOND > ns * hz
  {
    QuotientBounds(ns * hz, NANOSECONDS_IN_SECOND);
  }
}
