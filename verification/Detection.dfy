/** Detection of the counter frequency: the two `detect_cycle_counter_frequency` functions and the
    time-stamp-counter calibration. */
module Detection {
  import opened Words
  import opened CycleTime

  datatype Option<+T> = None | Some(value: T)

  const NANOSECONDS_IN_MILLISECOND: int := 1_000_000
  const ROUNDS: nat := 5

  /** A reading of the monotonic clock. */
  datatype Timespec = Timespec(sec: nat, nsec: nat)

  ghost predicate ClockReading(t: Timespec) {
    t.nsec < NANOSECONDS_IN_SECOND
  }

  function Nanoseconds(t: Timespec): nat {
    t.sec * NANOSECONDS_IN_SECOND + t.nsec
  }

  /** What one calibration round observes, in the order it observes it: the counter, the clock, the
      clock again and again, and the counter after the reading that ends the inner loop. */
  datatype Round = Round(counterBefore: u64, start: Timespec, polls: seq<Timespec>, counterAfter: u64)

  /** The inner loop's guard compares nanosecond fields only. */
  predicate StillSpinning(start: Timespec, end: Timespec) {
    end.nsec < start.nsec + NANOSECONDS_IN_MILLISECOND
  }

  /** The reading that ends the inner loop is `polls[k]`. */
  ghost predicate EndsAt(r: Round, k: nat) {
    && k < |r.polls|
    && !StillSpinning(r.start, r.polls[k])
    && forall j :: 0 <= j < k ==> StillSpinning(r.start, r.polls[j])
  }

  ghost predicate Ends(r: Round) {
    exists k: nat :: EndsAt(r, k)
  }

  /** What the counter has advanced by, if it wrapped at most once. */
  function CounterDifference(r: Round): (difference: u64)
    ensures r.counterBefore <= r.counterAfter ==> difference == r.counterAfter - r.counterBefore
    ensures r.counterBefore > r.counterAfter ==>
              difference == r.counterAfter + 0x1_0000_0000_0000_0000 - r.counterBefore
  {
    (r.counterAfter - r.counterBefore + U64_LIMIT) % U64_LIMIT
  }

  /** What a counter that runs at `rate` counts at least over an interval that contains `elapsed`
      nanoseconds: the whole cycles in them. */
  function WholeCycles(rate: nat, elapsed: nat): nat {
    QuotientBounds(rate * elapsed, NANOSECONDS_IN_SECOND);
    rate * elapsed / NANOSECONDS_IN_SECOND
  }

  /** The readings of a clock that does not go back. */
  ghost predicate Monotonic(r: Round) {
    && ClockReading(r.start)
    && forall k | 0 <= k < |r.polls| ::
         ClockReading(r.polls[k]) && Nanoseconds(r.start) <= Nanoseconds(r.polls[k])
  }

  /** The counter runs at `rate` and does not wrap. */
  ghost predicate CountsAt(r: Round, rate: nat)
    requires Monotonic(r)
  {
    && r.counterBefore <= r.counterAfter
    && forall k: nat | EndsAt(r, k) ::
         r.counterAfter - r.counterBefore
         >= WholeCycles(rate, Nanoseconds(r.polls[k]) - Nanoseconds(r.start))
  }

  ghost predicate Physical(r: Round, rate: nat) {
    Monotonic(r) && CountsAt(r, rate)
  }

  class Features {
    var cycleHz: u64
    var multiplier: u64
    var divisor: u64

    constructor ()
      ensures cycleHz == 0 && multiplier == 1 && divisor == 1
    {
      cycleHz, multiplier, divisor := 0, 1, 1;
    }

    /** The scale was chosen for `hz`. */
    ghost predicate DetectedFor(hz: u64)
      reads this
    {
      && cycleHz == hz > 0
      && Multiplier(multiplier)
      && divisor == DivisorFor(multiplier, hz)
    }

    /** ARM: the frequency register is trusted. `ok` is false when the division is by zero, which C leaves
        undefined. Up to 1 GHz what is left converts every request, above it exactly those whose product
        with 10000 fits in 64 bits. */
    method DetectArm(frequencyRegister: u64) returns (ok: bool)
      modifies this
      ensures cycleHz == frequencyRegister
      ensures ok <==> frequencyRegister > 0
      ensures ok ==> DetectedFor(frequencyRegister)
      ensures ok && frequencyRegister <= 1_000_000_000 ==>
                && multiplier == 1 && divisor == 1_000_000_000 / frequencyRegister
                && CoversAll(Scale(multiplier, divisor), frequencyRegister)
      ensures ok && frequencyRegister > 1_000_000_000 ==>
                && multiplier == 10_000 && divisor == 10_000_000_000_000 / frequencyRegister
                && (divisor > 0 <==> frequencyRegister <= 10_000_000_000_000)
                && (divisor > 0 ==> CoversWhatFits(Scale(multiplier, divisor), frequencyRegister))
    {
      cycleHz := frequencyRegister;
      if cycleHz > NANOSECONDS_IN_SECOND {
        multiplier := FINE_SCALE;
        divisor := DivisorFor(FINE_SCALE, cycleHz);
        DivisorBounds(FINE_SCALE, cycleHz);
        if divisor > 0 {
          FineScaleCovers(cycleHz);
        }
      } else {
        multiplier := 1;
        if cycleHz == 0 {
          return false;
        }
        divisor := DivisorFor(1, cycleHz);
        CoarseScaleCovers(cycleHz);
      }
      ok := true;
    }

    /** x86: the reported frequency if there is one, else calibration, and always the fine scale. */
    method DetectX86(reported: Option<u64>, rounds: seq<Round>) returns (outcome: Outcome)
      requires |rounds| == 5
      modifies this
      ensures outcome.Detected? ==>
                && DetectedFor(cycleHz)
                && multiplier == 10_000 && divisor == 10_000_000_000_000 / cycleHz
                && (divisor > 0 <==> cycleHz <= 10_000_000_000_000)
                && (divisor > 0 ==> CoversWhatFits(Scale(multiplier, divisor), cycleHz))
      ensures reported.Some? ==> cycleHz == reported.value && !outcome.NeverReturns?
      ensures reported.None? ==>
                (outcome.NeverReturns? <==> exists i :: 0 <= i < 5 && !Ends(rounds[i]))
      ensures reported.None? && !outcome.NeverReturns? ==> Calibrated(rounds, cycleHz) && NoHigher(rounds, cycleHz)
      ensures outcome.DividesByZero? <==> !outcome.NeverReturns? && cycleHz == 0
    {
      if reported.Some? {
        cycleHz := reported.value;
      } else {
        var least := Calibrate(rounds);
        if least.None? {
          return NeverReturns;
        }
        cycleHz := least.value * 1000 % U64_LIMIT;
        CalibratedNoHigher(rounds, cycleHz);
      }
      multiplier := FINE_SCALE;
      if cycleHz == 0 {
        return DividesByZero;
      }
      divisor := DivisorFor(FINE_SCALE, cycleHz);
      DivisorBounds(FINE_SCALE, cycleHz);
      if divisor > 0 {
        FineScaleCovers(cycleHz);
      }
      outcome := Detected;
    }
  }

  /** What a division by zero does, C leaves undefined. */
  datatype Outcome = Detected | DividesByZero | NeverReturns

  ghost predicate IsLeastDifference(rounds: seq<Round>, least: u64) {
    && (forall i :: 0 <= i < |rounds| ==> Ends(rounds[i]) && least <= CounterDifference(rounds[i]))
    && exists i :: 0 <= i < |rounds| && least == CounterDifference(rounds[i])
  }

  /** The frequency that calibration computes from its rounds. */
  ghost predicate Calibrated(rounds: seq<Round>, hz: u64) {
    exists least: u64 :: IsLeastDifference(rounds, least) && hz == least * 1000 % U64_LIMIT
  }

  /** No more than a thousand times what any round counted. */
  ghost predicate NoHigher(rounds: seq<Round>, hz: u64) {
    forall i :: 0 <= i < |rounds| && rounds[i].counterBefore <= rounds[i].counterAfter ==>
      hz <= 1000 * (rounds[i].counterAfter - rounds[i].counterBefore)
  }

  lemma ProductAtMost(least: u64, hz: u64)
    requires hz == least * 1000 % U64_LIMIT
    ensures hz <= 1000 * least
  {
  }

  lemma CalibratedNoHigher(rounds: seq<Round>, hz: u64)
    requires Calibrated(rounds, hz)
    ensures NoHigher(rounds, hz)
  {
    var least: u64 :| IsLeastDifference(rounds, least) && hz == least * 1000 % U64_LIMIT;
    ProductAtMost(least, hz);
  }

  /** The other bound on a calibrated frequency: if the counter, running at `rate`, advanced between the two
      readings of some round by what fits in `span` nanoseconds, calibration finds at most a thousand times
      that. */
  lemma CalibratedNotHigh(rounds: seq<Round>, hz: u64, i: nat, rate: nat, span: nat)
    requires Calibrated(rounds, hz) && i < |rounds|
    requires 0 <= rounds[i].counterAfter - rounds[i].counterBefore <= WholeCycles(rate, span) + 1
    ensures hz <= 1000 * (WholeCycles(rate, span) + 1)
  {
    CalibratedNoHigher(rounds, hz);
  }

  /** Five rounds, keeping the least counter difference. Without a result, an inner loop ran
      out of readings without one that ends it. */
  method Calibrate(rounds: seq<Round>) returns (least: Option<u64>)
    requires |rounds| == 5
    ensures least.None? <==> exists i :: 0 <= i < 5 && !Ends(rounds[i])
    ensures least.Some? ==> IsLeastDifference(rounds, least.value)
  {
    var rdtscMin: u64 := U64_LIMIT - 1;
    for i := 0 to ROUNDS
      invariant forall j :: 0 <= j < i ==> Ends(rounds[j]) && rdtscMin <= CounterDifference(rounds[j])
      invariant i == 0 ==> rdtscMin == U64_LIMIT - 1
      invariant i > 0 ==> exists j :: 0 <= j < i && rdtscMin == CounterDifference(rounds[j])
    {
      var r := rounds[i];
      var spinning, k := true, 0;
      while spinning && k < |r.polls|
        invariant 0 <= k <= |r.polls|
        invariant spinning ==> forall j :: 0 <= j < k ==> StillSpinning(r.start, r.polls[j])
        invariant !spinning ==> k > 0 && EndsAt(r, k - 1)
      {
        spinning := StillSpinning(r.start, r.polls[k]);
        k := k + 1;
      }
      if spinning {
        return None;
      }
      var difference := CounterDifference(r);
      rdtscMin := if difference <= rdtscMin then difference else rdtscMin;
    }
    least := Some(rdtscMin);
  }

  /** Only the nanosecond fields are compared, so a round that starts in the last millisecond of a second
      can never end. */
  lemma EndsOnlyIfStartedEarly(r: Round)
    requires forall k | 0 <= k < |r.polls| :: ClockReading(r.polls[k])
    ensures Ends(r) ==> r.start.nsec <= 998_999_999
  {
  }

  /** The inner loop reads the clock at least every `gap` nanoseconds. */
  ghost predicate PolledWithin(r: Round, gap: int) {
    forall k | 0 <= k < |r.polls| ::
      Nanoseconds(r.polls[k]) - Nanoseconds(if k == 0 then r.start else r.polls[k - 1]) <= gap
  }

  /** Some reading is a millisecond after the start or later. */
  ghost predicate ReachesAMillisecond(r: Round) {
    exists k :: 0 <= k < |r.polls| && LastsAMillisecond(r, k)
  }

  predicate LastsAMillisecond(r: Round, k: nat)
    requires k < |r.polls|
  {
    Nanoseconds(r.polls[k]) >= Nanoseconds(r.start) + NANOSECONDS_IN_MILLISECOND
  }

  /** When a round does end: if the clock is read at least as often as what is left of the second after the
      millisecond to wait for, the first reading past that millisecond falls into the same second, and a
      round ends if and only if it has one. */
  lemma EndsIfPolledOften(r: Round)
    requires Monotonic(r)
    requires PolledWithin(r, NANOSECONDS_IN_SECOND - NANOSECONDS_IN_MILLISECOND - r.start.nsec)
    ensures Ends(r) <==> ReachesAMillisecond(r)
  {
    if k: nat :| EndsAt(r, k) {
      SpansAMillisecond(r.start, r.polls[k]);
      assert LastsAMillisecond(r, k);
    }
    if k :| 0 <= k < |r.polls| && LastsAMillisecond(r, k) {
      var first := FirstPastAMillisecond(r, k);
      assert first > 0 ==> Nanoseconds(r.polls[first - 1]) < Nanoseconds(r.start) + NANOSECONDS_IN_MILLISECOND;
      SameSecond(r.start, r.polls[first]);
      var end := FirstNotSpinning(r, first);
    }
  }

  lemma SameSecond(start: Timespec, end: Timespec)
    requires ClockReading(start) && ClockReading(end)
    requires Nanoseconds(start) + NANOSECONDS_IN_MILLISECOND <= Nanoseconds(end)
    requires Nanoseconds(end) < start.sec * NANOSECONDS_IN_SECOND + NANOSECONDS_IN_SECOND
    ensures !StillSpinning(start, end)
  {
  }

  lemma {:induction false} FirstPastAMillisecond(r: Round, k: nat) returns (first: nat)
    requires k < |r.polls| && LastsAMillisecond(r, k)
    ensures first <= k && LastsAMillisecond(r, first)
    ensures first == 0 || !LastsAMillisecond(r, first - 1)
  {
    first := k;
    if k > 0 && LastsAMillisecond(r, k - 1) {
      first := FirstPastAMillisecond(r, k - 1);
    }
  }

  lemma {:induction false} FirstNotSpinning(r: Round, k: nat) returns (end: nat)
    requires k < |r.polls| && !StillSpinning(r.start, r.polls[k])
    ensures EndsAt(r, end)
    decreases k
  {
    if j :| 0 <= j < k && !StillSpinning(r.start, r.polls[j]) {
      end := FirstNotSpinning(r, j);
    } else {
      end := k;
    }
  }

  /** A round that ends spans at least a millisecond, although the seconds are never looked at. */
  lemma RoundSpansAMillisecond(r: Round, k: nat, rate: nat)
    requires Physical(r, rate) && EndsAt(r, k)
    ensures Nanoseconds(r.polls[k]) - Nanoseconds(r.start) >= 1_000_000
    ensures CounterDifference(r) >= rate / 1000
  {
    SpansAMillisecond(r.start, r.polls[k]);
    MillisecondOfCycles(rate, Nanoseconds(r.polls[k]) - Nanoseconds(r.start));
    assert CounterDifference(r) == r.counterAfter - r.counterBefore;
  }

  lemma SpansAMillisecond(start: Timespec, end: Timespec)
    requires ClockReading(start) && ClockReading(end)
    requires Nanoseconds(start) <= Nanoseconds(end) && !StillSpinning(start, end)
    ensures Nanoseconds(end) - Nanoseconds(start) >= NANOSECONDS_IN_MILLISECOND
  {
  }

  lemma MillisecondOfCycles(rate: nat, elapsed: nat)
    requires elapsed >= NANOSECONDS_IN_MILLISECOND
    ensures rate / 1000 <= WholeCycles(rate, elapsed)
  {
    QuotientBounds(rate, 1000);
    MulMonotone(NANOSECONDS_IN_MILLISECOND, elapsed, rate);
    QuotientAtLeast(rate / 1000, rate * elapsed, NANOSECONDS_IN_SECOND);
  }

  lemma RoundCoversRate(r: Round, rate: nat)
    requires Physical(r, rate) && Ends(r)
    ensures CounterDifference(r) >= rate / 1000
  {
    var k: nat :| EndsAt(r, k);
    RoundSpansAMillisecond(r, k, rate);
  }

  ghost predicate AllPhysical(rounds: seq<Round>, rate: nat) {
    forall i :: 0 <= i < |rounds| ==> Physical(rounds[i], rate)
  }

  lemma LeastCoversRate(rounds: seq<Round>, least: u64, rate: nat)
    requires IsLeastDifference(rounds, least) && AllPhysical(rounds, rate)
    ensures least >= rate / 1000
  {
    var i :| 0 <= i < |rounds| && least == CounterDifference(rounds[i]);
    RoundCoversRate(rounds[i], rate);
  }

  /** As long as the frequency fits in 64 bits, calibration never puts a constant-rate counter below its
      rate by 1000 Hz or more. */
  lemma FittingCalibration(rounds: seq<Round>, least: u64, rate: nat)
    requires IsLeastDifference(rounds, least) && AllPhysical(rounds, rate)
    ensures least * 1000 < U64_LIMIT ==> least * 1000 % U64_LIMIT > rate - 1000
  {
    LeastCoversRate(rounds, least, rate);
    ThousandMilliseconds(least, rate);
  }

  lemma ThousandMilliseconds(least: u64, rate: nat)
    requires least >= rate / 1000
    ensures least * 1000 < U64_LIMIT ==> least * 1000 % U64_LIMIT > rate - 1000
  {
    QuotientBounds(rate, 1000);
  }

  /** Some round counted so little that its frequency fits in 64 bits. */
  ghost predicate CalibrationFits(rounds: seq<Round>) {
    exists i :: 0 <= i < |rounds| && CounterDifference(rounds[i]) * 1000 < U64_LIMIT
  }

  lemma CalibratedRate(rounds: seq<Round>, hz: u64, rate: nat)
    requires Calibrated(rounds, hz) && AllPhysical(rounds, rate) && CalibrationFits(rounds)
    ensures hz > rate - 1000
  {
    var least: u64 :| IsLeastDifference(rounds, least) && hz == least * 1000 % U64_LIMIT;
    FittingCalibration(rounds, least, rate);
  }

  /** Five rounds of a millisecond and `least` cycles each. */
  function MillisecondRounds(least: u64): seq<Round> {
    seq(ROUNDS, i => Round(0, Timespec(0, 0), [Timespec(0, NANOSECONDS_IN_MILLISECOND)], least))
  }

  lemma MillisecondRound(least: u64)
    ensures var r := Round(0, Timespec(0, 0), [Timespec(0, NANOSECONDS_IN_MILLISECOND)], least);
            EndsAt(r, 0) && CounterDifference(r) == least && Physical(r, 1000 * least)
  {
    var r := Round(0, Timespec(0, 0), [Timespec(0, NANOSECONDS_IN_MILLISECOND)], least);
    assert r.polls[0] == Timespec(0, NANOSECONDS_IN_MILLISECOND);
    assert WholeCycles(1000 * least, NANOSECONDS_IN_MILLISECOND) == least;
  }

  /** Where the frequency does not fit, a counter of the rate calibration should have found comes out low by
      2^64 Hz at least. */
  lemma WrappedCalibrationIsLow(least: u64)
    requires least * 1000 >= U64_LIMIT
    ensures IsLeastDifference(MillisecondRounds(least), least)
    ensures AllPhysical(MillisecondRounds(least), 1000 * least)
    ensures least * 1000 % U64_LIMIT <= 1000 * least - U64_LIMIT
  {
    MillisecondRound(least);
    assert MillisecondRounds(least)[0].counterAfter == least;
  }

  /** Whatever five physical rounds with that least difference are observed, at whatever rate they admit,
      calibration does not find 1000 Hz less or lower. */
  ghost predicate NeverLow(least: u64) {
    forall rounds: seq<Round>, rate: nat ::
      |rounds| == ROUNDS && IsLeastDifference(rounds, least) && AllPhysical(rounds, rate) ==>
        least * 1000 % U64_LIMIT > rate - 1000
  }

  /** Calibration keeps that promise if and only if the frequency fits in 64 bits. */
  lemma CalibrationNeverLow(least: u64)
    ensures NeverLow(least) <==> least * 1000 < U64_LIMIT
  {
    if least * 1000 < U64_LIMIT {
      forall rounds: seq<Round>, rate: nat |
        |rounds| == ROUNDS && IsLeastDifference(rounds, least) && AllPhysical(rounds, rate)
        ensures least * 1000 % U64_LIMIT > rate - 1000
      {
        FittingCalibration(rounds, least, rate);
      }
    } else {
      WrappedCalibrationIsLow(least);
    }
  }
}
