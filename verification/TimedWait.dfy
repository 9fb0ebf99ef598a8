/** Timed waits end to end: detection, conversion, and the loop of whichever backend is installed. */
module TimedWait {
  import opened Words
  import opened WaitEngine
  import opened WaitLoops
  import opened CycleTime
  import opened Detection

  /** A wait that ended at or past its deadline took the time asked for, less than one tick short. */
  lemma TimeoutCoversRequest(m: u64, hz: u64, ns: u64, elapsed: nat)
    requires Multiplier(m) && 0 < hz <= NANOSECONDS_IN_SECOND * m && ns * m < U64_LIMIT
    requires DivisorFor(m, hz) > 0
    requires elapsed >= CyclesOf(Scale(m, DivisorFor(m, hz)), ns)
    ensures (elapsed + 1) * NANOSECONDS_IN_SECOND > ns * hz
  {
    NeverShortIff(m, hz, ns);
    LessThanOneTickShort(hz, ns, CyclesOf(Scale(m, DivisorFor(m, hz)), ns), elapsed);
  }

  /** The same against the true rate of a counter that runs less than 1000 Hz faster than was detected. */
  lemma CalibratedTimeoutCoversRequest(rate: nat, hz: u64, ns: u64, elapsed: nat)
    requires 0 < hz <= NANOSECONDS_IN_SECOND * FINE_SCALE && ns * FINE_SCALE < U64_LIMIT
    requires DivisorFor(FINE_SCALE, hz) > 0
    requires elapsed >= CyclesOf(Scale(FINE_SCALE, DivisorFor(FINE_SCALE, hz)), ns)
    requires hz > rate - 1000
    ensures (elapsed + 1) * NANOSECONDS_IN_SECOND > ns * (rate - 1000)
  {
    TimeoutCoversRequest(FINE_SCALE, hz, ns, elapsed);
    MulMonotone(rate - 1000, hz, ns);
  }

  /** The call through the installed function pointer, for a budget in cycles. */
  method Dispatch(core: Core, goal: Goal, cycles: u64) returns (r: TimedResult)
    requires GoalOk(goal) && core.Faithful()
    modifies core
    ensures core.TimedContract(goal, cycles, r)
  {
    match core.backend
    case Spin => r := core.SpinTimedWait(goal, cycles);
    case MonitorX => r := core.MwaitxTimedWait(goal, cycles);
    case WaitPkg => r := core.UmwaitTimedWait(goal, cycles);
    case Wfe => r := core.WfeTimedWait(goal, cycles);
    case Wfet => r := core.WfeTimedWait(goal, cycles);
  }

  /** wfe_mutex_wait_for_value_timeout_i32 */
  method WaitForValueTimeout(core: Core, features: Features, value: u32, ns: u64) returns (r: TimedResult)
    requires core.Faithful() && features.DetectedFor(features.cycleHz) && features.divisor > 0
    modifies core
    ensures core.TimedContract(Equals(value), CyclesOf(Scale(features.multiplier, features.divisor), ns), r)
    ensures r.TimedOut? ==>
              (core.world.clock - core.at.w.begun >= core.at.w.budget.cycles <==>
               core.at.w.begun + core.at.w.budget.cycles < U64_LIMIT)
    ensures r.TimedOut?
            && ns * features.multiplier < U64_LIMIT
            && core.at.w.begun + core.at.w.budget.cycles < U64_LIMIT ==>
              (core.world.clock - core.at.w.begun + 1) * NANOSECONDS_IN_SECOND > ns * features.cycleHz
  {
    var cycles := CyclesOf(Scale(features.multiplier, features.divisor), ns);
    r := Dispatch(core, Equals(value), cycles);
    if r.TimedOut? {
      DivisorBounds(features.multiplier, features.cycleHz);
      if ns * features.multiplier < U64_LIMIT && core.at.w.begun + cycles < U64_LIMIT {
        TimeoutCoversRequest(features.multiplier, features.cycleHz, ns, core.world.clock - core.at.w.begun);
      }
    }
  }

  /** Detection on x86 without a reported frequency, then a wait. Without a result there is no wait: a
      calibration round never ends, or one of the two divisions is by zero. A wait that times out has taken
      the time asked for, on a counter that runs at `rate`, up to one tick and the 1000 Hz that
      calibration may lose, unless one of the three 64-bit results on the way wrapped. */
  method CalibrateAndWait(core: Core, features: Features, rounds: seq<Round>, value: u32, ns: u64, ghost rate: nat)
    returns (r: Option<TimedResult>)
    requires core.Faithful() && |rounds| == 5 && AllPhysical(rounds, rate)
    modifies core, features
    ensures r.None? <==>
              || (exists i :: 0 <= i < 5 && !Ends(rounds[i]))
              || features.cycleHz == 0
              || features.cycleHz > 10_000_000_000_000
    ensures r.Some? ==>
              && features.divisor > 0
              && core.TimedContract(Equals(value), CyclesOf(Scale(FINE_SCALE, features.divisor), ns), r.value)
    ensures r == Some(TimedOut) && CalibrationFits(rounds)
            && ns * FINE_SCALE < U64_LIMIT
            && core.at.w.begun + core.at.w.budget.cycles < U64_LIMIT ==>
              (core.world.clock - core.at.w.begun + 1) * NANOSECONDS_IN_SECOND > ns * (rate - 1000)
  {
    var outcome := features.DetectX86(None, rounds);
    if !outcome.Detected? || features.divisor == 0 {
      return None;
    }
    var result := WaitForValueTimeout(core, features, value, ns);
    if result.TimedOut? && CalibrationFits(rounds)
       && ns * FINE_SCALE < U64_LIMIT && core.at.w.begun + core.at.w.budget.cycles < U64_LIMIT {
      CalibratedRate(rounds, features.cycleHz, rate);
      CalibratedTimeoutCoversRequest(rate, features.cycleHz, ns, core.world.clock - core.at.w.begun);
    }
    r := Some(result);
  }
}
