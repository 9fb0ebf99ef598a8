/** The timed locks end to end: a time in nanoseconds, converted for every wait of the call. */
module TimedLock {
  import opened Words
  import opened CycleTime
  import opened Detection
  import opened LockCalls
  import TimedWait

  /** wfe_mutex_lock_timedlock and wfe_mutex_rwlock_timedwrlock. Failed means that the time asked for has
      passed since the call, less than one tick short, unless one of the two 64-bit results on the way
      wrapped. */
  method WrLockWithin(user: LockUser, features: Features, ns: u64) returns (r: CallResult, begun: u64)
    requires user.Valid() && user.Mine().pc.Idle?
    requires features.DetectedFor(features.cycleHz) && features.divisor > 0
    modifies user
    ensures user.TimedLocked(CyclesOf(Scale(features.multiplier, features.divisor), ns), r, begun)
    ensures r.Failed?
            && ns * features.multiplier < U64_LIMIT
            && begun + CyclesOf(Scale(features.multiplier, features.divisor), ns) < U64_LIMIT ==>
              (user.state.world.clock - old(user.state.world.clock) + 1) * NANOSECONDS_IN_SECOND
              > ns * features.cycleHz
  {
    var cycles := CyclesOf(Scale(features.multiplier, features.divisor), ns);
    ghost var called := user.state.world.clock;
    r, begun := user.TimedWrLock(cycles);
    if r.Failed? {
      DivisorBounds(features.multiplier, features.cycleHz);
      if ns * features.multiplier < U64_LIMIT && begun + cycles < U64_LIMIT {
        TimedWait.TimeoutCoversRequest(features.multiplier, features.cycleHz, ns, user.state.world.clock - called);
      }
    }
  }
}
