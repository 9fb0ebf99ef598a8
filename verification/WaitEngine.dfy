/** The wait functions of every backend as one transition function. A step of a waiter is one
    shared-memory access, one monitor instruction or one read of the cycle counter; anything may
    happen to the word and to the clock between two steps.

    A monitor is modelled by the number of writes to the word at the moment it was armed: it has
    been triggered once the word has been written since. */
module WaitEngine {
  import opened Words

  datatype Backend = Spin | MonitorX | WaitPkg | Wfe | Wfet

  /** The ARM backends arm the monitor with a load-exclusive, which also reads the word. */
  predicate ArmsByLoading(b: Backend) {
    b.Wfe? || b.Wfet?
  }

  /** What a wait is for: a whole value, or one bit. */
  datatype Goal = Equals(value: u32) | Bit(index: nat, want: nat)

  predicate Sat(goal: Goal, v: u32) {
    match goal
    case Equals(value) => v == value
    case Bit(index, want) => BitAt(v, index) == want
  }

  /** The loop guard. For bits the code compares with a second constant, `not_expected`. */
  predicate Again(goal: Goal, v: u32) {
    match goal
    case Equals(value) => v != value
    case Bit(index, want) => BitAt(v, index) == 1 - want
  }

  predicate GoalOk(goal: Goal) {
    goal.Bit? ==> goal.index < 32 && goal.want < 2
  }

  /** The early exit and the loop guard are complementary. */
  lemma GuardComplementsExit(goal: Goal, v: u32)
    requires GoalOk(goal)
    ensures Again(goal, v) <==> !Sat(goal, v)
  {
    if goal.Bit? {
      assert BitAt(v, goal.index) == 0 || BitAt(v, goal.index) == 1;
    }
  }

  datatype Budget = Untimed | Timed(cycles: u64)

  /** The shared world: the word, how often it has been written, and the cycle counter. */
  datatype World = World(word: u32, writes: nat, clock: u64)

  /** What a waiter may rely on: time and the write count only grow, and a word that was not
      written has not changed. */
  predicate Later(before: World, after: World) {
    && before.writes <= after.writes
    && before.clock <= after.clock
    && (before.writes == after.writes ==> before.word == after.word)
  }

  datatype Stage =
    | Enter    // the load before anything else
    | Begin    // read the counter and fix the deadline
    | Poll     // spin loop: load
    | Arm      // arm the monitor
    | Recheck  // x86: load after arming
    | Sleep    // monitored sleep
    | Reload   // load after waking
    | Clock    // read the counter and compare with the deadline

  /** `seen` is the value last loaded and `loaded` the write count at that load; `since` is the
      write count when the monitor was armed; `begun` is the counter when the deadline was fixed. Until
      then the last three are those of the moment the wait started. */
  datatype Wait = Wait(goal: Goal, budget: Budget, stage: Stage,
                       begun: u64, deadline: u64, seen: u32, loaded: nat, since: nat)

  /** A wait under way, or returned: `ok` is false for a timeout and `w.seen` is the value returned. */
  datatype Verdict = Going(w: Wait) | Gone(ok: bool, w: Wait)

  function StartWait(b: Backend, goal: Goal, budget: Budget, world: World): Wait {
    var first := if !b.Spin? then Enter else if budget.Timed? then Begin else Poll;
    Wait(goal, budget, first, world.clock, 0, 0, world.writes, world.writes)
  }

  function Load(w: Wait, world: World): Wait {
    w.(seen := world.word, loaded := world.writes)
  }

  function Deadline(begun: u64, budget: Budget): u64 {
    if budget.Timed? then (begun + budget.cycles) % U64_LIMIT else 0
  }

  predicate Triggered(w: Wait, world: World) {
    world.writes > w.since
  }

  /** A sleeper moves on only if its monitor was triggered or something else woke it. */
  predicate CanStep(w: Wait, world: World, woken: bool) {
    w.stage.Sleep? ==> Triggered(w, world) || woken
  }

  /** Leave with what was loaded if it is what is waited for, else go on. */
  function LeaveIfSat(w: Wait, next: Stage): Verdict {
    if Sat(w.goal, w.seen) then Gone(true, w) else Going(w.(stage := next))
  }

  function StepWait(b: Backend, w: Wait, world: World): Verdict {
    match w.stage
    case Enter => LeaveIfSat(Load(w, world), if w.budget.Timed? then Begin else Arm)
    case Begin =>
      Going(w.(begun := world.clock, deadline := Deadline(world.clock, w.budget),
               stage := if b.Spin? then Poll else Arm))
    case Poll => LeaveIfSat(Load(w, world), if w.budget.Timed? then Clock else Poll)
    case Arm =>
      if ArmsByLoading(b) then LeaveIfSat(Load(w.(since := world.writes), world), Sleep)
      else Going(w.(since := world.writes, stage := Recheck))
    case Recheck => LeaveIfSat(Load(w, world), Sleep)
    case Sleep =>
      Going(w.(stage := if w.budget.Timed? && !ArmsByLoading(b) then Clock else Reload))
    case Reload =>
      if w.budget.Timed? && ArmsByLoading(b) then Going(Load(w, world).(stage := Clock))
      else LeaveIfSat(Load(w, world), Arm)
    case Clock =>
      if world.clock >= w.deadline then Gone(false, w)
      else if b.Spin? then Going(w.(stage := Poll))
      else if ArmsByLoading(b) then LeaveIfSat(w, Arm)
      else Going(w.(stage := Reload))
  }

  // ----- what holds at every step -----

  predicate StageOk(b: Backend, w: Wait) {
    && (w.stage.Poll? ==> b.Spin?)
    && (w.stage.Begin? || w.stage.Clock? ==> w.budget.Timed?)
    && (w.stage.Recheck? ==> !ArmsByLoading(b))
    && (b.Spin? ==> w.stage.Begin? || w.stage.Poll? || w.stage.Clock?)
  }

  /** If nothing was written since the last load, the word still is what was loaded. */
  predicate Fresh(w: Wait, world: World) {
    w.loaded == world.writes ==> w.seen == world.word
  }

  predicate WaitInv(b: Backend, w: Wait, world: World) {
    && GoalOk(w.goal)
    && StageOk(b, w)
    && w.since <= world.writes
    && w.loaded <= world.writes
    && (w.stage.Sleep? ==>
        && !Sat(w.goal, w.seen)
        && (w.since == world.writes ==> w.seen == world.word))
    && (w.stage.Clock? && ArmsByLoading(b) ==> Fresh(w, world))
    && (w.budget.Timed? && !w.stage.Enter? && !w.stage.Begin? ==>
        && w.begun <= world.clock
        && w.deadline == Deadline(w.begun, w.budget))
  }

  /** The one specification of a return. True: the value returned satisfies the goal and was
      loaded no later than now. False: only from a timed wait, with the counter at or past a deadline
      fixed when the call began. */
  predicate ReturnOk(goal: Goal, budget: Budget, ok: bool, w: Wait, world: World) {
    && w.goal == goal
    && w.budget == budget
    && (ok ==> Sat(goal, w.seen) && w.loaded <= world.writes && Fresh(w, world))
    && (!ok ==>
        && budget.Timed?
        && w.begun <= world.clock
        && w.deadline == Deadline(w.begun, budget)
        && w.deadline <= world.clock)
  }

  lemma StartKeeps(b: Backend, goal: Goal, budget: Budget, world: World)
    requires GoalOk(goal)
    ensures WaitInv(b, StartWait(b, goal, budget, world), world)
  {
  }

  lemma InterferenceKeeps(b: Backend, w: Wait, before: World, after: World)
    requires WaitInv(b, w, before) && Later(before, after)
    ensures WaitInv(b, w, after)
  {
  }

  /** Every step keeps the invariant, and every return meets the specification. */
  lemma StepKeeps(b: Backend, w: Wait, world: World)
    requires WaitInv(b, w, world)
    ensures var v := StepWait(b, w, world);
            match v
            case Going(w') =>
              && WaitInv(b, w', world)
              && w'.goal == w.goal && w'.budget == w.budget && w'.loaded >= w.loaded
            case Gone(ok, w') => ReturnOk(w.goal, w.budget, ok, w', world) && w'.loaded >= w.loaded
  {
  }

  /** No lost wakeup: a sleeper whose condition already holds has been triggered. */
  lemma NoLostWakeup(b: Backend, w: Wait, world: World)
    requires WaitInv(b, w, world) && w.stage.Sleep? && Sat(w.goal, world.word)
    ensures Triggered(w, world) && CanStep(w, world, false)
  {
  }

  /** A timeout has seen its whole budget pass if and only if fixing the deadline did not wrap around in 64
      bits: if it did, the timeout is early. */
  lemma TimeoutNotEarly(goal: Goal, budget: Budget, w: Wait, world: World)
    requires ReturnOk(goal, budget, false, w, world)
    ensures world.clock - w.begun >= budget.cycles <==> w.begun + budget.cycles < U64_LIMIT
  {
  }

  /** The other half: when `begun + cycles` wraps, the first counter read after `Begin` times out,
      whatever the budget was. */
  lemma WrappedDeadlineIsPast(b: Backend, w: Wait, world: World)
    requires WaitInv(b, w, world) && w.stage.Clock?
    requires w.begun + w.budget.cycles >= U64_LIMIT
    ensures StepWait(b, w, world) == Gone(false, w)
  {
    assert w.deadline == w.begun + w.budget.cycles - U64_LIMIT;
  }

  // ----- running alone -----

  /** Whether a wait has a way to end without a write. A spin looks at the counter again and again, and
      umwait, wfet and mwaitx set a timer; plain WFE has none, and mwaitx sets none for 0 cycles. */
  predicate EndsByItself(b: Backend, budget: Budget) {
    budget.Timed? && !b.Wfe? && (b.MonitorX? ==> budget.cycles > 0)
  }

  /** Only a write or a stray wakeup can ever move this waiter on, and a write must come first if it is to
      return: asleep untriggered with no timer, or spinning without a deadline on a word that is not
      right. */
  predicate Parked(b: Backend, w: Wait, world: World) {
    && !EndsByItself(b, w.budget)
    && ((w.stage.Sleep? && !Triggered(w, world)) || (w.stage.Poll? && !Sat(w.goal, world.word)))
  }

  /** How many own steps a waiter can still take before it returns or is parked. */
  function Rank(b: Backend, w: Wait, world: World): nat {
    match w.stage
    case Enter => 12
    case Begin => 11
    case Recheck => if Triggered(w, world) then 10 else 5
    case Sleep => if Triggered(w, world) then 9 else 0
    case Clock => if b.Spin? then 6 else if ArmsByLoading(b) then 7 else 8
    case Reload => if ArmsByLoading(b) && w.budget.Timed? then 8 else 7
    case Arm => 6
    case Poll => 5
  }

  const RANK_BOUND: nat := 12

  /** Left alone with nothing but its monitor to wake it, a waiter whose goal is in the word, or which
      cannot end by itself, either is parked, and then the goal is not in the word, or takes a step that
      returns or brings it strictly closer to that. */
  lemma AloneProgress(b: Backend, w: Wait, world: World)
    requires WaitInv(b, w, world)
    ensures Rank(b, w, world) <= RANK_BOUND
    ensures Parked(b, w, world) ==> !Sat(w.goal, world.word)
    ensures !Parked(b, w, world) && (Sat(w.goal, world.word) || !EndsByItself(b, w.budget)) ==>
              && CanStep(w, world, false)
              && (StepWait(b, w, world).Going? ==>
                  Rank(b, StepWait(b, w, world).w, world) < Rank(b, w, world))
  {
  }

  /** How many own steps of a timed waiter are left until it has looked at the counter, at most. */
  function StepsToClock(b: Backend, w: Wait): nat {
    match w.stage
    case Clock => 1
    case Poll => 2
    case Reload => if ArmsByLoading(b) then 2 else 6
    case Sleep => 3
    case Recheck => 4
    case Arm => 5
    case Begin => 7
    case Enter => 8
  }

  /** A timed wait goes round: every step brings it closer to its next look at the counter, and that look
      ends it if and only if the deadline has come. */
  lemma TimedProgress(b: Backend, w: Wait, world: World)
    requires WaitInv(b, w, world) && w.budget.Timed?
    ensures EndsByItself(b, w.budget) ==> !Parked(b, w, world)
    ensures !w.stage.Clock? && StepWait(b, w, world).Going? ==>
              StepsToClock(b, StepWait(b, w, world).w) < StepsToClock(b, w)
    ensures w.stage.Clock? ==> (StepWait(b, w, world) == Gone(false, w) <==> world.clock >= w.deadline)
  {
  }
}
