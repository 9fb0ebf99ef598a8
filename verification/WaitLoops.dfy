/** The wait loops of the four monitor backends and of the spin fallback, as loops over a shared word
    that others write while they run. Each primitive below is one access of the loop and takes one
    step of the transition function in WaitEngine; a loop that loads, arms or sleeps in another
    order than that function does not verify.

    The others are a finite schedule, one batch of actions for each gap between two accesses. A loop that
    would then run for ever returns `stuck`: the schedule is over and the word will not change again. */
module WaitLoops {
  import opened Words
  import opened WaitEngine
  import opened WaitRuns

  /** When a sleeping instruction gives up by itself. */
  datatype Timer = NoTimer | After(cycles: u32) | At(counter: u64)

  /** When that is, for an instruction that starts to sleep at `clock`. The counter is taken to stop at its
      end, and a timer that would fire later wakes the core there. */
  function FiresAt(timer: Timer, clock: u64): u64 {
    match timer
    case After(cycles) => if clock + cycles < U64_LIMIT then clock + cycles else U64_LIMIT - 1
    case At(counter) => counter
    case NoTimer => U64_LIMIT - 1
  }

  /** One sleep: its timer, the last counter reading before it and the counter when it began. */
  datatype Nap = Nap(timer: Timer, read: u64, from: u64)

  /** The timer for a sleep of a wait whose counter read `begun` first and `read` last: none for an untimed
      wait; else for umwait and wfet the deadline itself, for mwaitx what is left of the budget, cut to 32
      bits and none for 0 cycles, and for plain WFE none. */
  ghost predicate RightTimer(b: Backend, begun: u64, budget: Budget, read: u64, timer: Timer) {
    if budget.Untimed? then timer == NoTimer
    else
      && begun <= read
      && match b
         case WaitPkg => timer == At((begun + budget.cycles) % 0x1_0000_0000_0000_0000)
         case Wfet => timer == At((begun + budget.cycles) % 0x1_0000_0000_0000_0000)
         case MonitorX =>
           var left := begun + budget.cycles - read;
           if budget.cycles == 0 then timer == NoTimer
           else 0 < left && timer == After(if left < 0xFFFF_FFFF then left else 0xFFFF_FFFF)
         case Wfe => timer == NoTimer
         case Spin => false
  }

  /** Every sleep has the right timer. */
  ghost predicate AllProper(b: Backend, begun: u64, budget: Budget, naps: seq<Nap>) {
    forall i :: 0 <= i < |naps| ==>
      naps[i].read <= naps[i].from && RightTimer(b, begun, budget, naps[i].read, naps[i].timer)
  }

  /** So every timer fires by the deadline, or as much later as the sleep began after the last reading. */
  lemma TimersMeetTheDeadline(b: Backend, begun: u64, cycles: u64, nap: Nap)
    requires nap.read <= nap.from && RightTimer(b, begun, Timed(cycles), nap.read, nap.timer)
    requires begun + cycles < 0x1_0000_0000_0000_0000
    ensures nap.timer.NoTimer? <==> !EndsByItself(b, Timed(cycles))
    ensures !nap.timer.NoTimer? ==> FiresAt(nap.timer, nap.from) <= begun + cycles + (nap.from - nap.read)
  {
  }

  datatype Pass = Found | Woke | Forever

  datatype TimedResult = Matched | TimedOut | Stuck

  /** `cycles_end - last_cycle_counter` in 64 bits never underflows: it is what is left of the budget,
      even when fixing `cycles_end` wrapped. The chunk is its 32-bit cut. */
  function NextChunk(begun: u64, total: u64, last: u64): (chunk: u32)
    requires last == begun || begun < last < Deadline(begun, Timed(total))
    ensures var left := begun + total - last;
            && (0 < left || total == 0)
            && chunk == if left < 0xFFFF_FFFF then left else 0xFFFF_FFFF
  {
    var cyclesLeft := (Deadline(begun, Timed(total)) - last + U64_LIMIT) % U64_LIMIT;
    if cyclesLeft >= U32_LIMIT - 1 then U32_LIMIT - 1 else cyclesLeft
  }

  class Core {
    const backend: Backend
    var world: World
    var schedule: seq<seq<Env>>
    /** The write count when this core's monitor was last armed. */
    var armedAt: nat
    /** Where the transition function says the current call is, and how many calls there have been. */
    ghost var at: Verdict
    ghost var calls: nat
    /** The last counter reading, and the sleeps of the current call. */
    ghost var read: u64
    ghost var naps: seq<Nap>
    /** The whole schedule, the world it started from, and what of it has been played. */
    ghost const script: seq<seq<Env>>
    ghost const origin: World
    ghost var past: seq<seq<Env>>

    constructor (backend: Backend, world: World, schedule: seq<seq<Env>>)
      ensures this.backend == backend && this.world == world && this.schedule == schedule
      ensures this.script == schedule && this.origin == world && Faithful()
    {
      this.backend, this.world, this.schedule := backend, world, schedule;
      this.script, this.origin, this.past := schedule, world, [];
      this.armedAt := 0;
      this.at, this.calls := Going(StartWait(backend, Equals(0), Untimed, world)), 0;
      this.read, this.naps := 0, [];
    }

    /** Nothing of the schedule has been dropped: the word is what its writes so far have made it. */
    ghost predicate Faithful()
      reads this
    {
      past + schedule == script && SameMemory(world, PlayAll(origin, past)) && read <= world.clock
    }

    ghost predicate Valid()
      reads this
    {
      Faithful() && InvariantHolds()
    }

    ghost predicate InvariantHolds()
      reads this
    {
      match at
      case Going(w) => WaitInv(backend, w, world) && (w.stage.Recheck? || w.stage.Sleep? ==> armedAt == w.since)
      case Gone(ok, w) => ReturnOk(w.goal, w.budget, ok, w, world)
    }

    ghost predicate AtStage(stage: Stage)
      reads this
    {
      at.Going? && at.w.stage == stage
    }

    /** Time only passed and the schedule only shrank; with no schedule left nothing was written. */
    twostate predicate Elapsed()
      reads this
    {
      && Later(old(world), world)
      && |schedule| <= |old(schedule)|
      && (old(schedule) == [] ==> world.writes == old(world.writes))
    }

    /** One access: a gap in which others act, then one step of the transition function. */
    twostate predicate Stepped()
      reads this
    {
      && old(at).Going?
      && Elapsed()
      && (old(schedule) != [] ==> |schedule| < |old(schedule)|)
      && at == StepWait(backend, old(at).w, world)
      && Valid()
      && calls == old(calls) && naps == old(naps)
    }

    /** One more sleep. */
    twostate predicate Napped(timer: Timer)
      reads this
    {
      && |naps| == |old(naps)| + 1
      && var nap := naps[|old(naps)|];
      && naps == old(naps) + [nap]
      && nap.timer == timer && nap.read == old(read) && old(world.clock) <= nap.from <= world.clock
    }

    /** The gap before an access. */
    method Interfere() returns (woken: bool)
      requires Faithful()
      modifies this`world, this`schedule, this`past
      ensures Faithful()
      ensures old(schedule) == [] ==> world == old(world) && schedule == [] && !woken
      ensures old(schedule) != [] ==>
                world == ApplyAll(old(world), old(schedule)[0]) && schedule == old(schedule)[1..]
      ensures Later(old(world), world)
    {
      woken := false;
      if schedule != [] {
        var batch := schedule[0];
        ApplyAllLater(world, batch);
        ApplyAllMemory(world, PlayAll(origin, past), batch);
        PlayAllAppend(origin, past, batch);
        world, schedule, past := ApplyAll(world, batch), schedule[1..], past + [batch];
        woken := Wake in batch;
      }
    }

    ghost method Call(goal: Goal, budget: Budget)
      requires GoalOk(goal) && Faithful()
      modifies this`at, this`calls, this`naps
      ensures at == Going(StartWait(backend, goal, budget, world)) && Valid()
      ensures calls == old(calls) + 1 && naps == []
    {
      calls, naps := calls + 1, [];
      at := Going(StartWait(backend, goal, budget, world));
      StartKeeps(backend, goal, budget, world);
    }

    ghost method Step()
      requires Valid() && at.Going? && CanStep(at.w, world, true)
      requires at.w.stage.Arm? ==> armedAt == world.writes
      modifies this`at
      ensures at == StepWait(backend, old(at).w, world) && Valid()
    {
      StepKeeps(backend, at.w, world);
      at := StepWait(backend, at.w, world);
    }

    method Load() returns (value: u32)
      requires Valid()
      requires AtStage(Enter) || AtStage(Poll) || AtStage(Recheck) || AtStage(Reload)
      modifies this
      ensures Stepped() && value == world.word && armedAt == old(armedAt) && read == old(read)
    {
      var _ := Interfere();
      InterferenceKeeps(backend, at.w, old(world), world);
      value := world.word;
      Step();
    }

    /** monitorx and umonitor */
    method ArmMonitor()
      requires Valid() && AtStage(Arm) && !ArmsByLoading(backend)
      modifies this
      ensures Stepped() && armedAt == world.writes && read == old(read)
    {
      var _ := Interfere();
      InterferenceKeeps(backend, at.w, old(world), world);
      armedAt := world.writes;
      Step();
    }

    /** ldaxr: arms the exclusive monitor and loads in one access. */
    method LoadExclusive() returns (value: u32)
      requires Valid() && AtStage(Arm) && ArmsByLoading(backend)
      modifies this
      ensures Stepped() && value == world.word && armedAt == world.writes && read == old(read)
    {
      var _ := Interfere();
      InterferenceKeeps(backend, at.w, old(world), world);
      armedAt := world.writes;
      value := world.word;
      Step();
    }

    /** Reading the counter takes time: once the others are done, every reading is a later one,
        until the counter is at its end. */
    method ReadCounter() returns (counter: u64)
      requires Valid() && (AtStage(Begin) || AtStage(Clock))
      modifies this
      ensures Stepped() && counter == world.clock == read && armedAt == old(armedAt)
      ensures old(schedule) == [] ==> world.clock > old(world.clock) || world.clock == U64_LIMIT - 1
    {
      var quiet := schedule == [];
      var _ := Interfere();
      if quiet && world.clock < U64_LIMIT - 1 {
        var later: u64 :| world.clock < later;
        world := world.(clock := later);
      }
      InterferenceKeeps(backend, at.w, old(world), world);
      counter := world.clock;
      read := counter;
      Step();
    }

    /** mwaitx, umwait, wfe and wfet: sleep until a write triggers the monitor, something wakes the
        core, or the timer fires. `forever` means that none of these will happen: with nobody acting and
        an untriggered monitor, exactly if there is no timer. */
    method SleepMonitored(timer: Timer) returns (forever: bool)
      requires Valid() && AtStage(Sleep)
      modifies this
      ensures Elapsed() && Valid() && armedAt == old(armedAt)
      ensures Napped(timer) && read == old(read) && calls == old(calls)
      ensures !forever ==> at == StepWait(backend, old(at).w, world)
      ensures forever ==> at == old(at) && schedule == [] && !Triggered(at.w, world) && timer.NoTimer?
      ensures old(schedule) == [] && old(world.writes) == armedAt ==>
                && (forever <==> timer.NoTimer?)
                && (!forever ==> world.clock >= FiresAt(timer, old(world.clock)))
    {
      var woken := Interfere();
      var wakeAt := FiresAt(timer, world.clock);
      naps := naps + [Nap(timer, read, world.clock)];
      while !woken && world.writes == armedAt && schedule != [] && (timer.NoTimer? || world.clock < wakeAt)
        invariant Elapsed() && Faithful() && at == old(at) && armedAt == old(armedAt)
        invariant world.writes >= armedAt
        invariant old(schedule) == [] ==> schedule == [] && !woken && world == old(world)
        invariant Napped(timer) && read == old(read) && calls == old(calls)
        decreases |schedule|
      {
        woken := Interfere();
      }
      InterferenceKeeps(backend, at.w, old(world), world);
      if !woken && world.writes == armedAt {
        if timer.NoTimer? {
          return true;
        }
        if world.clock < wakeAt {
          var late: u64 :| wakeAt <= late;
          world := world.(clock := late);
          InterferenceKeeps(backend, at.w, old(world), world);
        }
      }
      Step();
      forever := false;
    }

    // ----- the specification every loop below meets -----

    /** Returned by the load that satisfied the goal, and with the value loaded. */
    ghost predicate MatchedBy(goal: Goal, budget: Budget, result: u32)
      reads this
    {
      at.Gone? && at.ok && at.w.goal == goal && at.w.budget == budget && at.w.seen == result && Sat(goal, result)
    }

    /** The schedule has been played to its end, the word it leaves is not what is waited for, and
        nothing else will move this core. */
    ghost predicate StuckOn(goal: Goal)
      reads this
    {
      && past == script && schedule == []
      && at.Going? && at.w.goal == goal && Parked(backend, at.w, world)
      && !Sat(goal, world.word)
    }

    /** Timed out at the deadline fixed when the counter read `begun`: the whole budget has passed exactly
        if that deadline did not wrap. */
    ghost predicate TimedOutSince(goal: Goal, cycles: u64, begun: u64)
      reads this
    {
      && at.Gone? && !at.ok && at.w.goal == goal && at.w.budget == Timed(cycles)
      && at.w.begun == begun <= world.clock
      && world.clock >= Deadline(begun, Timed(cycles))
      && (world.clock - begun >= cycles <==> begun + cycles < U64_LIMIT)
    }

    /** With nobody else acting, nothing is written. */
    twostate predicate Quiet()
      reads this
    {
      schedule == [] && SameMemory(world, old(world))
    }

    ghost predicate WaitingAt(goal: Goal, budget: Budget, stage: Stage)
      reads this
    {
      AtStage(stage) && at.w.goal == goal && at.w.budget == budget
    }

    /** One call, whose sleeps all have the timer its budget and backend need. */
    twostate predicate CalledOnce(budget: Budget)
      reads this
    {
      calls == old(calls) + 1 && AllProper(backend, at.w.begun, budget, naps)
    }

    // ----- one pass of a monitor loop -----

    /** Found it; or slept and woke; or asleep for ever. */
    twostate predicate PassContract(goal: Goal, budget: Budget, timer: Timer, value: u32, pass: Pass)
      reads this
    {
      && old(at).Going?
      && Elapsed()
      && calls == old(calls) && read == old(read) && at.w.begun == old(at).w.begun
      && (if pass.Found? then naps == old(naps) else |naps| == |old(naps)| + 1)
      && AllProper(backend, at.w.begun, budget, naps)
      && (old(schedule) != [] ==> |schedule| < |old(schedule)|)
      && (pass.Found? ==> MatchedBy(goal, budget, value) && value == world.word)
      && (pass.Woke? ==>
          && WaitingAt(goal, budget, if budget.Timed? && !ArmsByLoading(backend) then Clock else Reload)
          && at.w.deadline == old(at).w.deadline)
      && (pass.Forever? ==> StuckOn(goal) && timer.NoTimer?)
      && (old(schedule) == [] ==>
          && Quiet()
          && (pass.Found? <==> Sat(goal, old(world.word)))
          && (!pass.Found? ==> (pass.Forever? <==> timer.NoTimer?))
          && (pass.Woke? ==> world.clock >= FiresAt(timer, old(world.clock))))
    }

    /** mwaitx and waitpkg: arm, look again, sleep. */
    method ArmAndSleep(goal: Goal, budget: Budget, timer: Timer) returns (value: u32, pass: Pass)
      requires Valid() && WaitingAt(goal, budget, Arm) && !ArmsByLoading(backend)
      requires timer.NoTimer? <==> !EndsByItself(backend, budget)
      requires RightTimer(backend, at.w.begun, budget, read, timer)
      requires AllProper(backend, at.w.begun, budget, naps)
      modifies this
      ensures Valid() && PassContract(goal, budget, timer, value, pass)
    {
      ArmMonitor();
      value := Load();
      if Sat(goal, value) {
        return value, Found;
      }
      var forever := SleepMonitored(timer);
      if forever {
        AloneProgress(backend, at.w, world);
      }
      pass := if forever then Forever else Woke;
    }

    /** WFE: the load-exclusive both arms and looks again. */
    method LoadExclusiveAndSleep(goal: Goal, budget: Budget, timer: Timer) returns (value: u32, pass: Pass)
      requires Valid() && WaitingAt(goal, budget, Arm) && ArmsByLoading(backend)
      requires timer.NoTimer? <==> !EndsByItself(backend, budget)
      requires RightTimer(backend, at.w.begun, budget, read, timer)
      requires AllProper(backend, at.w.begun, budget, naps)
      modifies this
      ensures Valid() && PassContract(goal, budget, timer, value, pass)
    {
      value := LoadExclusive();
      if Sat(goal, value) {
        return value, Found;
      }
      var forever := SleepMonitored(timer);
      if forever {
        AloneProgress(backend, at.w, world);
      }
      pass := if forever then Forever else Woke;
    }

    // ----- untimed waits -----

    /** The spin fallback. */
    method SpinWait(goal: Goal) returns (stuck: bool, result: u32)
      requires backend.Spin? && GoalOk(goal) && Faithful()
      modifies this
      ensures Valid() && Later(old(world), world) && CalledOnce(Untimed) && naps == []
      ensures !stuck ==> MatchedBy(goal, Untimed, result) && result == world.word
      ensures stuck ==> StuckOn(goal)
      ensures old(schedule) == [] ==> (stuck <==> !Sat(goal, old(world.word)))
    {
      Call(goal, Untimed);
      result := Load();
      while Again(goal, result)
        invariant Valid() && Later(old(world), world) && CalledOnce(Untimed) && naps == []
        invariant result == world.word
        invariant if Sat(goal, result) then MatchedBy(goal, Untimed, result) else WaitingAt(goal, Untimed, Poll)
        invariant old(schedule) == [] ==> Quiet()
        decreases |schedule|
      {
        GuardComplementsExit(goal, result);
        if schedule == [] {
          return true, result;
        }
        result := Load();
      }
      GuardComplementsExit(goal, result);
      stuck := false;
    }

    /** mwaitx and waitpkg: arm, look again, sleep, look again. */
    method MonitorWait(goal: Goal) returns (stuck: bool, result: u32)
      requires (backend.MonitorX? || backend.WaitPkg?) && GoalOk(goal) && Faithful()
      modifies this
      ensures Valid() && Later(old(world), world) && CalledOnce(Untimed)
      ensures !stuck ==> MatchedBy(goal, Untimed, result) && result == world.word
      ensures stuck ==> StuckOn(goal)
      ensures old(schedule) == [] ==> (stuck <==> !Sat(goal, old(world.word)))
    {
      Call(goal, Untimed);
      result := Load();
      if Sat(goal, result) {
        return false, result;
      }
      var again := true;
      while again
        invariant Valid() && Later(old(world), world) && CalledOnce(Untimed)
        invariant again ==> WaitingAt(goal, Untimed, Arm)
        invariant !again ==> MatchedBy(goal, Untimed, result) && result == world.word
        invariant old(schedule) == [] ==> again && Quiet() && !Sat(goal, world.word)
        decreases again, |schedule|
      {
        var pass;
        result, pass := ArmAndSleep(goal, Untimed, NoTimer);
        if !pass.Woke? {
          return pass.Forever?, result;
        }
        result := Load();
        GuardComplementsExit(goal, result);
        again := Again(goal, result);
      }
      stuck := false;
    }

    /** WFE: the load-exclusive both arms and looks again. */
    method WfeWait(goal: Goal) returns (stuck: bool, result: u32)
      requires ArmsByLoading(backend) && GoalOk(goal) && Faithful()
      modifies this
      ensures Valid() && Later(old(world), world) && CalledOnce(Untimed)
      ensures !stuck ==> MatchedBy(goal, Untimed, result) && result == world.word
      ensures stuck ==> StuckOn(goal)
      ensures old(schedule) == [] ==> (stuck <==> !Sat(goal, old(world.word)))
    {
      Call(goal, Untimed);
      result := Load();
      if Sat(goal, result) {
        return false, result;
      }
      var again := true;
      while again
        invariant Valid() && Later(old(world), world) && CalledOnce(Untimed)
        invariant again ==> WaitingAt(goal, Untimed, Arm)
        invariant !again ==> MatchedBy(goal, Untimed, result) && result == world.word
        invariant old(schedule) == [] ==> again && Quiet() && !Sat(goal, world.word)
        decreases again, |schedule|
      {
        var pass;
        result, pass := LoadExclusiveAndSleep(goal, Untimed, NoTimer);
        if !pass.Woke? {
          return pass.Forever?, result;
        }
        result := Load();
        GuardComplementsExit(goal, result);
        again := Again(goal, result);
      }
      stuck := false;
    }

    // ----- one iteration only -----

    /** The monitor backends' spurious_oneshot: at most one pass, and an answer that is right when it
        is given. */
    method OneshotWait(goal: Goal) returns (stuck: bool, ok: bool)
      requires !backend.Spin? && GoalOk(goal) && Faithful()
      modifies this
      ensures Valid() && Later(old(world), world) && CalledOnce(Untimed) && |naps| <= 1
      ensures !stuck ==> (ok <==> Sat(goal, world.word))
      ensures stuck ==> StuckOn(goal)
      ensures old(schedule) == [] ==> (stuck <==> !Sat(goal, old(world.word)))
    {
      Call(goal, Untimed);
      var value := Load();
      if Sat(goal, value) {
        return false, true;
      }
      var pass;
      if ArmsByLoading(backend) {
        value, pass := LoadExclusiveAndSleep(goal, Untimed, NoTimer);
      } else {
        value, pass := ArmAndSleep(goal, Untimed, NoTimer);
      }
      if !pass.Woke? {
        return pass.Forever?, pass.Found?;
      }
      value := Load();
      return false, Sat(goal, value);
    }

    // ----- timed waits -----

    /** The contract of a timed wait for `cycles`: one call, with the right timers. A true result comes from a
        matching load, except on ARM the last access, a false one with a deadline fixed during the call
        and passed, and a core that hangs does so on a word that does not match. Which backends and
        budgets can hang at all is exact: those that do not end by themselves, and they do hang if nobody
        acts. */
    twostate predicate TimedContract(goal: Goal, cycles: u64, r: TimedResult)
      reads this
    {
      && Valid()
      && Later(old(world), world)
      && CalledOnce(Timed(cycles))
      && (r.Matched? ==>
          && at.Gone? && MatchedBy(goal, Timed(cycles), at.w.seen) && Fresh(at.w, world)
          && (!ArmsByLoading(backend) ==> at.w.seen == world.word))
      && (r.TimedOut? ==>
          && at.Gone?
          && old(world.clock) <= at.w.begun
          && TimedOutSince(goal, cycles, at.w.begun))
      && (r.Stuck? ==> StuckOn(goal) && !EndsByItself(backend, Timed(cycles)))
      && (old(schedule) == [] ==>
          && (r.Matched? <==> Sat(goal, old(world.word)))
          && (!r.Matched? ==> (r.Stuck? <==> !EndsByItself(backend, Timed(cycles)))))
    }

    /** `begin_cycles` and `cycles_end` */
    method FixDeadline(goal: Goal, cycles: u64) returns (beginCycles: u64, cyclesEnd: u64)
      requires Valid() && WaitingAt(goal, Timed(cycles), Begin)
      modifies this
      ensures Valid() && Elapsed()
      ensures WaitingAt(goal, Timed(cycles), if backend.Spin? then Poll else Arm)
      ensures at.w.begun == beginCycles == world.clock
      ensures at.w.deadline == cyclesEnd == Deadline(beginCycles, Timed(cycles))
      ensures cyclesEnd == (beginCycles + cycles) % 0x1_0000_0000_0000_0000
      ensures old(schedule) == [] ==> Quiet()
      ensures calls == old(calls) && naps == old(naps) && read == beginCycles && old(world.clock) <= beginCycles
    {
      beginCycles := ReadCounter();
      cyclesEnd := (beginCycles + cycles) % U64_LIMIT;
    }

    /** What the end of a pass leaves: timed out, or matched, or back at `next`. */
    ghost predicate AfterCheck(goal: Goal, cycles: u64, before: Wait, counter: u64, value: u32, next: Stage)
      reads this
    {
      && at.w.begun == before.begun
      && if counter >= before.deadline then TimedOutSince(goal, cycles, before.begun)
      else if Sat(goal, value) then MatchedBy(goal, Timed(cycles), value) && Fresh(at.w, world)
      else WaitingAt(goal, Timed(cycles), next) && at.w.deadline == before.deadline
    }

    /** x86 and the spin fallback look at the counter, and load again only before the deadline. */
    method CheckThenReload(goal: Goal, cycles: u64, cyclesEnd: u64) returns (counter: u64, value: u32)
      requires Valid() && WaitingAt(goal, Timed(cycles), Clock) && !ArmsByLoading(backend)
      requires at.w.deadline == cyclesEnd
      modifies this
      ensures Valid() && Elapsed() && old(world.clock) <= counter <= world.clock
      ensures old(schedule) != [] ==> |schedule| < |old(schedule)|
      ensures old(schedule) == [] ==> world.clock > old(world.clock) || counter == U64_LIMIT - 1
      ensures AfterCheck(goal, cycles, old(at).w, counter, value, if backend.Spin? then Clock else Arm)
      ensures counter < cyclesEnd ==> value == world.word
      ensures old(schedule) == [] ==> Quiet()
      ensures calls == old(calls) && naps == old(naps) && read == counter
    {
      value := 0;
      counter := ReadCounter();
      if counter < cyclesEnd {
        value := Load();
      }
    }

    /** ARM loads again first, and looks at the counter even when that load matched. */
    method ReloadThenCheck(goal: Goal, cycles: u64) returns (counter: u64, value: u32)
      requires Valid() && WaitingAt(goal, Timed(cycles), Reload) && ArmsByLoading(backend)
      modifies this
      ensures Valid() && Elapsed() && old(world.clock) <= counter == world.clock
      ensures old(schedule) != [] ==> |schedule| < |old(schedule)|
      ensures AfterCheck(goal, cycles, old(at).w, counter, value, Arm)
      ensures old(schedule) == [] ==> Quiet() && value == world.word
      ensures calls == old(calls) && naps == old(naps) && read == counter
    {
      value := Load();
      counter := ReadCounter();
    }

    /** The spin fallback fixes its deadline before it first looks. */
    method SpinTimedWait(goal: Goal, totalCycles: u64) returns (r: TimedResult)
      requires backend.Spin? && GoalOk(goal) && Faithful()
      modifies this
      ensures TimedContract(goal, totalCycles, r)
    {
      Call(goal, Timed(totalCycles));
      var beginCycles, cyclesEnd := FixDeadline(goal, totalCycles);
      var value := Load();
      while Again(goal, value)
        invariant Valid() && Later(old(world), world) && calls == old(calls) + 1 && naps == []
        invariant value == world.word
        invariant if Sat(goal, value) then MatchedBy(goal, Timed(totalCycles), value)
                  else WaitingAt(goal, Timed(totalCycles), Clock)
                       && at.w.begun == beginCycles && at.w.deadline == cyclesEnd
        invariant old(schedule) == [] ==> Quiet()
        decreases |schedule|, U64_LIMIT - world.clock
      {
        GuardComplementsExit(goal, value);
        var counter;
        counter, value := CheckThenReload(goal, totalCycles, cyclesEnd);
        if counter >= cyclesEnd {
          return TimedOut;
        }
      }
      GuardComplementsExit(goal, value);
      r := Matched;
    }

    /** mwaitx sleeps for at most a 32-bit number of cycles at a time. */
    method MwaitxTimedWait(goal: Goal, totalCycles: u64) returns (r: TimedResult)
      requires backend.MonitorX? && GoalOk(goal) && Faithful()
      modifies this
      ensures TimedContract(goal, totalCycles, r)
    {
      Call(goal, Timed(totalCycles));
      var value := Load();
      if Sat(goal, value) {
        return Matched;
      }
      var beginCycles, cyclesEnd := FixDeadline(goal, totalCycles);
      var last := beginCycles;
      var again := true;
      while again
        invariant Valid() && Later(old(world), world) && CalledOnce(Timed(totalCycles))
        invariant at.w.begun == beginCycles <= read <= world.clock
        invariant again ==> WaitingAt(goal, Timed(totalCycles), Arm)
                            && at.w.deadline == cyclesEnd
        invariant !again ==> MatchedBy(goal, Timed(totalCycles), value) && value == world.word
        invariant old(schedule) == [] ==> again && Quiet() && !Sat(goal, world.word)
        invariant last == read && (last == beginCycles || beginCycles < last < cyclesEnd)
        decreases again, |schedule|, U64_LIMIT - world.clock
      {
        var chunk := NextChunk(beginCycles, totalCycles, last);
        var pass;
        var timer := if chunk == 0 then NoTimer else After(chunk);
        value, pass := ArmAndSleep(goal, Timed(totalCycles), timer);
        if !pass.Woke? {
          return if pass.Found? then Matched else Stuck;
        }
        last, value := CheckThenReload(goal, totalCycles, cyclesEnd);
        if last >= cyclesEnd {
          return TimedOut;
        }
        GuardComplementsExit(goal, value);
        again := Again(goal, value);
      }
      r := Matched;
    }

    /** umwait takes the absolute deadline, in two halves. */
    method UmwaitTimedWait(goal: Goal, totalCycles: u64) returns (r: TimedResult)
      requires backend.WaitPkg? && GoalOk(goal) && Faithful()
      modifies this
      ensures TimedContract(goal, totalCycles, r)
    {
      Call(goal, Timed(totalCycles));
      var value := Load();
      if Sat(goal, value) {
        return Matched;
      }
      var beginCycles, cyclesEnd := FixDeadline(goal, totalCycles);
      var again := true;
      while again
        invariant Valid() && Later(old(world), world) && CalledOnce(Timed(totalCycles))
        invariant at.w.begun == beginCycles <= read <= world.clock
        invariant again ==> WaitingAt(goal, Timed(totalCycles), Arm)
                            && at.w.deadline == cyclesEnd
        invariant !again ==> MatchedBy(goal, Timed(totalCycles), value) && value == world.word
        invariant old(schedule) == [] ==> again && Quiet() && !Sat(goal, world.word)
        decreases again, |schedule|
      {
        var timeoutLower: u32 := cyclesEnd % U32_LIMIT;
        var timeoutUpper: u32 := cyclesEnd / U32_LIMIT;
        var pass;
        value, pass := ArmAndSleep(goal, Timed(totalCycles), At(timeoutUpper * U32_LIMIT + timeoutLower));
        if pass.Found? {
          return Matched;
        }
        var lastCounter;
        lastCounter, value := CheckThenReload(goal, totalCycles, cyclesEnd);
        if lastCounter >= cyclesEnd {
          return TimedOut;
        }
        GuardComplementsExit(goal, value);
        again := Again(goal, value);
      }
      r := Matched;
    }

    /** WFE with a deadline checked after each reload; WFET also wakes at the deadline. A core on
        plain WFE that nothing wakes never looks at its deadline. */
    method WfeTimedWait(goal: Goal, totalCycles: u64) returns (r: TimedResult)
      requires ArmsByLoading(backend) && GoalOk(goal) && Faithful()
      modifies this
      ensures TimedContract(goal, totalCycles, r)
    {
      Call(goal, Timed(totalCycles));
      var value := Load();
      if Sat(goal, value) {
        return Matched;
      }
      var beginCycles, cyclesEnd := FixDeadline(goal, totalCycles);
      var again := true;
      while again
        invariant Valid() && Later(old(world), world) && CalledOnce(Timed(totalCycles))
        invariant at.w.begun == beginCycles <= read <= world.clock
        invariant again ==> WaitingAt(goal, Timed(totalCycles), Arm)
                            && at.w.deadline == cyclesEnd
        invariant !again ==> MatchedBy(goal, Timed(totalCycles), value) && Fresh(at.w, world)
        invariant old(schedule) == [] ==> again && Quiet() && !Sat(goal, world.word)
        decreases again, |schedule|
      {
        var pass;
        var timer := if backend.Wfet? then At(cyclesEnd) else NoTimer;
        value, pass := LoadExclusiveAndSleep(goal, Timed(totalCycles), timer);
        if !pass.Woke? {
          return if pass.Found? then Matched else Stuck;
        }
        var counter;
        counter, value := ReloadThenCheck(goal, totalCycles);
        if counter >= cyclesEnd {
          return TimedOut;
        }
        GuardComplementsExit(goal, value);
        again := Again(goal, value);
      }
      r := Matched;
    }
  }
}
