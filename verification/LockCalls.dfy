/** The lock functions of wfe_mutex.h as one thread runs them, with everything the other threads do
    between its accesses. The others run the lock machine on a finite schedule, one batch of moves for
    each gap; each access below is one step of the machine, so a call that compares, checks
    or writes in another order than `ThreadStep` does not verify. Once the schedule is spent only time
    passes, and a call that would then wait for ever returns `Blocked`. */
module LockCalls {
  import opened Words
  import opened WaitEngine
  import opened Encoding
  import opened LockMachine
  import opened LockSafety
  import A = AbstractLock

  predicate ByThread(m: Move, t: Tid) {
    !m.Tick? && m.t == t
  }

  /** A move of the others, if it is one. */
  function OthersNext(cfg: Config, s: State, me: Tid, m: Move): State {
    if ByThread(m, me) then s else Next(cfg, s, m)
  }

  /** What a batch of their moves makes of the state. */
  function OthersRun(cfg: Config, s: State, me: Tid, batch: seq<Move>): State
    decreases |batch|
  {
    if batch == [] then s else OthersRun(cfg, OthersNext(cfg, s, me, batch[0]), me, batch[1..])
  }

  /** What the next gap of a schedule makes of the state, and what it leaves of the schedule. */
  function Between(cfg: Config, s: State, me: Tid, schedule: seq<seq<Move>>): State {
    if schedule == [] then s else OthersRun(cfg, s, me, schedule[0])
  }

  function Rest(schedule: seq<seq<Move>>): seq<seq<Move>> {
    if schedule == [] then [] else schedule[1..]
  }

  /** What happened, in order: a gap in which others acted, or a move of this thread. */
  datatype Episode = Others(batch: seq<Move>) | Own(m: Move)

  function Replay(cfg: Config, me: Tid, s: State, history: seq<Episode>): State
    decreases |history|
  {
    if history == [] then s
    else
      var next := match history[0]
                  case Others(batch) => OthersRun(cfg, s, me, batch)
                  case Own(m) => Next(cfg, s, m);
      Replay(cfg, me, next, history[1..])
  }

  /** The batches a history has used up. */
  function Batches(history: seq<Episode>): seq<seq<Move>>
    decreases |history|
  {
    if history == [] then []
    else (if history[0].Others? then [history[0].batch] else []) + Batches(history[1..])
  }

  /** The next gap of a schedule, and one step of thread `me`. */
  function Turn(me: Tid, schedule: seq<seq<Move>>): seq<Episode> {
    (if schedule == [] then [] else [Others(schedule[0])]) + [Own(Step(me, false))]
  }

  /** The start of a call and its first two accesses. */
  function TwoTurns(me: Tid, call: Call, schedule: seq<seq<Move>>): seq<Episode> {
    [Own(Start(me, call))] + Turn(me, schedule) + Turn(me, Rest(schedule))
  }

  /** How many calls a history has begun. */
  function Starts(history: seq<Episode>): nat
    decreases |history|
  {
    if history == [] then 0
    else (if history[0].Own? && history[0].m.Start? then 1 else 0) + Starts(history[1..])
  }

  lemma {:induction false} ReplayAppend(cfg: Config, me: Tid, s: State, history: seq<Episode>, e: Episode)
    ensures Replay(cfg, me, s, history + [e]) ==
            (match e
             case Others(batch) => OthersRun(cfg, Replay(cfg, me, s, history), me, batch)
             case Own(m) => Next(cfg, Replay(cfg, me, s, history), m))
    ensures Batches(history + [e]) == Batches(history) + (if e.Others? then [e.batch] else [])
    ensures Starts(history + [e]) == Starts(history) + (if e.Own? && e.m.Start? then 1 else 0)
    decreases |history|
  {
    if history == [] {
      assert (history + [e])[1..] == [];
    } else {
      assert (history + [e])[1..] == history[1..] + [e];
      var next := match history[0]
                  case Others(batch) => OthersRun(cfg, s, me, batch)
                  case Own(m) => Next(cfg, s, m);
      ReplayAppend(cfg, me, next, history[1..], e);
    }
  }

  /** What a gap leaves a thread: its program counter and its holds. */
  ghost predicate GapFor(before: State, after: State, me: Tid) {
    && Later(before.world, after.world)
    && me in before.threads && me in after.threads
    && after.threads[me] == before.threads[me]
    && after.writers[me] == before.writers[me]
    && after.readers[me] == before.readers[me]
  }

  lemma OthersMoveIsGap(cfg: Config, s: State, me: Tid, m: Move)
    requires Inv(cfg, s) && me in s.threads
    ensures GapFor(s, OthersNext(cfg, s, me, m), me)
  {
    if OthersNext(cfg, s, me, m) != s {
      NextKeepsInv(cfg, s, m);
      OthersLeaveMine(cfg, s, me, m);
    }
  }

  lemma OthersLeaveMine(cfg: Config, s: State, me: Tid, m: Move)
    requires me in s.threads && !ByThread(m, me)
    ensures var next := Next(cfg, s, m);
            && me in next.threads && next.threads[me] == s.threads[me]
            && next.writers[me] == s.writers[me]
            && next.readers[me] == s.readers[me]
  {
  }

  lemma {:induction false} RunAppend(cfg: Config, s: State, moves: seq<Move>, m: Move)
    ensures Run(cfg, s, moves + [m]) == Next(cfg, Run(cfg, s, moves), m)
    decreases |moves|
  {
    if moves == [] {
      assert (moves + [m])[1..] == [];
    } else {
      assert (moves + [m])[1..] == moves[1..] + [m];
      RunAppend(cfg, Next(cfg, s, moves[0]), moves[1..], m);
    }
  }

  // ----- single steps, away from the class -----

  ghost predicate Checking(pc: Pc) {
    pc.EntryCheck? || pc.ReleaseCheck? || pc.RetryCheck?
  }

  lemma CheckStep(cfg: Config, s: State, me: Tid)
    requires Inv(cfg, s) && me in s.threads && Checking(s.threads[me].pc)
    ensures var th := s.threads[me];
            var pc := if FailsAtTheBound(cfg, th, |s.readers|) then Trapped else AfterCheck(th);
            Next(cfg, s, Step(me, false)) == s.(threads := s.threads[me := th.(pc := pc)])
  {
    OwnStepKeeps(cfg, me, s.threads[me], s.world, Held(s));
    ChecksPass(cfg.kind, s.threads[me].call, s.world.word, Held(s), me);
  }

  ghost predicate AboutToCompare(pc: Pc, expected: u32) {
    || (pc.FirstCas? && expected == 0)
    || pc == SecondCas(expected)
    || pc == SharedCas(expected)
    || pc == RetryCas(expected)
  }

  lemma CasStep(cfg: Config, s: State, me: Tid, expected: u32)
    requires me in s.threads && AboutToCompare(s.threads[me].pc, expected) && Takes(s.threads[me].call)
    ensures var th := s.threads[me];
            var next := Next(cfg, s, Step(me, false));
            if s.world.word == expected then
              && next.world.word == Desired(cfg.kind, th.call, expected)
              && next.threads == s.threads[me := Finish(th, true)]
              && TookOne(s, next, me, th.call)
            else
              && next == s.(threads := s.threads[me := AfterFailedCas(cfg, th, s.world)])
              && AfterFailedCas(cfg, th, s.world).call == th.call
              && (WaitsNext(th) ==> StartsWaiting(cfg, AfterFailedCas(cfg, th, s.world), s.world))
  {
  }

  predicate Takes(call: Call) {
    !call.Unlock? && !call.ReadUnlock?
  }

  lemma ComparingTakes(cfg: Config, s: State, me: Tid, expected: u32)
    requires Inv(cfg, s) && me in s.threads && AboutToCompare(s.threads[me].pc, expected)
    ensures Takes(s.threads[me].call)
  {
    assert ThreadInv(cfg, s.threads[me], s.world, s.writers[me], s.readers[me]);
  }

  ghost predicate StartsWaiting(cfg: Config, th: Thread, world: World) {
    && th.pc == Waiting(StartWait(cfg.backend, GoalOf(th.call), BudgetOf(th.call), world))
    && th.log.failedAt == world.clock
  }

  /** Failing to compare here leads into a wait. */
  ghost predicate WaitsNext(th: Thread) {
    th.pc.SecondCas? || th.pc.RetryCas? || (th.pc.FirstCas? && !th.call.TryLock? && !th.call.RdLock?)
  }

  /** Failing to compare here ends the call. */
  ghost predicate TriesOnce(th: Thread) {
    th.pc.SharedCas? || (th.pc.FirstCas? && th.call.TryLock?)
  }

  /** One hold more than before in the mode of the call. */
  ghost predicate TookOne(before: State, after: State, me: Tid, call: Call) {
    && after.readers[me] == before.readers[me] + (if ChangeOf(call).TakeRead? then 1 else 0)
    && after.writers[me] == before.writers[me] + (if ChangeOf(call).TakeRead? then 0 else 1)
  }

  /** The last access of both unlocks. */
  lemma WriteReleaseStep(cfg: Config, s: State, me: Tid)
    requires Inv(cfg, s) && me in s.threads && s.threads[me].pc.Releasing? && !s.threads[me].call.ReadUnlock?
    ensures var next := Next(cfg, s, Step(me, false));
            && next.threads == s.threads[me := Finish(s.threads[me], true)]
            && next.world.word == 0
            && next.writers == multiset{} == next.readers
  {
    var th := s.threads[me];
    assert ThreadInv(cfg, th, s.world, s.writers[me], s.readers[me]);
    OneWriter(s.writers, me);
  }

  lemma ReadReleaseStep(cfg: Config, s: State, me: Tid)
    requires Inv(cfg, s) && me in s.threads && s.threads[me].pc.Releasing? && s.threads[me].call.ReadUnlock?
    ensures var next := Next(cfg, s, Step(me, false));
            && next.threads == s.threads[me := Finish(s.threads[me], true)]
            && next.world.word == s.world.word - 1
            && s.readers[me] > 0 && next.readers == s.readers - multiset{me}
            && next.writers == s.writers
  {
    var th := s.threads[me];
    assert ThreadInv(cfg, th, s.world, s.writers[me], s.readers[me]);
  }

  lemma SharedLoadStep(cfg: Config, s: State, me: Tid)
    requires me in s.threads && s.threads[me].pc.SharedLoad?
    ensures var th := s.threads[me];
            Next(cfg, s, Step(me, false)) ==
            s.(threads := s.threads[me := th.(pc := SharedCas(ClearTop(s.world.word)),
                                              log := th.log.(loaded := s.world.writes))])
  {
  }

  /** A step inside a wait touches nothing but the waiter. */
  lemma WaitingStep(cfg: Config, s: State, me: Tid, woken: bool)
    requires Inv(cfg, s) && me in s.threads && s.threads[me].pc.Waiting?
    requires CanStep(s.threads[me].pc.w, s.world, woken)
    ensures var th := s.threads[me];
            var v := StepWait(cfg.backend, th.pc.w, s.world);
            && Next(cfg, s, Step(me, woken)) == s.(threads := s.threads[me := AfterWait(th, v).thread])
            && (v.Going? ==> v.w.loaded >= th.pc.w.loaded)
            && (v.Gone? && v.ok ==> th.pc.w.loaded <= v.w.loaded <= s.world.writes)
            && (v.Gone? && !v.ok ==>
                && th.call.TimedWrLock?
                && th.log.failedAt <= v.w.begun <= s.world.clock
                && Deadline(v.w.begun, Timed(th.call.cycles)) <= s.world.clock)
  {
    var th := s.threads[me];
    assert ThreadInv(cfg, th, s.world, s.writers[me], s.readers[me]);
    StepKeeps(cfg.backend, th.pc.w, s.world);
  }

  /** What is left of a wait that nobody disturbs: until its next look at the counter, or until it returns
      or is parked. */
  function Left(b: Backend, w: Wait, world: World): nat {
    if EndsByItself(b, w.budget) then StepsToClock(b, w) else Rank(b, w, world)
  }

  /** A wait that nobody disturbs: parked, or able to go on, woken by its timer if it has one. At the end
      of the counter at the latest every step brings it closer to its return. */
  lemma WaitingAlone(cfg: Config, s: State, me: Tid)
    requires Inv(cfg, s) && me in s.threads && s.threads[me].pc.Waiting?
    ensures var call, w := s.threads[me].call, s.threads[me].pc.w;
            && w.budget == BudgetOf(call)
            && (Parked(cfg.backend, w, s.world) ==> !Sat(GoalOf(call), s.world.word))
            && (!Parked(cfg.backend, w, s.world) ==>
                && CanStep(w, s.world, EndsByItself(cfg.backend, w.budget))
                && UndisturbedStep(cfg.backend, w, s.world))
  {
    assert ThreadInv(cfg, s.threads[me], s.world, s.writers[me], s.readers[me]);
    AloneStep(cfg.backend, s.threads[me].pc.w, s.world);
  }

  ghost predicate UndisturbedStep(b: Backend, w: Wait, world: World) {
    var v := StepWait(b, w, world);
    && (v.Going? && (EndsByItself(b, w.budget) ==> world.clock == U64_LIMIT - 1) ==>
        Left(b, v.w, world) < Left(b, w, world))
    && (FirstPass(b, w, world) ==> if v.Going? then FirstPass(b, v.w, world) else v.ok)
  }

  /** A wait that cannot end by itself and has not been written to has not been woken either. */
  ghost predicate FirstPass(b: Backend, w: Wait, world: World) {
    && !EndsByItself(b, w.budget)
    && (|| w.stage.Enter? || w.stage.Begin? || w.stage.Arm? || w.stage.Poll?
        || ((w.stage.Recheck? || w.stage.Sleep?) && !Triggered(w, world)))
  }

  lemma AloneStep(b: Backend, w: Wait, world: World)
    requires WaitInv(b, w, world)
    ensures Parked(b, w, world) ==> !Sat(w.goal, world.word)
    ensures !Parked(b, w, world) ==> CanStep(w, world, EndsByItself(b, w.budget)) && UndisturbedStep(b, w, world)
  {
    AloneProgress(b, w, world);
    if w.budget.Timed? {
      TimedProgress(b, w, world);
    }
  }

  /** What a wait has come to, whoever else acted meanwhile. */
  ghost predicate Waited(before: State, after: State, me: Tid, r: WaitReturn)
    requires me in before.threads
  {
    && me in after.threads
    && after.writers[me] == before.writers[me]
    && after.readers[me] == before.readers[me]
    && Later(before.world, after.world)
    && var was, th := before.threads[me], after.threads[me];
    && th.call == was.call
    && match r
       case Returned(value) => th.pc == RetryCheck(value) && th.log.loaded <= after.world.writes
       case TimedOut(begun) =>
         && th.pc.Idle? && !th.ok && th.call.TimedWrLock?
         && was.log.failedAt <= begun <= after.world.clock
         && Deadline(begun, Timed(th.call.cycles)) <= after.world.clock
       case _ => th.pc.Waiting? && th.log == was.log
  }

  function OutcomeOf(pc: Pc, w: Wait): WaitReturn {
    match pc
    case RetryCheck(expected) => Returned(expected)
    case Idle => TimedOut(w.begun)
    case _ => StillWaiting
  }

  lemma GapThenWaitingStep(cfg: Config, before: State, s: State, me: Tid, woken: bool)
    requires Inv(cfg, s) && GapFor(before, s, me) && s.threads[me].pc.Waiting?
    requires CanStep(s.threads[me].pc.w, s.world, woken)
    ensures var next := Next(cfg, s, Step(me, woken));
            && next.world == s.world
            && me in next.threads
            && var pc := next.threads[me].pc;
            && Waited(before, next, me, OutcomeOf(pc, s.threads[me].pc.w))
            && (pc.Waiting? ==> pc == Waiting(StepWait(cfg.backend, s.threads[me].pc.w, s.world).w)
                                && pc.w.loaded >= s.threads[me].pc.w.loaded)
            && (pc.RetryCheck? ==> next.threads[me].log.loaded >= s.threads[me].pc.w.loaded)
            && (pc.Waiting? || pc.RetryCheck? || pc.Idle?)
  {
    WaitingStep(cfg, s, me, woken);
  }

  datatype WaitReturn = StillWaiting | Returned(value: u32) | TimedOut(begun: u64) | Asleep

  /** A state of a run that starts with a free lock. */
  ghost predicate Reached(cfg: Config, start: State, log: seq<Move>, s: State) {
    Initial(cfg, start) && s == Run(cfg, start, log)
  }

  lemma ReachedInv(cfg: Config, start: State, log: seq<Move>, s: State)
    requires Reached(cfg, start, log, s)
    ensures Inv(cfg, s)
  {
    InitialInv(cfg, start);
    RunsRefine(cfg, start, log);
  }

  lemma ReachedNext(cfg: Config, start: State, log: seq<Move>, s: State, m: Move)
    requires Reached(cfg, start, log, s)
    ensures Reached(cfg, start, log + [m], Next(cfg, s, m))
    ensures Later(s.world, Next(cfg, s, m).world)
  {
    RunAppend(cfg, start, log, m);
    ReachedInv(cfg, start, log, s);
    NextKeepsInv(cfg, s, m);
  }

  /** What the others do in a gap is part of the run. */
  lemma {:induction false} OthersRunReached(cfg: Config, start: State, log: seq<Move>, s: State,
                                            me: Tid, batch: seq<Move>)
    returns (more: seq<Move>)
    requires Reached(cfg, start, log, s) && me in s.threads
    ensures Reached(cfg, start, more, OthersRun(cfg, s, me, batch))
    ensures GapFor(s, OthersRun(cfg, s, me, batch), me)
    decreases |batch|
  {
    if batch == [] {
      more := log;
    } else {
      var next := OthersNext(cfg, s, me, batch[0]);
      ReachedInv(cfg, start, log, s);
      OthersMoveIsGap(cfg, s, me, batch[0]);
      more := log;
      if next != s {
        ReachedNext(cfg, start, log, s, batch[0]);
        more := log + [batch[0]];
      }
      more := OthersRunReached(cfg, start, more, next, me, batch[1..]);
    }
  }

  datatype CallResult = Acquired | Failed | Blocked

  class LockUser {
    const cfg: Config
    const me: Tid
    var state: State
    var schedule: seq<seq<Move>>
    /** Every state so far is a state of one run of the machine, in which the others have played the
        schedule as far as it has been used up. */
    ghost const start: State
    ghost const script: seq<seq<Move>>
    ghost var log: seq<Move>
    ghost var history: seq<Episode>

    constructor (cfg: Config, me: Tid, start: State, schedule: seq<seq<Move>>)
      requires Initial(cfg, start) && me in start.threads
      ensures Valid() && this.state == start && this.schedule == schedule
      ensures this.cfg == cfg && this.me == me && this.start == start && this.script == schedule
    {
      this.cfg, this.me, this.state, this.schedule := cfg, me, start, schedule;
      this.start, this.script, this.log, this.history := start, schedule, [], [];
    }

    ghost predicate Valid()
      reads this
    {
      me in state.threads && Reached(cfg, start, log, state) && Faithful()
    }

    /** Nothing of the schedule has been dropped. */
    ghost predicate Faithful()
      reads this
    {
      state == Replay(cfg, me, start, history) && Batches(history) + schedule == script
    }

    lemma Invariant()
      requires Valid()
      ensures Inv(cfg, state)
    {
      ReachedInv(cfg, start, log, state);
    }

    /** This thread. */
    ghost function Mine(): Thread
      reads this
      requires me in state.threads
    {
      state.threads[me]
    }

    /** No other thread can have changed these. */
    twostate predicate HoldsKept()
      reads this
    {
      state.writers[me] == old(state.writers[me]) && state.readers[me] == old(state.readers[me])
    }

    /** One gap has been played, and no call begun. */
    twostate predicate Spent()
      reads this
    {
      schedule == Rest(old(schedule)) && Starts(history) == old(Starts(history))
    }

    /** One access, and the gap before it. */
    twostate predicate Accessed()
      reads this
    {
      Spent() && history == old(history) + Turn(me, old(schedule))
    }

    /** The machine's steps of a single call, and nothing else, have been this thread's. */
    twostate predicate CalledOnce()
      reads this
    {
      Starts(history) == old(Starts(history)) + 1
    }

    /** With nobody else acting, nothing is written. */
    twostate predicate Quiet()
      reads this
    {
      && schedule == []
      && state.world.word == old(state.world.word)
      && state.world.writes == old(state.world.writes)
    }

    /** A move of this thread, or time that passes. */
    method Make(m: Move)
      requires Valid()
      modifies this`state, this`log, this`history
      ensures Valid() && state == Next(cfg, old(state), m) && Later(old(state.world), state.world)
      ensures Starts(history) == old(Starts(history)) + (if m.Start? then 1 else 0)
      ensures history == old(history) + [Own(m)]
    {
      ReplayAppend(cfg, me, start, history, Own(m));
      ReachedNext(cfg, start, log, state, m);
      state, log, history := Next(cfg, state, m), log + [m], history + [Own(m)];
    }

    /** The others act. */
    method Gap()
      requires Valid()
      modifies this
      ensures Valid() && GapFor(old(state), state, me) && Spent()
      ensures state == Between(cfg, old(state), me, old(schedule))
      ensures history == old(history) + (if old(schedule) == [] then [] else [Others(old(schedule)[0])])
    {
      if schedule != [] {
        var batch := schedule[0];
        ReplayAppend(cfg, me, start, history, Others(batch));
        log := OthersRunReached(cfg, start, log, state, me, batch);
        state, schedule, history := OthersRun(cfg, state, me, batch), schedule[1..], history + [Others(batch)];
      }
    }

    /** Once the others are done, time passes by itself until the counter is at its end. */
    method PassTime()
      requires Valid() && schedule == []
      modifies this`state, this`log, this`history
      ensures Valid() && GapFor(old(state), state, me) && Quiet() && Starts(history) == old(Starts(history))
      ensures state.world.clock > old(state.world.clock) || state.world.clock == U64_LIMIT - 1
    {
      if state.world.clock < U64_LIMIT - 1 {
        var cycles: nat :| 0 < cycles && state.world.clock + cycles < U64_LIMIT by {
          assert state.world.clock + 1 < U64_LIMIT;
        }
        Make(Tick(cycles));
      }
    }

    /** Once the schedule is used up, the others have played all of it. */
    ghost predicate Played()
      reads this
    {
      schedule == [] && Batches(history) == script
    }

    // ----- one access of this thread -----

    /** The state of a call that has just failed to compare and will now wait. */
    ghost predicate AboutToWait(call: Call)
      reads this
      requires me in state.threads
    {
      Mine().call == call && StartsWaiting(cfg, Mine(), state.world)
    }

    /** One of the three sanity checks. Only that of a read_unlock can fail. */
    method SanityCheck() returns (passed: bool)
      requires Valid() && Checking(Mine().pc)
      modifies this
      ensures Valid() && Accessed() && HoldsKept()
      ensures Later(old(state.world), state.world)
      ensures Mine() == old(Mine()).(pc := if passed then AfterCheck(old(Mine())) else Trapped)
      ensures passed <==> !FailsAtTheBound(cfg, old(Mine()), |state.readers|)
      ensures old(schedule) == [] ==> state.world == old(state.world) && Held(state) == old(Held(state))
    {
      Gap();
      Invariant();
      CheckStep(cfg, state, me);
      passed := !FailsAtTheBound(cfg, state.threads[me], |state.readers|);
      Make(Step(me, false));
    }

    /** A strong CAS. */
    method CompareExchange(expected: u32, desired: u32) returns (ok: bool, seen: u32)
      requires Valid() && AboutToCompare(Mine().pc, expected)
      requires desired == Desired(cfg.kind, Mine().call, expected)
      modifies this
      ensures Valid() && Accessed() && Mine().call == old(Mine()).call
      ensures Later(old(state.world), state.world)
      ensures ok ==> Took(old(Mine()).call) && state.world.word == desired
      ensures !ok ==> HoldsKept() && seen == state.world.word != expected
      ensures !ok && WaitsNext(old(Mine())) ==> AboutToWait(old(Mine()).call)
      ensures !ok && TriesOnce(old(Mine())) ==> Mine() == Finish(old(Mine()), false)
      ensures !ok && old(Mine()).pc.FirstCas? && old(Mine()).call.RdLock? ==> Mine().pc == SecondCas(ClearTop(seen))
      ensures old(schedule) == [] ==> (ok <==> old(state.world.word) == expected)
      ensures old(schedule) == [] && !ok ==> state.world == old(state.world)
    {
      Gap();
      Invariant();
      ComparingTakes(cfg, state, me, expected);
      CasStep(cfg, state, me, expected);
      seen := state.world.word;
      ok := seen == expected;
      Make(Step(me, false));
    }

    /** The load of trylock_shared. */
    method LoadShared() returns (value: u32)
      requires Valid() && Mine().pc.SharedLoad?
      modifies this
      ensures Valid() && Accessed() && HoldsKept()
      ensures value == state.world.word
      ensures old(schedule) == [] ==> state.world == old(state.world)
      ensures Mine().pc == SharedCas(ClearTop(value)) && Mine().call == old(Mine()).call
    {
      Gap();
      value := state.world.word;
      SharedLoadStep(cfg, state, me);
      Make(Step(me, false));
    }

    /** Store 0, or subtract one. */
    method Release()
      requires Valid() && Mine().pc.Releasing?
      modifies this
      ensures Valid() && Accessed() && Mine() == Finish(old(Mine()), true)
      ensures old(Mine()).call.ReadUnlock? ==>
                && old(state.readers[me]) > 0 && state.readers[me] == old(state.readers[me]) - 1
                && state.writers[me] == old(state.writers[me])
      ensures !old(Mine()).call.ReadUnlock? ==>
                state.world.word == 0 && state.writers == multiset{} == state.readers
    {
      Gap();
      Invariant();
      if state.threads[me].call.ReadUnlock? {
        ReadReleaseStep(cfg, state, me);
      } else {
        WriteReleaseStep(cfg, state, me);
      }
      Make(Step(me, false));
    }

    /** Returned successfully, with one hold more than before in the mode of the call. */
    twostate predicate Took(call: Call)
      reads this
      requires me in state.threads
    {
      && Mine().pc.Idle? && Mine().ok
      && state.readers[me] == old(state.readers[me]) + (if ChangeOf(call).TakeRead? then 1 else 0)
      && state.writers[me] == old(state.writers[me]) + (if ChangeOf(call).TakeRead? then 0 else 1)
    }

    /** One gap of a wait and, unless asleep, one step. */
    method WaitAmongOthers() returns (r: WaitReturn)
      requires Valid() && Mine().pc.Waiting? && schedule != []
      modifies this
      ensures Valid() && Waited(old(state), state, me, r) && Spent() && !r.Asleep?
      ensures r.StillWaiting? ==> Mine().pc.w.loaded >= old(Mine()).pc.w.loaded
      ensures r.Returned? ==> Mine().log.loaded >= old(Mine()).pc.w.loaded
    {
      Gap();
      var w, woken := state.threads[me].pc.w, *;
      if !CanStep(w, state.world, woken) {
        return StillWaiting;
      }
      Invariant();
      GapThenWaitingStep(cfg, old(state), state, me, woken);
      Make(Step(me, woken));
      r := OutcomeOf(state.threads[me].pc, w);
    }

    /** One step of a wait that nobody disturbs any more. A wait that ends by itself takes time. */
    method WaitUndisturbed() returns (r: WaitReturn)
      requires Valid() && Mine().pc.Waiting? && schedule == []
      requires !Parked(cfg.backend, Mine().pc.w, state.world)
      modifies this
      ensures Valid() && Waited(old(state), state, me, r) && Quiet() && !r.Asleep?
      ensures Starts(history) == old(Starts(history))
      ensures r.StillWaiting? ==> Mine().pc.w.loaded >= old(Mine()).pc.w.loaded
      ensures r.Returned? ==> Mine().log.loaded >= old(Mine()).pc.w.loaded
      ensures old(FirstPass(cfg.backend, Mine().pc.w, state.world)) ==>
                && !r.TimedOut?
                && (r.StillWaiting? ==> FirstPass(cfg.backend, Mine().pc.w, state.world))
      ensures r.StillWaiting? ==>
                || state.world.clock > old(state.world.clock)
                || Left(cfg.backend, Mine().pc.w, state.world)
                   < Left(cfg.backend, old(Mine()).pc.w, old(state.world))
    {
      var w := state.threads[me].pc.w;
      var timed := EndsByItself(cfg.backend, w.budget);
      if timed {
        PassTime();
      }
      Invariant();
      WaitingAlone(cfg, state, me);
      GapThenWaitingStep(cfg, old(state), state, me, timed);
      Make(Step(me, timed));
      r := OutcomeOf(state.threads[me].pc, w);
    }

    /** A call of the wait function that detection installed, on this lock's word. */
    method WaitFor() returns (r: WaitReturn)
      requires Valid() && StartsWaiting(cfg, Mine(), state.world)
      modifies this
      ensures Valid() && Waited(old(state), state, me, r) && !r.StillWaiting? && |schedule| <= |old(schedule)|
      ensures Starts(history) == old(Starts(history))
      ensures old(schedule) == [] ==> Quiet()
      ensures r.Returned? && old(schedule) == [] ==> Mine().log.loaded == state.world.writes
      ensures r.Asleep? ==> schedule == [] && !Sat(GoalOf(Mine().call), state.world.word)
      ensures r.Asleep? ==> !EndsByItself(cfg.backend, BudgetOf(Mine().call))
      ensures r.TimedOut? && old(schedule) == [] ==> EndsByItself(cfg.backend, BudgetOf(Mine().call))
    {
      r := StillWaiting;
      while r.StillWaiting?
        invariant Valid() && Waited(old(state), state, me, r) && |schedule| <= |old(schedule)|
        invariant Starts(history) == old(Starts(history))
        invariant !r.Asleep?
        invariant r.StillWaiting? ==> Mine().pc.w.loaded >= old(state.world.writes)
        invariant r.Returned? ==> Mine().log.loaded >= old(state.world.writes)
        invariant old(schedule) == [] ==> Quiet()
        invariant old(schedule) == [] && !EndsByItself(cfg.backend, BudgetOf(Mine().call)) ==>
                    !r.TimedOut? && (r.StillWaiting? ==> FirstPass(cfg.backend, Mine().pc.w, state.world))
        decreases r.StillWaiting?, |schedule|, U64_LIMIT - state.world.clock,
                  if r.StillWaiting? then Left(cfg.backend, Mine().pc.w, state.world) else 0
      {
        if schedule != [] {
          r := WaitAmongOthers();
        } else {
          Invariant();
          WaitingAlone(cfg, state, me);
          if Parked(cfg.backend, state.threads[me].pc.w, state.world) {
            return Asleep;
          }
          r := WaitUndisturbed();
        }
      }
    }

    // ----- the calls -----

    method Begin(call: Call)
      requires Valid() && Mine().pc.Idle? && Offers(cfg.kind, call) && Disciplined(state, me, call)
      modifies this
      ensures Valid() && schedule == old(schedule) && state.world == old(state.world)
      ensures CalledOnce() && history == old(history) + [Own(Start(me, call))]
      ensures Held(state) == old(Held(state)) && Mine() == BeginCall(call, state.world)
      ensures FreeFor(call, Held(state)) <==>
                if call.RdLock? || call.TryLockShared? then !HasTop(state.world.word) else state.world.word == 0
    {
      Invariant();
      GoalMeansFree(cfg, state, call);
      Make(Start(me, call));
    }

    /** The wait of a retry loop and the checks after it. If nobody interferes any more, what it returns
        is in the word and was there all along. A wait that ends by itself does not stay asleep. */
    method WaitAndCheck(call: Call) returns (r: WaitReturn)
      requires Valid() && AboutToWait(call)
      modifies this
      ensures Valid() && HoldsKept() && |schedule| <= |old(schedule)| && !r.StillWaiting?
      ensures Starts(history) == old(Starts(history))
      ensures Later(old(state.world), state.world)
      ensures old(schedule) == [] ==> Quiet()
      ensures r.Returned? ==> Mine().call == call && Mine().pc == RetryCas(r.value)
      ensures r.Returned? ==> if call.RdLock? then !HasTop(r.value) else r.value == 0
      ensures r.Returned? && old(schedule) == [] ==> state.world.word == r.value
      ensures r.Asleep? ==> Played() && !FreeFor(call, Held(state)) && !EndsByItself(cfg.backend, BudgetOf(call))
      ensures r.TimedOut? && old(schedule) == [] ==> EndsByItself(cfg.backend, BudgetOf(call))
      ensures r.TimedOut? ==>
                && Mine().pc.Idle? && !Mine().ok && call.TimedWrLock?
                && old(state.world.clock) <= r.begun <= state.world.clock
                && (state.world.clock - r.begun >= call.cycles <==> r.begun + call.cycles < U64_LIMIT)
    {
      r := WaitFor();
      Invariant();
      if r.Asleep? {
        GoalMeansFree(cfg, state, call);
      } else if r.Returned? {
        var _ := SanityCheck();
        Invariant();
        assert ThreadInv(cfg, Mine(), state.world, state.writers[me], state.readers[me]);
        if call.RdLock? {
          TopIsBit31(r.value);
        }
      }
    }

    /** The start of rdlock, before any wait: for a free lock, and then for one that only readers hold. */
    method ReadAtOnce() returns (ok: bool, expected: u32)
      requires Valid() && Mine().pc.Idle? && cfg.kind.RwLock?
      modifies this
      ensures Valid() && CalledOnce()
      ensures ok ==> Took(Call.RdLock)
      ensures !ok ==> AboutToWait(Call.RdLock) && HoldsKept()
      ensures old(schedule) == [] ==>
                && schedule == []
                && (!ok ==> state.world.word == old(state.world.word))
                && (ok <==> !HasTop(old(state.world.word)))
                && (ok <==> old(FreeFor(Call.RdLock, Held(state))))
    {
      Begin(Call.RdLock);
      var _ := SanityCheck();
      ok, expected := CompareExchange(0, Inc(0));
      if !ok {
        expected := ClearTop(expected);
        ok, expected := CompareExchange(expected, Inc(expected));
      }
    }

    /** wfe_mutex_rwlock_rdlock. Blocked only while a writer keeps the lock or the word has no room for
        another reader; undisturbed, exactly then. */
    method RdLock() returns (r: CallResult)
      requires Valid() && Mine().pc.Idle? && cfg.kind.RwLock?
      modifies this
      ensures Valid() && CalledOnce() && !r.Failed?
      ensures r.Acquired? ==> Took(Call.RdLock)
      ensures r.Blocked? ==> HoldsKept() && Played() && !FreeFor(Call.RdLock, Held(state))
      ensures old(schedule) == [] ==> (r.Acquired? <==> old(FreeFor(Call.RdLock, Held(state))))
    {
      var ok, expected := ReadAtOnce();
      while !ok
        invariant Valid() && CalledOnce() && (ok ==> Took(Call.RdLock))
        invariant !ok ==> AboutToWait(Call.RdLock) && HoldsKept()
        invariant old(schedule) == [] ==> schedule == []
        invariant old(schedule) == [] && !ok ==> HasTop(state.world.word)
        invariant old(schedule) == [] ==> (ok <==> old(FreeFor(Call.RdLock, Held(state))))
        decreases !ok, |schedule|
      {
        var wait := WaitAndCheck(Call.RdLock);
        if wait.Asleep? {
          return Blocked;
        }
        expected := wait.value;
        ok, expected := CompareExchange(expected, Inc(expected));
      }
      r := Acquired;
    }

    /** wfe_mutex_rwlock_wrlock and wfe_mutex_lock_lock. Blocked only while somebody holds the lock;
        undisturbed, exactly then. */
    method WrLock() returns (r: CallResult)
      requires Valid() && Mine().pc.Idle?
      modifies this
      ensures Valid() && CalledOnce() && !r.Failed?
      ensures r.Acquired? ==> Took(Call.WrLock)
      ensures r.Blocked? ==> HoldsKept() && Played() && !FreeFor(Call.WrLock, Held(state))
      ensures old(schedule) == [] ==> (r.Acquired? <==> old(FreeFor(Call.WrLock, Held(state))))
    {
      var desired := WriteWord(cfg.kind);
      Begin(Call.WrLock);
      var _ := SanityCheck();
      var ok, seen := CompareExchange(0, desired);
      while !ok
        invariant Valid() && CalledOnce() && (ok ==> Took(Call.WrLock))
        invariant !ok ==> AboutToWait(Call.WrLock) && HoldsKept()
        invariant old(schedule) == [] ==> schedule == []
        invariant old(schedule) == [] && !ok ==> state.world.word != 0
        invariant old(schedule) == [] ==> (ok <==> old(FreeFor(Call.WrLock, Held(state))))
        decreases !ok, |schedule|
      {
        var wait := WaitAndCheck(Call.WrLock);
        if wait.Asleep? {
          return Blocked;
        }
        ok, seen := CompareExchange(0, desired);
      }
      r := Acquired;
    }

    /** What a timed lock with a budget in cycles has come to. Failed means that the whole budget
        has passed since the call began, exactly if the deadline, fixed when the counter read `begun`, did not
        wrap. Only backends and budgets that do not end by themselves can be left blocked: undisturbed,
        exactly they are. */
    twostate predicate TimedLocked(cycles: u64, r: CallResult, begun: u64)
      reads this
    {
      var call := Call.TimedWrLock(cycles);
      && Valid() && CalledOnce()
      && (r.Acquired? ==> Took(call))
      && (r.Failed? ==>
          && HoldsKept() && Mine().pc.Idle? && !Mine().ok
          && old(state.world.clock) <= begun <= state.world.clock
          && (state.world.clock - begun >= cycles <==> begun + cycles < U64_LIMIT))
      && (r.Blocked? ==>
          HoldsKept() && Played() && !FreeFor(call, Held(state)) && !EndsByItself(cfg.backend, Timed(cycles)))
      && (old(schedule) == [] ==>
          && (r.Acquired? <==> old(FreeFor(call, Held(state))))
          && (!r.Acquired? ==> (r.Blocked? <==> !EndsByItself(cfg.backend, Timed(cycles)))))
    }

    /** wfe_mutex_rwlock_timedwrlock and wfe_mutex_lock_timedlock, for a budget in cycles. */
    method TimedWrLock(cycles: u64) returns (r: CallResult, begun: u64)
      requires Valid() && Mine().pc.Idle?
      modifies this
      ensures TimedLocked(cycles, r, begun)
    {
      var desired := WriteWord(cfg.kind);
      begun := 0;
      Begin(Call.TimedWrLock(cycles));
      var _ := SanityCheck();
      var ok, seen := CompareExchange(0, desired);
      while !ok
        invariant Valid() && CalledOnce() && (ok ==> Took(Call.TimedWrLock(cycles)))
        invariant Later(old(state.world), state.world)
        invariant !ok ==> AboutToWait(Call.TimedWrLock(cycles)) && HoldsKept()
        invariant old(schedule) == [] ==> schedule == []
        invariant old(schedule) == [] && !ok ==> state.world.word != 0
        invariant old(schedule) == [] ==> (ok <==> old(FreeFor(Call.TimedWrLock(cycles), Held(state))))
        decreases !ok, |schedule|
      {
        var wait := WaitAndCheck(Call.TimedWrLock(cycles));
        if wait.Asleep? {
          return Blocked, begun;
        } else if wait.TimedOut? {
          return Failed, wait.begun;
        }
        ok, seen := CompareExchange(0, desired);
      }
      r := Acquired;
    }

    /** wfe_mutex_rwlock_trylock and wfe_mutex_lock_trylock: two accesses, a check and a CAS. It fails exactly
        when the CAS finds the lock held, and then nothing of this thread's has changed. */
    method TryLock() returns (r: CallResult)
      requires Valid() && Mine().pc.Idle?
      modifies this
      ensures Valid() && CalledOnce() && !r.Blocked?
      ensures history == old(history) + TwoTurns(me, Call.TryLock, old(schedule))
      ensures schedule == Rest(Rest(old(schedule))) && (r.Acquired? <==> Mine().ok)
      ensures r.Acquired? ==> Took(Call.TryLock)
      ensures r.Failed? ==>
                HoldsKept() && Mine().pc.Idle? && !Mine().ok && !FreeFor(Call.TryLock, Held(state))
      ensures old(schedule) == [] ==> (r.Acquired? <==> old(FreeFor(Call.TryLock, Held(state))))
    {
      Begin(Call.TryLock);
      var _ := SanityCheck();
      var ok, seen := CompareExchange(0, WriteWord(cfg.kind));
      Invariant();
      GoalMeansFree(cfg, state, Call.TryLock);
      r := if ok then Acquired else Failed;
    }

    /** wfe_mutex_rwlock_trylock_shared: three accesses, a check, a load and a CAS, which succeeds exactly if it
        finds the word that was loaded, with the top bit cleared. Undisturbed, it fails exactly when a
        writer holds or the word has no room for another reader. */
    method TryLockShared() returns (r: CallResult)
      requires Valid() && Mine().pc.Idle? && cfg.kind.RwLock?
      modifies this
      ensures Valid() && CalledOnce() && !r.Blocked?
      ensures history == old(history) + TwoTurns(me, Call.TryLockShared, old(schedule))
                         + Turn(me, Rest(Rest(old(schedule))))
      ensures schedule == Rest(Rest(Rest(old(schedule)))) && (r.Acquired? <==> Mine().ok)
      ensures r.Acquired? ==> Took(Call.TryLockShared)
      ensures r.Failed? ==> HoldsKept() && Mine().pc.Idle? && !Mine().ok
      ensures old(schedule) == [] ==> (r.Acquired? <==> old(FreeFor(Call.TryLockShared, Held(state))))
    {
      Begin(Call.TryLockShared);
      var _ := SanityCheck();
      var value := LoadShared();
      assert history == old(history) + TwoTurns(me, Call.TryLockShared, old(schedule));
      var expected := ClearTop(value);
      var ok, seen := CompareExchange(expected, Inc(expected));
      r := if ok then Acquired else Failed;
    }

    /** wfe_mutex_rwlock_unlock and wfe_mutex_lock_unlock by the holder: nobody holds the lock when the
        store is done. */
    method Unlock()
      requires Valid() && Mine().pc.Idle? && state.writers[me] > 0
      modifies this
      ensures Valid() && CalledOnce() && Mine().pc.Idle? && Mine().ok
      ensures schedule == Rest(Rest(Rest(old(schedule))))
      ensures state.world.word == 0 && state.writers == multiset{} == state.readers
    {
      Begin(Call.Unlock);
      var _ := SanityCheck();
      var _ := SanityCheck();
      Release();
    }

    /** wfe_mutex_rwlock_read_unlock gives back one read hold, but in a debug build that finds the greatest
        number of read holds it traps. */
    method ReadUnlock() returns (trapped: bool)
      requires Valid() && Mine().pc.Idle? && state.readers[me] > 0
      modifies this
      ensures Valid() && CalledOnce() && state.writers[me] == old(state.writers[me])
      ensures schedule == if trapped then Rest(Rest(old(schedule))) else Rest(Rest(Rest(old(schedule))))
      ensures !trapped ==> Mine().pc.Idle? && Mine().ok && state.readers[me] == old(state.readers[me]) - 1
      ensures trapped ==> cfg.debug && HoldsKept() && Mine().pc.Trapped? && |state.readers| == MAX_READERS
      ensures old(schedule) == [] ==> (trapped <==> cfg.debug && old(|state.readers|) == MAX_READERS)
    {
      Invariant();
      Begin(Call.ReadUnlock);
      var _ := SanityCheck();
      var passed := SanityCheck();
      if !passed {
        return true;
      }
      Release();
      trapped := false;
    }
  }
}
