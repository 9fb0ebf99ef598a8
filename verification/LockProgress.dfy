/** No stuck state: whatever the others did before they stopped, a waiter that finds the lock available
    takes it in a fixed number of its own steps, asleep or not, with a stale `expected` or not. */
module LockProgress {
  import opened Words
  import opened WaitEngine
  import opened Encoding
  import opened LockMachine
  import opened LockSafety
  import A = AbstractLock

  /** `t` alone takes `n` steps, and nothing wakes it but its monitor. */
  function Alone(cfg: Config, s: State, t: Tid, n: nat): State
    decreases n
  {
    if n == 0 then s else Alone(cfg, Next(cfg, s, Step(t, false)), t, n - 1)
  }

  predicate Acquiring(th: Thread) {
    !th.pc.Idle? && (th.call.RdLock? || th.call.WrLock?)
  }

  /** The word is what the call waits for. */
  ghost predicate Available(call: Call, s: State) {
    Sat(GoalOf(call), s.world.word)
  }

  /** How many own steps are left at most. */
  function Distance(cfg: Config, th: Thread, world: World): nat {
    match th.pc
    case EntryCheck => 19
    case FirstCas => 18
    case SecondCas(expected) => if world.word == expected then 1 else 17
    case Waiting(w) => 3 + Rank(cfg.backend, w, world)
    case RetryCheck(expected) => if world.word == expected then 2 else 18
    case RetryCas(expected) => if world.word == expected then 1 else 17
    case _ => 0
  }

  const STEP_BOUND: nat := 19

  /** The call has returned with the one hold it asked for. */
  ghost predicate Acquired(before: State, after: State, t: Tid, call: Call) {
    && t in after.threads
    && after.threads[t].pc.Idle?
    && after.threads[t].ok
    && Held(after) == A.Do(Held(before), A.Action(t, ChangeOf(call)))
  }

  ghost predicate Closer(cfg: Config, before: State, after: State, t: Tid)
    requires t in before.threads
  {
    && after.world == before.world
    && Held(after) == Held(before)
    && t in after.threads
    && after.threads[t].call == before.threads[t].call
    && !after.threads[t].pc.Idle?
    && Distance(cfg, after.threads[t], after.world) < Distance(cfg, before.threads[t], before.world)
  }

  /** One thread's own step, seen alone. */
  ghost predicate StepCloser(cfg: Config, th: Thread, world: World)
    requires !th.pc.Idle? && !th.pc.Trapped?
  {
    var e := ThreadStep(cfg, th, world);
    && CanAct(th, world, false)
    && if e.store.Keep? then
         && e.thread.call == th.call
         && !e.thread.pc.Idle?
         && Distance(cfg, e.thread, world) < Distance(cfg, th, world)
       else
         && e.store.change == ChangeOf(th.call)
         && e.thread.pc.Idle? && e.thread.ok
  }

  lemma WaitingStepsCloser(cfg: Config, th: Thread, world: World, exclusive: nat, shared: nat)
    requires ThreadInv(cfg, th, world, exclusive, shared) && Acquiring(th) && th.pc.Waiting?
    requires Sat(GoalOf(th.call), world.word)
    ensures StepCloser(cfg, th, world)
  {
    AloneProgress(cfg.backend, th.pc.w, world);
    StepKeeps(cfg.backend, th.pc.w, world);
  }

  lemma FirstCasStepsCloser(cfg: Config, th: Thread, world: World, exclusive: nat, shared: nat)
    requires ThreadInv(cfg, th, world, exclusive, shared) && Acquiring(th) && th.pc.FirstCas?
    requires Sat(GoalOf(th.call), world.word)
    ensures StepCloser(cfg, th, world)
  {
    TopIsBit31(world.word);
  }

  lemma OtherStepsCloser(cfg: Config, t: Tid, th: Thread, world: World, held: A.Lock)
    requires ThreadInv(cfg, th, world, held.writers[t], held.readers[t])
    requires Encodes(cfg.kind, world.word, held)
    requires Acquiring(th) && !th.pc.Waiting? && !th.pc.FirstCas?
    requires Sat(GoalOf(th.call), world.word)
    ensures StepCloser(cfg, th, world)
  {
    ChecksPass(cfg.kind, th.call, world.word, held, t);
    if th.pc.RetryCheck? && th.call.RdLock? {
      TopIsBit31(th.pc.expected);
    }
  }

  lemma OwnStepIsCloser(cfg: Config, t: Tid, th: Thread, world: World, held: A.Lock)
    requires ThreadInv(cfg, th, world, held.writers[t], held.readers[t])
    requires Encodes(cfg.kind, world.word, held)
    requires Acquiring(th) && Sat(GoalOf(th.call), world.word)
    ensures StepCloser(cfg, th, world)
    ensures 0 < Distance(cfg, th, world)
  {
    if th.pc.Waiting? {
      WaitingStepsCloser(cfg, th, world, held.writers[t], held.readers[t]);
    } else if th.pc.FirstCas? {
      FirstCasStepsCloser(cfg, th, world, held.writers[t], held.readers[t]);
    } else {
      OtherStepsCloser(cfg, t, th, world, held);
    }
  }

  lemma NextIsCloser(cfg: Config, s: State, t: Tid)
    requires t in s.threads && Acquiring(s.threads[t]) && !s.threads[t].pc.Trapped?
    requires StepCloser(cfg, s.threads[t], s.world)
    ensures var after := Next(cfg, s, Step(t, false));
            || Acquired(s, after, t, s.threads[t].call)
            || (Closer(cfg, s, after, t) && after.readers == s.readers)
    ensures Enabled(cfg, s, Step(t, false))
  {
  }

  lemma {:induction false} AloneAcquires(cfg: Config, s: State, t: Tid) returns (n: nat)
    requires Inv(cfg, s) && t in s.threads && Acquiring(s.threads[t]) && Available(s.threads[t].call, s)
    ensures 0 < n <= Distance(cfg, s.threads[t], s.world)
    ensures Acquired(s, Alone(cfg, s, t, n), t, s.threads[t].call)
    decreases Distance(cfg, s.threads[t], s.world)
  {
    var after := Next(cfg, s, Step(t, false));
    OwnStepIsCloser(cfg, t, s.threads[t], s.world, Held(s));
    NextIsCloser(cfg, s, t);
    if Acquired(s, after, t, s.threads[t].call) {
      n := 1;
      assert Alone(cfg, after, t, 0) == after;
    } else {
      StepKeepsInv(cfg, s, t, false);
      n := AloneAcquires(cfg, after, t);
      n := n + 1;
    }
  }

  lemma DistanceBound(cfg: Config, th: Thread, world: World)
    requires th.pc.Waiting? ==> WaitInv(cfg.backend, th.pc.w, world)
    ensures Distance(cfg, th, world) <= STEP_BOUND
  {
    if th.pc.Waiting? {
      AloneProgress(cfg.backend, th.pc.w, world);
    }
  }

  /** From any state a run can reach: if the lock is available to a blocked rdlock or wrlock, that
      thread acquires it within a fixed number of its own steps. */
  lemma NoStuckState(cfg: Config, s: State, moves: seq<Move>, t: Tid)
    requires Initial(cfg, s)
    requires var end := Run(cfg, s, moves);
             t in end.threads && Acquiring(end.threads[t]) && Available(end.threads[t].call, end)
    ensures var end := Run(cfg, s, moves);
            exists n: nat :: n <= STEP_BOUND && Acquired(end, Alone(cfg, end, t, n), t, end.threads[t].call)
  {
    InitialInv(cfg, s);
    RunsRefine(cfg, s, moves);
    var end := Run(cfg, s, moves);
    assert ThreadInv(cfg, end.threads[t], end.world, end.writers[t], end.readers[t]);
    DistanceBound(cfg, end.threads[t], end.world);
    var n := AloneAcquires(cfg, end, t);
  }

  /** Availability in terms of holders: no holders at all, or for a reader no writer and fewer than the
      greatest number of read holds. */
  lemma AvailableWhenReleased(cfg: Config, s: State, call: Call)
    requires Inv(cfg, s) && (call.RdLock? || call.WrLock?)
    requires call.RdLock? ==> cfg.kind.RwLock?
    ensures Available(call, s) <==>
              (if call.RdLock? then s.writers == multiset{} && |s.readers| < MAX_READERS
               else s.writers == multiset{} == s.readers)
  {
    GoalMeansFree(cfg, s, call);
  }

  // ----- how many accesses -----

  lemma AloneSteps(cfg: Config, s: State, t: Tid)
    ensures var s1 := Next(cfg, s, Step(t, false));
            var s2 := Next(cfg, s1, Step(t, false));
            && Alone(cfg, s, t, 1) == s1
            && Alone(cfg, s, t, 2) == s2
            && Alone(cfg, s, t, 3) == Next(cfg, s2, Step(t, false))
  {
    var s1 := Next(cfg, s, Step(t, false));
    var s2 := Next(cfg, s1, Step(t, false));
    assert Alone(cfg, s1, t, 2) == Alone(cfg, s2, t, 1);
    assert Alone(cfg, s1, t, 1) == s2;
  }

  /** `t` alone returns with exactly its `n`th step, with that result. */
  ghost predicate ReturnsWith(cfg: Config, s: State, t: Tid, n: nat, ok: bool) {
    && n > 0
    && t in Alone(cfg, s, t, n - 1).threads && !Alone(cfg, s, t, n - 1).threads[t].pc.Idle?
    && t in Alone(cfg, s, t, n).threads
    && Alone(cfg, s, t, n).threads[t].pc.Idle? && Alone(cfg, s, t, n).threads[t].ok == ok
  }

  /** `t` alone starts to wait with exactly its `n`th step. */
  ghost predicate WaitsWith(cfg: Config, s: State, t: Tid, n: nat) {
    && n > 0
    && t in Alone(cfg, s, t, n - 1).threads
    && !Alone(cfg, s, t, n - 1).threads[t].pc.Waiting? && !Alone(cfg, s, t, n - 1).threads[t].pc.Idle?
    && t in Alone(cfg, s, t, n).threads && Alone(cfg, s, t, n).threads[t].pc.Waiting?
  }

  /** A call just begun, as a state. */
  ghost predicate JustBegun(cfg: Config, s: State, t: Tid, call: Call) {
    Inv(cfg, s) && t in s.threads && s.threads[t] == BeginCall(call, s.world)
  }

  lemma EntryPasses(cfg: Config, s: State, t: Tid, call: Call)
    requires JustBegun(cfg, s, t, call)
    ensures var th := s.threads[t];
            Next(cfg, s, Step(t, false)) == s.(threads := s.threads[t := th.(pc := AfterCheck(th))])
  {
    assert ThreadInv(cfg, s.threads[t], s.world, s.writers[t], s.readers[t]);
    ChecksPass(cfg.kind, call, s.world.word, Held(s), t);
  }

  lemma SecondCheck(cfg: Config, s: State, t: Tid)
    requires t in s.threads && s.threads[t].pc.ReleaseCheck?
    requires ThreadInv(cfg, s.threads[t], s.world, s.writers[t], s.readers[t])
    requires Encodes(cfg.kind, s.world.word, Held(s))
    ensures var th := s.threads[t];
            var pc := if FailsAtTheBound(cfg, th, |s.readers|) then Trapped else Releasing;
            Next(cfg, s, Step(t, false)) == s.(threads := s.threads[t := th.(pc := pc)])
  {
    ChecksPass(cfg.kind, s.threads[t].call, s.world.word, Held(s), t);
  }

  /** A check and a CAS: trylock always, and an exclusive lock on a free word. On a word that is
      not free these two lead it into a wait. */
  lemma ExclusiveCallsTakeTwo(cfg: Config, s: State, t: Tid, call: Call)
    requires JustBegun(cfg, s, t, call) && (call.TryLock? || call.WrLock? || call.TimedWrLock?)
    ensures call.TryLock? || Held(s) == A.FREE ==> ReturnsWith(cfg, s, t, 2, Held(s) == A.FREE)
    ensures !call.TryLock? && Held(s) != A.FREE ==> WaitsWith(cfg, s, t, 2)
  {
    assert ThreadInv(cfg, s.threads[t], s.world, s.writers[t], s.readers[t]);
    AloneSteps(cfg, s, t);
    EntryPasses(cfg, s, t, call);
  }

  /** A check and one CAS for a reader on a free word, a second CAS on a word that only readers hold, and then a
      wait. */
  lemma ReadersTakeTwoOrThree(cfg: Config, s: State, t: Tid)
    requires JustBegun(cfg, s, t, RdLock)
    ensures Held(s) == A.FREE ==> ReturnsWith(cfg, s, t, 2, true)
    ensures Held(s) != A.FREE && FreeFor(RdLock, Held(s)) ==> ReturnsWith(cfg, s, t, 3, true)
    ensures !FreeFor(RdLock, Held(s)) ==> WaitsWith(cfg, s, t, 3)
  {
    assert ThreadInv(cfg, s.threads[t], s.world, s.writers[t], s.readers[t]);
    AloneSteps(cfg, s, t);
    EntryPasses(cfg, s, t, RdLock);
  }

  /** A check, a load and a CAS. */
  lemma SharedTriesTakeThree(cfg: Config, s: State, t: Tid)
    requires JustBegun(cfg, s, t, TryLockShared)
    ensures ReturnsWith(cfg, s, t, 3, FreeFor(TryLockShared, Held(s)))
  {
    assert ThreadInv(cfg, s.threads[t], s.world, s.writers[t], s.readers[t]);
    AloneSteps(cfg, s, t);
    EntryPasses(cfg, s, t, TryLockShared);
  }

  /** Two checks and a store or a fetch_sub, unless the second check fails. */
  lemma UnlocksTakeThree(cfg: Config, s: State, t: Tid, call: Call)
    requires JustBegun(cfg, s, t, call) && (call.Unlock? || call.ReadUnlock?)
    ensures if cfg.debug && call.ReadUnlock? && |s.readers| == MAX_READERS then
              t in Alone(cfg, s, t, 2).threads && Alone(cfg, s, t, 2).threads[t].pc.Trapped?
            else ReturnsWith(cfg, s, t, 3, true)
  {
    assert ThreadInv(cfg, s.threads[t], s.world, s.writers[t], s.readers[t]);
    AloneSteps(cfg, s, t);
    EntryPasses(cfg, s, t, call);
    SecondCheck(cfg, Next(cfg, s, Step(t, false)), t);
  }
}
