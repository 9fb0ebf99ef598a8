/** What the invariant means for callers: wakeups, retries, results of try and timed calls, and the debug
    checks. */
module LockProperties {
  import opened Words
  import opened WaitEngine
  import opened Encoding
  import opened LockMachine
  import opened LockSafety
  import A = AbstractLock

  // ----- wakeups -----

  /** No lost wakeup, over whole runs: a sleeper whose condition holds can go on without help. */
  lemma SleepersAreWoken(cfg: Config, s: State, moves: seq<Move>, t: Tid)
    requires Initial(cfg, s) && t in s.threads
    ensures var end := Run(cfg, s, moves);
            && t in end.threads
            && var th := end.threads[t];
            (th.pc.Waiting? && th.pc.w.stage.Sleep? && Sat(GoalOf(th.call), end.world.word) ==>
             CanAct(th, end.world, false))
  {
    InitialInv(cfg, s);
    RunsRefine(cfg, s, moves);
    RunsKeepThreads(cfg, s, moves);
    var end := Run(cfg, s, moves);
    var th := end.threads[t];
    if th.pc.Waiting? && th.pc.w.stage.Sleep? && Sat(GoalOf(th.call), end.world.word) {
      NoLostWakeup(cfg.backend, th.pc.w, end.world);
    }
  }

  lemma {:induction false} RunsKeepThreads(cfg: Config, s: State, moves: seq<Move>)
    ensures Run(cfg, s, moves).threads.Keys == s.threads.Keys
    decreases |moves|
  {
    if moves != [] {
      RunsKeepThreads(cfg, Next(cfg, s, moves[0]), moves[1..]);
    }
  }

  // ----- retries -----

  /** A CAS that fails after a wait was overtaken: the word was written since the wait loaded it. */
  lemma FailedRetryWasOvertaken(cfg: Config, s: State, t: Tid)
    requires Inv(cfg, s) && t in s.threads && s.threads[t].pc.RetryCas?
    requires !Next(cfg, s, Step(t, false)).threads[t].pc.Idle?
    ensures s.world.writes > s.threads[t].log.loaded
    ensures Next(cfg, s, Step(t, false)).threads[t].log.retries == s.threads[t].log.retries + 1
  {
    assert ThreadInv(cfg, s.threads[t], s.world, s.writers[t], s.readers[t]);
  }

  /** How many of the moves write the word for a thread other than `t`. */
  function OthersWrites(cfg: Config, s: State, moves: seq<Move>, t: Tid): nat
    decreases |moves|
  {
    if moves == [] then 0
    else
      var next := Next(cfg, s, moves[0]);
      var wrote := moves[0].Step? && moves[0].t != t && next.world.writes > s.world.writes;
      (if wrote then 1 else 0) + OthersWrites(cfg, next, moves[1..], t)
  }

  /** `t` stays inside its call for the whole run. */
  ghost predicate InCall(cfg: Config, s: State, moves: seq<Move>, t: Tid)
    decreases |moves|
  {
    && t in s.threads
    && !s.threads[t].pc.Idle?
    && (moves != [] ==> InCall(cfg, Next(cfg, s, moves[0]), moves[1..], t))
  }

  lemma {:induction false} WritesInCallAreOthers(cfg: Config, s: State, moves: seq<Move>, t: Tid)
    requires Inv(cfg, s) && InCall(cfg, s, moves, t)
    ensures Run(cfg, s, moves).world.writes == s.world.writes + OthersWrites(cfg, s, moves, t)
    ensures t in Run(cfg, s, moves).threads
    ensures !Run(cfg, s, moves).threads[t].pc.Idle?
    ensures Run(cfg, s, moves).threads[t].log.startWrites == s.threads[t].log.startWrites
    decreases |moves|
  {
    if moves != [] {
      var m, next := moves[0], Next(cfg, s, moves[0]);
      NextKeepsInv(cfg, s, m);
      OneMoveInCall(cfg, s, m, t);
      WritesInCallAreOthers(cfg, next, moves[1..], t);
    }
  }

  lemma OneMoveInCall(cfg: Config, s: State, m: Move, t: Tid)
    requires Inv(cfg, s) && t in s.threads && !s.threads[t].pc.Idle?
    requires !Next(cfg, s, m).threads[t].pc.Idle?
    ensures var next := Next(cfg, s, m);
            && next.threads[t].log.startWrites == s.threads[t].log.startWrites
            && s.world.writes <= next.world.writes <= s.world.writes + 1
            && (next.world.writes > s.world.writes ==> m.Step? && m.t != t)
  {
    if m.Step? && Enabled(cfg, s, m) && m.t == t {
      var th := s.threads[t];
      assert ThreadInv(cfg, th, s.world, s.writers[t], s.readers[t]);
      StepShape(cfg, th, s.world, s.writers[t], s.readers[t]);
      OwnStepKeeps(cfg, t, th, s.world, Held(s));
    }
  }

  /** Retries are paid for by others: a call never retries more often than other threads wrote the
      word while it ran. */
  lemma RetriesPaidByOthers(cfg: Config, s: State, moves: seq<Move>, t: Tid)
    requires Inv(cfg, s) && InCall(cfg, s, moves, t)
    requires s.threads[t] == BeginCall(s.threads[t].call, s.world)
    ensures t in Run(cfg, s, moves).threads
    ensures Run(cfg, s, moves).threads[t].log.retries <= OthersWrites(cfg, s, moves, t)
  {
    RunsRefine(cfg, s, moves);
    WritesInCallAreOthers(cfg, s, moves, t);
    var end := Run(cfg, s, moves);
    assert ThreadInv(cfg, end.threads[t], end.world, end.writers[t], end.readers[t]);
  }

  // ----- results -----

  /** The step by which `t` returns from its call. */
  ghost predicate Returns(cfg: Config, s: State, t: Tid, woken: bool) {
    && Enabled(cfg, s, Step(t, woken))
    && Next(cfg, s, Step(t, woken)).threads[t].pc.Idle?
  }

  /** Success is exactly one change of ownership; failure changes neither the word nor a hold, and comes
      only from calls that may fail. */
  lemma ResultsTellOwnership(cfg: Config, s: State, t: Tid, woken: bool)
    requires Inv(cfg, s) && Returns(cfg, s, t, woken)
    ensures var after := Next(cfg, s, Step(t, woken));
            var call := s.threads[t].call;
            if after.threads[t].ok then
              && Held(after) == A.Do(Held(s), A.Action(t, ChangeOf(call)))
              && (call.Unlock? || call.ReadUnlock? || FreeFor(call, Held(s)))
            else
              && Held(after) == Held(s)
              && after.world == s.world
              && (call.TryLock? || call.TryLockShared? || call.TimedWrLock?)
  {
    var th := s.threads[t];
    assert ThreadInv(cfg, th, s.world, s.writers[t], s.readers[t]);
    StepShape(cfg, th, s.world, s.writers[t], s.readers[t]);
    ReturnShape(cfg, th, s.world, s.writers[t], s.readers[t]);
  }

  lemma ReturnShape(cfg: Config, th: Thread, world: World, exclusive: nat, shared: nat)
    requires ThreadInv(cfg, th, world, exclusive, shared) && !th.pc.Idle? && !th.pc.Trapped?
    requires ThreadStep(cfg, th, world).thread.pc.Idle?
    ensures var e := ThreadStep(cfg, th, world);
            if e.thread.ok then e.store.Put?
            else e.store.Keep? && (th.call.TryLock? || th.call.TryLockShared? || th.call.TimedWrLock?)
  {
    if th.pc.Waiting? {
      StepKeeps(cfg.backend, th.pc.w, world);
    }
  }

  /** Why a try fails: trylock exactly when something is held. If the word was not written between its
      load and its CAS, trylock_shared fails exactly when a writer holds or as many readers as there can be;
      it never succeeds then. */
  lemma FailedTriesAreExplained(cfg: Config, s: State, t: Tid, woken: bool)
    requires Inv(cfg, s) && Returns(cfg, s, t, woken)
    ensures var ok := Next(cfg, s, Step(t, woken)).threads[t].ok;
            var th := s.threads[t];
            && (th.call.TryLock? ==> (ok <==> Held(s) == A.FREE))
            && (th.call.TryLockShared? && ok ==> FreeFor(th.call, Held(s)))
            && (th.call.TryLockShared? && s.world.writes == th.log.loaded ==> (ok <==> FreeFor(th.call, Held(s))))
  {
    var th := s.threads[t];
    assert ThreadInv(cfg, th, s.world, s.writers[t], s.readers[t]);
  }

  /** A timed lock that gives up does so in the last of as many waits as it had retries, plus one, which began
      after its last failed CAS and lasted its whole budget, exactly if fixing the deadline did not wrap. */
  lemma TimeoutsAreExplained(cfg: Config, s: State, t: Tid, woken: bool)
    requires Inv(cfg, s) && Returns(cfg, s, t, woken)
    requires s.threads[t].call.TimedWrLock? && !Next(cfg, s, Step(t, woken)).threads[t].ok
    ensures var th := s.threads[t];
            && th.pc.Waiting?
            && th.log.waits == th.log.retries + 1
            && th.log.failedAt <= th.pc.w.begun
            && s.world.clock >= Deadline(th.pc.w.begun, Timed(th.call.cycles))
            && (s.world.clock - th.pc.w.begun >= th.call.cycles <==> th.pc.w.begun + th.call.cycles < U64_LIMIT)
  {
    var th := s.threads[t];
    assert ThreadInv(cfg, th, s.world, s.writers[t], s.readers[t]);
    StepShape(cfg, th, s.world, s.writers[t], s.readers[t]);
    StepKeeps(cfg.backend, th.pc.w, s.world);
  }

  // ----- the debug checks -----

  /** In debug builds the second check of an unlock, whoever calls it, traps exactly when nobody holds the
      lock in the mode that is being released, but for the greatest number of read holds: that passes
      for a writer in both unlocks. */
  lemma UnlockCheckIsComplete(cfg: Config, th: Thread, world: World, held: A.Lock)
    requires cfg.debug && Encodes(cfg.kind, world.word, held)
    requires th.pc.ReleaseCheck? && Offers(cfg.kind, th.call)
    requires th.call.Unlock? || th.call.ReadUnlock?
    ensures ThreadStep(cfg, th, world).thread.pc.Trapped? <==>
              if th.call.Unlock? then held.writers == multiset{} && |held.readers| != MAX_READERS
              else held.readers == multiset{} || |held.readers| == MAX_READERS
  {
  }

  /** On any word at all, encoding or not: the check of an unlock passes the writer's word alone, and that of a
      read_unlock every word from 1 up to where the top bit is set. */
  lemma UnlockCheckIsExact(cfg: Config, th: Thread, world: World)
    requires th.pc.ReleaseCheck? && Offers(cfg.kind, th.call) && (th.call.Unlock? || th.call.ReadUnlock?)
    ensures ThreadStep(cfg, th, world).thread.pc.Trapped? <==>
              && cfg.debug
              && if th.call.ReadUnlock? then !(1 <= world.word <= 0x7FFF_FFFF)
                 else world.word != if cfg.kind.Mutex? then 1 else 0x8000_0000
  {
  }

  /** The check that every call starts with traps, in debug builds, exactly on a word that encodes nobody's
      holds. */
  lemma EntryCheckIsComplete(cfg: Config, call: Call, world: World)
    ensures ThreadStep(cfg, BeginCall(call, world), world).thread.pc.Trapped? <==>
              cfg.debug && !exists held :: Encodes(cfg.kind, world.word, held)
  {
    SomeoneEncodes(cfg.kind, world.word);
  }

  lemma SomeoneEncodes(kind: Kind, word: u32)
    ensures (exists held :: Encodes(kind, word, held)) <==> ValueOk(kind, word)
  {
    var written := A.Lock(multiset{}[0 := 1], multiset{});
    var read := A.Lock(multiset{}, multiset{}[0 := word]);
    assert word == WriteWord(kind) ==> Encodes(kind, word, written);
    assert kind.RwLock? && word <= MAX_READERS ==> Encodes(kind, word, read);
    assert word == 0 ==> Encodes(kind, word, A.FREE);
  }

  /** After a wait rdlock checks the word that the wait returned, and traps exactly if a writer has it or it
      encodes nobody's holds; the other calls check the word as it is then. */
  lemma RetryCheckIsComplete(cfg: Config, th: Thread, world: World)
    requires th.pc.RetryCheck?
    ensures th.call.RdLock? && cfg.kind.RwLock? ==>
              (ThreadStep(cfg, th, world).thread.pc.Trapped? <==> cfg.debug && HasTop(th.pc.expected))
    ensures !th.call.RdLock? ==>
              (ThreadStep(cfg, th, world).thread.pc.Trapped? <==>
               cfg.debug && !exists held :: Encodes(cfg.kind, world.word, held))
  {
    SomeoneEncodes(cfg.kind, world.word);
  }
}
