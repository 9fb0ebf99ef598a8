/** What every interleaved run of the lock machine keeps. */
module LockSafety {
  import opened Words
  import opened WaitEngine
  import opened Encoding
  import opened LockMachine
  import A = AbstractLock

  // ----- the invariant -----

  function Held(s: State): A.Lock {
    A.Lock(s.writers, s.readers)
  }

  predicate Waits(call: Call) {
    call.RdLock? || call.WrLock? || call.TimedWrLock?
  }

  /** Retries so far are covered by writes that happened during the call. */
  predicate RetriesPaid(log: CallLog, writes: nat) {
    log.startWrites + log.retries <= writes
  }

  /** `expected` was loaded when the write count was `log.loaded`, and has not changed unless that did. */
  predicate HintOk(th: Thread, expected: u32, world: World) {
    && Sat(GoalOf(th.call), expected)
    && th.log.loaded <= world.writes
    && RetriesPaid(th.log, th.log.loaded)
    && (th.log.loaded == world.writes ==> world.word == expected)
  }

  predicate SharedHintOk(th: Thread, expected: u32, world: World) {
    && !HasTop(expected)
    && th.log.loaded <= world.writes
    && (th.log.loaded == world.writes ==> expected == ClearTop(world.word))
  }

  predicate PcOk(cfg: Config, th: Thread, world: World) {
    match th.pc
    case Idle => true
    case EntryCheck => true
    case ReleaseCheck => th.call.Unlock? || th.call.ReadUnlock?
    case Releasing => th.call.Unlock? || th.call.ReadUnlock?
    case FirstCas => Waits(th.call) || th.call.TryLock?
    case SecondCas(expected) => th.call.RdLock? && !HasTop(expected)
    case SharedLoad => th.call.TryLockShared?
    case SharedCas(expected) => th.call.TryLockShared? && SharedHintOk(th, expected, world)
    case Waiting(w) =>
      && Waits(th.call)
      && w.goal == GoalOf(th.call)
      && w.budget == BudgetOf(th.call)
      && WaitInv(cfg.backend, w, world)
      && RetriesPaid(th.log, w.loaded)
      && th.log.waits == th.log.retries + 1
      && th.log.failedAt <= w.begun <= world.clock
    case RetryCheck(expected) => Waits(th.call) && HintOk(th, expected, world) && th.log.waits == th.log.retries + 1
    case RetryCas(expected) => Waits(th.call) && HintOk(th, expected, world) && th.log.waits == th.log.retries + 1
    case Trapped => cfg.debug && th.call.ReadUnlock?
  }

  /** `exclusive` and `shared` are the thread's own holds. */
  predicate ThreadInv(cfg: Config, th: Thread, world: World, exclusive: nat, shared: nat) {
    && Offers(cfg.kind, th.call)
    && PcOk(cfg, th, world)
    && (th.pc.Idle? || RetriesPaid(th.log, world.writes))
    && (th.pc.FirstCas? || th.pc.SecondCas? || th.pc.EntryCheck? ==> th.log.retries == th.log.waits == 0)
    && (!th.pc.Idle? ==>
        && (th.call.Unlock? ==> exclusive > 0)
        && (th.call.ReadUnlock? ==> shared > 0))
  }

  ghost predicate ThreadsInv(cfg: Config, s: State) {
    forall t :: t in s.threads ==> ThreadInv(cfg, s.threads[t], s.world, s.writers[t], s.readers[t])
  }

  ghost predicate Inv(cfg: Config, s: State) {
    Encodes(cfg.kind, s.world.word, Held(s)) && ThreadsInv(cfg, s)
  }

  lemma InitialInv(cfg: Config, s: State)
    requires Initial(cfg, s)
    ensures Inv(cfg, s)
  {
  }

  // ----- one step -----

  /** A step of another thread: the thread's own holds stay, and the world only moves on. */
  lemma OthersKeep(cfg: Config, th: Thread, before: World, after: World, exclusive: nat, shared: nat)
    requires ThreadInv(cfg, th, before, exclusive, shared)
    requires Later(before, after)
    ensures ThreadInv(cfg, th, after, exclusive, shared)
  {
    if th.pc.Waiting? {
      InterferenceKeeps(cfg.backend, th.pc.w, before, after);
    }
  }

  function Actions(t: Tid, store: Store): seq<A.Action> {
    match store
    case Keep => []
    case Put(_, change) => [A.Action(t, change)]
  }

  /** What an access finds and leaves in the word when it changes ownership. */
  predicate Shaped(kind: Kind, word: u32, store: Store) {
    match store
    case Keep => true
    case Put(v, TakeWrite) => word == 0 && v == WriteWord(kind)
    case Put(v, TakeRead) => kind.RwLock? && !HasTop(word) && v == Inc(word)
    case Put(v, DropWrite) => v == 0
    case Put(v, DropRead) => kind.RwLock? && v == Dec(word)
  }

  /** The holder is the one who releases. */
  predicate Releasable(exclusive: nat, shared: nat, store: Store) {
    store.Put? ==> (store.change.DropWrite? ==> exclusive > 0) && (store.change.DropRead? ==> shared > 0)
  }

  /** Which accesses change ownership. A read acquisition never finds the writer's bit, although it may
      compare with a value loaded long ago. */
  lemma StepShape(cfg: Config, th: Thread, world: World, exclusive: nat, shared: nat)
    requires ThreadInv(cfg, th, world, exclusive, shared) && !th.pc.Idle? && !th.pc.Trapped?
    ensures var e := ThreadStep(cfg, th, world);
            && Shaped(cfg.kind, world.word, e.store)
            && Releasable(exclusive, shared, e.store)
            && (e.store.Put? ==> e.store.change == ChangeOf(th.call))
  {
    if th.pc.RetryCas? && th.call.RdLock? {
      TopIsBit31(th.pc.expected);
    }
  }

  lemma OneWriter(m: multiset<Tid>, t: Tid)
    requires |m| == 1 && t in m
    ensures m == multiset{t}
  {
    var rest := m - multiset{t};
    assert m == rest + multiset{t};
    assert |rest| == 0;
  }

  /** An access with that shape is legal for the abstract lock, and the word stays its encoding. */
  lemma StoreEncodes(kind: Kind, t: Tid, held: A.Lock, word: u32, store: Store)
    requires Encodes(kind, word, held)
    requires Shaped(kind, word, store) && Releasable(held.writers[t], held.readers[t], store)
    ensures A.LegalTrace(held, Actions(t, store))
    ensures Encodes(kind, if store.Put? then store.value else word, Change(held, t, store))
  {
    match store
    case Keep =>
    case Put(_, TakeWrite) =>
      assert held.readers == multiset{};
    case Put(_, TakeRead) =>
    case Put(_, DropWrite) =>
      OneWriter(held.writers, t);
    case Put(_, DropRead) =>
      assert |held.readers - multiset{t}| == |held.readers| - 1;
  }

  /** While the word encodes the holds and the caller holds what it unlocks, no sanity check fails but one:
      read_unlock takes the greatest number of read holds for a writer. */
  lemma ChecksPass(kind: Kind, call: Call, word: u32, held: A.Lock, t: Tid)
    requires Encodes(kind, word, held)
    ensures ValueOk(kind, word)
    ensures call.Unlock? && t in held.writers ==> ReleaseOk(kind, call, word)
    ensures call.ReadUnlock? && t in held.readers ==>
              (ReleaseOk(kind, call, word) <==> |held.readers| < MAX_READERS)
  {
  }

  /** Own steps keep the thread's part of the invariant; ownership changes only as a call returns. */
  lemma OwnStepKeeps(cfg: Config, t: Tid, th: Thread, world: World, held: A.Lock)
    requires ThreadInv(cfg, th, world, held.writers[t], held.readers[t]) && !th.pc.Idle? && !th.pc.Trapped?
    requires Encodes(cfg.kind, world.word, held)
    ensures OwnStepOk(cfg, th, world, held.writers[t], held.readers[t])
  {
    match th.pc
    case EntryCheck => ChecksPass(cfg.kind, th.call, world.word, held, t);
    case ReleaseCheck => ChecksPass(cfg.kind, th.call, world.word, held, t);
    case RetryCheck(expected) =>
      ChecksPass(cfg.kind, th.call, world.word, held, t);
      if th.call.RdLock? {
        TopIsBit31(expected);
      }
    case Waiting(w) => WaitStepKeeps(cfg, th, world, held.writers[t], held.readers[t]);
    case _ => AccessKeeps(cfg, th, world, held.writers[t], held.readers[t]);
  }

  ghost predicate OwnStepOk(cfg: Config, th: Thread, world: World, exclusive: nat, shared: nat)
    requires !th.pc.Idle? && !th.pc.Trapped?
  {
    var e := ThreadStep(cfg, th, world);
    && ThreadInv(cfg, e.thread, Written(world, e.store), exclusive, shared)
    && (e.thread.pc.Idle? || e.store.Keep?)
  }

  lemma AccessKeeps(cfg: Config, th: Thread, world: World, exclusive: nat, shared: nat)
    requires ThreadInv(cfg, th, world, exclusive, shared)
    requires th.pc.FirstCas? || th.pc.SecondCas? || th.pc.RetryCas?
             || th.pc.SharedLoad? || th.pc.SharedCas? || th.pc.Releasing?
    ensures OwnStepOk(cfg, th, world, exclusive, shared)
  {
  }

  lemma WaitStepKeeps(cfg: Config, th: Thread, world: World, exclusive: nat, shared: nat)
    requires ThreadInv(cfg, th, world, exclusive, shared) && th.pc.Waiting?
    ensures OwnStepOk(cfg, th, world, exclusive, shared)
  {
    StepKeeps(cfg.backend, th.pc.w, world);
  }

  ghost predicate KeepsInv(cfg: Config, s: State, after: State) {
    && Later(s.world, after.world)
    && Inv(cfg, after)
  }

  lemma StepKeepsInv(cfg: Config, s: State, t: Tid, woken: bool)
    requires Inv(cfg, s) && Enabled(cfg, s, Step(t, woken))
    ensures var store := StoreOf(cfg, s, Step(t, woken));
            var after := Next(cfg, s, Step(t, woken));
            && KeepsInv(cfg, s, after)
            && A.LegalTrace(Held(s), Actions(t, store))
            && Held(after) == A.DoAll(Held(s), Actions(t, store))
  {
    var th := s.threads[t];
    var e := ThreadStep(cfg, th, s.world);
    StepShape(cfg, th, s.world, s.writers[t], s.readers[t]);
    StoreEncodes(cfg.kind, t, Held(s), s.world.word, e.store);
    OwnStepKeeps(cfg, t, th, s.world, Held(s));
    CommitKeepsInv(cfg, s, t, e);
  }

  lemma CommitKeepsInv(cfg: Config, s: State, t: Tid, e: Effect)
    requires Inv(cfg, s) && t in s.threads
    requires ThreadInv(cfg, e.thread, Written(s.world, e.store), s.writers[t], s.readers[t])
    requires e.thread.pc.Idle? || e.store.Keep?
    requires Encodes(cfg.kind, Written(s.world, e.store).word, Change(Held(s), t, e.store))
    ensures KeepsInv(cfg, s, Commit(s, t, e))
  {
    var after := Commit(s, t, e);
    forall u | u in after.threads
      ensures ThreadInv(cfg, after.threads[u], after.world, after.writers[u], after.readers[u])
    {
      CommitKeepsThread(cfg, s, t, e, u);
    }
  }

  lemma CommitKeepsThread(cfg: Config, s: State, t: Tid, e: Effect, u: Tid)
    requires t in s.threads && u in s.threads
    requires ThreadInv(cfg, s.threads[u], s.world, s.writers[u], s.readers[u])
    requires ThreadInv(cfg, e.thread, Written(s.world, e.store), s.writers[t], s.readers[t])
    requires e.thread.pc.Idle? || e.store.Keep?
    ensures var after := Commit(s, t, e);
            ThreadInv(cfg, after.threads[u], after.world, after.writers[u], after.readers[u])
  {
    if u != t {
      OthersKeep(cfg, s.threads[u], s.world, Written(s.world, e.store), s.writers[u], s.readers[u]);
    }
  }

  lemma NextKeepsInv(cfg: Config, s: State, m: Move)
    requires Inv(cfg, s)
    ensures KeepsInv(cfg, s, Next(cfg, s, m))
  {
    var after := Next(cfg, s, m);
    if m.Step? && Enabled(cfg, s, m) {
      StepKeepsInv(cfg, s, m.t, m.woken);
    } else {
      forall u | u in after.threads
        ensures ThreadInv(cfg, after.threads[u], after.world, after.writers[u], after.readers[u])
      {
        if u in s.threads && after.threads[u] == s.threads[u] {
          OthersKeep(cfg, s.threads[u], s.world, after.world, s.writers[u], s.readers[u]);
        }
      }
    }
  }

  // ----- whole runs -----

  function TraceOf(cfg: Config, s: State, m: Move): seq<A.Action> {
    if m.Step? then Actions(m.t, StoreOf(cfg, s, m)) else []
  }

  /** The changes of ownership along a run. */
  function Trace(cfg: Config, s: State, moves: seq<Move>): seq<A.Action>
    decreases |moves|
  {
    if moves == [] then [] else TraceOf(cfg, s, moves[0]) + Trace(cfg, Next(cfg, s, moves[0]), moves[1..])
  }

  /** Refinement: along every run, of any threads in any order, the invariant holds and the changes
      of ownership are a legal history of the abstract lock that ends in the final holds. */
  lemma {:induction false} RunsRefine(cfg: Config, s: State, moves: seq<Move>)
    requires Inv(cfg, s)
    ensures Inv(cfg, Run(cfg, s, moves))
    ensures A.LegalTrace(Held(s), Trace(cfg, s, moves))
    ensures Held(Run(cfg, s, moves)) == A.DoAll(Held(s), Trace(cfg, s, moves))
    ensures Later(s.world, Run(cfg, s, moves).world)
    decreases |moves|
  {
    if moves != [] {
      var m, next := moves[0], Next(cfg, s, moves[0]);
      NextKeepsInv(cfg, s, m);
      if m.Step? && Enabled(cfg, s, m) {
        StepKeepsInv(cfg, s, m.t, m.woken);
      }
      RunsRefine(cfg, next, moves[1..]);
      A.TracesCompose(Held(s), TraceOf(cfg, s, m), Trace(cfg, next, moves[1..]));
    }
  }

  /** From a free lock: never two writers, never a writer beside a reader, the word tells exactly
      who holds, and the only check that can have failed is that of a read_unlock. */
  lemma RunsAreExclusive(cfg: Config, s: State, moves: seq<Move>)
    requires Initial(cfg, s)
    ensures var end := Run(cfg, s, moves);
            && |end.writers| <= 1
            && (end.writers != multiset{} ==> end.readers == multiset{} && end.world.word == WriteWord(cfg.kind))
            && (end.writers == multiset{} ==> end.world.word == |end.readers| <= MAX_READERS)
            && (cfg.kind.Mutex? ==> end.world.word == |end.writers|)
            && (forall t :: t in end.threads && end.threads[t].pc.Trapped? ==>
                  cfg.debug && end.threads[t].call.ReadUnlock?)
            && A.Exclusive(Held(end))
            && A.LegalTrace(A.FREE, Trace(cfg, s, moves))
            && A.DoAll(A.FREE, Trace(cfg, s, moves)) == A.Lock(end.writers, end.readers)
  {
    InitialInv(cfg, s);
    RunsRefine(cfg, s, moves);
  }

  /** The one check that can fail: read_unlock takes the greatest number of read holds for a writer. */
  predicate FailsAtTheBound(cfg: Config, th: Thread, readHolds: nat) {
    cfg.debug && th.pc.ReleaseCheck? && th.call.ReadUnlock? && readHolds == MAX_READERS
  }

  // ----- who is kept out -----

  /** The lock is free for the call: for a reader, no writer and room for one more in the word. */
  ghost predicate FreeFor(call: Call, held: A.Lock) {
    if call.RdLock? || call.TryLockShared? then held.writers == multiset{} && |held.readers| < MAX_READERS
    else held == A.FREE
  }

  /** The word a call waits for is there exactly if the lock is free for it. */
  lemma GoalMeansFree(cfg: Config, s: State, call: Call)
    requires Inv(cfg, s) && Offers(cfg.kind, call)
    ensures Waits(call) ==> (Sat(GoalOf(call), s.world.word) <==> FreeFor(call, Held(s)))
    ensures FreeFor(call, Held(s)) <==>
              if call.RdLock? || call.TryLockShared? then !HasTop(s.world.word) else s.world.word == 0
  {
    TopIsBit31(s.world.word);
  }
}
