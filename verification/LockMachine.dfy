/** Any number of threads running the lock functions of wfe_mutex.h on one word. A step is one atomic
    access; every thread may act between any two steps of another. The program of each call is
    `ThreadStep`; waits run the transition function of WaitEngine. */
module LockMachine {
  import opened Words
  import opened WaitEngine
  import opened Encoding
  import A = AbstractLock

  type Tid = A.Tid

  /** `debug` is WFE_MUTEX_DEBUG. */
  datatype Config = Config(kind: Kind, backend: Backend, debug: bool)

  /** Both kinds have lock, timed lock, trylock and unlock; the other calls are the read half. */
  datatype Call =
    | WrLock
    | TimedWrLock(cycles: u64)
    | TryLock
    | Unlock
    | RdLock
    | TryLockShared
    | ReadUnlock

  predicate Offers(kind: Kind, call: Call) {
    kind.Mutex? ==> !call.RdLock? && !call.TryLockShared? && !call.ReadUnlock?
  }

  datatype Pc =
    | Idle
    | EntryCheck                  // the sanity check every call starts with
    | ReleaseCheck                // the second check of both unlocks
    | FirstCas                    // compare with 0
    | SecondCas(expected: u32)    // rdlock: compare with what the first CAS saw, top bit cleared
    | SharedLoad                  // trylock_shared: load, top bit cleared
    | SharedCas(expected: u32)
    | Waiting(w: Wait)
    | RetryCheck(expected: u32)   // the sanity checks after a wait
    | RetryCas(expected: u32)
    | Releasing
    | Trapped                     // a sanity check failed

  /** What a call has been through: the write count when it started, its failed retries and
      started waits, the write count at its last load, and the counter at its last failed CAS. */
  datatype CallLog = CallLog(startWrites: nat, retries: nat, waits: nat, loaded: nat, failedAt: u64)

  /** `ok` is the result of the last call that returned. */
  datatype Thread = Thread(pc: Pc, call: Call, ok: bool, log: CallLog)

  /** Ownership is history only: no step looks at it except to allow an unlock to start. */
  datatype State = State(world: World, writers: multiset<Tid>, readers: multiset<Tid>, threads: map<Tid, Thread>)

  // ----- the words the code writes and tests -----

  function Desired(kind: Kind, call: Call, expected: u32): u32 {
    if call.RdLock? || call.TryLockShared? then Inc(expected) else WriteWord(kind)
  }

  function GoalOf(call: Call): Goal {
    if call.RdLock? then Bit(31, 0) else Equals(0)
  }

  function BudgetOf(call: Call): Budget {
    if call.TimedWrLock? then Timed(call.cycles) else Untimed
  }

  /** sanity_check_wrlock_value, sanity_check_rdwrlock_value */
  predicate ValueOk(kind: Kind, v: u32) {
    if kind.Mutex? then v <= 1 else HasTop(v) ==> ClearTop(v) == 0
  }

  /** sanity_check_wrlock_unlock_mutex, sanity_check_rdwrlock_unlock_mutex,
      sanity_check_rdwrlock_unlock_shared_mutex */
  predicate ReleaseOk(kind: Kind, call: Call, v: u32) {
    if call.ReadUnlock? then !HasTop(v) && ClearTop(v) != 0
    else if kind.Mutex? then v <= 1 && v % 2 == 1
    else HasTop(v) && ClearTop(v) == 0
  }

  /** After a wait: rdlock checks the value the wait returned, the others load the word again. */
  predicate RetryOk(kind: Kind, call: Call, expected: u32, word: u32) {
    if call.RdLock? then ValueOk(kind, expected) && !HasTop(expected) else ValueOk(kind, word)
  }

  // ----- the program -----

  /** A step leaves the word alone, or writes it and with that changes ownership. */
  datatype Store = Keep | Put(value: u32, change: A.Change)

  datatype Effect = Effect(thread: Thread, store: Store)

  function Goto(th: Thread, pc: Pc): Effect {
    Effect(th.(pc := pc), Keep)
  }

  function Finish(th: Thread, ok: bool): Thread {
    th.(pc := Idle, ok := ok)
  }

  function BeginCall(call: Call, world: World): Thread {
    Thread(EntryCheck, call, false, CallLog(world.writes, 0, 0, world.writes, world.clock))
  }

  function BeginWait(cfg: Config, th: Thread, world: World): Thread {
    th.(pc := Waiting(StartWait(cfg.backend, GoalOf(th.call), BudgetOf(th.call), world)),
        log := th.log.(waits := th.log.waits + 1, failedAt := world.clock))
  }

  /** The change of ownership a call is for. */
  function ChangeOf(call: Call): A.Change {
    match call
    case Unlock => A.DropWrite
    case ReadUnlock => A.DropRead
    case RdLock => A.TakeRead
    case TryLockShared => A.TakeRead
    case _ => A.TakeWrite
  }

  /** Compare with `expected` and, if equal, write `desired` and return. */
  function Cas(cfg: Config, th: Thread, expected: u32, world: World): Effect {
    if world.word == expected then
      Effect(Finish(th, true), Put(Desired(cfg.kind, th.call, expected), ChangeOf(th.call)))
    else Effect(AfterFailedCas(cfg, th, world), Keep)
  }

  function AfterFailedCas(cfg: Config, th: Thread, world: World): Thread {
    match th.pc
    case FirstCas =>
      if th.call.TryLock? then Finish(th, false)
      else if th.call.RdLock? then th.(pc := SecondCas(ClearTop(world.word)))
      else BeginWait(cfg, th, world)
    case RetryCas(_) => BeginWait(cfg, th.(log := th.log.(retries := th.log.retries + 1)), world)
    case SharedCas(_) => Finish(th, false)
    case _ => BeginWait(cfg, th, world)
  }

  function Check(cfg: Config, th: Thread, passes: bool, next: Pc): Effect {
    Goto(th, if cfg.debug && !passes then Trapped else next)
  }

  /** Where a passed check leads. */
  function AfterCheck(th: Thread): Pc {
    match th.pc
    case EntryCheck =>
      if th.call.Unlock? || th.call.ReadUnlock? then ReleaseCheck
      else if th.call.TryLockShared? then SharedLoad
      else FirstCas
    case RetryCheck(expected) => RetryCas(expected)
    case _ => Releasing
  }

  function ThreadStep(cfg: Config, th: Thread, world: World): Effect
    requires !th.pc.Idle? && !th.pc.Trapped?
  {
    match th.pc
    case EntryCheck => Check(cfg, th, ValueOk(cfg.kind, world.word), AfterCheck(th))
    case ReleaseCheck => Check(cfg, th, ReleaseOk(cfg.kind, th.call, world.word), AfterCheck(th))
    case Releasing =>
      Effect(Finish(th, true), Put(if th.call.ReadUnlock? then Dec(world.word) else 0, ChangeOf(th.call)))
    case FirstCas => Cas(cfg, th, 0, world)
    case SecondCas(expected) => Cas(cfg, th, expected, world)
    case SharedLoad =>
      Goto(th.(log := th.log.(loaded := world.writes)), SharedCas(ClearTop(world.word)))
    case SharedCas(expected) => Cas(cfg, th, expected, world)
    case Waiting(w) => AfterWait(th, StepWait(cfg.backend, w, world))
    case RetryCheck(expected) =>
      Check(cfg, th, RetryOk(cfg.kind, th.call, expected, world.word), AfterCheck(th))
    case RetryCas(expected) => Cas(cfg, th, expected, world)
  }

  function AfterWait(th: Thread, v: Verdict): Effect {
    match v
    case Going(w) => Goto(th, Waiting(w))
    case Gone(ok, w) =>
      if !ok then Effect(Finish(th, false), Keep)
      else Goto(th.(log := th.log.(loaded := w.loaded)), RetryCheck(if th.call.RdLock? then w.seen else 0))
  }

  // ----- the machine -----

  datatype Move = Start(t: Tid, call: Call) | Step(t: Tid, woken: bool) | Tick(cycles: nat)

  /** Threads unlock only what they hold, in the mode they hold it. */
  predicate Disciplined(s: State, t: Tid, call: Call) {
    && (call.Unlock? ==> t in s.writers)
    && (call.ReadUnlock? ==> t in s.readers)
  }

  predicate Enabled(cfg: Config, s: State, m: Move) {
    match m
    case Start(t, call) =>
      t in s.threads && s.threads[t].pc.Idle? && Offers(cfg.kind, call) && Disciplined(s, t, call)
    case Step(t, woken) => t in s.threads && CanAct(s.threads[t], s.world, woken)
    case Tick(cycles) => s.world.clock + cycles < U64_LIMIT
  }

  predicate CanAct(th: Thread, world: World, woken: bool) {
    && !th.pc.Idle?
    && !th.pc.Trapped?
    && (th.pc.Waiting? ==> CanStep(th.pc.w, world, woken))
  }

  function Written(world: World, store: Store): World {
    match store
    case Keep => world
    case Put(v, _) => world.(word := v, writes := world.writes + 1)
  }

  /** Moves that are not enabled change nothing. */
  function Next(cfg: Config, s: State, m: Move): State {
    if !Enabled(cfg, s, m) then s
    else match m
      case Start(t, call) => s.(threads := s.threads[t := BeginCall(call, s.world)])
      case Step(t, _) => Commit(s, t, ThreadStep(cfg, s.threads[t], s.world))
      case Tick(cycles) => s.(world := s.world.(clock := s.world.clock + cycles))
  }

  function Commit(s: State, t: Tid, e: Effect): State {
    var held := Change(A.Lock(s.writers, s.readers), t, e.store);
    State(Written(s.world, e.store), held.writers, held.readers, s.threads[t := e.thread])
  }

  function Change(held: A.Lock, t: Tid, store: Store): A.Lock {
    match store
    case Keep => held
    case Put(_, change) => A.Do(held, A.Action(t, change))
  }

  /** What a move does to the word. */
  function StoreOf(cfg: Config, s: State, m: Move): Store {
    if m.Step? && Enabled(cfg, s, m) then ThreadStep(cfg, s.threads[m.t], s.world).store else Keep
  }

  function Run(cfg: Config, s: State, moves: seq<Move>): State
    decreases |moves|
  {
    if moves == [] then s else Run(cfg, Next(cfg, s, moves[0]), moves[1..])
  }

  /** A free lock and idle threads. */
  ghost predicate Initial(cfg: Config, s: State) {
    && s.world.word == 0
    && s.writers == multiset{}
    && s.readers == multiset{}
    && forall t :: t in s.threads ==> s.threads[t].pc.Idle? && Offers(cfg.kind, s.threads[t].call)
  }
}
