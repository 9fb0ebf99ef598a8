/** Whole runs of one waiter against an arbitrary environment: every backend returns only as specified,
    and none stays away when its condition holds. */
module WaitRuns {
  import opened Words
  import opened WaitEngine

  /** What others do: write the word, let time pass, or wake a sleeper for no reason. */
  datatype Env = Write(value: u32) | Tick(cycles: nat) | Wake

  /** The counter itself is taken not to wrap: a tick past 2^64 is left out. */
  function Apply(world: World, e: Env): World {
    match e
    case Write(v) => world.(word := v, writes := world.writes + 1)
    case Tick(k) => if world.clock + k < U64_LIMIT then world.(clock := world.clock + k) else world
    case Wake => world
  }

  function ApplyAll(world: World, batch: seq<Env>): World
    decreases |batch|
  {
    if batch == [] then world else ApplyAll(Apply(world, batch[0]), batch[1..])
  }

  lemma {:induction false} ApplyAllLater(world: World, batch: seq<Env>)
    ensures Later(world, ApplyAll(world, batch))
    decreases |batch|
  {
    if batch != [] {
      ApplyAllLater(Apply(world, batch[0]), batch[1..]);
    }
  }

  /** One batch after another. */
  function PlayAll(world: World, batches: seq<seq<Env>>): World
    decreases |batches|
  {
    if batches == [] then world else PlayAll(ApplyAll(world, batches[0]), batches[1..])
  }

  ghost predicate SameMemory(a: World, b: World) {
    a.word == b.word && a.writes == b.writes
  }

  lemma {:induction false} ApplyAllMemory(a: World, b: World, batch: seq<Env>)
    requires SameMemory(a, b)
    ensures SameMemory(ApplyAll(a, batch), ApplyAll(b, batch))
    decreases |batch|
  {
    if batch != [] {
      ApplyAllMemory(Apply(a, batch[0]), Apply(b, batch[0]), batch[1..]);
    }
  }

  lemma {:induction false} PlayAllAppend(world: World, batches: seq<seq<Env>>, last: seq<Env>)
    ensures PlayAll(world, batches + [last]) == ApplyAll(PlayAll(world, batches), last)
    decreases |batches|
  {
    if batches == [] {
      assert (batches + [last])[1..] == [];
    } else {
      assert (batches + [last])[1..] == batches[1..] + [last];
      PlayAllAppend(ApplyAll(world, batches[0]), batches[1..], last);
    }
  }

  // ----- runs -----

  /** A turn is one action of the others or one step of the waiter, if it can take one. */
  datatype Turn = Others(e: Env) | Own(woken: bool)

  datatype Situation = Situation(v: Verdict, world: World)

  function Take(b: Backend, s: Situation, turn: Turn): Situation {
    match turn
    case Others(e) => s.(world := Apply(s.world, e))
    case Own(woken) =>
      if s.v.Going? && CanStep(s.v.w, s.world, woken) then s.(v := StepWait(b, s.v.w, s.world)) else s
  }

  function TakeAll(b: Backend, s: Situation, turns: seq<Turn>): Situation
    decreases |turns|
  {
    if turns == [] then s else TakeAll(b, Take(b, s, turns[0]), turns[1..])
  }

  /** A wait just called. */
  function Called(b: Backend, goal: Goal, budget: Budget, world: World): Situation {
    Situation(Going(StartWait(b, goal, budget, world)), world)
  }

  /** Under way with its invariant, or returned as specified. */
  ghost predicate Sound(b: Backend, goal: Goal, budget: Budget, s: Situation) {
    match s.v
    case Going(w) => WaitInv(b, w, s.world) && w.goal == goal && w.budget == budget
    case Gone(ok, w) => ReturnOk(goal, budget, ok, w, s.world)
  }

  lemma TurnKeepsSound(b: Backend, goal: Goal, budget: Budget, s: Situation, turn: Turn)
    requires Sound(b, goal, budget, s)
    ensures Sound(b, goal, budget, Take(b, s, turn))
    ensures Later(s.world, Take(b, s, turn).world)
  {
    if s.v.Going? {
      StepKeeps(b, s.v.w, s.world);
    }
  }

  lemma {:induction false} TurnsKeepSound(b: Backend, goal: Goal, budget: Budget, s: Situation, turns: seq<Turn>)
    requires Sound(b, goal, budget, s)
    ensures Sound(b, goal, budget, TakeAll(b, s, turns))
    ensures Later(s.world, TakeAll(b, s, turns).world)
    decreases |turns|
  {
    if turns != [] {
      TurnKeepsSound(b, goal, budget, s, turns[0]);
      TurnsKeepSound(b, goal, budget, Take(b, s, turns[0]), turns[1..]);
    }
  }

  /** One specification for all backends, over every interleaving: a return with true carries a value that
      satisfies the goal and still is in the word unless that was written again; a return with
      false comes from a timed wait with its whole budget; and a sleeper whose goal is in
      the word has been triggered. */
  lemma RunsMeetTheSpecification(b: Backend, goal: Goal, budget: Budget, world: World, turns: seq<Turn>)
    requires GoalOk(goal)
    ensures var end := TakeAll(b, Called(b, goal, budget, world), turns);
            && (end.v.Gone? && end.v.ok ==>
                && Sat(goal, end.v.w.seen)
                && (end.v.w.loaded == end.world.writes ==> end.world.word == end.v.w.seen))
            && (end.v.Gone? && !end.v.ok ==>
                && budget.Timed?
                && end.world.clock >= Deadline(end.v.w.begun, budget)
                && (end.v.w.begun + budget.cycles < U64_LIMIT ==>
                    end.world.clock - end.v.w.begun >= budget.cycles)
                && (end.v.w.begun + budget.cycles >= U64_LIMIT ==>
                    end.world.clock - end.v.w.begun < budget.cycles))
            && (end.v.Going? && end.v.w.stage.Sleep? && Sat(goal, end.world.word) ==>
                Triggered(end.v.w, end.world))
  {
    TurnsKeepSound(b, goal, budget, Called(b, goal, budget, world), turns);
  }

  /** `n` own steps with nobody else acting and nothing but the monitor to wake the waiter. */
  function Undisturbed(b: Backend, s: Situation, n: nat): Situation
    decreases n
  {
    if n == 0 then s else Undisturbed(b, Take(b, s, Own(false)), n - 1)
  }

  /** A returned waiter stays returned. */
  lemma {:induction false} GoneStays(b: Backend, s: Situation, n: nat)
    requires s.v.Gone?
    ensures Undisturbed(b, s, n) == s
    decreases n
  {
    if n > 0 {
      GoneStays(b, s, n - 1);
    }
  }

  lemma {:induction false} SatisfiedReturns(b: Backend, goal: Goal, budget: Budget, s: Situation, n: nat)
    requires Sound(b, goal, budget, s) && s.v.Going? && Sat(goal, s.world.word)
    requires n > Rank(b, s.v.w, s.world)
    ensures Undisturbed(b, s, n).v.Gone?
    ensures Sound(b, goal, budget, Undisturbed(b, s, n))
    decreases n
  {
    AloneProgress(b, s.v.w, s.world);
    TurnKeepsSound(b, goal, budget, s, Own(false));
    var next := Take(b, s, Own(false));
    if next.v.Gone? {
      GoneStays(b, next, n - 1);
    } else {
      SatisfiedReturns(b, goal, budget, next, n - 1);
    }
  }

  /** No backend stays away: after any run that leaves the goal in the word, a fixed number of own steps
      ends the wait, an untimed one with true. So the monitor loops return whenever the spin loop
      does. */
  lemma SatisfiedGoalsAreNoticed(b: Backend, goal: Goal, budget: Budget, world: World, turns: seq<Turn>)
    requires GoalOk(goal)
    requires Sat(goal, TakeAll(b, Called(b, goal, budget, world), turns).world.word)
    ensures var end := TakeAll(b, Called(b, goal, budget, world), turns);
            var v := Undisturbed(b, end, RANK_BOUND + 1).v;
            v.Gone? && (budget.Untimed? ==> v.ok && Sat(goal, v.w.seen))
  {
    TurnsKeepSound(b, goal, budget, Called(b, goal, budget, world), turns);
    var end := TakeAll(b, Called(b, goal, budget, world), turns);
    if end.v.Gone? {
      GoneStays(b, end, RANK_BOUND + 1);
    } else {
      AloneProgress(b, end.v.w, end.world);
      SatisfiedReturns(b, goal, budget, end, RANK_BOUND + 1);
    }
  }

  // ----- how many accesses -----

  /** The situation after up to four own steps, one by one. */
  lemma UndisturbedSteps(b: Backend, s: Situation)
    ensures var s1 := Take(b, s, Own(false));
            var s2 := Take(b, s1, Own(false));
            var s3 := Take(b, s2, Own(false));
            && Undisturbed(b, s, 0) == s
            && Undisturbed(b, s, 1) == s1
            && Undisturbed(b, s, 2) == s2
            && Undisturbed(b, s, 3) == s3
            && Undisturbed(b, s, 4) == Take(b, s3, Own(false))
  {
    var s1 := Take(b, s, Own(false));
    var s2 := Take(b, s1, Own(false));
    var s3 := Take(b, s2, Own(false));
    assert Undisturbed(b, s1, 3) == Undisturbed(b, s2, 2) == Undisturbed(b, s3, 1);
    assert Undisturbed(b, s1, 2) == Undisturbed(b, s2, 1) == s3;
    assert Undisturbed(b, s1, 1) == s2;
  }

  /** The wait ends with exactly its `n`th own step. */
  ghost predicate EndsWithStep(b: Backend, s: Situation, n: nat, ok: bool) {
    && n > 0
    && Undisturbed(b, s, n - 1).v.Going?
    && Undisturbed(b, s, n).v.Gone?
    && Undisturbed(b, s, n).v.ok == ok
  }

  /** A word that is right at the call is seen by the first access, in the timed spin by the second. */
  lemma SeenAtOnce(b: Backend, goal: Goal, budget: Budget, world: World)
    requires GoalOk(goal) && Sat(goal, world.word)
    ensures EndsWithStep(b, Called(b, goal, budget, world), if b.Spin? && budget.Timed? then 2 else 1, true)
  {
    UndisturbedSteps(b, Called(b, goal, budget, world));
  }

  /** A word that is not right sends an x86 core to sleep with exactly three accesses, load, arm and load,
      and an ARM core with two, load and load-exclusive; a timed wait reads the counter once more. */
  lemma AsleepAfter(b: Backend, goal: Goal, budget: Budget, world: World)
    requires GoalOk(goal) && !Sat(goal, world.word) && !b.Spin?
    ensures var n := (if b.MonitorX? || b.WaitPkg? then 3 else 2) + (if budget.Timed? then 1 else 0);
            var before, after := Undisturbed(b, Called(b, goal, budget, world), n - 1),
                                 Undisturbed(b, Called(b, goal, budget, world), n);
            && before.v.Going? && !before.v.w.stage.Sleep?
            && after.v.Going? && after.v.w.stage.Sleep? && !Triggered(after.v.w, world)
  {
    UndisturbedSteps(b, Called(b, goal, budget, world));
  }

  /** A sleeper whose goal has come wakes and loads once. A timed one also looks at the counter once, x86 before
      the load, which it leaves out when the deadline has come, and ARM after it. */
  lemma WokenSeesAtOnce(b: Backend, w: Wait, world: World)
    requires WaitInv(b, w, world) && w.stage.Sleep? && Sat(w.goal, world.word)
    ensures var s := Situation(Going(w), world);
            if w.budget.Untimed? then EndsWithStep(b, s, 2, true)
            else if world.clock < w.deadline then EndsWithStep(b, s, 3, true)
            else EndsWithStep(b, s, if b.MonitorX? || b.WaitPkg? then 2 else 3, false)
  {
    UndisturbedSteps(b, Situation(Going(w), world));
  }

  /** A timed spin between two looks at the word takes exactly two accesses, load and counter, and ends at the
      counter exactly if the deadline has come. */
  lemma SpinsByTwo(w: Wait, world: World)
    requires WaitInv(Spin, w, world) && w.stage.Poll? && w.budget.Timed? && !Sat(w.goal, world.word)
    ensures var s := Situation(Going(w), world);
            if world.clock < w.deadline then
              Undisturbed(Spin, s, 2) == Situation(Going(Load(w, world)), world)
            else EndsWithStep(Spin, s, 2, false)
  {
    UndisturbedSteps(Spin, Situation(Going(w), world));
  }
}
