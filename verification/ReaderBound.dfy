/** The greatest number of read holds: 2^31, reached and never passed. There the word has its top bit set
    although no writer holds, so that readers are refused, and debug builds trap a read_unlock. */
module ReaderBound {
  import opened Words
  import opened WaitEngine
  import opened Encoding
  import opened LockMachine
  import opened LockSafety
  import A = AbstractLock

  // ----- reaching it -----

  /** One rdlock of `t`, when `n` read holds are out. */
  function ReadOnce(t: Tid, n: nat): seq<Move> {
    if n == 0 then [Start(t, RdLock), Step(t, false), Step(t, false)]
    else [Start(t, RdLock), Step(t, false), Step(t, false), Step(t, false)]
  }

  function ReadOften(t: Tid, n: nat): seq<Move> {
    if n == 0 then [] else ReadOften(t, n - 1) + ReadOnce(t, n - 1)
  }

  lemma {:induction false} RunConcat(cfg: Config, s: State, first: seq<Move>, second: seq<Move>)
    ensures Run(cfg, s, first + second) == Run(cfg, Run(cfg, s, first), second)
    decreases |first|
  {
    if first == [] {
      assert first + second == second;
    } else {
      assert (first + second)[1..] == first[1..] + second;
      RunConcat(cfg, Next(cfg, s, first[0]), first[1..], second);
    }
  }

  /** `t` holds all there is to hold, `n` times as a reader. */
  ghost predicate OnlyReader(s: State, t: Tid, n: nat) {
    && t in s.threads && s.threads[t].pc.Idle?
    && s.writers == multiset{}
    && s.readers == multiset{}[t := n]
    && s.world.word == n
  }

  /** `t` is about to compare, with the same holds. */
  ghost predicate Comparing(s: State, t: Tid, n: nat, pc: Pc) {
    && t in s.threads && s.threads[t].pc == pc && s.threads[t].call.RdLock?
    && s.writers == multiset{}
    && s.readers == multiset{}[t := n]
    && s.world.word == n
  }

  lemma ReadBegins(cfg: Config, s: State, t: Tid, n: nat)
    requires cfg.kind.RwLock? && OnlyReader(s, t, n) && n < MAX_READERS
    ensures Comparing(Next(cfg, Next(cfg, s, Start(t, RdLock)), Step(t, false)), t, n, FirstCas)
  {
  }

  lemma OneMore(t: Tid, n: nat)
    ensures multiset{}[t := n] + multiset{t} == multiset{}[t := n + 1]
  {
  }

  lemma ReadSucceeds(cfg: Config, s: State, t: Tid, n: nat)
    requires cfg.kind.RwLock? && n < MAX_READERS
    requires Comparing(s, t, n, if n == 0 then FirstCas else SecondCas(n))
    ensures OnlyReader(Next(cfg, s, Step(t, false)), t, n + 1)
  {
    OneMore(t, n);
  }

  lemma ReadFails(cfg: Config, s: State, t: Tid, n: nat)
    requires cfg.kind.RwLock? && 0 < n < MAX_READERS && Comparing(s, t, n, FirstCas)
    ensures Comparing(Next(cfg, s, Step(t, false)), t, n, SecondCas(n))
  {
  }

  lemma OneMoreRead(cfg: Config, s: State, t: Tid, n: nat)
    requires cfg.kind.RwLock? && OnlyReader(s, t, n) && n < MAX_READERS
    ensures OnlyReader(Run(cfg, s, ReadOnce(t, n)), t, n + 1)
  {
    var moves := ReadOnce(t, n);
    ReadBegins(cfg, s, t, n);
    var started := Next(cfg, s, Start(t, RdLock));
    var comparing := Next(cfg, started, Step(t, false));
    assert moves[1..][1..] == moves[2..];
    assert Run(cfg, s, moves) == Run(cfg, started, moves[1..]) == Run(cfg, comparing, moves[2..]);
    var compared := Next(cfg, comparing, Step(t, false));
    if n == 0 {
      ReadSucceeds(cfg, comparing, t, n);
      assert moves[2..] == [Step(t, false)];
      assert Run(cfg, comparing, [Step(t, false)]) == Run(cfg, compared, []);
    } else {
      ReadFails(cfg, comparing, t, n);
      ReadSucceeds(cfg, compared, t, n);
      assert moves[2..] == [Step(t, false), Step(t, false)];
      assert moves[2..][1..] == [Step(t, false)];
      assert Run(cfg, compared, [Step(t, false)]) == Run(cfg, Next(cfg, compared, Step(t, false)), []);
    }
  }

  lemma {:induction false} ManyReads(cfg: Config, s: State, t: Tid, n: nat)
    requires Initial(cfg, s) && cfg.kind.RwLock? && t in s.threads && n <= MAX_READERS
    ensures OnlyReader(Run(cfg, s, ReadOften(t, n)), t, n)
  {
    if n == 0 {
      assert multiset{}[t := 0] == multiset{};
    } else {
      ManyReads(cfg, s, t, n - 1);
      RunConcat(cfg, s, ReadOften(t, n - 1), ReadOnce(t, n - 1));
      OneMoreRead(cfg, Run(cfg, s, ReadOften(t, n - 1)), t, n - 1);
    }
  }

  /** Exactly the numbers of read holds up to 2^31 can be reached, one thread is enough for each, and no
      run passes them. */
  lemma ReaderBoundIsExact(cfg: Config, s: State, t: Tid, n: nat)
    requires Initial(cfg, s) && cfg.kind.RwLock? && t in s.threads
    ensures (exists moves :: |Run(cfg, s, moves).readers| == n) <==> n <= MAX_READERS
    ensures n <= MAX_READERS ==> exists moves :: OnlyReader(Run(cfg, s, moves), t, n)
  {
    if n <= MAX_READERS {
      ManyReads(cfg, s, t, n);
      assert |Run(cfg, s, ReadOften(t, n)).readers| == n;
    }
    if moves :| |Run(cfg, s, moves).readers| == n {
      InitialInv(cfg, s);
      RunsRefine(cfg, s, moves);
    }
  }

  /** A read acquisition finds the number of read holds in the word and leaves one more; no release
      borrows. */
  lemma WordCountsReaders(cfg: Config, s: State, t: Tid, woken: bool)
    requires Inv(cfg, s) && Enabled(cfg, s, Step(t, woken))
    ensures var store := StoreOf(cfg, s, Step(t, woken));
            var after := Next(cfg, s, Step(t, woken));
            && (store.Put? && store.change.TakeRead? ==>
                s.world.word == |s.readers| < MAX_READERS && after.world.word == |s.readers| + 1 == |after.readers|)
            && (store.Put? && store.change.DropRead? ==>
                s.world.word == |s.readers| > 0 && after.world.word == |s.readers| - 1 == |after.readers|)
  {
    var th := s.threads[t];
    assert ThreadInv(cfg, th, s.world, s.writers[t], s.readers[t]);
    StepShape(cfg, th, s.world, s.writers[t], s.readers[t]);
    StepKeepsInv(cfg, s, t, woken);
  }

  // ----- what fails there -----

  /** The only step of a disciplined caller that traps, in debug builds: read_unlock of a real holder, exactly
      when there are 2^31 read holds. */
  lemma TrapsExactly(cfg: Config, s: State, t: Tid, woken: bool)
    requires Inv(cfg, s) && Enabled(cfg, s, Step(t, woken))
    ensures Next(cfg, s, Step(t, woken)).threads[t].pc.Trapped? <==>
              FailsAtTheBound(cfg, s.threads[t], |s.readers|)
  {
    var th := s.threads[t];
    assert ThreadInv(cfg, th, s.world, s.writers[t], s.readers[t]);
    OwnStepKeeps(cfg, t, th, s.world, Held(s));
    ChecksPass(cfg.kind, th.call, s.world.word, Held(s), t);
  }

  /** Move `k` of the run is the second check of a read_unlock by `t`, in a debug build and with 2^31 read
      holds. */
  ghost predicate ChecksAtTheBound(cfg: Config, s: State, moves: seq<Move>, t: Tid, k: nat) {
    && k < |moves|
    && var before, m := Run(cfg, s, moves[..k]), moves[k];
    && m.Step? && m.t == t && Enabled(cfg, before, m)
    && FailsAtTheBound(cfg, before.threads[t], |before.readers|)
  }

  lemma ChecksLater(cfg: Config, s: State, moves: seq<Move>, t: Tid, k: nat)
    requires moves != []
    ensures ChecksAtTheBound(cfg, s, moves, t, k + 1) <==>
            ChecksAtTheBound(cfg, Next(cfg, s, moves[0]), moves[1..], t, k)
  {
    if k + 1 < |moves| {
      assert moves[..k + 1][1..] == moves[1..][..k];
    }
  }

  lemma ChecksFirst(cfg: Config, s: State, moves: seq<Move>, t: Tid)
    requires Inv(cfg, s) && t in s.threads && !s.threads[t].pc.Trapped? && moves != []
    ensures Next(cfg, s, moves[0]).threads[t].pc.Trapped? <==> ChecksAtTheBound(cfg, s, moves, t, 0)
  {
    assert moves[..0] == [];
    var m := moves[0];
    if m.Step? && m.t == t && Enabled(cfg, s, m) {
      TrapsExactly(cfg, s, t, m.woken);
    }
  }

  lemma {:induction false} TrappedStays(cfg: Config, s: State, moves: seq<Move>, t: Tid)
    requires t in s.threads && s.threads[t].pc.Trapped?
    ensures t in Run(cfg, s, moves).threads && Run(cfg, s, moves).threads[t].pc.Trapped?
    decreases |moves|
  {
    if moves != [] {
      TrappedStays(cfg, Next(cfg, s, moves[0]), moves[1..], t);
    }
  }

  ghost predicate TrapsAlong(cfg: Config, s: State, moves: seq<Move>, t: Tid) {
    t in Run(cfg, s, moves).threads && Run(cfg, s, moves).threads[t].pc.Trapped?
  }

  /** Over whole runs: a thread has been trapped if and only if one of its steps was that check. Without
      2^31 read holds nobody ever is. */
  lemma {:induction false} TrapsOnlyAtTheBound(cfg: Config, s: State, moves: seq<Move>, t: Tid)
    requires Inv(cfg, s) && t in s.threads && !s.threads[t].pc.Trapped?
    ensures TrapsAlong(cfg, s, moves, t) <==> exists k: nat :: ChecksAtTheBound(cfg, s, moves, t, k)
    decreases |moves|
  {
    if moves != [] {
      var next, rest := Next(cfg, s, moves[0]), moves[1..];
      NextKeepsInv(cfg, s, moves[0]);
      ChecksFirst(cfg, s, moves, t);
      if next.threads[t].pc.Trapped? {
        TrappedStays(cfg, next, rest, t);
      } else {
        TrapsOnlyAtTheBound(cfg, next, rest, t);
        forall k: nat
          ensures ChecksAtTheBound(cfg, s, moves, t, k + 1) <==> ChecksAtTheBound(cfg, next, rest, t, k)
        {
          ChecksLater(cfg, s, moves, t, k);
        }
        if k: nat :| ChecksAtTheBound(cfg, s, moves, t, k) {
          assert k > 0 ==> ChecksAtTheBound(cfg, next, rest, t, k - 1);
        }
        if k: nat :| ChecksAtTheBound(cfg, next, rest, t, k) {
          assert ChecksAtTheBound(cfg, s, moves, t, k + 1);
        }
      }
    }
  }

  /** A read_unlock with 2^31 read holds, up to its second check. */
  function ReleaseAtTheBound(t: Tid): seq<Move> {
    [Start(t, ReadUnlock), Step(t, false), Step(t, false)]
  }

  lemma ReleaseIsTrapped(cfg: Config, s: State, t: Tid)
    requires Inv(cfg, s) && cfg.kind.RwLock? && cfg.debug && OnlyReader(s, t, MAX_READERS)
    ensures var end := Run(cfg, s, ReleaseAtTheBound(t));
            t in end.threads && end.threads[t].pc.Trapped?
  {
    var started := Next(cfg, s, Start(t, ReadUnlock));
    var checked := Next(cfg, started, Step(t, false));
    assert checked.threads[t].pc.ReleaseCheck?;
    NextKeepsInv(cfg, s, Start(t, ReadUnlock));
    NextKeepsInv(cfg, started, Step(t, false));
    TrapsExactly(cfg, checked, t, false);
    var moves := ReleaseAtTheBound(t);
    assert moves[1..] == [Step(t, false), Step(t, false)];
    assert moves[1..][1..] == [Step(t, false)];
    assert Run(cfg, s, moves) == Run(cfg, checked, [Step(t, false)]);
    assert Run(cfg, checked, [Step(t, false)]) == Run(cfg, Next(cfg, checked, Step(t, false)), []);
  }

  /** Such runs exist from every free lock, in exactly the debug builds. */
  lemma HoldersAreTrapped(cfg: Config, s: State, t: Tid)
    requires Initial(cfg, s) && cfg.kind.RwLock? && t in s.threads
    ensures (exists moves :: TrapsAlong(cfg, s, moves, t)) <==> cfg.debug
  {
    InitialInv(cfg, s);
    if cfg.debug {
      var moves := ReadOften(t, MAX_READERS);
      ManyReads(cfg, s, t, MAX_READERS);
      RunsRefine(cfg, s, moves);
      ReleaseIsTrapped(cfg, Run(cfg, s, moves), t);
      RunConcat(cfg, s, moves, ReleaseAtTheBound(t));
      assert TrapsAlong(cfg, s, moves + ReleaseAtTheBound(t), t);
    }
    if moves :| TrapsAlong(cfg, s, moves, t) {
      RunsAreExclusive(cfg, s, moves);
    }
  }

  /** The other failure: readers are kept out although no writer holds, exactly there. */
  lemma RefusedWithoutWriter(cfg: Config, s: State)
    requires Inv(cfg, s) && cfg.kind.RwLock?
    ensures HasTop(s.world.word) && s.writers == multiset{} <==> |s.readers| == MAX_READERS
  {
  }
}
