/** The specification of both locks: who holds, and which changes of ownership are legal. A plain mutex
    is the case without read actions. */
module AbstractLock {

  type Tid = nat

  /** A thread may read-lock several times, so holds are counted per thread. */
  datatype Lock = Lock(writers: multiset<Tid>, readers: multiset<Tid>)

  const FREE: Lock := Lock(multiset{}, multiset{})

  datatype Change = TakeWrite | TakeRead | DropWrite | DropRead

  /** A change of ownership by thread `t`. */
  datatype Action = Action(t: Tid, change: Change)

  ghost predicate Legal(l: Lock, a: Action) {
    match a.change
    case TakeWrite => l == FREE
    case TakeRead => l.writers == multiset{}
    case DropWrite => a.t in l.writers
    case DropRead => a.t in l.readers
  }

  function Do(l: Lock, a: Action): Lock {
    match a.change
    case TakeWrite => l.(writers := l.writers + multiset{a.t})
    case TakeRead => l.(readers := l.readers + multiset{a.t})
    case DropWrite => l.(writers := l.writers - multiset{a.t})
    case DropRead => l.(readers := l.readers - multiset{a.t})
  }

  function DoAll(l: Lock, trace: seq<Action>): Lock
    decreases |trace|
  {
    if trace == [] then l else DoAll(Do(l, trace[0]), trace[1..])
  }

  ghost predicate LegalTrace(l: Lock, trace: seq<Action>)
    decreases |trace|
  {
    trace != [] ==> Legal(l, trace[0]) && LegalTrace(Do(l, trace[0]), trace[1..])
  }

  /** One writer or any number of readers, never both. */
  ghost predicate Exclusive(l: Lock) {
    |l.writers| <= 1 && (l.writers != multiset{} ==> l.readers == multiset{})
  }

  lemma {:induction false} LegalTracesStayExclusive(l: Lock, trace: seq<Action>)
    requires Exclusive(l) && LegalTrace(l, trace)
    ensures Exclusive(DoAll(l, trace))
    decreases |trace|
  {
    if trace != [] {
      assert Exclusive(Do(l, trace[0]));
      LegalTracesStayExclusive(Do(l, trace[0]), trace[1..]);
    }
  }

  lemma {:induction false} TracesCompose(l: Lock, first: seq<Action>, second: seq<Action>)
    requires LegalTrace(l, first) && LegalTrace(DoAll(l, first), second)
    ensures LegalTrace(l, first + second)
    ensures DoAll(l, first + second) == DoAll(DoAll(l, first), second)
    decreases |first|
  {
    if first == [] {
      assert first + second == second;
    } else {
      assert (first + second)[1..] == first[1..] + second;
      TracesCompose(Do(l, first[0]), first[1..], second);
    }
  }
}
