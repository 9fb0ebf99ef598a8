/** What acquiring the lock makes visible, in the memory model of C17. The lock word has a modification
    order; a thread may read any message not older than one it knows (coherence), and nothing may come
    between a read-modify-write and the message it reads (ISO/IEC 9899:2018, section 7.17.3). A write
    may therefore land in the middle of the modification order; that no lock operation's ever does is a
    result. An acquire read synchronizes with the release store that heads the release sequence
    it reads from (section 5.1.2.4). */
module Publication {
  import opened Words
  import opened Encoding
  import A = AbstractLock

  type Tid = A.Tid

  /** A critical section that has ended, numbered in the order in which they did. Knowing it means that it
      happens before what comes next. */
  type Section = nat

  datatype Via = Store | Rmw

  /** A release store carries what its thread knew; the RMWs of this lock are acquire only. */
  datatype Message = Message(value: u32, via: Via, view: set<Section>)

  /** The newest message a thread knows of, and the sections it knows. */
  datatype View = View(pos: nat, known: set<Section>)

  /** The last three are history: `enders[x]` is the thread whose section `x` was, `published` is what
      the write-unlockers knew when they unlocked, and `carried` are the sections whose own thread has
      write-unlocked by or since their end. */
  datatype State = State(
    kind: Kind,
    mo: seq<Message>,
    views: map<Tid, View>,
    held: A.Lock,
    enders: seq<Tid>,
    published: set<Section>,
    carried: set<Section>)

  datatype Event =
    | Load(t: Tid, i: nat)                      // every load, and every CAS that fails
    | ReadAcquire(t: Tid, i: nat)               // a CAS that took a read hold
    | WriteAcquire(t: Tid, i: nat)              // a CAS that took the write hold
    | ReadRelease(t: Tid, i: nat)               // fetch_sub, acquire only
    | WriteRelease(t: Tid, p: nat)              // the release store of 0
    | Learn(t: Tid, from: Tid)                  // synchronization that has nothing to do with the lock

  // ----- the memory model -----

  /** The head of the release sequence that message `i` belongs to. */
  function Head(mo: seq<Message>, i: nat): (h: nat)
    requires i < |mo|
    ensures h <= i
  {
    if i == 0 || mo[i].via.Store? then i else Head(mo, i - 1)
  }

  function Max(a: nat, b: nat): nat {
    if a < b then b else a
  }

  function Acquire(v: View, mo: seq<Message>, i: nat): View
    requires i < |mo|
  {
    View(Max(v.pos, i), v.known + mo[Head(mo, i)].view)
  }

  function Insert(mo: seq<Message>, p: nat, m: Message): seq<Message>
    requires p <= |mo|
  {
    mo[..p] + [m] + mo[p..]
  }

  function Shift(v: View, p: nat): View {
    if v.pos >= p then v.(pos := v.pos + 1) else v
  }

  predicate Coherent(s: State, t: Tid, i: nat) {
    t in s.views && s.views[t].pos <= i < |s.mo|
  }

  /** Position `p` does not separate a read-modify-write from the message it reads. */
  predicate Separable(mo: seq<Message>, p: nat) {
    p == |mo| || (p < |mo| && mo[p].via.Store?)
  }

  /** What the code compares with, and the discipline of its callers. */
  predicate CanHappen(s: State, e: Event) {
    match e
    case Load(t, i) => Coherent(s, t, i)
    case ReadAcquire(t, i) =>
      && s.kind.RwLock? && Coherent(s, t, i) && Separable(s.mo, i + 1)
      && !HasTop(s.mo[i].value)
    case WriteAcquire(t, i) => Coherent(s, t, i) && Separable(s.mo, i + 1) && s.mo[i].value == 0
    case ReadRelease(t, i) => Coherent(s, t, i) && Separable(s.mo, i + 1) && t in s.held.readers
    case WriteRelease(t, p) =>
      t in s.views && s.views[t].pos < p <= |s.mo| && Separable(s.mo, p) && t in s.held.writers
    case Learn(t, from) => t in s.views && from in s.views
  }

  /** Thread `t` has view `v` and writes message `m` at position `p`. */
  function Write(s: State, t: Tid, v: View, p: nat, m: Message): State
    requires p <= |s.mo|
  {
    s.(mo := Insert(s.mo, p, m),
       views := (map u | u in s.views :: Shift(s.views[u], p))[t := v.(pos := p)])
  }

  function Exchange(s: State, t: Tid, i: nat, value: u32): State
    requires Coherent(s, t, i)
  {
    Write(s, t, Acquire(s.views[t], s.mo, i), i + 1, Message(value, Rmw, {}))
  }

  function Know(v: View, section: Section): View {
    v.(known := v.known + {section})
  }

  function After(s: State, e: Event): State
    requires CanHappen(s, e)
  {
    match e
    case Load(t, i) => s.(views := s.views[t := Acquire(s.views[t], s.mo, i)])
    case ReadAcquire(t, i) =>
      Exchange(s, t, i, Inc(s.mo[i].value)).(held := A.Do(s.held, A.Action(t, A.TakeRead)))
    case WriteAcquire(t, i) =>
      Exchange(s, t, i, WriteWord(s.kind)).(held := A.Do(s.held, A.Action(t, A.TakeWrite)))
    case ReadRelease(t, i) =>
      var s' := s.(views := s.views[t := Know(s.views[t], |s.enders|)]);
      Exchange(s', t, i, Dec(s.mo[i].value)).(
        held := A.Do(s.held, A.Action(t, A.DropRead)), enders := s.enders + [t])
    case WriteRelease(t, p) =>
      var v := Know(s.views[t], |s.enders|);
      Write(s, t, v, p, Message(0, Store, v.known)).(
        held := A.Do(s.held, A.Action(t, A.DropWrite)),
        enders := s.enders + [t],
        published := s.published + v.known,
        carried := s.carried + EndedBy(s.enders + [t], t))
    case Learn(t, from) =>
      var mine, theirs := s.views[t], s.views[from];
      s.(views := s.views[t := View(Max(mine.pos, theirs.pos), mine.known + theirs.known)])
  }

  function EndedBy(enders: seq<Tid>, t: Tid): set<Section> {
    set x: Section | x < |enders| && enders[x] == t
  }

  /** Events that cannot happen change nothing. */
  function Step(s: State, e: Event): State {
    if CanHappen(s, e) then After(s, e) else s
  }

  function Run(s: State, events: seq<Event>): State
    decreases |events|
  {
    if events == [] then s else Run(Step(s, events[0]), events[1..])
  }

  ghost predicate Initial(s: State) {
    && s.mo == [Message(0, Store, {})]
    && s.held == A.FREE
    && s.enders == []
    && s.published == s.carried == {}
    && forall t :: t in s.views ==> s.views[t] == View(0, {})
  }

  // ----- what every run keeps -----

  function Last(s: State): nat
    requires s.mo != []
  {
    |s.mo| - 1
  }

  /** A plain store always follows the writer's word. */
  ghost predicate StoresFollowWriters(kind: Kind, mo: seq<Message>) {
    forall j :: 0 < j < |mo| && mo[j].via.Store? ==> mo[j - 1].value == WriteWord(kind)
  }

  ghost predicate OnlyRmwsAfter(mo: seq<Message>, pos: nat) {
    forall j :: pos < j < |mo| ==> mo[j].via.Rmw?
  }

  ghost predicate Ended(sections: set<Section>, enders: seq<Tid>) {
    forall x :: x in sections ==> x < |enders|
  }

  ghost predicate ViewOk(s: State, t: Tid, v: View)
    requires s.mo != []
  {
    && v.pos <= Last(s)
    && Ended(v.known, s.enders)
    && (t in s.held.writers ==> v.pos == Last(s))
    && (t in s.held.readers ==> OnlyRmwsAfter(s.mo, v.pos))
    && (t in s.held.writers || t in s.held.readers ==> s.published <= v.known)
  }

  /** The head of the latest release sequence carries all that was ever published, and no message carries
      anything else. */
  ghost predicate Inv(s: State) {
    && s.mo != []
    && s.mo[0].via.Store?
    && Encodes(s.kind, s.mo[Last(s)].value, s.held)
    && StoresFollowWriters(s.kind, s.mo)
    && s.mo[Head(s.mo, Last(s))].view == s.published
    && (forall j :: 0 <= j < |s.mo| ==> s.mo[j].view <= s.published)
    && Ended(s.published, s.enders)
    && (forall t :: t in s.views ==> ViewOk(s, t, s.views[t]))
  }

  lemma InitialInv(s: State)
    requires Initial(s)
    ensures Inv(s)
  {
  }

  // ----- every write lands at the end -----

  function Position(e: Event): nat {
    match e
    case ReadAcquire(_, i) => i + 1
    case WriteAcquire(_, i) => i + 1
    case ReadRelease(_, i) => i + 1
    case WriteRelease(_, p) => p
    case _ => 0
  }

  predicate Writes(e: Event) {
    !e.Load? && !e.Learn?
  }

  /** Although coherence would let a write of a thread with an old view land before messages it does not
      know, the values compared with and the discipline leave only the end. */
  lemma WritesLandAtTheEnd(s: State, e: Event)
    requires Inv(s) && CanHappen(s, e) && Writes(e)
    ensures Position(e) == |s.mo|
    ensures e.WriteAcquire? ==> s.held == A.FREE
    ensures e.ReadAcquire? ==> s.held.writers == multiset{}
  {
    assert ViewOk(s, e.t, s.views[e.t]);
  }

  lemma {:induction false} HeadAppend(mo: seq<Message>, m: Message, i: nat)
    requires i < |mo|
    ensures Head(mo + [m], i) == Head(mo, i)
  {
    if i > 0 && !mo[i].via.Store? {
      HeadAppend(mo, m, i - 1);
    }
  }

  /** Writing at the end is appending, and no other view shifts. */
  lemma WriteAppends(s: State, t: Tid, v: View, m: Message)
    requires s.mo != [] && t in s.views && forall u :: u in s.views ==> s.views[u].pos < |s.mo|
    ensures Write(s, t, v, |s.mo|, m) == s.(mo := s.mo + [m], views := s.views[t := v.(pos := |s.mo|)])
  {
    assert Insert(s.mo, |s.mo|, m) == s.mo + [m];
    assert (map u | u in s.views :: Shift(s.views[u], |s.mo|)) == s.views;
  }

  /** The view an acquire read of the last message leaves: whatever was published is known. */
  lemma AcquireLast(s: State, t: Tid)
    requires Inv(s) && t in s.views
    ensures Acquire(s.views[t], s.mo, Last(s)) == View(Last(s), s.views[t].known + s.published)
    ensures Ended(s.views[t].known + s.published, s.enders)
  {
    assert ViewOk(s, t, s.views[t]);
  }

  /** Loads and outside synchronization only add to views. */
  lemma ViewGrows(s: State, t: Tid, v: View)
    requires Inv(s) && t in s.views
    requires s.views[t].pos <= v.pos <= Last(s) && s.views[t].known <= v.known && Ended(v.known, s.enders)
    ensures Inv(s.(views := s.views[t := v]))
  {
    var after := s.(views := s.views[t := v]);
    forall u | u in after.views
      ensures ViewOk(after, u, after.views[u])
    {
      assert ViewOk(s, u, s.views[u]);
    }
  }

  /** A read-modify-write at the end continues the release sequence. */
  lemma RmwKeeps(s: State, t: Tid, value: u32, known: set<Section>, held: A.Lock, enders: seq<Tid>)
    requires Inv(s) && t in s.views
    requires |s.enders| <= |enders| && Ended(known, enders) && s.published <= known
    requires Encodes(s.kind, value, held)
    requires s.held.writers == multiset{}
    requires forall u :: u in s.views && u != t ==>
               u !in held.writers && (u in held.readers ==> u in s.held.readers)
    ensures Inv(s.(mo := s.mo + [Message(value, Rmw, {})], views := s.views[t := View(|s.mo|, known)],
                   held := held, enders := enders))
  {
    var after := s.(mo := s.mo + [Message(value, Rmw, {})], views := s.views[t := View(|s.mo|, known)],
                    held := held, enders := enders);
    HeadAppend(s.mo, Message(value, Rmw, {}), Last(s));
    assert Head(after.mo, Last(after)) == Head(s.mo, Last(s));
    forall u | u in after.views
      ensures ViewOk(after, u, after.views[u])
    {
      assert ViewOk(s, u, s.views[u]);
    }
  }

  /** The release store at the end starts a new release sequence that carries all that was published. */
  lemma StoreKeeps(s: State, t: Tid, known: set<Section>, carried: set<Section>)
    requires Inv(s) && t in s.views && t in s.held.writers
    requires known == s.views[t].known + {|s.enders|}
    ensures Inv(s.(mo := s.mo + [Message(0, Store, known)], views := s.views[t := View(|s.mo|, known)],
                   held := A.Do(s.held, A.Action(t, A.DropWrite)), enders := s.enders + [t],
                   published := s.published + known, carried := carried))
  {
    var after := s.(mo := s.mo + [Message(0, Store, known)], views := s.views[t := View(|s.mo|, known)],
                    held := A.Do(s.held, A.Action(t, A.DropWrite)), enders := s.enders + [t],
                    published := s.published + known, carried := carried);
    assert ViewOk(s, t, s.views[t]);
    assert s.published + known == known;
    assert after.held == A.FREE by {
      assert |s.held.writers - multiset{t}| == 0;
    }
    forall u | u in after.views
      ensures ViewOk(after, u, after.views[u])
    {
      assert ViewOk(s, u, s.views[u]);
    }
  }

  /** A compare-and-swap that succeeds, or a fetch_sub, by a thread that first takes note of what it has
      ended, if anything. */
  lemma ExchangeAtEnd(s: State, t: Tid, noted: set<Section>, value: u32)
    requires Inv(s) && t in s.views
    ensures var noting := s.(views := s.views[t := s.views[t].(known := s.views[t].known + noted)]);
            && Coherent(noting, t, Last(s))
            && Exchange(noting, t, Last(s), value) ==
               s.(mo := s.mo + [Message(value, Rmw, {})],
                  views := s.views[t := View(|s.mo|, s.views[t].known + s.published + noted)])
  {
    var noting := s.(views := s.views[t := s.views[t].(known := s.views[t].known + noted)]);
    forall u | u in s.views ensures noting.views[u].pos < |s.mo| {
      assert ViewOk(s, u, s.views[u]);
    }
    var v := Acquire(noting.views[t], s.mo, Last(s));
    WriteAppends(noting, t, v, Message(value, Rmw, {}));
    assert v.known == s.views[t].known + s.published + noted;
  }

  lemma AcquisitionKeepsInv(s: State, e: Event)
    requires Inv(s) && CanHappen(s, e) && (e.ReadAcquire? || e.WriteAcquire?)
    ensures Inv(After(s, e))
    ensures After(s, e).views == s.views[e.t := View(|s.mo|, s.views[e.t].known + s.published)]
  {
    WritesLandAtTheEnd(s, e);
    AcquireLast(s, e.t);
    var word := s.mo[Last(s)].value;
    var value := if e.ReadAcquire? then Inc(word) else WriteWord(s.kind);
    assert s.views[e.t].(known := s.views[e.t].known + {}) == s.views[e.t];
    assert s.views[e.t := s.views[e.t]] == s.views;
    ExchangeAtEnd(s, e.t, {}, value);
    var known := s.views[e.t].known + s.published;
    assert known + {} == known;
    RmwKeeps(s, e.t, value, known, After(s, e).held, s.enders);
  }

  lemma ReadReleaseKeepsInv(s: State, e: Event)
    requires Inv(s) && CanHappen(s, e) && e.ReadRelease?
    ensures Inv(After(s, e))
    ensures After(s, e).views == s.views[e.t := View(|s.mo|, s.views[e.t].known + s.published + {|s.enders|})]
  {
    WritesLandAtTheEnd(s, e);
    AcquireLast(s, e.t);
    var word := s.mo[Last(s)].value;
    ExchangeAtEnd(s, e.t, {|s.enders|}, Dec(word));
    var known := s.views[e.t].known + s.published + {|s.enders|};
    assert |s.held.readers - multiset{e.t}| == |s.held.readers| - 1;
    RmwKeeps(s, e.t, Dec(word), known, A.Do(s.held, A.Action(e.t, A.DropRead)), s.enders + [e.t]);
  }

  lemma WriteReleaseKeepsInv(s: State, e: Event)
    requires Inv(s) && CanHappen(s, e) && e.WriteRelease?
    ensures Inv(After(s, e))
    ensures After(s, e).views == s.views[e.t := View(|s.mo|, s.views[e.t].known + {|s.enders|})]
  {
    WritesLandAtTheEnd(s, e);
    forall u | u in s.views ensures s.views[u].pos < |s.mo| {
      assert ViewOk(s, u, s.views[u]);
    }
    var v := Know(s.views[e.t], |s.enders|);
    WriteAppends(s, e.t, v, Message(0, Store, v.known));
    StoreKeeps(s, e.t, v.known, After(s, e).carried);
  }

  lemma EventKeepsInv(s: State, e: Event)
    requires Inv(s) && CanHappen(s, e)
    ensures Inv(After(s, e))
  {
    match e
    case Load(t, i) =>
      assert ViewOk(s, t, s.views[t]);
      assert s.mo[Head(s.mo, i)].view <= s.published;
      ViewGrows(s, t, Acquire(s.views[t], s.mo, i));
    case Learn(t, from) =>
      assert ViewOk(s, t, s.views[t]) && ViewOk(s, from, s.views[from]);
      ViewGrows(s, t, After(s, e).views[t]);
    case ReadAcquire(_, _) => AcquisitionKeepsInv(s, e);
    case WriteAcquire(_, _) => AcquisitionKeepsInv(s, e);
    case ReadRelease(_, _) => ReadReleaseKeepsInv(s, e);
    case WriteRelease(_, _) => WriteReleaseKeepsInv(s, e);
  }

  lemma {:induction false} RunsKeepInv(s: State, events: seq<Event>)
    requires Inv(s)
    ensures Inv(Run(s, events))
    decreases |events|
  {
    if events != [] {
      if CanHappen(s, events[0]) {
        EventKeepsInv(s, events[0]);
        RunsKeepInv(After(s, events[0]), events[1..]);
      } else {
        RunsKeepInv(s, events[1..]);
      }
    }
  }

  /** What an event does to ownership. */
  function ActionsOf(e: Event): seq<A.Action> {
    match e
    case ReadAcquire(t, _) => [A.Action(t, A.TakeRead)]
    case WriteAcquire(t, _) => [A.Action(t, A.TakeWrite)]
    case ReadRelease(t, _) => [A.Action(t, A.DropRead)]
    case WriteRelease(t, _) => [A.Action(t, A.DropWrite)]
    case _ => []
  }

  function Trace(s: State, events: seq<Event>): seq<A.Action>
    decreases |events|
  {
    if events == [] then []
    else if CanHappen(s, events[0]) then ActionsOf(events[0]) + Trace(After(s, events[0]), events[1..])
    else Trace(s, events[1..])
  }

  /** Exclusion does not need sequential consistency: with stale loads, and with any placement of the
      writes that the memory model allows, ownership still evolves as the abstract lock does. */
  lemma {:induction false} RunsRefine(s: State, events: seq<Event>)
    requires Inv(s)
    ensures A.LegalTrace(s.held, Trace(s, events))
    ensures Run(s, events).held == A.DoAll(s.held, Trace(s, events))
    decreases |events|
  {
    if events != [] {
      var e, rest := events[0], events[1..];
      if CanHappen(s, e) {
        EventIsLegal(s, e);
        EventKeepsInv(s, e);
        RunsRefine(After(s, e), rest);
        A.TracesCompose(s.held, ActionsOf(e), Trace(After(s, e), rest));
      } else {
        RunsRefine(s, rest);
      }
    }
  }

  lemma EventIsLegal(s: State, e: Event)
    requires Inv(s) && CanHappen(s, e)
    ensures A.LegalTrace(s.held, ActionsOf(e))
    ensures After(s, e).held == A.DoAll(s.held, ActionsOf(e))
  {
    if Writes(e) {
      WritesLandAtTheEnd(s, e);
    }
  }

  lemma ExclusionInC17(start: State, events: seq<Event>)
    requires Initial(start)
    ensures A.LegalTrace(A.FREE, Trace(start, events))
    ensures A.Exclusive(Run(start, events).held)
  {
    InitialInv(start);
    RunsRefine(start, events);
    A.LegalTracesStayExclusive(A.FREE, Trace(start, events));
  }

  // ----- what is published -----

  lemma {:induction false} HeadIsLatestStore(mo: seq<Message>, i: nat)
    requires i < |mo| && mo[0].via.Store?
    ensures mo[Head(mo, i)].via.Store?
    ensures forall j :: Head(mo, i) < j <= i ==> mo[j].via.Rmw?
  {
    if i > 0 && !mo[i].via.Store? {
      HeadIsLatestStore(mo, i - 1);
    }
  }

  /** Event `k` of the run is a write-unlock by a thread that knows section `x`, its own among them. */
  ghost predicate PublishedAt(start: State, events: seq<Event>, x: Section, k: nat) {
    && k < |events|
    && CanHappen(Run(start, events[..k]), events[k]) && events[k].WriteRelease?
    && events[k].t in Run(start, events[..k + 1]).views
    && x in Run(start, events[..k + 1]).views[events[k].t].known
  }

  lemma PublishedLater(start: State, events: seq<Event>, x: Section, k: nat)
    requires events != []
    ensures PublishedAt(start, events, x, k + 1) <==> PublishedAt(Step(start, events[0]), events[1..], x, k)
  {
    if k + 1 < |events| {
      assert events[..k + 1][1..] == events[1..][..k];
      assert events[..k + 2][1..] == events[1..][..k + 1];
    }
  }

  lemma PublishedFirst(s: State, events: seq<Event>, x: Section)
    requires events != []
    ensures x in Step(s, events[0]).published <==> x in s.published || PublishedAt(s, events, x, 0)
  {
    assert events[..0] == [];
    assert events[..1] == [events[0]];
    assert Run(s, [events[0]]) == Run(Step(s, events[0]), []);
  }

  /** The history field in terms of events. */
  lemma {:induction false} PublishedByUnlocks(s: State, events: seq<Event>, x: Section)
    ensures x in Run(s, events).published <==> x in s.published || exists k: nat :: PublishedAt(s, events, x, k)
    decreases |events|
  {
    if events != [] {
      var next, rest := Step(s, events[0]), events[1..];
      PublishedByUnlocks(next, rest, x);
      PublishedFirst(s, events, x);
      forall k: nat ensures PublishedAt(s, events, x, k + 1) <==> PublishedAt(next, rest, x, k) {
        PublishedLater(s, events, x, k);
      }
      if k: nat :| PublishedAt(s, events, x, k) {
        assert k > 0 ==> PublishedAt(next, rest, x, k - 1);
      }
      if k: nat :| PublishedAt(next, rest, x, k) {
        assert PublishedAt(s, events, x, k + 1);
      }
    }
  }

  /** Publication, over whole runs: whoever takes the lock, as reader or as writer, reads the last
      message, from the release sequence of the latest write-unlock. It knows afterwards what it knew
      and what any write-unlocker knew, its own section among it, and nothing else. */
  lemma AcquisitionsSeeAllWrites(start: State, events: seq<Event>, e: Event, x: Section)
    requires Initial(start)
    requires CanHappen(Run(start, events), e) && (e.ReadAcquire? || e.WriteAcquire?)
    ensures var s := Run(start, events);
            && e.i == |s.mo| - 1
            && s.mo[Head(s.mo, e.i)].via.Store?
            && (forall j :: Head(s.mo, e.i) < j < |s.mo| ==> s.mo[j].via.Rmw?)
            && (x in After(s, e).views[e.t].known <==>
                x in s.views[e.t].known || exists k: nat :: PublishedAt(start, events, x, k))
  {
    InitialInv(start);
    RunsKeepInv(start, events);
    PublishedByUnlocks(start, events, x);
    LastIsLatest(Run(start, events), e);
  }

  lemma LastIsLatest(s: State, e: Event)
    requires Inv(s) && CanHappen(s, e) && (e.ReadAcquire? || e.WriteAcquire?)
    ensures e.i == |s.mo| - 1
    ensures s.mo[Head(s.mo, e.i)].via.Store?
    ensures forall j :: Head(s.mo, e.i) < j < |s.mo| ==> s.mo[j].via.Rmw?
    ensures After(s, e).views[e.t].known == s.views[e.t].known + s.published
  {
    WritesLandAtTheEnd(s, e);
    HeadIsLatestStore(s.mo, e.i);
    AcquisitionKeepsInv(s, e);
  }

  /** The lock's modification order is a log that lock operations only append to, over whole runs. */
  lemma LockOperationsAppend(start: State, events: seq<Event>, e: Event)
    requires Initial(start) && CanHappen(Run(start, events), e) && Writes(e)
    ensures var s := Run(start, events);
            && Position(e) == |s.mo|
            && After(s, e).mo[..|s.mo|] == s.mo
            && |After(s, e).mo| == |s.mo| + 1
  {
    InitialInv(start);
    RunsKeepInv(start, events);
    WritesLandAtTheEnd(Run(start, events), e);
  }

  // ----- who learns of a section, when the lock is the only synchronization -----

  predicate NoLearning(events: seq<Event>) {
    forall e :: e in events ==> !e.Learn?
  }

  /** A thread knows its own sections and at most the carried ones of others. */
  ghost predicate KnowsOwn(s: State, t: Tid)
    requires t in s.views
  {
    && EndedBy(s.enders, t) <= s.views[t].known
    && s.views[t].known <= EndedBy(s.enders, t) + s.carried
  }

  ghost predicate OnlyByLock(s: State) {
    && Inv(s)
    && s.published == s.carried
    && (forall t :: t in s.views ==> KnowsOwn(s, t))
  }

  /** The views of the other threads stay, and thread `t` learns at most what was published, beside what it
      ends. */
  lemma OnlyByLockKept(s: State, after: State, t: Tid)
    requires OnlyByLock(s) && Inv(after) && t in s.views
    requires after.views.Keys == s.views.Keys
    requires forall u :: u in s.views && u != t ==> after.views[u] == s.views[u]
    requires after.enders == s.enders || after.enders == s.enders + [t]
    requires after.published == after.carried && s.carried <= after.carried
    requires s.views[t].known + (EndedBy(after.enders, t) - EndedBy(s.enders, t)) <= after.views[t].known
    requires after.views[t].known <= s.views[t].known + s.published + EndedBy(after.enders, t)
    ensures OnlyByLock(after)
  {
    forall u | u in after.views
      ensures KnowsOwn(after, u)
    {
      assert KnowsOwn(s, u);
      if u != t {
        assert EndedBy(after.enders, u) == EndedBy(s.enders, u);
      }
    }
  }

  lemma LoadKeepsOnlyByLock(s: State, e: Event)
    requires OnlyByLock(s) && CanHappen(s, e) && e.Load?
    ensures OnlyByLock(After(s, e))
  {
    EventKeepsInv(s, e);
    assert KnowsOwn(s, e.t);
    assert s.mo[Head(s.mo, e.i)].view <= s.published;
    OnlyByLockKept(s, After(s, e), e.t);
  }

  lemma AcquisitionKeepsOnlyByLock(s: State, e: Event)
    requires OnlyByLock(s) && CanHappen(s, e) && (e.ReadAcquire? || e.WriteAcquire?)
    ensures OnlyByLock(After(s, e))
  {
    AcquisitionKeepsInv(s, e);
    OnlyByLockKept(s, After(s, e), e.t);
  }

  lemma ReadReleaseKeepsOnlyByLock(s: State, e: Event)
    requires OnlyByLock(s) && CanHappen(s, e) && e.ReadRelease?
    ensures OnlyByLock(After(s, e))
  {
    ReadReleaseKeepsInv(s, e);
    EndedNext(s.enders, e.t);
    OnlyByLockKept(s, After(s, e), e.t);
  }

  lemma WriteReleaseKeepsOnlyByLock(s: State, e: Event)
    requires OnlyByLock(s) && CanHappen(s, e) && e.WriteRelease?
    ensures OnlyByLock(After(s, e))
  {
    WriteReleaseKeepsInv(s, e);
    EndedNext(s.enders, e.t);
    assert KnowsOwn(s, e.t);
    OnlyByLockKept(s, After(s, e), e.t);
  }

  lemma EventKeepsOnlyByLock(s: State, e: Event)
    requires OnlyByLock(s) && CanHappen(s, e) && !e.Learn?
    ensures OnlyByLock(After(s, e))
  {
    match e
    case Load(_, _) => LoadKeepsOnlyByLock(s, e);
    case ReadAcquire(_, _) => AcquisitionKeepsOnlyByLock(s, e);
    case WriteAcquire(_, _) => AcquisitionKeepsOnlyByLock(s, e);
    case ReadRelease(_, _) => ReadReleaseKeepsOnlyByLock(s, e);
    case WriteRelease(_, _) => WriteReleaseKeepsOnlyByLock(s, e);
  }

  lemma EndedNext(enders: seq<Tid>, t: Tid)
    ensures EndedBy(enders + [t], t) == EndedBy(enders, t) + {|enders|}
  {
  }

  lemma {:induction false} RunsKeepOnlyByLock(s: State, events: seq<Event>)
    requires OnlyByLock(s) && NoLearning(events)
    ensures OnlyByLock(Run(s, events))
    decreases |events|
  {
    if events != [] {
      var e, rest := events[0], events[1..];
      assert e in events && forall x :: x in rest ==> x in events;
      if CanHappen(s, e) {
        EventKeepsOnlyByLock(s, e);
        RunsKeepOnlyByLock(After(s, e), rest);
      } else {
        RunsKeepOnlyByLock(s, rest);
      }
    }
  }

  /** Event `k` of the run is a write-unlock by the thread whose section `x` was, which had ended by then or
      ended with it. */
  ghost predicate CarriedAt(start: State, events: seq<Event>, x: Section, k: nat) {
    && k < |events|
    && var s, e := Run(start, events[..k]), events[k];
    && CanHappen(s, e) && e.WriteRelease?
    && x in EndedBy(After(s, e).enders, e.t)
  }

  lemma CarriedLater(start: State, events: seq<Event>, x: Section, k: nat)
    requires events != []
    ensures CarriedAt(start, events, x, k + 1) <==> CarriedAt(Step(start, events[0]), events[1..], x, k)
  {
    if k + 1 < |events| {
      assert events[..k + 1][1..] == events[1..][..k];
    }
  }

  lemma CarriedFirst(s: State, events: seq<Event>, x: Section)
    requires events != []
    ensures x in Step(s, events[0]).carried <==> x in s.carried || CarriedAt(s, events, x, 0)
  {
    assert events[..0] == [];
  }

  /** The history field in terms of events. */
  lemma {:induction false} CarriedByUnlocks(s: State, events: seq<Event>, x: Section)
    ensures x in Run(s, events).carried <==> x in s.carried || exists k: nat :: CarriedAt(s, events, x, k)
    decreases |events|
  {
    if events != [] {
      var next, rest := Step(s, events[0]), events[1..];
      CarriedByUnlocks(next, rest, x);
      CarriedFirst(s, events, x);
      forall k: nat ensures CarriedAt(s, events, x, k + 1) <==> CarriedAt(next, rest, x, k) {
        CarriedLater(s, events, x, k);
      }
      if k: nat :| CarriedAt(s, events, x, k) {
        assert k > 0 ==> CarriedAt(next, rest, x, k - 1);
      }
      if k: nat :| CarriedAt(next, rest, x, k) {
        assert CarriedAt(s, events, x, k + 1);
      }
    }
  }

  /** Exactly which sections an acquisition learns of when threads synchronize through the lock alone: its
      own, and those whose thread has write-unlocked by or since their end. So a read section happens
      before a later section of another thread if and only if its reader has become a writer in between. */
  lemma WhoLearnsOfASection(start: State, events: seq<Event>, e: Event, x: Section)
    requires Initial(start) && NoLearning(events)
    requires CanHappen(Run(start, events), e) && (e.ReadAcquire? || e.WriteAcquire?)
    requires x < |Run(start, events).enders|
    ensures var s := Run(start, events);
            x in After(s, e).views[e.t].known <==>
              s.enders[x] == e.t || exists k: nat :: CarriedAt(start, events, x, k)
  {
    InitialInv(start);
    assert OnlyByLock(start);
    RunsKeepOnlyByLock(start, events);
    CarriedByUnlocks(start, events, x);
    Learned(Run(start, events), e, x);
  }

  lemma Learned(s: State, e: Event, x: Section)
    requires OnlyByLock(s) && x < |s.enders|
    requires CanHappen(s, e) && (e.ReadAcquire? || e.WriteAcquire?)
    ensures x in After(s, e).views[e.t].known <==> s.enders[x] == e.t || x in s.carried
  {
    assert KnowsOwn(s, e.t);
    AcquisitionKeepsInv(s, e);
  }

  /** A reader leaves, a writer comes and goes, another writer enters. */
  function ReaderLeft(start: State): State {
    Run(start, [ReadAcquire(0, 0), ReadRelease(0, 1)])
  }

  function WriterIn(start: State): State {
    Run(ReaderLeft(start), [WriteAcquire(1, 2)])
  }

  function WriterLeft(start: State): State {
    Run(WriterIn(start), [WriteRelease(1, 4)])
  }

  function NextWriterIn(start: State): State {
    Run(WriterLeft(start), [WriteAcquire(2, 4)])
  }

  /** The last message and what has been published; thread 2 has done nothing yet. */
  ghost predicate Snapshot(s: State, last: nat, word: u32, enders: seq<Tid>, published: set<Section>) {
    && Inv(s) && s.kind.RwLock?
    && Last(s) == last && s.mo[last].value == word
    && s.enders == enders && s.published == published
    && 1 in s.views && 2 in s.views && s.views[2] == View(0, {})
  }

  lemma ReaderLeftSnapshot(start: State)
    requires Initial(start) && start.kind.RwLock? && 0 in start.views && 1 in start.views && 2 in start.views
    ensures Snapshot(ReaderLeft(start), 2, 0, [0], {}) && ReaderLeft(start).views[1] == View(0, {})
  {
    InitialInv(start);
    AcquisitionKeepsInv(start, ReadAcquire(0, 0));
    var s := After(start, ReadAcquire(0, 0));
    ReadReleaseKeepsInv(s, ReadRelease(0, 1));
    assert ReaderLeft(start) == After(s, ReadRelease(0, 1));
  }

  lemma WriterInSnapshot(s: State)
    requires Snapshot(s, 2, 0, [0], {}) && s.views[1] == View(0, {})
    ensures var after := Run(s, [WriteAcquire(1, 2)]);
            && Snapshot(after, 3, TOP_BIT, [0], {})
            && after.held.writers == multiset{1} && after.views[1] == View(3, {})
  {
    AcquisitionKeepsInv(s, WriteAcquire(1, 2));
    assert Run(s, [WriteAcquire(1, 2)]) == After(s, WriteAcquire(1, 2));
  }

  lemma WriterLeftSnapshot(s: State)
    requires Snapshot(s, 3, TOP_BIT, [0], {}) && s.held.writers == multiset{1} && s.views[1] == View(3, {})
    ensures Snapshot(Run(s, [WriteRelease(1, 4)]), 4, 0, [0, 1], {1})
  {
    WriteReleaseKeepsInv(s, WriteRelease(1, 4));
    assert Run(s, [WriteRelease(1, 4)]) == After(s, WriteRelease(1, 4));
  }

  /** The read section happens before neither write section: a write-unlock publishes no read section that
      its thread does not know. */
  lemma ReaderThenWriters(start: State)
    requires Initial(start) && start.kind.RwLock? && 0 in start.views && 1 in start.views && 2 in start.views
    ensures var s := WriterIn(start);
            1 in s.held.writers && s.enders == [0] && 0 !in s.views[1].known
    ensures var s := NextWriterIn(start);
            2 in s.held.writers && s.enders == [0, 1] && s.views[2].known == {1}
  {
    ReaderLeftSnapshot(start);
    WriterInSnapshot(ReaderLeft(start));
    WriterLeftSnapshot(WriterIn(start));
    var s := WriterLeft(start);
    AcquisitionKeepsInv(s, WriteAcquire(2, 4));
    assert Run(s, [WriteAcquire(2, 4)]) == After(s, WriteAcquire(2, 4));
  }
}
