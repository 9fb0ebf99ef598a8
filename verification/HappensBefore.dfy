/** Happens-before over the events of a run, with no views: program order, synchronization outside the lock,
    and a release store with every read of its release sequence (ISO/IEC 9899:2018, section 5.1.2.4). What the
    threads of Publication know is exactly what happens before. */
module HappensBefore {
  import opened Publication

  type Tid = Publication.Tid
  type Section = Publication.Section

  /** Event `k` happened. */
  ghost predicate Happened(start: State, events: seq<Event>, k: nat) {
    k < |events| && CanHappen(Run(start, events[..k]), events[k])
  }

  /** Event `k` is a release store that wrote message `j`. */
  ghost predicate StoredBy(start: State, events: seq<Event>, k: nat, j: nat) {
    Happened(start, events, k) && events[k].WriteRelease? && Position(events[k]) == j
  }

  /** All but the stores acquire; so does a CAS that fails. */
  predicate Acquires(e: Event) {
    e.Load? || e.ReadAcquire? || e.WriteAcquire? || e.ReadRelease?
  }

  /** Event `k` is the release store that heads the release sequence from which `e`, the next event, reads. */
  ghost predicate SynchronizesWith(start: State, events: seq<Event>, k: nat, e: Event) {
    var s := Run(start, events);
    CanHappen(s, e) && Acquires(e) && StoredBy(start, events, k, Head(s.mo, e.i))
  }

  predicate EndsSection(e: Event) {
    e.ReadRelease? || e.WriteRelease?
  }

  /** The end of section `x` happens before what thread `t` does after these events. */
  ghost predicate Precedes(start: State, events: seq<Event>, x: Section, t: Tid)
    decreases |events|
  {
    events != [] &&
    var before, e := events[..|events| - 1], events[|events| - 1];
    || Precedes(start, before, x, t)
    || (&& e.t == t && CanHappen(Run(start, before), e)
        && (|| (EndsSection(e) && x == |Run(start, before).enders|)
            || (e.Learn? && Precedes(start, before, x, e.from))
            || exists k: nat :: k < |before| && SynchronizesWith(start, before, k, e)
                                && Precedes(start, before[..k + 1], x, before[k].t)))
  }

  // ----- runs, from their end -----

  lemma {:induction false} RunSplit(s: State, first: seq<Event>, second: seq<Event>)
    ensures Run(s, first + second) == Run(Run(s, first), second)
    decreases |first|
  {
    if first == [] {
      assert first + second == second;
    } else {
      assert (first + second)[1..] == first[1..] + second;
      RunSplit(Step(s, first[0]), first[1..], second);
    }
  }

  lemma RunLast(s: State, events: seq<Event>)
    requires events != []
    ensures Run(s, events) == Step(Run(s, events[..|events| - 1]), events[|events| - 1])
  {
    var before, e := events[..|events| - 1], events[|events| - 1];
    RunSplit(s, before, [e]);
    assert events == before + [e];
    assert Run(Run(s, before), [e]) == Run(Step(Run(s, before), e), []);
  }

  /** What an event leaves of the modification order and of the views. */
  lemma WhatAnEventLeaves(s: State, e: Event)
    requires Inv(s) && CanHappen(s, e)
    ensures After(s, e).views.Keys == s.views.Keys
    ensures s.mo <= After(s, e).mo
    ensures e.WriteRelease? ==> Position(e) == |s.mo| == |After(s, e).mo| - 1
    ensures e.WriteRelease? ==> After(s, e).mo[|s.mo|] == Message(0, Store, After(s, e).views[e.t].known)
    ensures !e.WriteRelease? ==> forall j :: |s.mo| <= j < |After(s, e).mo| ==> After(s, e).mo[j].via.Rmw?
  {
    if Writes(e) {
      WritesLandAtTheEnd(s, e);
      if e.WriteRelease? {
        WriteReleaseKeepsInv(s, e);
      }
      AppendedAtTheEnd(s, e);
    }
  }

  /** One message more, at the end. */
  lemma AppendedAtTheEnd(s: State, e: Event)
    requires CanHappen(s, e) && Writes(e) && Position(e) == |s.mo|
    ensures var mo := After(s, e).mo;
            && |mo| == |s.mo| + 1 && s.mo <= mo
            && mo[|s.mo|].via == if e.WriteRelease? then Store else Rmw
    ensures After(s, e).views.Keys == s.views.Keys
    ensures e.WriteRelease? ==> After(s, e).mo[|s.mo|] == Message(0, Store, s.views[e.t].known + {|s.enders|})
  {
  }

  lemma {:induction false} OrderGrows(s: State, events: seq<Event>)
    requires Inv(s)
    ensures s.mo <= Run(s, events).mo && Run(s, events).views.Keys == s.views.Keys
    decreases |events|
  {
    if events != [] {
      if CanHappen(s, events[0]) {
        WhatAnEventLeaves(s, events[0]);
        EventKeepsInv(s, events[0]);
      }
      OrderGrows(Step(s, events[0]), events[1..]);
    }
  }

  /** A release store stays in the modification order as it was written. */
  lemma StoreStays(start: State, events: seq<Event>, k: nat, j: nat)
    requires Initial(start) && StoredBy(start, events, k, j)
    ensures var end, done := Run(start, events), Run(start, events[..k + 1]);
            && j < |end.mo| && events[k].t in done.views
            && end.mo[j] == Message(0, Store, done.views[events[k].t].known)
  {
    StoreWrites(start, events, k);
    var first := events[..k + 1];
    InitialInv(start);
    RunsKeepInv(start, first);
    OrderGrows(Run(start, first), events[k + 1..]);
    RunSplit(start, first, events[k + 1..]);
    assert events == first + events[k + 1..];
  }

  lemma StoreWrites(start: State, events: seq<Event>, k: nat)
    requires Initial(start) && Happened(start, events, k) && events[k].WriteRelease?
    ensures var s, done := Run(start, events[..k]), Run(start, events[..k + 1]);
            && done == After(s, events[k])
            && Position(events[k]) == |s.mo| == |done.mo| - 1
            && events[k].t in done.views
            && done.mo[|s.mo|] == Message(0, Store, done.views[events[k].t].known)
  {
    var first := events[..k + 1];
    RunLast(start, first);
    assert first[..k] == events[..k];
    InitialInv(start);
    RunsKeepInv(start, events[..k]);
    WhatAnEventLeaves(Run(start, events[..k]), events[k]);
  }

  /** Every store but the initial one was written by some event. */
  lemma {:induction false} StoreHasWriter(start: State, events: seq<Event>, j: nat) returns (k: nat)
    requires Initial(start) && 0 < j < |Run(start, events).mo| && Run(start, events).mo[j].via.Store?
    ensures StoredBy(start, events, k, j)
    decreases |events|
  {
    if events == [] {
      assert false;
    } else {
      var before, e := events[..|events| - 1], events[|events| - 1];
      var s := Run(start, before);
      RunLast(start, events);
      InitialInv(start);
      RunsKeepInv(start, before);
      if CanHappen(s, e) {
        WhatAnEventLeaves(s, e);
      }
      if j < |s.mo| {
        k := StoreHasWriter(start, before, j);
        assert events[..k] == before[..k];
      } else {
        k := |events| - 1;
      }
    }
  }

  /** What a store carries, its writer knew. */
  lemma StoresCarryKnowledge(start: State, events: seq<Event>, j: nat, x: Section)
    requires Initial(start) && j < |Run(start, events).mo| && Run(start, events).mo[j].via.Store?
    ensures x in Run(start, events).mo[j].view <==>
              exists k: nat :: StoredBy(start, events, k, j) && Knew(start, events, k, x)
  {
    if j == 0 {
      InitialInv(start);
      OrderGrows(start, events);
    } else if x in Run(start, events).mo[j].view {
      var k := StoreHasWriter(start, events, j);
      StoreStays(start, events, k, j);
      assert Knew(start, events, k, x);
    }
    if k: nat :| StoredBy(start, events, k, j) && Knew(start, events, k, x) {
      StoreStays(start, events, k, j);
    }
  }

  /** The thread of event `k` knew section `x` when it was done. */
  ghost predicate Knew(start: State, events: seq<Event>, k: nat, x: Section)
    requires k < |events|
  {
    var done := Run(start, events[..k + 1]);
    events[k].t in done.views && x in done.views[events[k].t].known
  }

  // ----- the theorem -----

  /** What an event teaches its thread. */
  ghost predicate Taught(s: State, e: Event, x: Section)
    requires CanHappen(s, e)
  {
    || (EndsSection(e) && x == |s.enders|)
    || (e.Learn? && x in s.views[e.from].known)
    || (Acquires(e) && x in s.mo[Head(s.mo, e.i)].view)
  }

  /** It teaches that, and nobody else. */
  ghost predicate TeachesOnly(s: State, e: Event, t: Tid, x: Section)
    requires CanHappen(s, e) && t in s.views
  {
    && t in After(s, e).views
    && (x in After(s, e).views[t].known <==> x in s.views[t].known || (e.t == t && Taught(s, e, x)))
  }

  lemma AcquisitionTeaches(s: State, e: Event, t: Tid, x: Section)
    requires Inv(s) && CanHappen(s, e) && t in s.views && (e.ReadAcquire? || e.WriteAcquire?)
    ensures TeachesOnly(s, e, t, x)
  {
    WritesLandAtTheEnd(s, e);
    AcquisitionKeepsInv(s, e);
  }

  lemma ReadReleaseTeaches(s: State, e: Event, t: Tid, x: Section)
    requires Inv(s) && CanHappen(s, e) && t in s.views && e.ReadRelease?
    ensures TeachesOnly(s, e, t, x)
  {
    WritesLandAtTheEnd(s, e);
    ReadReleaseKeepsInv(s, e);
  }

  lemma WriteReleaseTeaches(s: State, e: Event, t: Tid, x: Section)
    requires Inv(s) && CanHappen(s, e) && t in s.views && e.WriteRelease?
    ensures TeachesOnly(s, e, t, x)
  {
    WriteReleaseKeepsInv(s, e);
  }

  lemma WhatAnEventTeaches(s: State, e: Event, t: Tid, x: Section)
    requires Inv(s) && CanHappen(s, e) && t in s.views
    ensures TeachesOnly(s, e, t, x)
  {
    match e
    case Load(_, _) =>
    case Learn(_, _) =>
    case ReadAcquire(_, _) => AcquisitionTeaches(s, e, t, x);
    case WriteAcquire(_, _) => AcquisitionTeaches(s, e, t, x);
    case ReadRelease(_, _) => ReadReleaseTeaches(s, e, t, x);
    case WriteRelease(_, _) => WriteReleaseTeaches(s, e, t, x);
  }

  /** Knowledge is happens-before: over every run a thread knows a section if and only if its end happens before
      what the thread does next. */
  lemma {:induction false} KnowledgeIsHappensBefore(start: State, events: seq<Event>, x: Section, t: Tid)
    requires Initial(start) && t in start.views
    ensures t in Run(start, events).views
    ensures x in Run(start, events).views[t].known <==> Precedes(start, events, x, t)
    decreases |events|
  {
    if events != [] {
      var before, e := events[..|events| - 1], events[|events| - 1];
      var s := Run(start, before);
      KnowledgeIsHappensBefore(start, before, x, t);
      RunLast(start, events);
      InitialInv(start);
      RunsKeepInv(start, before);
      OrderGrows(start, before);
      if CanHappen(s, e) {
        WhatAnEventTeaches(s, e, t, x);
        if e.Learn? {
          KnowledgeIsHappensBefore(start, before, x, e.from);
        }
        if Acquires(e) {
          HeadIsLatestStore(s.mo, e.i);
          StoresCarryKnowledge(start, before, Head(s.mo, e.i), x);
          forall k: nat | StoredBy(start, before, k, Head(s.mo, e.i))
            ensures Knew(start, before, k, x) <==> Precedes(start, before[..k + 1], x, before[k].t)
          {
            OrderGrows(start, before[..k]);
            KnowledgeIsHappensBefore(start, before[..k + 1], x, before[k].t);
          }
        }
      }
    }
  }

  /** Exclusive sections are ordered: the end of every write section happens before whatever a thread does after
      it has later taken the lock, as reader or as writer. */
  lemma WriteSectionsHappenBefore(start: State, events: seq<Event>, k: nat, e: Event)
    requires Initial(start) && Happened(start, events, k) && events[k].WriteRelease?
    requires CanHappen(Run(start, events), e) && (e.ReadAcquire? || e.WriteAcquire?)
    ensures Precedes(start, events + [e], |Run(start, events[..k]).enders|, e.t)
  {
    var x := |Run(start, events[..k]).enders|;
    StoreWrites(start, events, k);
    InitialInv(start);
    RunsKeepInv(start, events[..k]);
    WriteReleaseKeepsInv(Run(start, events[..k]), events[k]);
    assert PublishedAt(start, events, x, k);
    AcquisitionsSeeAllWrites(start, events, e, x);
    OrderGrows(start, events);
    RunLast(start, events + [e]);
    assert (events + [e])[..|events|] == events;
    KnowledgeIsHappensBefore(start, events + [e], x, e.t);
  }

  /** Sections are numbered by their ends: `enders` lists the threads of the events that end one. */
  lemma EndersAreEnds(s: State, e: Event)
    requires CanHappen(s, e)
    ensures After(s, e).enders == s.enders + (if EndsSection(e) then [e.t] else [])
  {
  }
}
