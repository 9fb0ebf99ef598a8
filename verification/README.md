# Verification of wfe_mutex

wfe_mutex implements a plain mutex and a reader/writer lock on one 32-bit word, and the functions that
wait for such a word to change: on a hardware monitor (AMD `monitorx`/`mwaitx`, Intel
`umonitor`/`umwait`, ARM `ldaxr`/`wfe`/`wfet`) or by spinning. This project models the locks, the wait
loops, the conversion of timeouts and the memory ordering of the lock word in Dafny, and proves what
callers rely on.

`dafny verify dfyconfig.toml` checks everything.

## How it is built

- `Words.dfy`: 32- and 64-bit words. Bit 31 of a reader/writer word is the writer.
- `WaitEngine.dfy`: the wait functions of all backends as one transition function, one step for each
  memory access, monitor instruction or counter read. A monitor is the write count of the word when it was
  armed; it is triggered once the word has been written since.
- `WaitRuns.dfy`: what others may do to a waiter, and whole runs of one waiter on every backend.
- `WaitLoops.dfy`: the loops themselves, as methods of a class `Core`. Others write the word, let time
  pass and wake the core in every gap between two accesses. Each access is one step of the
  transition function, so the loops refine it. The others follow a finite schedule; a loop that
  would then never end returns `stuck`, with the schedule played to its end and a word that is not what
  is waited for: "no lost wakeup" for whole calls. Which backends and budgets can hang at all is exact.
- `CycleTime.dfy`, `Detection.dfy`, `TimedWait.dfy`: nanoseconds to cycles, frequency detection and
  calibration, and timed waits end to end.
- `AbstractLock.dfy`, `Encoding.dfy`: who may hold a lock, which changes of ownership are legal, and how
  the word encodes the holders.
- `LockMachine.dfy`: any number of threads running all lock functions on one word, interleaved at
  every atomic access, with the wait engine inside. Ownership is recorded when a CAS succeeds
  or a release is stored and is looked at by nothing but the rule that a thread unlocks only what
  it holds, in the mode it holds it (USAGE.md:109-114).
- `LockSafety.dfy`, `LockProperties.dfy`, `ReaderBound.dfy`, `LockProgress.dfy`: the invariant of every run,
  its consequences for callers, what the greatest number of read holds breaks, and progress.
- `LockCalls.dfy`: the lock functions as methods of a class `LockUser`, with the other threads running
  the lock machine in every gap. Every access is one step of the machine, so each call is part of a run
  and everything proved about runs applies to it. A call that would wait for ever returns `Blocked`, and
  only if the others, having played their whole schedule, keep it out. Once they have, only time passes. The
  loops terminate because a retry is always paid for by somebody else's write.
- `TimedLock.dfy`: the timed locks for a time in nanoseconds.
- `Publication.dfy`: the lock word in the C17 memory model, with stale loads and with writes that may
  land anywhere in the modification order that coherence and read-modify-write atomicity allow.
- `HappensBefore.dfy`: happens-before defined on the events of a run alone, and the proof that it is what
  the threads of that model know.

## What was found

- Exclusion holds in every run, with sequentially consistent accesses and in the C17 model, with no bound on
  the number of readers (`RunsAreExclusive`, `ExclusionInC17`). Up to 2^31 read holds can be reached and never
  more (`ReaderBoundIsExact`). At 2^31 the word is that of a writer, and this breaks two other
  promises, exactly there: a reader is refused although no writer holds (`RefusedWithoutWriter`,
  `AvailableWhenReleased`, `FailedTriesAreExplained`), and a read_unlock by a real holder traps in debug builds
  (`TrapsExactly`, `TrapsOnlyAtTheBound`, `HoldersAreTrapped`).
- The conversion of a timeout is never short exactly when `nanoseconds * multiplier` fits in 64
  bits (`NeverShortIff`); `ProductWrapIsShort` is an input that breaks it.
- A timeout is early exactly if fixing its deadline wrapped in 64 bits (`TimeoutNotEarly`), and then it comes
  at the first look at the counter (`WrappedDeadlineIsPast`).
- Calibration is sure never to find 1000 Hz less than the true rate, or lower, if and only if 1000 times its
  least difference fits in 64 bits (`CalibrationNeverLow`).
- A calibration round that starts in the last millisecond of a second never ends, because only the
  nanosecond fields are compared (`EndsOnlyIfStartedEarly`). Any other ends if the clock is read often enough
  before the second is over (`EndsIfPolledOften`).
- A timed wait, and so a timed lock, can hang if and only if it runs on plain WFE, or on mwaitx with a
  budget that converts to 0 cycles (which sets no timer): on these it does hang when nobody writes the
  word or wakes the core, and on every other backend and budget it returns against every schedule
  (`TimedContract` of the four timed loops, and `TimedWrLock`).
- USAGE.md:56-58 says that memory is synchronized on unlock. That is true of write-unlock: every write section
  happens before every later acquisition (`WriteSectionsHappenBefore`).
  `read_unlock` subtracts with acquire ordering only, so a read section need not happen before a later
  write section (`ReaderThenWriters`). If threads synchronize through the lock alone, it happens before a
  later section of another thread if and only if its reader has write-unlocked since
  (`WhoLearnsOfASection`). The model follows the code.
- The comment at src/detect.c:174-175 gives nanoseconds per cycle but calls them cycles per
  nanosecond; the model follows the code.

## Model

| member | source | states |
|---|---|---|
| Words.TopIsBit31 | include/wfe_mutex/wfe_mutex.h:478-482 | testing bit 31 by shifting, as the wait does, is testing the writer bit, as the lock does |
| Words.BitsAreDigits | src/implementations_arm64.c:291-299 | the bits that the shifts test are the binary digits of the word |
| WaitEngine.GuardComplementsExit | src/implementations_mwaitx.cpp:42-78 | for a bit below the width, the loop guard against `not_expected` is the negation of the early exit against `expected` |
| WaitEngine.StepKeeps | src/implementations_mwaitx.cpp:9-129 | every step of every backend keeps the waiter's invariant, and every return meets one specification: true only with a loaded value that satisfies the goal, false only from a timed wait at or past its deadline |
| WaitEngine.InterferenceKeeps | src/implementations_waitpkg.cpp:6-87 | the waiter's invariant survives anything others do between two steps |
| WaitEngine.NoLostWakeup | src/implementations_mwaitx.cpp:14-39 | a waiter that is asleep while its condition holds has been triggered |
| WaitEngine.TimeoutNotEarly | src/implementations.c:310-336 | a timeout has seen the whole budget pass since the deadline was fixed if and only if fixing it did not wrap |
| WaitEngine.WrappedDeadlineIsPast | src/implementations.c:311-313 | if fixing the deadline wrapped, the next counter read times out whatever the budget |
| WaitEngine.AloneProgress | src/implementations_arm64.c:94-114 | a waiter left alone whose goal is in the word, or which has no deadline or timer to end it, strictly approaches its return, in at most 12 steps, or is parked for good on a word that is not right |
| WaitEngine.TimedProgress | src/implementations.c:310-336 | a timed wait that polls or sets a timer is never parked: every step brings it closer to its next look at the counter, which ends it exactly if the deadline has come |
| WaitRuns.ApplyAllLater | src/implementations_waitpkg.cpp:11-42 | whatever batch of actions others take, time and write count only grow and an unwritten word is unchanged |
| WaitRuns.RunsMeetTheSpecification | src/implementations_waitpkg.cpp:6-142 | over every interleaving, on every backend: true only with a satisfying value that is still there unless overwritten, false only from a timed wait, after its whole budget exactly if its deadline did not wrap, and no sleeper whose goal holds is untriggered |
| WaitRuns.SatisfiedGoalsAreNoticed | USAGE.md:93-98 | after any run that leaves the goal in the word, every backend returns within 13 own steps, untimed waits with true: the monitor loops return whenever the spin loop does |
| WaitRuns.SeenAtOnce | src/implementations_mwaitx.cpp:80-83 | a word that is right at the call ends every wait with its first access, the timed spin with its second |
| WaitRuns.AsleepAfter | src/implementations_waitpkg.cpp:89-132 | undisturbed on a word that is not right an x86 core sleeps after exactly three accesses and an ARM core after two, a timed one after one counter reading more |
| WaitRuns.WokenSeesAtOnce | src/implementations_arm64.c:410-427 | a sleeper whose goal has come returns after exactly one load, and if timed one counter reading, before the load on x86 and after it on ARM |
| WaitRuns.SpinsByTwo | src/implementations.c:323-329 | the timed spin takes exactly a load and a counter reading each time round |
| WaitLoops.NextChunk | src/implementations_mwaitx.cpp:95-96 | the 64-bit subtraction is what is left of the budget, never underflows and is positive if the budget is, and the chunk is its cut to 2^32 - 1 |
| WaitLoops.TimersMeetTheDeadline | src/implementations_waitpkg.cpp:121-132 | the timers that the timed loops are proved to set fire by the deadline, or as much later as the sleep began after the last counter reading; none is set exactly where the wait cannot end by itself |
| WaitLoops.Core.SleepMonitored | src/implementations_mwaitx.cpp:114-119 | a sleep ends by a trigger, a stray wakeup or its timer, and lasts for ever only without a timer; untriggered and undisturbed, exactly then; its timer is on record |
| WaitLoops.Core.ArmAndSleep | src/implementations_waitpkg.cpp:100-132 | one x86 pass: found by the recheck, woken, or asleep for ever on a word that is not right |
| WaitLoops.Core.LoadExclusiveAndSleep | src/implementations_arm64.c:294-304 | one ARM pass, with the load-exclusive as arming and recheck in one |
| WaitLoops.Core.SpinWait | src/implementations.c:212-231 | against any schedule: returns the very load that satisfied the goal, and spins for ever only if the word left by the whole schedule does not satisfy it; undisturbed, exactly if the word does not |
| WaitLoops.Core.MonitorWait | src/implementations_mwaitx.cpp:42-78 | the same specification for mwaitx and umwait, so no schedule of writes can put the waiter to sleep on a word that is right |
| WaitLoops.Core.WfeWait | src/implementations_arm64.c:286-308 | the same specification for WFE |
| WaitLoops.Core.OneshotWait | src/implementations_mwaitx.cpp:131-162 | at most one sleep; the one-pass wait answers whether the word satisfies the goal when it answers, and undisturbed sleeps for ever exactly if it does not |
| WaitLoops.Core.ReloadThenCheck | src/implementations_arm64.c:418-427 | ARM ends a pass with reload, then deadline: past it the wait times out even if the reload matched |
| WaitLoops.Core.CheckThenReload | src/implementations_waitpkg.cpp:134-139 | x86 ends a pass with deadline, then reload |
| WaitLoops.Core.SpinTimedWait | src/implementations.c:310-336 | one call of the timed spin: a match comes from its last access, a timeout with the whole budget, and it always returns; undisturbed, the result is exactly what the word says |
| WaitLoops.Core.MwaitxTimedWait | src/implementations_mwaitx.cpp:80-129 | the same; every sleep is given what is left of the budget at the last counter reading, cut to 32 bits; hangs only with a budget of 0 cycles, and with that does if undisturbed |
| WaitLoops.Core.UmwaitTimedWait | src/implementations_waitpkg.cpp:89-142 | the same; every sleep is given the deadline, from its two halves; it always returns |
| WaitLoops.Core.WfeTimedWait | src/implementations_arm64.c:400-430 | the same for WFET, whose sleeps are given the deadline and which always returns, and for plain WFE, which hangs on an unsatisfied word exactly because it is plain WFE: undisturbed it always does |
| CycleTime.DivisorBounds | src/detect.c:164-179 | the divisor is the floor of the exact quotient and is zero exactly above 10^9 * multiplier Hz |
| CycleTime.NeverShortIff | src/detect.h:11-13 | the budget covers the whole cycles of the request if and only if the product fits in 64 bits |
| CycleTime.WrappedProduct | src/detect.h:12 | a wrapped product always loses more than the rounding of the divisor gives |
| CycleTime.OvershootBound | src/detect.c:347-349 | the overshoot is bounded by the relative error of the divisor, and by a factor of two |
| CycleTime.ExactWhenDivides | src/detect.c:172-178 | frequencies that divide the scaled second convert exactly |
| CycleTime.CoarseScaleCovers | src/detect.c:173-178 | up to 1 GHz the divisor is 10^9 / Hz and every 64-bit request is covered |
| CycleTime.FineScaleCovers | src/detect.c:164-171 | with the factor 10000 the divisor is 10^13 / Hz and exactly the requests below 2^64 / 10000 ns are covered |
| CycleTime.ProductWrapIsShort | src/detect.h:12 | on a 2 GHz counter a request of 2^60 ns becomes a budget of 0 |
| CycleTime.LessThanOneTickShort | src/detect.h:11-13 | elapsed cycles that cover the budget cover the request up to one tick |
| Detection.Features.DetectArm | src/detect.c:159-180 | divides by zero, which C leaves undefined, exactly at 0 Hz; up to 10^9 Hz leaves 1 and 10^9 / Hz, with which every request is covered; above, 10000 and 10^13 / Hz, with which exactly those below 2^64 / 10000 ns are, and a zero divisor exactly above 10^13 Hz |
| Detection.Features.DetectX86 | src/detect.c:297-350 | the reported frequency, or the calibrated one, which is at most 1000 times what any round counted between its two readings; the factor 10000 and the requests it covers; never returns exactly if a calibration round never ends, and divides by zero exactly at 0 Hz |
| Detection.Calibrate | src/detect.c:320-337 | the least difference of the two counter readings of five rounds, or no result exactly if a round never ends |
| Detection.EndsOnlyIfStartedEarly | src/detect.c:330-332 | a round ends only if it started at or before nanosecond 998999999 |
| Detection.EndsIfPolledOften | src/detect.c:329-332 | a round whose clock readings are no further apart than what is left of its second after a millisecond ends if and only if one of them is a millisecond after its start or later |
| Detection.RoundSpansAMillisecond | src/detect.c:326-335 | a round that ends spans a millisecond and its counter difference covers one at the counter's rate |
| Detection.CalibrationNeverLow | src/detect.c:336-339 | for every least difference: all physical rounds with it, at every rate they admit, give a frequency less than 1000 Hz below that rate, if at all, if and only if the frequency fits in 64 bits |
| Detection.CalibratedRate | src/detect.c:336-339 | the same for the frequency detection leaves, if some round counted so little that its frequency fits |
| Detection.CalibratedNotHigh | src/detect.c:335-339 | the calibrated frequency is at most 1000 times what a counter of the true rate advances between the two readings of any one round |
| Detection.WrappedCalibrationIsLow | src/detect.c:339 | for every least difference whose frequency does not fit, five rounds of a millisecond at a rate that calibration misses by 2^64 Hz or more |
| TimedWait.TimeoutCoversRequest | src/detect.h:11-13 | elapsed cycles at or past the converted budget cover the request up to one tick |
| TimedWait.CalibratedTimeoutCoversRequest | src/detect.c:339-349 | the same against any true rate less than 1000 Hz above the detected frequency |
| TimedWait.WaitForValueTimeout | include/wfe_mutex/wfe_mutex.h:167-169 | end to end: a false result means the requested time has passed, less than one tick short, on every backend; its budget in cycles has passed exactly if the deadline did not wrap |
| TimedWait.CalibrateAndWait | src/detect.c:314-349 | calibration, conversion and wait end to end: a timeout means that the requested time has passed on a counter of the true rate, up to one tick and 1000 Hz; no wait exactly if a round never ends or a division is by zero |
| AbstractLock.LegalTracesStayExclusive | USAGE.md:44-49 | legal histories of ownership have one writer or any number of readers, never both |
| LockSafety.StepShape | include/wfe_mutex/wfe_mutex.h:462-570 | a read acquisition never finds the writer bit and writes word + 1, a write acquisition finds 0, whatever stale value was compared with |
| LockSafety.StoreEncodes | include/wfe_mutex/wfe_mutex.h:277-281 | such an access is a legal change of ownership and keeps the word the encoding of the holds |
| LockSafety.OwnStepKeeps | include/wfe_mutex/wfe_mutex.h:405-570 | every own step keeps the thread's invariant, so no sanity check ever fails but that of a read_unlock in a debug build, and ownership changes only as a call returns |
| LockSafety.OthersKeep | include/wfe_mutex/wfe_mutex.h:478-485 | no step of another thread breaks a thread's invariant, in particular that its hint is in the word unless the word was written |
| LockSafety.NextKeepsInv | include/wfe_mutex/wfe_mutex.h:405-570 | every move of every thread keeps the global invariant |
| LockSafety.RunsRefine | include/wfe_mutex/wfe_mutex.h:462-570 | every interleaved run of any number of threads refines the abstract lock, linearized at the successful CAS, the store and the fetch_sub |
| LockSafety.RunsAreExclusive | include/wfe_mutex/wfe_mutex.h:405-570 | from a free lock: exclusion, the word tells exactly who holds, at most 2^31 read holds, a plain mutex word is 0 or 1 and counts its owner, and no debug check has trapped but that of a read_unlock |
| LockSafety.GoalMeansFree | include/wfe_mutex/wfe_mutex.h:478-482 | the word a call waits for is there if and only if the lock is free for it: no holder, or for a reader no writer and fewer than 2^31 read holds |
| LockProperties.SleepersAreWoken | include/wfe_mutex/wfe_mutex.h:414-419 | in every reachable state a sleeping lock waiter whose condition holds can go on unaided |
| LockProperties.FailedRetryWasOvertaken | include/wfe_mutex/wfe_mutex.h:479-485 | a CAS that fails after a wait was overtaken by a write since the wait's load |
| LockProperties.RetriesPaidByOthers | include/wfe_mutex/wfe_mutex.h:499-504 | over any run a call retries at most as often as other threads wrote the word during it |
| LockProperties.ResultsTellOwnership | USAGE.md:60-87 | success is exactly one change of ownership, found legal; failure changes neither word nor holds and comes only from try and timed calls |
| LockProperties.FailedTriesAreExplained | include/wfe_mutex/wfe_mutex.h:530-554 | trylock fails exactly when something is held at its CAS; trylock_shared succeeds only with no writer and fewer than 2^31 read holds, and exactly then if the word was not written since its load |
| LockProperties.TimeoutsAreExplained | include/wfe_mutex/wfe_mutex.h:442-460 | a timed lock gives up in the last of retries + 1 waits, begun after its last failed CAS, and after the whole budget exactly if its deadline did not wrap |
| LockProperties.UnlockCheckIsComplete | include/wfe_mutex/wfe_mutex.h:322-389 | the debug check of an unlock, disciplined or not, traps exactly when nobody holds the lock in that mode, but for 2^31 read holds, which pass for a writer in both unlocks |
| LockProperties.UnlockCheckIsExact | include/wfe_mutex/wfe_mutex.h:322-389 | on any word, the check of an unlock passes the writer word alone, and that of a read_unlock the words from 1 to 2^31 - 1 |
| LockProperties.EntryCheckIsComplete | include/wfe_mutex/wfe_mutex.h:296-320 | the check every call starts with traps exactly on a word that encodes nobody's holds |
| LockProperties.RetryCheckIsComplete | include/wfe_mutex/wfe_mutex.h:479-482 | after a wait rdlock traps exactly if the word it was given has the top bit, the others exactly on a word that encodes nobody's holds |
| ReaderBound.ReaderBoundIsExact | include/wfe_mutex/wfe_mutex.h:473-485 | a number of read holds is reached by some run from a free lock if and only if it is at most 2^31, and one thread is enough |
| ReaderBound.WordCountsReaders | include/wfe_mutex/wfe_mutex.h:564-570 | a read acquisition finds the number of read holds, below 2^31, and leaves one more; a read release finds at least one and leaves one less |
| ReaderBound.TrapsExactly | include/wfe_mutex/wfe_mutex.h:346-359 | the only step of a disciplined caller that traps is the check of a read_unlock in a debug build, exactly at 2^31 read holds |
| ReaderBound.TrapsOnlyAtTheBound | include/wfe_mutex/wfe_mutex.h:564-570 | over any run a thread has been trapped if and only if that check was one of its steps |
| ReaderBound.HoldersAreTrapped | include/wfe_mutex/wfe_mutex.h:564-570 | runs in which a real holder is trapped exist in exactly the debug builds |
| ReaderBound.RefusedWithoutWriter | include/wfe_mutex/wfe_mutex.h:478-482 | the word keeps readers out with no writer exactly at 2^31 read holds |
| LockProgress.AloneAcquires | include/wfe_mutex/wfe_mutex.h:478-485 | from any state of the invariant, a blocked call whose lock is available acquires within its distance in own steps |
| LockProgress.NoStuckState | USAGE.md:70-74 | in every reachable state an available lock is acquired by any one waiter in at most 19 own steps, asleep or stale |
| LockProgress.AvailableWhenReleased | USAGE.md:66-74 | available means no holder, for a writer, and no writer and fewer than 2^31 read holds, for a reader |
| LockProgress.ExclusiveCallsTakeTwo | include/wfe_mutex/wfe_mutex.h:488-540 | undisturbed, trylock and an exclusive lock on a free word return with exactly their second access, and on a held one the lock waits |
| LockProgress.ReadersTakeTwoOrThree | include/wfe_mutex/wfe_mutex.h:462-478 | rdlock acquires with its second access if the lock is free, with its third if only readers hold, and else waits |
| LockProgress.SharedTriesTakeThree | include/wfe_mutex/wfe_mutex.h:542-554 | trylock_shared returns with exactly its third access, with success exactly if the lock is free for a reader |
| LockProgress.UnlocksTakeThree | include/wfe_mutex/wfe_mutex.h:556-570 | both unlocks return with exactly their third access, but for the read_unlock that traps |
| LockCalls.LockUser.Gap | include/wfe_mutex/wfe_mutex.h:405-570 | between two accesses others do exactly what the schedule says, and leave this thread's holds alone |
| LockCalls.LockUser.CompareExchange | include/wfe_mutex/wfe_mutex.h:471-476 | the CAS takes exactly one hold or reports the word it found; undisturbed, it succeeds exactly if the expected value is there |
| LockCalls.LockUser.WaitAndCheck | include/wfe_mutex/wfe_mutex.h:479-484 | the wait of a retry loop: asleep for ever only while kept out and only if it cannot end by itself, and undisturbed its result is in the word |
| LockCalls.LockUser.RdLock | include/wfe_mutex/wfe_mutex.h:462-486 | against any schedule the call returns with one more read hold, or the schedule has been played out and a writer or 2^31 readers hold; undisturbed, blocked exactly by these |
| LockCalls.LockUser.WrLock | include/wfe_mutex/wfe_mutex.h:488-505 | the call returns with the write hold, or the schedule has been played out and somebody holds; undisturbed, blocked exactly by a holder; for the mutex too |
| LockCalls.LockUser.TimedWrLock | include/wfe_mutex/wfe_mutex.h:510-528 | acquired, or failed with nothing changed after the whole budget; blocked only on plain WFE and on mwaitx with 0 cycles, so on every other backend a timed lock always returns; undisturbed, acquired exactly if free and blocked exactly on those |
| LockCalls.LockUser.TryLock | include/wfe_mutex/wfe_mutex.h:530-540 | exactly one call of two accesses, whatever others do, that fails only with the lock held at its CAS; undisturbed, exactly if it was held |
| LockCalls.LockUser.TryLockShared | include/wfe_mutex/wfe_mutex.h:542-554 | exactly one call of three accesses that takes one read hold or changes nothing; undisturbed, fails exactly if a writer or 2^31 readers held |
| LockCalls.LockUser.Unlock | include/wfe_mutex/wfe_mutex.h:556-562 | one call of three accesses: the holder's unlock leaves the lock free and passes its checks |
| LockCalls.LockUser.ReadUnlock | include/wfe_mutex/wfe_mutex.h:564-570 | gives back exactly one of the caller's read holds, or, only in a debug build and at 2^31 read holds, traps and changes none; undisturbed, exactly then |
| TimedLock.WrLockWithin | include/wfe_mutex/wfe_mutex.h:442-460 | a failed timed lock means that the requested nanoseconds have passed since the call, less than one tick short, on every backend, for the mutex and the reader/writer lock |
| Publication.WritesLandAtTheEnd | include/wfe_mutex/wfe_mutex.h:462-570 | no lock operation can write anywhere but at the end of the modification order, and acquisitions find the lock free for them |
| Publication.EventKeepsInv | include/wfe_mutex/wfe_mutex.h:462-570 | every event of the C17 model keeps the word, view and release-sequence invariant |
| Publication.ExclusionInC17 | include/wfe_mutex/wfe_mutex.h:462-570 | ownership evolves as the abstract lock does without sequential consistency |
| Publication.AcquisitionsSeeAllWrites | include/wfe_mutex/wfe_mutex.h:556-562 | every acquisition reads from the release sequence of the latest write-unlock, and knows afterwards exactly what it knew and what the thread of some write-unlock of the run knew when it unlocked |
| Publication.PublishedByUnlocks | include/wfe_mutex/wfe_mutex.h:556-562 | what has been published is what the thread of some write-unlock of the run knew, synchronization outside the lock included |
| Publication.LockOperationsAppend | include/wfe_mutex/wfe_mutex.h:556-570 | the modification order is a log that lock operations append to |
| Publication.WhoLearnsOfASection | include/wfe_mutex/wfe_mutex.h:568-569 | with the lock as the only synchronization an acquisition learns of a section if and only if it is the thread's own or its thread has write-unlocked by or since its end |
| Publication.CarriedByUnlocks | include/wfe_mutex/wfe_mutex.h:556-562 | the sections carried on are exactly those for which such a write-unlock is an event of the run |
| Publication.ReaderThenWriters | include/wfe_mutex/wfe_mutex.h:564-570 | a run in which a read section happens before neither of two later write sections, although the first of them has been published |
| HappensBefore.KnowledgeIsHappensBefore | include/wfe_mutex/wfe_mutex.h:462-570 | over every run a thread knows a section if and only if its end happens before what the thread does next, by program order, outside synchronization and release sequences |
| HappensBefore.StoresCarryKnowledge | include/wfe_mutex/wfe_mutex.h:561 | a release store carries exactly what its thread knew |
| HappensBefore.WriteSectionsHappenBefore | include/wfe_mutex/wfe_mutex.h:462-505 | the end of every write section happens before whatever a thread does after any later acquisition, across any chain of readers and writers |

## Left out

- Instruction encodings, power-state hints, `low_power` and `do_yield`: they change no access.
- CPUID and feature-register probing and the table of function pointers: the backend is a parameter.
- The floating-point frequency from CPUID leaf 0x15: a parameter.
- The 8-, 16- and 64-bit copies of each loop, and the bit-set copies on ARM: the loops take any goal, on a 32-bit word.
- The spin fallback's one-iteration wait: it is the timed spin with 10000 cycles.
- `clock_gettime` failures during calibration: every reading is taken to succeed.
- Wrap-around of the cycle counter itself: time stops at 2^64 - 1, and a timer that would fire later wakes the core there. The addition that fixes a deadline does wrap.
- The timer of mwaitx: a timeout of 0 is taken to set none. That of the untimed umwait, 2^64 - 1, is taken to be none.
- How long a timer takes inside a lock call: once the others are done, any time may pass before each step of a timed wait that ends by itself, and a sleeper is woken after it.
- Behaviour after a mismatched unlock, beyond the debug check of it; and the end of the process after a failed check: the thread takes no further step.
- Fairness and freedom from starvation: not promised (USAGE.md:70-74).
- The C++ wrapper, the getters, the benchmarks and the unit tests.
