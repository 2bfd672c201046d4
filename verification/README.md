# The Open Dylan run-time, modelled in Dafny

A model of the hardest parts of the Open Dylan run-time library
(`sources/lib/run-time`), with proofs of what they are for.  Each module stands for one
component:

- `NonLocalExit`, `ThreadBlock`: bind-exit and unwind-protect frames threaded through the
  thread environment block.  `NonLocalExit` has the machine as functions, a small language
  of blocks, exits and unwind-protects, the code that the C back end emits for it, and an
  ordinary exception semantics; `ThreadBlock` has the operations as methods that update the
  block in place, proved against those functions.
- `ThreadVariables`: the vectors of thread-local variables and the counter that keeps writers
  and the grower apart.
- `FinalizationQueue`: the lock-free finalization queue.
- `WindowsLocks`, `UnixLocks`, `Notification`, `ThreadJoin`: locks, notifications and joins.
  `WindowsLockCalls`, `UnixLockCalls` and `NotificationCalls` are about their calls from
  beginning to end: what each answers, how long it takes, and what it does to waiters.
- `Options`: values that may be missing.
- `Arithmetic`, `ProbeSequence`, `HashTable`: the open-addressing hash table.
- `HeapObjects`, `ObjectTable`, `HeapTrail`, `HeapOrder2`: the tracing of references out of an
  object, the backward search for what keeps an object alive, and the second-order heap
  statistics.
- `Arguments`, `Dispatch`: the calling convention, keyword arguments, and the trampolines
  of generic function dispatch.
- `MachineArithmetic`: machine-word division and the two-word product.

The concurrent components are state machines: one access to a shared field, one atomic
operation or one call of the threads library is one step, and the theorems are about every
run.  The others are classes and methods that update state in place as the source does,
each proved to compute a function or to keep an invariant about which the lemmas then say
what matters.

Assumptions: memory is sequentially consistent; calls of the operating system succeed;
thread handles are not zero.  The collector's walks over heap and roots are lists of what
they visit.  Memory is unbounded except where `HashTable` takes the outcome of an
allocation as a parameter.  Keyword arguments come in pairs, as the external entry points
check.

Some properties one would expect are false of the code.  For each there is a lemma with a
concrete run or input on which it fails, and a lemma that says exactly when it holds:

- An unwind-protect does not always do what the exception semantics says.  An exit that is
  being unwound is forgotten if a cleanup on its way lets an exit arrive at its own level
  (`LostExit`); it delivers other values if the cleanup gives up an exit to the same block
  (`WrongValues`); a cleanup that is fallen into and itself exits runs twice
  (`RepeatedCleanup`).  `ProtectExactly` says exactly which combinations of body and cleanup
  go right, and every program made of those does (`ProgramSimulation`); a cleanup that exits
  while an exit is unwound through it is among them.
- On Windows a thread that asks for a simple lock it has can overwrite another thread's
  increment and strand it (`LostWaiter`; `StrandedWhenLost`).  `NobodyLeftBehind` says exactly
  which runs strand nobody.  That no such increment is made suffices (`NobodyStranded`) and is
  not necessary (`CompensatedLoss`).
- The assertion in `primitive_unlock_recursive_lock` of the unix file, which follows a test
  that is made without the lock, can fail (`UnlockAssertionFails`; `UnlockAssertion`).  The
  seven assertions about ownership in the other calls cannot.
- A method reached through the vector convention does not always get all its arguments
  (`SixtyFiveArguments`); it does exactly when there are no more than 64 (`DeliveredExactly`).
- Rounding division by an odd divisor is not always to nearest (`RoundOfThreeByOne`); `Round`
  says exactly when it is.
- The high word of a 64-bit product is one or two too small exactly when the middle column
  carries (`CarriesOccur`; `WordsOfProduct`).  For signed operands it can be off by the other
  operand for each negative one (`SignedHighWordWrong`); `SignedProduct` says exactly when it
  is right, as it is for -1 times 0 and for the square of the least word.

## Model

| member | source | states |
|---|---|---|
| NonLocalExit.ProgramSimulation | sources/lib/run-time/c-run-time-nlx.c:122-278 | Every program of nested blocks, exits and unwind-protects in which each unwind-protect is of a kind that goes right, cleanups that exit included, ends as the exception semantics says: same events in the same order (each crossed cleanup once, innermost first), same multiple values, and the frame chain as it was. |
| NonLocalExit.ExitFreeProgram | sources/lib/run-time/c-run-time-nlx.c:122-278 | In particular every program whose cleanups perform no exit. |
| NonLocalExit.Simulation | sources/dfmc/c-back-end/c-emit-computation.dylan:1234-1304 | The same for every fragment in every linked frame chain: a completing fragment restores the chain and every frame, an escaping one lands at the chosen block's frame with the values in it; frames of blocks to which an exit was given up hold exactly that exit's values, and nothing else differs. |
| NonLocalExit.ExitFreeCleanupsAreTame | sources/lib/run-time/hacking.txt:127-175 | Cleanups without exits, nested unwind-protects included, meet that condition. |
| NonLocalExit.CrossedCleanups | sources/lib/run-time/c-run-time-nlx.c:122-157 | An exit across any number of unwind-protects runs all their cleanups once, innermost first, and delivers its values whatever the cleanups returned. |
| NonLocalExit.PendingExitSurvives | sources/lib/run-time/c-run-time-nlx.c:183-217 | An exit in progress goes on after a cleanup if and only if the cleanup let no exit arrive at its own level. |
| NonLocalExit.ProtectExactly | sources/lib/run-time/c-run-time-nlx.c:132-152 | An unwind-protect whose parts go right agrees with the exception semantics if and only if: body and cleanup complete, or the cleanup exits silently; or the body exits and the cleanup exits too, or completes without letting an exit arrive at its level or putting other values in place of those on their way. |
| NonLocalExit.ProtectUnwinds | sources/lib/run-time/c-run-time-nlx.c:183-217 | When a cleanup completes on the way of an exit, the exit is forgotten if the cleanup disturbed its level, and otherwise goes on with the values its block's frame holds then. |
| NonLocalExit.RaisingCleanupRunsTwice | sources/lib/run-time/c-run-time-nlx.c:159-181 | A cleanup that is fallen into and then exits is run twice. |
| NonLocalExit.RepeatedCleanup | sources/lib/run-time/c-run-time-nlx.c:159-181 | A program whose cleanup's event happens twice. |
| NonLocalExit.ProtectSupersedes | sources/lib/run-time/c-run-time-nlx.c:132-152 | A cleanup that exits while an exit is unwound through it supersedes that exit: events once and in order, control and values at the cleanup's target, and the values of the exit given up in the frame of its block. |
| NonLocalExit.WrongValues | sources/lib/run-time/c-run-time-nlx.c:219-235 | A program in which a block should get 7 and gets the 9 of an exit given up inside a cleanup. |
| NonLocalExit.LostExit | sources/lib/run-time/c-run-time-nlx.c:132-152 | A program in which a block should return 7 and the exit to it is forgotten. |
| NonLocalExit.SpilledValues | sources/lib/run-time/c-run-time-nlx.c:159-181 | Spilling the values of a body into a frame keeps all of them, for every count, also none. |
| NonLocalExit.RefilledValues | sources/lib/run-time/c-run-time-nlx.c:183-217 | Refilling the return values from a frame gives back the values spilled there. |
| ThreadBlock.Teb.NlxStep | sources/lib/run-time/c-run-time-nlx.c:122-157 | Updates the block in place exactly as the machine's step does: pops to the destination and jumps, or marks the unwind-protect frame in between with it. |
| ThreadBlock.Teb.SpillValues | sources/lib/run-time/c-run-time-nlx.c:168-175 | The count, the argument and the copy loop leave in a frame exactly the spilled values, with the words beyond the count as they were. |
| ThreadBlock.Teb.FallThroughUnwind | sources/lib/run-time/c-run-time-nlx.c:159-181 | Spills the body's values into the frame, which stays pushed, with no destination. |
| ThreadBlock.Teb.ContinueUnwind | sources/lib/run-time/c-run-time-nlx.c:183-217 | Goes on with the exit in progress, or restores the body's values and falls through. |
| ThreadBlock.Teb.Nlx | sources/lib/run-time/c-run-time-nlx.c:219-235 | Stores the exit's values into the target frame and starts unwinding. |
| ThreadBlock.Teb.FrameRetval | sources/lib/run-time/c-run-time-nlx.c:267-278 | Takes the values out of the frame landed at. |
| ThreadBlock.Teb.RunProgram | sources/lib/run-time/c-run-time-nlx.c:122-278 | Running such a program on the block yields the events and the values of the exception semantics and leaves no frame. |
| ThreadVariables.FetchReturnsLastWrite | sources/lib/run-time/posix-threads.c:1478-1579 | In every run of allocations, growth, reads, writes and thread starts, a read call returns the value that the same thread passed to its latest write call of that variable, or the value with which the variable was allocated. |
| ThreadVariables.CallsTakeEffect | sources/lib/run-time/posix-threads.c:1478-1579 | Every call of a thread takes effect exactly once, in order and with its own arguments, whatever grows meanwhile. |
| ThreadVariables.ThreadVariablesArePrivate | sources/lib/run-time/posix-threads.c:265-325 | In every run each read returned the reader's private value; every handle handed out is inside every registered vector; the counter is the grower's mark plus the number of threads between increment and decrement. |
| ThreadVariables.GrowthExcludesWriters | sources/lib/run-time/posix-threads.c:1534-1579 | No store overlaps a growth, a growth ends only when no increment is outstanding, and a blocked writer's decrement always sees a negative count and goes on to wait. |
| ThreadVariables.MutexAndCounts | sources/lib/run-time/posix-threads.c:265-293 | Every step keeps mutual exclusion of the list lock and the exact value of the counter, with fewer than 2000000 threads. |
| ThreadVariables.StepKeeps | sources/lib/run-time/posix-threads.c:398-426 | Every step keeps the agreement of all registered vectors with the threads' private maps, copies in progress included. |
| ThreadVariables.SomebodyMoves | sources/lib/run-time/posix-threads.c:1478-1579 | While some thread is inside a primitive, some thread inside one can take a step that is not spinning. |
| FinalizationQueue.StepKeeps | sources/lib/run-time/boehm-collector.c:1007-1040 | Every load, store and compare-and-swap keeps the list well formed, every cell with one owner (its pusher, the queue, or its popper), and in it the object it was handed out with. |
| FinalizationQueue.QueueIsLinearizable | sources/lib/run-time/boehm-collector.c:1007-1040 | In every run, playing the successful compare-and-swaps in order on an ordinary stack succeeds and leaves the objects of the linked cells, and each pop returns what it took, the object of the finalization call that its cell was handed to; `CallsTakeEffect` ties the events to the calls of their threads. |
| FinalizationQueue.CallsTakeEffect | sources/lib/run-time/boehm-collector.c:1012-1040 | At every moment of every run a thread's finalization and pop calls are its own events, in order and with its own arguments, except for the one it has under way; and its pops have returned what its own pop events took, in order. |
| FinalizationQueue.WhatGoesInComesOut | sources/lib/run-time/boehm-collector.c:1012-1040 | Once no push is in progress the objects of all finalization calls are exactly, with multiplicity, those popped and those linked; once no pop is either, those returned to callers and those linked. |
| FinalizationQueue.ObjectsConserved | sources/lib/run-time/boehm-collector.c:1012-1040 | At every moment of every run they are those popped, those linked and those in pushers' hands, and those popped are those returned and those in poppers' hands. |
| FinalizationQueue.NothingLostOrDoubled | sources/lib/run-time/boehm-collector.c:1007-1017 | When no push is in progress, each cell handed to the queue is either still linked, once, or has been popped. |
| FinalizationQueue.PoppedOnce | sources/lib/run-time/boehm-collector.c:1026-1040 | A pop that succeeds takes the first linked cell, and no cell is taken twice. |
| FinalizationQueue.SomebodySucceeds | sources/lib/run-time/boehm-collector.c:1007-1040 | The queue is lock-free: a thread that has made five steps of a call without ending it has seen a push or a pop take effect meanwhile, its own or another's. |
| WindowsLocks.StepKeepsToken | sources/lib/run-time/windows-threads-primitives.c:182-296 | Every step, time-outs and the unprotected decrement included, keeps one ownership token for a non-negative counter. |
| WindowsLocks.StepKeepsAccount | sources/lib/run-time/windows-threads-primitives.c:651-700 | The counter is exactly the holder, the waiters and the abandoned waits, less the increments that re-entries have overwritten. |
| WindowsLocks.OneHolder | sources/lib/run-time/windows-threads-primitives.c:528-569 | In every run at most one thread has the lock, counted by the answers of its calls; the counter is non-negative exactly when somebody has it or the semaphore is posted; a release never finds the semaphore at its maximum. |
| WindowsLocks.CallsAnswerTruly | sources/lib/run-time/windows-threads-primitives.c:651-700 | A call that answered that it acquired the lock, or had it, has it; one that answered with a time-out or that the lock is not its own has not; acquisitions answered less releases answered say who has it and are the recursion count. |
| WindowsLocks.StepKeepsNet | sources/lib/run-time/windows-threads-primitives.c:809-864 | Every step keeps a thread's answers in agreement with the owner and the recursion count. |
| WindowsLocks.StrandedWhenLost | sources/lib/run-time/windows-threads-primitives.c:182-200 | When nobody has the lock, waiters are left blocked with no token if and only if the decrements of re-entries in the run have overwritten at least as many increments as there are waits outstanding or timed out. |
| WindowsLocks.BookkeepingIsTrue | sources/lib/run-time/windows-threads-primitives.c:184-189 | What the state records of overwritten increments and abandoned waits is the sum over the steps of the run. |
| WindowsLocks.OverwrittenIsNatural | sources/lib/run-time/windows-threads-primitives.c:184-189 | In every run a re-entry's store takes back none or more of the increments made since its load, and adds none. |
| WindowsLocks.AllOverwrittenIsNatural | sources/lib/run-time/windows-threads-primitives.c:184-189 | So the sum over a run is not negative, and is 0 if and only if no store takes any back. |
| WindowsLocks.LeftBehind | sources/lib/run-time/windows-threads-primitives.c:182-200 | On a lock that nobody has and whose semaphore is not posted, the number of threads left waiting is exactly the number of overwritten increments less that of the waits that timed out. |
| WindowsLocks.NobodyLeftBehind | sources/lib/run-time/windows-threads-primitives.c:182-200 | A run never leaves anybody waiting on such a lock if and only if, whenever the lock is like that, there have been as many time-outs as overwritten increments. |
| WindowsLocks.CompensatedLoss | sources/lib/run-time/windows-threads-primitives.c:184-189 | A run in which an increment is overwritten and yet nobody is stranded, as the waiter times out: the condition of `NobodyStranded` is not necessary. |
| WindowsLocks.NobodyStranded | sources/lib/run-time/windows-threads-primitives.c:182-296 | No waiter is left blocked on a free lock in any run in which nobody increments the counter between the two halves of a re-entry's decrement. |
| WindowsLocks.RecursiveNeverReenters | sources/lib/run-time/windows-threads-primitives.c:216-296 | With a recursive lock no waiter is ever left blocked on a free lock. |
| WindowsLocks.LostWaiter | sources/lib/run-time/windows-threads-primitives.c:184-189 | A run of two threads in which a re-entry strands a waiter. |
| WindowsLockCalls.AcquiringAnswers | sources/lib/run-time/windows-threads-primitives.c:528-569 | An acquisition, timed or not: the owner of a recursive lock gets it again without touching the counter and that of a simple lock is told so; anybody else increments the counter once, gets the lock if that finds it free, and otherwise gets it by taking the semaphore or times out, which only an increment that found the lock taken can lead to. |
| WindowsLockCalls.ReleasingAnswers | sources/lib/run-time/windows-threads-primitives.c:809-864 | A release succeeds exactly for the thread that had the lock when it called. |
| WindowsLockCalls.StepsAreBounded | sources/lib/run-time/windows-threads-primitives.c:182-296 | A call makes at most six steps besides waiting. |
| WindowsLockCalls.OnlyWaitingStands | sources/lib/run-time/windows-threads-primitives.c:182-296 | A thread in a call stands still only while it waits for a semaphore that is not posted. |
| UnixLocks.StepKeeps | sources/lib/run-time/unix-threads-primitives.c:294-353 | Every step keeps the agreement of mutex, owner and count. |
| UnixLocks.OwnerHasMutex | sources/lib/run-time/unix-threads-primitives.c:294-503 | In every run the owner is the thread with the mutex, a free mutex has no owner and a zero count, and no mutex operation is refused. |
| UnixLocks.AssertionsHold | sources/lib/run-time/unix-threads-primitives.c:338-588 | In every run no assertion of acquires, timed acquires and notification waits fails; only the one in the unlocking call can. |
| UnixLocks.ReleasesUndoAcquires | sources/lib/run-time/unix-threads-primitives.c:600-656 | Counted by what the calls answered, an idle thread has the mutex exactly when its acquisitions outnumber its releases; the difference is the recursion count, and no other idle thread then has an acquisition outstanding. |
| UnixLocks.CallsAnswerTruly | sources/lib/run-time/unix-threads-primitives.c:294-656 | A call that answered that it acquired the lock, had it, or waited for a notification, in time or not, has mutex and ownership; one that timed out, was refused or unlocked has neither; no call answers with a general error. `UnixLockCalls` says which of these answers a call gets. |
| UnixLocks.WaitAnswers | sources/lib/run-time/unix-threads-primitives.c:545-596 | A notification wait ends with a time-out if and only if it was woken because its time was over. |
| UnixLocks.SignalMissesNobody | sources/lib/run-time/unix-threads-primitives.c:377-409 | When a thread signals, no waiter is between giving up the lock and sleeping, and a broadcast leaves no waiter asleep. |
| UnixLocks.NoDeadlock | sources/lib/run-time/unix-threads-primitives.c:413-503 | If no thread can move, each is idle, asleep until notified, stopped at the unlocking assertion, or waits for a lock whose owner is idle. |
| UnixLocks.UnlockAssertion | sources/lib/run-time/unix-threads-primitives.c:1290-1313 | The assertion made without the lock fails if and only if the mutex is then with a thread that has set the count. |
| UnixLocks.UnlockAssertionFails | sources/lib/run-time/unix-threads-primitives.c:1300-1304 | A run of two threads in which it fails. |
| UnixLockCalls.TimedAcquire | sources/lib/run-time/unix-threads-primitives.c:413-503 | A timed acquisition of a lock that the caller does not have times out if and only if every poll found the mutex taken and they are as many as the limit allows: one, and one more for every 100 milliseconds of it begun. It never polls more often; a poll that finds the mutex free takes it, and the call then answers so. |
| UnixLockCalls.LockingAnswers | sources/lib/run-time/unix-threads-primitives.c:294-656 | What acquisitions, releases and unlocking calls answer, by whether their thread had the lock when it called: only timed acquisitions time out, releases succeed exactly for the owner, and unlocking says that there is nothing to unlock only when it finds that. |
| UnixLockCalls.WaitingAnswers | sources/lib/run-time/unix-threads-primitives.c:377-409 | A wait without the lock is refused without sleeping; one with it has slept and been woken when it returns, and times out only with a time limit. |
| UnixLockCalls.ReleaseWakes | sources/lib/run-time/unix-threads-primitives.c:679-739 | A release of a notification without the lock is refused and wakes nobody; with the lock exactly one of its steps wakes sleepers, all of them if the caller asked for all and otherwise one if there is any. |
| UnixLockCalls.StepsAreBounded | sources/lib/run-time/unix-threads-primitives.c:294-656 | While it is awake a thread ends its call within a few steps of its own, besides the polls of a time limit and three for every level that is unlocked. |
| Notification.StepKeeps | sources/lib/run-time/llvm-posix-threads.c:821-876 | Every step keeps who has which mutex, who has the lock, and that a sleeper on a free lock has somebody about to look at it or to wake one. |
| Notification.CallsAnswerTruly | sources/lib/run-time/llvm-posix-threads.c:850-876 | A successful acquisition or notification wait returns with the lock held, a release or refusal without it, and a wait never answers that the lock was held already. |
| Notification.NoLostWakeup | sources/lib/run-time/llvm-posix-threads.c:972-1044 | In every run, once a waiter has given up the lock every later release of the notification finds it asleep on the condition variable or already woken; a broadcast wakes it if asleep, and a signal wakes exactly one sleeper. `NotificationCalls.ReleaseWakes` says which of the two a call makes. |
| Notification.SomebodyMoves | sources/lib/run-time/llvm-posix-threads.c:1019-1044 | The two mutexes are taken in one order: a thread that is neither idle nor asleep is never part of a circular wait. |
| Notification.NoDeadlock | sources/lib/run-time/llvm-posix-threads.c:821-1044 | If no thread can move, each is idle, waits to be notified, or waits for a lock whose owner is another, idle thread. |
| NotificationCalls.ReleaseWakes | sources/lib/run-time/llvm-posix-threads.c:972-1016 | Between the call and the return of a release of the notification exactly one of its steps takes sleepers off it: all who are asleep then if the caller asked for all, otherwise one if there is any. |
| NotificationCalls.LockingAnswers | sources/lib/run-time/llvm-posix-threads.c:821-876 | An acquisition answers that the lock is had already exactly to the thread that had it when it called; a release succeeds exactly for that thread. |
| NotificationCalls.WaitingAnswers | sources/lib/run-time/llvm-posix-threads.c:1019-1044 | A wait without the lock is refused without sleeping; one with it sleeps, is taken off the notification, and succeeds. |
| NotificationCalls.StepsAreBounded | sources/lib/run-time/llvm-posix-threads.c:821-1044 | While it is awake a thread returns or sleeps after twelve steps of its own at most. |
| ThreadJoin.Threads.JoinSingle | sources/lib/run-time/llvm-posix-threads.c:337-363 | The critical section from the call to returning or sleeping is that of a multiple join of one thread. |
| ThreadJoin.Threads.CheckAll | sources/lib/run-time/llvm-posix-threads.c:375-383 | The first loop finds out whether any of the threads is taken. |
| ThreadJoin.Threads.MarkUntilCompleted | sources/lib/run-time/llvm-posix-threads.c:386-398 | The second loop marks the threads before the first completed one as wanted and joins that one, or marks all of them. |
| ThreadJoin.Threads.JoinMultiple | sources/lib/run-time/llvm-posix-threads.c:366-427 | The loops that check, mark and clear amount to: refuse if any thread is taken, else join the first completed one and leave no mark, else mark all and sleep. |
| ThreadJoin.Threads.ResumeMultiple | sources/lib/run-time/llvm-posix-threads.c:401-424 | Once woken: join the first completed thread and clear the marks of all, else sleep on with nothing changed. |
| ThreadJoin.StepKeeps | sources/lib/run-time/llvm-posix-threads.c:295-427 | Every critical section keeps the marks in agreement with the calls that wait. |
| ThreadJoin.JoinedOnce | sources/lib/run-time/llvm-posix-threads.c:358-359 | In every run a thread is returned by at most one join, and only once it has completed. |
| ThreadJoin.WantedByOne | sources/lib/run-time/llvm-posix-threads.c:349-355 | A thread is marked as wanted if and only if a call waits for it, and then only one does. |
| ThreadJoin.RefusedExactly | sources/lib/run-time/llvm-posix-threads.c:375-383 | A join is refused if and only if one of its threads has been joined or another call waits for it, and then nothing changes. |
| ThreadJoin.OthersJoinable | sources/lib/run-time/llvm-posix-threads.c:418-422 | The threads a multiple join did not choose have no mark left and can be joined again; the chosen one is the first completed; other threads are untouched. |
| ThreadJoin.NoMissedExit | sources/lib/run-time/llvm-posix-threads.c:295-298 | A call that waits for a completed thread is awake, and its next step joins a thread. |
| ThreadJoin.JoinAnswers | sources/lib/run-time/llvm-posix-threads.c:366-427 | A join from its call to its return: refused if and only if its first section finds a thread joined or awaited, which ends it and changes nothing; otherwise its last section joins the first completed thread, leaves no mark of its own, and changes nothing else. |
| ThreadJoin.SleepingMarks | sources/lib/run-time/llvm-posix-threads.c:386-404 | A section after which the caller sleeps found none of its threads completed, marks them, and changes nothing else. |
| ThreadJoin.SectionsAreApart | sources/lib/run-time/llvm-posix-threads.c:401-404 | Between two sections of a call some thread has completed, or the caller was woken spuriously. |
| ProbeSequence.ProbesCover | sources/lib/run-time/heap-table.c:40-69 | For a power-of-two length the probes visit every slot exactly once before they return to their start. |
| ProbeSequence.OddCancels | sources/lib/run-time/heap-table.c:65-68 | An odd multiple of k is divisible by a power of two only if k is. |
| ProbeSequence.ProbesOfEight | sources/lib/run-time/heap-table.c:45-66 | The slots probed for an even and an odd key in a table of eight. |
| HashTable.Table.Find | sources/lib/run-time/heap-table.c:40-69 | The probe loop terminates with the first slot at which it may stop, or with none after every slot has been seen. |
| HashTable.FirstStopDecides | sources/lib/run-time/heap-table.c:40-69 | In a table that represents a map, the slot at which a search stops is active if and only if the key is in the map, and then holds its value. |
| HashTable.NoStopMeansAbsent | sources/lib/run-time/heap-table.c:40-69 | A search that finds no slot means the key is absent and every slot is used; with deleted slots wanted, that every slot is active. |
| HashTable.Table.Grow | sources/lib/run-time/heap-table.c:74-106 | Growth of an all-active table doubles it and keeps the contents; its assertions hold. |
| HashTable.Table.Rehash | sources/lib/run-time/heap-table.c:89-103 | Reinserting every old entry into the empty new array makes it represent the same map. |
| HashTable.Table.Define | sources/lib/run-time/heap-table.c:163-189 | Adds a new key and refuses a present one; it grows exactly when a new key finds the table full, and fails without memory only then. |
| HashTable.Table.Redefine | sources/lib/run-time/heap-table.c:194-204 | Replaces the value of a present key and fails on an absent one. |
| HashTable.Table.Remove | sources/lib/run-time/heap-table.c:209-219 | Removes a present key, leaving a tombstone, and says whether it was there. |
| HashTable.Table.Lookup | sources/lib/run-time/heap-table.c:149-158 | Answers with the map's value or its absence. |
| HashTable.Table.Map | sources/lib/run-time/heap-table.c:224-232 | Visits exactly the mappings, as many as the count says. |
| HashTable.Table.Replay | sources/lib/run-time/heap-table.c:149-232 | Over any sequence of define, redefine, remove and lookup the table's answers and contents are those of a finite map. |
| HeapObjects.TraceObject | sources/lib/run-time/heap-utils.c:141-200 | The loops over fixed and repeated slots report exactly the reference slots of the object's layout, in order. |
| HeapObjects.TracePatterned | sources/lib/run-time/heap-utils.c:164-184 | The loop over pattern words, a bit at a time, reports exactly the slots whose bit is set. |
| HeapObjects.ReferencesAre | sources/lib/run-time/heap-utils.c:68-200 | What an object refers to, from the words of its wrapper: the words behind the header that the fixed format says (all, those with a pattern bit, none), in order, and then exactly the elements of a traceable vector. |
| HeapObjects.UntracedExample | sources/lib/run-time/heap-utils.c:141-200 | An object without fixed references, with and without a vector of two. |
| HeapObjects.TracedExample | sources/lib/run-time/heap-utils.c:156-163 | One of three fixed references. |
| HeapObjects.PatternedExample | sources/lib/run-time/heap-utils.c:164-184 | One with a pattern of two of its three fixed words. |
| HeapObjects.VectorExample | sources/lib/run-time/heap-utils.c:187-196 | A vector of two references, without fixed words. |
| HeapObjects.SecondPatternWord | sources/lib/run-time/heap-utils.c:164-184 | The thirty-third fixed word is governed by the first bit of the second pattern word. |
| HeapObjects.SizeInBytes | sources/lib/run-time/heap-utils.c:88-126 | The size in bytes from the words of the wrapper, for fixed objects, byte vectors and word vectors. |
| HeapObjects.EachSize | sources/lib/run-time/heap-utils.c:115-126 | One object of each. |
| ObjectTable.Table.Find | sources/lib/run-time/heap-trail.c:121-130 | Finds the record of an object if and only if there is one. |
| ObjectTable.Append | sources/lib/run-time/heap-trail.c:145-149 | Following the next pointers to the last record and relinking it makes one chain of two, the first's records before the second's, and changes no other node. |
| ObjectTable.MergeChains | sources/lib/run-time/heap-trail.c:135-152 | After the loop over all buckets every chain of the destination is the source's chain followed by its own, and every bucket of the source is empty. |
| ObjectTable.Merge | sources/lib/run-time/heap-trail.c:135-152 | Relinking the chains moves all records of one table into another and empties the first, with the same nodes; no node is created or lost. |
| HeapTrail.WithinIsPaths | sources/lib/run-time/heap-trail.c:389-432 | The sets that the generations add up to are the objects with a path of references to a target of at most so many steps. |
| HeapTrail.NextGeneration | sources/lib/run-time/heap-trail.c:379-432 | From the generation at distance n the search gets the one at distance n + 1: exactly the objects at that shortest distance, once each, with a real trail as parent chain. |
| HeapTrail.HitIsFirst | sources/lib/run-time/heap-trail.c:389-427 | The parent is the record of the first object referred to that is current. |
| HeapTrail.Tracer.LookForReference | sources/lib/run-time/heap-trail.c:389-427 | An object becomes a child, with the first current object it refers to as parent, exactly if it is in neither set already. |
| HeapTrail.Tracer.RecordRoots | sources/lib/run-time/heap-trail.c:517-532 | The walk over the roots adds to the table of roots what the next two rows say, and nothing else. |
| HeapTrail.RootsAreRecorded | sources/lib/run-time/heap-trail.c:517-532 | Exactly the objects that roots hold are added, and those there already keep their records. |
| HeapTrail.FirstRootStays | sources/lib/run-time/heap-trail.c:517-532 | An object is recorded with the location of the first root that holds it. |
| HeapTrail.Tracer.AdvanceGeneration | sources/lib/run-time/heap-trail.c:379-386 | Current objects become processed ones and children current ones. |
| HeapTrail.Tracer.AdvanceThroughGenerations | sources/lib/run-time/heap-trail.c:486-515 | Terminates on every finite heap, cyclic ones included; stops at a generation that a root refers to, with no such one before it from the depth limit on, or goes cold having seen everything that leads to a target. |
| HeapTrail.Tracer.FindTrails | sources/lib/run-time/heap-trail.c:517-571 | With depth limit 0, if any root reaches a target the trace ends at the length of a shortest path from a root, and the generation it ends with holds a root-referenced object. |
| HeapTrail.TrailIsShortest | sources/lib/run-time/heap-trail.c:486-515 | A trace that ends rooted is as short as any path from a root; a cold one means that there is no path. |
| HeapTrail.ColdCovers | sources/lib/run-time/heap-trail.c:489-498 | Once a generation is empty, everything from which a target can be reached has been processed. |
| HeapOrder2.Statistics.AddStatsForObject | sources/lib/run-time/heap-order2.c:335-381 | Counts an unseen unfiltered object and looks through filtered ones, to everything they lead to; terminates because the unseen set shrinks. |
| HeapOrder2.Statistics.Collect | sources/lib/run-time/heap-order2.c:384-411 | After the walks every proper unfiltered object referred to by an unfiltered object or a root, directly or through filtered objects, is counted, nothing else is, and each under the class of such a referrer; classes, its own and the referrer's, are those that they are aggregated to. |
| HeapOrder2.Statistics.Count | sources/lib/run-time/heap-order2.c:360-378 | Counting adds one record and keeps, for every class, the totals and leaves equal to what the records add up to, each object once. |
| HeapOrder2.SumGrows | sources/lib/run-time/heap-order2.c:244-248 | Updating one leaf adds one and the size to the sums over leaves, so that class totals equal the sums of their leaves. |
| HeapOrder2.TallyNext | sources/lib/run-time/heap-order2.c:360-378 | The two updates of a count keep every class's total and leaf the number and size of the records of that class and referrer. |
| HeapOrder2.OriginsAre | sources/lib/run-time/heap-order2.c:384-411 | The starting points of the statistics are the references of roots and of unfiltered objects, under the root class or the referring object's class. |
| HeapOrder2.JustifiedIsAttributed | sources/lib/run-time/heap-order2.c:335-381 | In terms of memory, filters and aggregations: a record is of an unfiltered object, under the class that its own is aggregated to or else its own, with its size; its referrer is the root class or the aggregated class of an unfiltered heap object, from which filtered objects only lead to it. |
| HeapOrder2.LedIsBehind | sources/lib/run-time/heap-order2.c:384-411 | An object is led to from an origin if and only if a chain of references through filtered objects only leads to it from a root or an unfiltered heap object. |
| HeapOrder2.AggregatedShare | sources/lib/run-time/heap-order2.c:93-101 | Instances of classes aggregated to one class share its entry, whose count is their number; a class aggregated to another has no entry of its own unless something is aggregated to it. |
| HeapOrder2.CountIsObjects | sources/lib/run-time/heap-order2.c:360-369 | A class's count is the number of objects recorded under it. |
| Arguments.PackUnpack | sources/lib/run-time/c-run-time.c:1062-1102 | Packing the actual arguments into required ones and a rest vector and unpacking them gives the original list. |
| Arguments.UnpackPack | sources/lib/run-time/c-run-time.c:2029-2086 | Unpacking and packing gives back the implementation arguments. |
| Arguments.PassedInjective | sources/lib/run-time/c-run-time.c:1014-1043 | Whether spread or in one vector, what is passed determines the implementation arguments. |
| Arguments.CountsAndConventions | sources/lib/run-time/c-run-time.c:1808-1976 | Exactly as many arguments as are required are accepted, or at least as many if there are optionals, up to 256; up to seven implementation arguments are passed spread, more as one vector. |
| Arguments.Teb.GfXep | sources/lib/run-time/c-run-time.c:1808-1976 | Every external entry point of a generic function passes its arguments packed, spread up to seven and as one vector beyond, or reports a wrong count. |
| Arguments.Teb.SpreadEngine | sources/lib/run-time/c-run-time.c:2029-2086 | In all four cases of convention and optionals the callback gets the arguments unpacked. |
| Arguments.Teb.GatherEngine | sources/lib/run-time/c-run-time.c:2001-2028 | The callback gets the implementation arguments as one vector in both conventions. |
| Arguments.Teb.PackVector | sources/lib/run-time/c-run-time.c:1084-1102 | A vector of actual arguments becomes the packed implementation arguments. |
| Arguments.Teb.ApplyUsingBuffer | sources/lib/run-time/c-run-time.c:3493-3507 | The last argument of an apply is spread out behind the others. |
| Arguments.ProcessKeywordParameters | sources/lib/run-time/c-run-time.c:1389-1407 | The scan from the right fills each keyword's slot with the leftmost supplied value or its default, and touches no other. |
| Arguments.ProcessKeywordCallInto | sources/lib/run-time/c-run-time.c:1411-1429 | Required arguments, the rest vector and the keyword slots are where the method expects them, and nothing beyond is changed. |
| Arguments.SlotHolds | sources/lib/run-time/c-run-time.c:1389-1407 | The slot of a keyword specified once holds the value after its leftmost use among the optionals, or its default when it is not used. |
| Dispatch.Call | sources/lib/run-time/c-run-time.c:2298-3029 | Entering any node by its entry point, in the spread or the vector convention, ends where the recursive decision tree ends, with its arguments and next-methods word. |
| Dispatch.DiscriminateSpread | sources/lib/run-time/c-run-time.c:2759-2770 | The spread discriminators, whose argument is fixed by their entry point, go on as the decision tree does from the argument their properties name. |
| Dispatch.DiscriminateVector | sources/lib/run-time/c-run-time.c:2802-2819 | So do the vector discriminators, which take the argument's number from their properties. |
| Dispatch.Jump | sources/lib/run-time/c-run-time.c:2483-2492 | The tail of the spread trampolines agrees with the decision tree. |
| Dispatch.JumpN | sources/lib/run-time/c-run-time.c:2514-2526 | The tail of the vector trampolines agrees with the decision tree, spreading the arguments again for a method. |
| Dispatch.MepApplyWithOptionals | sources/lib/run-time/c-run-time.c:969-1002 | Invokes the method with its arguments and count, cut to 64 after a break beyond that. |
| Dispatch.ParentGf | sources/lib/run-time/c-run-time.c:1004-1009 | Following parents ends at the generic function. |
| Dispatch.GfIep | sources/lib/run-time/c-run-time.c:1719-1806 | The internal entry points, spread and vector, end where the decision tree says. |
| Dispatch.EngineNodeApplyWithOptionals | sources/lib/run-time/c-run-time.c:1014-1043 | Entering a node on a vector of any size ends where the decision tree says. |
| Dispatch.EngineNodeApply | sources/lib/run-time/c-run-time.c:1062-1081 | So does entering one on actual arguments, which are packed first. |
| Dispatch.CallGenericFunction | sources/lib/run-time/c-run-time.c:1808-1941 | A call from outside with an acceptable count ends where the decision tree says, and any other is reported. |
| Dispatch.TerminalOfRoute | sources/lib/run-time/c-run-time.c:2759-3029 | The end of a dispatch from its route: methods get the implementation arguments; next methods are those of the single-method node, or else the last cache header passed. |
| Dispatch.RouteFollows | sources/lib/run-time/c-run-time.c:2759-2985 | Each node of a route is followed by the one that its own words say, with the argument whose number is the second byte of its properties: then-node for an instance and else-node otherwise; next on an equal wrapper key and else the absent node; next for an instance and else the inapplicable node; the callback's answer. |
| Dispatch.Installed | sources/lib/run-time/c-run-time.c:3033-3049 | A discriminator of a well-formed graph has the entry point of its kind for its argument's place and number up to seven, and for a vector beyond. |
| Dispatch.IfTypeExample | sources/lib/run-time/c-run-time.c:2899-2910 | A dispatch on the type of the second of two arguments reaches the method of either branch. |
| Dispatch.MonomorphicExample | sources/lib/run-time/c-run-time.c:2827-2840 | One on its wrapper key reaches the method or the absent node. |
| Dispatch.TypeCheckExample | sources/lib/run-time/c-run-time.c:2963-2980 | One on a check of its type reaches the method or the inapplicable node. |
| Dispatch.CallbackExample | sources/lib/run-time/c-run-time.c:2759-2770 | One by a callback reaches the node that the callback answers with. |
| Dispatch.ArgumentsArrive | sources/lib/run-time/c-run-time.c:2029-2086 | What a method gets unpacks to the caller's arguments, and a node reporting inapplicable methods gets these as they were. |
| Dispatch.DeliveredExactly | sources/lib/run-time/c-run-time.c:985-1001 | Every terminal is reached with its arguments intact if and only if there are at most 64 or it is a report. |
| Dispatch.SixtyFiveArguments | sources/lib/run-time/c-run-time.c:985-1001 | A generic function whose method is called with 65 arguments and gets 64. |
| MachineArithmetic.Floor | sources/lib/run-time/c-primitives-math.c:174-197 | x = q·y + r with the remainder of the divisor's sign and smaller than it; both fit in a word. |
| MachineArithmetic.Ceiling | sources/lib/run-time/c-primitives-math.c:199-222 | x = q·y + r with the remainder of the opposite sign and smaller than the divisor; both fit in a word. |
| MachineArithmetic.Round | sources/lib/run-time/c-primitives-math.c:224-262 | x = q·y + r with 2·abs(r) at most abs(y), plus one for an odd divisor; nearest with ties to even for every even divisor, and in general exactly when the truncated quotient is not odd at the truncated threshold; only the greatest word divided by 1 overflows. |
| MachineArithmetic.RealQuotients | sources/lib/run-time/c-primitives-math.c:174-262 | Those quotients are the floor and ceiling of the real quotient, and the nearest is within a half of it. |
| MachineArithmetic.DivisionsUnique | sources/lib/run-time/c-primitives-math.c:174-262 | Each kind of division determines quotient and remainder. |
| MachineArithmetic.DivisionFits | sources/lib/run-time/c-primitives-math.c:174-222 | Floor and ceiling quotients fit in a word if and only if it is not the least word divided by -1. |
| MachineArithmetic.RoundOfThreeByOne | sources/lib/run-time/c-primitives-math.c:224-262 | Inputs that are misrounded. |
| MachineArithmetic.MultiplyDouble | sources/lib/run-time/c-primitives-math.c:476-487 | The half-word product is short of the true product by exactly the middle column's carry into the high word. |
| MachineArithmetic.WordsOfProduct | sources/lib/run-time/c-primitives-math.c:476-487 | The low word is exact; the high word is exact if and only if that carry is 0. |
| MachineArithmetic.CarriesOccur | sources/lib/run-time/c-primitives-math.c:476-487 | Carries of 0, 1 and 2 all occur. |
| MachineArithmetic.MultiplyLong | sources/lib/run-time/c-primitives-math.c:488-492 | Through a two-word integer type both words are exact for 32-bit words. |
| MachineArithmetic.SignedProduct | sources/lib/run-time/c-primitives-math.c:526-535 | For signed operands the low word is that of the signed product; the high word is if and only if the carry makes up for the other operand of each negative one, or both are the least word. |
| MachineArithmetic.SignedHighWordWrong | sources/lib/run-time/c-primitives-math.c:526-535 | The high word of -1 times 1 should have all its bits set and is 0. |
| MachineArithmetic.SignedHighWordRight | sources/lib/run-time/c-primitives-math.c:526-535 | That of -1 times 0 and of the least word times itself is right. |

## Left out

- NonLocalExit: stack addresses and the contents of `jmp_buf`, and the optional `VERIFY_NLX` checks, are not modelled; local exits, which the compiler turns into jumps, do not use the machine.
- ThreadVariables: a thread's exit, which takes its cell off the list without the list lock (`posix-threads.c:480`).
- FinalizationQueue: the collector's side of finalization; each cons cell is handed to the queue once.
- WindowsLocks: wrap-around of the lock and recursion counters; Windows notifications, whose release makes three separate stores.
- UnixLocks: wrap-around of the recursion count; semaphores; the duration of the sleeps between attempts of a timed acquire.
- Notification: timed waits, which reacquire the lock while they hold the notification's mutex (`llvm-posix-threads.c:1067-1074`); the ownership check in the two releases, which is compiled out.
- ThreadJoin: destroying thread objects; the joins of `posix-threads.c` and `unix-threads-primitives.c`.
- HashTable: overflow of the doubled length; `key & (length - 1)` is a remainder, which is the same for powers of two; creation and destruction of tables.
- HeapObjects.TraceObject: the callback that may end the trace early becomes the list of references, of which a caller uses a prefix.
- HeapTrail.Tracer.FindTrails: a debugger that raises the depth limit at the break is not modelled, though the depth limit is a parameter of the search; nor is the test of a root's wrapper before it is recorded, nor the display of trails.
- HeapOrder2: overflow of the counters; the display of the statistics. Its hash tables are finite maps, which `HashTable` shows them to be.
- Arguments.Teb.GfXep: more than 256 arguments; the count check for those comes after they have been stored.
- Arguments.ProcessKeywordParameters: optionals that do not come in pairs.
- Dispatch: callbacks are functions of their arguments, so a callback that changes the graph while it dispatches is not modelled; nor are keyed single-method nodes, slot accessor nodes, profiling counts, and the installation of cache headers for more than seven arguments, for which the source has no case.
- MachineArithmetic: the division of double words, shifts, rotations and zero counts; the absolute value of the least word, which overflows in rounding division.
- Input and output, displays, debugging support, the collectors themselves, signal handling and unwinding by the platform's libraries.
