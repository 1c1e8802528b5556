# Verified models of the operating-systems labs

A Dafny 4.11 project that models the compact algorithms and protocols of the
lab programs and proves what they do, for every input, every number of threads
and every interleaving. Constants of the programs (5 philosophers, 15 tokens, 25
slots, 15 clients, `PIPE_BUF`) are parameters here.

`dafny verify dfyconfig.toml` checks everything.

## How the models are built

Sequential code that rewrites memory is written as classes and methods over
arrays and linked nodes, one loop or statement per loop or statement of the C
program, and proved against functions on sequences: the list sort (`NameList`),
the record sort (`RecordSort`), the crawler (`TreeCrawler`), the FIFO reader
(`FifoFrame`), the per-directory process (`FileCounter`), the servers' tables
(`QueueServer`, `DatagramServer`).

Concurrent programs are state machines: a `State`, the steps each thread may take
(`Can` or `Enabled`), and the state after a step (`After`). A step is one access
to shared state, one semaphore or mutex operation, or one signal delivery, and
any enabled thread may take the next. Invariants are kept by every step, so they
hold in every state of every run. Beside each machine stands a class with the
program's own arrays and variables, whose methods perform the steps in place and
are proved to do exactly what the machine says, and a driver that runs the threads
under an arbitrary scheduler: to the end where the program has one
(`Philosophers.Table.Dine`, `RecordFinder.Search.Run`,
`SignalHandshake.Exchange.Run`), over any schedule where it has none
(`ReadersWriters.ReadingRoom.Serve`, `AcceptingThread.Server.Serve`).

Three places deserve a word. In `TaskBuffer` the body between the two mutex
operations is one step; `TaskBufferAccesses` takes it apart into single accesses
and proves that this refines the former. In `RecordFinder` the thread function
disables cancellation, so a find stops only the thread that made it and
`pthread_cancel` has no effect on threads still running; the model follows that. In `SignalHandshake` a test
and the `pause` after it are two steps, with deliveries between them, and a handler
installed with `signal` stays installed (the program defines `_GNU_SOURCE`).

## What turned out

- The list sort recurses on the sub-list of equal keys, so it terminates exactly
  when no (surname, name) key occurs twice (`SortTerminatesIffKeysDistinct`).
- The task ring computes its put slot from the count it has just incremented. A
  get therefore returns the put before the matching one, or the newest put when
  the ring is full; the runs of the program are those of a queue exactly when the
  ring has a single slot (`FifoIffSingleSlot`). Indexing with the count as first
  read would give a queue (`PreIncrementIsFifo`).
- The record finder terminates exactly when it reads at least one record at a
  time (`TerminatesIffChunkPositive`), reads no part of the file twice
  (`EachPositionReadOnce`) and finds something if there is something
  (`FindsWhatIsThere`), whatever its fresh buffers contain. But it scans its whole
  buffer after a short read, so it can also report what is not in the file:
  stale records of a fresh buffer, or the bytes behind the last whole record laid
  over a record read earlier. `GenuineIffHarmless` gives the exact condition for any
  file, any fresh buffers and any number of threads; on files of whole records, for
  all of them together, it is that no fresh buffer holds a match
  (`GenuineIffBuffersClean`), and `CleanBuffersAreNotEnough` is a file for which that
  does not suffice.
- The signal handshake never miscounts and always comes to a stop
  (`RunsAreBounded`), but it can stop in a hang. It completes the exchange exactly
  when no signal is delivered between a test and its pause, or before line 75
  (`FinishedIffNoRace`, `CanFinishIffNoRace`). Every one of the waits can lose its
  wakeup that way for every argument (`EveryWaitCanHang`), and some schedule
  completes the exchange (`CompletionIsReachable`).
- The datagram server treats a sender it could not admit differently in its two
  branches: an Internet client's message still goes to everyone, a local
  client's goes to Internet clients only (`UnadmittedSender`).
- The message-queue server counts arrivals but not departures, so it admits a client
  whose queue can be created exactly while fewer clients have ever come than its
  table has slots (`AdmittedIffBelowMax`); after that it refuses everybody, also
  with an empty table (`EmptyTableCanRefuse`).
- The process-tree file counter is right modulo 256, and exactly right in a
  directory exactly when each immediate subdirectory holds fewer than 256 files
  (`TotalExactIff`).
- The FIFO columns give back the line exactly for process ids of at most six
  digits (`ColumnsRoundTripIff`), and the first message is read exactly when its
  fresh buffer has a NUL behind it (`LineExactIffTerminated`).

## Model

| member | source | states |
|---|---|---|
| NameList.StrcmpIsDictionaryOrder | lab1/zad1/src/list_funs.c:343-356 | the comparison is negative exactly when the first string comes first in a dictionary: at the first difference it has the smaller character, or it ends there |
| NameList.KeyOrder | lab1/zad1/src/list_funs.c:343-356 | keys are compared by surname and, where the surnames are the same, by name; the three tests of the partitioning loop are mutually exclusive and cover every case |
| NameList.PartMembers | lab1/zad1/src/list_funs.c:334-359 | each sub-list receives exactly the nodes that pass its test, none twice |
| NameList.PartsArePermutation | lab1/zad1/src/list_funs.c:334-359 | the three sub-lists together are a permutation of the list |
| NameList.QuickPermutes | lab1/zad1/src/list_funs.c:315-381 | whenever the recursion closes, the result has exactly the nodes of the list |
| NameList.QuickSorts | lab1/zad1/src/list_funs.c:315-381 | whenever the recursion closes, the keys are strictly increasing |
| NameList.RepeatedKeyDiverges | lab1/zad1/src/list_funs.c:362 | a list of two or more equal keys never closes, at any recursion depth |
| NameList.SortTerminatesIffKeysDistinct | lab1/zad1/src/list_funs.c:315-381 | some recursion depth suffices if and only if no key is repeated (or the list has fewer than two nodes) |
| NameList.LinksIndices | lab1/zad1/src/list_structs.h:24-35 | the recursive notion of a linked chain is the usual one: every next and prev of neighbours invert each other |
| NameList.AddElem | lab1/zad1/src/list_funs.c:59-89 | the node becomes the last of the chain, whatever its old links were; only the chain's ends and the node are written; null arguments change nothing |
| NameList.ListConcat | lab1/zad1/src/list_funs.c:214-245 | both list headers end up denoting the doubly linked concatenation, including when either is empty |
| NameList.Place | lab1/zad1/src/list_funs.c:343-356 | one round of tests appends the node to exactly the sub-list whose test it passes |
| NameList.Partition | lab1/zad1/src/list_funs.c:332-359 | the loop turns the chain into three chains with the parts in walk order, although each append rewrites the links of the chain being walked |
| NameList.JoinParts | lab1/zad1/src/list_funs.c:365-380 | the guarded concatenations leave the result header on the chain lesser, equal, greater |
| NameList.PerformQuickListSort | lab1/zad1/src/list_funs.c:315-381 | in place, over the same nodes, the list becomes the well-formed doubly linked chain in the order of the recursion scheme |
| NameList.ListSort | lab1/zad1/src/list_funs.c:385-404 | for distinct keys the list ends as a well-formed chain over the same nodes, in dictionary order of the surnames and, within a surname, of the names; null and empty lists are only complained about; a single unkeyed node draws a complaint and stays |
| NameList.RemoveElem | lab1/zad1/src/list_funs.c:93-133 | the chain loses exactly that node, at the head, inside or at the end; a node that is not there changes nothing |
| NameList.FindElemByFullName | lab1/zad1/src/list_funs.c:409-431 | the first node with that name and surname, null if there is none or an argument is null or empty |
| Philosophers.Table.constructor | lab9/zad1/src/main.c:32-38 | all forks free, no mutex held, everyone before the first course |
| Philosophers.Table.RunThread | lab9/zad1/src/main.c:68-103 | each shared access of a philosopher, in place, is the step of the machine |
| Philosophers.NextInv | lab9/zad1/src/main.c:68-103 | every step and every spurious wakeup keeps: mutex held exactly by the thread in its guarded section, a fork used exactly while one thread owns it, no lost wakeup |
| Philosophers.WakeupKept | lab9/zad1/src/main.c:74-76 | a sleeper's fork is used, or the thread holding its mutex is about to signal |
| Philosophers.RunSignals | lab9/zad1/src/main.c:95 | a signal leaves nobody asleep on the fork, because at most one philosopher can be |
| Philosophers.ForksOfPhilosopher | lab9/zad1/src/main.c:60-66 | philosopher i uses forks i and i + 1 modulo n, the lower one first |
| Philosophers.NeighboursNeverEatTogether | lab9/zad1/src/main.c:72-90 | philosophers i and i + 1 modulo n never eat at the same time |
| Philosophers.EatersHoldBothForks | lab9/zad1/src/main.c:72-90 | while philosopher i eats, forks i and i + 1 modulo n are used |
| Philosophers.OwnerSleepsHigher | lab9/zad1/src/main.c:60-86 | if nobody can move, the owner of a fork somebody sleeps on sleeps on a higher fork |
| Philosophers.DeadlockFree | lab9/zad1/src/main.c:60-106 | while anybody is not done, somebody can move |
| Philosophers.QuietMeansFed | lab9/zad1/src/main.c:68-106 | when nobody can move, everyone has eaten every course and every fork is free and unlocked |
| Philosophers.RunUsesWork | lab9/zad1/src/main.c:68-106 | every step strictly decreases a global measure, also when a woken philosopher loses the fork and waits again |
| Philosophers.RunsAreBounded | lab9/zad1/src/main.c:68-106 | no run is longer than 22 steps per course and philosopher plus three per spurious wakeup |
| Philosophers.MealsAreCounted | lab9/zad1/src/main.c:68-103 | in every run the courses a philosopher has counted are the meals it has eaten |
| Philosophers.MaximalRunsFeedEveryone | lab9/zad1/src/main.c:40-52 | in a run that cannot be continued everyone has eaten so many meals, and every fork is free |
| Philosophers.Table.Dine | lab9/zad1/src/main.c:40-52 | under an arbitrary scheduler dinner goes through a run of the machine and ends with everyone fed and every fork free |
| ReadersWriters.StepInv | lab9/zad2/src/rw.c:129-171 | every token is in the semaphore, with a reader inside or with a writer; one writer at most is busy; entries stay within 0 and the maximum |
| ReadersWriters.WriterExcludesEveryone | lab9/zad2/src/rw.c:158-165 | while a writer writes, no reader is inside and every other writer is idle |
| ReadersWriters.HolderCanMove | lab9/zad2/src/rw.c:161-170 | a busy writer can make its own next access; or it lacks a token, none is free, and a reader inside can make its next access |
| ReadersWriters.WriterCanFinish | lab9/zad2/src/rw.c:155-171 | from every reachable state with a busy writer some continuation, without another thread coming in, lets it collect its tokens, write and give everything back |
| ReadersWriters.DeadlockFree | lab9/zad2/src/rw.c:129-171 | in every reachable state some thread can step, also while a writer holds only some tokens |
| ReadersWriters.InsideIsQuiet | lab9/zad2/src/rw.c:133-137 | while a reader is inside, no step of any thread changes the library |
| ReadersWriters.EntryTime | lab9/zad2/src/rw.c:92-101 | a reader inside came in at some earlier moment since when the library is unchanged and its count so far is right |
| ReadersWriters.ReportIsSnapshot | lab9/zad2/src/rw.c:129-138 | what a reader reports is the exact number of occurrences in the one library state of its whole visit, in every run |
| ReadersWriters.EntryIsLastWrite | lab9/zad2/src/rw.c:107-110 | in every run each entry holds the value last written to it, or its initial one |
| ReadersWriters.ModifiesAsDrawn | lab9/zad2/src/rw.c:103-112 | when a writer begins to give its tokens back it has made as many writes as it drew, between one and a hundred |
| ReadersWriters.NumsStay | lab9/zad2/src/rw.c:125-133 | a reader looks for the same number in every visit |
| ReadersWriters.ReadingRoom.Step | lab9/zad2/src/rw.c:80-171 | each access, in place, is the step of the machine |
| ReadersWriters.ReadingRoom.Serve | lab9/zad2/src/rw.c:114-175 | under any schedule the arrays go through the machine's states, each leaving reader reports the number of occurrences in the library as it is at that moment, and each entry ends with what was last written to it |
| ReadersWriters.ReadingRoom.ReaderRead | lab9/zad2/src/rw.c:92-101 | uninterrupted, the loop returns the number of occurrences |
| ReadersWriters.ReadingRoom.WriterWrite | lab9/zad2/src/rw.c:103-112 | uninterrupted, the loop leaves the library overwritten by the draws in order and returns their number |
| ReadersWriters.OverwrittenEntry | lab9/zad2/src/rw.c:107-110 | each entry holds the last value drawn for it, or what it held before |
| TaskBuffer.SharedBlock.PutTask | lab7/zad1/src/lab7ipc.c:100-112 | the guarded body of a put on the memory block: count, slot and awaiting as written |
| TaskBuffer.SharedBlock.GetTask | lab7/zad1/src/lab7ipc.c:123-136 | the guarded body of a get on the memory block: count, start index, number and awaiting as written |
| TaskBuffer.SlotHoldsForOneTurn | lab7/zad1/src/lab7ipc.c:106-111 | put q stays in the slot it was written to until the ring has come round |
| TaskBuffer.GetReturns | lab7/zad1/src/lab7ipc.c:128-135 | the slot a get reads holds the put before the matching one, the initial content for the first, the newest put when the ring is full |
| TaskBuffer.EveryGetObeysTheLaw | lab7/zad1/src/lab7ipc.c:96-141 | in every run of any number of threads, each get reports exactly that value, numbering puts and gets in mutex order |
| TaskBuffer.PreIncrementIsFifo | lab7/zad1/src/lab7ipc.c:101-108 | indexing with the count before the increment would return put g to get g |
| TaskBuffer.FifoIffSingleSlot | lab7/zad1/src/lab7ipc.c:96-141 | in every run each get returns the matching put, if and only if the ring has one slot; otherwise a put followed by a get breaks it |
| TaskBuffer.StepInv | lab7/zad1/src/lab7ipc.c:96-141 | every step keeps the semaphore sums and the ring law, including the counter, the start index and all slots |
| TaskBuffer.CountInRange | lab7/zad1/src/lab7ipc.c:101-126 | the stored count stays within the capacity, is below it for a put inside and above zero for a get inside |
| TaskBuffer.AwaitingIsFillLevel | lab7/zad1/src/lab7ipc.c:102-125 | a put reports the number of tasks in the ring, a get that number less its own |
| TaskBuffer.AwaitingInRange | lab7/zad1/src/lab7ipc.c:102-125 | every reported awaiting is at least zero and below the capacity |
| TaskBuffer.PutTaskReturns | lab7/zad1/src/lab7ipc.c:96-116 | in every run, when a put returns, the number it was called with went into the ring and it reports how many puts less gets came before |
| TaskBuffer.GetTaskReturns | lab7/zad1/src/lab7ipc.c:118-141 | in every run, when a get returns, it has the newest put if the ring was full, else the put before the matching one (the initial content for the first), and reports how many tasks were left |
| TaskBuffer.OneInsideMutex | lab7/zad1/src/lab7ipc.c:99-113 | of any two threads at most one is between the mutex operations |
| TaskBuffer.SomebodyCanStep | lab7/zad1/src/lab7ipc.c:96-141 | with a producer and a consumer some thread can always step |
| TaskBufferAccesses.AccessesAdvance | lab7/zad1/src/lab7ipc.c:100-136 | a put makes four accesses to the block and a get five, and the last one ends the guarded body |
| TaskBufferAccesses.StepRefines | lab7/zad1/src/lab7ipc.c:100-136 | with every access to the block a step of its own, each step is defined and is one of the machine above or invisible to it |
| TaskBufferAccesses.RunRefines | lab7/zad1/src/lab7ipc.c:96-141 | every run of single accesses shows a run of the machine above, ending in a corresponding state |
| TaskBufferAccesses.EveryAccessObeysTheLaw | lab7/zad1/src/lab7ipc.c:96-141 | for every interleaving of the accesses, what each get returned is what the ring law gives, and every slot index is inside the ring |
| TaskBufferAccesses.EveryAccessReportsFillLevel | lab7/zad1/src/lab7ipc.c:100-136 | for every interleaving of the accesses, a thread leaves the guarded section with the fill level and the number that the machine above gives |
| TaskBufferAccesses.SomebodyCanAccess | lab7/zad1/src/lab7ipc.c:96-141 | with a producer and a consumer some thread can always make an access |
| RecordSort.RecordFile.Read | lab2/zad1/src/bubble_sorter.c:203-217 | read returns what is left up to the count and moves the cursor by it |
| RecordSort.RecordFile.GetNextRecordSys | lab2/zad1/src/bubble_sorter.c:193-220 | the record at the cursor; at the end of the file the first record; a partial record ends the program |
| RecordSort.RecordFile.GetNextRecordStd | lab2/zad1/src/bubble_sorter.c:222-248 | the record at the cursor, the end of the program otherwise; the rewind after feof is never taken |
| RecordSort.RecordFile.SwapRecords | lab2/zad1/src/bubble_sorter.c:36-173 | exactly records a and b change places on file and the cursor is restored |
| RecordSort.OverwriteRecord | lab2/zad1/src/bubble_sorter.c:75-93 | writing one record's bytes at its offset replaces that record and no other |
| RecordSort.RecordFile.BubblePass | lab2/zad1/src/bubble_sort.c:19-42 | a pass keeps the groups of equal first bytes in order and extends the sorted tail; `previous` is record counter-1 with the cursor just past it |
| RecordSort.RecordFile.PerformBubbleSort | lab2/zad1/src/bubble_sort.c:6-50 | the file becomes the stable sort of its records by unsigned first byte, through either set of file operations |
| RecordSort.NeighbourSwapKeepsGroups | lab2/zad1/src/bubble_sort.c:30-33 | swapping neighbours with different first bytes keeps every group of equal first bytes in order |
| RecordSort.SameGroupsPermute | lab2/zad1/src/bubble_sort.c:6-50 | a stable sort has the same records with the same multiplicities |
| RecordSort.StableSortMeans | lab2/zad1/src/bubble_sort.c:6-50 | a stable sort is a rearrangement in which the first bytes do not decrease and of two records with equal first bytes the one that was first still is |
| RecordSort.RecordBytes | lab2/zad1/src/bubble_sorter.c:42-43 | record k consists of the bytes of the file from k times the record size on |
| RecordSort.StableSortIsUnique | lab2/zad1/src/bubble_sort.c:6-50 | there is only one stable sort of a file's records |
| RecordSort.OperationSetsAgree | lab2/zad1/src/bubble_sorter.c:315-319 | the system-call and the library variant leave the same bytes |
| RecordFinder.StepInv | lab8/zad1c/src/main.c:98-134 | every step keeps: reads are consecutive, each claimed position is scanned or pending with one thread, the reports that name a position of the file are the scanned matches |
| RecordFinder.ScanFacts | lab8/zad1c/src/main.c:115-121 | a record under the scan that is not stale is the file's record at a position not scanned before |
| RecordFinder.MatchesIff | lab8/zad1c/src/main.c:117-121 | a record matches exactly when the word stands behind the four bytes of the id and before the first NUL |
| RecordFinder.ClaimReadsBytes | lab8/zad1c/src/main.c:101-113 | a claim is a read of bytes: as many as the buffer holds or the file has left overlay the front of the buffer, the position moves behind them, and fewer than the buffer holds count as short |
| RecordFinder.EachPositionReadOnce | lab8/zad1c/src/main.c:101-107 | in every run the guarded reads partition the claimed part of the file, each a whole chunk or the rest of the file |
| RecordFinder.ReportsOfTheFile | lab8/zad1c/src/main.c:115-132 | in every run the reports that name a position of the file name a match that is there, no position twice |
| StaleRecords.GenuineIffHarmless | lab8/zad1c/src/main.c:98-134 | the exact condition, for any file, any fresh buffers and any number of threads, under which no interleaving reports anything but matching whole records of the file |
| StaleRecords.ReportsAreGenuineAndUnique | lab8/zad1c/src/main.c:115-132 | under that condition, at every moment of every run the reports name matching records of the file, no position twice |
| StaleRecords.GenuineIffBuffersClean | lab8/zad1c/src/main.c:111-121 | on all files of whole records together, the condition is that no freshly allocated buffer holds a match |
| StaleRecords.CleanBuffersAreNotEnough | lab8/zad1c/src/main.c:111-121 | a file that ends inside a record, and clean buffers, for which one thread reports a match that is not there |
| StaleRecords.ThreadsLeft | lab8/zad1c/src/main.c:117-121 | every chunk with a match that was read has stopped a thread of its own, so that many fewer can read on |
| RecordFinder.StoppedMeansCovered | lab8/zad1c/src/main.c:98-134 | at the end of every run exactly the claimed part was scanned and exactly its matches are reported, and the whole file was claimed or every thread made a find |
| RecordFinder.FindsWhatIsThere | lab8/zad1c/src/main.c:98-134 | at the end of every run, if something matches something is reported; if nothing is reported, the whole file was read and every record scanned |
| StaleRecords.FindsIffPresent | lab8/zad1c/src/main.c:98-134 | at the end of every run that can leave no match behind, something is reported if and only if something matches |
| RecordFinder.RunsAreBounded | lab8/zad1c/src/main.c:98-134 | every run is finite, with a bound known at the start |
| RecordFinder.TerminatesIffChunkPositive | lab8/zad1c/src/main.c:88-113 | run lengths are bounded if and only if at least one record is read at a time |
| RecordFinder.Search.RunThread | lab8/zad1c/src/main.c:98-133 | the guarded read, one record or the loop test, in place, is the step of the machine |
| RecordFinder.Search.Run | lab8/zad1c/src/main.c:57-66 | under an arbitrary scheduler the search goes through a run of the machine and ends; it has found something if there was something, and scanned everything if it found nothing |
| SignalHandshake.Exchange.ParentMain | lab4/zad2/src/parent.c:74-109 | each access of the parent's main, in place, is the step of the machine |
| SignalHandshake.Exchange.ChildMain | lab4/zad2/src/child.c:36-66 | each access of the child's main, in place, is the step of the machine |
| SignalHandshake.Exchange.ParentUsr1 | lab4/zad2/src/parent.c:112-133 | delivery of SIGUSR1 to the parent runs the handler installed at that moment |
| SignalHandshake.Exchange.ChildUsr1 | lab4/zad2/src/child.c:69-88 | delivery of SIGUSR1 to the child runs the handler installed at that moment |
| SignalHandshake.Exchange.ParentUsr2 | lab4/zad2/src/parent.c:112-133 | delivery of SIGUSR2 to the parent sets its flag |
| SignalHandshake.Exchange.ChildUsr2 | lab4/zad2/src/child.c:69-79 | delivery of SIGUSR2 to the child lets it proceed, or kills it before its handler is installed |
| SignalHandshake.Exchange.Run | lab4/zad2/src/parent.c:74-109 | under an arbitrary scheduler the two programs go through a run of the machine and come to a stop, finished or in a lost wakeup; both have counted every signal if the parent prints |
| SignalHandshake.StepInv | lab4/zad2/src/parent.c:74-133 | every step of either program and every delivery keeps the handshake invariant |
| SignalHandshake.NoSignalIsLost | lab4/zad2/src/parent.c:81-133 | at most one SIGUSR1 is ever under way in either direction, none meets a set pending bit, none reaches a process that is switching handlers, and none kills the child |
| SignalHandshake.CountersCountDeliveries | lab4/zad2/src/parent.c:124-127 | in every run the counters are the numbers of signals delivered to the counting handlers |
| SignalHandshake.PrintedCountsAgree | lab4/zad2/src/parent.c:105-109 | at the final print both processes have counted every signal |
| SignalHandshake.StuckIffLostWakeup | lab4/zad2/src/parent.c:74-107 | with both mains standing still, no further step is possible exactly when the programs have ended, a main sleeps although what it waits for has happened, or nothing is left of the ready signal |
| SignalHandshake.FinishedIffNoRace | lab4/zad2/src/parent.c:74-109 | a run that has come to a stop has completed the exchange exactly when none of its deliveries fell between a test and its pause, or before line 75 |
| SignalHandshake.CanFinishIffNoRace | lab4/zad2/src/parent.c:74-109 | at every moment of every run the exchange can still be completed exactly when there has been no such delivery so far |
| SignalHandshake.EveryWaitCanHang | lab4/zad2/src/parent.c:74-107 | for every argument each of the five waits, in each round of its loop, can lose its wakeup and hang for good; so can the ready signal that line 75 clears |
| SignalHandshake.RunsAreBounded | lab4/zad2/src/parent.c:74-109 | no run is longer than 24 steps per signal plus 30, so every run ends, finished or hanging |
| SignalHandshake.CompletionIsReachable | lab4/zad2/src/parent.c:81-109 | for every argument some schedule completes the exchange |
| DatagramServer.AdmitFacts | lab10/zad1/src/server.c:110-138 | lookup and admission give the sender its slot, touch no other, keep live addresses distinct, and fail exactly when the table is full of others |
| DatagramServer.ExpiredSlot | lab10/zad1/src/server.c:140-160 | the loop frees exactly the considered slots last heard from more than ten seconds ago |
| DatagramServer.HistoryKeepsDistinct | lab10/zad1/src/server.c:92-222 | over every history of datagrams no address is live twice in a table |
| DatagramServer.ForwardedExactlyOnce | lab10/zad1/src/server.c:140-219 | an admitted sender's message goes once to every other live client heard from within ten seconds, to no stale one, not back and to no other address; only recent clients and the sender stay |
| DatagramServer.Message | lab10/zad1/src/server.c:101-219 | the whole reaction to the message of a sender that has or gets a slot: that slot, all other slots given up unless heard from within ten seconds, one copy to each other such client of either family, nothing to anybody else |
| DatagramServer.Registration | lab10/zad1/src/server.c:110-143 | a registering datagram admits or refreshes its sender, leaves every other slot, and goes to nobody |
| DatagramServer.UnadmittedSender | lab10/zad1/src/server.c:122-219 | what becomes of the message of a sender the full table could not admit and of the two tables, per family |
| DatagramServer.Server.AdmitSender | lab10/zad1/src/server.c:110-138 | the two scans on the arrays, first match and first free slot |
| DatagramServer.Server.CheckSlot | lab10/zad1/src/server.c:145-159 | one slot's check: send if recent, free if stale, nothing if empty |
| DatagramServer.Server.Handle | lab10/zad1/src/server.c:101-220 | one datagram on the arrays: tables and sends as the reaction says, in sending order |
| QueueServer.ScanStopsInside | lab6/zad2/src/server.c:96-101 | the scan for a free slot stops inside the table |
| QueueServer.HistoryKeepsInv | lab6/zad2/src/server.c:79-138 | over every message history: occupied exactly when named, names distinct and equal to the created and not unlinked client queues, queue ids distinct, occupied slots at most the admissions, admissions at most the slots |
| QueueServer.InitDoes | lab6/zad2/src/server.c:82-105 | an init message puts its client with its new queue into one free slot if admissions are below the slots and the queue can be created, and changes nothing otherwise |
| QueueServer.TextDoes | lab6/zad2/src/server.c:109-118 | an exit message empties exactly its client's slot and removes its queue; any other text changes nothing |
| QueueServer.AdmissionsAreCounted | lab6/zad2/src/server.c:86-95 | over every history the counter is the number of clients admitted so far, exits included, and never above the number of slots |
| QueueServer.AdmittedIffBelowMax | lab6/zad2/src/server.c:86-104 | in every history a client whose queue can be created gets a slot if and only if fewer clients have come so far than there are slots |
| QueueServer.EmptyTableCanRefuse | lab6/zad2/src/server.c:86-89 | for every table size some history empties the table and then refuses a client whose queue could be created |
| QueueServer.NoAdmissionAfterMax | lab6/zad2/src/server.c:86-89 | in every history, once as many clients have come as there are slots, nobody is ever admitted again |
| QueueServer.TextReachesEveryOtherOnce | lab6/zad2/src/server.c:127-133 | over every history a text sends exactly one copy to the queue of each other client in the table, none to the sender's, and nothing else |
| QueueServer.Server.Handle | lab6/zad2/src/server.c:80-137 | one message on the arrays: table, admissions, queues and sends as the reaction says |
| QueueServer.Server.Cleanup | lab6/zad2/src/server.c:48-70 | the shutdown hook notifies each occupied slot's queue once and no other, and leaves no client queue behind |
| AcceptingThread.ScanStaysInTable | lab6/zad1/src/server.c:76-81 | a look or a store of the accepting thread is inside the table although the other thread empties slots meanwhile, the slot it stores into is still empty, and every step keeps the bound |
| AcceptingThread.RunStaysInTable | lab6/zad1/src/server.c:55-84 | so it is in every run |
| AcceptingThread.ArrivalIsStored | lab6/zad1/src/server.c:62-81 | an arrival below the limit is counted and, undisturbed, stored in an empty slot with all others unchanged; at the limit it changes nothing |
| AcceptingThread.AdmittedUntilDismissed | lab6/zad1/src/server.c:76-81 | a counted client stays in the table until its own slot is emptied: no admission overwrites another |
| AcceptingThread.StepConserves | lab6/zad1/src/server.c:55-147 | no access of either thread loses a client or makes one up, counted per queue id |
| AcceptingThread.Server.Step | lab6/zad1/src/server.c:55-147 | each access of either thread, in place, is the step of the machine |
| AcceptingThread.Server.Serve | lab6/zad1/src/server.c:55-147 | under any schedule the clients that came are those that left, those in the table and the one under way to it, and never more than there are slots |
| TreeCrawler.EntryHasItsPlace | lab2/zad2/src/file_tree_crawler.c:111-155 | every entry a route leads to is examined under its own path at its position in the listing, printed next at its depth if it is a directory or an access-matching regular file, and a directory is then opened |
| TreeCrawler.PathExtends | lab2/zad2/src/file_tree_crawler.c:124-125 | the path of an entry is that of its directory, a slash and its name |
| TreeCrawler.PreOrder | lab2/zad2/src/file_tree_crawler.c:111-155 | the positions are in pre-order: a directory before its contents, siblings in directory order, no position shared |
| TreeCrawler.EveryEventHasItsEntry | lab2/zad2/src/file_tree_crawler.c:133-150 | nothing else is in the listing: each event is one of those for some entry |
| TreeCrawler.Crawler.MakeRoom | lab2/zad2/src/file_tree_crawler.c:115-122 | the buffer grows until the longer path fits, keeping its contents |
| TreeCrawler.Crawler.AppendName | lab2/zad2/src/file_tree_crawler.c:124-125 | slash and name are appended inside the buffer |
| TreeCrawler.Crawler.TraverseRecursively | lab2/zad2/src/file_tree_crawler.c:99-156 | exactly the pre-order listing with indentation equal to depth is emitted, all calls see the right path, and path and indentation are restored |
| FileCounter.CountsFiles | lab3/zad2/src/file_counter.c:63-113 | the number counted is that of the routes to regular files, each once |
| FileCounter.ExitStatusIsCountModulo256 | lab3/zad2/src/file_counter.c:120-134 | a process's exit status is the number of regular files in its subtree modulo 256 |
| FileCounter.TotalExactIff | lab3/zad2/src/file_counter.c:120-134 | the computed total never exceeds the true number and equals it exactly when every immediate subdirectory holds fewer than 256 files |
| FileCounter.CountDirectory | lab3/zad2/src/file_counter.c:63-134 | counting, forking and waiting in any order ends with that exit status |
| FifoFrame.SixColumns | lab5/zad2/src/wrfifo.c:47 | the process id takes six columns exactly up to 999999 |
| FifoFrame.PaddedParses | lab5/zad2/src/wrfifo.c:47 | the padded columns still read as the process id |
| FifoFrame.PaddedIsRightAligned | lab5/zad2/src/wrfifo.c:47 | the columns are spaces and then the decimal digits of the process id, without leading zeros |
| FifoFrame.ColumnsRoundTripIff | lab5/zad2/src/rdfifo.c:78-100 | the columns give back the fields, separated as formatted, and the line exactly for ids of at most six digits |
| FifoFrame.FrameFits | lab5/zad2/src/wrfifo.c:28-47 | the formatted message and its terminator fit the buffer, with a byte to spare exactly for the lines that the read gives |
| FifoFrame.ExtractPid | lab5/zad2/src/rdfifo.c:78-85 | six columns and a terminator |
| FifoFrame.ExtractWriteDate | lab5/zad2/src/rdfifo.c:87-93 | columns nine to sixteen and a terminator |
| FifoFrame.ExtractMsg | lab5/zad2/src/rdfifo.c:95-100 | the string from column twenty on, inside both buffers |
| FifoFrame.LineExactIffTerminated | lab5/zad2/src/rdfifo.c:54-58 | into a buffer with any contents, the line is read as sent exactly when there happens to be a NUL behind the message |
| FifoFrame.ReadLoop | lab5/zad2/src/rdfifo.c:46-64 | over any sequence of messages each is shown as sent, with no residue of a longer earlier one in the read buffer or the field buffers |

## Left out

- Set-up and tear-down through the operating system (`init_ipc`, sockets, `mq_open` plumbing, `atexit`, `ftok`, `shmget`, thread creation): each model starts from the initialised state.
- Failing system calls, interrupted calls and failed allocation: they end the program.
- Random numbers, sleeps and the order of threads: arbitrary inputs. The clock of `DatagramServer` is an arbitrary reading per use.
- C integer width: counters and file sizes are unbounded integers.
- NameList.ListSort: requires names and surnames as soon as there are two nodes, because the program only complains about a missing one and then compares it; and distinct keys, because otherwise it does not return.
- NameList.AddElem: requires a node that is not in the list yet; linking one in again would cut off what follows it.
- NameList.ListConcat: requires two lists without a common node; concatenating a list with itself would close it into a ring.
- NameList.RemoveElem: releasing the node's storage is not modelled.
- `get_equals`, `get_greater` and `get_lesser` of lab1: unused.
- Philosophers.Table.Dine: has no spurious wakeups; the machine has them, and `RunsAreBounded` says what they cost.
- ReadersWriters.DeadlockFree: needs a library with at least one entry, as an index drawn from an empty one is undefined.
- RecordSort.RecordFile.SwapRecords: the two swap routines of the program differ only in the calls that fetch and store, and are one method with that choice inside.
- RecordFinder.Search.Run: a find also passes to `pthread_cancel` the threads that have ended; for one that `main` has joined already, what that does is undefined and not modelled.
- RecordFinder.StepInv: the file is read without short reads before its end, and does not change meanwhile.
- SignalHandshake.Exchange.ParentUsr1: the programs leave the flags of their `sigaction` structures unset; the model takes them as zero.
- SignalHandshake.StepInv: the parent before line 75 and the child before its exec are not part of the model.
- QueueServer.TextReachesEveryOtherOnce: `mq_open` does not return a descriptor that is still open; the server closes none.
- DatagramServer.Message: says who is sent a copy; the copy is the datagram as received.
- DatagramServer.Server.Handle: `select` and the choice between the sockets are the choice of the next datagram.
- TreeCrawler.Crawler.TraverseRecursively: opening and `lstat` succeed; the size and time printed with a file are one number; the sizing of the first buffer in `main` is a precondition.
- FifoFrame.ReadLoop: assumes that one read delivers one message, and that the fresh buffer has a NUL behind the first one (`LineExactIffTerminated` says why).
- FileCounter.CountDirectory: the path each process builds for its children is not modelled; a child is its directory's entries.
- The client programs, the other lab programs, printing and argument parsing: nothing to prove beyond what is here.
