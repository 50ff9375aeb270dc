# Models and proofs for bco

bco is a coroutine runtime: proactors complete socket operations, a context harvests the completions,
executors run them, and tasks and channels resume the coroutines that wait. This project models the
parts where operations, tasks and values move between locked queues, and the four algorithms of the
test runner in the tree whose specifications are hardest. It proves what these parts keep in every
interleaving.

Two forms are used side by side. Code that changes fields is a `class` whose methods are proved
against functions of the old state. Where threads interleave, the lock blocks are the steps of a state
machine, and theorems quantify over every list of steps. The two are tied together. `Select`, `Channel`,
`Task`, `IOUring` and `MultiLaneAtomic` share their step functions with the machines. For `Select`, the
executors and `ExpirableTask` it is proved that a call that nobody interrupts is a list of steps of the
machine from any reachable state (`SelectScan`, `SimpleRounds`, `MultithreadTurns`, `Expirable`).

| file | models |
|---|---|
| `Select.dfy`, `SelectScan.dfy` | the `select` proactor; an uninterrupted `do_io` |
| `SelectRuns.dfy`, `SelectLosses.dfy` | its runs on stale snapshots; what overwriting a registration loses |
| `Tasks.dfy`, `Resumption.dfy` | the awaitable task; the way from a socket call to the resumption of its coroutine |
| `Channel.dfy` | channels |
| `DelayQueue.dfy` | the delay queue of both executors |
| `SimpleExecutor.dfy`, `SimpleRuns.dfy`, `SimpleRounds.dfy` | the single-threaded executor; its loop among posters and proactors; an uninterrupted round |
| `MultithreadExecutor.dfy` | the work-stealing executor: its queues, the steal order, a turn |
| `MultithreadRuns.dfy`, `MultithreadFifo.dfy`, `MultithreadTurns.dfy` | its concurrent runs; the order in its queues; an uninterrupted turn |
| `Uring.dfy`, `UringRuns.dfy` | the two rings of the io_uring proactor; runs of submissions and passes |
| `Expirable.dfy` | awaiting with a timeout |
| `Context.dfy`, `Lists.dfy` | harvesting all proactors of a context |
| `Wildcard.dfy` | the test runner's glob matcher |
| `SubcaseForest.dfy`, `Subcases.dfy` | the test runner's subcases: the visits of a forest, and the loop that makes them |
| `Lanes.dfy` | the test runner's sharded counter |
| `XmlEncode.dfy` | the test runner's XML escaper |

## Where the code does less than one would expect

Each of these is a theorem with the exact condition, or a concrete state, and the model follows the code.

- The delay queue is ordered by delay and not by deadline. A call is sure to release every due task if
  and only if every due task has a longer delay than every task that is not due
  (`DelayQueue.AllDueReleasedIff`); a 10 ms timer can wait behind a 100 ms one
  (`DelayQueue.ShortTimerWaitsForLongOne`).
- A second operation on a descriptor and direction that is still registered replaces the first, and an
  operation is then lost for ever. All operations of a run are accounted for, in all its states or at its
  end, if and only if this never happens (`SelectRuns.ConservedIffSlotsFree`,
  `SelectLosses.ConservedAtEndIff`). A replaced operation can also complete from the snapshot and erase
  its replacement (`SelectRuns.StaleEraseExample`).
- A context harvests its proactors one after the other. Completions run in the order in which they
  completed if and only if there is at most one proactor (`SimpleRuns.CompletionOrderIff`); with two the
  later one can run first (`SimpleRuns.LaterRunsFirst`).
- The work of an expirable await sets the flag before it awaits the task, so the timeout does not bound
  the wait: after it has fired the caller still waits if and only if the work set the flag first and has
  not ended (`Expirable.StillWaitingIff`, `Expirable.WaitsPastTimeout`).
- Of a batch submitted to io_uring only the first operation becomes in flight. After any run of
  submissions, arriving entries and passes, every operation has got and will get the callbacks it is owed
  if and only if each batch so far was a single operation (`UringRuns.AllCalledBackIff`;
  `UringRuns.SecondIsLost` is a run of two).
- A completion pass does not store its head. Along a run each entry is completed at most once if and only
  if at most one pass found something to complete (`UringRuns.OncePerEntryIff`); a ring with one entry
  binds its callback twice (`Uring.CompletedTwice`).
- A submission does not check for room. It leaves the unread entries alone if and only if there is room
  (`Uring.SubmitKeepsUnreadIff`). An idle round extracts the first node of an empty map, which C++ leaves
  undefined (`Uring.IOUring.SubmitTasks`).
- A subcase with the signature of an earlier sibling is never entered. The runs of a test reach each leaf
  once if and only if siblings have distinct signatures (`SubcaseForest.VisitsAreLeavesIff`); otherwise
  leaves are lost and runs may enter nothing (`SubcaseForest.LostSiblingExample`).
- The XML escaper copies, besides the sequences of the Unicode standard, those of surrogates and the
  overlong F0 80 A0 80, since one comparison is strict where the others are not
  (`XmlEncode.GoodSequenceIff`). It lets `]]>` through raw if and only if the text begins with it
  (`XmlEncode.RawCdataEndIff`). It lets a control byte through that XML forbids if and only if the text
  holds a vertical tab or a form feed (`XmlEncode.RawControlIff`). Reading its output back gives the text
  if and only if no byte is written as `\xNN` (`XmlEncode.RoundTrip`).

## Model

| member | source | states |
|---|---|---|
| SelectRuns.ConservedIffSlotsFree | src/net/proactor/select.cpp:70-350 | in all states of a run every registered operation is in exactly one place, live map or completed or harvested, if and only if no registration finds its descriptor and direction taken; for every interleaving of registrations, `do_io` steps on stale snapshots and harvests |
| SelectLosses.ConservedAtEndIff | src/net/proactor/select.cpp:70-350 | already the last state of a run accounts for every operation, if and only if no registration found its slot taken: what overwriting loses never comes back |
| SelectLosses.StepKeepsLoss | src/net/proactor/select.cpp:273-344 | whatever happens next, a lost operation stays lost, and one displaced while a stale snapshot holds it leaves a lost one behind |
| SelectRuns.EraseIsExact | src/net/proactor/select.cpp:273-344 | with free slots, a completion taken from a stale snapshot erases the very operation it completes and no other |
| SelectRuns.AtMostOnce | src/net/proactor/select.cpp:232-350 | whatever clients overwrite, every completion is of a registered operation and no operation completes twice |
| SelectRuns.OneDoIoUntilStop | src/net/proactor/select.cpp:48-55 | after a `start` and until a `do_io` whose `select` succeeds finds the stop event ready, exactly one `do_io` is queued or running; before and after, none; told by the steps of the run |
| SelectRuns.ExactlyOneDoIo | src/net/proactor/select.cpp:48-55 | the same, told by the state |
| SelectRuns.StopEndsDoIo | src/net/proactor/select.cpp:255-257 | a `do_io` that finds the stop event ready is the last one: whatever follows, none is queued or running and nothing more completes |
| SelectRuns.OtherwiseDoIoIsPosted | src/net/proactor/select.cpp:252-270 | a `select` that fails, and a scan worked off, post the next `do_io` and complete nothing |
| SelectRuns.CompletionsCarry | src/net/proactor/select.cpp:273-344 | a handled operation completes with the count or descriptor of its call or its negated error number, and for `accept` and `recvfrom` with the peer address; connecting always completes with the descriptor; "try again" completes nothing |
| SelectRuns.StoppedForever | src/net/proactor/select.cpp:255-257 | once the stop event was seen no `do_io` ever exists again and nothing more completes |
| SelectRuns.SelectCoversTheSnapshot | src/net/proactor/select.cpp:242-250 | the count given to `select`, computed from bounds read after the snapshot, exceeds every descriptor of it, and the event descriptors are in it |
| SelectRuns.BoundsNeverDecrease | src/net/proactor/select.cpp:74-75 | neither descriptor bound ever goes down along a run |
| SelectRuns.LaterCountsCover | src/net/proactor/select.cpp:250 | every descriptor registered at some point stays below every later count, and the stop and wakeup descriptors stay registered |
| SelectRuns.AlwaysInv | src/net/proactor/select.cpp:28-350 | the inductive invariant behind these, in every reachable state |
| SelectRuns.StaleEraseExample | src/net/proactor/select.cpp:300-311 | a run in which a replaced receive completes and its replacement is erased |
| SelectScan.ScanAsSteps | src/net/proactor/select.cpp:195-223 | the lock blocks of one scan, taken without interruption, do what the loop of `on_io_event` does and touch nothing else |
| SelectScan.DoIoIsTwoScans | src/net/proactor/select.cpp:238-271 | an uninterrupted `do_io` is the read scan, then the write scan, then the next `do_io` posted |
| SelectScan.StartAndHarvest | src/net/proactor/select.cpp:48-55 | `start` posts one `do_io`; a harvest hands over what has completed, in order, and leaves none |
| SelectScan.DoIoFromTheQueue | src/net/proactor/select.cpp:232-271 | a `do_io` from the queue that nobody interrupts scans the maps as they are when it begins |
| Resumption.AwaitHoldsWhatTheCallReturned | src/net/tcp.cpp:43-48 | end to end: when a `do_io` handled the operation and its callback has run, the await of `recv` holds the count or the negated error number of the system call, and the await of `accept` the descriptor or negated error number with the peer address |
| Resumption.CallRegisters | src/net/tcp.cpp:72-82 | a call awaits the operation registered for its own descriptor and kind |
| Resumption.AwaitingSuspends | include/bco/coroutine/task.h:82-86 | a coroutine that awaits right after its call always suspends, and its handle is stored |
| Resumption.EmptyHandleBreaks | include/bco/coroutine/task.h:93 | a callback whose task had neither result nor handle would resume an empty handle, which `ResumedAtMostOnce` excludes |
| Resumption.ServedCoroutineRuns | src/net/tcp.cpp:40-88 | a whole way, for `recv` and `accept`: from the call through proactor and harvest until the coroutine runs again with its result |
| Resumption.EveryCallbackResumesItsCaller | src/net/tcp.cpp:40-53 | in every reachable world, a callback about to run finds no result and a stored caller, stores what the completion carries, for `accept` with the peer address, and resumes the coroutine that awaits |
| Resumption.ResumedAtMostOnce | src/net/tcp.cpp:72-88 | no await is resumed twice, no empty handle is ever resumed, and an await has a result exactly if its callback has run, namely its value |
| Resumption.DrainedAllResumedIff | src/net/proactor/select.cpp:346-350 | when nothing is pending, completed or in hand, every call has resumed its coroutine exactly once, if and only if no call found its slot taken |
| Resumption.DrainedMeansAllResumed | src/net/proactor/select.cpp:346-350 | with free slots, a call that is no longer pending has resumed its coroutine once the completions are run, whatever else is pending |
| Resumption.AlwaysWorldInv | src/executor/simple_executor.cpp:52-73 | the invariant of proactor, awaits and callbacks in hand, in every interleaving |
| Channel.MatchesInOrder | include/bco/coroutine/channel.h:14-44 | after any run receive i holds the value of send i as soon as both exist; the waiting tasks and the ready values are what is left over, never both; exactly the receives that waited and whose context lived are resumed, once each, in order |
| DelayQueue.ReleasedInOrder | src/executor/simple_executor.cpp:96-99 | what comes out is due, longest delay first, and no shorter than what stays; nothing is lost or made |
| DelayQueue.SleepIsSafe | src/executor/multithread_executor.cpp:197-201 | the sleep is 10 ms for an empty queue, and else the remaining time of a task on top cut to whole milliseconds, never negative |
| DelayQueue.KeptOnlyBehindLongerDelay | src/executor/multithread_executor.cpp:193-196 | a due task stays only behind one that is not due and at least as long; if all are due the queue empties |
| DelayQueue.AllDueReleasedIff | include/bco/proactor.h:38-41 | every possible call releases every due task if and only if all due delays are longer than all others |
| DelayQueue.DueMayBeKept | src/executor/simple_executor.cpp:96-99 | any state of the loop in which a due task is not longer than one that is not due can end with a due task kept |
| DelayQueue.ShortTimerWaitsForLongOne | include/bco/proactor.h:38-41 | a due 10 ms timer kept behind a 100 ms one |
| SimpleRuns.AlwaysInOrder | src/executor/simple_executor.cpp:52-73 | in every interleaving of the loop with its posters and its proactors: posted tasks run ++ in hand ++ queued is the post history in order; for each proactor, completions run ++ in hand ++ waiting is what it completed, in order; delayed tasks are conserved |
| SimpleRuns.AlwaysInHarvestOrder | src/context.cpp:24-31 | all completions together run in the order in which the proactors were harvested |
| SimpleRuns.CompletionOrderIff | src/context.cpp:24-31 | every run keeps the order of completion over all proactors, if and only if the context has at most one |
| SimpleRuns.LaterRunsFirst | src/context.cpp:27-29 | two proactors: the operation that completes last runs first |
| SimpleRuns.RunsRoundByRound | src/executor/simple_executor.cpp:64-72 | everything that has run, and the rest in hand, are the rounds one after the other, each its delayed tasks, then the posted, then the harvested |
| SimpleRuns.LeavesIff | src/executor/simple_executor.cpp:52-53 | at the top of a round the loop leaves if and only if it was told to stop, else it takes what is posted |
| SimpleRuns.LeavesOnlyAfterStop | src/executor/simple_executor.cpp:52 | it leaves for no other reason |
| SimpleRuns.ExitedForever | src/executor/simple_executor.cpp:52-73 | once it has left it runs nothing more |
| SimpleRuns.ExitLeavesNothingInHand | src/executor/simple_executor.cpp:52 | when the loop has left on stop, whatever it took has run; what is left is in the queues, proactor by proactor |
| SimpleRounds.RoundAsSteps | src/executor/simple_executor.cpp:52-73 | the lock blocks of a round that nobody interrupts, one for each proactor, with what its tasks post, from any reachable state |
| SimpleRounds.GatheredIsConcat | src/context.cpp:24-31 | what such a round harvests is the list the context puts together |
| SimpleRounds.DoRound | src/executor/simple_executor.cpp:52-73 | a round of the class ends in exactly the state of those steps |
| SimpleRounds.Post | src/executor/simple_executor.cpp:20-28 | a post on the class is the posting step |
| MultithreadRuns.AlwaysConserved | src/executor/multithread_executor.cpp:81-158 | in every interleaving of main loop, workers, posting tasks and outside threads, the copies of a task that entered are those waiting in some queue or hand plus the runs begun |
| MultithreadRuns.NoTaskRunsTwice | src/executor/multithread_executor.cpp:123-158 | a task that entered once runs at most once, and has run or waits in exactly one place, stealing included |
| MultithreadRuns.RestingMeansAllEmpty | src/executor/multithread_executor.cpp:101-158 | while nobody posts, a worker that started a turn has found empty only queues that are empty still, whatever the other workers take meanwhile; when it reports no job every queue is empty |
| MultithreadRuns.EmptyFindsNoJob | src/executor/multithread_executor.cpp:101-158 | from empty queues no turn finds a job until somebody posts, in any interleaving |
| MultithreadRuns.StartsIdle | src/executor/multithread_executor.cpp:46-54 | every loop starts at its top, with all queues empty |
| MultithreadRuns.WorkerLeavesIff | src/executor/multithread_executor.cpp:104 | at the top of its loop a worker that was told to stop can only leave, any other can only ask its queue |
| MultithreadRuns.MainLeavesIff | src/executor/multithread_executor.cpp:84 | likewise the main loop |
| MultithreadRuns.LeavesOnlyAfterStop | src/executor/multithread_executor.cpp:81-111 | nobody leaves for another reason |
| MultithreadRuns.EveryoneGoesOn | src/executor/multithread_executor.cpp:101-111 | a worker that has run a task to its end, or rested, and a main loop that has slept start another turn |
| MultithreadRuns.ExitedForever | src/executor/multithread_executor.cpp:81-111 | who has left does not come back |
| MultithreadFifo.AlwaysFifo | src/executor/multithread_executor.cpp:166-176 | in every interleaving, what was taken from the global queue or a worker queue, and what it holds, is what was put into it, in order; thieves take from the front like the owner |
| MultithreadTurns.TurnAsSteps | src/executor/multithread_executor.cpp:113-158 | the lock blocks of a turn that nobody interrupts, from any reachable state and however it ends |
| MultithreadTurns.WorkerTurn | src/executor/multithread_executor.cpp:101-111 | a call of the class ends in exactly the state of those steps |
| MultithreadTurns.RoundAsSteps | src/executor/multithread_executor.cpp:84-97 | the lock blocks of a main-loop round that nobody interrupts, one for each proactor, deal what is due and then what is harvested, each to the picked worker |
| MultithreadTurns.MainRound | src/executor/multithread_executor.cpp:84-97 | a round of the class is that round |
| MultithreadTurns.Post | src/executor/multithread_executor.cpp:29-38 | a post on the class is the posting step of a worker or of an outside thread |
| MultithreadExecutor.RotationVisits | src/executor/multithread_executor.cpp:131-134 | the rotated indices visit (start + k) mod n for all k |
| MultithreadExecutor.StealOrderVisitsEachOtherOnce | src/executor/multithread_executor.cpp:131-135 | every other worker is visited exactly once, from any start |
| Uring.SlotIsLow | src/net/proactor/iouring.cpp:343 | masking a wrapped counter gives the counter modulo the ring size |
| Uring.CalledOncePerEntry | src/net/proactor/iouring.cpp:375-380 | an operation is called back once per entry that names it if it is in flight, and never otherwise |
| Uring.CompletedTwice | src/net/proactor/iouring.cpp:360-373 | a ring with one entry of one operation in flight, whose callback two passes bind twice |
| Uring.SubmitKeepsUnreadIff | src/net/proactor/iouring.cpp:337-358 | a submission leaves the unread entries alone, whatever it submits, if and only if there is room |
| Uring.BatchIsQueued | src/net/proactor/iouring.cpp:270-277 | a batch for which there is room is queued behind the unread entries, in order |
| Uring.EntriesCarryTasks | src/net/proactor/iouring.cpp:285-358 | with room, the i-th new entry carries the descriptor, number and memory of task i and the kernel's opcode of its action; the unread entries stay |
| Uring.EntriesDiffer | src/net/proactor/iouring.cpp:351 | entries of different operations of a batch carry different numbers |
| Uring.AnswerFindsItsOperation | src/net/proactor/iouring.cpp:375-394 | from submission to callback: the kernel's answer to the entry of the first operation of a batch binds just that operation's callback, to the result and for accepting and receiving-from to the address |
| UringRuns.OnlyFirstsAreCalledBack | src/net/proactor/iouring.cpp:270-283 | over any run of submissions, arriving entries and passes, an operation that was the first of its batch is called back each time a pass reads an entry naming it, any other never |
| UringRuns.AllCalledBackIff | src/net/proactor/iouring.cpp:270-283 | after any such run, and whatever entries are read later, every operation has every callback it is owed, if and only if each batch so far was a single one |
| UringRuns.SecondIsLost | src/net/proactor/iouring.cpp:270-283 | two receives in one batch, both answered: only the first is called back |
| UringRuns.OncePerEntryIff | src/net/proactor/iouring.cpp:252-261 | along a whole run each entry is completed at most once, if and only if at most one pass found something to complete |
| UringRuns.SecondPassRepeatsIff | src/net/proactor/iouring.cpp:252-261 | with new entries and submissions between two passes, each entry is completed at most once if and only if the first pass found nothing to complete |
| Expirable.ResumedOnce | src/coroutine/cofunc.cpp:57-79 | in every interleaving the caller is resumed at most once, and exactly once when both closures have ended; it finds a result if and only if the work set the flag first |
| Expirable.StillWaitingIff | src/coroutine/cofunc.cpp:63-77 | when the timeout has fired, the caller still waits if and only if the work set the flag first and has not ended |
| Expirable.WaitsPastTimeout | src/coroutine/cofunc.cpp:63-77 | the work has started, the timeout has fired, and nobody has resumed the caller |
| Expirable.AlwaysInv | src/coroutine/cofunc.cpp:89-114 | the invariant of flag, result and closures |
| SubcaseForest.VisitsAreLeavesIff | tests/doctest/doctest.h:3759-3764 | the visits of a forest are its leaves, each once, if and only if siblings have distinct signatures |
| SubcaseForest.LostSiblingExample | tests/doctest/doctest.h:3751-3764 | two siblings of one signature: the leaf of the second is never reached and a run enters nothing |
| SubcaseForest.LeavesIncomparable | tests/doctest/doctest.h:6468-6510 | with distinct siblings no leaf path is a prefix of another, so each run reaches one leaf |
| SubcaseForest.ForestIsLaid | tests/doctest/doctest.h:3759-3767 | the visits below any node are consecutive |
| SubcaseForest.FinishedIff | tests/doctest/doctest.h:3760-3764 | a node has passed exactly when its last visit has been made |
| Subcases.KeptIff | tests/doctest/doctest.h:3743-3749 | the filters apply above the given number of levels, and for a negative number, which is converted to an unsigned one, practically everywhere; there a subcase is kept if it matches a filter, or there are none, and no exclusion |
| Wildcard.Wildcmp | tests/doctest/doctest.h:3681-3715 | returns true exactly when the declarative matcher does, for every text, pattern and case mode, and terminates |
| Wildcard.StarFreeMatches | tests/doctest/doctest.h:3685-3703 | a pattern without a star matches the texts of its length that agree at each position: a question mark, the same character, or without case sensitivity the same letter |
| Wildcard.MarksMatch | tests/doctest/doctest.h:3686-3687 | n question marks match exactly the texts of length n |
| Wildcard.PartsMatch | tests/doctest/doctest.h:3694-3709 | a pattern of two parts matches the texts that can be cut to match part by part |
| Wildcard.StarMatchesAll | tests/doctest/doctest.h:3695-3698 | a star alone matches every text |
| Wildcard.CaseDoesNotMatter | tests/doctest/doctest.h:3686 | without case sensitivity the case of no letter in text or pattern changes the answer |
| Wildcard.MatchesAny | tests/doctest/doctest.h:3727-3735 | some filter matches, or the list is empty and that counts |
| Wildcard.LastStarSuffices | tests/doctest/doctest.h:3695-3700 | meeting another star, no later start of the previous one can add a match |
| Lanes.LoadIsSomeTotal | tests/doctest/doctest.h:3083-3089 | a load among increments returns a total the 32-bit counter had at some moment while the load ran |
| Lanes.LoadBetweenTotals | tests/doctest/doctest.h:3083-3089 | it is the 32-bit value of a number between the exact totals at its start and at its end |
| Lanes.RunWraps | tests/doctest/doctest.h:3073-3089 | wrapping every lane and the running sum at 32 bits gives the exact run, wrapped |
| XmlEncode.EncodeTo | tests/doctest/doctest.h:4739-4831 | the loop, with its skips, writes the concatenation of the pieces |
| XmlEncode.EncodeByte | tests/doctest/doctest.h:4744-4829 | one turn writes one piece and skips what it wrote |
| XmlEncode.CheckSequence | tests/doctest/doctest.h:4792-4818 | the inline test accepts exactly the well-formed sequences in the ranges the code allows |
| XmlEncode.EncodedIsSafe | tests/doctest/doctest.h:4739-4831 | for every byte string there is no raw `<`, every `&` starts an entity, and in an attribute there is no raw quote |
| XmlEncode.RawCdataEndIff | tests/doctest/doctest.h:4749-4755 | `]]>` comes out raw if and only if the text begins with it |
| XmlEncode.RawControlIff | tests/doctest/doctest.h:4767-4778 | the output holds a control byte that section 2.2 of XML 1.0 forbids, if and only if the text holds 0x0B or 0x0C |
| XmlEncode.HexReadsBack | tests/doctest/doctest.h:4724-4730 | an escape is a backslash, an x and two upper-case hexadecimal digits whose value is the byte |
| XmlEncode.ReadsBack | tests/doctest/doctest.h:4739-4831 | reading the entities and then the escapes of the output gives back every text without a backslash |
| XmlEncode.GoodSequenceIff | tests/doctest/doctest.h:4792-4818 | the code takes for UTF-8, byte range by byte range, the sequences of the Unicode standard, those of surrogates, and F0 80 A0 80 |
| XmlEncode.EscapedIff | tests/doctest/doctest.h:4769-4820 | the bytes that come out escaped, in ranges |
| XmlEncode.RoundTrip | tests/doctest/doctest.h:4739-4831 | decoding the output gives the text with its bad bytes spelled out, and the very text if and only if there are none |
| Channel.Channel.Send | include/bco/coroutine/channel.h:14-28 | the queues and all issued tasks follow the run with this send added; at most the first waiting receiver is spawned |
| Channel.Channel.Recv | include/bco/coroutine/channel.h:29-44 | the new task is fresh, has a result exactly if some sent value was not yet received, and otherwise waits last |
| Channel.Channel.WaitersAreResumed | include/bco/coroutine/channel.h:23-26 | the tasks whose resumption was spawned are exactly those of the receives that waited and whose sender found their context alive |
| Channel.Channel.ReceiverGetsItsValue | include/bco/coroutine/channel.h:20-42 | the task objects hold the matched values |
| DelayQueue.Queue.Top | include/bco/proactor.h:38-41 | the top is a task of the longest delay |
| DelayQueue.Queue.GetTimeupDelayTasks | src/executor/simple_executor.cpp:91-105 | splits the queue without loss; what comes out is due, by non-increasing delay, and no shorter than what stays; if anything stays, a task that is not due is on top and gives the sleep |
| SimpleExecutor.SimpleExecutor.GetTimeupDelayTasks | src/executor/simple_executor.cpp:91-105 | releases from the delay queue and computes the sleep |
| SimpleExecutor.SimpleExecutor.DoRound | src/executor/simple_executor.cpp:52-73 | runs the due, then the posted, then the harvested tasks; what they post waits, in order, for the next round; an empty round clears the wakeup flag |
| MultithreadExecutor.MultithreadExecutor.constructor | src/executor/multithread_executor.cpp:8-16 | between 1 and 1000 distinct workers, all queues empty |
| MultithreadExecutor.MultithreadExecutor.Post | src/executor/multithread_executor.cpp:29-38 | a worker's own post goes to the end of its queue, any other to the end of the global queue; nothing else moves |
| MultithreadExecutor.MultithreadExecutor.TakeOne | src/executor/multithread_executor.cpp:166-176 | the oldest global task, or none exactly if there is none |
| MultithreadExecutor.MultithreadExecutor.Steal | src/executor/multithread_executor.cpp:123-158 | a scan that nobody interrupts takes the front of the global queue, else of the first non-empty queue in steal order; finds nothing only if all these are empty |
| MultithreadExecutor.MultithreadExecutor.DoJob | src/executor/multithread_executor.cpp:104-110 | a turn that nobody interrupts finds a job if and only if some queue is not empty, takes one task from the front of one queue, and prefers its own, then the global one, then the first in steal order |
| MultithreadExecutor.MultithreadExecutor.Drain | src/executor/multithread_executor.cpp:101-111 | one worker alone runs every queued task exactly once, in as many turns as there were tasks, whatever the start indices |
| MultithreadExecutor.MultithreadExecutor.MainRound | src/executor/multithread_executor.cpp:81-99 | what is due, then what is harvested, goes to the ends of the picked workers' queues, one by one; nothing else is posted |
| MultithreadExecutor.MultithreadExecutor.StealInOrder | src/executor/multithread_executor.cpp:135-141 | takes the front of the first non-empty queue in the order, or finds them all empty |
| Uring.SubmissionRing.SubmitSqe | src/net/proactor/iouring.cpp:337-358 | what the kernel has still to read, seen through the index array, is the old entries with this one added, also when the 32-bit tail wraps; without room the entries a whole number of rings older are overwritten, since the code does not check |
| Uring.SubmissionRing.Consume | src/net/proactor/iouring.cpp:337-358 | the kernel reads the oldest entry and the rest stays in order |
| Uring.SubmissionRing.LiveEntriesApart | src/net/proactor/iouring.cpp:343-352 | in a ring that is not overfull, two entries not yet read never share a slot |
| Uring.IOUring.SubmitTasks | src/net/proactor/iouring.cpp:270-283 | every pending operation is submitted in id order, with room as an entry of its own descriptor, number and opcode behind the unread ones; only the first becomes in flight; an empty batch is reported as undefined |
| Uring.IOUring.HandleCompleteTask | src/net/proactor/iouring.cpp:375-394 | an entry appends the bound callback of its operation if it is in flight, else nothing |
| Uring.IOUring.HandleCompleteTasks | src/net/proactor/iouring.cpp:360-373 | a pass ends after (tail - head) mod 2^32 entries and appends the completions of the entries in ring order |
| Uring.IOUring.TwoPasses | src/net/proactor/iouring.cpp:360-373 | two passes complete every entry twice, since the head is not stored back |
| Expirable.ExpirableTask.CompareExchange | src/coroutine/cofunc.cpp:64-65 | only the first exchange claims the flag |
| Expirable.ExpirableTask.WorkClosure | src/coroutine/cofunc.cpp:63-69 | sets the result and resumes the caller if the flag was free, else changes nothing; the object follows the run with these steps |
| Expirable.ExpirableTask.TimeoutClosure | src/coroutine/cofunc.cpp:72-77 | resumes the caller without a result if the flag was free, else changes nothing; the object follows the run with these steps |
| Expirable.ExpirableTask.ResumesOnce | src/coroutine/cofunc.cpp:57-79 | whichever closures have run on the object, it has resumed its caller at most once, exactly once when both have ended, and holds a result only from the work |
| Subcases.TestContext.RunTestCase | tests/doctest/doctest.h:6460-6510 | for any forest the loop terminates; run k makes exactly visit k, there are max(1, visits) runs, and after run k the passed set is the nodes all of whose visits are among the first k + 1; the visits are the leaves, each once in depth-first order, if and only if siblings have distinct signatures; rejected subcases act as if absent |
| Subcases.TestContext.RunBody | tests/doctest/doctest.h:6486 | a piece of a test body enters nothing, or exactly the rest of the path of the current visit, and asks for another run exactly if it has visits left |
| Subcases.TestContext.RunSubcase | tests/doctest/doctest.h:3739-3798 | the same for one subcase with its constructor, body and destructor |
| Subcases.TestContext.Enter | tests/doctest/doctest.h:3739-3770 | entered if not filtered, nothing was entered on the level and the stack has not passed; the fields say so |
| Subcases.TestContext.Leave | tests/doctest/doctest.h:3776-3798 | the stack passes unless a subcase was skipped, and pops |
| Lanes.MultiLaneAtomic.FetchAdd | tests/doctest/doctest.h:3073-3075 | changes one lane and moves the total by the argument, at 32 bits; adding one is the increment step |
| Lanes.MultiLaneAtomic.Load | tests/doctest/doctest.h:3083-3089 | undisturbed, the total at 32 bits; its loop is the lane-by-lane reading of the interleaved runs |
| Lanes.MultiLaneAtomic.Store | tests/doctest/doctest.h:3096-3102 | the first lane holds the value and the others zero, so the total is the stored value |
| Context.Context.GetProactorTasks | src/context.cpp:24-31 | every completion of every proactor is handed over once, proactor by proactor, each in its order; registrations are left alone |
| Select.Select.constructor | src/net/proactor/select.cpp:28-33 | the two event descriptors are registered and bound the read side |
| Select.Select.Send | src/net/proactor/select.cpp:101-119 | on the own executor a send that succeeds or fails at once returns its result and registers nothing; any other registers |
| Select.Select.Connect | src/net/proactor/select.cpp:158-171 | a failed connect returns the negated error and registers nothing; any other registers on the write side |
| Select.Select.GetPendingIo | src/net/proactor/select.cpp:232-236 | the snapshot is both maps at one moment |
| Select.Select.DoSend | src/net/proactor/select.cpp:326-337 | likewise on the write side, without an address |
| Select.Select.OnConnected | src/net/proactor/select.cpp:339-344 | always completes, with the descriptor |
| Select.Select.OnIoEvent | src/net/proactor/select.cpp:195-223 | the loop over a snapshot finishes the ready entries in descriptor order and skips the wakeup event |
| Select.Select.Harvest | src/net/proactor/select.cpp:346-350 | hands over all completions in order and leaves none |
| Select.Select.DoAccept | src/net/proactor/select.cpp:273-298 | unless the call says to try again, the descriptor is erased and the callback bound to the new descriptor or negated error, and to the peer address |
| Select.Select.DoRecv | src/net/proactor/select.cpp:300-311 | likewise with the count or negated error, and no address |
| Select.Select.DoRecvfrom | src/net/proactor/select.cpp:313-324 | likewise with the count or negated error, and the peer address |
| Tasks.Task.OnCompletion | src/net/tcp.cpp:43-48 | a task with a result is left alone; otherwise the value is stored and the caller resumed; the awaiting coroutine then gets the first value delivered |
| DelayQueue.Queue.PostDelay | src/executor/simple_executor.cpp:30-34 | adds one task whose deadline is fixed by the time of posting |
| SimpleExecutor.SimpleExecutor.GetPendingTasks | src/executor/simple_executor.cpp:85-89 | takes the whole queue in order and leaves it empty |
| MultithreadExecutor.Worker.TakeOne | src/executor/multithread_executor.cpp:238-248 | takes the oldest, or nothing exactly if the queue is empty |
| Select.Select.Recv | src/net/proactor/select.cpp:70-80 | the read entry of the descriptor becomes this operation and the bound covers it; the write side and completions are unchanged; receiving-from and accepting register likewise |
| Select.Select.SendAsync | src/net/proactor/select.cpp:121-131 | likewise on the write side |

## Left out

- System calls, events, buffers and clocks: `select`, `accept`, `recv` and the rest return arbitrary outcomes given as parameters (a ready subset, a count, "try again", an error); buffers and callbacks are the number of the operation.
- `src/net/proactor/epoll.cpp`, the IOCP proactor, UDP sockets, `Address` and `Buffer`.
- Resumption.EveryCallbackResumesItsCaller: covers `recv` and `accept` of one `Select` awaited at once on one `SimpleExecutor` thread; callbacks of other proactors touch other tasks; `TcpSocket::send` that succeeds synchronously sets no result, so no such law holds for it.
- Channel.Channel.Recv: `co_await channel.recv()` is one step; a sender between the call and the suspension may resume an empty handle.
- Uring.IOUring.SubmitTasks: the pending map is the list of its operations by ascending id; what the undefined extraction from an empty map does is not modelled.
- Lanes.LoadIsSomeTotal: increments only; a subtraction during a load is not modelled, and the running sum of the load wraps where C++ leaves signed overflow undefined.
- Subcases.TestContext.RunTestCase: bodies that meet different subcases from run to run, exceptions and the limit on failed assertions.
- MultithreadExecutor.MultithreadExecutor.DoJob: one turn that nobody interrupts; what holds when other workers take and threads post meanwhile is stated over `MultithreadRuns`.
- Context.Context.GetProactorTasks: the proactors are listed in the order of the map that holds them, and are distinct.
- Sleeping, wakeups and lost wakeups: a sleeping thread may go on at any step.
- Weak memory order, the plain `stoped_` flag, thread start, joins and object lifetimes.
- The `priority` field of tasks: neither executor reads it.
- The rest of the test runner: reporters, option parsing, signals, macros.
