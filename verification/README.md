# A verified model of the wyze coroutine runtime

Wyze is a C++ runtime in which coroutines do blocking I/O: a byte buffer that grows node by node
and codes typed values, a scheduler whose workers share a queue of fibers and callbacks, an I/O
manager that parks a fiber until a descriptor is ready, a set of timers, and a few smaller
machines around them.  This project models these parts and proves what they are for.

Code that changes objects step by step is a class here, with one method for each operation or each
stretch that other threads cannot come between.  A method is proved against a function on values;
what the runtime promises is proved about these functions, for every input, every run and every
interleaving.  Clocks, the kernel's answers, what a socket delivers, and the choice of who moves
next are inputs.

| part | files |
|---|---|
| byte buffer, codings, socket buffers | `Words`, `Blocks`, `Varint`, `VarintInput`, `ByteArray`, `Codec`, `CodecWire`, `ByteArrayCodec`, `SockStream` |
| timers | `TimerSpec`, `TimerRuns`, `TimerDeadlines`, `TimerManager` |
| event registration | `EventBook`, `IoSpec`, `IoRuns`, `IoTraces`, `IOManager` |
| waiting for a descriptor | `DoIo`, `DoIoRuns`, `DoIoCalls`, `DoIoTimeouts`, `DoIoTraces` |
| scheduler | `SchedSpec`, `SchedRuns`, `SchedPlaces`, `SchedPins`, `SchedTraces`, `Scheduler` |
| the end of an I/O manager | `Stopping`, `StopSpec`, `StopRuns`, `StopTests`, `StopHands`, `StopQuiet`, `StopTraces` |
| chunk headers | `ChunkSpec`, `ChunkRuns`, `ChunkDigits`, `ChunkLines`, `ChunkGrammar`, `ChunkParser` |
| connection pool | `PoolSpec`, `ConnectionPool` |
| log patterns | `LogPattern`, `LogTokens`, `LogFormatter` |

## What turned out not to hold

The code is kept as it is, and each of these is a lemma with the exact condition under which the
code does what is expected.  Where it takes a run to get to a case that fails, that run is there as
well.

- `readUint64` shifts within 32 bits, so a 64-bit varint comes back exactly when it is below 2 to
  the 32nd (`Uint64RoundTripIff`); on other bytes it may shift a word away altogether (`AnyInput`).
- A list of values comes back except when it ends in an empty string whose end is the end of a
  node: the read then follows a null cursor (`RoundTrip`).
- Refreshing a timer does not ask for a wake-up, which is right only while the clock does not go
  back (`RefreshKeepsWakeIff`, and `RefreshAfterClockBack` for a case).
- Expiry reads the clock before it takes the lock; a reading older than the last one passes for a
  rollover while the clock is within half a day of zero, and may lose a wake-up
  (`ExpireKeepsWakeIff`, `RolloverIs`, `NoRollover`, and `ExpireAfterStaleReading` for a case).
- A readiness report that names a registered event together with one that is not hits the
  assertion in the trigger (`ReadyFailsIff`, and `StaleReportFails` for a run).
- Growing the descriptor table re-reads nothing under the write lock, so two threads that both
  found it too small can cut off a context in use (`ResizeKeepsIff`, and `ResizeRace`).
- Closing a descriptor after its cancelling failed leaves events registered that the kernel has
  forgotten (`CloseKeepsIff`, and `CloseForgets` for a run).
- A timeout that runs out between arming the timer and registering the event is lost, as it is when
  the kernel fails (`TimeoutSurvivesIff`, and `TimeoutCanBeMissed` for a run).  And the timer of a round
  that is over can still cancel the event of a later one (`LetGoIsSpentIff`, `TestedCanCancel`).
- The scheduler's test for the end can hold while a ready task is still to be put back
  (`StoppingLeavesReadyIff`, and `StoppingBeforeRequeue` for a run).  Nothing unpinned is stranded
  all the same (`NothingStranded`), but a pinned task can be (`TakeKeepsCareIff`,
  `CaredThroughoutIff` and `NothingLeftIff`, and `PinnedStranded` for a run).
- A fiber woken before its worker looked at it, and then yielding to ready, is queued twice
  (`YieldReadyKeepsIff`, and `QueuedTwice` for a run).
- The I/O manager's test for the end reads three things in turn and can pass with a timer set
  (`PassedIff`, and `StopsEarly` for a run).  All workers can leave with an event registered, by a
  fiber that was put back late (`LastLeftIff` and `StaysQuietIff`, and `LeftWithEvent` for a run).
- A chunk size from 2 to the 31st on is read as some other number, and may end the body
  (`SizeRoundTripIff`).
- A parser that has ended refuses what follows, but the call after that reads on as if in the middle
  of a size (`EndIsForgotten`).
- The pool adds the time it was made to the time connections may live, in 32 bits
  (`AliveTimeIff`).

## Model

| member | source | states |
|---|---|---|
| Words.WordRoundTrip | wyze/bytearray.cpp:131-139 | a signed value of any width survives being held as an unsigned word of that width |
| Varint.BytesSelfDelimited | wyze/bytearray.cpp:146-156 | every byte of a varint but the last has its top bit set, and its seven-bit digits, lowest first, make up the value |
| Varint.BytesMinimal | wyze/bytearray.cpp:163-173 | no other self-delimited string for the same value is shorter |
| Varint.TemporaryArraySuffices | wyze/bytearray.cpp:146-173 | the temporary arrays of 5 and 10 bytes are never overrun |
| Varint.Uint32RoundTrip | wyze/bytearray.cpp:282-296 | every 32-bit value is read back, whatever bytes follow, and exactly its own bytes are taken |
| Varint.Uint64RoundTripIff | wyze/bytearray.cpp:303-317 | a 64-bit value is read back exactly when it is below 2 to the 32nd; above it the reader never gives it back |
| VarintInput.AnyInput | wyze/bytearray.cpp:282-317 | on any bytes: a number that ends within five is read modulo 2 to the 32nd; a longer one is cut off there by the 32-bit reader, and shifted out of the word by the 64-bit one; bytes that stop before are out of range |
| Varint.EncodeZigzagIs | wyze/bytearray.cpp:114-129 | in spite of wrap-around the code of v is 2v, or -2v - 1 for a negative v, the smallest integer included |
| Varint.ZigzagRoundTrip | wyze/bytearray.cpp:114-139 | decoding the zigzag code of any w-bit integer gives it back |
| Varint.ZigzagOnto | wyze/bytearray.cpp:114-139 | every w-bit word is the zigzag code of the integer it decodes to: the coding is a bijection |
| Blocks.IndexOffsetAreDivMod | wyze/bytearray.cpp:396-399 | the node and place of a position, counted by whole nodes, are its quotient and remainder by the node size |
| ByteArrays.GrownLeast | wyze/bytearray.cpp:686-713 | growth is by whole nodes, to the fewest that are no fewer than before and hold what was asked for |
| ByteArrays.GrownTwice | wyze/bytearray.cpp:686-713 | making room twice comes to the same capacity as making room once for both |
| ByteArrays.PutTwice | wyze/bytearray.cpp:390-425 | writing x and then y leaves the same bytes, position and capacity as writing x + y |
| ByteArrays.ByteArray.constructor | wyze/bytearray.cpp:42-51 | a new buffer is empty, with one node |
| ByteArrays.ByteArray.AddCapacity | wyze/bytearray.cpp:686-713 | the list keeps its nodes and their bytes, gains nodes of equal size up to the capacity that growth asks for, and the cursor is right again |
| ByteArrays.ByteArray.Write | wyze/bytearray.cpp:390-425 | the linked nodes hold the flat sequence with the data written over it at the position and past its end; the cursor is at the node of the new position, null at capacity |
| ByteArrays.ByteArray.Read | wyze/bytearray.cpp:427-455 | the result is the slice of the flat sequence at the position; too long a read throws and an empty read at capacity follows the null cursor, and both change nothing |
| ByteArrays.ByteArray.SetPosition | wyze/bytearray.cpp:487-504 | past the capacity it throws and changes nothing; otherwise position, size and cursor follow and no byte changes |
| ByteArrays.ByteArray.Clear | wyze/bytearray.cpp:376-388 | the buffer is empty again with its first node only |
| ByteArrays.ByteArray.PiecesDisjoint | wyze/bytearray.cpp:654-684 | the pieces are not empty, lie inside their nodes, and no two are in one node |
| ByteArrays.ByteArray.PiecesHold | wyze/bytearray.cpp:584-614 | the pieces for a range hold exactly its bytes, end to end |
| ByteArrays.ByteArray.GetReadBuffers | wyze/bytearray.cpp:584-614 | the pieces hold what a read of as many bytes would give; at capacity the null cursor is followed |
| ByteArrays.ByteArray.GetReadBuffersAt | wyze/bytearray.cpp:616-652 | the pieces are those of the range from the given position |
| ByteArrays.ByteArray.GetWriteBuffers | wyze/bytearray.cpp:654-684 | room is made as for a write and the pieces cover exactly the bytes after the position |
| ByteArrays.ByteArray.Scatter | wyze/sockstream.cpp:22-30 | filling the pieces from the front is writing the data at their range of the flat sequence |
| SockStreams.Receive | wyze/sockstream.cpp:22-30 | receiving leaves the buffer as a write of what arrived would, but for the capacity asked for; an error leaves the bytes alone |
| SockStreams.Send | wyze/sockstream.cpp:37-45 | what the socket takes is what a read would give, and what stays unread is exactly the unsent suffix |
| Codec.FixedRoundTrip | wyze/endian.h:15-34 | a fixed-width word is read back for every machine order, compiled order and buffer order |
| Codec.WireOrder | wyze/endian.h:36-62 | where the program knows the order of its machine, the bytes on the wire are in the order set on the buffer |
| CodecWire.FixedOnWire | wyze/bytearray.cpp:63-112 | an integer takes its width, each byte at the place the order of the buffer gives it, and a negative one as its two's complement |
| CodecWire.TextOnWire | wyze/bytearray.cpp:187-211 | a string is the low two, four or eight bytes of its length, in the order of the buffer, and then its text |
| CodecWire.VintOnWire | wyze/bytearray.cpp:208-214 | or its length as a varint, and then its text |
| Codec.ItemRoundTrip | wyze/bytearray.cpp:63-373 | one typed value is read back whatever follows it if and only if it fits what its reader and length prefix keep; else the reader never gives it back |
| Codec.ListRoundTrip | wyze/bytearray.cpp:63-373 | a list of values decodes to itself with nothing left over exactly when each value is faithful and the last read does not follow the null cursor |
| ByteArrayCodec.WriteItem | wyze/bytearray.cpp:63-216 | each writer leaves the buffer as one write of the bytes of its coding would |
| ByteArrayCodec.ReadItem | wyze/bytearray.cpp:224-373 | each reader gives what the decoder gives on the unread bytes, fails as it does, and leaves the bytes it leaves |
| ByteArrayCodec.WriteUint | wyze/bytearray.cpp:146-173 | the loop over a temporary array writes exactly the varint |
| ByteArrayCodec.ReadUint | wyze/bytearray.cpp:282-317 | the byte-by-byte loop reads as the varint decoder does, failures included |
| ByteArrayCodec.ReadAll | wyze/bytearray.cpp:224-373 | reading a list of values gives what decoding the unread bytes gives |
| ByteArrayCodec.RoundTrip | wyze/bytearray.cpp:63-504 | for every node size and list: writing all, going to the start and reading all gives the same list and ends at the end, exactly when every value is faithful and the list does not end in an empty string at the end of a node |
| TimerSpec.SortedUnique | wyze/timer.cpp:10-23 | two sorted listings of the same timers are equal: the set determines its order |
| TimerRuns.StepKeepsSet | wyze/timer.cpp:26-195 | whatever the clock does, every operation keeps the set strictly ordered by deadline and address, with exactly the timers that have a callback |
| TimerRuns.ExpireExact | wyze/timer.cpp:137-175 | expiry lists exactly the due timers, all of them on rollover, in deadline order; one-shots lose their callback, recurring ones come back one period after now, all others are untouched |
| TimerRuns.StepKeeps | wyze/timer.cpp:39-195 | under a clock that does not go back no operation loses a wake-up, with a deadline before the one reported the flag is up and the front hook was called since; adding and listing, which read the clock before they take the lock, may come with an older reading, unless listing takes it for a rollover |
| TimerRuns.RunKeeps | wyze/timer.cpp:39-195 | the same through every run of operations |
| TimerRuns.RefreshKeepsWakeIff | wyze/timer.cpp:39-53 | with any clock a refresh keeps the wake-ups exactly when one was asked for already or the new deadline is no earlier than the one reported |
| TimerRuns.RefreshAfterClockBack | wyze/timer.cpp:39-53 | a refresh after the clock went back leaves a timer due before the deadline reported, with the flag down |
| TimerRuns.ExpireKeepsWakeIff | wyze/timer.cpp:137-175 | with any clock expiry keeps the wake-ups exactly when one was asked for already or no recurring timer that it lists comes back before the deadline reported |
| TimerRuns.ExpireAfterStaleReading | wyze/timer.cpp:137-146 | a reading older by one millisecond passes for a rollover near zero: a recurring timer comes back before the deadline reported, with the flag down |
| TimerRuns.CancelledNeverListed | wyze/timer.cpp:26-36 | cancel says whether the timer was set, and after it the callback is listed in no run |
| TimerRuns.OnceListedOnce | wyze/timer.cpp:165-174 | a timer that does not recur is listed at most once in any run |
| TimerRuns.DeadNeverListed | wyze/timer.cpp:165-174 | a timer without a callback is never listed again |
| TimerDeadlines.AddIs | wyze/timer.cpp:79-104 | a new timer has the callback, period and kind asked for and its deadline one period after the reading of the clock; no other timer changes |
| TimerDeadlines.AddListsIff | wyze/timer.cpp:79-104 | it is listed exactly from its deadline on, but for a rollover |
| TimerDeadlines.AddedOnce | wyze/timer.cpp:165-174 | a timer added to fire once is listed at most once in any run |
| TimerDeadlines.ListedAgainIff | wyze/timer.cpp:165-174 | after an expiry that lists it a timer is set again exactly if it recurs, one period after that |
| TimerDeadlines.AddedRecursIff | wyze/timer.cpp:79-175 | so after any run a timer is set again by an expiry that lists it exactly if it was added to recur |
| TimerDeadlines.RefreshListsIff | wyze/timer.cpp:39-53 | refreshing succeeds exactly for a timer that is set, which is then listed exactly from one period after the refresh on |
| TimerDeadlines.ResetListsIff | wyze/timer.cpp:56-78 | resetting succeeds exactly for a timer that is set, or when nothing would change; it is then listed exactly from the new period after its old start, or after the reset, on |
| TimerDeadlines.CancelIs | wyze/timer.cpp:26-36 | cancelling takes just that timer out, for good, and succeeds exactly if it was set |
| TimerDeadlines.AskingIs | wyze/timer.cpp:121-134 | asking for the wait changes no timer and takes the flag down |
| TimerDeadlines.NextExpiryListsDue | wyze/timer.cpp:137-175 | after an expiry that found timers a later one sees no rollover, and lists just what is due by then |
| TimerDeadlines.ListedInOrder | wyze/timer.cpp:10-23 | the callbacks come earliest deadline first, and lower address first among equals |
| TimerDeadlines.AddWakesIff | wyze/timer.cpp:185-195 | adding asks for a wake-up exactly if none was asked for and the new timer comes before all others |
| TimerRuns.NextTimerReaches | wyze/timer.cpp:121-134 | waiting as long as told ends when the earliest timer is due and no later than any timer; waiting for ever means there is none |
| TimerManagers.InsertAtLowerBound | wyze/timer.cpp:185-189 | inserting at the lower bound is the insertion that keeps the order |
| TimerManagers.FindErase | wyze/timer.cpp:26-36 | in the sorted set find gives the place of a timer that is set, so that erasing there erases it |
| TimerManagers.Timer.Cancel | wyze/timer.cpp:26-36 | the object follows the state machine; its erase always has a valid target |
| TimerManagers.Timer.Refresh | wyze/timer.cpp:39-53 | the object follows the state machine; the not-found branch is never taken |
| TimerManagers.Timer.Reset | wyze/timer.cpp:56-78 | the object follows the state machine; the not-found branch is never taken |
| TimerManagers.TimerManager.AddTimer | wyze/timer.cpp:97-104 | a new timer is put in its place, and the flag and the hook follow |
| TimerManagers.TimerManager.AddTimerLocked | wyze/timer.cpp:185-195 | the flag goes up and the hook is called just when the timer is first and the flag was down |
| TimerManagers.TimerManager.GetNextTimer | wyze/timer.cpp:121-134 | the wait and the state are those of the state machine |
| TimerManagers.TimerManager.ListExpiredCb | wyze/timer.cpp:137-175 | the callbacks, in order, and the new set are those of the state machine |
| TimerManagers.TimerManager.DetectClockRollover | wyze/timer.cpp:198-207 | the test and the new last time are those of the code, in 64 bits |
| TimerSpec.RolloverIs | wyze/timer.cpp:198-207 | in 64 bits a rollover is any step back while the earlier reading is within half a day of zero, and later a step back by more than half a day |
| TimerManagers.TimerManager.HasTimer | wyze/timer.cpp:178-182 | there is a timer exactly when some timer has a callback |
| EventBook.EndsOnce | wyze/iomanager.cpp:102-264 | a registration waits, was scheduled once, or was removed: exactly one of these, and what ended it stays the only thing that did |
| IoRuns.TriggerKeeps | wyze/iomanager.cpp:35-47 | triggering a registered event queues its task and no other, once, and clears its bit and slot |
| IoRuns.AddKeeps | wyze/iomanager.cpp:102-158 | a registration fails exactly when the kernel has a reason of its own, changing nothing but the size of the table; else the event is registered for its task |
| IoRuns.DelKeeps | wyze/iomanager.cpp:160-194 | deleting ends just the named registration, resumes nothing, and does nothing when it is not there or the kernel fails |
| IoRuns.CancelKeeps | wyze/iomanager.cpp:196-228 | cancelling ends just the named registration and queues its task once, or does nothing |
| IoRuns.CancelAllKeeps | wyze/iomanager.cpp:230-264 | closing ends and queues every registration of the descriptor, after which no event is left, or does nothing |
| IoRuns.ReadyFailsIff | wyze/iomanager.cpp:334-381 | the assertion of the trigger fails exactly when the kernel accepts a report of an event that is not registered, with one that is registered and is reported too, or any registered one on an error |
| IoTraces.StaleReportFails | wyze/iomanager.cpp:334-381 | a run that gets there: both events are registered, reading is cancelled, and a report of both taken before is handled after |
| IoRuns.ReadyKeeps | wyze/iomanager.cpp:334-381 | any other report ends and queues exactly the registered events that it names, or all that are registered on an error, after which none is left; nothing when the kernel fails |
| IoRuns.FiredHands | wyze/iomanager.cpp:366-381 | what ends together is handed over behind all that was before, what waited to read first |
| IoRuns.FreshReport | wyze/iomanager.cpp:334-381 | a report of registered events only is never stale, with or without an error |
| IoRuns.CtlLegal | wyze/iomanager.cpp:174-181 | with the interest set right, choosing between change and delete by what is left is never refused |
| IoRuns.RoomyIs | wyze/iomanager.cpp:49-59 | making room for a descriptor keeps every context and adds blank ones |
| IoRuns.ResizeKeepsIff | wyze/iomanager.cpp:49-59 | resizing keeps every context exactly when the table does not shrink |
| IoRuns.ResizeRace | wyze/iomanager.cpp:106-116 | two threads that both found the table too small: the second cuts off a context with an event registered |
| IoRuns.CloseKeepsIff | wyze/hook.cpp:318-333 | closing keeps kernel and table in agreement exactly when the cancelling did not fail with an event registered |
| IoTraces.CloseForgets | wyze/hook.cpp:318-333 | a run that gets there: an event is registered, the kernel refuses the cancelling, and the descriptor is closed |
| IoRuns.StepKeeps | wyze/iomanager.cpp:28-381 | every operation, with any kernel failures, keeps in agreement: bits, slots with exactly one of fiber and callback, the counter, the interest set, and the life of every registration |
| IoRuns.RunKeeps | wyze/iomanager.cpp:28-381 | the same through every run |
| IoRuns.RegistrationEndsOnce | wyze/iomanager.cpp:102-264 | through every run a registration is scheduled at most once and ends in one way only |
| IoRuns.TotalZero | wyze/iomanager.h:66 | the counter is zero exactly when no event is registered on any descriptor |
| IOManagers.FdContext.TriggerEvent | wyze/iomanager.cpp:35-47 | bit and slot are cleared and the slot's task is handed over |
| IOManagers.IOManager.ContextResize | wyze/iomanager.cpp:49-59 | the table is cut or extended by blank contexts, keeping the objects it keeps |
| IOManagers.IOManager.AddEvent | wyze/iomanager.cpp:102-158 | the objects follow the state machine, and the assertion that the slot is blank holds |
| IOManagers.IOManager.DelEvent | wyze/iomanager.cpp:160-194 | the objects follow the state machine and the counter never underflows |
| IOManagers.IOManager.CanceEvent | wyze/iomanager.cpp:196-228 | the objects follow the state machine and the counter never underflows |
| IOManagers.IOManager.CanceAll | wyze/iomanager.cpp:230-264 | the objects follow the state machine, and after success no event is left |
| IOManagers.IOManager.HandleReady | wyze/iomanager.cpp:334-381 | the objects follow the state machine on every report that is not stale: the events named are gone, or all of them on an error |
| DoIoRuns.TakeKeeps | wyze/hook.cpp:112-169 | every step of a fiber, of a timer, of readiness, of closing and of anyone else keeps the account of every waiting fiber |
| DoIoRuns.QueuedOncePerPark | wyze/hook.cpp:112-169 | in every run a fiber is queued once for each time it parked; while parked it is either registered and not queued, or not registered and queued exactly once |
| DoIoRuns.DeleteIsIdle | wyze/hook.cpp:154-157 | the delete after a timeout finds nothing and changes nothing |
| DoIoCalls.CallKeepsIts | wyze/hook.cpp:95-115 | a call is entered with its descriptor, direction and timeout and keeps them |
| DoIoCalls.OthersLeaveIt | wyze/hook.cpp:112-169 | no step of anyone else moves a fiber |
| DoIoCalls.CallEndsIff | wyze/hook.cpp:116-163 | a call ends exactly when what it tried returns, when the event cannot be registered, or when its round timed out |
| DoIoCalls.CheckIs | wyze/hook.cpp:154-158 | a fiber that was woken goes on to end the call exactly if the condition says cancelled; otherwise it lets go of it and tries again |
| DoIoCalls.TimedOutEnds | wyze/hook.cpp:149-158 | in every run a woken fiber whose round timed out is outside after its next steps, three at most, without trying the call in between, whatever anyone else does |
| DoIoCalls.ResumedEnds | wyze/hook.cpp:149-158 | so it is from the step that resumes it after its timer marked the condition |
| DoIoCalls.EndingCan | wyze/hook.cpp:149-158 | and it always has such a step to take |
| DoIoCalls.DisarmStopsIff | wyze/hook.cpp:151-152 | a woken fiber stops its timer exactly if that has not run out |
| DoIoCalls.SpentNeverCancels | wyze/hook.cpp:132-139 | a timer that was stopped, or whose condition was let go of before it looked, never cancels anything in any run |
| DoIoCalls.LetGoIsSpentIff | wyze/hook.cpp:132-139 | when a round ends and the call is tried again its timer can still cancel an event exactly if it is between its look at the condition and its mark |
| DoIoTimeouts.TimeoutOnItsWay | wyze/hook.cpp:130-139 | a fiber that waits with a timeout has a timer still to cancel its event, unless the timer tried already and could not |
| DoIoTimeouts.TimeoutWakesIff | wyze/hook.cpp:132-138 | the timer's cancelling queues the waiting fiber exactly when the kernel does not fail, with the timeout marked |
| DoIoTimeouts.EarlyTimeoutFindsNothing | wyze/hook.cpp:130-141 | a timer that runs out before the event is registered cancels nothing |
| DoIoTimeouts.SubscribeInTimeIff | wyze/hook.cpp:141-149 | a fiber that registers with a timeout waits, and its timer is on its way exactly if it has not tried before |
| DoIoTimeouts.StaysOnItsWayIff | wyze/hook.cpp:130-149 | while the fiber goes on waiting, every step keeps its timer on its way but the timer's own cancelling with the kernel failing |
| DoIoTimeouts.TimeoutSurvivesIff | wyze/hook.cpp:130-149 | through every run a fiber that waits has its timer on its way exactly if the timer did not try before the event was registered, nor with the kernel failing |
| DoIoTraces.TimeoutCanBeMissed | wyze/hook.cpp:130-149 | so some run leaves a fiber parked for its event with its timer spent |
| SchedRuns.TakeKeepsCounts | wyze/scheduler.cpp:168-226 | in every interleaving the active count is the number of workers between taking a task and its one decrement, and the idle count those in the idle fiber |
| SchedRuns.TakeKeepsExec | wyze/fiber.cpp:142-157 | a fiber runs on exactly one worker when its state says that it runs, and on none otherwise |
| SchedRuns.ScanTakes | wyze/scheduler.cpp:148-171 | a worker takes the first entry that is not pinned to another and does not run, leaves the rest in order, and gives up only if there is none |
| SchedRuns.NothingStranded | wyze/scheduler.cpp:131-246 | in every interleaving without outside work after the stop, when the last worker has left only pinned entries can be queued |
| SchedRuns.StoppingMeans | wyze/scheduler.cpp:248-255 | the test for the end holds exactly when a stop was asked for, nothing is queued and no worker is inside a task |
| SchedRuns.LeavesByTest | wyze/scheduler.cpp:211-236 | a worker's idle fiber ends, and the worker leaves, only after it made the test for the end when that held |
| SchedPlaces.TakeKeepsPlaces | wyze/scheduler.cpp:131-246 | if callers queue no task that is queued, taken or ready, and yield to ready alone, every step keeps each task in one place |
| SchedPlaces.RunKeepsPlaces | wyze/scheduler.cpp:131-246 | the same through every such run |
| SchedPlaces.OnePlace | wyze/scheduler.cpp:148-226 | every task is in exactly one of: with a worker, suspended, finished, or queued and not running |
| SchedPlaces.QueuedWhileRunning | wyze/scheduler.cpp:148-171 | a task may be queued while it runs; then it is queued once, and no worker takes it before it lets go |
| SchedPlaces.HeldByOne | wyze/fiber.cpp:142-157 | no two workers have the same task, and the assertion that a fiber to be resumed does not run never fails |
| SchedPlaces.YieldReadyKeepsIff | wyze/scheduler.cpp:180-185 | a yield to ready keeps each task in one place exactly when it was not queued meanwhile and no other worker has yet to look at it |
| SchedPlaces.TasksStay | wyze/scheduler.cpp:176-226 | no task is forgotten, and one that ended stays ended |
| SchedPlaces.StoppingLeavesReadyIff | wyze/scheduler.cpp:180-185 | while the test for the end holds, a task is ready exactly if a worker has counted it off and is still to put it back |
| SchedTraces.StoppingBeforeRequeue | wyze/scheduler.cpp:180-185 | a run where the test for the end holds while a ready task is still to be put back |
| SchedTraces.QueuedTwice | wyze/scheduler.cpp:176-185 | a run where a fiber woken too early is queued twice, taken by two workers, and the assertion fails |
| SchedTraces.PinnedStranded | wyze/scheduler.cpp:153-157 | a run after which every worker has left and a pinned entry is still queued |
| SchedPins.TakeKeepsCareIff | wyze/scheduler.cpp:131-246 | what is pinned to a worker that will look again stays so exactly when a step queues nothing pinned elsewhere, and no worker that will not look again leaves something pinned to it |
| SchedPins.CaredThroughoutIff | wyze/scheduler.cpp:131-246 | so all that is pinned is looked after all along exactly in the runs of such steps |
| SchedPins.NothingLeftIff | wyze/scheduler.cpp:131-246 | when the last worker has left the queue is empty exactly if all that was pinned is looked after, as after every run of such steps |
| Schedulers.Fiber.SwapIn | wyze/fiber.cpp:142-157 | a fiber is resumed and marked as running unless it has ended |
| Schedulers.Fiber.Finish | wyze/fiber.cpp:218-246 | a fiber ends by return or by exception |
| Schedulers.Scheduler.ScheduleNolock | wyze/scheduler.h:66-75 | the entry goes to the end, and a wake-up is asked for just when the queue was empty |
| Schedulers.Scheduler.Search | wyze/scheduler.cpp:148-171 | the loop stops at the first entry this worker may take, and asks to wake others exactly if it passed one pinned elsewhere |
| Schedulers.Scheduler.TakeTask | wyze/scheduler.cpp:148-171 | taking a task is the scanning step of the state machine |
| Schedulers.Scheduler.RunTask | wyze/scheduler.cpp:177-226 | beginning a task is the step of the state machine: dead fibers are dropped, callbacks get a fiber |
| Schedulers.Scheduler.PutBack | wyze/scheduler.cpp:183-185 | a ready fiber goes back, pinned to nobody; any other does not |
| Schedulers.Scheduler.Stopping | wyze/scheduler.cpp:248-255 | the test for the end is the one of the state machine |
| StoppingIo.MayStopIff | wyze/iomanager.cpp:279-291 | read at one moment the manager's test holds exactly when a stop was asked for and no timer is set, no event registered, nothing queued and no worker inside a task |
| StopRuns.DoKeeps | wyze/iomanager.cpp:279-385 | with the three readings as steps of their own among all steps of workers, tasks, timers and events: timers seen gone and registrations seen ended stay so, whoever does what |
| StopTests.EntersAtTest | wyze/iomanager.cpp:293-325 | a worker that enters its idle fiber makes the test anew before anything else |
| StopTests.TimersReadIff | wyze/iomanager.cpp:279-285 | reading the timers the test goes on exactly if none is set |
| StopTests.EventsReadIff | wyze/iomanager.cpp:279-285 | reading the counter it goes on exactly if no event is registered |
| StopTests.RestPassesIff | wyze/iomanager.cpp:279-325 | the last reading ends the idle fiber exactly if the scheduler's own test holds; otherwise the worker goes on |
| StopHands.EventsAreQueued | wyze/iomanager.cpp:35-47 | in that machine each task that an operation on events resumes goes to the end of the queue, in order, and nothing else does |
| StopHands.TimersAreQueued | wyze/iomanager.cpp:327-332 | a worker gets the callbacks of all timers that are due, in order, and then queues them all |
| StopRuns.PassedIff | wyze/iomanager.cpp:279-291 | when the third reading passes, nothing is queued and no worker is inside a task; and no timer is set and no event registered exactly if nothing made since the first and the second reading is still there |
| StopRuns.LastLeftIff | wyze/iomanager.cpp:293-385 | when the last worker has left, no timer is set and no event registered exactly if nothing made since a worker's readings is still there, whichever worker's |
| StopQuiet.StaysQuietIff | wyze/iomanager.cpp:279-385 | after a test that passed no timer will be set and no event registered in any continuation exactly if there is none, no worker has expired callbacks in hand, and none is still to put back a ready task |
| StopTraces.StopsEarly | wyze/iomanager.cpp:279-285 | a run where the test passes with a timer set, which was made after the timers were read |
| StopTraces.LeftWithEvent | wyze/scheduler.cpp:228-236 | a run where a worker past its idle fiber takes up a fiber put back late, which registers an event and parks, and all workers have left |
| ChunkRuns.ResumeIsOneCall | wyze/http/httpclient_parser.cpp:96-460 | a call that stops inside the line and another on a longer buffer come to the same fields, reports and result as one call |
| ChunkRuns.FeedIsOneCall | wyze/http/http_connection.cpp:129-166 | however the line is cut, the caller ends with what one call on all that was read gives |
| ChunkRuns.ReturnsNread | wyze/http/httpclient_parser.cpp:3289-3308 | on a buffer that is not empty the checks pass and the call returns how far it came, all the way while the line goes on |
| ChunkRuns.HexRoundTrip | wyze/http/httpclient_parser.cpp:159 | the digits of a number in hexadecimal stand for it |
| ChunkDigits.DigitValue | wyze/http/httpclient_parser.cpp:117-135 | a digit is decimal or a letter from a to f, small or capital, and its value is its place among these |
| ChunkDigits.TokenIs | wyze/http/httpclient_parser.cpp:172-330 | names and values are made of letters, decimal digits and fifteen symbols, as the standard has it (section 5.6.2 of RFC 9110) |
| ChunkDigits.SpellsIff | wyze/http/httpclient_parser.cpp:156-168 | digits stand for a number exactly if they spell it, in capital or small letters, with any zeros in front |
| ChunkLines.LoopTail | wyze/http/httpclient_parser.cpp:172-460 | each extension, with or without a value, is reported once, in order, with its place in the buffer |
| ChunkLines.LineIsRead | wyze/http/httpclient_parser.cpp:117-460 | a header line with any digits, any extensions and either line end is read whole and nothing behind it; size, reports and end are exactly those of the line |
| ChunkGrammar.FieldsPointAt | wyze/http/httpclient_parser.cpp:172-460 | there is one report for each extension, in order, and the places in it are those of its name and its value |
| ChunkGrammar.VerdictIff | wyze/http/httpclient_parser.cpp:112-460 | one call on any bytes: the line has ended exactly if they start with a header line, which is what was read; the parser waits exactly if more can make them one; unless a status line starts there, anything else is an error |
| ChunkGrammar.EndIsForgotten | wyze/http/httpclient_parser.cpp:96-116 | a parser that has ended refuses what follows, and called again takes it for digits |
| ChunkGrammar.NothingFails | wyze/http/httpclient_parser.cpp:3289-3308 | a call on nothing at all changes nothing and reports failure |
| ChunkLines.SizeRoundTripIff | wyze/http/httpclient_parser.cpp:156-168 | however it is spelled a size is read back exactly below 2 to the 31st; and which sizes end the body: 0, and those an int holds as 0 or less |
| ChunkParsers.HttpClientParser.Execute | wyze/http/httpclient_parser.cpp:96-460 | the loop over the parser's record computes what the function of fields and buffer does |
| ChunkParsers.HttpClientParser.Advance | wyze/http/httpclient_parser.cpp:117-460 | one byte has the action and the next state of the automaton |
| PoolSpec.TakeKeeps | wyze/http/http_connection.cpp:410-474 | every step of every borrower keeps the counter equal to idle, lent and returning connections, each in one place, the list within its limit, and lending within its limit |
| PoolSpec.RunKeeps | wyze/http/http_connection.cpp:410-474 | the same through every interleaving |
| PoolSpec.Conservation | wyze/http/http_connection.cpp:410-474 | total is idle plus lent when nobody is returning one; the list never exceeds the limit, no connection is in both, and none is lent too often |
| PoolSpec.BorrowPicks | wyze/http/http_connection.cpp:416-433 | the connection handed out is connected and younger than the limit at its look; each before it in the list had gone or was too old, and is dropped and counted off; the rest stay |
| PoolSpec.ReleaseKeepsIff | wyze/http/http_connection.cpp:459-470 | a connection given back is kept exactly if it is connected, the counter within the limit, its age below the limit and its requests, this one included, below theirs |
| PoolSpec.OthersAre | wyze/http/http_connection.cpp:435-474 | a connection is as old as its making; one that is kept goes to the end of the list, one that is not is counted off |
| PoolSpec.AliveTimeIff | wyze/http/http_connection.cpp:401-408 | the stored alive time is the one asked for exactly if the pool was made at a multiple of 2 to the 32nd milliseconds |
| ConnectionPools.HttpConnectionPool.TakeIdle | wyze/http/http_connection.cpp:416-433 | the loop drops what is dead or expired from the front, discounts it, and takes the first connected one younger than the limit |
| ConnectionPools.HttpConnectionPool.Decide | wyze/http/http_connection.cpp:463-467 | a returned connection is kept exactly if it is connected, not expired, below its requests and the counter within the limit |
| ConnectionPools.HttpConnectionPool.Finish | wyze/http/http_connection.cpp:467-474 | it goes to the end of the list, or off the counter |
| LogPattern.NothingElseLost | wyze/log.cpp:322-412 | writing the tokens back loses two characters for each pair of empty braces, the percent sign of each item whose brace is not closed, and nothing else |
| LogPattern.RoundTripIff | wyze/log.cpp:322-412 | a pattern comes back exactly when it has no unclosed brace and no empty braces |
| LogTokens.CutIs | wyze/log.cpp:346-382 | an item is a percent sign with all name characters behind it and, if a brace opens there, what is before the first one that closes |
| LogTokens.ErrorIff | wyze/log.cpp:391-395 | the error flag goes up exactly when some percent sign that begins an item has a brace opening behind its name and none closing after it |
| LogTokens.BadIff | wyze/log.cpp:391-395 | the mark of a bad item is among the tokens exactly when the flag is up |
| LogTokens.WrittenIsRead | wyze/log.cpp:322-412 | tokens that can be told apart come back from the pattern they are written as |
| LogFormatters.LogFormatter.ScanItem | wyze/log.cpp:346-382 | the inner loop with its status finds the item's name, format and end, or that a brace is not closed |
| LogFormatters.LogFormatter.Init | wyze/log.cpp:322-412 | the loops end, with the tokens and the error flag of the pattern |

## Left out

- The copy constructor of a node, `toString`, `toHexString` and the file operations of the byte
  array; `writeFloat` and `writeDouble`, which reinterpret a word.
- The three-argument `read` and uninitialised memory: what lies between the size and a position
  set beyond it is whatever the node held.  The destructors and `delete`: freed nodes and
  connections are dropped.
- Overflow of `size_t` sums, of `now + ms`, and of the 32-bit counters: numbers are unbounded
  there, and explicit where the code depends on their width (codings, varints, zigzag, prefix
  lengths, clock rollover, chunk sizes, the pool's time).
- The length that a byte array is asked to receive or send is at least 1, since the socket is
  handed the first piece.
- Empty timer callbacks, which would make a timer that cannot be cancelled.
- Several threads in one timer operation: each is one step, taken under the manager's lock.  Adding
  and expiry read the clock before it, so their reading may be older than that of the step before.
  The flag that `getNextTimer` clears under a read lock is changed in one step.
- `IOManager::tickle`, the waiting time of `epoll_wait`, and when a sleeping thread wakes: only
  that it was asked to.
- The tickle pipe among the descriptors, and negative descriptors.
- `addEvent` with its resizing is one step, except in `ResizeRace`.  The kernel's interest changes
  by `epoll_ctl` and by closing only.
- The early returns of `do_io` (no hooks, unknown, closed or user-nonblocking descriptors) and the
  repeated call after an interruption: a call returns or would block.  Its loop is given as steps
  of a fiber, since it gives way in the middle; there is no method for it.
- Other users of `delEvent` or `addEvent` on a descriptor and direction that a fiber waits on.
- Saving and restoring of fiber contexts: a fiber gives way in one step, although it is marked
  before its context is saved.  `Fiber::call` and `back` of the making thread's fiber: it starts
  the loop when it stops the scheduler.
- `Fiber::reset`, which the scheduler does not call.
- `Scheduler::start` and the joining of threads; the workers' loop is given as steps, one method
  for each stretch under or between the locks.
- At the end of an I/O manager: what is submitted or registered from outside after the stop; what a
  fiber does between registering an event and giving way; and which task a timer's callback
  becomes, beyond its number (fibers and callbacks are numbered apart).
- StopQuiet.StaysQuietIff: asks that the callbacks a worker has in hand have not ended, as is so of
  new callbacks; the machine knows them by number, and an ended number is dropped.
- Scheduling an empty task, which queues nothing.
- Lines that start with an H: the parser then reads a status line, and those states are left out,
  with the headers that follow.  Callbacks are recorded, not called.
- Looking up the host and connecting: a connection is made or not.  Destroying a connection and
  discounting it are two steps; what happens to connections after the pool is gone.
- The items that a log pattern's names stand for.
- HTTP messages and bodies, the request parser, URIs, crypto, configuration, daemons and servlets.
