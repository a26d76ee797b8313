# Verified model of httpancake's reactor, buffers and log

This project models the machinery under the HTTP layer of the httpancake web
server and proves what that machinery is for. It covers the timer queue, the
loop's task queue and wakeup, the asynchronous log, the byte buffer and its line
extraction, the output path of a connection, the poller, the wheel that closes
idle connections, the removal of a connection across loops, and integer
formatting. `dafny verify dfyconfig.toml` checks everything.

## How it is organised

| file | what it holds |
|---|---|
| TimerSchedule.dfy, TimerCancels.dfy | what a timer queue means: ids, timers, queued functors, the turns of the loop; when a cancellation is final |
| TimerEffects.dfy, TimerOrders.dfy | what a call comes to in the steps of the loop; what a program asks of the queue, turn by turn, and the steps that answer it |
| TimerMemory.dfy | the two indexes and the ownership of every Timer, one lemma per change the code makes |
| TimerQueue.dfy | the class TimerQueue, proved against TimerSchedule |
| LoopProtocol.dfy, EventLoop.dfy | the interleaving of a loop with its producers; the class EventLoop, which makes only its steps |
| LogProtocol.dfy, LogProgress.dfy, NonBlockingLog.dfy | the interleaving of appenders and the log's writer; what the writer gets done; the class NonBlockingLog, which makes only its steps |
| FixBuffer.dfy, Decimal.dfy, LogStream.dfy | fixed buffers and the formatting of integers |
| Strings.dfy, Lines.dfy, ByteBuffer.dfy | lines in a stream of bytes; the class Buffer |
| Connection.dfy, TcpConnection.dfy | the interleaving on one connection's output; the class TcpConnection, built on Buffer, Handler and Poller |
| Poller.dfy | the classes Handler and Poller and the kernel's interest set |
| IdleWheel.dfy | the table of last activity; the wheel of buckets that implements it |
| Removal.dfy, RemovalProgress.dfy | connections taken down across loops, safely and in the end |

Concurrency is modelled by steps: a section under a mutex, one system call, or one
assignment to a shared flag is one step, and the theorems hold for every legal
sequence of steps of any number of threads. The classes take the form of the
source. Where a callback or another thread may act in the middle of a method, the
method has a parameter that lists what happens there, and its contract holds for
every such list. Each system of steps has theorems that compute what must have
happened, such as the tasks submitted or the messages sent, from the steps alone.

Timers live in an explicit map from addresses to Timers, so that an address can be
used again after a deletion and a use or a deletion of a Timer that no longer
exists is a proof failure. Time is one clock in microseconds. A repeating timer has
an interval in whole microseconds, which may be 0.

`hide` statements keep the bodies of large predicates out of proofs that do not
need them.

## What the proofs found

- A cancellation on the loop thread is final exactly when every insertion of the
  timer that is still queued, and that it overtakes, has a cancellation queued behind
  it in the same round (TimerCancels.CancelIsFinal), and, when a callback makes it,
  the timer is not a member of the same batch whose turn is still to come: such a
  member runs all the same (TimerCancels.CancelInBatchIsFinal). One queued by another
  thread is final exactly when the timer cannot be scheduled at the next call of
  handle_read (TimerCancels.QueuedCancelIsFinal).
- The descriptor of the timer queue covers the earliest timer whatever the
  expirations are, also for those at or before time 0, for which `reset` sets
  nothing (TimerQueue.cpp:178): `add_timer_in_loop` has set it before.
- A wakeup is lost exactly when the loop thread queues something outside `loop()`
  and nobody else writes the eventfd (LoopProtocol.LostWakeupExactly); the task then
  waits for another event or for the 500 ms timeout of poll (Poller.cpp:14). A stop takes
  effect exactly when it is requested after `loop()` was last called
  (LoopProtocol.StopTakesEffectExactly); one requested before is forgotten.
- The log's second spare buffer is never refilled (LogProtocol.SpareNeverReplenished),
  and the log fails exactly on an append after the final flush or on a message as
  long as a whole buffer (LogProtocol.FaultExactly).
- A half-close is graceful exactly when no send of another thread is under way when
  SHUT_WR is issued (Connection.GracefulExactly).
- The first close notification ends the whole process exactly when the connection has
  been shut down before (Connection.CloseExitsExactly), which includes every idle
  connection that the wheel has shut down and whose client then closes.
- The tests `n < sizeof(one)` in EventLoop.cpp:75 and 86 compare an int with a size_t,
  so a failed read or write of the eventfd, which returns -1, passes them
  (EventLoops.EventLoop.HandleWakeup). The read does not fail.
- An empty result of `peek_line` or `retrieve_line_as_string` does not tell an empty
  line from a missing one (Lines.EmptyFirstLine).
- The assertion at Poller.cpp:126 is always true as written; the one it was meant to
  be holds too (Pollers.Poller.RemoveHandler).

## Main results

- Timers: TimerQueues.TimerQueue.HandleRead and Live, TimerSchedule.LeavesInBatch,
  TimerEffects.PostedTakesEffect, TimerCancels.CancelIsFinal, QueuedCancelIsFinal and CancelInBatchIsFinal.
- Event loop: LoopProtocol.ExecutedInLockOrder, LostWakeupExactly,
  StopTakesEffectExactly, RoundRunsTheSwappedTasks and NextRoundExecutesAll, and
  EventLoops.EventLoop.Loop.
- Log: LogProtocol.Conservation, FaultExactly and Recycling,
  LogProgress.TurnWritesAll and StopFlushesAll, and NonBlockingLogs.NonBlockingLog.ThreadFunc.
- Buffer and lines: the contracts of ByteBuffers.Buffer, Lines.OnlySplit and
  Lines.ChunkingDoesNotMatter.
- Connection: Connection.OutputConservation, GracefulExactly, ShutdownIsNotForgotten
  and CloseExitsExactly, and the contracts of TcpConnections.TcpConnection.
- Poller: Pollers.Poller.UpdateHandler, RemoveHandler and Poll.
- Idle wheel: IdleTable.WatchedFromRun and ShutDownExactly, and
  IdleWheels.IdleWheel.OnTimer.
- Removal across loops: Removal.CollectedHandlersAreSafe and DestroyedForGood,
  RemovalProgress.CloseLeadsToDestroyed.
- Formatting: Decimal.RoundTrip and OnlyText, and LogStreams.Convert.

## Model

| member | source | states |
|---|---|---|
| TimerSchedule.TraceEffect | src/reactor/TimerQueue.cpp:130-131 | while a batch runs, a timer known before it leaves the schedule only by a cancellation and cannot come back |
| TimerSchedule.GoneNeverRuns | src/reactor/TimerQueue.cpp:119-135 | once a timer is neither scheduled nor queued, no later step of any run calls its callback |
| TimerSchedule.RunsAgain | src/reactor/TimerQueue.cpp:130-131 | in one batch a timer has its turn after a given point if and only if it is due and has not had it before that point |
| TimerSchedule.LeavesInBatch | src/reactor/TimerQueue.cpp:158-173 | one handle_read removes a scheduled timer if and only if it was cancelled during the batch or was an expired one-shot; an expired survivor expires next at now plus its interval, any other is unchanged |
| TimerEffects.PostedTakesEffect | src/reactor/TimerQueue.cpp:96-104 | from any state, a timer another thread adds is scheduled exactly as it was given, and one it cancels is not scheduled, at the end of the next round that swaps the functor out |
| TimerEffects.LastFunctorTakesEffect | src/reactor/EventLoop.cpp:104-105 | a round runs to its end and its last functor has had its effect |
| TimerEffects.AddedIsScheduled | src/reactor/TimerQueue.cpp:106-117 | a timer added on the loop thread is scheduled as it was given unless it is cancelled afterwards |
| TimerEffects.AddedInBatch | src/reactor/TimerQueue.cpp:119-135 | so it is after the batch in whose callback it was added |
| TimerOrders.EveryCallIsAsked | src/reactor/TimerQueue.hpp:40-44 | no call of a callback, handler or task is dropped or moved |
| TimerCancels.NeverRunsExactly | src/reactor/EventLoop.cpp:93-120 | from any state, no continuation from any time on runs the timer if and only if it cannot be scheduled at a later call of handle_read: not now, not after the functors being run, not after those queued behind them |
| TimerCancels.CanRunRuns | src/reactor/EventLoop.cpp:93-120 | otherwise some continuation that keeps the rounds of the loop together runs it, at or after any given time |
| TimerCancels.CancelIsFinal | src/reactor/TimerQueue.cpp:215-233 | after a cancel on the loop thread between two batches no continuation runs the timer, if and only if every queued insertion of it, in the round being run or behind it, has a cancellation behind it in the same round |
| TimerCancels.QueuedCancelIsFinal | src/reactor/TimerQueue.cpp:208-213 | after a cancel on another thread no continuation runs the timer, if and only if it cannot be scheduled at the next call of handle_read: a round comes before that call, or it is not scheduled now, or the functors being run leave it out |
| TimerCancels.CancelInBatchIsFinal | src/reactor/TimerQueue.cpp:130-131 | after a cancel made by a callback, neither any rest of the batch nor any continuation runs the timer, if and only if every queued insertion has a cancellation behind it and the timer is not a member of the batch whose turn is to come |
| TimerCancels.CancelledMemberRuns | src/reactor/TimerQueue.cpp:130-131 | the shortest batch in which a cancelled timer still runs |
| TimerCancels.CancelQueuedBehind | src/reactor/EventLoop.cpp:99-105 | a cancel that overtakes a queued insertion is final when a cancellation is queued behind the insertion |
| TimerMemory.Allocate | src/reactor/TimerQueue.cpp:100 | a new Timer at any unused address, even one used before, keeps indexes, ownership and numbering; its number was never issued |
| TimerMemory.Release | src/reactor/TimerQueue.cpp:171 | a Timer owned by a local variable exists, was not freed before, and its deletion changes nothing scheduled or queued |
| TimerMemory.Restart | src/reactor/Timer.cpp:6-12 | restarting a Timer outside the indexes keeps every invariant and changes nothing scheduled or queued |
| TimerMemory.Insert | src/reactor/TimerQueue.cpp:182-206 | inserting at the ordered position keeps both indexes in agreement and adds exactly this timer to the schedule; neither index had it |
| TimerMemory.Erase | src/reactor/TimerQueue.cpp:221-227 | erasing an active timer from both indexes and deleting it removes exactly it from the schedule, and it had not been freed |
| TimerMemory.StillActive | src/reactor/TimerQueue.cpp:147-152 | each expired timer is found in active_timers_ when its turn comes |
| TimerMemory.TakeFirst | src/reactor/TimerQueue.cpp:143-152 | taking a prefix of the expiration index out of both indexes keeps the invariants and hands those timers to the batch |
| TimerMemory.Expire | src/reactor/TimerQueue.cpp:139-143 | the prefix cut off at the sentry is exactly the set of timers with expiration at most now |
| TimerMemory.PostAdd | src/reactor/TimerQueue.cpp:102 | queueing an insertion moves the ownership of the Timer to the pending list |
| TimerMemory.PostCancel | src/reactor/TimerQueue.cpp:208-213 | queueing a cancellation changes nothing scheduled and owns nothing |
| TimerMemory.TakeFunctor | src/reactor/EventLoop.cpp:104-105 | the oldest functor of the round finds its Timer alive and owned by nobody else |
| TimerMemory.TurnSwap | src/reactor/EventLoop.cpp:98-102 | swapping the list out makes every queued functor part of the round |
| TimerMemory.TurnEnd | src/reactor/EventLoop.cpp:104-107 | a round ends only with all its functors run |
| TimerMemory.SameSize | src/reactor/TimerQueue.cpp:204 | the two indexes have the same size |
| TimerMemory.BackExtend | src/reactor/TimerQueue.cpp:161-173 | one more entry of the batch puts its timer back if and only if it repeats and is not in canceling_timers_ |
| TimerMemory.BatchOrder | src/reactor/TimerQueue.cpp:130-131 | the batch is ordered by expiration, then address, and holds exactly the due timers |
| TimerMemory.DueInOrder | src/reactor/TimerQueue.cpp:137-156 | the batch holds each active timer with expiration at most now, once, by nondecreasing expiration |
| TimerMemory.EndOfBatch | src/reactor/TimerQueue.cpp:119-135 | if the callbacks ran in index order and canceling_timers_ holds what they cancelled, then what reset puts back is one legal step of the schedule |
| TimerQueues.LowerBound | src/reactor/TimerQueue.cpp:141 | the index found splits the ordered set at the entry |
| TimerQueues.DueCount | src/reactor/TimerQueue.cpp:140-142 | the entries before the index found are exactly those with time at most now, so the assertion holds |
| TimerQueues.TimerQueue.constructor | src/reactor/TimerQueue.cpp:78-87 | a new queue is empty, consistent and needs no descriptor |
| TimerQueues.TimerQueue.HowMuchTimeFromNow | src/reactor/TimerQueue.cpp:32-44 | the timespec is never zero, well formed, and equals the delay clamped below at 100 microseconds |
| TimerQueues.TimerQueue.ResetTimerfd | src/reactor/TimerQueue.cpp:53-72 | the descriptor expires at the later of the expiration and 100 microseconds from now |
| TimerQueues.TimerQueue.NewTimer | src/reactor/Timer.hpp:11-17 | the Timer gets an address not in use and a number not issued before; nothing scheduled or queued changes |
| TimerQueues.TimerQueue.Delete | src/reactor/TimerQueue.cpp:225 | only a Timer that exists and whose number was not freed can be deleted |
| TimerQueues.TimerQueue.InsertTimer | src/reactor/TimerQueue.cpp:182-206 | the schedule gains exactly this timer, all assertions hold, and the result says whether the earliest time changed |
| TimerQueues.TimerQueue.AddTimerInLoop | src/reactor/TimerQueue.cpp:106-117 | the timer is scheduled; the descriptor is set for it exactly if it is now the earliest, and still covers the earliest timer |
| TimerQueues.TimerQueue.EraseTimer | src/reactor/TimerQueue.cpp:221-227 | exactly the named timer leaves the schedule and its Timer is deleted; the earliest time does not move down |
| TimerQueues.TimerQueue.RememberCancel | src/reactor/TimerQueue.cpp:228-232 | a cancel of an inactive id changes nothing scheduled and is remembered exactly during a batch |
| TimerQueues.TimerQueue.CancelInLoop | src/reactor/TimerQueue.cpp:215-233 | exactly the timer with this address and number is cancelled, a stale id touches nothing, and an inactive id is remembered only during a batch |
| TimerQueues.TimerQueue.PostAddTimer | src/reactor/EventLoop.cpp:57-69 | add_timer on another thread creates exactly the timer asked for, under a fresh id, and queues its insertion behind all others |
| TimerQueues.TimerQueue.PostCancelTimer | src/reactor/TimerQueue.cpp:208-213 | cancel on another thread queues the cancellation behind all others and changes nothing else |
| TimerQueues.TimerQueue.AddTimer | src/reactor/TimerQueue.cpp:96-104 | add_timer on the loop thread creates and indexes exactly the timer asked for, at once, under a fresh id, and keeps the descriptor covering the earliest timer |
| TimerQueues.TimerQueue.RunFunctor | src/reactor/EventLoop.cpp:104-105 | running the oldest queued request is one Pop of the schedule: the bound Timer is indexed as it is, or the bound id leaves the index |
| TimerQueues.TimerQueue.EraseActive | src/reactor/TimerQueue.cpp:147-152 | every erase from active_timers_ finds its element, and exactly the batch leaves |
| TimerQueues.TimerQueue.GetExpired | src/reactor/TimerQueue.cpp:137-156 | returns exactly the due timers in index order and removes exactly them from the schedule; all assertions hold |
| TimerQueues.TimerQueue.RestartTimer | src/reactor/TimerQueue.cpp:164-168 | the timer is scheduled again at now plus its interval |
| TimerQueues.TimerQueue.DropTimer | src/reactor/TimerQueue.cpp:169-172 | the timer is deleted and the schedule does not change |
| TimerQueues.TimerQueue.ResetOne | src/reactor/TimerQueue.cpp:161-173 | a repeating timer not cancelled comes back at now plus its interval, any other is freed |
| TimerQueues.TimerQueue.ArmForEarliest | src/reactor/TimerQueue.cpp:175-179 | afterwards the descriptor covers the earliest timer, whatever its expiration, and it is set only for a positive one |
| TimerQueues.TimerQueue.Reset | src/reactor/TimerQueue.cpp:158-180 | exactly the uncancelled repeating timers of the batch are back, no Timer of the batch is leaked, and the descriptor covers the earliest |
| TimerQueues.TimerQueue.Elsewhere | src/reactor/TimerQueue.hpp:40-44 | a call of another thread, or the clock, changes nothing on the loop thread and has exactly its effect |
| TimerQueues.TimerQueue.CancelNow | src/reactor/TimerQueue.cpp:215-233 | a cancel on the loop thread erases exactly its id, and during a batch remembers exactly an id that is not active |
| TimerQueues.TimerQueue.Perform | src/reactor/TimerQueue.hpp:40-44 | each call, on this or another thread, makes exactly the event it asks for and has exactly its effect in memory, with that timer or id, and leaves the batch untouched |
| TimerQueues.TimerQueue.RunCallback | src/reactor/Timer.hpp:23 | the events of a callback are its calls, one by one, in order; canceling_timers_ records exactly the batch members cancelled |
| TimerQueues.TimerQueue.RunMember | src/reactor/TimerQueue.cpp:131 | one callback of the batch runs, followed by exactly what it does, and its Timer still exists |
| TimerQueues.TimerQueue.RunBatch | src/reactor/TimerQueue.cpp:130-131 | the callbacks of the batch run once each, in order, each followed by exactly its calls, on Timers that still exist |
| TimerQueues.TimerQueue.RunExpired | src/reactor/TimerQueue.cpp:127-134 | from the batch taken out to the descriptor set again, the schedule makes one legal Batch step |
| TimerQueues.TimerQueue.HandleRead | src/reactor/TimerQueue.cpp:119-135 | for any behaviour of the callbacks the schedule makes one legal Batch step whose trace is the active timers with expiration at most now, once each, earliest first, each followed by exactly the calls its callback makes; afterwards the descriptor covers the earliest timer, no expiry up to then is left unread, and nothing is held |
| TimerQueues.TimerQueue.Destroy | src/reactor/TimerQueue.cpp:89-94 | each scheduled Timer is deleted once; what remains in memory is exactly the timers still queued for insertion |
| TimerQueues.TimerQueue.Code | src/reactor/TimerQueue.hpp:40-44 | calls made while no batch is running are steps of the schedule, one by one |
| TimerQueues.TimerQueue.Handlers | src/reactor/EventLoop.cpp:115-117 | the handlers of a turn make their steps in order, handle_read at most once among them |
| TimerQueues.TimerQueue.RunFuncs | src/reactor/EventLoop.cpp:104-105 | the round runs exactly the functors swapped out, with other code around each |
| TimerQueues.TimerQueue.DoRound | src/reactor/EventLoop.cpp:93-108 | a round is a swap, exactly the functors queued before it, and a return |
| TimerQueues.TimerQueue.OneTurn | src/reactor/EventLoop.cpp:113-120 | one turn of loop() makes exactly the steps it is asked for, in order |
| TimerQueues.TimerQueue.Live | src/reactor/EventLoop.cpp:110-122 | any life of the queue under loop() makes exactly the steps the program asks for, call by call and turn by turn; they are a legal run of the schedule, in which every batch runs exactly its due timers once each, earliest first, at times that never go back; all invariants hold and no timer is left without the descriptor set for it |
| LoopProtocol.StateFromRun | src/reactor/EventLoop.cpp:57-91 | tasks queued, the eventfd counter and the threads inside queueInLoop and stopLoop are what the steps made determine |
| LoopProtocol.ExecutedInLockOrder | src/reactor/EventLoop.cpp:57-108 | over every interleaving, executed tasks, rest of the batch and pending tasks make up the tasks any thread has handed to queueInLoop, in lock order, and as many have been executed as executions took place |
| LoopProtocol.CallingExactly | src/reactor/EventLoop.cpp:93-108 | callingPendingunctors_ is set exactly inside doPendingFuncs_ |
| LoopProtocol.LostWakeupExactly | src/reactor/EventLoop.cpp:57-91 | tasks wait unannounced while poll may sleep if and only if the loop thread queued one outside loop(), before its first call or between two calls, no poll has returned since and nobody else has written the eventfd |
| LoopProtocol.NoLostWakeup | src/reactor/EventLoop.cpp:65-68 | without queueing outside loop() on its own thread a waiting task is always announced by the counter or by a thread about to write it |
| LoopProtocol.EarlyQueueIsNotAnnounced | src/reactor/EventLoop.cpp:110-115 | a run in which it is not: the loop thread queues a task and then starts the loop |
| LoopProtocol.HandleWakeupNeverFails | src/reactor/EventLoop.cpp:82-91 | handleWakeup never finds the counter at zero, so its read does not fail |
| LoopProtocol.StopTakesEffectExactly | src/reactor/EventLoop.cpp:110-129 | loop() leaves its while if and only if somebody has called stopLoop since loop() was last called, and a loop that may sleep on such a request has it announced |
| LoopProtocol.NextRoundStops | src/reactor/EventLoop.cpp:113-129 | whenever the loop sleeps with a stop requested and no thread inside stopLoop, its own next round is enabled by the wakeup and ends the loop |
| LoopProtocol.StopBeforeLoopIsForgotten | src/reactor/EventLoop.cpp:110-113 | the shortest run in which a stop requested before loop() is forgotten |
| LoopProtocol.RoundIsComplete | src/reactor/EventLoop.cpp:93-108 | at the end of every round exactly the tasks swapped out in it have been executed |
| LoopProtocol.RoundRunsTheSwappedTasks | src/reactor/EventLoop.cpp:104-105 | during a round each execution takes the next swapped task and nothing adds to them, so a round has as many executions as tasks at the swap |
| LoopProtocol.NextRoundExecutesAll | src/reactor/EventLoop.cpp:113-120 | whenever the loop sleeps with tasks queued and producers done, its own next round is enabled by the wakeup and executes every task submitted so far |
| EventLoops.EventLoop.Other | src/reactor/EventLoop.cpp:57-80 | a statement of another thread happens exactly if it can: a task goes behind all others, the eventfd is written once, or the stop flag is set |
| EventLoops.EventLoop.Interfere | src/reactor/EventLoop.cpp:57-80 | of the statements of other threads exactly those happen that can, in order |
| EventLoops.EveryCallIsAsked | src/reactor/EventLoop.cpp:49-69 | no call of a handler or task is dropped or moved |
| EventLoops.EventLoop.QueueInLoop | src/reactor/EventLoop.cpp:57-69 | wherever code of the program runs on the loop thread, also outside loop(), the task is queued behind all others and, only inside doPendingFuncs_, the eventfd is written after that, with other threads acting in between |
| EventLoops.EventLoop.Run | src/reactor/EventLoop.cpp:49-69 | the body of a handler or task makes exactly the steps its calls ask for, in order |
| EventLoops.EventLoop.HandleWakeup | src/reactor/EventLoop.cpp:82-91 | reads a positive counter down to zero and never exits the process |
| EventLoops.EventLoop.SwapOut | src/reactor/EventLoop.cpp:95-102 | takes everything queued up to the lock, and sets the flag first |
| EventLoops.EventLoop.RunBatch | src/reactor/EventLoop.cpp:104-105 | executes the swapped functors once each, in order, each with exactly the steps it asks for |
| EventLoops.EventLoop.DoPendingFuncs | src/reactor/EventLoop.cpp:93-108 | executes exactly the functors present at the swap, whatever they queue meanwhile, and terminates |
| EventLoops.EventLoop.Dispatch | src/reactor/EventLoop.cpp:116-117 | the handlers collected by poll make exactly the steps they ask for, and the wakeup handler runs among them if and only if the eventfd was reported |
| EventLoops.EventLoop.OneTurn | src/reactor/EventLoop.cpp:113-120 | the turn ends the loop if and only if its test fails, and otherwise the loop thread's own steps are exactly test, poll, handlers, swap, functors and return |
| EventLoops.EventLoop.Turns | src/reactor/EventLoop.cpp:113-120 | the while makes exactly the steps of its turns and leaves only from a test that finds a stop requested |
| EventLoops.EventLoop.Loop | src/reactor/EventLoop.cpp:110-122 | extends the run it finds by steps of the protocol, its own being exactly Start and those of its turns; it returns only when its test finds a stop requested since then, and otherwise completes every turn, so every theorem about the protocol holds of the code |
| LogProtocol.FaultExactly | src/logging/NonBlockingLog.cpp:48-83 | a null dereference or buffer overrun is reached if and only if some append comes after the final flush or is as long as a whole buffer |
| LogProtocol.StateFromRun | src/logging/NonBlockingLog.cpp:40-83 | every message appended is in the log, and the flag is clear exactly if stop() was called |
| LogProtocol.Conservation | src/logging/NonBlockingLog.cpp:98-194 | file, buffers being written, full buffers and current buffer always make up the messages appended, in lock order; when the writer is done the file alone does |
| LogProtocol.StopEndsTheLoop | src/logging/NonBlockingLog.cpp:107 | the writer leaves its loop for the final flush exactly if stop() has been called |
| LogProtocol.WaitsExactlyWhenEmpty | src/logging/NonBlockingLog.cpp:112-145 | the writer waits exactly when buffers_ is empty |
| LogProgress.TurnWritesAll | src/logging/NonBlockingLog.cpp:107-178 | one undisturbed turn of the writer writes every message appended before it |
| LogProgress.StopFlushesAll | src/logging/NonBlockingLog.cpp:40-46 | after stop() the writer on its own comes to its end with every message in the file, so the join returns |
| LogProtocol.Recycling | src/logging/NonBlockingLog.cpp:145-177 | until the flush the current buffer is there with room for a NUL, newBuffer1 is there at the head of the loop, spares are empty or null, all buffers in transit are non-null |
| LogProtocol.ProperIfQuietAfterStop | src/logging/NonBlockingLog.cpp:40-46 | no append after stop() and no message as long as a buffer suffice for proper use |
| LogProtocol.SpareNeverReplenished | src/logging/NonBlockingLog.cpp:165-175 | once newBuffer2 is null it stays null for ever, and so does nextBuffer_ |
| NonBlockingLogs.NonBlockingLog.Append | src/logging/NonBlockingLog.cpp:48-83 | a message that fits goes into the current buffer and leaves the others alone; otherwise the current buffer joins the full ones and the message starts the spare or a new one |
| NonBlockingLogs.NonBlockingLog.Stop | src/logging/NonBlockingLog.cpp:40-46 | the flag the writer tests is clear |
| NonBlockingLogs.NonBlockingLog.TakeBuffers | src/logging/NonBlockingLog.cpp:112-151 | takes all full buffers and the current one, leaves the writer's own in their place and a spare if the writer had one, with other threads acting during the wait |
| NonBlockingLogs.NonBlockingLog.WriteBack | src/logging/NonBlockingLog.cpp:159 | one buffer goes to the file and is empty |
| NonBlockingLogs.NonBlockingLog.WriteBackAll | src/logging/NonBlockingLog.cpp:156-160 | appends the texts of all taken buffers to the file, in order, none of them null, while others append |
| NonBlockingLogs.NonBlockingLog.Reuse | src/logging/NonBlockingLog.cpp:162-177 | both assertions hold and newBuffer1 is an empty buffer again |
| NonBlockingLogs.NonBlockingLog.FinalWriteBack | src/logging/NonBlockingLog.cpp:187-191 | appends the texts of all buffers of the flush to the file, in order |
| NonBlockingLogs.NonBlockingLog.FinalFlush | src/logging/NonBlockingLog.cpp:181-191 | after it the file holds every message |
| NonBlockingLogs.NonBlockingLog.OneTurn | src/logging/NonBlockingLog.cpp:107-178 | the turn ends the thread exactly if stop() was called before its test |
| NonBlockingLogs.NonBlockingLog.ThreadFunc | src/logging/NonBlockingLog.cpp:98-194 | extends the run it finds by steps of the protocol; it returns if stop() is called before one of its tests, and then the file is all messages appended, in lock order; otherwise every turn has been completed |
| FixBuffers.FixBuffer.constructor | src/logging/FixBuffer.hpp:15-21 | a new buffer is empty |
| FixBuffers.FixBuffer.Append | src/logging/FixBuffer.hpp:43-50 | a message shorter than the free space is appended and followed by a NUL inside the array |
| FixBuffers.FixBuffer.GetContent | src/logging/FixBuffer.hpp:36-41 | returns the text and empties the buffer |
| FixBuffers.FixBuffer.Add | src/logging/FixBuffer.hpp:34 | characters written at current() become part of the text |
| Decimal.RoundTrip | src/logging/LogStream.cpp:14-33 | parsing the text of any integer gives it back, and the text is canonical: no leading zeros, a minus for negatives only |
| Decimal.OnlyText | src/logging/LogStream.cpp:14-33 | every canonical text is the text of the value it parses to |
| Decimal.FitsInTwenty | src/logging/LogStream.cpp:38 | every value of the supported types has at most 20 characters |
| LogStreams.MirroredTable | src/logging/LogStream.cpp:11-12 | the table gives the digit of the absolute value for a remainder of either sign |
| LogStreams.LeastDigit | src/logging/LogStream.cpp:21-23 | truncated division splits the least significant digit off the absolute value, also for negatives |
| LogStreams.Reverse | src/logging/LogStream.cpp:30 | reverses exactly the given range in place |
| LogStreams.PutDigits | src/logging/LogStream.cpp:17-24 | the loop terminates with the digits in reverse and writes nothing else |
| LogStreams.Convert | src/logging/LogStream.cpp:14-33 | writes the decimal text and a NUL, at most 21 characters, and nothing else |
| LogStreams.FormatInteger | src/logging/LogStream.cpp:35-43 | appends the decimal text if 32 characters are free and otherwise does nothing |
| Lines.EmptyFirstLine | src/network/Buffer.hpp:59-68 | an empty result means exactly that there is no complete line or that the first one is empty |
| Lines.LinesRebuild | src/network/Buffer.hpp:98-110 | the lines with their line feeds, then the remainder, rebuild the stream, and none of them contains a line feed |
| Lines.OnlySplit | src/network/Buffer.hpp:98-110 | no other split into lines and remainder exists |
| Lines.DrainThenAppend | src/network/Buffer.hpp:98-128 | draining complete lines before more bytes arrive changes neither the lines nor the remainder |
| Lines.ChunkingDoesNotMatter | src/network/Buffer.hpp:98-128 | for any cutting of the stream into chunks, draining after each chunk yields the lines and remainder of the whole |
| ByteBuffers.Buffer.constructor | src/network/Buffer.hpp:35-41 | a new buffer is the empty queue with 8 bytes to prepend |
| ByteBuffers.Buffer.Retrieve | src/network/Buffer.hpp:70-75 | drops that many bytes from the front of the queue |
| ByteBuffers.Buffer.RetrieveAll | src/network/Buffer.hpp:84-88 | the queue is empty and 8 bytes can be prepended |
| ByteBuffers.Buffer.RetrieveAsString | src/network/Buffer.hpp:90-95 | returns the whole queue and empties it |
| ByteBuffers.Buffer.RetrieveLineAsString | src/network/Buffer.hpp:98-110 | takes exactly the first complete line with its line feed, as peek_line showed it, or nothing |
| ByteBuffers.Buffer.Resize | src/network/Buffer.hpp:179 | the queue survives the growth of the array |
| ByteBuffers.Buffer.MoveDown | src/network/Buffer.hpp:185-191 | the overlapping copy to the front keeps the queue; the second assertion holds |
| ByteBuffers.Buffer.MakeSpace | src/network/Buffer.hpp:172-193 | both assertions hold, enough bytes are writable afterwards, the queue is unchanged, and the array is replaced if and only if the bytes do not fit behind the readable ones |
| ByteBuffers.Buffer.EnsureWritableBytes | src/network/Buffer.hpp:130-136 | its assertion holds and the queue is unchanged |
| ByteBuffers.Buffer.Append | src/network/Buffer.hpp:118-123 | the bytes follow the queue |
| ByteBuffers.Buffer.Prepend | src/network/Buffer.hpp:146-152 | the bytes precede the queue |
| ByteBuffers.Buffer.Scatter | src/network/Buffer.cpp:28-36 | bytes put behind the readable ones and, beyond the array, into the stack buffer follow the queue in order |
| ByteBuffers.Buffer.ReadFd | src/network/Buffer.cpp:7-40 | received bytes are appended wherever the scatter read splits them; an error changes nothing |
| Connection.StateFromRun | src/network/TcpConnection.cpp:45-77 | functors queued, messages sent and threads inside shutdown are what the steps made determine |
| Connection.SendAdds | src/network/TcpConnection.cpp:184-209 | one sendInLoop adds exactly its message to the bytes taken and kept |
| Connection.WriteMoves | src/network/TcpConnection.cpp:151-177 | one handleWrite moves exactly the bytes written out of the buffer and issues SHUT_WR exactly if it drains a connection being shut down |
| Connection.OutputConservation | src/network/TcpConnection.cpp:151-209 | over every interleaving and every short write or error, bytes taken by the kernel and the output buffer make up the messages whose sendInLoop took place, in order, and until the close write interest is on if and only if bytes wait |
| Connection.KernelTakesExactly | src/network/TcpConnection.cpp:155-159 | the kernel takes exactly the bytes each attempted write reports, of a message only when nothing is kept |
| Connection.GracefulExactly | src/network/TcpConnection.cpp:165-174 | in any state with SHUT_WR issued and nothing written after it, every byte sent has been written, and no continuation writes after it if and only if no other thread is between the test in send and its push and no send waits in the pending list |
| Connection.GracefulHalfClose | src/network/TcpConnection.cpp:45-77 | with sends on the loop thread and shutdown from any thread the half-close is graceful |
| Connection.QueuedSendCanBeLate | src/network/TcpConnection.cpp:60-62 | a run in which a send tested before the shutdown writes after SHUT_WR |
| Connection.ShutdownIsNotForgotten | src/network/TcpConnection.cpp:211-217 | once the shutdown's functors have run and the last byte is out SHUT_WR has been issued, and the write that drains the buffer issues it |
| Connection.CloseExitsExactly | src/network/TcpConnection.cpp:139-149 | the first close notification exits the process if and only if shutdown has been called on the connection before |
| TcpConnections.TcpConnection.constructor | src/network/TcpConnection.cpp:8-38 | a new connection has nothing to write and no write interest |
| TcpConnections.TcpConnection.SendInLoop | src/network/TcpConnection.cpp:184-209 | on the real buffer and handler, for any result of the write, exactly the message is added to the bytes taken and kept, and write interest is on if and only if bytes are kept |
| TcpConnections.TcpConnection.Keep | src/network/TcpConnection.cpp:202-207 | the unwritten bytes follow those already kept and the handler watches for writability |
| TcpConnections.TcpConnection.ShutdownInLoop | src/network/TcpConnection.cpp:211-217 | SHUT_WR is issued exactly without write interest |
| TcpConnections.TcpConnection.HandleWrite | src/network/TcpConnection.cpp:151-177 | on the real buffer and handler, for any short write or error, exactly the bytes written leave the buffer, and the write that drains it drops write interest and issues a SHUT_WR asked for |
| TcpConnections.TcpConnection.Send | src/network/TcpConnection.cpp:45-66 | the loop-thread branch of send |
| TcpConnections.TcpConnection.Shutdown | src/network/TcpConnection.cpp:68-77 | the loop-thread branch of shutdown: the state changes and SHUT_WR is issued exactly without write interest |
| TcpConnections.TcpConnection.HandleClose | src/network/TcpConnection.cpp:139-149 | makes the protocol's close step on the real handler: interest is dropped, or the process exits when the state is not CONNECTED |
| TcpConnections.TcpConnection.RunTask | src/reactor/EventLoop.cpp:104-105 | a functor bound by another thread makes the protocol's step |
| Pollers.Handler.constructor | src/reactor/Handler.cpp:8-10 | a new handler asks for nothing and is registered nowhere |
| Pollers.Poller.constructor | src/reactor/Poller.cpp:9-17 | a new poller watches nothing |
| Pollers.Poller.NewHandler | src/reactor/Handler.cpp:8-10 | a handler for an fd without one keeps map, kernel and handlers in agreement |
| Pollers.Poller.DropHandler | src/reactor/Handler.cpp:12-13 | destroying a handler that is registered nowhere keeps map, kernel and handlers in agreement and frees its fd for another handler |
| Pollers.Poller.UpdateHandler | src/reactor/Poller.cpp:47-116 | never exits, all assertions hold, and afterwards map, kernel set and handler states agree again |
| Pollers.Poller.RemoveHandler | src/reactor/Poller.cpp:118-142 | never exits, all assertions hold as intended, and the fd is in neither map nor kernel set |
| Pollers.Poller.EnableReading | src/reactor/Handler.hpp:47-48 | the kernel watches for reading, write interest is unchanged, other fds are untouched |
| Pollers.Poller.EnableWriting | src/reactor/Handler.hpp:49-50 | write interest is on, read interest is unchanged, other fds are untouched |
| Pollers.Poller.DisableReading | src/reactor/Handler.hpp:51-52 | read interest is off, write interest is unchanged, other fds are untouched |
| Pollers.Poller.DisableWriting | src/reactor/Handler.hpp:53-54 | write interest is off, read interest is unchanged, other fds are untouched |
| Pollers.Poller.DisableAll | src/reactor/Handler.hpp:55-56 | a handler in use leaves the kernel set, any other one is added to it with an empty mask |
| Pollers.Poller.Poll | src/reactor/Poller.cpp:24-45 | never meets an unknown fd, and collects exactly the reported handlers in order with their events |
| Pollers.Poller.Unregister | src/network/TcpConnection.cpp:113-116 | disableAll and removeHandler succeed from every state and leave no trace |
| IdleTable.WatchedFromRun | httpancake/webServer.cpp:49-85 | in every run a connection is watched if and only if it was established and has at no moment since been without activity, its establishment or a message, for n ticks, and the table holds the tick of its last activity |
| IdleTable.WatchedExactly | httpancake/webServer.cpp:49-53 | a connection last active at tick L and quiet since is watched if and only if the tick is below L + n |
| IdleTable.EvictedForEver | httpancake/webServer.cpp:82-84 | an evicted connection is never watched nor shut down again, whatever it sends |
| IdleTable.ShutDownExactly | httpancake/webServer.hpp:23-28 | in every run shutdown() is called on a connection if and only if at some tick it has just been without activity for n ticks, was not before, and still exists |
| IdleTable.ShutDownOnce | httpancake/webServer.hpp:23-28 | in any run shutdown() is called at most once per connection |
| IdleTable.ShutDownWhenIdle | httpancake/webServer.hpp:23-28 | it is called in exactly the tick that makes the connection n ticks idle, if the connection still exists |
| IdleWheels.OldestOnly | httpancake/webServer.hpp:34-36 | exactly the connections about to be n ticks idle are in the oldest bucket and in no other |
| IdleWheels.TickKeepsPlaces | httpancake/webServer.cpp:52 | pushing a bucket keeps every watched connection's newest bucket at the tick of its last activity |
| IdleWheels.TouchKeepsPlaces | httpancake/webServer.cpp:84 | inserting into the newest bucket records the activity |
| IdleWheels.IdleWheel.constructor | httpancake/webServer.cpp:35-39 | n empty buckets watch nothing |
| IdleWheels.IdleWheel.Insert | httpancake/webServer.cpp:64 | the Entry has one more owner unless the bucket had it |
| IdleWheels.IdleWheel.OnConnection | httpancake/webServer.cpp:55-74 | a new connection goes into the newest bucket and is watched from the current tick; one that went down changes nothing |
| IdleWheels.IdleWheel.OnMessage | httpancake/webServer.cpp:78-85 | a watched connection goes into the newest bucket too and its activity moves to the current tick; an evicted one is not brought back |
| IdleWheels.IdleWheel.Release | httpancake/webServer.hpp:23-28 | the Entry goes with its last owner and only then shuts a living connection down |
| IdleWheels.IdleWheel.ReleaseAll | httpancake/webServer.cpp:52 | destroying a bucket destroys exactly the Entries nobody else owns |
| IdleWheels.IdleWheel.PushBack | httpancake/webServer.cpp:52 | a full circular buffer drops its oldest bucket for the empty one |
| IdleWheels.IdleWheel.OnTimer | httpancake/webServer.cpp:49-53 | is one tick of the table: exactly the connections n ticks idle are let go and, if alive, shut down |
| Removal.CollectedHandlersAreSafe | src/network/TcpServer.cpp:125-150 | while a loop dispatches, every collected handler is still registered there and its connection exists |
| Removal.RegisteredIsAlive | src/network/TcpConnection.cpp:102-117 | no registered handler outlives its connection |
| Removal.FunctorsFindWhatTheyExpect | src/network/TcpServer.cpp:132-150 | connectEstablished, the erase from connections_ and removeHandler each find what they assert, on the right loop |
| Removal.DestroyedForGood | src/network/TcpConnection.cpp:102-117 | after connectDestroyed no functor for the connection is left and its handler is registered nowhere |
| RemovalProgress.FunctorRuns | src/reactor/EventLoop.cpp:93-120 | every functor a connection waits for is run by its loop, whatever is queued before it and meanwhile |
| RemovalProgress.NewConnectionIsEstablished | src/network/TcpServer.cpp:116-121 | a new connection comes to be established and registered on its own loop |
| RemovalProgress.CloseLeadsToDestroyed | src/network/TcpServer.cpp:125-150 | after a close notification the loops on their own come to connectDestroyed, and neither the map nor the poller knows the connection any more |

## Left out

- HTTP parsing and responses (httpancake/webServer.cpp:87-333): file I/O and regular expressions; only the first block of onMessage is modelled.
- Buffer::shrink: it moves the data without resetting the indexes and nothing calls it.
- TcpConnection's input side, forceClose beyond its close notification, and the write-complete and connection callbacks: they run user code.
- Functors bound to a raw `this` in TcpConnection (send and shutdown from other threads): the model of removal follows only the functors that hold a shared_ptr, so it says nothing about how long the others may run.
- Closing exactly once: handleClose does not change the state, so Removal takes one close notification per connection as given, on a connection that has not been shut down; Connection.CloseExitsExactly says what happens on one that has. A handleClose that forceClose has queued and that runs after connectDestroyed exits too, and is not modelled.
- What the interleaving does between a close notification and connectDestroyed: module Connection ends with the notification; the class still says what send and shutdown do there.
- Live ownership of NonBlockingLog's buffers: each is a value with one owner, so aliasing between unique_ptrs is not captured.
- NonBlockingLogs.NonBlockingLog.ThreadFunc: observed for any finite number of turns, since the writer need not terminate while nobody stops it.
- EventLoops.EventLoop.Loop: observed for any finite number of turns, for the same reason.
- The clocks: one clock stands for gettimeofday and for the monotonic clock behind the timer descriptor, so a jump of the wall clock is not modelled.
- Machine integers: times, sizes and counters are unbounded, so the overflow of 64-bit microseconds, of size_t and of the eventfd counter is not modelled; integer formatting has its real ranges.
- The kernel's epoll order and its limit of 128 events decide which handlers a poll reports; a report may therefore miss the eventfd, which LoopProtocol allows.
- Memory order of the unsynchronised flags (stopLoop_, running_, state_, callingPendingunctors_): each access is one step.
- Construction of the log thread before the members it uses, destruction of loops and servers, signals, sockets and address conversion, the choice of a worker loop.
- Floating point: formatting of double values, and intervals that are not whole microseconds.
