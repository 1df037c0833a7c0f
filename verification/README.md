# A verified model of the server core

This project models the parts of the server whose correctness is hard to see: the three-level timing
wheel, the transactions that run their commands in coroutines and undo them when they fail, the functor
queue of the event loop, the output path of a connection, and the generator of ids. The properties below
are proved for all inputs and all runs; where one fails, the exact condition is proved beside it.

`dafny verify dfyconfig.toml` checks everything.

## How it is organised

| files | what they model |
|---|---|
| `timer_registry.dfy` | the naive timer service: a map from ids to timers, of which a tick fires those that expire at it |
| `timer_wheel.dfy`, `timer_placement.dfy`, `timer_invariant.dfy` | the wheel as functions on the whole state, where it puts a timer, and the invariant that every step of a tick keeps |
| `timer_callbacks.dfy` | what the callbacks of a tick destroy and arm |
| `timer_refinement.dfy`, `timer_exact.dfy`, `timer_runs.dfy`, `timer_edges.dfy`, `timer_safety.dfy` | the wheel against the naive service, for one tick and for whole runs; what one timer sees; the cursors; where the two differ; when a caller is on the safe side |
| `timer_mgr.dfy` | the class `TimerMgr`, whose methods are proved to be those functions |
| `linklist.dfy` | the intrusive list of a slot, with pointers, sentinels and owners |
| `coroutine.dfy` | the scheduler: who has control, as a state machine and as classes |
| `transaction.dfy`, `transaction_steps.dfy`, `transaction_instance.dfy` | one transaction from start to undo, as functions, in closed form, and as loops on an object |
| `server.dfy`, `server_laws.dfy`, `server_edges.dfy` | all instances, coroutines and timeout timers as one step system, what each step leads to, and where it does the unexpected |
| `transaction_mgr.dfy`, `transaction_server.dfy`, `main_routine.dfy` | the objects, and that their calls are the steps of that system |
| `transaction_timeouts.dfy` | a command's timeout, from the wheel to the coroutine |
| `event_loop.dfy` | the loop thread and its producers as a protocol, and the loop object |
| `buffer.dfy`, `tcp_connection.dfy` | the byte buffer and the output path |
| `guid.dfy` | the id generator |
| `sequences.dfy` | sequences without duplicates |

A callback of a timer is given by the calls it makes into the manager, a hook of a transaction by what
it returns and whether it calls `complete()`. Both are arbitrary inputs of the theorems. The coroutine's
stack is a program counter: `Start` and `Resume` say what a coroutine does from getting control to giving
it up.

## What was found

The following is so in the code, and is proved of the model.

* A tick of the wheel is the naive tick if and only if its callbacks are harmless
  (`TimerExact.TickExactly`). They are not if one destroys another timer that is due at the same tick while
  a timer is registered or rearmed for 1000 ms later. That timer then fires 1000 ms too early. Two
  registrations are enough to see a timer fire twice at one tick (`TimerEdges.FiresTwiceInstance`).
* `cal_remain` is one short if and only if a multiple of 2^32 lies between the tick and the expiry
  (`TimerPlacement.CalRemainExact`).
* A waiting transaction loses its timer if and only if it is sent an event that it does not wait for
  (`ServerEdges.NoTimerExactly`). So a suspended instance need not have a timer; a timer always has
  a suspended instance.
* An abort does not end a transaction: it goes on waiting for the rest of its events, if and only if a timer
  can be had (`ServerEdges.AbortWaitsExactly`).
* A failed transaction is undone if and only if no hook has called `complete()`
  (`ServerEdges.UndoneExactly`); `Transactions.CompleteThenFail` is an example.
* The timeout event sent by anybody but the timer leaves the timer behind, if there is one; no other
  event does (`ServerEdges.TimeoutFromOutside`).
* A functor queued on the loop thread from outside handlers and functors is not announced
  (`EventLoop.QueueOutsideLosesWakeup`).
* An id repeats if and only if a multiple of 2^24 ids, of whatever types, come between two calls of a
  type in one second (`Guid.IdsRepeat`). The generator has one sequence for all types. A clock set back to a
  second it has left repeats ids as well (`Guid.RepeatsWhenSetBack`, `Guid.IdsEqual`).

## Model

| member | source | states |
|---|---|---|
| TimerRuns.RunRefines | src/timer/svr_timer.cpp:84-271 | For every run of registrations, destructions and `Proc` calls that is safe (said of the naive service alone), the wheel fires what the naive service fires, at the same ticks, and the invariant holds at the end. |
| TimerExact.TickExactly | src/timer/svr_timer.cpp:135-195 | For any state that meets the invariant and any callbacks whose registrations leave room: one tick over all three wheels and all cascades leaves the registry and the firing record of the naive tick if and only if its callbacks are harmless, that is, destroy no timer that is still due, or leave no timer armed in the tick that expires 1000 ms after it; then the invariant holds again. |
| TimerExact.LeftExactly | src/timer/svr_timer.cpp:146-150 | Something is left in the drained slot if and only if a timer armed in the tick, and not destroyed again, expires one full turn of the first wheel later; timers that still wait on the upper wheels do not count. |
| TimerCallbacks.SparesExactly | src/timer/svr_timer.cpp:146-187 | All timers due are fired if and only if no callback of the tick destroys one that is still due. |
| TimerRuns.ProcRefines | src/timer/svr_timer.cpp:84-107 | One `Proc`, however many ticks it catches up, is the naive service tick by tick, and keeps the invariant. |
| TimerEdges.TickFires | src/timer/svr_timer.cpp:135-189 | The timers that a tick fires are exactly the registered ones whose expiry is that tick, each once: never early, never late. |
| TimerEdges.FireDueLog | src/timer/svr_timer.cpp:146-187 | Whatever callbacks destroy, a timer fires at most once per tick and only at its expiry; if none that is due is destroyed, all fire, in the order of the slot. |
| TimerRuns.DriftFree | src/timer/svr_timer.cpp:156-187 | However `Proc` batches the clock, a timer that nobody destroys has fired exactly at first + i * interval for the points that have come, up to its number of repeats (without end for 0, once for a negative number); it is registered if and only if firings are left. The first point is the time of the call plus the timeout; timeout and interval count from 1 to 86399999 ms. |
| TimerRuns.DestroyedStaysSilent | src/timer/svr_timer.cpp:324-351 | A timer that has been destroyed, and is not registered again, is not registered and does not fire any more, over every safe run of the wheel. |
| TimerRuns.ClampExactly | src/timer/svr_timer.cpp:247-248 | A time in range is taken as it is, one out of range becomes the bound that it has passed. |
| TimerRuns.RunOnTrack | src/timer/svr_timer.cpp:156-187 | Every naive run keeps a timer on its arithmetic progression. |
| TimerRuns.FireOneOnTrack | src/timer/svr_timer.cpp:156-187 | So does every single firing, of this or another timer, with all the calls of its callback. |
| TimerRuns.NoneOverdue | src/timer/svr_timer.cpp:110-133 | Between operations every registered timer expires after the present tick and is listed in the slot that owns it. |
| TimerRuns.CallKeeps | src/timer/svr_timer.cpp:197-271 | A registration that leaves room, and any destruction, keeps the invariant. |
| TimerRuns.InitialInv | src/timer/svr_timer.cpp:387-434 | What `Init` sets up meets the invariant. |
| TimerInvariant.RegKeeps | src/timer/svr_timer.cpp:110-133 | Linking a timer keeps the placement of all timers, in the middle of a tick as well, while upper cursors still lag and a slot is being drained. |
| TimerInvariant.UnlinkKeeps | src/timer/svr_timer.cpp:376-384 | Unlinking a timer keeps the placement of all others and takes it off the front that is still to be served. |
| TimerInvariant.RegisterKeeps | src/timer/svr_timer.cpp:197-271 | A registration made by a client or inside a callback keeps the invariant of the middle of a tick. |
| TimerInvariant.DestroyKeeps | src/timer/svr_timer.cpp:324-351 | So does a destruction, whether of the running timer (which is only marked) or of any other, due or not. |
| TimerRefinement.OpsKeep | src/timer/svr_timer.cpp:51-62 | So does everything that one callback does. |
| TimerRefinement.ServeKeeps | src/timer/svr_timer.cpp:146-187 | A round of the drain loop serves the head of what is due as the naive service does; what stays due is exactly the rest that the callback has not destroyed. |
| TimerRefinement.DrainDue | src/timer/svr_timer.cpp:146-189 | The first rounds, one for each timer fired, are the naive tick, and leave nothing that is due. |
| TimerRefinement.TickBegins | src/timer/svr_timer.cpp:135-145 | As the first wheel turns, the slot it turns to holds exactly the timers that expire at the new tick. |
| TimerRefinement.MoveDown | src/timer/svr_timer.cpp:146-155 | A round on an upper wheel takes one timer down to where it is in time again, and fires nothing. |
| TimerRefinement.UpperDrain | src/timer/svr_timer.cpp:146-155 | The loop over a slot of an upper wheel re-places all its timers and leaves the registry alone. |
| TimerRefinement.FireHour | src/timer/svr_timer.cpp:191-194 | The cascade into the hour wheel (and through it into the day wheel) changes nothing in the registry and restores the invariant. |
| TimerRefinement.FireDay | src/timer/svr_timer.cpp:191-194 | The cascade into the day wheel does so, too. |
| TimerRefinement.LeftIsOneTurnAway | src/timer/svr_timer.cpp:146-150 | Whatever is in the drained slot once nothing is due expires one full turn of the first wheel after the present tick. |
| TimerPlacement.PlaceFits | src/timer/svr_timer.cpp:110-133 | For every distance and every state of the cursors, in the middle of a tick as well: the slot chosen on the first wheel is next visited exactly at the expiry, one on an upper wheel strictly before it. |
| TimerPlacement.DayFits | src/timer/svr_timer.cpp:110-133 | The same for the last wheel, on which a timer may be more than one round away. |
| TimerPlacement.CalRemainExact | src/timer/svr_timer.cpp:23-30 | The 32-bit difference is the true one if and only if no multiple of 2^32 lies between; otherwise it is one less. |
| TimerPlacement.SecTurn | src/timer/svr_timer.cpp:137-144 | The turn of the first wheel makes due exactly what is one tick away and keeps the placement of the rest. |
| TimerPlacement.HourTurn | src/timer/svr_timer.cpp:137-144 | The turn of the hour wheel comes before the expiry of all in the slot it turns to, and keeps the placement of the rest. |
| TimerPlacement.DayTurn | src/timer/svr_timer.cpp:137-144 | The same for the day wheel. |
| TimerEdges.FirstWheelExact | src/timer/svr_timer.cpp:110-133 | A timer for the first wheel is placed right if and only if no multiple of 2^32 is in its way. |
| TimerEdges.CatchUpCursors | src/timer/svr_timer.cpp:84-145 | After n ticks the cursors are (n-1) mod 1000, (n/1000) mod 3600 and ((n+1000)/3600000) mod 24, whatever the callbacks do. |
| TimerEdges.TickTurnsAll | src/timer/svr_timer.cpp:135-195 | A tick turns each wheel once, or not at all, as the wheel below it comes to its last slot. |
| TimerEdges.SpareRoundFiresEarly | src/timer/svr_timer.cpp:146-150 | If the callbacks of a tick are not harmless, a timer that expires 1000 ms later fires at it, on top of all that the naive tick fires. |
| TimerEdges.FiresTwice | src/timer/svr_timer.cpp:146-150 | A timer of 1000 ms whose callback destroys the other timer due at the tick fires twice at it. |
| TimerEdges.FiresTwiceInstance | src/timer/svr_timer.cpp:146-150 | Two registrations on a new manager lead there. |
| TimerSafety.BatchSafe | src/timer/svr_timer.cpp:146-187 | Registrations made at or after the time of `Proc` leave room in every tick, whatever is destroyed, while no multiple of 2^32 comes within the longest timeout. |
| TimerSafety.HarmlessIsSafe | src/timer/svr_timer.cpp:84-187 | With such registrations a `Proc` is safe if and only if the callbacks of all its ticks are harmless. |
| TimerSafety.AwayIsHarmless | src/timer/svr_timer.cpp:84-187 | They are, for instance, if what they destroy does not expire before `Proc` is through. |
| TimerSafety.CalmRunIsSafe | src/timer/svr_timer.cpp:84-271 | A condition for whole runs that can be told beforehand: with a clock that does not go back, no multiple of 2^32 ahead, and callbacks that only destroy timers which outlast the run and register none before its end, the run is safe. |
| TimerSafety.ClockNotBehind | src/timer/svr_timer.cpp:197-253 | With a clock not behind the tick counter, a registration leaves room if and only if no multiple of 2^32 lies before its expiry. |
| TimerSafety.SelfDestroyDeferred | src/timer/svr_timer.cpp:334-345 | A timer destroyed by its own callback is gone when the callback is over, whatever else the callback does. |
| TimerRegistry.ApplyOps | src/timer/svr_timer.cpp:324-351 | A running timer outlives whatever its callback does: it is freed once, by the drain loop. |
| TimerManager.TimerMgr.constructor | src/timer/svr_timer.cpp:387-434 | Empty wheels, with the first cursor before slot 0. |
| TimerManager.TimerMgr.RegisterTimerFunc | src/timer/svr_timer.cpp:68-82 | Which of the three codes is returned; the id is added exactly on success. |
| TimerManager.TimerMgr.RegisterTimer | src/timer/svr_timer.cpp:197-271 | Which calls are accepted; then exactly the new timer with its expiry, interval, repeats and function is added, and the first one starts the tick counter; the whole new state; keeps the invariant if there is room. |
| TimerManager.TimerMgr.DestroyTimer | src/timer/svr_timer.cpp:324-351 | A running timer is marked, any other leaves registry and slot, nothing else changes; keeps the invariant. |
| TimerManager.TimerMgr.DeleteTimer | src/timer/svr_timer.cpp:353-373 | Unlinks and forgets one timer. |
| TimerManager.TimerMgr.UnRegisterTimer | src/timer/svr_timer.cpp:376-384 | Takes the timer out of the list that owns it, if one does. |
| TimerManager.TimerMgr.Reg | src/timer/svr_timer.cpp:110-133 | The loop over the wheels ends at the slot that the recursive definition names. |
| TimerManager.TimerMgr.OnTimeout | src/timer/svr_timer.cpp:51-62 | Records the firing; runs the callback and what it calls if one is registered for the function of the timer, and is an error without effect otherwise. |
| TimerManager.TimerMgr.Fire | src/timer/svr_timer.cpp:135-195 | One turn of a wheel with its drain loop and its cascade is the function that the refinement is proved of. |
| TimerManager.TimerMgr.Proc | src/timer/svr_timer.cpp:84-107 | Catches up to the time given; a clock that has gone back resets the tick counter and fires nothing; from the invariant and a safe future, it is the naive `Proc` and keeps the invariant. |
| LinkList.DoubLink.constructor | src/timer/linklist.h:66-70 | A new list has two linked sentinels and no nodes. |
| LinkList.DoubLink.Size | src/timer/linklist.h:47-50 | The count is the number of nodes. |
| LinkList.DoubLink.Empty | src/timer/linklist.h:143-151 | The head links to the tail if and only if there is no node. |
| LinkList.DoubLink.Push | src/timer/linklist.h:87-107 | Appends a free node and owns it, refuses any other; links both ways, count and owner agree again; every other list is as it was. |
| LinkList.DoubLink.PushFront | src/timer/linklist.h:109-129 | The same at the front. |
| LinkList.DoubLink.Remove | src/timer/linklist.h:153-173 | Takes exactly this node out of the list that owns it and frees it; every other list is as it was. |
| LinkList.DoubLink.Pop | src/timer/linklist.h:132-141 | Takes out the first node, or returns null if and only if there is none; every other list is as it was. |
| LinkList.DoubLink.Clear | src/timer/linklist.h:52-59 | Leaves the list empty and all its nodes free; every other list is as it was. |
| Guid.IdsDistinct | src/common/gen_guid.cpp:42-70 | Over every run with a clock that does not go back inside the whole 32-bit window from 2025, and at most 2^24 ids in a second, from any state of the generator: all ids are distinct. |
| Guid.IdsRepeat | src/common/gen_guid.cpp:42-70 | Over every run with such a clock, however many ids a second gives out: two ids are equal if and only if their types agree in 8 bits, their seconds are the same and a multiple of 2^24 calls (of any types) lies between them. |
| Guid.IdsEqual | src/common/gen_guid.cpp:42-70 | For any generator, calls and clock, one that goes back or leaves the window as well: two ids are equal if and only if types, seconds and places in the second agree in the width of their fields. |
| Guid.IdsGrow | src/common/gen_guid.cpp:42-70 | With a monotone clock in the window, of two ids of a type the later is the larger if and only if it comes from a later second or from a later place, cut to 24 bits, in the same one. |
| Guid.StateAt | src/common/gen_guid.cpp:44-58 | Whatever the clock does, the static variables hold the second of the last call and its place among the calls since the clock came to that second, modulo 2^32. |
| Guid.IdTells | src/common/gen_guid.cpp:23-40 | For any run, the fields taken out of an id are its type, its second and its place in the second, up to the width of each. |
| Guid.FieldsOfPack | src/common/gen_guid.cpp:23-68 | For all arguments, taking the fields out gives back what was packed, up to the width of each field. |
| Guid.EpochIs2025 | src/common/gen_guid.h:30 | The stamp counts from the beginning of 2025. |
| Guid.RepeatsWhenUsedUp | src/common/gen_guid.cpp:42-70 | In every run with more than 2^24 calls in its first second, whatever types the calls between are of, the call number 2^24 repeats the first id. |
| Guid.RepeatsWhenSetBack | src/common/gen_guid.cpp:46-58 | In every run whose clock comes back to a second it has left, the first id of that second is given out again to a call of the same type. |
| Guid.GuidGenerator.GenGUID | src/common/gen_guid.cpp:42-70 | One call steps the two static variables and packs the three fields. |
| EventLoop.NoLostWakeup | network/EventLoop.cpp:64-82 | Under any interleaving of producers: whenever the loop is about to poll over a pending functor, the counter is positive or a producer is between its push and its wakeup. |
| EventLoop.RunsInOrder | network/EventLoop.cpp:124-132 | Under any interleaving: executed, rest of the batch and pending make up the history in lock order, so each functor runs at most once and in order. |
| EventLoop.StepKeeps | network/EventLoop.cpp:64-179 | Every step of every thread keeps the invariant behind both, and neither history nor execution is taken back. |
| EventLoop.RunKeeps | network/EventLoop.cpp:64-179 | So does every run. |
| EventLoop.RoundExecutesAll | network/EventLoop.cpp:64-86 | What had been queued when poll returned has been executed by the time the loop polls again. |
| EventLoop.CanExecuteAll | network/EventLoop.cpp:153-179 | With a positive counter the loop can, by its own steps, get to having executed everything. |
| EventLoop.CounterCounts | network/EventLoop.cpp:136-147 | Between two reads the eventfd counter counts the writes of all threads, as far as it can count. |
| EventLoop.ReadOnce | network/EventLoop.cpp:153-163 | Once the eventfd has been read, its counter stays 0 and poll does not report it again, before somebody writes to it, over every run. |
| EventLoop.QueueOutsideLosesWakeup | network/EventLoop.cpp:124-132 | A functor queued on the loop thread between two polls keeps the invariant if and only if a wakeup happens to be on its way. |
| EventLoop.LoopObject.Wakeup | network/EventLoop.cpp:136-147 | Adds one to the eventfd counter unless it is full. |
| EventLoop.LoopObject.HandleRead | network/EventLoop.cpp:153-163 | Resets the counter and is a step of the protocol. |
| EventLoop.LoopObject.Others | network/EventLoop.cpp:124-147 | Exactly those steps of other threads that can be taken are taken, in order, as a run of the protocol that leaves the loop where it is. |
| EventLoop.LoopObject.QueueInLoop | network/EventLoop.cpp:124-132 | Called by any thread, with other threads stepping in between the push and the wakeup: a run of the protocol that queues the functor next. |
| EventLoop.LoopObject.Execute | network/EventLoop.cpp:174-177 | Executes the head of the batch, with whatever it queues and whatever other threads do meanwhile, as a run of the protocol; left alone, it queues exactly its functors, in order. |
| EventLoop.LoopObject.DoPendingFunctors | network/EventLoop.cpp:165-179 | With other threads stepping in anywhere, executes at least what was pending, in order, and comes back to poll; what is pending then is announced; all of it is a run of the protocol. Left alone, it executes exactly what was pending, and queues exactly what these functors queue. |
| NetBuffer.Buffer.constructor | network/Buffer.h:28-34 | An empty buffer of the fixed initial size. |
| NetBuffer.Buffer.Retrieve | network/Buffer.h:54-60 | Drops a prefix, or all. |
| NetBuffer.Buffer.RetrieveAsString | network/Buffer.h:70-74 | What is returned and what is left make up the former contents; asked for more than these, it returns them with the bytes after them in the vector. |
| NetBuffer.Buffer.RetrieveAllAsString | network/Buffer.h:66-68 | Returns the contents and leaves none. |
| NetBuffer.Buffer.MakeSpace | network/Buffer.h:122-133 | Whether it grows or moves (over itself, byte by byte): contents kept, room for `len` made. |
| NetBuffer.Buffer.EnsureWritableBytes | network/Buffer.h:76-80 | Room for `len`, contents kept. |
| NetBuffer.Buffer.Append | network/Buffer.h:86-90 | Contents and data, concatenated, whatever room there was. |
| NetBuffer.Buffer.ReadFd | network/Buffer.cpp:8-38 | Appends exactly the bytes delivered, across the writable part and the extra buffer. |
| Tcp.TcpConnection.constructor | network/TcpConnection.cpp:26-60 | Nothing accepted, nothing taken, not writing. |
| Tcp.TcpConnection.SendInLoop | network/TcpConnection.cpp:84-143 | Bytes taken by the socket, then bytes kept, are the messages accepted, end to end; of a message that finds nothing kept the socket takes what the write says, of any other nothing; the channel asks for write events if and only if bytes are kept; which of the two callbacks is announced. |
| Tcp.TcpConnection.Send | network/TcpConnection.cpp:68-78 | Accepts a message if and only if connected; then the socket takes exactly the part that the write says if nothing was kept, the rest is kept, and the same callbacks are announced. |
| Tcp.TcpConnection.HandleWrite | network/TcpConnection.cpp:210-250 | What the socket takes moves from the buffer to the bytes taken; with the last byte the write events end, and the write side is shut if a shutdown waited for it. |
| Tcp.TcpConnection.Shutdown | network/TcpConnection.cpp:147-156 | The write side goes down now if and only if it was connected with no byte kept, or was down before. |
| Tcp.TcpConnection.ShutdownInLoop | network/TcpConnection.cpp:158-162 | It is never shut while an accepted byte is still kept. |
| Tcp.TcpConnection.HandleClose | network/TcpConnection.cpp:252-261 | Ends writing and keeps the record of what was taken. |
| Tcp.TcpConnection.ConnectEstablished | network/TcpConnection.cpp:165-171 | From any state to connected; the connection is fit to go on if and only if its write side is not shut and no bytes were kept over a disconnection. |
| Coroutines.OneRunsAlways | src/coroutine/coroutine_scheduler.cpp:35-179 | Over every sequence of operations in which no routine is destroyed while it has control, exactly one routine runs: the main one if the current id is 0, and otherwise the one it names while the main one is suspended. |
| Coroutines.ApplyKeeps | src/coroutine/coroutine_scheduler.cpp:66-89 | An operation keeps that if and only if it does not destroy the routine in control. |
| Coroutines.DeadForever | src/coroutine/boost_coroutine.cpp:91-111 | A dead routine never gets control again and stays dead until it is destroyed. |
| Coroutines.SwapRoundTrip | src/coroutine/coroutine_scheduler.cpp:91-146 | Control that is given to a routine comes back with only the state of that routine changed: suspended, or dead if it came to its end. |
| Coroutines.CreateExactly | src/coroutine/coroutine_scheduler.cpp:35-64 | A routine is created if and only if the request has a stack, a page size that is a power of two, an id, a function and memory, and the id is not in use; then exactly this routine is added, ready; otherwise nothing changes, with the code. |
| Coroutines.PowersOfTwo | src/coroutine/boost_coroutine.cpp:32-36 | The test `page_size & (page_size - 1)` finds exactly the powers of two. |
| Coroutines.BoostCoroutine.CreateMainRoutine | src/coroutine/boost_coroutine.cpp:53-65 | Succeeds if and only if the object is unused, and becomes the running main routine. |
| Coroutines.BoostCoroutine.CreateWorkRoutine | src/coroutine/boost_coroutine.cpp:14-51 | Succeeds if and only if the object is unused, the request is in order and there is memory; which of the two codes otherwise. |
| Coroutines.BoostCoroutine.Resume | src/coroutine/boost_coroutine.cpp:91-111 | Succeeds if and only if the routine is ready or suspended and exactly one of the two is the main one; else nothing changes. |
| Coroutines.CoroutineScheduler.constructor | src/coroutine/coroutine_scheduler.cpp:6-33 | The main routine runs and there is no other. |
| Coroutines.CoroutineScheduler.CreateWorkRoutine | src/coroutine/coroutine_scheduler.cpp:35-64 | Which requests succeed and which of the two codes the others get; on success exactly one routine is added, ready; one routine runs as before. |
| Coroutines.CoroutineScheduler.DestroyWorkRoutine | src/coroutine/coroutine_scheduler.cpp:66-89 | The new state and the code; one routine runs still if and only if it was not the one in control. |
| Coroutines.CoroutineScheduler.SwapToMain | src/coroutine/coroutine_scheduler.cpp:91-118 | The state in which the main routine goes on, or the code with everything put back. |
| Coroutines.CoroutineScheduler.SwapToWorkRoutine | src/coroutine/coroutine_scheduler.cpp:120-146 | The state in which the work routine goes on, or the code with everything put back. |
| Coroutines.CoroutineScheduler.OnWorkRoutineExit | src/coroutine/coroutine_scheduler.cpp:165-179 | The routine is dead and the main one has control. |
| Server.SagaAlways | src/transaction/transaction.cpp:104-257 | Over every run of starts, events, timeouts, aborts and updates, for every transaction released: its commands were started in order and once each, and none after the first once a hook had called `complete()`; if one failed, those before it had passed and exactly they were undone, in reverse, unless a hook had called `complete()`; if it completed (or needs no undo), nothing was undone; its result hook was called once, then the final one; it has neither coroutine nor timer. |
| ServerEdges.UndoneExactly | src/transaction/transaction.cpp:174-257 | Over every run, of a transaction that has failed after its first command and needs undo: the commands before the failed one have been undone, in reverse, if and only if no hook had called `complete()`; otherwise nothing has. |
| ServerLaws.CompleteStops | src/transaction/transaction.cpp:134-139 | Over every run, for every transaction, live, ended or released: no command after the first was started once a hook had called `complete()`. |
| TransactionSteps.RunsExactly | src/transaction/transaction.cpp:104-141 | The command loop in closed form: the commands from the first one on pass, up to the first that fails, waits or finds the transaction complete; there it ends with the index and the reason, or complete, or waits for exactly the events of this command with an alarm for its timeout, or fails for want of a timer; if all pass it ends complete. |
| ServerLaws.StartExactly | src/transaction/transaction.cpp:52-172 | How a transaction that has been started turns out, hook by hook, up to its first wait or its end. |
| ServerLaws.StartSucceeds | src/transaction/transaction_server.cpp:77-145 | A start succeeds if and only if owner and id are not 0, the id is new, the request for the coroutine is in order, there is memory, and the id of the coroutine is not in use. |
| ServerLaws.EventWithMoreToCome | src/transaction/command.cpp:53-65 | An event accepted while others are to come: the transaction waits for exactly those in the same command if and only if there is a timer to be had; otherwise it fails there. |
| ServerLaws.LastEventGoesOn | src/transaction/command.cpp:41-76 | The last event, accepted: the next commands are run, as in the closed form. |
| ServerLaws.LastEventEnds | src/transaction/transaction.cpp:122-139 | The last event, accepted, of an aborted or completed transaction ends it there: failed with the first reason, or complete. |
| ServerLaws.RefusedEvent | src/transaction/command.cpp:56-61 | A hook that refuses its event ends the transaction at this command, with its code or the first reason. |
| ServerLaws.TimeoutExactly | src/transaction/command.cpp:67-73 | A timeout that the command puts up with leaves it waiting for the same events if and only if there is a timer to be had; any other ends the transaction there. |
| Transactions.ReleaseSettles | src/transaction/transaction.cpp:174-257 | Handling the result of a transaction at its end makes it so. |
| Transactions.HandledOk | src/transaction/transaction.cpp:174-257 | The result hooks and the undo together turn an ended transaction into a settled one. |
| Transactions.LogUndoHooks | src/transaction/transaction.cpp:209-257 | The undo hooks are n-1, ..., 0 and touch nothing else in the record. |
| Transactions.StartOk | src/transaction/transaction.cpp:143-172 | From a new instance, whatever the hooks do, the coroutine comes to wait in some command with a new timer, or to its end, with all commands before it passed. |
| Transactions.ResumeOk | src/transaction/command.cpp:37-116 | So does a waiting coroutine that is given any event. |
| Transactions.RunOk | src/transaction/transaction.cpp:104-141 | So does the command loop from any command on. |
| Transactions.OverOk | src/transaction/transaction.cpp:119-138 | So does the loop after a command has returned any code. |
| Transactions.AwaitOk | src/transaction/command.cpp:37-77 | So does the waiting loop, with any events still to come. |
| Transactions.RecvMid | src/transaction/command.cpp:44-66 | An event handed over and the events still to come make up the list of the command, as multisets. |
| Transactions.AbortedMid | src/transaction/command.cpp:60-72 | An abort changes nothing in that account. |
| Transactions.TimeoutEnds | src/transaction/command.cpp:112-116 | A timeout that the command does not put up with ends the transaction at this command, with the first reason given. |
| Server.TimersMatch | src/transaction/transaction_instance.cpp:91-176 | Over every run, every live timeout timer names a waiting instance whose timer it is and has the timeout of the command that the instance is at; no two name the same, and none names a finished one. |
| Server.EventsAddUp | src/transaction/command.cpp:37-77 | Over every run, for every waiting instance: the events its command has been handed and the events it is registered for make up the event list of the command, and all commands before have passed. |
| Server.LifeCycle | src/transaction/transaction_mgr.cpp:9-88 | Over every run, an instance is live, or at its end with a dead coroutine, or released, and never two of these; the mark is set exactly at the end; one routine runs, the main one. |
| Server.RunKeeps | src/transaction/transaction_server.cpp:77-171 | Every run keeps the invariant behind these four. |
| Server.ApplyKeeps | src/transaction/transaction_server.cpp:77-171 | So does every step. |
| Server.SendKeeps | src/transaction/transaction_instance.cpp:81-129 | Sending any event to any instance, live or at its end, keeps it, unless it is a timeout that does not come from the timer. |
| Server.TimerKeeps | src/transaction/transaction_instance.cpp:14-36 | So does a timer that fires. |
| Server.StartKeeps | src/transaction/transaction_server.cpp:77-145 | So does starting a transaction, whatever fails on the way. |
| Server.UpdateKeeps | src/transaction/transaction_mgr.cpp:27-60 | So does `Update`. |
| Server.UpdateReleases | src/transaction/transaction_mgr.cpp:27-60 | `Update` releases each instance at its end once, with its result handled, and leaves those released before as they were. |
| Server.LeaveKeeps | src/transaction/transaction.cpp:143-172 | Whatever a coroutine has done, giving up control restores the invariant. |
| Server.DeadRefuses | src/coroutine/coroutine_scheduler.cpp:120-146 | An instance at its end takes no event. |
| ServerEdges.NoTimerExactly | src/transaction/transaction_instance.cpp:81-129 | For every allowed step: an instance that waits before and after it has no timer then if and only if the step sent it an event that it does not wait for, or if it had none before and was not woken. |
| ServerEdges.UnexpectedEventDropsTimer | src/transaction/transaction_instance.cpp:91-117 | An event not waited for is refused, and changes nothing but that the timer is gone. |
| ServerEdges.InvalidEventRefused | src/transaction/transaction_instance.cpp:83-87 | The invalid event is refused and changes nothing at all. |
| ServerEdges.AbortWaitsExactly | src/transaction/transaction_instance.cpp:178-189 | After an abort that its command does not list, a transaction waits on, for the same events and with a new timer, if and only if there is a timer to be had; otherwise it ends at this command. The reason is set either way. |
| ServerEdges.TimeoutFromOutside | src/transaction/transaction_instance.cpp:91-95 | For every event to a live instance: the invariant is kept if and only if it is not a timeout sent while there is a timer. |
| TransactionTimeouts.TimeoutOnTime | src/transaction/transaction_instance.cpp:143-164 | While nobody destroys it, the timer that a `Wait` has registered on the wheel fires at exactly the tick of the call plus the timeout, once and not before; it is registered up to that tick and no longer. |
| TransactionTimeouts.UnconcernedWaitsOn | src/transaction/transaction_instance.cpp:81-129 | Over every run in which no event is sent to a waiting instance and its timer does not fire, it waits on unchanged and keeps the timer. |
| TransactionTimeouts.TimeoutHanded | src/transaction/transaction_instance.cpp:14-36 | When its timer fires, the coroutine of the instance goes on with the timeout event, and the timer is gone. |
| Server.SendIsSent | src/transaction/transaction_instance.cpp:81-129 | A step of the whole system that sends an event is what `SendMsgEvent` does to the one instance and the scheduler. |
| Server.StartIsLaunched | src/transaction/transaction.cpp:52-102 | A step that starts a transaction is what `Start` does to the new instance and the scheduler. |
| TransactionObjects.TransactionInstance.constructor | src/transaction/transaction_instance.cpp:42-57 | A new instance. |
| TransactionObjects.TransactionInstance.Wait | src/transaction/transaction_instance.cpp:131-176 | Which error code, or OK with the suspension and exactly the new timer, its timeout, the events and the index. |
| TransactionObjects.TransactionInstance.WaitForEvent | src/transaction/command.cpp:37-95 | From the head of its loop to its return or the next suspension. |
| TransactionObjects.TransactionInstance.DoAndWait | src/transaction/command.cpp:13-35 | What the current command does, up to its return or its first suspension. |
| TransactionObjects.TransactionInstance.ContinueWait | src/transaction/command.cpp:44-77 | What the waiting loop does with the event that has woken it. |
| TransactionObjects.TransactionInstance.RunCommandOnInstance | src/transaction/transaction.cpp:104-141 | The loop over the commands is the recursion that the saga is proved of. |
| TransactionObjects.TransactionInstance.AfterCommand | src/transaction/transaction.cpp:119-138 | Stop on failure or completion, or go on. |
| TransactionObjects.TransactionInstance.RealStart | src/transaction/transaction.cpp:143-160 | Is `Start`, up to the mark for destruction. |
| TransactionObjects.TransactionInstance.Resume | src/transaction/command.cpp:37-95 | Is `Resume`, up to the mark for destruction. |
| TransactionObjects.TransactionInstance.Undo | src/transaction/transaction.cpp:209-257 | The downward loop adds exactly the undo hooks of the commands before the failed one, and clears index and flag; every early return with its code changes nothing. |
| TransactionObjects.TransactionInstance.HandleResult | src/transaction/transaction.cpp:174-207 | The result hooks, with the undo between them where it is due. |
| TransactionManager.TranInstMgr.AddTranInst | src/transaction/transaction_mgr.cpp:9-25 | Adds exactly this instance, or the code. |
| TransactionManager.TranInstMgr.MarkTranInstDelayDestroy | src/transaction/transaction_mgr.cpp:62-88 | Moves the instance from the live ones to those to be destroyed, once; a second time changes nothing. |
| TransactionManager.TranInstMgr.EndOfStart | src/transaction/transaction.cpp:159-169 | Completes an instance that has not failed and marks it. |
| TransactionManager.TranInstMgr.Update | src/transaction/transaction_mgr.cpp:27-60 | Each instance on the list is released once, its coroutine destroyed, the list emptied, the live ones left alone. |
| TransactionServers.TransactionServer.SendMsgEvent | src/transaction/transaction_instance.cpp:81-129 | The code, the instance, the scheduler, the timers and both collections of the manager when control is back. |
| TransactionServers.TransactionServer.SendMsgEventToTran | src/transaction/transaction_server.cpp:148-171 | The same for an id that may be 0 or unknown. |
| TransactionServers.TransactionServer.Start | src/transaction/transaction.cpp:52-102 | The same for a start, with the coroutine destroyed again if it cannot get control. |
| TransactionServers.TransactionServer.StartTransaction | src/transaction/transaction_server.cpp:115-145 | An instance that cannot be started is not kept by the manager. |
| TransactionServers.TransactionServer.StartCommonTransaction | src/transaction/transaction_server.cpp:77-113 | Returns an instance if and only if it has been started; otherwise the manager is as it was. |
| MainRoutines.MainRoutine.constructor | src/transaction/transaction_server.cpp:77-113 | A server without transactions stands for the initial state of the step system. |
| MainRoutines.MainRoutine.SendMsgEvent | src/transaction/transaction_instance.cpp:81-129 | The call on the objects (instance, scheduler, manager, timers) is the step of the whole system, with its code; for any event but a timeout the objects go on standing for a state that meets the invariant. |
| MainRoutines.MainRoutine.SendMsgEventToTran | src/transaction/transaction_server.cpp:148-171 | The same for the call by id, known or not. |
| MainRoutines.MainRoutine.OnTimeout | src/transaction/transaction_instance.cpp:14-36 | The same for the callback of a timer, with the end of the timer. |
| MainRoutines.MainRoutine.StartCommonTransaction | src/transaction/transaction_server.cpp:77-145 | The same for a start, whatever fails on the way; it succeeds if and only if ids, request and memory are in order. |
| MainRoutines.MainRoutine.Update | src/transaction/transaction_mgr.cpp:27-60 | The same for `Update`; each object released is as its transaction was settled. |
| MainRoutines.MainRoutine.TimersMatch | src/transaction/transaction_instance.cpp:91-176 | Between calls every timer is that of a live object that waits and has it, for the timeout of the command it is at, and no two are of the same. |
| MainRoutines.MainRoutine.AllAccounted | src/transaction/command.cpp:37-77 | Between calls the main routine has control; the events that a live object has been handed and those it waits for make up the list of its command; what has been released is settled. |

## Left out

Conditions under which a main result is stated, each with what is proved where it does not hold:

- TimerRuns.RunRefines: asks for a clock that does not go back, for registrations that leave room
  (`TimerRegistry.OpSafe`: an expiry after the present tick with no multiple of 2^32 between), and for
  harmless callbacks. `TimerExact.TickExactly` says for a tick exactly when it is exact,
  `TimerEdges.FirstWheelExact` when a placement is, and `TimerSafety.CalmRunIsSafe` gives a condition for
  whole runs that can be told beforehand. The branch of `Proc` for a clock that has gone back is
  part of `TimerWheel.Proc` and of the class, which only says that it resets the tick counter.
- TimerRuns.DriftFree: the timer in question is not destroyed and its id not given out again.
- TransactionTimeouts.TimeoutOnTime: the same; `TransactionTimeouts.UnconcernedWaitsOn` says that a waiting
  instance which nobody sends to keeps its timer. The run of the wheel and the run of the transactions are
  two runs; that the callbacks of the one are the steps of the other is not part of the model.
- Server.RunKeeps: new instances have ids that are not in use or released (module `Guid` proves this of the
  generator), timers that fire are live ones, and the timeout event comes from the timer only;
  `ServerEdges.TimeoutFromOutside` says what happens otherwise.
- ServerEdges.AbortWaitsExactly: an abort that the command lists among its events is handed to it as an event.
- Coroutines.OneRunsAlways: no routine is destroyed while it has control; `Coroutines.ApplyKeeps` shows that
  nothing else breaks it.
- EventLoop.NoLostWakeup: the loop thread queues from handlers and functors only.
- Guid.IdsDistinct: a clock inside the 32-bit window from 2025 that does not go back, and at most 2^24 ids in
  a second; `Guid.IdsEqual` says for any run which ids are equal.
- NetBuffer.Buffer.RetrieveAsString: no more than the vector holds is asked for.
- NetBuffer.Buffer.ReadFd: reads that deliver bytes, or none; error returns are kept in unsigned sizes by the
  original and not modelled.
- Tcp.TcpConnection.SendInLoop: writes that take 0 to all of the bytes, and no call once the write side has
  been shut down, unless disconnected; error returns and the fault flag are not modelled.
- Tcp.TcpConnection.HandleWrite: the same error returns.
- Tcp.TcpConnection.Send: calls on the loop thread; from another thread `sendInLoop` is queued.
- Tcp.TcpConnection.Shutdown: the same.
- Tcp.TcpConnection.HandleClose: without the connection and close callbacks that follow.
- TransactionObjects.TransactionInstance.Wait: the switch to the main routine does not fail, as it is made by
  the work routine in control (`Coroutines.SwapRoundTrip`).

Modelled on values:

- The slots of the wheel are sequences of ids with an owner map. That the intrusive list is such a sequence is
  proved in `linklist.dfy`; the two are not joined on one heap.
- In module `Server` the steps act on maps of instances; the class `MainRoutine` is proved to take the same
  steps on the objects. What the application's hooks return, and the next timer id, is given to each call.
- The id generator uses arithmetic for shifts, masks and the disjoint `|`.
- The eventfd, the poller and the mutex are steps of the protocol, with the outcome of a poll left open.

Not modelled:

- The switch of stacks itself (`jump_context.S`, `make_context.S`, guard pages, valgrind marks): it is a step
  that hands over control.
- Recovery after a crash: `Resume` and `RealResume` of a transaction, `Resume` of the manager, and the restart
  of routines. It depends on state kept outside the files modelled.
- The early ways out of `TransactionCoroutineEntry`, null commands and unknown transaction types.
- Failing allocations, except for the memory of a coroutine.
- Hooks and result callbacks that call back into the transaction server, and commands that override `Wait` or
  `WaitForEvent`.
- 64-bit overflow of ticks and expiries, 32-bit underflow of the repeat counter, and lists of 2^32 nodes.
- The bytes of callback data, `GetRemainNum`, `GetRemainMs`, `GetExpireMs`, `TimerWrapper`, and the
  registration with one time (the same call with the interval equal to the timeout).
- `runInLoop` (a direct call, or `queueInLoop`), `OnTick` (one round of the loop), `quit`.
- `send` and `shutdown` from other threads than that of the loop, the input side and the error handler of a
  connection, and `connectDestroyed`.
- Channels, pollers, acceptor, server and socket classes, threads, logging, the command parser, date
  arithmetic, peers, and the formatting of ids as text.
