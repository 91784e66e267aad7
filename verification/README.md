# FairMQ: a verified model of its protocols

FairMQ moves physics data between processes called devices. This project models the parts of it
whose correctness cannot be seen in one function, and proves properties that hold for every input,
every run or every reachable state. One Dafny file holds one part.

- `SchedulerHistory.dfy`, `ScheduleSelection.dfy` – the scheduler of the SCHEDULER-FLP-EPN example.
  EPNs (event processing nodes) report their free slots. The scheduler keeps a sliding window of
  reports and chooses the EPNs for the next schedule. A row is copied forward at each new
  interval and overwritten in place, which is compared with the plain log of all reports.
- `ScheduleDelivery.dfy` – the two ends joined: from the log of reports to a round of an FLP.
- `Epn.dfy` – the EPN: counting the pieces of a timeframe, and the slots its worker threads use.
- `TimeframeProtocol.dfy` – scheduler, FLPs (first level processors) and EPNs together, over FIFO
  channels, in any interleaving.
- `QueuedStateMachine.dfy` – the state machine with a queue of accepted states in front of it.
- `DeviceMachine.dfy` – the device state machine: transition table, the caller of `ChangeState` and
  the worker thread that runs the state handlers, with their flags.
- `MachineTables.dfy` – the two state machines against each other, and against a count of transitions.
- `ShutdownSequence.dfy` – the control plugin taking that device down.
- `SharedMemory.dfy` – ownership of shared memory chunks and region blocks, from allocation through
  headers in flight to deallocation or callback.
- `RateLimiter.dfy` – the feedback loop of the rate limiter.
- `TransportPolling.dfy` – the polling threads of a device with several transports.
- `ChannelConfig.dfy` – channel settings kept both in the channel map and in a flat variable map.
- `Wrappers.dfy` – the optional value they share.

Sequential code that updates fields is a class whose methods are proved equal to a step function
(`View() == Step(old(View()), …)`), and the properties are proved of that function. Concurrent code
is a step function over atomic actions; an action that is not enabled changes nothing. The theorems
quantify over all sequences of actions.

## What the code does, where that is not what one expects

- The trimming loop of the scheduler erases through the same iterator each time round, which the first
  erasure has made invalid. `Trim` erases the first row, which is what the loop is for. The loop as
  written is defined and does the same exactly when at most one row is past the window
  (`Scheduler.TrimAsWritten`). Reports at most one interval (1 s) apart guarantee this
  (`OneIntervalApartIsDefined`); a gap of two intervals after a steady minute does not
  (`TwoIntervalsCanFail`).
- An EPN loses a slot for good exactly when a worker ends between the failed test of `freeSlots` and
  the assignment of 0 (`EpnSlots`).
- Schedules are sent as raw 64-bit words. An entry -1, for which there was no valid EPN, makes an FLP
  throw at that entry after it has counted it.
- The PAUSE row of the transition table uses the default action; the action written for it is unused.
- STOP and PAUSE wait, holding the mutex, for the handler to end. `RunWrapper` needs that mutex once it
  has seen RUNNING. A RUN that follows a stopped RUN gets caught in the same way by the handler of the
  first, which takes the new RUNNING for its own. Both sides wait forever, and these are all the ways
  into it (`DeviceMachine.MutualWaitExactly`).
- The worker calls the state change callbacks after it has cleared its flags. If one throws, the flags
  are cleared once more, and a post made in the meantime is taken back unexecuted
  (`DeviceMachine.WithdrawnExactly`).
- The shutdown sequence reads the state before it empties its event queue. If a handler ends by itself
  in between, `RunWrapper` included, the sequence waits for an event that has been thrown away. This
  can happen exactly from the four one-shot states and RUNNING with the worker alive
  (`ShutdownSequence.HangsExactly`). The news of an error can be thrown away in the same way from
  every start that is not already in error or EXITING (`ShutdownSequence.MissesErrorExactly`). This
  takes ERROR_FOUND as a call any thread may make. If only the device's own worker finds errors, it can
  happen exactly when the worker is not at rest at the start (`ShutdownSequence.MissesOwnErrorExactly`).
- A message received as part of a multipart message and then sent by itself goes out as an empty frame
  while its chunk stays behind; every other owning message hands its chunk over
  (`SharedMemory.SendHandsOverExactly`).
- The rate limiter keeps its skip count at 1 or more and its assertion true exactly for requested
  periods from 3 ns to 1 s. Its own documentation admits rate 0, which is a period of 1 ns. A rate
  above 1 GHz is a period of 0, by which the constructor divides.
- Subscribers cannot keep a copy of the configuration by what they are told. A `SetValue` whose channel is
  gone throws after it has changed the variable map and before it tells anyone. This needs a second
  `ParseAll` on the same object, since that is the only caller of `UpdateChannelMap`; keys of the first
  channel map then lead nowhere (`ChannelConfig.StaleKeyFails`). And a rebuild of the variable map tells
  nobody at all (`ChannelConfig.RebuildIsSilent`); a value that was set and then rebuilt to another leaves
  no copy in step (`ChannelConfig.SetThenRebuilt`).
- Kernel buffer sizes set in the configuration never reach the channel. The key index also misspells
  one of the two members, which makes no difference.

## Model

| member | source | states |
|---|---|---|
| `SchedulerHistory.UpdateAgrees` | examples/SCHEDULER-FLP-EPN/scheduler.cxx:213-259 | one `update`, through copying forward, forgetting, overwriting and trimming, keeps the window in agreement with the log of all reports, out-of-range ids included |
| `SchedulerHistory.WindowMatchesLog` | examples/SCHEDULER-FLP-EPN/scheduler.cxx:213-317 | for every log of reports with a clock that does not go back, the array of free slots equals, entry by entry, the EPN's last report if that is at most 5000 ms older than the newest row, truncated to `int`, and -1 otherwise |
| `SchedulerHistory.WindowBounded` | examples/SCHEDULER-FLP-EPN/scheduler.cxx:249-259 | after any accepted report the window has its row, no row of `historyMaxMs` or older, no timestamp above its row, `tooOld` at its first row and at most 60 rows |
| `SchedulerHistory.SilentIsForgotten` | examples/SCHEDULER-FLP-EPN/scheduler.cxx:231-241 | in a row that is opened, an EPN with no report within the window of the row before reads as one that never reported |
| `SchedulerHistory.SlotCountSurvivesTheWire` | examples/SCHEDULER-FLP-EPN/epn.cxx:215-219 | an `int` slot count, negative ones included, widened to the 64-bit wire field and narrowed again is unchanged |
| `SchedulerHistory.Scheduler.constructor` | examples/SCHEDULER-FLP-EPN/scheduler.cxx:189-197 | the window starts with one blank row for all EPNs |
| `SchedulerHistory.Scheduler.Update` | examples/SCHEDULER-FLP-EPN/scheduler.cxx:213-259 | the object's new window is the specified one, and the call succeeds exactly for known EPN ids |
| `SchedulerHistory.Scheduler.CopyForward` | examples/SCHEDULER-FLP-EPN/scheduler.cxx:223-241 | a missing row is opened from the last row with entries older than `tooOld` blanked, and no other row changes |
| `SchedulerHistory.Scheduler.Trim` | examples/SCHEDULER-FLP-EPN/scheduler.cxx:249-259 | exactly the rows within `historyMaxMs` of the key remain and `tooOld` is the first of them |
| `SchedulerHistory.Scheduler.TrimAsWritten` | examples/SCHEDULER-FLP-EPN/scheduler.cxx:251-259 | with its one iterator the loop is defined if and only if at most one row is past the window, and then it does what `Trim` does |
| `SchedulerHistory.OneIntervalApartIsDefined` | examples/SCHEDULER-FLP-EPN/scheduler.cxx:251-259 | for every log, a report at most one interval after the last leaves at most one row past the window |
| `SchedulerHistory.TwoIntervalsCanFail` | examples/SCHEDULER-FLP-EPN/scheduler.cxx:251-259 | after a steady minute of reports a gap of two intervals leaves two rows past the window |
| `SchedulerHistory.Scheduler.GenerateArray1` | examples/SCHEDULER-FLP-EPN/scheduler.cxx:303-317 | a fresh array holding the valid slot counts of the newest row and -1 elsewhere |
| `ScheduleSelection.RankingUnique` | examples/SCHEDULER-FLP-EPN/scheduler.cxx:289-300 | there is only one ranking of the valid EPNs by slots, ties to the lower id, so the schedule is determined |
| `ScheduleSelection.RankingOrder` | examples/SCHEDULER-FLP-EPN/scheduler.cxx:319-335 | an earlier place has more free slots, or as many and the lower id |
| `ScheduleSelection.MaxSearch` | examples/SCHEDULER-FLP-EPN/scheduler.cxx:319-335 | returns the id of the first maximum and wipes just that entry, or -1 with the array unchanged when nothing is left |
| `ScheduleSelection.RepeatedMaxSearch` | examples/SCHEDULER-FLP-EPN/scheduler.cxx:289-300 | searching in place again and again yields the ranking of the original array cut to the wanted length, padded with -1 |
| `ScheduleSelection.GenerateSchedule` | examples/SCHEDULER-FLP-EPN/scheduler.cxx:289-317 | the schedule is the ranking of what the full log of reports says, whatever the window has forgotten |
| `ScheduleSelection.ScheduleNamesValidEpnsOnce` | examples/SCHEDULER-FLP-EPN/scheduler.cxx:289-300 | the schedule has the wanted length, names only valid EPNs, and none twice |
| `ScheduleSelection.LeftOutIsNotBetter` | examples/SCHEDULER-FLP-EPN/scheduler.cxx:289-300 | if a valid EPN is left out, every place is taken and by an EPN with at least as many slots |
| `ScheduleSelection.AvailableEpns` | examples/SCHEDULER-FLP-EPN/scheduler.cxx:372-380 | counts the EPNs with a positive entry |
| `ScheduleSelection.LoggedStatisticIsReal` | examples/SCHEDULER-FLP-EPN/scheduler.cxx:125-127 | the number logged from `EpnsInSchedule` is the number of entries with free slots in the schedule really generated next |
| `ScheduleDelivery.FullExactly` | examples/SCHEDULER-FLP-EPN/scheduler.cxx:289-300 | a schedule names an EPN in every place, with no -1, if and only if there are as many valid EPNs as places |
| `ScheduleDelivery.ScheduleAndSend` | examples/SCHEDULER-FLP-EPN/flp.cxx:60-104 | an FLP round over a generated schedule ends well if and only if in the full log at least `amountEPNs` EPNs have a fresh last report that is not -1 |
| `Epn.Device.constructor` | examples/SCHEDULER-FLP-EPN/epn.cxx:53-56 | an EPN starts with all slots free and nothing counted |
| `Epn.Device.Receive` | examples/SCHEDULER-FLP-EPN/epn.cxx:143-202 | one pass over all inputs, silent, bad and misaddressed ones included, is the specified pass and keeps completed = running + finished + lost |
| `Epn.Device.CountPiece` | examples/SCHEDULER-FLP-EPN/epn.cxx:174-200 | the count of the piece's timeframe goes up by one, and on reaching the number of FLPS the timeframe completes and takes or loses a slot |
| `Epn.LostExactlyWhenFull` | examples/SCHEDULER-FLP-EPN/epn.cxx:187-200 | a piece counts for its timeframe alone; when it completes one, that is lost if and only if all slots are running, and otherwise it takes a slot and a worker |
| `Epn.EndFreesSlot` | examples/SCHEDULER-FLP-EPN/epn.cxx:237-244 | a worker that ends gives back one slot and changes nothing else |
| `Epn.PassCounts` | examples/SCHEDULER-FLP-EPN/epn.cxx:148-174 | a pass counts for each timeframe exactly the channels with a well-formed piece of it from their own FLP |
| `EpnSlots.UndisturbedIsCompletion` | examples/SCHEDULER-FLP-EPN/epn.cxx:187-200 | without a worker ending in between, the single writes to the counter are the one-step completion |
| `EpnSlots.SlotsNeverOverspent` | examples/SCHEDULER-FLP-EPN/epn.cxx:187-244 | in every interleaving at most `maxSlots` workers run, free slots stay within -1 and `maxSlots` and never exceed what the workers leave; between passes no slot is missing exactly when no worker has strayed |
| `EpnSlots.SlotsKeptExactlyWhenNoneStrays` | examples/SCHEDULER-FLP-EPN/epn.cxx:187-244 | between completions, in every interleaving, free slots and running workers add up to `maxSlots` if and only if no worker has ended between a failed test and the reset to 0 |
| `EpnSlots.SlotCanBeLost` | examples/SCHEDULER-FLP-EPN/epn.cxx:191-199 | for every positive number of slots there is a run after which one is missing, and stays missing at every step of every continuation |
| `TimeframeProtocol.SendPieceInv` | examples/SCHEDULER-FLP-EPN/flp.cxx:84-104 | a send keeps every channel equal to the sub-timeframes the schedules route to it, in order, up to the FLP's counter |
| `TimeframeProtocol.ReceivePieceInv` | examples/SCHEDULER-FLP-EPN/epn.cxx:148-200 | a receive keeps each EPN's counts equal to the FLPs whose piece has arrived |
| `TimeframeProtocol.OneRoutePerTimeframe` | examples/SCHEDULER-FLP-EPN/flp.cxx:60-104 | in every run, two pieces of one timeframe, from any FLPs, go to the same EPN |
| `TimeframeProtocol.CountsAreArrivals` | examples/SCHEDULER-FLP-EPN/epn.cxx:174-185 | in every run an EPN's count is the number of distinct FLPs heard from, so the assertion that it is at most the number of FLPs never fails |
| `TimeframeProtocol.CompletesAtMostOnce` | examples/SCHEDULER-FLP-EPN/epn.cxx:187-200 | in every run a timeframe completes at most once and on at most one EPN |
| `TimeframeProtocol.DrainedIsComplete` | examples/SCHEDULER-FLP-EPN/epn.cxx:148-200 | once every FLP has passed a timeframe and its EPN's channels are empty, it has completed exactly once there and nowhere else |
| `TimeframeProtocol.EveryTimeframeCanComplete` | examples/SCHEDULER-FLP-EPN/flp.cxx:60-104 | from every reachable state every timeframe routed to an EPN has a continuation in which it completes there |
| `TimeframeProtocol.LostExactlyWhenFull` | examples/SCHEDULER-FLP-EPN/epn.cxx:187-200 | in every run a step loses a timeframe if and only if it completes one on an EPN with all slots running |
| `TimeframeProtocol.WorkerEndFreesSlot` | examples/SCHEDULER-FLP-EPN/epn.cxx:237-244 | in every run the end of a worker frees one slot of its EPN and changes nothing else anywhere |
| `TimeframeProtocol.NumbersUsed` | examples/SCHEDULER-FLP-EPN/flp.cxx:84-104 | a round uses one number for every entry, the first without a channel included, where it ends |
| `TimeframeProtocol.PiecesNumbered` | examples/SCHEDULER-FLP-EPN/flp.cxx:84-104 | a round sends to the EPNs of the plan in order, numbered on without a gap, up to the first entry without a channel |
| `TimeframeProtocol.FlpDevice.Round` | examples/SCHEDULER-FLP-EPN/flp.cxx:60-104 | one round of the FLP loop: a message of the wrong size leaves the old plan in force, the pieces sent and the counter are those of the plan, and it ends well exactly when every entry has a channel |
| `TimeframeProtocol.RoundIsItsSends` | examples/SCHEDULER-FLP-EPN/flp.cxx:84-104 | the whole loop puts into each channel what the single sends of the protocol put there, and moves the counter as they do |
| `QueuedStateMachine.QueueRefinesPlainMachine` | fairmq/StateMachine.cxx:63-173 | in every interleaving the states entered followed by those queued are the walk of the unqueued machine over the accepted transitions, and errors are last in the queue |
| `QueuedStateMachine.ExitingIsFinal` | fairmq/StateMachine.cxx:107-173 | once Exiting is entered or queued no regular transition is ever accepted again |
| `QueuedStateMachine.NothingLeftBehind` | fairmq/StateMachine.cxx:71-102 | when the machine is in Exiting, every accepted transition has been entered |
| `QueuedStateMachine.SubscribersSeeOneChain` | fairmq/StateMachine.cxx:71-102 | the (new, old) pairs given to subscribers chain, each old being the new before, and are the states entered, at most one behind |
| `QueuedStateMachine.StateMachine.ChangeState` | fairmq/StateMachine.cxx:107-132 | returns what the transition from the last queued state gives, and queues it exactly when there is one |
| `QueuedStateMachine.AcceptsWhatPlainMachineDoes` | fairmq/StateMachine.cxx:107-132 | in every interleaving without a queued error a transition is accepted if and only if the plain machine takes it after all accepted before, and otherwise nothing changes |
| `QueuedStateMachine.ErrorIsQueued` | fairmq/StateMachine.cxx:113-127 | an error is queued in any regular state until one has been entered |
| `QueuedStateMachine.NothingBehindError` | fairmq/StateMachine.cxx:121-127 | behind a queued error no regular transition is accepted |
| `MachineTables.SameAnswers` | fairmq/StateMachine.cxx:134-173 | in every state but PAUSED and for every external transition it leads where the device machine's table leads, or both refuse |
| `MachineTables.AutomaticIsHandlerEnd` | fairmq/StateMachine.cxx:141-163 | Automatic leads from each one-shot state where the end of its handler leads, and is refused elsewhere |
| `MachineTables.ErrorFoundOnce` | fairmq/StateMachine.cxx:166-170 | ErrorFound leads from Ok to Error and from nowhere else |
| `MachineTables.WalkAccounted` | fairmq/StateMachine.cxx:134-173 | after any walk the counts of device, task and run transitions done and undone, of Automatic and of End are those of the state reached |
| `MachineTables.BackToIdleExactly` | fairmq/StateMachine.cxx:134-173 | a walk ends in Idle if and only if every InitDevice is undone, no Automatic is outstanding and there is no End |
| `MachineTables.Undone` | fairmq/StateMachine.cxx:151-163 | Stop undoes Run, and each reset with its Automatic undoes its initialisation |
| `QueuedStateMachine.StateMachine.Reset` | fairmq/StateMachine.cxx:181-188 | the machine is back at Idle and Ok with an empty queue |
| `QueuedStateMachine.LoopIsRun` | fairmq/StateMachine.cxx:71-102 | the rounds of a loop are a run of the step function without resets whose requests are those of the rounds, none lost, repeated or reordered |
| `QueuedStateMachine.StateMachine.Run` | fairmq/StateMachine.cxx:63-105 | for any requests arriving while it waits or emits, each round serves its requests and enters and emits the queued state if there is one; all rounds are made unless it stops, and it stops only in Exiting or Error |
| `QueuedStateMachine.StopsExactly` | fairmq/StateMachine.cxx:101-101 | in every run with one start and no reset, the loop between rounds has stopped if and only if the machine is in Exiting or Error |
| `QueuedStateMachine.ErrorStopsLoop` | fairmq/StateMachine.cxx:80-101 | a queued error, once first, is entered by the error machine and stops the loop, leaving the regular state |
| `QueuedStateMachine.LoopEntersAll` | fairmq/StateMachine.cxx:71-102 | left to itself the loop enters all queued states in order, tells of each, and ends in the last |
| `DeviceMachine.HandshakeHolds` | fairmq/FairMQStateMachine.cxx:371-401 | in every reachable state and step: active work is available work, is not replaced while active, a handler begins only as the newest post, and work is only withdrawn by the handler that did it or by a worker dying in its callbacks |
| `DeviceMachine.WithdrawnExactly` | fairmq/FairMQStateMachine.cxx:652-665 | in every run a post is taken back before it was executed if and only if a state change callback throws after that post was made |
| `DeviceMachine.WithdrawnHappens` | fairmq/FairMQStateMachine.cxx:393-399 | a run from the start in which INIT_TASK, accepted while the callbacks hear of DEVICE_READY, is taken back and the device stays in INITIALIZING_TASK |
| `DeviceMachine.HandlersRunAtMostOnce` | fairmq/FairMQStateMachine.cxx:203-299 | no post is executed twice, only a post of RunWrapper or PauseWrapper can be overtaken before it began, and any other that has not begun is the newest and still waiting unless the worker has died |
| `DeviceMachine.NotLeftBeforeHandlerBegan` | fairmq/FairMQStateMachine.cxx:302-319 | an initialising or resetting state is not left before its own handler has begun |
| `DeviceMachine.AtMostOneCallerAhead` | fairmq/FairMQStateMachine.cxx:193-299 | while a handler runs, the visible state is one of those listed for it, and differs from the machine's region only by the one caller inside `ChangeState` |
| `DeviceMachine.MutualWaitIsStuck` | fairmq/FairMQStateMachine.cxx:438-515 | once a waiting caller and a handler that needs its mutex face each other, nothing but an exception in the handler changes the state |
| `DeviceMachine.MutualWaitOnlyInRun` | fairmq/FairMQDevice.cxx:545-549 | of all handlers only RunWrapper can be caught in it |
| `DeviceMachine.MutualWaitExactly` | fairmq/FairMQStateMachine.cxx:203-257 | in every run a step leads into the mutual wait if and only if it is STOP or PAUSE after RunWrapper saw RUNNING, or RunWrapper seeing the RUNNING of a RUN caller that waits for it |
| `DeviceMachine.MutualWaitHappens` | fairmq/FairMQDevice.cxx:545-549 | runs from the start that reach it by STOP and by PAUSE between RunWrapper's check and its own event |
| `DeviceMachine.MutualWaitHappensToRun` | fairmq/FairMQDevice.cxx:545-549 | a run from the start that reaches it by RUN, STOP and RUN again around a late pick-up |
| `DeviceMachine.GetsRunning` | fairmq/FairMQStateMachine.cxx:302-319 | a run from the start to RUNNING with its handler at work |
| `DeviceMachine.PausesAndResumes` | fairmq/FairMQStateMachine.cxx:312-315 | from every RUNNING with its handler at work PAUSE leads to PAUSED and RUN back, each with its own handler at work |
| `DeviceMachine.EndIsTheEnd` | fairmq/FairMQStateMachine.cxx:270-288 | in every run a device that is EXITING has told its worker to leave, which a free worker does, and unless one was just picked up no handler begins and none is posted in any continuation |
| `ShutdownSequence.ShutdownOnlyDescends` | fairmq/plugins/Control.cxx:351-384 | at every step of every interleaving the device only moves towards Exiting, strictly so at each accepted request |
| `ShutdownSequence.FourRequestsAtMost` | fairmq/plugins/Control.cxx:351-384 | the accepted requests are a subsequence of STOP, RESET_TASK, RESET_DEVICE, END, so at most four |
| `ShutdownSequence.ReturnMeansDown` | fairmq/plugins/Control.cxx:261-279 | if the sequence returns the device is exiting or in error, and if it throws the device is in error |
| `ShutdownSequence.NeverWaitsOnExiting` | fairmq/FairMQStateMachine.cxx:277-277 | no interleaving leaves Control waiting with an empty queue on a device that is EXITING without error |
| `ShutdownSequence.ShutsDownExactly` | fairmq/plugins/Control.cxx:351-384 | over all starts, some interleaving takes the device to EXITING without error and returns, if and only if the start is without error and the worker has not failed or the state is IDLE or EXITING |
| `ShutdownSequence.FourRequestsTakeItDown` | fairmq/plugins/Control.cxx:357-370 | a device with its run at work can be taken to EXITING by STOP, RESET_TASK, RESET_DEVICE, END, each accepted once |
| `ShutdownSequence.ToldWhatIs` | fairmq/FairMQStateMachine.cxx:399-399 | every event is the state to be read right after it, but for the RUNNING of a late RunWrapper and what a wrapper announces after an error |
| `ShutdownSequence.HungIsStuck` | fairmq/plugins/Control.cxx:261-279 | a hung shutdown is changed by nothing but an error |
| `ShutdownSequence.HangsExactly` | fairmq/plugins/Control.cxx:351-384 | over all starts, some interleaving leaves Control waiting for ever on a device that is up if and only if the start is in a one-shot state or RUNNING, without error and with the worker not failed; from every other start no interleaving does |
| `ShutdownSequence.ShutdownCanHang` | fairmq/plugins/Control.cxx:353-354 | from each such start the interleaving: the state is read, the handler ends, the queue with its news is emptied, the request for the old state is refused |
| `ShutdownSequence.MissesErrorExactly` | fairmq/plugins/Control.cxx:353-379 | some interleaving leaves Control waiting for ever on a device in error if and only if the start is neither in error nor EXITING |
| `ShutdownSequence.MissedErrorIsStuck` | fairmq/plugins/Control.cxx:261-279 | that wait is ended by no step at all |
| `ShutdownSequence.MissesOwnErrorExactly` | fairmq/plugins/Control.cxx:353-379 | if no thread but the worker finds errors, one can be missed for ever if and only if the start is neither in error nor EXITING and the worker is not at rest |
| `SharedMemory.ChunkHasOneOwner` | fairmq/shmem/FairMQMessageSHM.cxx:128-402 | in every run a live chunk is owned by one message or one header in flight, a dead one by none, and allocations equal deallocations plus live chunks |
| `SharedMemory.FreesOnlyAllocated` | fairmq/shmem/FairMQMessageSHM.cxx:338-402 | in every run a message about to deallocate has a chunk that is still allocated |
| `SharedMemory.NoDoubleFree` | fairmq/shmem/FairMQMessageSHM.cxx:338-402 | in every run two messages about to deallocate have different chunks |
| `SharedMemory.RegionBlocksConserved` | fairmq/shmem/Region.cxx:64-88 | every block made is held, in flight, acknowledged or called back, once each; no acknowledgement queue exceeds its capacity and callbacks come to the block's own region |
| `SharedMemory.ComeBackGrows` | fairmq/shmem/FairMQMessageSHM.cxx:338-402 | an action adds to what has come back to a region the block of the message it destroys, or nothing, and changes no order |
| `SharedMemory.CalledBackInOrder` | fairmq/shmem/Region.cxx:64-88 | in every continuation blocks are called back in the order in which they came back |
| `SharedMemory.PartsInOrder` | fairmq/shmem/FairMQSocketSHM.cxx:335-388 | a multipart receive makes one message for each header, in order, with its handle, size, region and hint |
| `SharedMemory.FramesInOrder` | fairmq/shmem/FairMQSocketSHM.cxx:177-213 | whatever else happens a socket gives its frames out first in, first out |
| `SharedMemory.PartsArriveInOrder` | fairmq/shmem/FairMQSocketSHM.cxx:247-295 | in every run messages sent together come out, once the frames before theirs are taken, in the same order and with the same handle, size, region and hint |
| `SharedMemory.MessageArrives` | fairmq/shmem/FairMQSocketSHM.cxx:122-141 | the same for a message sent alone, which the receiver then owns |
| `SharedMemory.MadeAsAsked` | fairmq/shmem/FairMQMessageSHM.cxx:28-126 | a new message owns a chunk of the size asked for, or a block with the hint its region is to be told, or nothing |
| `SharedMemory.CopyExactly` | fairmq/shmem/FairMQMessageSHM.cxx:292-336 | a copy is made if and only if the target is empty and the source's handle is not 0, and is a chunk of its own of the source's size |
| `SharedMemory.UsedSizeIsSent` | fairmq/shmem/FairMQMessageSHM.cxx:254-285 | a used size that does not grow is the size the message is sent with, and one that does changes nothing |
| `SharedMemory.SendHandsOverExactly` | fairmq/shmem/FairMQSocketSHM.cxx:122-141 | in every run a send of an owning message puts its header in flight and ends its ownership if and only if the message was not made by a multipart receive; a part goes out as an empty frame and stays owned |
| `SharedMemory.ReceivingMakesParts` | fairmq/shmem/FairMQSocketSHM.cxx:335-388 | in every run each header of a received multipart message becomes a message that owns what it names and is such a part |
| `SharedMemory.PartSentAloneStays` | fairmq/shmem/FairMQSocketSHM.cxx:122-141 | for any two different chunks of any sizes a run from the start in which a received part is not handed over by its send |
| `RateLimiter.SafeExactlyInRange` | fairmq/tools/RateLimit.h:51-121 | for every requested period, 0 included: no division by zero, no count below one and no failing assertion in any run with a clock that does not go back, if and only if the period is 3 ns to 1 s |
| `RateLimiter.SlownessBacksOff` | fairmq/tools/RateLimit.h:81-94 | over any number of looks that are all too slow the checks get rarer by at least one each, up to one a second, and no sleep is added |
| `RateLimiter.FastnessSlowsDown` | fairmq/tools/RateLimit.h:95-113 | over any number of looks that are all too fast the count falls by at least one each to its minimum, and from there the sleep grows at each |
| `RateLimiter.FastLookSleepsMore` | fairmq/tools/RateLimit.h:110-110 | too fast at the smallest count, the sleep grows, by no more than the time short |
| `RateLimiter.SlowLookSleepsLess` | fairmq/tools/RateLimit.h:85-88 | too slow with a sleep, the sleep shrinks, by no more than the time over and not below nothing |
| `RateLimiter.InBandIsLeftAlone` | fairmq/tools/RateLimit.h:81-95 | within the band nothing is corrected |
| `RateLimiter.BandExactly` | fairmq/tools/RateLimit.h:81-95 | too slow is more than a 64th above the period, too fast at least a 64th and a nanosecond below it |
| `RateLimiter.PeriodIsLearned` | fairmq/tools/RateLimit.h:74-79 | with calls at an even distance the measured period is at each further look at most a quarter as far from it, rounding aside |
| `RateLimiter.LookedAtEverySecond` | fairmq/tools/RateLimit.h:90-92 | in every run the calls between two looks are at most a second's worth |
| `RateLimiter.Limiter.constructor` | fairmq/tools/RateLimit.h:51-61 | the first count is five milliseconds' worth of calls, at least one |
| `RateLimiter.Limiter.MaybeSleep` | fairmq/tools/RateLimit.h:70-121 | the new state is the specified one, the sleep is the new positive correction at a look and nothing otherwise, and the invariant is kept |
| `RateLimiter.Limiter.Adjust` | fairmq/tools/RateLimit.h:81-113 | the new sleep and skip count are the specified correction of the measured period |
| `TransportPolling.CallbacksNeverOverlap` | fairmq/FairMQDevice.cxx:683-710 | in every run at most one polling thread is inside a user callback |
| `TransportPolling.OnlyTheLastOutcomeStops` | fairmq/FairMQDevice.cxx:673-723 | an outcome that asks to stop is the last of the run: no callback is entered or reported after it, whatever the threads do |
| `TransportPolling.CallbackCanRun` | fairmq/FairMQDevice.cxx:683-710 | in every run, while nothing has stopped it and the mutex is free, every polling thread can get into its callback |
| `TransportPolling.OthersGoOn` | fairmq/FairMQDevice.cxx:718-722 | a callback that returns true or throws leaves the other threads as they were, the mutex free and the flag up |
| `ChannelConfig.KeyInjective` | fairmq/options/FairMQProgOptions.cxx:263-271 | two member keys are equal only for the same channel name, index and member, for all names, dotted ones included |
| `ChannelConfig.CountKeyApart` | fairmq/options/FairMQProgOptions.cxx:295-295 | the socket count of no channel is stored under a member key of any channel |
| `ChannelConfig.RebuiltKeyIsKey` | fairmq/FairMQChannel.cxx:138-151 | prefix and index cut out of `name[i]` give back the configuration's own key, for all names, with brackets and dots |
| `ChannelConfig.AgreementKeptExactly` | fairmq/options/FairMQProgOptions.cxx:299-357 | `SetValue` keeps variable map and channel map in agreement if and only if the value has the type of the member its key names and a transport is a known one; stale and foreign keys do no harm |
| `ChannelConfig.RunAgrees` | fairmq/options/FairMQProgOptions.h:54-78 | any run of calls whose values fit when it begins ends with both maps in agreement |
| `ChannelConfig.LastValueWins` | fairmq/options/FairMQProgOptions.h:54-78 | after such a run each channel member is the value last set under its own key, or unchanged if there was none |
| `ChannelConfig.KernelSizeDrifts` | fairmq/options/FairMQProgOptions.cxx:332-357 | setting a kernel size changes no channel, so the copies agree on it only if nothing was changed |
| `ChannelConfig.KeysSpelledOut` | fairmq/options/FairMQProgOptions.cxx:263-295 | after a rebuild the nine literal keys of every channel and the key of its count hold its nine settings and its number of sockets |
| `ChannelConfig.SetMarksChannel` | fairmq/FairMQChannel.cxx:279-420 | a fitting value set under such a key reaches that member, leaves the other members and channels, and marks the channel modified and not valid |
| `ChannelConfig.TakesOwnType` | fairmq/options/FairMQProgOptions.cxx:299-357 | a value is carried over if and only if the member is not a kernel size and has the value's type |
| `ChannelConfig.OutcomeExactly` | fairmq/options/FairMQProgOptions.h:54-78 | a set is done if and only if it ends well and out of range if and only if its channel is gone, and otherwise only the variable map has changed |
| `ChannelConfig.TextReadsBack` | fairmq/options/FairMQProgOptions.cxx:463-482 | an integer is read back from its text, sign included |
| `ChannelConfig.SetKeepsCopyExactly` | fairmq/options/FairMQProgOptions.h:54-78 | a subscriber's copy, kept by replaying what it is told, stays equal to the variable map over a set if and only if the call ends well or sets the value that was there |
| `ChannelConfig.RebuildKeepsCopyExactly` | fairmq/options/FairMQProgOptions.cxx:255-297 | over a rebuild it does so if and only if every member and count of the new channels was already stored |
| `ChannelConfig.SubscribersKeepUp` | fairmq/options/FairMQProgOptions.h:54-78 | over any run of sets and rebuilds the copy equals the variable map all the way if and only if every call tells all that it changes |
| `ChannelConfig.SetsKeepUp` | fairmq/options/FairMQProgOptions.h:54-78 | sets alone keep the copy equal if they end well as the channels are at the start, whatever types they set |
| `ChannelConfig.SomeCopyInStepExactly` | fairmq/options/FairMQProgOptions.h:54-78 | some copy equals the variable map if and only if the last told value of every key is its current one |
| `ChannelConfig.TextsFollow` | fairmq/options/FairMQProgOptions.cxx:463-482 | over any run each change is told as value and as text, in the same order and with the same meaning |
| `ChannelConfig.StaleKeyFails` | fairmq/options/FairMQProgOptions.cxx:154-165 | for every channel: after a second channel map without it, setting its type fails, and every copy in step before is out of step unless the value is the old one |
| `ChannelConfig.RebuildIsSilent` | fairmq/options/FairMQProgOptions.cxx:236-242 | the copy in step with a new object is still so after its first channel map if and only if that map is empty |
| `ChannelConfig.SetThenRebuilt` | fairmq/options/FairMQProgOptions.cxx:236-242 | for every channel: after a set of its type and a rebuild from the old channels some copy is in step if and only if the value is the old one |
| `ChannelConfig.ProgOptions.SetValue` | fairmq/options/FairMQProgOptions.h:54-78 | new maps, both events and outcome are the specified ones, including the missing channel of a stale key and the exit on an unknown transport, after which nothing is emitted |
| `ChannelConfig.ProgOptions.UpdateChannelValue` | fairmq/options/FairMQProgOptions.cxx:299-357 | exactly the named member of the named channel changes when both exist and the type fits, and otherwise nothing does |
| `ChannelConfig.ProgOptions.UpdateMQValues` | fairmq/options/FairMQProgOptions.cxx:255-297 | in any iteration order all nine members of all channels are stored and indexed, every count is stored, no other key is touched, and the maps agree |
| `ChannelConfig.ProgOptions.UpdateChannelMap` | fairmq/options/FairMQProgOptions.cxx:236-253 | the same for a replaced channel map, whatever was stored before, together with the channel sizes |

## Left out

- Clocks, random delays, logging, result files and `exit`: time stamps are parameters, an exit is an outcome.
- The way a running program ends itself after its programme time in the scheduler, FLP and EPN loops.
- Liveness: that threads make progress is not stated, apart from the two ways of getting stuck.
- Condition variables and mutexes are modelled by atomic actions, so weak memory effects and the unlocked reads of `freeSlots` by the EPN's sender thread are not.
- The device machine and shared memory are modelled on values and steps: no aliasing of message objects, no contents of chunks.
- `SharedMemory.Run`: socket retries, timeouts and interruption, `Rebuild`, region removal and `Manager::Resume` are not actions.
- `SharedMemory.SentParts`: a message without a header in its frame, fresh or already sent alone, is not accepted as a part; the source copies whatever its buffer holds.
- `SharedMemory.RegionBlocksConserved`: a region message is assumed to point into its region, since the bounds test in the source joins its two halves with "or".
- Pause and resume during a shutdown: the shutdown theorems start from devices that have never been paused.
- `RateLimiter.SafeExactlyInRange`: durations are unbounded integers, and the conversion from a `float` rate to the period is not modelled.
- Two threads setting the same key at once: the text event, which reads the map again outside the first lock, may then carry the other's value.
- `AddChannel`, which changes the channel map alone, and the parsers that fill the first channel map.
- Plugin loading, device control handover between plugins, DDS, network tools, the other transports and the sample devices: they would add easy members only.
