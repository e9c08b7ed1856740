# Mittelwerk: a verified model

This project models the parts of Mittelwerk in which several functions must agree, and proves that they do.

**The dispatch engine** (`mittelwerk/core`). A two-sided matching engine: a queue per asset whose sides are sorted rate
levels of FIFO orders with an id index beside them, a matching loop that assigns at the resting rate, residuals that rest or are
cancelled, and signed workloads with average rates and realised and unrealised cost.
- `Orders`, `FlatMatch`, `Workloads`: values, the matcher over one flat list and what it computes, cost accounting.
- `Dispatch`: one submission, cancellation or repricing as a function on states.
- `QueueInvariant`, `Conservation`, `Lifecycle`, `Invariant`, `Steps`: what every step keeps.
- `Runs`, `FillOrKill`, `DeepQueues`: what follows for every reachable state and every run.
- `MatchTerms`, `Outcomes`: the same operations said of rates, hours, names and fields alone.
- `QueueModel`, `Queues`, `Matchers`, `Engines`: the classes. Levels, deque, index, shared order objects and workloads are
  updated in place; every method is proved to do what the functions say, and `DispatchEngine.Valid` says that the engine stands in a
  reachable state of `Runs`, so all its theorems hold of the objects.

**The scenario lifecycle** (`scripts/workshop.py`). `start`, `reset` and `resume` as sequences of atomic file system steps under a
durable state record; a crash keeps any prefix.
- `Workspaces`, `Scenarios`: the file system, and the steps of each command.
- `ScenarioSafety`: every run of commands, edits and crashes. `ScenarioWork`, `ScenarioStage`: what archive, rebuild and staging hold.
- `ScenarioRuns`, `ScenarioTrees`: records, archives and trees over runs, and the round trip of reset and resume.
- `ScenarioTerms`, `AttemptTexts`: what the commands look at, said of names, sizes, modes and bytes, and the text of
  `attempt.json`.
- `Workshops`: the commands as methods that take the steps one by one, with the loops and worklists of the script.

**The event bus** (`mittelwerk/core/events.py`). `EventLogs` is the bounded log against its full history, `BusModel` the interleaved
actions of publishers, subscribers, dispatch loops, starts and stops, `BusProgress` what joining, handing over and stopping mean,
`EventBuses` the class that refines it.

**Smaller cores.** `RateLimits` is the token bucket, `Intervals` the aggregation of readings, `OperationsModel`, `UnitTerms`,
`NettingOrder`, `Operations` and `Backlogs` the algebra of organization units and the maximum overrun, `Snapshots` the byte stream of a source tree, `Options` and
`Words` what they share.

`dafny verify dfyconfig.toml` checks everything.

## Where the model answers a question

- *Complete-or-nothing check.* It looks at 1,000,000 levels. `FillOrKill.RightUpToDepth` shows that it is right about every order if
  and only if the side has no more, and `DeepQueues.DeepQueueRefuses` reaches a side that has.
- *"No event is lost on shutdown"* (`mittelwerk/core/events.py:287`) does not hold of an event published after a dispatch loop has
  ended and before `stop` returns: `BusModel.LateEventStays` is such a run, and `BusModel.StopDrains` says exactly when a queue is
  empty.
- *A reset after a crash.* When the backup has been renamed back and the crash comes before the state is cleared, later resets
  refuse. `ScenarioSafety.ResetRestores` gives the exact condition, `ScenarioSafety.StuckReset` and
  `ScenarioSafety.StuckAfterStart` the runs; nothing is lost even then.
- *A reset and special mode bits.* A staged file whose set-user-id, set-group-id or sticky bit alone was changed counts as unchanged
  (`scripts/workshop.py:2173`), so the bits are not archived. `ScenarioWork.ResetKeepsExactly` says when that happens,
  `ScenarioWork.SetUserIdLost` is the smallest case.
- *Attempts that cannot be resumed.* `ScenarioWork.AcceptedExactly` and `ScenarioRuns.AcceptedOverRuns` say exactly which archives a
  resume accepts. A file called `my notes.txt` is enough for a refusal (`ScenarioWork.NotesAreUnsafe`).
- *The order of workloads.* Net hours and costs never depend on it. Average rates do, and `NettingOrder.RateNeedsNoOrder` says
  exactly when they do not.
- *Scaling by 0* distributes over the sum of units only when nothing is left of the assets that both hold:
  `OperationsModel.ScaleDistributes` and `OperationsModel.ZeroClearsRates`.
- *Equality-based removal from a level* takes the right order because ids are distinct: `Queues.RateLevel.RemoveWorkOrder`.

## Model

| member | source | states |
|---|---|---|
| FlatMatch.MatchClosedForm | mittelwerk/core/engine.py:414-457 | One match consumes a prefix of the crossable orders: position by position, which resting order is hit, for how many hours (what is still needed after everything before it), at its own rate; all but the last are fully assigned and removed; the rest of the side is untouched. |
| FlatMatch.MatchHours | mittelwerk/core/engine.py:414-457 | The hours of a match are the smaller of what the order needs and what it may cross. |
| FlatMatch.MatchIncoming | mittelwerk/core/engine.py:459-519 | A match changes nothing of the incoming order but its hours (by the hours filled) and its average, keeps it valid, and leaves a side that may rest. |
| FlatMatch.MatchStops | mittelwerk/core/engine.py:422-445 | A match ends only when the order is satisfied, the side is empty or the best rate left is not acceptable. |
| FlatMatch.MatchRatesNeverImprove | mittelwerk/core/engine.py:414-457 | On a sorted side, the rates along one match never improve for the incoming order. |
| FlatMatch.MatchPassBound | mittelwerk/core/engine.py:414-457 | The loop makes at most as many passes as there are resting opposite orders. |
| MatchTerms.CrossableWithin | mittelwerk/core/engine.py:430-445 | A request may cross exactly the orders before the first with a rate above its cap, an offer those before the first below its ask, an order without a limit every one. |
| MatchTerms.MatchKeepsLimit | mittelwerk/core/engine.py:430-445 | Every assignment of a rate-capped request is at most at its cap, of such an offer at least at its ask. |
| MatchTerms.MatchStopsAtLimit | mittelwerk/core/engine.py:422-445 | A match that ends with hours to assign and orders left has met a limit: the best rate left is strictly above the cap, or strictly below the ask. |
| MatchTerms.FillTerms | mittelwerk/core/engine.py:459-519 | Each assignment names requester and provider by side and trades at the resting rate; the resting order gives all it has unless it is the last, is ASSIGNED when nothing is left and PARTIALLY_ASSIGNED otherwise, and its average carries the value of what it gave. |
| MatchTerms.RestTerms | mittelwerk/core/engine.py:447-457 | Orders served completely are gone, one served in part comes first, and behind it nothing changed. |
| MatchTerms.IncomingAverage | mittelwerk/core/engine.py:520-530 | The average of the incoming order carries the value of all it was assigned, and of what it arrived with. |
| Matchers.Matcher.Match | mittelwerk/core/engine.py:414-457 | The loop over the real queue and the shared order objects leaves what the flat matcher says: fills, both orders' fields, the side with its level structure, and the workloads; the other side and all untouched orders stay as they were. No assignment is above a cap or below an ask, and if hours and orders are left, the best rate left is. |
| Matchers.Matcher.Pass | mittelwerk/core/engine.py:422-455 | One pass: the assignment at the resting rate, and the best order popped exactly when it is used up. |
| Matchers.Matcher.ExecuteAssignment | mittelwerk/core/engine.py:459-519 | One assignment changes the two orders' hours, average and the resting status, and both signed workloads, and nothing else. |
| Matchers.Matcher.CanAssignFully | mittelwerk/core/engine.py:532-560 | The scan over the rate levels decides what the specification of the check says, without touching the queue. |
| FillOrKill.AvailableIsCrossable | mittelwerk/core/engine.py:532-560 | The check never counts more than the crossable hours, and exactly those when the side has at most 1,000,000 levels. |
| FillOrKill.YesMeansAll | mittelwerk/core/engine.py:328-346 | When the check says yes, the matcher leaves nothing remaining. |
| FillOrKill.NoMeansTooLittle | mittelwerk/core/engine.py:532-560 | With at most 1,000,000 levels, yes holds exactly when the crossable hours suffice, and exactly when the matcher would assign everything. |
| FillOrKill.WrongBeyondDepth | mittelwerk/core/engine.py:532-560 | On any side with more levels than that, an order of any asset for everything that rests is refused although the matcher would assign it whole. |
| DeepQueues.DeepQueueRefuses | mittelwerk/core/engine.py:328-353 | Such a side is reached: after more than a million offers at as many rates, submitted one by one, a COMPLETE request for all of them ends CANCELLED, although the matcher would assign it whole. |
| DeepQueues.LadderLevels | mittelwerk/core/engine.py:532-560 | A ladder of n offers at n rates has n levels. |
| FillOrKill.RightUpToDepth | mittelwerk/core/engine.py:532-560 | The check is right about every order if and only if the side has at most 1,000,000 levels. |
| FillOrKill.CompleteOrNothing | mittelwerk/core/engine.py:328-346 | A submitted COMPLETE order ends ASSIGNED with nothing remaining, or CANCELLED with queue contents, workloads, log and every other order unchanged; the check decides which. |
| Queues.RateLevel.RemoveWorkOrder | mittelwerk/core/queue.py:54-59 | Finding by id and removing by equality takes the first order of that id out of its place, and nothing else, even when two orders share the id. |
| Queues.RateLevel.TotalHours | mittelwerk/core/queue.py:61-63 | The hours of a level are those its live orders have left. |
| Queues.SortedLevels.Locate | mittelwerk/core/queue.py:108-124 | The place of a rate among the sorted levels, found or to be opened. |
| Queues.SortedLevels.Add | mittelwerk/core/queue.py:108-124 | An order joins the end of its rate's level: behind every order at a better or the same rate. |
| Queues.SortedLevels.PopFirst | mittelwerk/core/queue.py:208-217 | The best order leaves, with its level when that becomes empty. |
| Queues.SortedLevels.Remove | mittelwerk/core/queue.py:126-140 | The order of that id leaves its level, with the level when that becomes empty; every other order keeps its place. |
| Queues.DispatchQueue.AddWorkOrder | mittelwerk/core/queue.py:108-124 | Insertion keeps the queue valid (sorted levels, none empty, index exact) and puts the order at its price-time place; without a rate it is refused. |
| Queues.DispatchQueue.PopBest | mittelwerk/core/queue.py:198-217 | Popping takes the first order of the flat list, and its index entry, and nothing else. |
| Queues.DispatchQueue.PeekBest | mittelwerk/core/queue.py:219-231 | The peek shows the first order of the flat list. |
| Queues.DispatchQueue.CancelWorkOrder | mittelwerk/core/queue.py:126-140 | Returns nothing exactly when no resting order has the id; otherwise takes that order out of its place and of the index. |
| Queues.DispatchQueue.FirstLevels | mittelwerk/core/queue.py:178-194 | The first levels of a side, at least one if there is any. |
| Queues.FlatAdded | mittelwerk/core/queue.py:108-124 | Seen flat, adding inserts one order at one position. |
| Workloads.AssignMovesBasis | mittelwerk/core/models.py:386-427 | Opening, increasing, reducing, closing or flipping: net hours move by the signed hours, realised cost less average times net by the signed value, and the workload is marked at the rate. |
| Workloads.AssignAccounts | mittelwerk/core/models.py:386-427 | On an idle workload: the rate is the average. On the open side: the average weighted by hours, nothing realised. Against it: fewer hours than are open keep the average and realise the rate less the average on those hours, with the sign of the open side; as many realise it on all of them and leave average 0; more leave the rate as average. The unrealised cost is the rate less the average on what is then open. |
| Workloads.FillBooksBoth | mittelwerk/core/engine.py:502-507 | An executed assignment is a request of one organization and then an offer of the other, also when they are the same; no other workload is opened or changed. |
| Workloads.CostIsPathIndependent | mittelwerk/core/models.py:386-441 | After any assignments and reprices, realised cost is average times net less the signed value assigned, and total cost is the mark times net less that same value. |
| Workloads.Workload.ApplyAssignment | mittelwerk/core/models.py:386-427 | The fields afterwards, case by case as in Workloads.AssignAccounts, and the realised cost returned; hours that are not positive are refused without change. |
| Workloads.Workload.RepriceAt | mittelwerk/core/models.py:429-435 | Only the mark and the unrealised cost change. |
| Workloads.WorkloadManager.GetWorkload | mittelwerk/core/engine.py:116-122 | The workload of the key, opened idle on first use; no other workload changes. |
| Workloads.WorkloadManager.ApplyAssignment | mittelwerk/core/engine.py:128-138 | One workload takes the assignment, or is only opened when the hours are not positive; all others stay. |
| Workloads.WorkloadManager.RepriceAsset | mittelwerk/core/engine.py:150-153 | Every workload of the asset that is not idle, and no other, takes the mark. |
| Workloads.ApplyFillsSums | mittelwerk/core/engine.py:502-507 | Booking both sides of each assignment keeps the sum over organizations of net hours and of cost basis. |
| Workloads.CostAtOneMark | mittelwerk/core/engine.py:348-350 | When the open workloads of an asset share a mark, its total cost is that mark on the summed net hours plus the summed basis. |
| Workloads.ZeroCost | mittelwerk/core/engine.py:348-350 | Zero net, zero basis and one mark give zero total cost. |
| Steps.SubmitKeeps | mittelwerk/core/engine.py:275-398 | A submission keeps the whole engine invariant. |
| Steps.CancelKeeps | mittelwerk/core/engine.py:564-587 | A cancellation keeps it. |
| Steps.RepriceKeeps | mittelwerk/core/engine.py:150-153 | A repricing keeps it. |
| Runs.QueuedOrders | mittelwerk/core/engine.py:355-383 | In every reachable state each resting order is RATE_CAPPED, OPEN, ACCEPTED or PARTIALLY_ASSIGNED, has hours left and is the engine's own record of its id; requests stand by falling rate, offers by rising rate, and at one rate by arrival; ids on a side are distinct. |
| Runs.UnfinishedQueued | mittelwerk/core/engine.py:355-398 | In every reachable state every unfinished order is in its queue. |
| Runs.NeverCrossed | mittelwerk/core/engine.py:414-457 | In every reachable state each request rate is strictly below each offer rate of the asset. |
| Runs.ZeroSum | mittelwerk/core/engine.py:348-350 | In every reachable state, net hours and total cost of an asset, each summed over all organizations, are 0. |
| Runs.WorkloadsFollowLog | mittelwerk/core/engine.py:502-507 | In every reachable state each workload's net hours, realised and total cost follow from the assignment log, its average and its mark. |
| Runs.OrderAccounts | mittelwerk/core/engine.py:459-530 | In every reachable state each order's hours are those of its log entries and at most those requested; its average times its hours is their value, and is at most its cap if it is a rate-capped request, at least its ask if it is such an offer. |
| Runs.LifecycleWords | mittelwerk/core/engine.py:275-410 | The published events of any id form a word of SUBMITTED followed by REJECTED, or by ACCEPTED, any number of PARTIALLY_ASSIGNED, and ASSIGNED or CANCELLED; or a prefix of one. The last event tells the status. |
| Runs.SubmittedOnce | mittelwerk/core/engine.py:285-287 | An id is submitted at most once in a whole run. |
| Runs.FinishedForEver | mittelwerk/core/engine.py:564-625 | After a terminal status no run changes a field of the order or publishes an event for it. |
| Runs.RunExtends | mittelwerk/core/engine.py:275-410 | Every run only extends the events, the assignment log and what was recorded of each order. |
| Lifecycle.PhaseMeansLanguage | mittelwerk/core/engine.py:589-625 | The phases the invariant tracks accept exactly that language. |
| Conservation.IncomingAccounted | mittelwerk/core/engine.py:459-530 | A match adds to the log exactly the hours and the value it adds to the incoming order. |
| Outcomes.RefusedOutcome | mittelwerk/core/engine.py:275-325 | A known id changes nothing. A new order is REJECTED exactly when it is not NEW, its mode or window is not served, its asset is unknown, its hours are no positive multiple of the lot or its cap none of the increment, or the check says no to it and the workload its organization has; and then only its record, its two events and perhaps an empty queue are new. |
| Outcomes.RefusableIs | mittelwerk/core/engine.py:236-271 | The boundary and the check refuse exactly those orders. |
| Outcomes.ResidualOutcome | mittelwerk/core/engine.py:355-398 | Every admitted order is assigned the smaller of its need and what it may cross, and ends ASSIGNED with nothing left; with hours left it is PARTIALLY_ASSIGNED or, if nothing was assigned, ACCEPTED when it is OPEN and RATE_CAPPED, and CANCELLED otherwise. |
| Outcomes.ResidualQueue | mittelwerk/core/engine.py:371-383 | Only an OPEN RATE_CAPPED residual joins its side, behind every rate at least as good and before every worse one; the other side is what the match left, and no other queue changes. |
| Outcomes.FinishedNotQueued | mittelwerk/core/engine.py:385-398 | A finished order stands in no queue. |
| Outcomes.StoodDownOutcome | mittelwerk/core/engine.py:328-338 | A COMPLETE order that cannot be served whole is accepted, CANCELLED, and trades nothing. |
| Outcomes.NewcomerEnds | mittelwerk/core/engine.py:275-398 | What every order that is not refused ends as, in any window and mode. |
| Outcomes.RecordsOutcome | mittelwerk/core/engine.py:340-346 | The orders the match touched are recorded as it left them, the assignments are logged, and no other record changes. |
| Outcomes.WorkloadsOutcome | mittelwerk/core/engine.py:348-350 | The workloads are those the assignments leave, one after the other, and every open one of the asset is valued at the rate of the last assignment. |
| Outcomes.ThreeEventsEach | mittelwerk/core/engine.py:341-346 | Each assignment is told by three events: executed, workloads moved, and the new status and hours of the resting order. |
| Outcomes.EventsOutcome | mittelwerk/core/engine.py:285-398 | A matched submission is told by SUBMITTED, ACCEPTED, its assignments, PARTIALLY_ASSIGNED if hours are left but some were assigned, and ASSIGNED, CANCELLED or nothing. |
| Outcomes.CancelOutcome | mittelwerk/core/engine.py:564-587 | A cancellation takes effect exactly on an unfinished order, asked for with its own asset or with none: it is CANCELLED with its hours and leaves its place, and nothing else changes. |
| Outcomes.RepriceOutcome | mittelwerk/core/engine.py:150-153 | A mark changes nothing but the open workloads of the asset, which it values. |
| QueueInvariant.InsertedUncrossed | mittelwerk/core/engine.py:371-383 | An order that the best opposite rate does not suit crosses nothing when it rests. |
| Engines.DispatchEngine.SubmitWorkOrder | mittelwerk/core/engine.py:275-353 | Submission of a shared order object takes the engine from state to state as the model's submission does; a known id is refused without change; the object is refused exactly when it is refusable and otherwise ends as Outcomes.NewcomerEnds says; the assignments returned are those appended to the log. |
| Engines.DispatchEngine.CancelWorkOrder | mittelwerk/core/engine.py:564-587 | Cancellation, with or without an asset, does what the model's does, and returns an order exactly when one was in a queue it looked at. |
| Engines.DispatchEngine.RepriceAsset | mittelwerk/core/engine.py:150-153 | Repricing does what the model's does. |
| Engines.DispatchEngine.Dispatch | mittelwerk/core/engine.py:328-353 | Complete-or-nothing check, match, log, events, end-of-match mark and residual of an admitted order, as in the model. |
| Engines.DispatchEngine.MatchAndBook | mittelwerk/core/engine.py:340-350 | Match, log, events and the new mark for all workloads of the asset. |
| Engines.DispatchEngine.Finalise | mittelwerk/core/engine.py:355-398 | With nothing left ASSIGNED; with hours left an OPEN RATE_CAPPED order rests, PARTIALLY_ASSIGNED if anything was assigned, and any other is CANCELLED; with the events of each. |
| Engines.DispatchEngine.LogAndPublish | mittelwerk/core/engine.py:341-346 | Each assignment is logged and published in order, with the event of the resting order it touched. |
| Engines.DispatchEngine.GetOrCreateQueue | mittelwerk/core/engine.py:199-204 | The queue of an asset, opened empty on first use. |
| Engines.DispatchEngine.IsAllowed | mittelwerk/core/engine.py:306-318 | The optional check sees the order and its organization's workload, without creating one. |
| EventLogs.EventLog.Append | mittelwerk/core/events.py:123-131 | Appends to the full history, of which the bounded log keeps the end, and returns the global sequence number. |
| EventLogs.EventLog.Replay | mittelwerk/core/events.py:133-144 | What is replayed from n is the full history from max(n, base), filtered. |
| EventLogs.ReplayResumes | mittelwerk/core/events.py:133-144 | A reader that goes on from where it stopped misses nothing and sees nothing twice. |
| EventLogs.FilterKeeps | mittelwerk/core/events.py:133-144 | A filter keeps every event whose type is asked for, or every event if none is, as often as it was there, and no other. |
| BusModel.DoKeeps | mittelwerk/core/events.py:218-321 | Every action of publishers, subscribers, loops, starts and stops keeps the bus invariant. |
| BusModel.Delivery | mittelwerk/core/events.py:218-303 | In every run, what a subscriber was handed followed by what is queued for it is, in order and once each, every matching event since it subscribed except those dropped. |
| BusModel.OnlyFullQueuesDrop | mittelwerk/core/events.py:222-236 | In every run, a publication is dropped for a subscriber exactly when it matches and that queue is full. |
| BusModel.StopDrains | mittelwerk/core/events.py:286-321 | When a stop may return, a callback queue is empty if and only if nothing that matches was published after its loop had ended. |
| BusModel.QuietStopDrains | mittelwerk/core/events.py:286-321 | With nothing published during the drain, every callback queue is empty when a stop returns. |
| BusModel.LateEventStays | mittelwerk/core/events.py:286-321 | A run in which an event published between the end of a loop and the end of the stop stays in its queue. |
| BusProgress.Joins | mittelwerk/core/events.py:238-276 | A subscriber with a new id joins with its own types, from the next event on, served at once if it has a callback and the bus runs; a taken id changes nothing. |
| BusProgress.Leaves | mittelwerk/core/events.py:256-282 | Who unsubscribes or closes its stream leaves, and the others stay as they are. |
| BusProgress.StaysOrJoins | mittelwerk/core/events.py:218-321 | No action changes the id, types, kind or start of a subscription, or takes back what was handed over. |
| BusProgress.HandsOver | mittelwerk/core/events.py:286-303 | A loop hands over the oldest queued event and is ready for the next when its callback is back; a stream does so in one step. |
| BusProgress.RunningServes | mittelwerk/core/events.py:305-310 | In every run, while the bus runs every callback subscriber has its loop, and no stream ever has one. |
| BusProgress.StopCanEnd | mittelwerk/core/events.py:312-318 | Whatever is queued or under way when a stop begins, turns and returns of the loops alone bring it to its end, and every event queued for a loop is handed over in order. |
| EventBuses.EventBus.Publish | mittelwerk/core/events.py:218-236 | Log and every queue change as in the model. |
| EventBuses.EventBus.Subscribe | mittelwerk/core/events.py:238-254 | A new subscriber, with a loop at once on a running bus; a taken id is refused without change. |
| EventBuses.EventBus.Unsubscribe | mittelwerk/core/events.py:256-262 | The subscriber and its loop are gone; nothing else changes. |
| EventBuses.EventBus.OpenStream | mittelwerk/core/events.py:264-276 | A stream consumer joins without a loop. |
| EventBuses.EventBus.CloseStream | mittelwerk/core/events.py:277-282 | A stream that is done is forgotten; no dispatch loop is touched. |
| EventBuses.EventBus.NextFromStream | mittelwerk/core/events.py:278-280 | A stream hands out the oldest queued event. |
| EventBuses.EventBus.Turn | mittelwerk/core/events.py:286-295 | One turn of a loop hands over the oldest event, goes on waiting, or ends when the bus is stopping and the queue is empty. |
| EventBuses.EventBus.CallbackReturns | mittelwerk/core/events.py:296-303 | A callback that returns or raises lets its loop go on. |
| EventBuses.EventBus.Start | mittelwerk/core/events.py:305-310 | Every callback subscriber without a loop gets one. |
| EventBuses.EventBus.BeginStop | mittelwerk/core/events.py:312-316 | The loops of the moment are those the stop waits for. |
| EventBuses.EventBus.EndStop | mittelwerk/core/events.py:312-318 | A stop returns once each of them has ended, and not before. |
| EventBuses.EventBus.Replay | mittelwerk/core/events.py:330-337 | Replay on the bus is replay of its bounded log, and nothing without one. |
| ScenarioSafety.NeverDestroyed | scripts/workshop.py:1644-1698 | Over every run of starts, edits, resumes, resets and crashes at any step, while a scenario is recorded the pre-start work directory is intact in its place, in the backup or in an archive. |
| ScenarioSafety.ClearedWhenBack | scripts/workshop.py:3289-3319 | The state record goes only when the work directory is back as it was, and then no backup is left. |
| ScenarioSafety.ResetRestores | scripts/workshop.py:3289-3319 | In every reachable state a completed reset restores the pre-start directory if and only if it is not the case that the directory had been moved and its backup is gone; before any reset has begun that never happens. |
| ScenarioSafety.CommandsAreCrashSafe | scripts/workshop.py:2560-2624 | In every run, a start or resume crashed at any step leaves everything as it was, or a record from which a reset brings the work directory back exactly. |
| ScenarioSafety.StuckReset | scripts/workshop.py:1644-1698 | In every run: a reset that crashes after the backup is renamed back and before the state is cleared leaves a state in which every later reset refuses, and may move the directory into an archive, where it is intact. |
| ScenarioSafety.StuckAfterStart | scripts/workshop.py:1644-1698 | Any start of any definition over any directory that can be hashed, followed by such a reset, gets there. |
| ScenarioSafety.StartCrash | scripts/workshop.py:1583-1609 | A start cut at any step leaves a true record and an intact pre-start directory. |
| ScenarioSafety.ResumeCrash | scripts/workshop.py:2914-2983 | So does a resume cut at any step. |
| ScenarioSafety.ResetCrash | scripts/workshop.py:2003-2134 | So does a reset cut at any step, which clears the record only after putting the directory back, and completes if and only if the backup it needs is there. |
| ScenarioWork.ResetLosesNothing | scripts/workshop.py:2003-2134 | A reset crashed at any step: every regular file of the work directory equals its staged payload in bytes and mode, is still in its place, or is in the archive, unless special mode bits are all that changed in it and nothing moves the whole tree. |
| ScenarioRuns.ResetsLoseNothing | scripts/workshop.py:2003-2134 | The same in every run, over any number of resets that crash anywhere: each such file is as it was staged, still in its place or in some archive. |
| ScenarioWork.ResetKeepsExactly | scripts/workshop.py:2003-2134 | Once a reset has archived, a file equals its payload in bytes and mode or is in the archive if and only if that exception does not apply to it. |
| ScenarioWork.SpecialBits | scripts/workshop.py:2158-2175 | A file that counts as unchanged has the mode of its payload if and only if its mode is below 01000. |
| ScenarioWork.SetUserIdLost | scripts/workshop.py:2158-2175 | A payload staged 0644 and made 04644 counts as unchanged and is not archived. |
| ScenarioWork.OddWorkMovesWhole | scripts/workshop.py:2073-2134 | A link, an odd entry, a directory of the participant's own or a work directory that is none forces the whole tree into the archive. |
| ScenarioWork.ArchiveHolds | scripts/workshop.py:2003-2070 | A finished archive holds the whole tree or exactly the changed files, with the metadata of the tree before. |
| ScenarioWork.RebuildExec | scripts/workshop.py:2964-2983 | Removing the staged tree and building an inventory leaves exactly that inventory: paths, kinds, modes and bytes. |
| ScenarioWork.ResetThenResume | scripts/workshop.py:2914-2983 | For any attempt archived without a blocker, described within bounds and with owner-accessible directories, a later resume is accepted and gives the work directory as it was before the reset, deleted staged files and relocated trees included. |
| ScenarioWork.AcceptedExactly | scripts/workshop.py:2820-2963 | A resume of what a reset archived, with any definition, is accepted if and only if the attempt was active, of that definition and its payloads, with a work directory that can be captured, directories open to their owner and metadata within the size that is read. |
| ScenarioWork.UnsafeNameBlocks | scripts/workshop.py:1892-1895 | One entry with a character outside the safe ones in its path makes the archive one for manual recovery, and no resume accepts it. |
| ScenarioWork.NotesAreUnsafe | scripts/workshop.py:476-478 | A blank in a file name is enough. |
| ScenarioTerms.SafeNameIs | scripts/workshop.py:97-99 | A name is safe exactly when it is made of letters, digits, full stops, underscores and hyphens, and is neither empty nor a step to the same directory or the one above. |
| ScenarioTerms.ExerciseNameIsSafe | scripts/workshop.py:97-99 | A file called order_book.py, for one, is safe. |
| ScenarioTerms.CapturableIs | scripts/workshop.py:1881-1919 | A tree can be captured exactly when it is a directory of at most 200 plain files and directories with safe paths and no special bits, no file above 2 MiB and no more than 20 MiB in all. |
| ScenarioTerms.HashableIs | scripts/workshop.py:253-305 | A directory can be set aside exactly when it has at most 200 entries, none of an odd kind, within the same sizes. |
| ScenarioTerms.SizesAdd | scripts/workshop.py:291-299 | The sizes add up file by file, in whatever order. |
| ScenarioTerms.NeedsMoveIs | scripts/workshop.py:2073-2105 | The whole tree is moved exactly when the work directory is none, an entry is a link, odd, or a directory with no target below it, or more than 200 files or too many bytes have changed. |
| ScenarioTerms.ArchiveWhen | scripts/workshop.py:2003-2022 | A reset makes an archive unless nothing was ever moved, or every target is in its place as staged, no other file is there and the whole tree need not move; a deleted payload alone is enough for one. |
| ScenarioTerms.ArchivedFiles | scripts/workshop.py:2003-2070 | The archive has the whole tree, or exactly the files that are not as they were staged, each as it was. |
| ScenarioTerms.MayResumeIs | scripts/workshop.py:2820-2963 | The attempts that a resume accepts, condition by condition. |
| AttemptTexts.AttemptLength | scripts/workshop.py:1947-1991 | The text of attempt.json, character by character, is exactly as long as the model says, for any contents and in any order of entries. |
| ScenarioTerms.ActiveAtTheEnd | scripts/workshop.py:2560-2624 | A start that is cut before its last step leaves no active record. |
| ScenarioTerms.ResumedAtTheEnd | scripts/workshop.py:2914-2983 | Nor does a resume. |
| ScenarioTerms.StrangeBackupStays | scripts/workshop.py:1644-1698 | A backup that differs from the recorded hash is never put back: however far the reset gets, backup and record stay. |
| ScenarioRuns.AcceptedOverRuns | scripts/workshop.py:2820-2963 | The same over runs: whatever happens between the reset and the resume; with the definition that was started, acceptance depends on the record being active and on the work directory alone. |
| ScenarioRuns.RoundTripOverRuns | scripts/workshop.py:2820-2983 | Whatever happens between the reset of such an attempt and a later resume with its definition, the resume is accepted and gives back paths, kinds, modes and bytes. |
| ScenarioRuns.RecordNamesDefinition | scripts/workshop.py:1101-1276 | In every run the record has the targets and modes of the definition that was started, and an active one its payloads. |
| ScenarioRuns.RunArchives | scripts/workshop.py:2137-2155 | No run changes or removes an archive. |
| ScenarioRuns.ProperChoices | scripts/workshop.py:2003-2134 | In every state there are an unused archive, an order of copies and an order of removal for a reset to go by. |
| ScenarioRuns.ProperRebuild | scripts/workshop.py:2964-2983 | And orders of removal and rebuild for every resume that is accepted. |
| ScenarioTrees.WorkIsTree | scripts/workshop.py:1601-1609 | In every run the work directory is a tree whose every entry stands in a directory, also after a crash between any two steps. |
| ScenarioStage.StartStages | scripts/workshop.py:1601-1609 | A completed start leaves exactly the staged payloads and their directories, and each target counts as unchanged. |
| Workspaces.RemovalEmpties | scripts/workshop.py:1701-1721 | Removing the entries of a tree, each after what it holds, leaves no work directory. |
| Workshops.CaptureTree | scripts/workshop.py:1881-1919 | The worklist accepts exactly the trees of plain files and directories with safe names within the bounds, and the inventory is the whole tree. |
| Workshops.MeasureMeta | scripts/workshop.py:2834-2834 | Whether the metadata of an attempt stay within the size that a resume reads. |
| Workshops.CollectFiles | scripts/workshop.py:1798-1830 | The files collected are those that are not as they were staged. |
| Workshops.HoldsOddEntry | scripts/workshop.py:2073-2105 | Finds out whether copying files would lose an entry. |
| Workshops.Workshop.Start | scripts/workshop.py:2560-2624 | The command goes through the steps of a start, one by one and in order, and succeeds exactly when the pre-start directory could be set aside. |
| Workshops.Workshop.Preserve | scripts/workshop.py:1583-1598 | First the record, then the rename, then the record that it was moved; a directory that cannot be hashed is put back. |
| Workshops.Workshop.ApplyPayloads | scripts/workshop.py:1601-1609 | Each payload is written atomically at its target, with the directories above it. |
| Workshops.Workshop.ArchiveAttempt | scripts/workshop.py:2003-2070 | Nothing, the whole tree, or every changed file once, then the metadata. |
| Workshops.Workshop.RestoreWorkDirectory | scripts/workshop.py:1644-1698 | Removes the work directory, children first, and renames the backup back; refuses, without change, exactly when the backup it needs is gone or differs. |
| Workshops.Workshop.Reset | scripts/workshop.py:3289-3319 | Archive, restore, and only then clear the state; succeeds exactly when the restore can. |
| Workshops.Workshop.CheckAttempt | scripts/workshop.py:2820-2885 | Accepts exactly the attempts that can be rebuilt from the archive and the pristine payloads. |
| Workshops.Workshop.Resume | scripts/workshop.py:2914-2983 | The steps of a start followed by those of the rebuild, the record active only at the end. |
| RateLimits.RunKeeps | mittelwerk/utils/decorators.py:211-224 | In every run the level stays in [0, burst]. |
| RateLimits.WindowBalance | mittelwerk/utils/decorators.py:211-224 | What a window granted together with what is left is at most a full bucket and the window's refill. |
| RateLimits.WindowBound | mittelwerk/utils/decorators.py:199-238 | In any window of any run on a clock that never runs back, tokens granted are at most burst + rate * (t - s). |
| RateLimits.EnoughAfterWait | mittelwerk/utils/decorators.py:226-238 | After the time a waiter sleeps, undisturbed, the level suffices. |
| RateLimits.AttemptBalance | mittelwerk/utils/decorators.py:211-224 | The level after an attempt and what it was granted are together the level before with the refill since, as far as the bucket holds it; the request is granted, whole, exactly when that suffices. |
| RateLimits.EnoughForAll | mittelwerk/utils/decorators.py:216-224 | Attempts at one time that together ask for no more than there is are all granted, and leave the rest. |
| RateLimits.RateLimiter.Acquire | mittelwerk/utils/decorators.py:216-224 | All or nothing: granted exactly when the refilled level suffices, which then loses what was asked and nothing more; a request that is not positive or above the burst is refused and leaves the bucket alone. |
| RateLimits.RateLimiter.Wait | mittelwerk/utils/decorators.py:226-238 | A lone waiter takes its tokens on the first pass, or on the second after waiting exactly for the shortage, and leaves the rest of the level or what came in while its sleep ran late. |
| Intervals.ReadingsToIntervals | mittelwerk/telemetry/transform.py:52-102 | Refuses an interval that is not positive; otherwise returns the group-by of the readings: one bar for each asset and interval that has any, by start and then asset. Each bar starts at a multiple of the interval, opens with its earliest reading and closes with its latest (at one time, with the one given first and last), reaches its high and low and counts its samples. |
| Intervals.OneAnswer | mittelwerk/telemetry/transform.py:52-102 | The group-by specification has only one answer. |
| Intervals.InSpan | mittelwerk/telemetry/transform.py:73-83 | Every reading lies in the half-open, epoch-aligned span of its bar, before the epoch too. |
| Intervals.BarsAreTimed | mittelwerk/telemetry/transform.py:66-97 | The same of every bar of the group-by, in times and positions. |
| Intervals.OneBarEach | mittelwerk/telemetry/transform.py:72-97 | Every reading is in the span and of the asset of exactly one bar. |
| Intervals.CountWithout | mittelwerk/telemetry/transform.py:93-97 | A bar counts the samples of its readings, in whatever order they are taken. |
| Intervals.SamplesConserved | mittelwerk/telemetry/transform.py:72-97 | The sample counts of the bars sum to those of the readings. |
| Intervals.StableOrder | mittelwerk/telemetry/transform.py:66-69 | Every reading once; times never fall; at one time by asset, and for one asset as given. |
| Intervals.SortBars | mittelwerk/telemetry/transform.py:99-102 | The bars come strictly by start, then asset, none left out. |
| OperationsModel.OneSideKeepsCost | mittelwerk/analytics/operations.py:129-139 | Holdings on one side together cost, at their average, what they cost apart. |
| OperationsModel.LargerSurvives | mittelwerk/analytics/operations.py:140-146 | Of holdings on opposite sides the larger keeps its side, its rate and its mark. |
| OperationsModel.NettedEitherWay | mittelwerk/analytics/operations.py:119-156 | The order of two holdings matters if and only if they are on one side, equally old and marked differently. |
| OperationsModel.FoldAddsUp | mittelwerk/analytics/operations.py:112-156 | However the workloads are listed, each asset ends with the sum of their net hours and of their costs. |
| OperationsModel.AnyOrder | mittelwerk/analytics/operations.py:112-156 | Net hours of each asset do not depend on the order of the fold. |
| NettingOrder.RateNeedsNoOrder | mittelwerk/analytics/operations.py:112-156 | The average rate of an asset is the same in every order of the workloads if and only if its hours cancel out, or none stand opposite the sum, or all hours on the side of the sum have one average. |
| NettingOrder.FoldIsTogether | mittelwerk/analytics/operations.py:112-156 | An asset ends with its own workloads taken together in their order, whatever other assets are listed between them. |
| OperationsModel.RatesDependOnOrder | mittelwerk/analytics/operations.py:119-146 | A case where it is not: three holdings that end at 30 or at 20. |
| OperationsModel.FoldMerges | mittelwerk/analytics/operations.py:348-355 | Folding in the holdings of another unit, in any order, merges them asset by asset. |
| OperationsModel.SumIsAdditive | mittelwerk/analytics/operations.py:338-377 | Exposure, total cost and net hours per asset of a + b are the sums. |
| OperationsModel.ScaleMultiplies | mittelwerk/analytics/operations.py:379-403 | Those of k * a are k times those of a. |
| OperationsModel.DifferenceSubtracts | mittelwerk/analytics/operations.py:408-411 | a - b exists exactly when histories align and models agree, and then exposure, cost and hours are the differences. |
| OperationsModel.ScaleDistributes | mittelwerk/analytics/operations.py:379-403 | k * a + k * b is k * (a + b) in every field if and only if k is not 0, or nothing but hours and costs is left of every asset that both hold. |
| OperationsModel.ZeroClearsRates | mittelwerk/analytics/operations.py:379-403 | A unit for which 0 does not distribute over the sum with itself. |
| OperationsModel.NettedAwayIs | mittelwerk/analytics/operations.py:356-357 | What netting moves into the budget is the sum, over the shared assets, of the exposures apart less the netted exposure. |
| OperationsModel.MovesNothing | mittelwerk/analytics/operations.py:356-357 | Two holdings move nothing if and only if one of them holds nothing or is valued as the netted holding values its hours. |
| OperationsModel.OneMarkMovesNothing | mittelwerk/analytics/operations.py:356-357 | When both units mark their shared assets alike, netting moves nothing into the budget. |
| UnitTerms.NettedTerms | mittelwerk/analytics/operations.py:112-156 | Field by field: hours and both costs add; cancelled hours leave no rate and no mark; on one side the rate is weighted by hours and the later mark stays; of opposed holdings the larger keeps rate, mark and date. |
| UnitTerms.WorthAt | mittelwerk/analytics/operations.py:223-232 | Each holding adds its hours at its mark, or at its average if it has none, to the exposure, and both its costs to the total cost. |
| UnitTerms.SumTerms | mittelwerk/analytics/operations.py:338-377 | When a sum exists, and each field of it: organization, netted and kept holdings, budget, histories day by day and weights. |
| UnitTerms.ScaleTerms | mittelwerk/analytics/operations.py:379-403 | Each field of a multiple: hours, costs, budget, every day of every history and every weight multiplied; rates, marks, dates and models as they were. |
| Operations.OperationsAnalytics.ReplaceWorkloads | mittelwerk/analytics/operations.py:172-180 | The holdings afterwards are the fold of the list; nothing else changes. |
| Operations.OperationsAnalytics.Add | mittelwerk/analytics/operations.py:338-377 | A fresh unit equal to the model's sum, or a refusal exactly when histories or models do not fit; the operands stay as they were. |
| Operations.OperationsAnalytics.Multiply | mittelwerk/analytics/operations.py:379-403 | A fresh unit equal to the model's multiple. |
| Operations.OperationsAnalytics.Subtract | mittelwerk/analytics/operations.py:408-411 | A fresh unit equal to the model's difference. |
| Operations.OperationsAnalytics.TotalExposureValue | mittelwerk/analytics/operations.py:223-225 | The sum over the holdings at their marks, with the budget. |
| Operations.OperationsAnalytics.CostTotal | mittelwerk/analytics/operations.py:227-232 | The sum over the holdings of realised and unrealised cost. |
| Operations.CombineHistories | mittelwerk/analytics/operations.py:359-368 | Refuses exactly when two histories of one asset differ in length; otherwise adds them day by day. |
| Operations.CombineModels | mittelwerk/analytics/operations.py:369-376 | Refuses exactly when two models of one asset differ; otherwise adds the weights. |
| Operations.OperationsAnalytics.RegisterCapacity | mittelwerk/analytics/operations.py:203-209 | The model of one asset is replaced; an asset without a name is refused; nothing else changes. |
| Operations.OperationsAnalytics.RecordDailyBacklog | mittelwerk/analytics/operations.py:211-217 | One more day at the end of one history; an asset without a name is refused; nothing else changes. |
| Operations.OperationsAnalytics.MaxBacklogOverrun | mittelwerk/analytics/operations.py:320-326 | Nothing for an empty history, otherwise the largest sum over any run of consecutive days of the organization. |
| Backlogs.NoRunIsLarger | mittelwerk/analytics/operations.py:320-326 | No run of consecutive days, empty ones among them, sums to more than the maximum overrun. |
| Backlogs.SomeRunReaches | mittelwerk/analytics/operations.py:320-326 | Some run sums to it. |
| Backlogs.CombinedOverrun | mittelwerk/analytics/operations.py:320-326 | Two aligned histories added never overrun by more than both do apart. |
| Snapshots.RoundTrip | scripts/workshop_release.py:205-227 | The decoder recovers every list of (name, executable bit and digest, or deleted) from its stream. |
| Snapshots.ReadBack | scripts/workshop_release.py:219-227 | Whatever the decoder accepts is the stream of what it returns. |
| Snapshots.OneTreePerStream | scripts/workshop_release.py:205-227 | Different trees never give the same stream. |
| Snapshots.Layout | scripts/workshop_release.py:219-227 | The bytes of an entry: the length of the name in eight bytes, most significant first, the name, x or f and the digest, or the word for a deleted file. |
| Snapshots.SourceSnapshot | scripts/workshop_release.py:205-227 | Refuses exactly a tree with a link, a tracked name under the output directory, or elsewhere something that is not a file or a name too long to encode; otherwise the stream lists the names outside that directory once each, in byte order, a file with its owner's execute bit and its digest, a missing one as deleted, and the flag tells whether any is untracked. |
| Words.LessIs | scripts/workshop_release.py:207-207 | The order of names is that of their first difference. |

## Left out

- Rounding: hours, rates and costs are exact reals. The 28 digits of `Decimal`, and the floating point of clock, readings and
  overruns, are not modelled.
- Timestamps, priorities, signatures, UUIDs, log lines and the wording of rejection reasons. The outcome of a submission does not
  carry a reason.
- Construction and coercion of the Pydantic classes: an order arrives satisfying its own validator.
- Concurrency inside one submission: publishing has no suspension point there, so one submission is one step.
- Runs.OrderAccounts: the statement about money is for orders that arrive with no assigned hours, as the API builds them; hours are
  accounted for whatever they arrive with.
- ESCALATION modes and SHIFT and SCHEDULED_END windows beyond their rejection at the boundary.
- Queues.SortedLevels.Locate: a sorted dictionary is a sorted sequence of levels, and the place of a rate is found by a scan, not by
  bisection.
- Engines.DispatchEngine.CancelWorkOrder: without an asset the queues are looked at in any order.
- Engines.DispatchEngine.SubmitWorkOrder: a pre-dispatch check that refuses with a reason that is not a string is not modelled; the
  error leaves such an order NEW, with only SUBMITTED published.
- Read-only views of queue and engine (depth snapshots, spreads, representative rate, counters, lists of workloads).
- EventBuses.EventBus.Turn: the timeout of a waiting loop is a turn that hands over nothing; asyncio's scheduling is any order of
  actions.
- EventBuses.EventBus.Subscribe: the caller gives the id; a generated one is not modelled.
- EventBuses.EventBus.CloseStream: a stream that closes after its id was unsubscribed and taken by a callback subscriber is not
  modelled; it would remove that subscription and leave its loop running.
- EventBuses.EventBus.Start: starts and stops take turns; a start while a stop still waits is not modelled.
- EventBuses.EventBus.BeginStop: only the stop of a started bus.
- Queues.DispatchQueue.AddWorkOrder: an order whose id already rests is not modelled; the engine admits an id once, and for a
  second one the index would forget the place of the first.
- JSON conversion of events.
- SHA-256 in `scripts/workshop.py` and `scripts/workshop_release.py`: equal digests stand for equal contents.
- Workshop commands other than start, reset and resume, and, of those, manifest and evidence parsing, verification records (and a
  warning about them in `attempt.json`), the size limits of manifest and state file, output,
  locking (one command at a time), required imports, the Git identity, schema-v1 targets outside the work directory, and failures of
  the operating system other than a crash.
- Workshops.Workshop.RestoreWorkDirectory: the entries are removed in some order that takes children before parents, not in the one
  order of the file system; likewise copies and rebuilds are made in any order that fits.
- Workshops.Workshop.Start: the temporary names of atomic writes are given and avoid the staged names; of a definition with one
  target below another, which ends in a failure of the operating system, there is no model.
- Several scenarios side by side: the model has one work directory with its backup and archives.
- RateLimits.RateLimiter.Wait: one waiter; several share the lock in the runs of `RateLimits.WindowBound`, where each pass is an
  attempt.
- Refusals of values that are not finite numbers, in intervals, operations and rate limiter.
- Intervals: the moving averages, deltas and other one-expression helpers of `mittelwerk/telemetry/transform.py`.
- Operations.OperationsAnalytics.Add: a workload provider is not modelled; with one, the holdings are what it returned last. The
  hash by which capacity models are compared is taken to tell them apart.
- NumPy statistics of `mittelwerk/analytics`, and the risk metrics built on them.
- Snapshots.SourceSnapshot: Git and the file system are parameters: which names are tracked, what each stands for, and which lie under
  the output directory. The digest of the stream is not modelled.
- Routes, schemas, dashboard, tools, stores, adapters, key management, metrics and policies: thin layers around these cores.
