# Verified model of the MemoRepo state machines

MemoRepo keeps a durable job queue, an agent-turn queue, versioned space snapshots and a stdio
message codec, all in single-threaded asynchronous TypeScript over SQLite. This project models that
logic in Dafny and proves what it is relied on for.

Tables are maps, directories are sets, and every stretch of code between two awaits is one atomic
step. Each state machine has the same three parts:

1. a specification module (`Jobs`, `AgentTurns`, `Snapshots`, `Permits`, `RunBudgets`, ...) with the
   state, one function per step, the events and the runs (`Possible`, `Run`);
2. proof modules (`JobSafety`, `JobGraph`, `JobWindows`, `JobProgress`, `JobCycles`, `AgentProofs`,
   `SnapshotProofs`, ...) with the invariants and the theorems over all runs, among them outcome
   modules (`JobOutcomes`, `AgentOutcomes`, `RaceOutcomes`, `SnapshotOutcomes`, `InterlockOutcomes`,
   `PermitOutcomes`, `BudgetHistories`) that say of every step what it writes and exactly why, in
   terms of the rows before it and without the step's own function, and `SnapshotLiveness`;
3. a class module (`JobRunners`, `Pipeline`, `AgentServices`, `SnapshotServices`, `PermitPools`,
   `AgentRuntimes`, `StdioParser`) whose methods update the same fields as the original classes,
   with its loops, and are proved equal to the specification functions through `View()`.

The remaining modules (`StdioCodec`, `Integrity`, `SearchMatches`, `SourceSearch`, `ResponseLimit`,
`McpGateway`) model self-contained algorithms, and `StdioLaws`, `IntegrityLaws`, `SearchListings`
and `JsonTexts` define independently what these compute: regular expressions as grammars, paths and
trees, hits as positions in lines, JSON texts as bytes with a reader. Two modules join others:
`AgentRaces` adds to the turn tables what the agent service keeps in memory across its awaits, and
`TurnInterlocks` runs that machine beside the snapshot machine. The modules ending in `Examples`
hold concrete runs and values. `Wrappers` and `Texts` hold shared types.

The main results, by area:

- Jobs: scheduler safety over every interleaving and crash, exact causes of every status (a job has
  succeeded exactly when its handler completed without an abort), exact answers of the two enqueue
  operations, deadlock freedom and bounded draining of acyclic graphs, the exact call that ties a
  cycle, and the graph theorem that a rebuild waits for every repository job of its space.
- Snapshots: crash safety with restartable recovery, activation soundness and the activation of
  every good build, one active snapshot per space, the interlock between pruning and agent turns,
  and what retention may delete.
- Agent turns: queue bounds, attempt and metric conservation counter by counter, also between the
  awaits, queue positions as a bijection.
- Run budgets: exact tool budget, finalization before every hard limit, and bounds on rounds and
  repetitions without finalization.
- Codec: chunk independence and round trip, each with the exact condition where it fails.
- Permit pool, integrity manifests, paged search and response limiting: conservation and FIFO order,
  an injective encoding, pages of exactly the lines that hold the query, and a bound on the UTF-8
  bytes of the serialised response with a justified binary search.

Some properties one might expect are false of the code as it stands. Each has a concrete witness and
the exact condition under which it holds:

- All ways of cutting a stream deliver the same messages: not when a malformed header follows a
  complete message (`StdioProofs.CutsAgreeExactly`, `StdioRoundTrip.MalformedHeaderLosesMessage`).
- A turn's attempts always agree with it: not when a run that escaped an interruption ends between a
  refused restart of its turn and the dispatcher's catch (`AgentRaces.RacesConserveExactly`,
  `AgentExamples.EscapedRunBreaks`). The attempt id that interruptTurn holds across an await is
  never the cause as long as the call goes on before its turn is started again: it is then always
  none (`AgentRaces.CapturesNothing`); otherwise it can be (`CaptureExamples.StaleCaptureBreaks`).
- An active turn keeps its snapshot: not when resumeTurn requeues it after the snapshot was marked
  or deleted (`TurnInterlocks.TurnsKeepSnapshotsExactly`, `InterlockExamples.LateResumptionBreaks`).
- A created manifest passes its own validator: not with a backslash in a file name
  (`IntegrityProofs.CreatedValidates`, `IntegrityProofs.BackslashIsRefused`).
- Following next_offset yields every match: not past the offset limit
  (`SourceSearch.PagingYieldsAll`, `SearchExamples.OffsetLimitIsReached`).
- A truncated response holds the prefix its marker announces: not when the chosen array lies under a
  key `truncated` or an empty key (`McpGateway.CutHoldsPrefixExactly`,
  `ResponseExamples.UnderMarkerHoldsNothing`, `ResponseExamples.EmptyKeyHoldsEverything`).
- The job runner never deadlocks: not when a coalescing call rewires a job that one of its new
  dependencies waits for (`JobCycles.CoalesceTiesCycle`, `JobExamples.UndisciplinedRunDeadlocks`);
  the pipeline never makes such a call.
- A coalesced type runs once per space: not for repository jobs of different repositories
  (`JobSafety.RunningPairs`, `JobExamples.PairsRun`).

`dafny verify dfyconfig.toml` checks the whole project.

## Model

| member | source | states |
|---|---|---|
| JobSafety.RunKeepsInv | apps/api/src/services/jobRunner.ts:115-508 | every run of enqueues, ticks, handler endings, cancellations, retries and restarts keeps the scheduler invariant |
| JobSafety.SchedulerSafety | apps/api/src/services/jobRunner.ts:356-459 | in every reachable state running jobs stay within the concurrency, share no repository, a space-wide job runs alone in its space, dependencies of running jobs have succeeded, active deduplication keys are distinct, and every running job has its abort controller |
| JobOutcomes.StatusMovesExactly | apps/api/src/services/jobRunner.ts:115-508 | an event gives a job a status it did not have if and only if it has the cause: a start with a handler makes it running, the completion of an unaborted handler succeeded, an error that is not abort-like, a missing handler or a restart failed, a cancellation before the start, an aborted controller, an abort-like error or a running job that already carries a coalescing request cancelled, and a pass that finds a dead dependency skipped |
| JobOutcomes.RowsMoveExactly | apps/api/src/services/jobRunner.ts:115-205 | besides statuses an event rewrites payload, dependencies and key of exactly the oldest pending rival of a coalescing request nobody carries, adds a pending row with the columns of the request exactly for an unserved request over known dependencies, and changes nothing else |
| JobOutcomes.InflightMovesExactly | apps/api/src/services/jobRunner.ts:356-370 | a run is in flight exactly from its start to its finalisation or a restart |
| JobOutcomes.ControllersMoveExactly | apps/api/src/services/jobRunner.ts:308-471 | a job has a controller exactly from the start of its handler to its end, and it is aborted exactly from the first cancellation on |
| JobOutcomes.SucceedsExactly | apps/api/src/services/jobRunner.ts:431-471 | over every run a job has succeeded if and only if it had before or its handler completes in the run with its controller not aborted |
| JobOutcomes.CancelEnds | apps/api/src/services/jobRunner.ts:308-471 | a cancelled running job stays running and aborted until its handler settles, however that ends, and is cancelled from then on |
| JobSafety.EnqueueAnswers | apps/api/src/services/jobRunner.ts:115-154 | enqueue answers with an active job holding exactly the requested key, payload and dependencies, creates at most that job as pending, and is rejected only over an unknown dependency |
| JobSafety.CoalesceAnswers | apps/api/src/services/jobRunner.ts:157-205 | enqueueCoalesced answers with an active job of the type and space carrying exactly the requested payload and dependencies; only that job or one cancelled pending rival changes; rejection only over dependency constraints |
| JobSafety.ClashesMatch | apps/api/src/services/jobRunner.ts:167-187 | every active row that could clash on the unique deduplication index is among the rows the coalescing loop matches, so the index never fires |
| JobSafety.AtMostOneOfEach | apps/api/src/services/jobRunner.ts:156-205 | a type enqueued only by coalescing has at most one pending job per space, whatever repositories the calls name, and at most one running job per space when no call names a repository |
| JobSafety.RunningPairs | apps/api/src/services/jobRunner.ts:408-429 | two jobs of a space that run at once both name a repository, and different ones |
| JobExamples.PairsRun | apps/api/src/services/jobRunner.ts:408-429 | every such pair of one coalesced type does run at once in some run, so the running half cannot be had for repository jobs |
| JobGraph.RunKeepsGraph | apps/api/src/services/operationsService.ts:409-641 | under the pipeline's calls the job graph stays acyclic, nothing depends on a rebuild, and rows, kinds, dependencies and successes are kept |
| JobGraph.SinksAreLast | apps/api/src/services/operationsService.ts:618-633 | the sinks are exactly the active repository jobs of the space that no other such job depends on |
| JobGraph.SinksCover | apps/api/src/services/operationsService.ts:618-633 | the active repository jobs without an active repository dependent transitively cover every active repository job of the space |
| JobGraph.CoveredSucceeds | apps/api/src/services/operationsService.ts:618-640 | once the sinks of an earlier table have succeeded, so has every repository job that was active in it |
| JobGraph.RebuildWaits | apps/api/src/services/operationsService.ts:612-641 | a rebuild that starts with the dependencies of its last wiring does so only after every repository job active in the space at that wiring has succeeded |
| JobProgress.NoDeadlock | apps/api/src/services/jobRunner.ts:356-406 | with nothing in flight and a job of an acyclic table pending, some job can be skipped or started, whoever made the calls |
| JobWindows.CanStartExactly | apps/api/src/services/jobRunner.ts:380-429 | a job can be the next one if and only if it is ready and unblocked, fewer than 20 ready jobs are older and all of those are blocked |
| JobWindows.StuckExactly | apps/api/src/services/jobRunner.ts:380-406 | a tick finds nothing to start if and only if every ready unblocked job has 20 blocked candidates ahead of it |
| JobProgress.TickAdvances | apps/api/src/services/jobRunner.ts:356-370 | from an idle state over an acyclic table with work left and concurrency at least 1, one tick starts, fails or skips a pending job |
| JobProgress.DrainIsBounded | apps/api/src/services/jobRunner.ts:356-471 | without new enqueues every schedule makes at most Work(s) effective steps |
| JobProgress.DrainContinues | apps/api/src/services/jobRunner.ts:356-471 | over an acyclic table no schedule stops before every job is terminal and every run finalised |
| JobProgress.PipelineDrains | apps/api/src/services/operationsService.ts:409-641 | so every schedule after any run of pipeline calls can be continued to that end |
| JobProgress.TickIsRun | apps/api/src/services/jobRunner.ts:356-370 | one tick is a run of the state machine, so every result over runs holds of ticks |
| JobProgress.TickStaysReachable | apps/api/src/services/jobRunner.ts:356-370 | a tick taken in a reachable state ends in a reachable state |
| JobCycles.CoalesceTiesCycle | apps/api/src/services/jobRunner.ts:188-195 | from an acyclic table enqueueCoalesced leads to a cyclic one if and only if it rewires a pending job that one of the requested dependencies already waits for |
| JobCycles.EnqueueTiesNone | apps/api/src/services/jobRunner.ts:115-154 | enqueue never ties a dependency cycle |
| JobCycles.IdleMovesExactly | apps/api/src/services/jobRunner.ts:356-406 | with nothing in flight some job can be skipped or started if and only if some pending job has a dead dependency or no pending one |
| JobCycles.DisciplineIsAcyclic | apps/api/src/services/operationsService.ts:612-641 | the tables the pipeline builds are acyclic |
| JobExamples.UndisciplinedRunDeadlocks | apps/api/src/services/jobRunner.ts:188-195 | coalescing a type other jobs depend on can leave two jobs waiting for each other for ever |
| JobRunners.JobRunner.Start | apps/api/src/services/jobRunner.ts:92-101 | a new process fails the running rows of the old one and then performs one whole tick |
| JobRunners.JobRunner.RecoverRunningJobs | apps/api/src/services/jobRunner.ts:330-354 | the first call makes exactly the running rows failed and counts them, keeping every other column; later calls change nothing |
| JobRunners.JobRunner.SkipBlockedDependents | apps/api/src/services/jobRunner.ts:489-508 | exactly the pending jobs with a dead dependency become skipped, one level per call |
| JobRunners.JobRunner.NextRunnableJob | apps/api/src/services/jobRunner.ts:380-406 | the answer is ready and unblocked, with fewer than 20 older ready jobs, all blocked; without an answer every ready unblocked job has 20 blocked ones ahead of it |
| JobRunners.JobRunner.StartRun | apps/api/src/services/jobRunner.ts:431-446 | the job becomes running with a controller, or failed when its type has no handler, and counts as in flight |
| JobRunners.JobRunner.Tick | apps/api/src/services/jobRunner.ts:356-370 | a tick is a skip pass followed by launches and ends at full capacity or with every candidate blocked |
| JobRunners.JobRunner.EndAtomically | apps/api/src/services/jobRunner.ts:69-90 | leaving the outermost atomic section performs one tick exactly when one was requested inside |
| JobRunners.JobRunner.Enqueue | apps/api/src/services/jobRunner.ts:115-154 | enqueue performs the specified insert or reuse and then ticks or defers the tick |
| JobRunners.JobRunner.EnqueueCoalesced | apps/api/src/services/jobRunner.ts:157-205 | a fingerprint of white space alone is refused unchanged; otherwise the coalescing of the payload with that fingerprint happens, followed by a tick or its deferral |
| JobRunners.JobRunner.RetryJob | apps/api/src/services/jobRunner.ts:292-306 | a failed, skipped or cancelled job is enqueued again with its type, space, repository and payload and without dependencies; an unknown or other job is refused unchanged |
| JobRunners.JobRunner.CancelJob | apps/api/src/services/jobRunner.ts:308-328 | a running job keeps its row and its controller becomes aborted; a pending one becomes cancelled and exactly the pending jobs behind a dead one are skipped; any other is refused |
| JobRunners.JobRunner.SettleRun | apps/api/src/services/jobRunner.ts:444-471 | the row becomes cancelled if and only if the controller is aborted or the error abort-like, succeeded if and only if the outcome is a completion and the controller not aborted, failed otherwise; the controller is gone, and only a cancellation skips pending jobs behind a dead one |
| JobRunners.JobRunner.FinishRun | apps/api/src/services/jobRunner.ts:365-368 | a finalised run frees its slot and ticks |
| Pipeline.OperationsService.EnqueueRepositoryPreparation | apps/api/src/services/operationsService.ts:409-441 | clone, checkout and (unless snapshot-only) index jobs form a chain with their payloads, each depending on exactly the one before; the checkout reuses the fetch of the clone |
| Pipeline.OperationsService.EnqueueRepositoryRecovery | apps/api/src/services/operationsService.ts:443-488 | the chain holds exactly the stages the repository still needs, with their payloads: a clone unless cloned, a checkout unless a clone has a commit, an index job unless snapshot-only or that commit is indexed; the checkout reuses a fetch exactly behind a clone |
| Pipeline.OperationsService.EnqueueSnapshotRebuild | apps/api/src/services/operationsService.ts:612-641 | the rebuild carries the payload and depends on exactly the sinks plus the caller's jobs, and is never rejected for known ids |
| Pipeline.OperationsService.EnqueueCheckout | apps/api/src/services/operationsService.ts:553-575 | a checkout with the given payload and (unless snapshot-only) an index job behind it, and a rebuild wired behind the last of them, with ticks allowed in between |
| Pipeline.OperationsService.EnqueueRepositorySet | apps/api/src/services/operationsService.ts:248-283 | for every repository a full preparation chain, in order, and one rebuild behind the last job of each, in one atomic section |
| AgentProofs.QueueBounds | apps/api/src/services/agentService.ts:1540-1551 | running turns stay within their limit, queued and running together within the sum of both limits, one active turn per chat, submission sequences unique, although automatic requeues skip the capacity check |
| AgentProofs.AttemptConservation | apps/api/src/services/agentService.ts:1345-1454 | when each started run delivers one terminal event to its live attempt: attempts are numbered 1 to attemptCount without gaps, one is running exactly when its turn is and is then the last, every single counter of a turn is the integer sum of that counter over its attempts, and automatic recovery fires at most twice per turn |
| AgentOutcomes.RowsMoveExactly | apps/api/src/services/agentService.ts:538-1829 | what every event does to every turn and attempt row: a terminal event adds each counter of its metrics to the same counter of the turn and queues the turn again, in place or at the end, exactly after shutdown or on a retryable failure with fewer than 3 attempts, an attempt is created by a start alone, and no other row changes |
| AgentOutcomes.TurnCountsEvents | apps/api/src/services/agentService.ts:1188-1454 | over every run each counter of a turn grows by exactly what the terminal events of the run report under it, its attempts by its starts and its recoveries by its automatic requeues |
| AgentProofs.FinishKeepsTurnExactly | apps/api/src/services/agentService.ts:1359-1451 | ending an active turn keeps its attempts consistent if and only if the attempt row it updates never counted anything and is the live one if the turn runs, or it updates none, the turn is not running and there is nothing to count |
| AgentRaces.StepConserves | apps/api/src/services/agentService.ts:662-909 | with the memory kept across awaits: from a consistent state a step makes attempts and turn disagree if and only if it is a terminal event of an attempt that its running turn has left behind, or the end of an interruption that holds a stale attempt id |
| AgentRaces.RacesConserveExactly | apps/api/src/services/agentService.ts:662-1257 | over all interleavings of sending, starting, refused starts, interruptions split at their awaits, terminal events, forced interruptions and restarts, conservation holds throughout a run if and only if neither happens in it |
| AgentRaces.CapturesNothing | apps/api/src/services/agentService.ts:662-685 | when interruptTurn goes on before its turn is started again, the attempt id it holds across its last await is none, so never stale |
| AgentRaces.OnlyRefusedOutrun | apps/api/src/services/agentService.ts:807-909 | in every run a running turn has left an open run behind only while a refused start awaits its catch, and each run in the map of runs is the one open in the runtime |
| AgentRaces.InterruptedExactly | apps/api/src/services/agentService.ts:671-697 | the end of interruptTurn with any captured attempt id keeps the tables consistent if and only if that attempt, or else the live one, is safe to end |
| AgentRaces.RacesKeepQueue | apps/api/src/services/agentService.ts:747-909 | the queue bounds hold over all those interleavings, consistent or not |
| RaceOutcomes.TablesMoveExactly | apps/api/src/services/agentService.ts:662-1538 | what every interleaved step does to the turn tables: which turn it ends, with which status, metrics and attempt (the one named, or else the newest running one), which turn it starts or queues, and that nothing else changes |
| RaceOutcomes.RunsMoveExactly | apps/api/src/services/agentService.ts:807-1257 | when a run enters and leaves the map of runs and the runtime, and its attempt number |
| RaceOutcomes.CallsMoveExactly | apps/api/src/services/agentService.ts:662-699 | for which run a call of interruptTurn waits, which attempt it remembers when it goes on, and when it ends; when a refused start awaits its catch |
| AgentExamples.EscapedRunBreaks | apps/api/src/services/agentService.ts:662-909 | a turn interrupted while it starts, resumed and refused by the runtime is completed by its escaped run, which leaves the second attempt running |
| CaptureExamples.StaleCaptureBreaks | apps/api/src/services/agentService.ts:662-697 | when interruptTurn goes on only after its turn was started again, the attempt it holds can be stale: two provider failures later it ends the turn with its second attempt and leaves the third running |
| AgentProofs.PositionsAreABijection | apps/api/src/services/agentService.ts:1753-1762 | queue positions number the queued turns 1 to n without repetition, and position 1 is the turn the dispatcher takes |
| AgentServices.AgentService.constructor | apps/api/src/services/agentService.ts:221-221 | a restarted service holds exactly the recovered state |
| AgentServices.AgentService.RecoverInterruptedTurns | apps/api/src/services/agentService.ts:1801-1829 | running attempts become interrupted and pending or running turns queued, in place |
| AgentServices.AgentService.AssertQueueCapacity | apps/api/src/services/agentService.ts:1540-1551 | a busy chat is a conflict, a full queue is refused, everything else passes |
| AgentServices.AgentService.SendMessage | apps/api/src/services/agentService.ts:538-588 | a turn is appended as queued with the next sequence exactly when there is capacity |
| AgentServices.AgentService.FirstQueued | apps/api/src/services/agentService.ts:768-771 | the queued turn with the least sequence, if any is queued |
| AgentServices.AgentService.StartQueuedTurn | apps/api/src/services/agentService.ts:839-861 | a queued turn becomes running with its next attempt exactly when a slot is free, and no other row changes |
| AgentServices.AgentService.FinishTurnLocally | apps/api/src/services/agentService.ts:1345-1454 | an active turn ends and each of its counters grows by exactly that field of the metrics, the named or else the live attempt is overwritten with them, and the tables stay consistent exactly when that attempt is safe; an ended turn is left alone |
| AgentServices.AgentService.RequeueTurnForRecovery | apps/api/src/services/agentService.ts:1259-1280 | the turn is queued in its old place or with the next sequence, and no other column or row changes |
| AgentServices.AgentService.HandleTerminalEvent | apps/api/src/services/agentService.ts:1188-1244 | the attempt that opened the run ends with the metrics, each counter of the turn grows by its field, and the turn is requeued in place exactly after shutdown, at the end exactly on a retryable failure with attempts left, or not at all; an ended turn is left alone and an unknown one is an error |
| AgentServices.AgentService.ResumeTurn | apps/api/src/services/agentService.ts:609-629 | it succeeds if and only if the turn is failed, interrupted or a completed one that may be continued and there is capacity, and then exactly its status and its sequence, the next one, change; an unknown turn, another status and missing capacity are each refused unchanged with their own error |
| AgentServices.AgentService.ForceInterruptTurns | apps/api/src/services/agentService.ts:1486-1538 | of the given turns exactly those still active end as interrupted, or return to the queue in place when they are requeued for recovery |
| AgentServices.AgentService.RunQueueDispatcher | apps/api/src/services/agentService.ts:766-805 | the dispatcher always serves the head of the queue while there is capacity, goes on after a start that did not happen, fails a turn that cannot start and stops on a deferral |
| AgentServices.DispatchServes | apps/api/src/services/agentService.ts:766-909 | one round starts the next attempt of a queued turn, fails the turn together with an attempt already started, or changes nothing, according to the reply of the runtime, and changes no other turn or attempt |
| SnapshotProofs.CompleteIsGood | apps/api/src/services/snapshotService.ts:1001-1022 | an index is complete exactly when it is indexed, clean, skipped nothing and its required checks are ready and complete |
| SnapshotProofs.AggregateIsComplete | apps/api/src/services/snapshotService.ts:1024-1036 | the aggregate is complete exactly when all expected entries are present and good |
| SnapshotOutcomes.GradesExactly | apps/api/src/services/snapshotService.ts:1001-1022 | an index is degraded, partial, complete or of unknown quality exactly by what its sync status and checks say, in this order |
| SnapshotOutcomes.AggregateIsWorst | apps/api/src/services/snapshotService.ts:1024-1036 | the grade of a manifest is the worst grade of its entries, and at least unknown while entries are missing |
| SnapshotProofs.RunKeepsInv | apps/api/src/services/snapshotService.ts:113-546 | every interleaving of builds, prunes, repository changes, agent turns, crashes and recovery steps keeps the snapshot invariant |
| SnapshotOutcomes.StatusMovesExactly | apps/api/src/services/snapshotService.ts:113-546 | a step gives a row a status it did not have if and only if it has the cause: the insertion of a build makes it building, an activation that goes through active and the other active row of the space inactive, a revocation the named row inactive, the failure of its build or a recovery that finds it building failed, and the mark of a prune pruning |
| SnapshotOutcomes.RowMovesExactly | apps/api/src/services/snapshotService.ts:113-546 | what every step does to the other columns of a row and when the row disappears |
| SnapshotOutcomes.TablesMoveExactly | apps/api/src/services/snapshotService.ts:113-546 | exactly which rows are new, which directories appear and disappear, and what the spaces name as active |
| SnapshotOutcomes.BuildsMoveExactly | apps/api/src/services/snapshotService.ts:113-341 | when a build begins and ends, what it records, and exactly when its call throws: an index that is not good, a linking check that leaves the entry not good, both under enforcement alone, or a refused activation |
| SnapshotOutcomes.PrunesMoveExactly | apps/api/src/services/snapshotService.ts:390-472 | when a prune begins and ends and which candidate it works on |
| SnapshotProofs.CrashSafety | apps/api/src/services/snapshotService.ts:490-546 | after any run, a crash and the constructor leave no building or pruning row, pair rows with directories, lose only rows being pruned, and keep the snapshots of active spaces and live turns |
| SnapshotProofs.RecoveryRestarts | apps/api/src/services/snapshotService.ts:490-546 | a crash after any step of recovery does not change where recovery ends |
| SnapshotProofs.ActivationSoundness | apps/api/src/services/snapshotService.ts:248-304 | with quality enforced a snapshot becomes active only at the end of its build, describing exactly the space's current repositories and commits, with every index good and linked when there are several |
| SnapshotLiveness.GoodBuildActivates | apps/api/src/services/snapshotService.ts:113-304 | for every space that can be built and every list of indexes that are good when quality is enforced, the run that makes the directory and the row, records the indexes and, with several repositories, a good linking check of each, and activates, is possible and ends with exactly this snapshot active |
| SnapshotProofs.OneActiveSnapshot | apps/api/src/services/snapshotService.ts:266-294 | in every reachable state a row is active exactly when its space names it |
| SnapshotProofs.TurnInterlock | apps/api/src/services/snapshotService.ts:407-488 | the snapshot of a queued, pending or running turn always exists with its directory and is never being pruned |
| TurnInterlocks.StepInterlocks | apps/api/src/services/snapshotService.ts:407-488 | one step of either service leaves every active turn an intact snapshot if and only if it is not the last section of a resumption whose snapshot is gone or marked by then |
| InterlockOutcomes.MachinesMoveExactly | apps/api/src/services/snapshotService.ts:407-546 | each step moves the snapshots, the turns or neither, and a crash restarts both |
| InterlockOutcomes.PinsMoveExactly | apps/api/src/services/snapshotService.ts:548-566 | a chat is pinned from its creation until it or the row of its snapshot is deleted, and pruning sees exactly the turns of pinned chats, with their pins and whether they are active |
| InterlockOutcomes.ResumptionsMoveExactly | apps/api/src/services/agentService.ts:609-641 | a call of resumeTurn remembers the snapshot its turn had at the beginning until it requeues, gives up or the process crashes |
| TurnInterlocks.TurnsKeepSnapshotsExactly | apps/api/src/services/agentService.ts:423-641 | over all interleavings of both services, crashes included, with resumeTurn split into reading, checking and requeueing, every queued, pending or running turn keeps its snapshot row and directory, unmarked, throughout a run if and only if no such late resumption occurs in it |
| InterlockExamples.LateResumptionBreaks | apps/api/src/services/agentService.ts:609-630 | a failed turn is resumed, the call passes its check of the snapshot, the snapshot is withdrawn and marked while it waits, and it requeues the turn on a snapshot being deleted |
| SnapshotProofs.ManifestUpdatesApply | apps/api/src/services/snapshotService.ts:608-615 | the status guard of the manifest update never fails in a live build |
| SnapshotProofs.VersionsAreUnique | apps/api/src/services/snapshotService.ts:596-601 | versions within a space are pairwise distinct |
| SnapshotServices.NewerIsPrefix | apps/api/src/services/snapshotService.ts:631-651 | in the version order the row at position k has exactly the k rows before it as newer ones |
| SnapshotServices.CandidatesAreTheTail | apps/api/src/services/snapshotService.ts:394-401 | pruning may delete exactly the rows after the newest keepLatest, except the active snapshot |
| SnapshotServices.SnapshotService.constructor | apps/api/src/services/snapshotService.ts:98-111 | the constructor ends in the recovered, settled state |
| SnapshotServices.SnapshotService.ReconcileInterruptedSnapshotBuilds | apps/api/src/services/snapshotService.ts:490-520 | exactly the building rows become failed with unknown quality |
| SnapshotServices.SnapshotService.RecoverInterruptedSnapshotPrunes | apps/api/src/services/snapshotService.ts:522-546 | exactly the pruning rows and their directories are gone |
| SnapshotServices.SnapshotService.CleanupOrphanedSnapshotArtifacts | apps/api/src/services/snapshotService.ts:1295-1315 | exactly the directories without a row are gone |
| SnapshotServices.SnapshotService.NextVersion | apps/api/src/services/snapshotService.ts:596-601 | one more than the greatest version of the space, or 1 |
| SnapshotServices.SnapshotService.BeginBuild | apps/api/src/services/snapshotService.ts:113-163 | a buildable space gets a directory and a building row with the next version; other spaces are refused unchanged |
| SnapshotServices.SnapshotService.RecordIndex | apps/api/src/services/snapshotService.ts:194-211 | the indexed repository is appended to the manifest and persisted, and the build goes on if and only if quality is not enforced or the index is good |
| SnapshotServices.SnapshotService.BeginLinkingRepositories | apps/api/src/services/snapshotService.ts:213-229 | from here on the entries are graded with their linking checks; the manifest of the row is written again and nothing else changes |
| SnapshotServices.SnapshotService.RecordLinking | apps/api/src/services/snapshotService.ts:230-244 | the linking check of the next repository is recorded and persisted, and the build goes on if and only if quality is not enforced or the entry with this check is good |
| SnapshotServices.SnapshotService.ActivateBuild | apps/api/src/services/snapshotService.ts:248-304 | activation commits if and only if, under enforcement, every expected entry is good and the repositories of the space are those captured, and then the row becomes active, the other active row of the space retired, the space names the new one, and no other row changes |
| SnapshotServices.SnapshotService.FailBuild | apps/api/src/services/snapshotService.ts:307-341 | a failed build leaves a failed row with the manifest so far |
| SnapshotServices.SnapshotService.PruneCandidates | apps/api/src/services/snapshotService.ts:390-401 | the listed candidates are exactly the expendable rows, without repetition |
| SnapshotServices.SnapshotService.BeginPrune | apps/api/src/services/snapshotService.ts:390-415 | pruning starts only without active jobs, with retention 1 to 100, and with no candidate in use; a refusal changes nothing |
| SnapshotServices.SnapshotService.PruneCandidate | apps/api/src/services/snapshotService.ts:422-450 | a candidate is marked, its directory removed and its row deleted, in this order; a changed or used row is left alone, and a directory that cannot be removed leaves the row marked |
| SnapshotServices.SnapshotService.EndPrune | apps/api/src/services/snapshotService.ts:469-471 | the pruning set loses exactly the ids of the finished call |
| SnapshotServices.SnapshotService.AssertAgentTurnCanStart | apps/api/src/services/snapshotService.ts:474-488 | a turn may start exactly when its snapshot is neither in the pruning set nor marked and, under enforcement, complete |
| Permits.PoolSafety | apps/api/src/services/cbmService.ts:1100-1151 | over any interleaving active equals granted minus released and stays within the limit, tickets wait only at the limit and in arrival order, and grants among tickets that were not aborted are first come, first served |
| Permits.EventSettles | apps/api/src/services/cbmService.ts:1106-1150 | every ticket is settled at most once and a released token stays released |
| PermitOutcomes.OutcomesMoveExactly | apps/api/src/services/cbmService.ts:1106-1150 | an event gives a ticket an outcome if and only if it has the cause: an acquisition below the limit or the handover of a release to the first live ticket grants, an abort rejects exactly the waiting tickets of its signal, a release makes exactly its own token released |
| Permits.ReleaseTwice | apps/api/src/services/cbmService.ts:1127-1134 | releasing a token a second time changes nothing |
| Permits.HandoverGrantsFirstLive | apps/api/src/services/cbmService.ts:1136-1150 | a release grants the oldest waiting ticket that is not aborted, rejects the aborted ones before it and leaves the rest, or frees the permit |
| PermitPools.AbortablePermitPool.Acquire | apps/api/src/services/cbmService.ts:1106-1125 | an aborted signal throws; otherwise the ticket is granted at once or queued at the end |
| PermitPools.AbortablePermitPool.OnAbort | apps/api/src/services/cbmService.ts:1115-1120 | a waiting ticket is removed and rejected, any other is left alone |
| PermitPools.AbortablePermitPool.ReleaseToken | apps/api/src/services/cbmService.ts:1127-1150 | the first call frees the permit and hands it over, later calls do nothing |
| RunBudgets.LimitsAreBounded | packages/agent-runtime/src/agentRuntime.ts:246-278 | whatever the caller passes, no limit of a run exceeds the configured one and every hard limit above 1 keeps a reserve |
| BudgetHistories.DefaultsExactly | packages/agent-runtime/src/agentRuntime.ts:63-83 | each configured limit is the option when it is a positive integer and otherwise the documented default |
| BudgetHistories.LimitsExactly | packages/agent-runtime/src/agentRuntime.ts:246-278 | each limit of a run is the positive value the caller asks for when that is at most the configured one and otherwise the configured one, and each research limit leaves the reserve but is at least 1 |
| RunBudgets.ToolBudget | packages/agent-runtime/src/agentRuntime.ts:297-350 | exactly the first maxToolCalls requests reach the real tool, and finalization is requested before the last permitted call or provider round whenever the limit exceeds 1 |
| RunBudgets.NoProgressBound | packages/agent-runtime/src/agentRuntime.ts:330-350 | at most maxNoProgressRounds tool rounds per distinct successful result, plus one stretch, pass without finalization |
| RunBudgets.RepetitionBound | packages/agent-runtime/src/agentRuntime.ts:298-303 | without finalization there are fewer than maxRepeatedToolCalls calls per distinct call |
| RunBudgets.ReasonIsStable | packages/agent-runtime/src/agentRuntime.ts:279-281 | the finalization reason is written once |
| BudgetHistories.ReasonExactly | packages/agent-runtime/src/agentRuntime.ts:279-354 | after any history of requests, results, provider rounds and questions the counters are those of the history, the finalization reason is the first of its causes and the run is aborted exactly when a round reached the hard limit |
| AgentRuntimes.Execution.BeginToolRequest | packages/agent-runtime/src/agentRuntime.ts:297-314 | the request is counted, soft limits are noted and the real tool is invoked exactly within the hard limit |
| AgentRuntimes.Execution.EndToolRequest | packages/agent-runtime/src/agentRuntime.ts:315-324 | a success resets the error streak and records the result, a failure extends it |
| AgentRuntimes.Execution.OnProviderTurn | packages/agent-runtime/src/agentRuntime.ts:330-349 | tool rounds without a new result are counted and the round limits are applied |
| AgentRuntimes.Execution.FinalizationReason | packages/agent-runtime/src/agentRuntime.ts:351-354 | asking notes the time budget and returns the reason |
| AgentRuntimes.AgentRuntime.StartRun | packages/agent-runtime/src/agentRuntime.ts:150-174 | a run starts exactly when the runtime is open, authentication is stable and neither run nor session is active |
| AgentRuntimes.AgentRuntime.Release | packages/agent-runtime/src/agentRuntime.ts:165-171 | a release closure removes exactly its own run once, and never a later run under the same id |
| StdioProofs.ParseSplit | apps/api/src/cli/stdioTransport.ts:11-40 | parsing a longer stream is parsing its front and then what that left over with the rest |
| StdioProofs.ChunkIndependence | apps/api/src/cli/stdioTransport.ts:11-95 | without a malformed header every way to cut a stream gives the same messages and buffer as one push; cuts never change the final buffer nor whether a push throws |
| StdioProofs.CutsAgreeExactly | apps/api/src/cli/stdioTransport.ts:11-72 | all cuts of a stream deliver the same messages if and only if it does not consist of complete messages, line breaks and then a header block without a valid content length |
| StdioLaws.BlankExactly | apps/api/src/cli/stdioTransport.ts:27-36 | the lines dropped are exactly those whose decoded text trims to nothing |
| StdioLaws.HeaderEndExactly | apps/api/src/cli/stdioTransport.ts:74-85 | the header block ends at the first empty line, and the separator has the length of the line breaks there |
| StdioLaws.ContentLengthExactly | apps/api/src/cli/stdioTransport.ts:61-72 | a length is declared where a line begins with the header name in any case and a colon, and only white space and digits follow up to a line end; the first such number is the length when it is a safe integer, and otherwise, or without one, there is none |
| StdioRoundTrip.HeaderLength | apps/api/src/cli/stdioTransport.ts:61-72 | the length parsed from the encoder's own header is the one written |
| StdioRoundTrip.JsonObjectIsLineSafe | apps/api/src/cli/stdioTransport.ts:98-104 | a body that starts with a brace and holds no line break survives as a line |
| StdioRoundTrip.RoundTrip | apps/api/src/cli/stdioTransport.ts:98-104 | concatenated encoded responses parse back to exactly those formats and bodies |
| StdioRoundTrip.RoundTripInChunks | apps/api/src/cli/stdioTransport.ts:11-104 | the round trip holds under any chunking |
| StdioRoundTrip.LineSafeIsNeeded | apps/api/src/cli/stdioTransport.ts:27-36 | a line body survives on its own if and only if it is line-safe |
| StdioRoundTrip.MalformedHeaderLosesMessage | apps/api/src/cli/stdioTransport.ts:11-72 | a stream of one message and a malformed header delivers the message only to some cuts |
| StdioParser.StdioMessageParser.DropLeadingLineBreaks | apps/api/src/cli/stdioTransport.ts:91-95 | exactly the leading line breaks are dropped |
| StdioParser.StdioMessageParser.ReadFramedMessage | apps/api/src/cli/stdioTransport.ts:42-59 | a complete frame is taken, an incomplete one waits, a malformed header throws without consuming |
| StdioParser.StdioMessageParser.Push | apps/api/src/cli/stdioTransport.ts:11-40 | a push returns the messages of the whole buffered stream and keeps the rest, or throws and keeps the unconsumed bytes |
| Texts.DecimalOfDigits | apps/api/src/cli/stdioTransport.ts:100-102 | reading a decimal numeral back gives the number |
| Texts.Utf8LengthExactly | apps/api/src/services/mcpGateway.ts:3149-3151 | the byte length counted for a text is the length of its UTF-8 encoding, which a decoder reads back |
| Integrity.HashFiles | apps/api/src/services/snapshotSourceIntegrity.ts:134-149 | the updates of the digest loop hash exactly the prefix and the encoding of the sorted list |
| Integrity.WalkSnapshotSource | apps/api/src/services/snapshotSourceIntegrity.ts:167-197 | the recursive walk pushes exactly the regular files with their joined paths, and throws exactly on links and other nodes |
| IntegrityLaws.WalkFinds | apps/api/src/services/snapshotSourceIntegrity.ts:167-197 | the walk fails exactly when the tree holds a link or another node, and otherwise finds exactly the regular files, each under the names that lead to it |
| IntegrityLaws.LessExactly | apps/api/src/services/snapshotSourceIntegrity.ts:294-300 | one path comes before another if and only if at the first difference its byte is smaller or it has ended |
| IntegrityLaws.SafePathExactly | apps/api/src/services/snapshotSourceIntegrity.ts:302-306 | the paths a manifest may hold are exactly the non-empty sequences of plain names joined by slashes |
| IntegrityLaws.TotalAdds | apps/api/src/services/snapshotSourceIntegrity.ts:246-246 | the total of two lists is the sum of their totals, and a single file counts its own size |
| IntegrityLaws.ValidatesExactly | apps/api/src/services/snapshotSourceIntegrity.ts:228-280 | a manifest validates if and only if its texts are well formed, its files safe, sorted and distinct, its totals those of the files and its digest theirs |
| IntegrityLaws.VerifyExplains | apps/api/src/services/snapshotSourceIntegrity.ts:100-125 | the answer of the verification for every tree and manifest: the first of the reasons that applies, or the normalised manifest exactly when none does |
| IntegrityProofs.DecodeInverts | apps/api/src/services/snapshotSourceIntegrity.ts:137-147 | a decoder inverts the hashed encoding for arbitrary path bytes |
| IntegrityProofs.DigestIsInjective | apps/api/src/services/snapshotSourceIntegrity.ts:134-149 | equal root digests mean equal sorted file lists |
| IntegrityProofs.DigestIgnoresOrder | apps/api/src/services/snapshotSourceIntegrity.ts:137-137 | the digest of files with distinct paths does not depend on their order |
| IntegrityProofs.SplitOfJoin | apps/api/src/services/snapshotSourceIntegrity.ts:191-193 | joined path segments can be split again, so different entries have different paths |
| IntegrityProofs.TreePathsAreDistinct | apps/api/src/services/snapshotSourceIntegrity.ts:151-197 | the files of a directory tree have pairwise distinct paths and come out sorted |
| IntegrityProofs.CreatedValidates | apps/api/src/services/snapshotSourceIntegrity.ts:228-265 | a created manifest passes the validator unchanged if and only if no file name contains a backslash and the totals are safe integers |
| IntegrityProofs.BackslashIsRefused | apps/api/src/services/snapshotSourceIntegrity.ts:302-306 | a file whose name contains a backslash gives a manifest that its own validator refuses |
| IntegrityProofs.VerifyAcceptsExactly | apps/api/src/services/snapshotSourceIntegrity.ts:100-125 | verification accepts exactly the trees whose sorted file list, directory and tree hash are those of a valid manifest; the comparisons after the digest never fail |
| IntegrityProofs.TamperEvidence | apps/api/src/services/snapshotSourceIntegrity.ts:100-125 | a valid manifest of one tree accepts another exactly when both hold the same paths, sizes and content digests |
| SearchMatches.FindFrom | apps/api/src/services/snapshotSourceTools.ts:260-267 | the least position from the given one at which the query occurs, or one past the end |
| SourceSearch.Offer | apps/api/src/services/snapshotSourceTools.ts:146-157 | a matching line is counted and, when it belongs on the page, added within the response budget or reported as too large |
| SourceSearch.SearchLines | apps/api/src/services/snapshotSourceTools.ts:143-158 | a file contributes exactly its lines that hold the query, in order, each with its path, a line number one more than its index and its excerpt, or the prefix before the one that does not fit |
| SourceSearch.SearchFile | apps/api/src/services/snapshotSourceTools.ts:116-161 | a file that the filters select is counted under exactly one of oversize, binary and searched, contributes its bytes read, and is searched only as a text |
| SourceSearch.SearchSnapshotText | apps/api/src/services/snapshotSourceTools.ts:88-180 | a non-empty query of at most 1024 bytes with limit and offset in range is answered, any other refused; every page is a prefix of its slice, within 45 KiB and 33 MiB, of the list of hits, which are the positions of lines of selected texts in which the query occurs, both folded unless the search is case-sensitive; it is the whole slice when complete or when has_more is set, has_more is exact when complete, the counters of a complete search are the numbers of files and bytes under each heading, and a search stops early only for one of the stated reasons |
| SearchListings.AllMatchesIsListing | apps/api/src/services/snapshotSourceTools.ts:109-163 | the computed match list is the listing of the hits: one entry for each position (repository, file, line) of a selected text of at most 1 MiB at which some occurrence of the query starts, case-folded on both sides unless case-sensitive, in the order of positions |
| SearchListings.ListingIsUnique | apps/api/src/services/snapshotSourceTools.ts:109-163 | there is only one such list |
| SourceSearch.UntruncatedIsAll | apps/api/src/services/snapshotSourceTools.ts:165-180 | a page not marked truncated is the whole rest of the match list |
| SourceSearch.PagingYieldsAll | apps/api/src/services/snapshotSourceTools.ts:97-98 | whatever complete pages the search returns for a query, following next_offset collects every hit of the repositories once and in order if and only if their number does not exceed what the offset limit lets pages of that size reach |
| SearchExamples.BigSearchNeverStops | apps/api/src/services/snapshotSourceTools.ts:116-161 | a search of two files of 524288 one-character lines is complete at every offset |
| SearchExamples.CompletePagesServe | apps/api/src/services/snapshotSourceTools.ts:165-180 | its complete answers, one for each offset, satisfy everything that is promised of a page |
| SearchExamples.OffsetLimitIsReached | apps/api/src/services/snapshotSourceTools.ts:97-98 | yet following next_offset through it in pages of 100 ends in a refusal |
| SourceSearch.ContextShowsQuery | apps/api/src/services/snapshotSourceTools.ts:260-267 | the excerpt of a case-sensitive match contains the query |
| ResponseLimitProofs.FittingIsMonotone | apps/api/src/services/mcpGateway.ts:3169-3191 | a longer prefix never serialises to fewer bytes, so fitting is monotone in the prefix length |
| JsonTexts.SizeIsLength | apps/api/src/services/mcpGateway.ts:3149-3151 | what the limiter measures is the length in bytes of the serialised text: quotes, escapes, the UTF-8 of every character, commas, colons and brackets |
| JsonTexts.ValueReadsBack | apps/api/src/services/mcpGateway.ts:3149-3151 | a reader gives back every value from its serialised text, whatever follows it |
| ResponseLimitProofs.LargestArrayIsLargest | apps/api/src/services/mcpGateway.ts:3193-3207 | the chosen array is reachable through records, none reachable has a longer serialised text, and none is chosen exactly when none is reachable |
| ResponseLimitProofs.FirstLargest | apps/api/src/services/mcpGateway.ts:3193-3207 | every reachable array that comes before the chosen one in the order of the fields is strictly smaller |
| ResponseLimitProofs.DotsJoin | apps/api/src/services/mcpGateway.ts:3225-3234 | the field name in the marker joins the keys of the path with dots |
| ResponseLimitProofs.CutKeepsTheRest | apps/api/src/services/mcpGateway.ts:3209-3222 | slicing changes nothing at any unrelated path |
| ResponseLimitProofs.CutTakesPrefix | apps/api/src/services/mcpGateway.ts:3209-3222 | the array is cut to the kept prefix exactly when no key on its path is empty |
| ResponseLimitProofs.CandidateDiffers | apps/api/src/services/mcpGateway.ts:3209-3234 | a truncated response keeps every path unrelated to the marker and the chosen array, and holds the kept prefix of that array if and only if its path does not begin with truncated and has no empty key |
| ResponseLimitProofs.EmptyKeyNeedsOldMarker | apps/api/src/services/mcpGateway.ts:3209-3234 | with an empty key on the path a response that is too large fits only when the marker replaces a field truncated |
| McpGateway.CutHoldsPrefixExactly | apps/api/src/services/mcpGateway.ts:3127-3191 | a response cut by the limiter holds the prefix its marker announces if and only if the path of the chosen array does not begin with truncated and has no empty key |
| ResponseExamples.UnderMarkerHoldsNothing | apps/api/src/services/mcpGateway.ts:3225-3234 | an array under a field truncated is announced with one item and gone |
| ResponseExamples.EmptyKeyHoldsEverything | apps/api/src/services/mcpGateway.ts:3209-3222 | an array under an empty key is announced with one item and kept whole |
| McpGateway.FindLargestArray | apps/api/src/services/mcpGateway.ts:3193-3207 | the recursive loop chooses a reachable array that a later one replaces only when strictly larger |
| McpGateway.LongestPrefix | apps/api/src/services/mcpGateway.ts:3175-3190 | the binary search finds the longest proper prefix with which the serialised response has at most 50000 bytes, or none when even the empty one does not fit |
| McpGateway.TruncateLargestArray | apps/api/src/services/mcpGateway.ts:3169-3191 | a truncated response exists exactly when emptying the chosen array brings the serialised text to at most 50000 bytes, and it announces path, kept and total items of the longest proper prefix that does |
| McpGateway.LimitMcpResponse | apps/api/src/services/mcpGateway.ts:3127-3148 | a value whose serialised text has at most 50000 bytes is returned as is, otherwise it is truncated exactly when it can be and replaced by the refusal with both sizes when not; a truncated one holds the announced prefix exactly when its path is clean, and the serialised text of the result never exceeds 50000 bytes |
| McpGateway.RefusalFits | apps/api/src/services/mcpGateway.ts:3139-3147 | the serialised fallback object has at most 50000 bytes whatever size it reports |

## Left out

- Random ids are fresh creation numbers, and SHA-256 digests and deduplication keys are the tuples or byte strings they hash.
- The order of rows with equal created_at is left open, as the query leaves it; ids break ties only where the SQL says so.
- Job log events, notifications and the timer that ticks once a second; a tick may happen at any time in the model.
- The rollback of runAtomically when its operation throws, and its nesting inside an outer transaction.
- The check that dependency ids are non-empty strings, and the computation of the rebuild fingerprint, a digest that is never blank.
- Repository batches, their request ids and links, and the limits on the size of a repository set.
- The columns snapshot_status, snapshot_included, error texts, timestamps, sizes and messages.
- Manifests whose declared quality is missing; every row of the model declares one.
- Materialising revision sources, stale worktrees and managed-path checks; directories are identified by snapshot id.
- A prune needs that no build of the space runs, which holds because builds run only inside the space's active jobs.
- Input/output errors during the constructor; a directory that cannot be removed keeps its row marked for the next start.
- SnapshotProofs.TurnInterlock: does not cover resumeTurn, because it checks the snapshot before its awaits and not again; TurnInterlocks.TurnsKeepSnapshotsExactly does.
- AgentProofs.AttemptConservation: takes terminal events as meant for the live attempt, because AgentRaces.RacesConserveExactly covers the others.
- AgentRaces.CapturesNothing: is conditional because a start between the settling of the aborted run and the continuation of interruptTurn, where only promise callbacks run, is not ruled out; AgentRaces.RacesConserveExactly holds with it.
- Errors of the database inside the handling of a terminal event, and its second delivery after one.
- AgentServices.AgentService.RunQueueDispatcher: does not model the authentication flag apart from the closed one and lets nothing else happen during its awaits; AgentRaces interleaves its starts and failures with everything else.
- Messages, tool results, streaming of content, account sessions and provider selection of agent turns.
- The sessions that hold a permit; the pool itself is modelled.
- Login, logout and the terminal event of a run; stable JSON texts are the signatures and fingerprints.
- AgentRuntimes.Execution.OnProviderTurn: does not model provider activity times and usage sums.
- UTF-8 decoding in the stdio parser; bodies are byte strings and contentLength works on header bytes.
- The hexadecimal form and letter case of a stored root digest, reading and writing manifest files, and hashing of file contents.
- Entries are visited in the order listed; the final sort makes the result independent of it, so the sort of each directory is not modelled.
- Lower-casing, glob and extension filters, JSON sizes of matches and the clock are parameters of the search; abort signals are not modelled.
- SourceSearch.SearchSnapshotText: does not say which files were skipped on an early exit, because the source promises nothing about them.
- McpGateway.LimitMcpResponse: the size bound assumes a serialised value shorter than 2^53 bytes, because the fallback prints its length.
- Lone surrogates and values that JSON.stringify omits in response limiting.
- HTTP routes, MaintenanceService, Git and GitHub access, the provider adapter, process spawning and the user interface.
