# Verification of the pi-bully scheduler and election

pi-bully is a cluster of nodes that elect a leader with a bully protocol. The leader schedules tasks kept in
PostgreSQL: an append-only status history per task and a separate lease table. This project models the two state
machines at its core and proves what they keep over every run.

**Task store and scheduler.** `Tasks` holds the entities, `Operations` the eleven store operations as functions on the
three tables, `StatusTable` and `Store` the same operations as imperative transactions over raw status rows with sort
keys. `History` is the life cycle of one task as an automaton, `StoreInvariant` the invariant that ties history, lease
and retry budget together. `Scheduler` is the interleaved system: a tick that advances one transaction or call at a
time, arbitrary worker calls with arbitrary ids, submissions, the passing of time, and node restarts at any point. A
transaction may commit, roll back, or commit with its reply lost. `CallEffects` says when each call is accepted and
exactly what it leaves behind. `TickRun`, `BatchDispatch` and `TickEffects` describe a tick from the tables before it,
the members and the fate of its transactions and calls; `SchedulerEngine` is the engine's own loop, proved to have that
effect. `Claim`, `RoundRobin`, `Recovery`, `Renewal` and `Guarantees` state the other results.

**Election.** `LocalElection` and `ElectionState` are the local state and its transitions, `Convergence` what a node
makes of the messages it hears, `Election` the protocol (goroutines, channels, messages that may be lost, repeated and
reordered, restarts as new incarnations), `ElectionGuarantees` what every run keeps, `ElectionEffects` what each event
leads to at a node left alone to handle it, `Candidacy` when an election may end in a declaration, `Leadership` when two
nodes hold themselves leader of one term and what ends that, and `Backoff` the retry loops.

## Assumptions

- Store transactions are serialised; one that rolls back leaves the tables as they were.
- At most one scheduler tick runs in the cluster at a time. A leader may crash or change at any point of a tick.
- A task enters with history [QUEUED] and a fixed retry limit (any integer, negative ones included).
- Node ids are non-zero and below 2^63, since they are stored as BIGINT and read back unsigned (task/store.go:349).
- Members are keyed by their own id (cluster/event.go:63-66).
- Status row keys (created_at, id) increase in insertion order; inside one transaction this rests on UUIDv7 order
  (sections 5.7 and 6.2 of RFC 9562).
- Terms and the round-robin counter do not wrap.
- A sleep of a retry loop that completes has ended by the loop's deadline.

## Where code and documentation differ

The model follows the code.

- docs/design.md:69-79 shows FAILED and WORKER_LOST after RUNNING only; the code also takes both from ASSIGNED
  (task/store.go:258, task/store.go:307). `History.Follows` has both edges.
- `max_retries` bounds the number of failures, not of retries after the first: a task with `max_retries` 0 is never run
  (`Guarantees.NoRetriesNoRun`).
- docs/design.md:20 lists recovering stale scheduling among the scheduler's duties. The code does it only in the first
  tick after taking over, and marks it done even if it failed. `Guarantees.OnlyTakeoverRequeues` is the exact condition
  under which a stranded task moves; `Guarantees.StrandingHappens` is a run that strands one.
- Nothing in the protocol keeps two nodes from holding themselves leader of one term; `Leadership.TwoLeadersInOneTerm`
  is such a run. `Leadership.OneLeaderPerTerm` says exactly which runs are free of it: those in which no node takes the
  lead, as `Leadership.LeadIsTaken` defines it, of a term another node holds. Both then began that very term
  (`Leadership.RivalsBothBegan`), and `Leadership.LeadIsGivenUp` and `Leadership.HigherRivalWins` say exactly what
  ends it.

## Model

| member | source | states |
|---|---|---|
| `Guarantees.TablesAgree` | task/store.go:154-489 | in every reachable state a task has a lease iff its latest status is ASSIGNED or RUNNING, the lease belongs to the worker of the last ASSIGNED record, and no worker holds two leases |
| `Guarantees.UnguardedLossHitsOwner` | scheduler/engine.go:196-203 | in every reachable state the unguarded MarkWorkerLost after a failed dispatch is accepted iff the named worker still owns the lease |
| `Guarantees.FailedDispatchIsUndone` | scheduler/engine.go:189-203 | after a failed dispatch the task is eligible again, unleased, and its worker free, iff the report takes effect and the worker still owns the lease; otherwise nothing changes |
| `Guarantees.StrangersChangeNothing` | server/scheduler.go:24-70 | in every reachable state a call by anyone but the owner of the task's lease changes nothing |
| `Guarantees.OwnersAreHeard` | server/scheduler.go:24-70 | in every reachable state the owner's renewal, running and (once running) completed reports are recorded exactly, and no other task is touched |
| `Guarantees.FailuresAreHeard` | server/scheduler.go:24-70 | in every reachable state the owner's failure report is recorded, takes the lease away and requeues the task iff retries remain |
| `Guarantees.HistoriesAreLawful` | task/store.go:58-489 | every history in every reachable state is a lawful word, never rests at WORKER_LOST, and accounts for each assignment and each queueing exactly once |
| `Guarantees.BudgetIsRespected` | task/store.go:262-291 | FAILED records never exceed the limit, stay below it while the task can run or has completed, and a task rests at FAILED iff they equal it |
| `Guarantees.NoRetriesNoRun` | task/sql/claim_queued.sql:18-19 | in every reachable state a QUEUED task is eligible iff its limit is positive; with a limit of zero or less it stays QUEUED and is never leased |
| `Guarantees.FinishedStaysFinished` | task/store.go:212-298 | a COMPLETED or resting FAILED task gets no further record in any continuation |
| `Guarantees.OnlyFailuresConsumeBudget` | task/sql/count_failed.sql:1-5 | over any run the FAILED count grows by exactly the failure reports accepted from lease holders; worker loss and recovery add none |
| `Guarantees.RunExtends` | task/store.go:495-512 | over any run every history only grows and tasks stay as submitted |
| `Guarantees.TakeoverTickLosesNothing` | scheduler/engine.go:85-93 | when a takeover tick's sweeps have taken effect, with workers acting in between, every task that can still run is claimable or under an unexpired lease of a live worker other than the leader |
| `Guarantees.OnlyTakeoverRequeues` | scheduler/engine.go:85-88 | a SCHEDULING task outside the current batch is moved by a step iff that step is an effective leadership sweep |
| `Guarantees.StrandedUntilTakeover` | scheduler/engine.go:74-88 | once the leader has done its recovery, a SCHEDULING task outside its batch keeps its history through every run in which that leader stays in office and is not restarted |
| `Guarantees.TakeoverSweepsAgain` | scheduler/engine.go:75-88 | a node that was out of office or restarted begins its next leader tick with the leadership sweeps; one that stayed in office does not |
| `Guarantees.StrandingHappens` | scheduler/engine.go:109-116 | a reachable state with a SCHEDULING task, an idle scheduler and the leadership sweep already spent |
| `Scheduler.RunsAreSafe` | scheduler/engine.go:74-212 | every state of every interleaved run satisfies the invariant over tables, lease ownership and the tick's program counter |
| `Scheduler.ChosenIsUnleased` | scheduler/engine.go:95-104 | the worker picked for a claimed task holds no lease at the moment of assignment, whatever happened since the snapshot |
| `Scheduler.ClaimKeeps` | scheduler/engine.go:104-116 | claiming at most as many tasks as there are free workers keeps the invariant, also when the reply is lost |
| `Scheduler.AssignKeeps` | scheduler/engine.go:166-179 | assigning the picked worker keeps lease agreement and one lease per worker |
| `Scheduler.WorkerCallIsGentle` | server/scheduler.go:24-70 | no worker call, with any ids, creates a lease, changes its owner or makes a task SCHEDULING |
| `BatchDispatch.BatchIsHandedOut` | scheduler/engine.go:165-212 | whatever the fate of its calls, a batch left alone is handed out task by task to the strategy's successive choices; each task is left untouched, leased until the configured expiry, or requeued with one WORKER_LOST record, as its own fate says, and no other task is touched |
| `TickEffects.TickHasEffect` | scheduler/engine.go:74-119 | a leader's tick, whatever its fate, has one outcome, described from the tables before it: the effective sweeps, then the min(batch size, free workers) oldest eligible tasks marked SCHEDULING and each served by a different worker that held no lease |
| `TickEffects.NothingStaysScheduling` | scheduler/engine.go:85-88 | after a first tick whose transactions commit nothing is SCHEDULING |
| `TickEffects.NoneStaysExpired` | scheduler/engine.go:90-93 | after a tick whose expiry sweep took effect no lease is expired, whatever became of the rest |
| `TickRun.OneOutcome` | scheduler/engine.go:74-119 | with its fate given, a tick left alone has one outcome |
| `SchedulerEngine.Engine.Tick` | scheduler/engine.go:74-119 | the engine's tick has exactly the effect of its fate on the tables, keeps the system's invariant, leaves no lease expired and after a first committed tick nothing SCHEDULING; without the lead or without workers it changes no table, and only a node out of office forgets its recovery |
| `SchedulerEngine.Engine.DispatchClaimedTasks` | scheduler/engine.go:165-212 | the dispatch loop takes exactly the steps its fate dictates, from the first claimed task to the end of the tick |
| `SchedulerEngine.Engine.RecoverOnLeadership` | scheduler/engine.go:121-129 | both leadership sweeps are tried with the outcome their fate dictates, and recovery is marked done whether or not either failed |
| `SchedulerEngine.Engine.AliveWorkers` | scheduler/engine.go:131-143 | the members without the leader itself |
| `SchedulerEngine.Engine.FreeWorkers` | scheduler/engine.go:145-163 | the alive workers without those named by any lease |
| `StoreInvariant.LeaseAgreesWithStatus` | task/store.go:524-549 | in a consistent store lease and latest status agree and the lease names the last assignee |
| `StoreInvariant.RetryBudget` | task/store.go:262-291 | what each latest status says about the number of failures |
| `StoreInvariant.AssignedKeeps` | task/store.go:154-184 | MarkAssigned keeps the tables consistent for any task and worker |
| `StoreInvariant.RunningKeeps` | task/store.go:186-210 | MarkRunning keeps the tables consistent for any task and worker |
| `StoreInvariant.CompletedKeeps` | task/store.go:212-240 | MarkCompleted keeps the tables consistent for any task and worker |
| `StoreInvariant.FailedKeeps` | task/store.go:242-298 | MarkFailed keeps the tables consistent: it rests at the limit or requeues below it |
| `StoreInvariant.WorkerLostKeeps` | task/store.go:300-328 | MarkWorkerLost keeps the tables consistent iff it does not name a worker other than the lease owner |
| `StoreInvariant.RenewKeeps` | task/store.go:139-152 | RenewLease keeps the tables consistent |
| `StoreInvariant.LoseLeasesKeeps` | task/store.go:365-377 | revoking any set of leases, without a status check, keeps the tables consistent |
| `StoreInvariant.StaleKeeps` | task/store.go:445-489 | requeueing stale SCHEDULING tasks keeps the tables consistent |
| `StoreInvariant.ScheduleKeeps` | task/store.go:100-104 | marking eligible tasks SCHEDULING keeps the tables consistent |
| `Operations.LeaseSpanTruncates` | task/store.go:173-174 | a lease is granted for the configured duration with the part below a second cut off toward zero |
| `CallEffects.AssignEffect` | task/store.go:154-184 | on a consistent store MarkAssigned is accepted iff the task is SCHEDULING, and leaves it held by the worker under a lease until the given expiry, every other task untouched |
| `CallEffects.RunningEffect` | task/store.go:186-210 | MarkRunning is accepted iff the caller owns the lease: the status check never refuses an owner |
| `CallEffects.CompletedEffect` | task/store.go:212-240 | MarkCompleted is accepted iff the caller holds the task as RUNNING, and ends it without a lease |
| `CallEffects.FailedEffect` | task/store.go:242-298 | MarkFailed is accepted iff the caller owns the lease; it requeues iff the failure leaves retries, else rests at FAILED, without a lease either way |
| `CallEffects.WorkerLostEffect` | task/store.go:300-328 | MarkWorkerLost is accepted iff the task is leased; naming the owner it leaves exactly a WORKER_LOST and a QUEUED record, no lease and an eligible task, and consumes no retry |
| `CallEffects.RenewEffect` | task/store.go:139-152 | RenewLease is accepted iff the caller owns the lease, and moves that lease's expiry and nothing else |
| `CallEffects.ScheduleEffect` | task/store.go:100-104 | a claim leaves exactly one SCHEDULING record in the scheduler's name on each claimed task and leases nothing |
| `CallEffects.StaleEffect` | task/store.go:476-481 | the stale sweep leaves exactly one QUEUED record on each SCHEDULING task and touches no other |
| `CallEffects.ExpiredEffect` | task/sql/select_expired_leases.sql:1-5 | the expiry sweep revokes exactly the leases whose time is past, each with the records and text the code writes |
| `CallEffects.DeadEffect` | task/store.go:405-436 | the dead-worker sweep revokes exactly the leases of workers not alive, each with the records and text the code writes |
| `CallEffects.LossEffect` | task/store.go:365-377 | revoking a set of leases puts exactly the leased tasks of the set back in the queue |
| `History.AcceptsLawful` | docs/design.md:63-87 | the automaton accepts exactly the histories whose records follow the life cycle, each RUNNING, COMPLETED, FAILED and WORKER_LOST record naming the last assignee |
| `History.Conservation` | task/store.go:58-489 | in an accepted history assignments equal completions, failures and losses plus the one still held; queueings equal schedulings plus the one still waiting; COMPLETED occurs at most once, last |
| `History.HolderIsLastAssignee` | task/store.go:169-174 | the worker holding an accepted history is that of its last ASSIGNED record |
| `Recovery.SweepOrderIsIrrelevant` | task/store.go:330-489 | any two sequences of the same recovery sweeps give the same leases and the same histories up to error text |
| `Recovery.SweepsHaveClosedForm` | task/store.go:330-489 | the combined effect of any sequence of sweeps, described from the starting tables alone |
| `Recovery.RevokedOnce` | task/store.go:365-377 | a lease is revoked iff a sweep that ran covers it, at the cost of exactly one WORKER_LOST record and no FAILED record |
| `Recovery.TakeoverLosesNothing` | scheduler/engine.go:121-129 | the three sweeps in any order leave every task that can still run claimable or under a live, unexpired lease |
| `Renewal.RevokedOnlyWhenOverdue` | task/sql/select_expired_leases.sql:1-5 | over any run in which a lease stays held, an expiry sweep revokes it iff more than the lease duration in whole seconds has passed since the last grant or renewal |
| `Renewal.ExpiryTracksGrant` | task/sql/renew_lease.sql:1-4 | a held lease's expiry is its last grant or renewal plus the duration in whole seconds |
| `Renewal.ToleratedMisses` | worker/engine.go:163-200 | a renewal loop of period r keeps a held lease from the expiry sweep in every run of the system with at most k consecutive misses iff its start delay plus k + 1 periods fit in the lease duration in whole seconds |
| `Renewal.TickSpares` | scheduler/engine.go:90-93 | under that bound the expiry sweep of a tick inside the run leaves the lease with its worker, however its transaction ends |
| `Claim.ClaimTakesOldest` | task/sql/claim_queued.sql:14-22 | a claim is exactly the first min(limit, eligible) tasks by (created_at, id), none older skipped, each once; no other answer qualifies |
| `StatusTable.NewestIsLastInserted` | task/sql/latest_status.sql:1-5 | on a chronological table the latest-status query yields the last inserted record of the task |
| `StatusTable.DistinctIsNewest` | task/sql/claim_queued.sql:1-7 | DISTINCT ON and the single-row query agree on every table |
| `StatusTable.FailedCountsAgree` | task/sql/claim_queued.sql:8-13 | the grouped failure count equals the FAILED records of the history |
| `StatusTable.ClaimableIsEligible` | task/sql/claim_queued.sql:14-19 | the claim filter over raw rows selects exactly the tasks eligible by their histories |
| `StatusTable.ViewAfterInsert` | task/sql/insert_status.sql:1-2 | inserting a status row appends one record to one history |
| `Store.PostgresStore.ClaimQueued` | task/store.go:58-112 | returns the oldest eligible tasks and marks exactly those SCHEDULING; a negative limit is an error |
| `Store.PostgresStore.ActiveLeases` | task/store.go:114-137 | exactly the rows of the lease table, with task, worker and expiry, each once |
| `Store.PostgresStore.RenewLease` | task/store.go:139-152 | the transaction on rows has the effect and the verdict of the operation; an accepted renewal expires the configured duration, in whole seconds, after the current time |
| `Store.PostgresStore.MarkAssigned` | task/store.go:154-184 | the transaction on rows has the effect and the verdict of the operation; an accepted assignment is leased for the configured duration, in whole seconds, from the current time |
| `Store.PostgresStore.MarkRunning` | task/store.go:186-210 | the transaction on rows has the effect and the verdict of the operation |
| `Store.PostgresStore.MarkCompleted` | task/store.go:212-240 | the transaction on rows has the effect and the verdict of the operation |
| `Store.PostgresStore.MarkFailed` | task/store.go:242-298 | the transaction on rows has the effect and the verdict of the operation |
| `Store.PostgresStore.MarkWorkerLost` | task/store.go:300-328 | the transaction on rows has the effect and the verdict of the operation |
| `Store.PostgresStore.RecoverExpiredLeases` | task/store.go:330-385 | the loop revokes exactly the expired leases, in any order, and counts them |
| `Store.PostgresStore.RecoverDeadWorkerLeases` | task/store.go:387-443 | the loops revoke exactly the leases of workers not alive and count them |
| `Store.PostgresStore.RecoverStaleScheduling` | task/store.go:445-489 | the loop requeues exactly the unleased SCHEDULING tasks and counts them |
| `Store.PostgresStore.LatestStatus` | task/store.go:514-522 | the latest status of the history |
| `RoundRobin.Balanced` | scheduler/strategy/roundrobin.go:24-36 | over any k picks on n members each is chosen floor(k/n) or ceil(k/n) times |
| `RoundRobin.DistinctWithinRound` | scheduler/strategy/roundrobin.go:24-36 | picks fewer than n apart choose different members |
| `RoundRobin.ChosenByModulo` | scheduler/strategy/roundrobin.go:29-35 | the pick is the id at position counter modulo their number in ascending order |
| `RoundRobin.Strategy.Pick` | scheduler/strategy/roundrobin.go:19-37 | the pick depends on the member set and the counter only, not on map iteration order |
| `Convergence.OrderIsIrrelevant` | election/state.go:52-60 | any two sequences of the same announcements and request terms leave a node in the same term, leader and phase |
| `Convergence.HearersAgree` | election/state.go:95-111 | nodes that hear an announcement dominating their start and all they heard agree on it, and only the announced node is leader |
| `ElectionState.State.UpdateTerm` | election/state.go:52-60 | a later term is taken over without a leader and with phase idle; any other changes nothing |
| `ElectionState.State.BeginElection` | election/state.go:63-76 | refuses and changes nothing during an active election, otherwise enters the next term electing and without a leader, and returns it |
| `ElectionState.State.EnterWaitingCoordinator` | election/state.go:79-92 | goes from electing to waiting iff the term matches, and changes nothing else |
| `ElectionState.State.SetLeader` | election/state.go:95-111 | adopts the leader and its term iff (term, leader) is not below the present ones, and otherwise changes nothing |
| `ElectionState.State.ClearLeaderIfMatches` | election/state.go:114-127 | clears the leader iff it matches, leaving the leader phase, and changes nothing else |
| `ElectionState.State.ResetElection` | election/state.go:130-145 | goes to idle iff the term matches and an election is active, and changes nothing else |
| `Election.RunsAreSafe` | election/engine.go:99-485 | every state of every run, with lost, repeated and reordered messages and restarts, satisfies the protocol invariant |
| `Election.ElectionIsGood` | election/engine.go:253-299 | every step of an election keeps the invariant, sends only minted terms and declares only terms it began |
| `Election.WaiterIsGood` | election/engine.go:373-433 | every step of a waiting election keeps the invariant |
| `Election.HandlerIsGood` | election/engine.go:99-174 | every step of the request, announcement and membership handlers keeps the invariant |
| `ElectionGuarantees.TermsAreMinted` | election/state.go:63-76 | every term held or carried was minted by a successful BeginElection, as was every smaller one; the number of elections begun bounds every term |
| `ElectionGuarantees.MessagesLagSenders` | election/engine.go:310-314 | no message's term exceeds that of the incarnation that sent it |
| `ElectionGuarantees.OwnTermsIncrease` | election/state.go:63-76 | the elections one incarnation begins have strictly increasing terms |
| `ElectionGuarantees.LeadersDeclaredThemselves` | election/engine.go:102-126 | any node recorded or announced as leader, also by a re-announcement with a later term, declared itself in an election it began |
| `ElectionGuarantees.PhaseMatchesLeader` | election/state.go:113-127 | in every reachable state a node is in the leader phase iff it records a leader |
| `ElectionGuarantees.SupersededStaysSuperseded` | election/state.go:78-145 | an election whose term was passed can never again wait, reset or declare in that incarnation |
| `ElectionGuarantees.EventsAreNotAhead` | election/engine.go:391-405 | no queued event is ahead of the state, so a coordinator event restarts an election iff the leader read was none |
| `ElectionGuarantees.ElectionsHaveOneOwner` | election/engine.go:253-299 | each election in flight was begun by its node and is run by one goroutine |
| `ElectionGuarantees.LaterDeclarationsReach` | election/engine.go:99-133 | after handling a request of term t every later declaration of the node has term t or more and is accepted by a requester at t without a leader |
| `ElectionGuarantees.AnswerDominatesRequest` | election/engine.go:303-371 | an answer's term is between the request's and the answering node's, whose declarations the requester accepts |
| `ElectionGuarantees.HighestIsAdopted` | election/engine.go:137-149 | in every reachable state a node hearing an announcement of the highest node adopts it iff it is not in a later term |
| `ElectionGuarantees.DeclarationWins` | election/engine.go:435-448 | in every reachable state a goroutine about to declare becomes leader of its term iff that term is not passed and no higher node is recorded as its leader |
| `ElectionGuarantees.UncontestedElectionWins` | election/engine.go:253-276 | an election that is neither answered nor overtaken by a later term or an announcement can end only in its declaration, over every run, whatever older elections, waiters, handlers and membership events do meanwhile |
| `Candidacy.AnsweredNeverDeclares` | election/engine.go:280-294 | once a higher node has answered an election, no step of any continuation declares it |
| `Candidacy.AnsweredWaits` | election/engine.go:280-294 | an answered election enters the waiting phase of its term iff it is still electing in it, and otherwise ends without effect |
| `Candidacy.UnsettledNeverDeclares` | election/engine.go:272-298 | an election is not declared, in any run, before its goroutine found no higher member or ran out of time for an answer |
| `ElectionEffects.UnopposedElectionDeclares` | election/engine.go:272-298 | an election without higher members, or without an answer in time, makes its node leader of its term and announces it to the members |
| `ElectionEffects.RequestIsSent` | election/engine.go:303-316 | an election sends its term to members above its node and to no one else |
| `ElectionEffects.RequestHandled` | election/engine.go:99-133 | a request's term is heeded and answered with the node's own term, and unless the node leads an election of its own is queued if none is |
| `ElectionEffects.LeaderReAnnounces` | election/engine.go:102-126 | after a request the node announces itself to the asker with its current term iff it leads |
| `ElectionEffects.QueuedRequestHandled` | election/engine.go:245-251 | a queued request leaves the queue and begins an election of the next term unless one is active |
| `ElectionEffects.AnnouncementHandled` | election/engine.go:137-163 | an announcement not below the node's term and leader is adopted and signalled while the channel has room; any other changes nothing |
| `ElectionEffects.JoinHandled` | election/engine.go:195-217 | a joining member begins an election, unless one is active, iff it is another node and there is no leader or it is above the leader; otherwise nothing changes |
| `ElectionEffects.LeaderLossHandled` | election/engine.go:219-233 | the loss of the recorded leader clears it and begins an election of the next term |
| `ElectionEffects.OtherLossHandled` | election/engine.go:235-241 | the loss of another member touches neither term, leader nor phase and begins nothing; it queues a retry of the current term iff the node is waiting, the member is above it and the channel has room |
| `ElectionEffects.TimeoutHandled` | election/engine.go:422-426 | a wait that times out gives up its election and begins a new one unless one of another term is active |
| `ElectionEffects.CoordinatorHandled` | election/engine.go:392-411 | a coordinator event of the current term ends the wait without touching the state iff a leader is recorded; otherwise the election restarts |
| `ElectionEffects.RetryHandled` | election/engine.go:412-421 | a retry event of the current term restarts the election |
| `ElectionEffects.StaleEventHandled` | election/engine.go:382-389 | an event of an older term is dropped and the wait goes on |
| `ElectionEffects.CancelHandled` | election/engine.go:427-431 | a cancelled wait ends and gives up its own election if that is still active |
| `Leadership.SelfLedDeclaredItsTerm` | election/engine.go:435-442 | in every reachable state a node that holds itself leader of a term declared itself in exactly that term, in an election it began |
| `Leadership.RivalsBothBegan` | election/engine.go:253-276 | two nodes that hold themselves leader of one term both began and declared exactly that term |
| `Leadership.LeadIsTaken` | election/state.go:95-111 | a node becomes self-held leader of a term iff the step accepts its own declaration, or an announcement of its own, of that term |
| `Leadership.OneLeaderPerTerm` | election/engine.go:435-461 | a run has at most one self-held leader per term throughout iff no step lets a node take the lead of a term that another node holds |
| `Leadership.LeadIsGivenUp` | election/engine.go:99-174 | a self-held leader leaves that lead iff it restarts, begins an election, handles its own loss, or hears of a later term or a higher leader of its term |
| `Leadership.HigherRivalWins` | election/state.go:95-111 | between two self-held leaders of a term, the announcement of one unseats the other iff it comes from the higher id |
| `Leadership.TwoLeadersInOneTerm` | election/engine.go:272-275 | a reachable state in which two nodes hold themselves leader of the same term |
| `Backoff.Retry` | election/engine.go:318-352 | the completed sleeps last i, 2i, 4i, ..., so n of them satisfy i * (2^n - 1) <= timeout; with the calls between them they end by the deadline, separate n + 1 attempts, and the loop gives up only when the next sleep would not end in time |

## Left out

- Row locks, SKIP LOCKED and READ COMMITTED interleavings of Postgres: transactions are serialised instead.
- gRPC clients and servers, protobuf code and the health endpoint: calls appear as atomic steps or messages.
- Membership gossip and address resolution (cluster/cluster.go): member sets are arbitrary snapshots.
- Progress of an election: a full internal channel blocks the announcement handler, and nothing but a waiter drains it.
- Task execution, object storage, configuration and logging: I/O without state of their own.
- worker/engine.go apart from the renewal cadence: the store is proved against arbitrary worker calls instead.
- Renewal.ToleratedMisses: renewals take effect at the tick that issues them; time spent in the call is not modelled.
- Store.PostgresStore.RecoverExpiredLeases: does not model the order in which expired rows are visited, since the effect does not depend on it.
- Fencing between two attempts by the same worker: ownership is by worker id only, so the code does not give it.
