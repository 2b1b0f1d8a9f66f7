# TronForge: models and proofs

TronForge searches for TRON addresses with a requested prefix and suffix on a fleet of GPUs, verifies the
winners on a server, and funds the resulting wallets. This project models four parts of it and proves what
they promise. `dafny verify dfyconfig.toml` checks everything.

**Generation protocol.** `JobStore` gives the rows of the job, shard and device tables and what every
repository call does to them; `SchedulerRepository` is the object that performs those calls in place.
`JobOutcomes` says, call by call and in both directions, what is decided and what is left alone.
`Protocol` is the running system: the scheduler loop, the supervisor's handles, one worker process per GPU,
the command and event queues and the tables, as a relation of atomic acts. A run is any sequence of enabled
acts; clocks, random draws, verdicts, crashes and interleavings are chosen by the acts. `ProtocolProofs` and
`ProtocolSteps` hold the inductive invariant: for every GPU, the scheduler's knowledge, folded over the events
still on their way, ends in what the worker really does. `ProtocolTheorems` states what follows for every
reachable state. `Scheduler` is the imperative scheduler and supervisor, each method equal to acts of the
protocol and one whole iteration of its loop a run of acts, and `Worker` the assignment loops, each event of
which is written by one act of the protocol. `FleetTheorems` adds the device rows: an idle GPU is never turned
away because of its row. `ResultTheorems` joins the runs to the address part: the result of a READY job can be
redeemed. `Scenarios` gives concrete runs for the negative results below, and one in which a canceled job is
drained and makes room for the next. How an assignment ends is stated in `Worker` by the environments of its
batches alone.

The fault model is part of `Protocol.Enabled`: the events of a dead worker are collected before its death is
noticed, and a worker does not die between announcing READY and being handed its next work. Otherwise a worker
may fail or die at any point; in particular the worker's outer error handler, reached when stopping its session
raises, is an act of its own, which writes a FAILED that names no shard, and then STOPPED. The second part of the
fault model is stronger than "not while it is in `idle_gpus`": `ProtocolTheorems.DeathAfterReadyMisleads` shows that
a death after READY was emitted, even before it was handled, already leaves a booting worker marked idle.

**Funding.** `Funding` is the seven-state transfer row, the guarded and unguarded writers, the processor as a
state machine with a crash possible between any two acts, and the request route with its daily limit.
`FundingProofs` shows that one wallet never gets two transactions; `FundingProcessor` is the imperative
repository and processor, refining runs of those acts, and says what every answer of the node and every outcome
of a commit make of a row.

**Addresses, search, key recovery.** `Digits` is positional notation, `Base58` the three encoders, `Base58Check`
the checksummed codec for an arbitrary four-byte checksum, `TronAddress` the exact numeric bounds of addresses,
`Patterns` the matchers and validators of both sides, `Scalars` the hexadecimal text of scalars, `Wallet` address
derivation, key recovery and server verification, `Search` the reference search, `GenerateWallet` the multi-GPU
round loop. secp256k1 points (section 2.4.1 of SEC 2) are exponents modulo the group order.

**Keccak-256.** `Keccak` is the permutation on a 25-lane array, `KeccakStandard` the step mappings of section 3.2
of FIPS 202 bit by bit, with rotation offsets from the walk of section 3.2.2 and round constants from the shift
register of section 3.2.5, and `KeccakSponge` the sponge of sections 4 and 5.1 with the original delimiter 0x01.
`KeccakSpongeStandard` states SPONGE over bit strings and proves that the byte-level digest is its one output.

Four results are about what the code does *not* do:

* A job interrupted after its first shard can be claimed again, but its next allocation always violates the
  (job, range start) constraint, because recovery rewinds the offset and keeps the old rows
  (`JobStoreTheorems.InterruptedSearchCannotResume`; `Scenarios.InterruptedJobStopsScheduler` is a run in which the
  scheduler stops on it).
* A recorded event moves a finished job exactly when a winner without address or offset arrives for it
  (`JobStoreTheorems.FinishedJobMovesIff`); the worker never sends one, which is why terminal is final in runs.
* A decimal range start is understood unless it has exactly 64 digits; then it is read as hexadecimal
  (`Scalars.DecimalReadIff`; `Scalars.MisreadDecimal` is the number 10^63).
* The native matcher and the server's disagree exactly on addresses the native one matches with a prefix and
  a suffix that overlap (`Patterns.MatchersAgree`, with an address in `Patterns.OverlapDisagrees`); no accepted
  pattern is that long.

## Model

| member | source | states |
|---|---|---|
| JobStoreProofs.RecordEventKeepsStoreOk | backend/app/generator/repository.py:193-291 | recording any event an honest worker can send keeps ranges tiled, attempts exact, results tied to READY and keys unique |
| JobStoreProofs.AllocateKeepsStoreOk | backend/app/generator/repository.py:127-191 | handing out a shard, being refused one or violating the constraint keeps all table invariants |
| JobStoreProofs.AllocationExtendsTiling | backend/app/generator/repository.py:153-191 | an allocated shard starts where the job's tiling ended and extends it by exactly itself; nobody else's tiling changes |
| JobStoreProofs.RecoverKeepsStoreOk | backend/app/generator/repository.py:66-95 | recovery after an interrupted scheduler keeps all table invariants |
| JobStoreProofs.ClaimKeepsStoreOk | backend/app/generator/repository.py:97-125 | claiming keeps them and never makes a second job active |
| JobStoreProofs.CreateJobKeepsStoreOk | backend/app/api/routes/jobs.py:29-90 | creating a job, also with a repeated idempotency key, keeps keys unique and all other invariants |
| JobStoreProofs.FinalizeKeepsStoreOk | backend/app/services/results.py:41-96 | finalizing a candidate keeps "a job has a result exactly when it is READY" |
| JobStoreProofs.TilesArePairwiseDisjoint | backend/app/generator/repository.py:153-171 | shards that tile a range follow one another without overlap |
| JobStoreProofs.TilesCover | backend/app/generator/repository.py:153-171 | and leave no scalar of the range out |
| JobStoreTheorems.AllocationConflictsIffRewound | backend/app/models.py:310-313 | the uniqueness constraint is violated exactly when the job has shards and its offset was rewound to the origin |
| JobStoreTheorems.InterruptedSearchCannotResume | backend/app/generator/repository.py:66-95 | after recovery and a new claim, a job that already had a shard cannot get another one |
| Scenarios.InterruptedJobStopsScheduler | backend/app/generator/repository.py:66-191 | a run from empty tables: create, boot, claim, allocate, restart, boot, claim, and the next allocation stops the scheduler |
| JobStoreTheorems.FinishedJobMovesIff | backend/app/generator/repository.py:239-280 | the exact condition under which recording an event changes a terminal job's status |
| JobStoreTheorems.AttemptsStayExactIff | backend/app/generator/repository.py:228-291 | recording keeps attempts equal to the shards' progress unless a final report claims more than the last PROGRESS |
| JobStoreTheorems.RecordedProgress | backend/app/generator/repository.py:228-291 | which shard and which job an event moves, and by how much, for every kind of event |
| JobStoreTheorems.SmoothedRateIsBetween | backend/app/generator/repository.py:206-211 | the smoothed rate lies between the old and the observed one, follows a lower one always and a higher one from a distance of four on |
| JobStoreTheorems.DeviceStatusFollowsWorker | backend/app/generator/repository.py:193-226 | an event touches only the row of its own GPU, only READY makes it available, and a rate is overwritten only by a positive one |
| JobOutcomes.CreatedJobIsQueued | backend/app/api/routes/jobs.py:29-90 | a new row is queued, untouched and as asked for; a malformed key is refused; a known one changes nothing |
| JobOutcomes.CreationIsIdempotent | backend/app/api/routes/jobs.py:29-58 | asking again with the same key answers with the same row and adds none |
| JobOutcomes.CancelDecided | backend/app/api/routes/jobs.py:127-151 | exactly the owner cancels, exactly what is not over; the row becomes CANCELED and nothing else changes |
| JobOutcomes.CanceledJobIsLeftAlone | backend/app/api/routes/jobs.py:127-151 | a canceled job gets no shard, no result, no claim and no time-out any more |
| JobOutcomes.ClaimDecided | backend/app/generator/repository.py:97-125 | an active job is taken up as it is; else the best queued one becomes SEARCHING at its origin with a full deadline; none exactly when there is neither |
| JobOutcomes.DeadlineDecided | backend/app/generator/repository.py:301-314 | a job times out exactly when it is searching and its deadline has come; the answer is what the row then says |
| JobOutcomes.ClaimedJobHasItsTime | backend/app/generator/repository.py:115-125 | a job claimed at a time is timed out by a reading exactly from that time plus the time-out on |
| JobOutcomes.AllocationDecided | backend/app/generator/repository.py:127-165 | refused exactly without a search, a ready device or room for the whole shard; the job fails exactly when only the room is missing; a taken start rolls back |
| JobOutcomes.AllocatedIsRequested | backend/app/generator/repository.py:151-191 | the shard is the stored rate times the seconds, undivided; rate, batch, lease, GPU and job are those asked for, and the rows say so |
| JobOutcomes.FinalizeDecided | backend/app/services/results.py:41-96 | a candidate is accepted exactly by an open job without a result whose checks pass; then the job is READY with it; every refusal has its own reason |
| JobOutcomes.SecondCandidateIsIgnored | backend/app/services/results.py:54-58 | after that every other candidate is answered and ignored |
| JobOutcomes.RecordedFate | backend/app/generator/repository.py:228-291 | what shard and job become after each kind of event, and after each fate of a candidate: won, late, closed or disproved |
| JobOutcomes.RecordedDevice | backend/app/generator/repository.py:193-291 | only the row of the event's GPU changes, as announced, and to UNHEALTHY after a disproved candidate |
| JobOutcomes.DeviceShows | backend/app/generator/repository.py:205-226 | the status each announcement leads to; the rate moves a quarter of the way to the observed one |
| JobOutcomes.UnmatchedEventIsHarmless | backend/app/generator/repository.py:293-299 | an event that reaches no shard changes neither jobs nor shards |
| JobOutcomes.RecoveryDecided | backend/app/generator/repository.py:66-95 | after recovery no job is active and no shard live; the active jobs are queued again at their origin; nothing else changes |
| JobOutcomes.StartUpDecided | backend/app/generator/repository.py:36-64 | exactly the discovered devices are starting, at their discovered rates, and no device holds a job |
| SchedulerRepository.Database.Initialize | backend/app/generator/repository.py:36-64 | the device table after start-up, known devices offline and discovered ones starting |
| SchedulerRepository.Database.RecoverInterruptedWork | backend/app/generator/repository.py:66-95 | both recovery loops leave the tables as the row-by-row specification says |
| SchedulerRepository.Database.ClaimNextJob | backend/app/generator/repository.py:97-125 | new tables and claimed job: an active job first, else the best queued one |
| SchedulerRepository.Database.AllocateShard | backend/app/generator/repository.py:127-191 | new tables and answer, with the order bound, the constraint and the rollback; `JobOutcomes.AllocatedIsRequested` says which shard that is |
| SchedulerRepository.Database.RecordEvent | backend/app/generator/repository.py:193-291 | the tables after any event |
| SchedulerRepository.Database.RecordWinner | backend/app/generator/repository.py:239-280 | the tables after a FOUND event, for every outcome of finalization |
| SchedulerRepository.Database.UpdateDevice | backend/app/generator/repository.py:193-226 | the device row after any event, with the smoothed rate |
| SchedulerRepository.Database.ActiveJobStatus | backend/app/generator/repository.py:301-314 | reading an overdue job times it out |
| SchedulerRepository.Database.FinalizeCandidate | backend/app/services/results.py:41-96 | tables and outcome of a submitted candidate |
| SchedulerRepository.Database.CreateJob | backend/app/api/routes/jobs.py:29-90 | a malformed idempotency key is refused, a known one answers with the row it already made |
| SchedulerRepository.Database.CancelJob | backend/app/api/routes/jobs.py:127-151 | cancellation outcomes and the new tables; somebody else's job is not found |
| JobStore.FindKey | backend/app/api/routes/jobs.py:29-58 | finds the user's job with that key if and only if there is one |
| JobStore.FirstActive | backend/app/generator/repository.py:97-105 | an active job if there is one |
| JobStore.NextQueued | backend/app/generator/repository.py:106-114 | the queued job of highest priority, oldest first |
| JobStore.MatchingShard | backend/app/generator/repository.py:293-299 | an event reaches a shard exactly when it names it with that shard's lease |
| ProtocolTheorems.StepKeepsInv | backend/app/generator/scheduler.py:39-122 | every enabled act of scheduler, worker, API or restart keeps the invariant over all queues and tables |
| ProtocolTheorems.RunKeepsInv | backend/app/generator/scheduler.py:39-122 | so does every run |
| ProtocolTheorems.IdleGpuIsFree | backend/app/generator/supervisor.py:76-128 | an idle GPU has no assignment, queued work or event on its way, and dispatch never raises |
| ProtocolTheorems.NoOverlappingAssignments | backend/app/generator/worker.py:300-314 | a busy worker never finds a second assignment and never exceeds its range |
| ProtocolTheorems.WorkBelongsToOneJob | backend/app/generator/scheduler.py:78-122 | all work in flight belongs to the one active or draining job; these are never both set |
| ProtocolTheorems.ClaimOnlyWhenFleetRests | backend/app/generator/scheduler.py:96-107 | a job is claimed only when every worker is free and every event handled |
| FleetTheorems.IdleDeviceIsReady | backend/app/generator/repository.py:193-226 | over every run the device row of an idle GPU is READY and holds no job |
| FleetTheorems.IdleGpuIsNotTurnedAway | backend/app/generator/repository.py:127-152 | so an idle GPU gets a shard unless the job is over, its range is used up or the constraint is violated |
| ProtocolTheorems.OnlyTerminalJobsAreCanceled | backend/app/generator/scheduler.py:78-87 | a cancellation met by a busy worker is for a job that is over |
| ProtocolTheorems.AttemptsAddUp | backend/app/generator/repository.py:228-291 | over every run a job's attempts are the sum of its shards' progress, and no shard overruns its count |
| ProtocolTheorems.ShardsAreDisjoint | backend/app/generator/repository.py:127-191 | two shards of a job never share a scalar |
| ProtocolTheorems.ShardsAreInRange | backend/app/generator/repository.py:127-191 | over every run every shard is non-empty, starts at or after its job's origin and ends below the group order |
| ProtocolTheorems.ShardsCoverSearchedRange | backend/app/generator/repository.py:127-191 | the shards cover everything from the origin to the next offset |
| ProtocolTheorems.ShardsTileExactly | backend/app/generator/repository.py:127-191 | unless the offset was rewound, a scalar lies in a shard of the job exactly when it is in [origin, next offset) |
| ProtocolTheorems.OneSearchingJob | backend/app/generator/repository.py:97-125 | at most one job is SEARCHING, and a job has a result exactly when it is READY |
| ResultTheorems.ReadyResultIsOwned | backend/app/services/results.py:64-96 | over every run whose verdicts are no laxer than the server's checks, a READY job has a result whose combined key owns its address, and the address is a TRON address with the requested pattern |
| ProtocolTheorems.TerminalIsAbsorbing | backend/app/generator/repository.py:66-95 | over every run a terminal status and its result never change |
| ProtocolTheorems.DeathAfterReadyMisleads | backend/app/generator/supervisor.py:108-128 | without the second part of the fault model the idle claim fails |
| Scenarios.DeathAfterReadyHappens | backend/app/generator/supervisor.py:108-128 | a run after which one such death leaves a booting worker marked idle |
| ProtocolProofs.FoldAppend | backend/app/generator/supervisor.py:90-106 | events still on their way extend what the scheduler will know one at a time |
| ProtocolProofs.EscapesOk | backend/app/generator/worker.py:430-449 | a worker that leaves through the main loop's outer handler keeps the invariant, though its FAILED names no shard |
| ProtocolSteps.HandleOk | backend/app/generator/scheduler.py:63-76 | handling the next event keeps the invariant |
| ProtocolSteps.CheckOk | backend/app/generator/scheduler.py:78-87 | checking the active job, with time-out and cancellation of its workers, keeps it |
| ProtocolSteps.RespawnOk | backend/app/generator/supervisor.py:108-128 | replacing a dead worker and reporting its assignment keeps it |
| ProtocolSteps.FillOk | backend/app/generator/scheduler.py:109-122 | allocating and dispatching to an idle GPU keeps it |
| Scheduler.Supervisor.Dispatch | backend/app/generator/supervisor.py:76-83 | raises exactly for an assigned or dead worker, else queues the work |
| Scheduler.Supervisor.CancelJob | backend/app/generator/supervisor.py:85-88 | exactly the workers of that job have one more cancellation to read |
| Scheduler.Supervisor.PollEvents | backend/app/generator/supervisor.py:90-106 | returns the queued events in order; exactly the handles whose events end their work are free |
| Scheduler.Supervisor.RestartDeadWorkers | backend/app/generator/supervisor.py:108-128 | exactly the dead workers have fresh handles; every lost assignment is reported, and nothing else |
| Scheduler.PollIsCollecting | backend/app/generator/supervisor.py:90-106 | a poll is the run of collecting its events one by one |
| Scheduler.RestartIsRespawning | backend/app/generator/supervisor.py:108-128 | the restart loop is the run of respawning the dead workers one by one |
| Scheduler.GenerationScheduler.HandleEvent | backend/app/generator/scheduler.py:63-76 | is the protocol's handling act; READY makes its GPU idle, and STARTED, PROGRESS, FAILED and STOPPED end that |
| Scheduler.GenerationScheduler.CheckActiveJob | backend/app/generator/scheduler.py:78-87 | the active job is given up exactly when it is gone, over or overdue: it becomes the draining one and its workers are told |
| Scheduler.GenerationScheduler.FinishDraining | backend/app/generator/scheduler.py:89-94 | draining ends exactly when every GPU is idle |
| Scheduler.GenerationScheduler.ClaimIfReady | backend/app/generator/scheduler.py:96-107 | with no active or draining job and all GPUs idle, claims an active or the best queued job; otherwise nothing |
| Scheduler.GenerationScheduler.Decide | backend/app/generator/scheduler.py:51-53 | the three decisions together: when all GPUs are idle draining is over, and without an active job one is claimed if the tables hold any |
| Scheduler.GenerationScheduler.FillOneGpu | backend/app/generator/scheduler.py:109-122 | a free worker of a served job is handed exactly the work asked for and is no longer idle; when it raises, and when nothing happens |
| Scheduler.GenerationScheduler.FillIdleGpus | backend/app/generator/scheduler.py:109-122 | is the run of one filling act per idle GPU, up to one that raises |
| Scheduler.GenerationScheduler.Iterate | backend/app/generator/scheduler.py:45-55 | one iteration is the run of exactly these acts: collect the whole queue, respawn the dead, handle every event, decide, one filling act per idle GPU; it ends where the loop starts again, or with what it raised |
| Scenarios.CanceledJobMakesRoom | backend/app/generator/scheduler.py:78-107 | a run in which the first of two jobs is served, canceled and drained, and the second one is then claimed |
| Worker.DrainControlCommands | backend/app/generator/worker.py:300-314 | raises if and only if work arrives; reports cancel and shutdown if and only if asked for |
| Worker.BatchSize | backend/app/generator/worker.py:215-224 | what the rate does in the target time, at most 2^26 and the rest of the shard, rounded down by less than one round to whole chains |
| Worker.RunBatch | backend/app/generator/worker.py:203-284 | how a batch ends by its environment alone, in both directions: with its winner, with "not found", told to stop, or with an error |
| Worker.RateIsObserved | backend/app/generator/worker.py:251-252 | the observed rate is the attempts a second in whole numbers, at least 1 |
| Worker.RateMovesAQuarter | backend/app/generator/worker.py:253-255 | the adaptive rate moves a quarter of the way to the observed one |
| Worker.TargetIsAllotted | backend/app/generator/worker.py:196-199 | a batch is given the time its assigned size takes at the assigned rate, at least a hundredth of a second |
| Worker.ExecuteCudaAssignment | backend/app/generator/worker.py:177-297 | the batches up to the first that is not "not found" are reported one by one; that one decides the end: FOUND with its address and offset, CANCELED, an error, or EXHAUSTED if there is none; each event is one act of the protocol |
| Worker.ExecuteSimulatedAssignment | backend/app/generator/worker.py:317-371 | the same for the simulated worker: the first look that finds something decides |
| Worker.ServeAssignment | backend/app/generator/worker.py:410-449 | what follows an assignment: READY, STOPPED when told to stop, a FAILED about the shard exactly when it raised, or, exactly if stopping the session raised too, an unattributed FAILED and the end |
| Worker.ReplaysMore | backend/app/generator/worker.py:177-297 | the list of events a worker has written stays one that single acts of the protocol write |
| Worker.BatchesAreDisjoint | backend/app/generator/worker.py:215-256 | consecutive batches never overlap |
| Worker.BatchesCover | backend/app/generator/worker.py:215-256 | and cover everything up to their end |
| FundingProofs.StepOk | backend/app/funding/processor.py:59-156 | every act, crash and request keeps the row invariant and moves rows only forward |
| FundingProofs.OneTransactionPerWallet | backend/app/funding/processor.py:90-110 | all payloads ever sent for one wallet carry the one stored transaction id |
| FundingProofs.TransactionsAreNotShared | backend/app/models.py:217-272 | no transaction is sent for two wallets |
| FundingProofs.CommittedBeforeSent | backend/app/funding/processor.py:67-110 | the id of whatever is sent was committed before, and stays |
| FundingProofs.TxidIsWriteOnce | backend/app/funding/repository.py:62-80 | a row's transaction id is written at most once |
| FundingProofs.InFlightEndsByReceipt | backend/app/funding/processor.py:112-156 | a row that may be on chain ends only by a receipt for its own transaction |
| FundingProofs.SettledIsFinal | backend/app/funding/repository.py:146-169 | settled rows never change, and every row carries exactly the fields its status promises |
| FundingProofs.PostKeepsLimit | backend/app/api/routes/funding.py:63-134 | a request keeps every day's sum within the limit, also when midnight passes between the check and the insert |
| FundingProofs.DailyLimitHolds | backend/app/api/routes/funding.py:63-134 | over every run no user's unfailed requests of a day exceed the limit, and a job has at most one row |
| FundingProofs.RequestDecided | backend/app/api/routes/funding.py:45-134 | a request is taken exactly for a wallet without one, with a fresh key and within the day's limit; the new row asks for that amount to that address; every refusal has its own reason |
| FundingProcessor.FundingRepository.RecoverInterruptedWork | backend/app/funding/repository.py:18-35 | exactly the rows being prepared go back to requested |
| FundingProcessor.FundingRepository.ClaimNext | backend/app/funding/repository.py:37-60 | nothing exactly when no row can be processed, else one that no other is further along than, a requested one moved to preparing |
| FundingProcessor.FundingRepository.MarkPrepared | backend/app/funding/repository.py:62-80 | writes only a row still being prepared; raises exactly on a taken transaction id |
| FundingProcessor.FundingRepository.RetryPreparation | backend/app/funding/repository.py:82-90 | undoes only a preparation |
| FundingProcessor.FundingRepository.MarkBroadcast | backend/app/funding/repository.py:92-105 | moves only signed or unknown rows and keeps the first broadcast time |
| FundingProcessor.FundingRepository.MarkUnknown | backend/app/funding/repository.py:107-119 | leaves settled rows alone |
| FundingProcessor.FundingRepository.MarkChecked | backend/app/funding/repository.py:121-144 | a broadcast row becomes unknown exactly after the time-out |
| FundingProcessor.FundingRepository.MarkConfirmed | backend/app/funding/repository.py:146-157 | confirms and erases the payload, without a guard |
| FundingProcessor.FundingRepository.MarkFailed | backend/app/funding/repository.py:159-169 | fails and erases the payload unless confirmed |
| FundingProcessor.FundingRepository.CreateFunding | backend/app/api/routes/funding.py:45-134 | the request route, with its conflicts and the daily sum computed in a loop |
| FundingProcessor.Processor.SendToNode | backend/app/funding/gateway.py:251-270 | a payload leaves the process only if its id is the stored one |
| FundingProcessor.Processor.BroadcastStored | backend/app/funding/processor.py:90-110 | each answer of the node leads to the row's next state; the stored payload is sent exactly when it carries the stored id |
| FundingProcessor.Processor.Confirm | backend/app/funding/processor.py:112-156 | a successful receipt confirms, a reverted one fails, no receipt means waiting, doubt after the time-out, or sending once more before expiry |
| FundingProcessor.Processor.Process | backend/app/funding/processor.py:59-156 | what a claimed row becomes by the answers of the node, what is sent and what is asked, for every way the commit may end; one call is the run of its acts |
| FundingProcessor.Processor.Turn | backend/app/funding/processor.py:34-49 | the rows after one turn: the claimed row's outcome, and doubt if processing or commit raised; one turn is a run of acts that ends ready again, or down when the handler's own commit fails |
| Base58.LettersAreTheAlphabet | native/src/tron.cpp:26-27 | the digit letters spell the Base58 alphabet |
| Base58.BufferFits | native/src/tron.cpp:176 | 256^n < 58^(floor(138n/100)+1) for every n |
| Base58.AddByte | native/src/tron.cpp:178-194 | one pass of the carry loop multiplies by 256 and adds a byte, in place, and nothing is carried out |
| Base58.NativeEncode | native/src/tron.cpp:171-201 | never overflows, and returns one '1' per leading zero byte followed by the canonical digits |
| Base58.DivisionLoop | backend/app/services/patterns.py:58-62 | repeated division yields the canonical digits |
| Base58.PythonEncode | backend/app/services/patterns.py:56-64 | equals the native encoder on every input |
| Base58.TypeScriptEncode | frontend/lib/wallet-crypto.ts:22-35 | equals both on every non-empty input |
| Base58Check.DecodeOfEncode | backend/app/services/patterns.py:56-75 | the plain codec: decoding inverts encoding on all byte strings |
| Base58Check.EncodeOfDecode | backend/app/services/patterns.py:56-75 | and encoding inverts decoding on all Base58 strings |
| Base58Check.DecodeInvertsEncode | backend/app/services/patterns.py:56-82 | decode(encode(p)) = p exactly for non-empty p, whatever the checksum function |
| Base58Check.EncodeInvertsDecode | backend/app/services/patterns.py:67-82 | encode(decode(s)) = s for every accepted s |
| Base58Check.AcceptedIffEncoded | backend/app/services/patterns.py:56-82 | the accepted strings are exactly the encodings of non-empty payloads |
| Base58Check.RefusalDecided | backend/app/services/patterns.py:67-82 | a character outside the alphabet, fewer than five bytes and a wrong checksum are refused as such |
| Base58Check.ShortestBytes | backend/app/services/patterns.py:73 | (bit length + 7) / 8 is the length of the shortest byte string |
| Base58Check.PythonCheckEncode | backend/app/services/patterns.py:56-64 | the encoding loop computes the specified encoding |
| Base58Check.PythonCheckDecode | backend/app/services/patterns.py:67-82 | the decoding loop computes the specified decoding, with its three refusals |
| TronAddress.AddressShape | backend/app/services/patterns.py:95-99 | every address has 34 characters, starts with T, and its second digit is between 8 and 32 |
| TronAddress.ValidIffDerived | backend/app/services/patterns.py:85-92 | the validator accepts exactly the addresses of 21-byte payloads starting with 0x41 |
| TronAddress.SecondDigitAttained | native/src/tron.cpp:28 | each of the 25 second characters is attained, whatever the checksum |
| TronAddress.AllowedIffAttained | native/src/tron.cpp:28 | the allowed first custom characters are exactly the attained ones |
| Patterns.MatchesPattern | native/src/tron.cpp:302-321 | the native loops decide T, prefix and suffix |
| Patterns.LooseIsCaseless | native/src/tron.cpp:292-300 | loose equality is equality up to the case of letters |
| Patterns.OptionsAreLooseEqual | backend/app/services/patterns.py:23-30 | on Base58 text the server's option lists are the native loose comparison |
| Patterns.MatchersAgree | backend/app/services/patterns.py:33-53 | the server accepts exactly what the native matcher accepts, if prefix and suffix do not overlap |
| Patterns.OverlapDisagrees | backend/app/services/patterns.py:33-53 | an address, prefix and suffix on which the two matchers disagree |
| Patterns.ValidatePattern | native/src/tron.cpp:334-360 | accepts exactly the valid patterns; each refusal is characterised |
| Patterns.NameSaysLengths | native/src/tron.cpp:334-348 | a pattern's name spells the lengths of its prefix and suffix, and there are only the four |
| Patterns.ValidatorsAgree | backend/app/schemas.py:45-65 | server and native validators accept the same patterns |
| Patterns.AcceptedPatternsMatchAlike | native/src/tron.cpp:302-321 | for accepted patterns the matchers agree on every derivable address |
| Patterns.AcceptedFirstOccurs | native/src/tron.cpp:356-359 | the first letter of an accepted pattern occurs in some address |
| Patterns.RefusedFirstNeverMatches | native/src/tron.cpp:356-359 | a pattern refused for its first letter matches no address |
| Scalars.BytesToHex | native/src/tron.cpp:162-169 | two hexadecimal digits per byte |
| Scalars.HexDigitsAre | native/src/tron.cpp:162-169 | digits are written in lower case and read in either |
| Scalars.ScalarToHex | native/src/tron.cpp:323-330 | 64 padded digits, or failure above 256 bits |
| Scalars.ParseRangeStart | native/src/tron.cpp:241-266 | how a text is classified and read |
| Scalars.HexIsRead | native/src/tron.cpp:241-266 | hexadecimal text is read as its number when it is marked, has 64 digits or a letter |
| Scalars.DecimalIsRead | native/src/tron.cpp:241-266 | other decimal text is read as its number, negative after a minus |
| Scalars.ParseInvertsHex | native/src/tron.cpp:241-266 | parsing inverts printing for every 256-bit value |
| Scalars.DecimalReadIff | native/src/tron.cpp:241-266 | a decimal text is read as its number exactly when it does not have 64 digits |
| Scalars.MisreadDecimal | native/src/tron.cpp:241-266 | 10^63 is a valid start whose decimal text is read as another number |
| Scalars.HexOrder | native/src/main.cpp:415-418 | comparing 64-digit texts compares the numbers |
| Scalars.AddToOffset | native/src/tron.cpp:497-510 | the sum as text, or a refusal exactly outside [1, n) |
| Scalars.BandStartValue | native/src/main.cpp:270-277 | a device's band starts at device * 2^128 + 1 |
| Scalars.SameBandIff | native/src/main.cpp:468-472 | equal first 32 digits mean the same 2^128 band |
| Keccak.ThetaInPlace | native/src/tron.cpp:75-87 | the three loops compute theta |
| Keccak.RhoPi | native/src/tron.cpp:88-95 | the moving loop computes pi after rho |
| Keccak.ChiInto | native/src/tron.cpp:96-102 | the last loop computes chi |
| Keccak.KeccakPermute | native/src/tron.cpp:70-104 | 24 rounds of iota after chi after pi after rho after theta |
| KeccakStandard.ThetaMeetsStandard | native/src/tron.cpp:75-87 | every bit is the one section 3.2.1 of FIPS 202 asks for |
| KeccakStandard.RhoMeetsStandard | native/src/tron.cpp:44-47 | the rotation table gives section 3.2.2, lane by lane of its walk |
| KeccakStandard.TriangleFormula | native/src/tron.cpp:44-47 | the offsets are (t+1)(t+2)/2 modulo 64 |
| KeccakStandard.WalkCovers | native/src/tron.cpp:44-47 | the walk reaches every lane but (0, 0) |
| KeccakStandard.PiMeetsStandard | native/src/tron.cpp:88-95 | section 3.2.3 |
| KeccakStandard.ChiMeetsStandard | native/src/tron.cpp:96-102 | section 3.2.4 |
| KeccakStandard.RoundConstantBits | native/src/tron.cpp:29-43 | every bit of the constants comes from the shift register of section 3.2.5 |
| KeccakStandard.IotaMeetsStandard | native/src/tron.cpp:103 | section 3.2.5 |
| KeccakStandard.RoundIsTheStandardRound | native/src/tron.cpp:70-104 | a round computes the one state the five mappings of the standard allow |
| KeccakStandard.PermutationIsTheStandard | native/src/tron.cpp:70-104 | a state is the result of 24 rounds of the standard if and only if it is the one computed |
| KeccakSponge.LoadLittleEndian | native/src/tron.cpp:56-62 | the lane of eight bytes |
| KeccakSponge.StoreLittleEndian | native/src/tron.cpp:64-68 | the eight bytes of a lane |
| KeccakSponge.StoreInvertsLoad | native/src/tron.cpp:56-68 | storing inverts loading |
| KeccakSponge.LoadInvertsStore | native/src/tron.cpp:56-68 | loading inverts storing |
| KeccakSponge.LaneBit | native/src/tron.cpp:56-62 | bit 8i + k of a loaded lane is bit k of byte i |
| KeccakSponge.LastBlock | native/src/tron.cpp:120-125 | the last block is the tail and its padding, also with 135 bytes |
| KeccakSponge.PaddingIsTenStarOne | native/src/tron.cpp:120-125 | the padding bytes are pad10*1 of section 5.1 |
| KeccakSponge.KeccakDigest | native/src/tron.cpp:106-135 | the in-place sponge computes Keccak-256 of data of any length |
| KeccakSpongeStandard.DigestIsTheSponge | native/src/tron.cpp:106-135 | for data of any length the digest is the one output that SPONGE[Keccak-f[1600], pad10*1, 1088] of section 4 allows for its bits |
| Wallet.PointToAddress | native/src/tron.cpp:268-290 | the native address of a point |
| Wallet.PythonAddress | backend/app/services/patterns.py:95-99 | the server derives the same address |
| Wallet.TypeScriptAddress | frontend/lib/wallet-crypto.ts:37-49 | the browser derives the same address |
| Wallet.AddressReadsBack | native/src/tron.cpp:268-290 | an address read back is 0x41 and bytes 12 to 31 of the digest of the key's point |
| Wallet.SameAddressIff | native/src/tron.cpp:268-290 | two keys have the same address exactly when those bytes agree |
| Wallet.RecoveriesAgree | backend/app/services/server_wallet.py:14-18 | server and native recovery return the same key and refuse exactly when key + offset is the order |
| Wallet.RecoveredIsTheSum | native/src/tron.cpp:409-430 | the recovered key is key plus offset, less the group order when the sum reaches it |
| Wallet.VerdictDecided | backend/app/services/patterns.py:102-118 | a candidate is verified exactly when it is the address of key plus offset and has the pattern; every refusal has its own reason |
| Wallet.OffsetAcceptedIff | backend/app/schemas.py:102-113 | of the 64-digit offsets exactly those of scalars are accepted |
| Wallet.WinnerIsVerified | backend/app/services/patterns.py:108-118 | every native winner passes the server's checks, and its recovered key owns the address |
| Wallet.VerifiedIsOwned | backend/app/services/results.py:64-79 | every verified candidate, with any hexadecimal offset, is owned by its combined key, has the requested pattern and is a TRON address |
| Wallet.KeyChecksNeverRefuse | backend/app/services/results.py:64-79 | combining and checking the key never refuse what the first check accepted |
| Search.SearchCpu | native/src/tron.cpp:512-553 | searches exactly the acceptable requests; each refusal has its own reason |
| Search.SearchRange | native/src/tron.cpp:554-584 | the least matching offset with exact attempts, or none |
| Search.FoundIsVerified | native/src/tron.cpp:566-575 | a found offset passes the server's verification and recovers the key |
| GenerateWallet.ChunkCount | native/src/main.cpp:357-367 | the requested chunk, less the rest to whole chains when it holds four of them |
| GenerateWallet.FinishedRangesAreDisjoint | native/src/main.cpp:464-473 | no offset is finished twice, over all devices and rounds |
| GenerateWallet.CountRound | native/src/main.cpp:406-419 | refuses exactly the totals beyond 64 bits; the winner has the least offset text |
| GenerateWallet.LeastWinnerIsLeastOffset | native/src/main.cpp:415-418 | and therefore the least offset |
| GenerateWallet.AdvanceOne | native/src/main.cpp:464-472 | the next start as text; exhaustion is noticed exactly outside the band; adding never throws |
| GenerateWallet.SearchRound | native/src/main.cpp:377-405 | every device is asked for its own next range |
| GenerateWallet.SessionsAreAsked | native/src/main.cpp:377-405 | each session is asked for exactly its round's range, from device * 2^128 + 1 on, as 64 digits |
| GenerateWallet.Rounds | native/src/main.cpp:376-474 | which of the six ends the rounds have, exactly, by what the sessions answer; the wallet comes from the first round with a winner and its least offset, and its attempts are the exact sum |
| GenerateWallet.Generate | native/src/main.cpp:329-474 | the whole command: the exact condition of each refusal, the chunks chosen, and the end of the rounds |
| GenerateWallet.HonestSessionsHaveNoFalseWinner | native/src/main.cpp:429-437 | with sessions that keep their word the key check never fails |
| GenerateWallet.HonestWalletMatches | native/src/main.cpp:421-462 | with sessions that keep their word the wallet's address has the requested prefix and suffix |

## Left out

- ProtocolTheorems.IdleGpuIsFree: holds under the fault model above; `ProtocolTheorems.DeathAfterReadyMisleads` shows why it is needed.
- ProtocolTheorems.TerminalIsAbsorbing: database calls are single atomic steps, so interleavings inside a transaction (`cancel_job` reads without a lock) are not covered.
- Worker.ExecuteCudaAssignment: `adaptive_rate * target_batch_seconds` is computed over reals, without rounding; the clock and the session's answers are inputs.
- Scheduler.GenerationScheduler.FillIdleGpus: the idle GPUs come in any order, so also in the sorted one.
- JobStore.NextQueued: among jobs of equal priority age is row order, not the timestamp.
- ResultTheorems.ReadyResultIsOwned: the base key and pattern of a job are given by a function of the job, since the job rows do not hold them; the encryption of the stored keys is left out.
- Worker.ServeAssignment: the events of a worker told to stop belong to the supervisor's shutdown, which is not an act of the protocol.
- FundingProcessor.FundingRepository.ClaimNext: the order by update time among rows of equal priority is not modelled; the first row is taken, and the state machine allows any.
- FundingProcessor.Processor.Turn: one processor runs at a time, and a claim whose own commit fails is covered only as a crash of the state machine.
- FundingProcessor.FundingRepository.RecoverInterruptedWork: error codes, messages and timestamps of rows are not modelled.
- Scalars.ParseRangeStart: the length limits of the big-number readers are not modelled.
- Base58.TypeScriptEncode: the empty array, for which the hexadecimal literal cannot be parsed, is excluded.
- Wallet.RecoveriesAgree: points are exponents; that distinct scalars have distinct point bytes is neither assumed nor used.
- GenerateWallet.Rounds: session answers are a function of device, start and count; elapsed times, progress output and the wallet file are left out.
- CUDA kernels and `search_cuda_all`: replaced by what a search session owes its caller.
- OpenSSL, coincurve, SHA-256 and Fernet: exponents modulo the order, an arbitrary four-byte checksum, and an encryption that decrypts to what was encrypted.
- `hex_to_bytes` and the byte form of public keys: key texts are read as numbers, and the base point is given by its scalar.
- SQL and ORM mechanics, row locks, isolation levels, and result addresses unique across jobs.
- Liveness: a funding row that stays UNKNOWN delays new requests, and nothing is claimed about when a job is found.
- Whether a FAILED funding row was sent: a crash after a broadcast followed by a rejected repetition ends in FAILED, and no claim is made about it.
- The supervisor's shutdown path, GPU discovery, telemetry, device rows going offline at exit.
- The gateway's node calls and event decoding, beyond the identifier check and the receipt states.
- Authentication, the web UI, the Telegram bot, configuration, migrations and install scripts.
