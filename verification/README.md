# Verified model of the SynergyPlus run queue

SynergyPlus queues building-energy simulations in one Postgres table,
`app.simulations`, which is also the run record. Runners claim rows, keep a lease
alive, store content-addressed results and finish their rows; a reaper recovers rows
whose lease ran out; a trigger rolls children up into their batch; an operator and
KEDA scale the runners. This project states that behaviour in Dafny at two grains and
proves what the design promises about it.

- **In place.** `Database.Database` holds the tables as fields; each SQL function or
  store query is a method that changes them, with loops for selection and counting.
  `Heartbeat.Tend`, `Drain.ClaimAll`, `Drain.ScaleThenDrain` and
  `Reconciler.ReconcileDeployment` are the loops around it.
- **As runs.** `Cluster`, `StaleRollup`, `Provenance`, `Submission` and `Serial` are transition
  systems: a `Step` datatype, `Enabled` and `Apply`, and theorems about every
  sequence of steps from the initial state. All but `Serial` split the operations
  where the code can be interrupted.

Both grains change rows through the same functions (`Simulations`, `Ledger`), so what
is proved about an effect holds for the method that has it and for every interleaving.

| file | what it holds |
|---|---|
| `Sums.dfy` | counting and summing over sequences |
| `Simulations.dfy` | rows, the moves on them, eligibility and claim order |
| `Ledger.dfy` | effects on the table, the event log, conservation and the work bound |
| `Rollup.dfy` | the batch rollup as a function of the children; serial runs |
| `Serial.dfy` | whole runs of transactions one after another, with the batch table a materialised view |
| `StaleRollup.dfy` | the rollup under READ COMMITTED with stale snapshots, and its repair sweep |
| `Cluster.dfy` | concurrent claims, the per-user cap, the runner_id fence |
| `Database.dfy` | the tables updated in place |
| `Drain.dfy` | what the scaler counts against what runners then claim, and in which order |
| `Heartbeat.dfy` | lease timing |
| `ContentHash.dfy`, `Provenance.dfy` | the cache key; results under duplicate and zombie executions |
| `Submission.dfy` | idempotent batch submission under races |
| `Reconciler.dfy` | read-modify-write of a Deployment that KEDA and others write too |
| `Refs.dfy` | object references minted in Go and resolved in Python |

## Where a promise fails, and exactly when it holds

- **The `runner_id` fence is not a claim-epoch fence in general.** A statement left in
  flight by an earlier life of a runner passes the fence if the same runner id has
  claimed the same row again (`Cluster.StrayFinishLands`). It belongs to the row's
  latest claim exactly when that has not happened (`Cluster.FenceIffNotReclaimed`).
  A working runner that waits for each of its own claims is always safe
  (`Cluster.FenceIsEpoch`), whatever the others do.
- **The rollup trigger alone can miss `done`.** Two children finishing at once can
  leave a batch with every child terminal and nobody left to say so
  (`StaleRollup.MissedRollup`). The last commit marks it done exactly when the
  snapshot behind the counts it installs held every child's final state
  (`StaleRollup.LastCommitDoneIff`); otherwise the sweep does
  (`StaleRollup.SweepRepairs`).
- **A batch can be accepted and never expanded.** If the insert commits but its reply
  is lost, the re-fetch finds the request's own batch and accepts it
  (`Submission.LostReplyStrands`), and nothing that follows repairs it. A batch can
  still be completed exactly when it is complete already or its creator is still
  expanding it (`Submission.CompletableIffCreatorLive`).
- **Succeeded does not mean clean or warnings, nor even this model's result.** A cache hit
  ignores the verdict, so a failing model submitted again with its digests is recorded
  as succeeded (`Provenance.CachedFailureSucceeds`); and it trusts the client's digests,
  so a model submitted with another's is recorded with the other's result
  (`Provenance.FalseDigestsBorrow`). A succeeded row carries the result of its own inputs
  exactly when its digests are true (`Provenance.SucceededResultIsOwnIff`), and for a job
  with true digests the promise holds over all runs exactly when the engine's verdict on
  the job's own bytes is clean or warnings (`Provenance.SucceededMeansGoodIff`). Succeeded
  rows that were ever claimed always have true digests and a good verdict.
- **An uploaded object's ref need not resolve to itself.** The client's digest goes
  into the key unchecked, and a bucket may reuse another kind's logical name
  (`Refs.DigestBreaksRef`, `Refs.BucketNameBreaksRef`); `Refs.UploadRoundTripIff` and
  `Refs.UploadRoundTrip` give the exact conditions, and `Refs.AcceptedRefResolvesIff` the
  one for refs that clients write themselves.
- **An object key need not bind one upload.** Because the digest is not checked, an upload
  with one can get the key of another user's upload without: some file names make the
  keys equal exactly when the digest starts with that user's id and a slash and goes on
  with allowed characters, which the server could check before it signs
  (`Refs.DigestReachesUserIff`, with such names in `Refs.DigestReachesUser`). Likewise two
  different digests share a key exactly when one goes on from the other with a dash
  (`Refs.DigestsShareIff`). For hexadecimal digests neither happens
  (`Refs.UploadKeysCollideIff`).
- **The reconciler's retry needs a cache that catches up.** Deployments are read from the
  informer's cache (`cmd/operator/main.go:134`,
  `internal/controller/runnerpool_controller.go:252-258`), so one autoscaler write it has
  not seen turns every retry into a conflict although nobody writes meanwhile
  (`Reconciler.LaggingCacheExhausts`), and an object it misses is refused
  (`Reconciler.LaggingCacheRefused`). No update is lost in either case: attempts run out
  exactly when each misses some write that changed the object (`Reconciler.NoLostUpdate`).
- **Docs against code.** `docs/CONTRACT.md:87` gives a heartbeat without a state guard;
  the migration requires `state = 'running'`, and the model follows the migration. The
  comment at `internal/store/store.go:311-313` calls the trigger the sole writer of
  batch state, but the sweep at lines 339-364 writes it too; the model has both.

## Assumptions

- READ COMMITTED with a new snapshot for every statement; a row lock is held from the
  write to the end of its transaction; advisory lock 42 is exclusive and released when
  its transaction ends.
- Distinct live runners have distinct ids. A runner may crash, come back under its id,
  lose a reply, or leave a statement in flight.
- Clock readings are inputs. The concurrent systems assume nothing about them;
  `Heartbeat` assumes only what `Timely` says. The insert's `created_at` (database) and
  `finished_at` (API server) are one reading in `Inserted`.
- `max_attempts` is at least 1. Every insert in the repository takes the column default, 3;
  the results hold for any values and give their bounds in terms of the column.
- A batch has at least one variant, as the handler checks (`internal/api/handlers.go:150`).
- Refs name immutable bytes; verdict and metrics (all but `run_seconds`) are functions of
  model, weather and engine version. SHA-256 is an arbitrary function; only the lemmas
  that require `Provenance.Sound` take it as injective and its digests as non-empty and
  free of colons.
- An informer's cache shows some past state of the API server's object, possibly the present one.
- The API server keeps the version of an object when a write changes nothing, as the
  comment at `internal/controller/runnerpool_controller.go:175-177` says.

## Model

| member | source | states |
|---|---|---|
| Cluster.CapHolds | db/migrations/0007_lifecycle_functions.sql:35-55 | in every interleaving of claims split into lock, snapshot, pick and commit with finishes, reaps, inserts, renewals and back-fills, no user has more running rows than the largest cap any claim uses |
| Cluster.ClaimIsExclusive | runner/synergy_runner/db.py:119-137 | a row picked under the lock is still queued and of the right version at commit, whatever ran in between, and the commit leaves its user within the claimer's own cap |
| Cluster.CommitWithinCap | db/migrations/0006_eligible_simulations.sql:25-26 | the step behind both: a snapshot's running counts bound today's, so the commit overshoots no cap |
| Cluster.PickedStillQueued | db/migrations/0007_lifecycle_functions.sql:46-53 | under the invariant the commit is possible and takes its row from queued |
| Cluster.FenceIsEpoch | runner/synergy_runner/loop.py:214-232 | for a runner that waits for its own claims, whatever the others do, a renew or finish passes the runner_id fence only if the epoch the runner remembers is the row's attempts |
| Cluster.FenceIffNotReclaimed | db/migrations/0007_lifecycle_functions.sql:70-101 | any remembered statement that passes the fence is of the row's latest claim if and only if the log shows no later claim of that row by the same runner id |
| Cluster.StrayFinishLands | db/migrations/0007_lifecycle_functions.sql:94-101 | for every simulation with two attempts and every runner, a run on it in which a finish left over from epoch 1 ends epoch 2 |
| Cluster.TerminalIsFinal | db/migrations/0007_lifecycle_functions.sql:94-135 | over any stretch of any run rows are never lost, keep their shape and identity, and terminal rows keep state, attempts, error and timestamps |
| Cluster.Conservation | db/migrations/0007_lifecycle_functions.sql:40-135 | rows = queued + running + succeeded + failed; sum of attempts = claims = requeues + finishes + lease failures + running; claims at most the sum of max_attempts and state changes at most twice that, so m N and 2 m N under a common bound m, however runners crash |
| Cluster.RowBooks | db/migrations/0007_lifecycle_functions.sql:40-135 | the same books for each row on its own; a row ends at most once |
| Cluster.CanComplete | runner/synergy_runner/loop.py:214-232 | from every reachable state, one runner claiming with a cap of one can bring every row to a terminal state without new rows |
| Cluster.RowsShaped | db/migrations/0007_lifecycle_functions.sql:40-135 | in every reachable state a queued row has no runner, no lease and attempts left, a running one has both and 1 to max_attempts attempts, and finished_at is set exactly on terminal rows |
| Cluster.StatementsWrite | db/migrations/0007_lifecycle_functions.sql:40-135 | each statement in flight writes exactly the columns of its SQL function, the fenced ones only for the owner of a running row |
| Cluster.ClaimEnds | runner/synergy_runner/db.py:125-138 | commit, an empty claim and rollback all free the lock, and the waiting runner goes to work with the row's new epoch exactly if the claim committed and its reply arrived |
| Cluster.SerialClaimIsRun | db/migrations/0007_lifecycle_functions.sql:28-56 | claim_simulation in one go is the lock, snapshot, pick, commit run of the concurrent system |
| Cluster.SerialSweepIsRun | db/migrations/0007_lifecycle_functions.sql:121-135 | a whole reaper sweep is a run of its row steps and leaves every row as one sweep should |
| Simulations.ClaimCounts | db/migrations/0006_eligible_simulations.sql:25-26 | a claim raises its user's running count by one and nobody else's |
| Simulations.RunningIsCard | db/migrations/0006_eligible_simulations.sql:25-26 | the running count of a user is the size of the set of that user's running rows, of any version |
| Simulations.EligibleIsCard | db/migrations/0006_eligible_simulations.sql:21-27 | the eligible count is the size of the set of queued rows of the version whose users have fewer running rows than the cap |
| Ledger.EffectShape | db/migrations/0007_lifecycle_functions.sql:40-135 | every legal effect keeps the row shape (queued: no runner, no lease, attempts left; running: runner, lease, 1 to max attempts; finished_at exactly on terminal rows) and lets rows evolve forward only |
| Ledger.EventsBurnPotential | db/migrations/0001_init.sql:66-67 | 2(max_attempts - attempts) + running, summed over rows not terminal, falls at every claim, requeue, finish and lease failure, stays at other effects, and grows only by twice the max_attempts of a queued insert |
| Ledger.EffectEntries | db/migrations/0007_lifecycle_functions.sql:40-135 | one row's claims, requeues and ends stay balanced under every effect |
| Ledger.EffectRecorded | db/migrations/0007_lifecycle_functions.sql:45-45 | logged epochs never pass a row's attempts, and a running row's owner and epoch are on record |
| Ledger.EffectBalanced | db/migrations/0007_lifecycle_functions.sql:40-135 | the totals over all rows stay balanced with the log |
| Rollup.DoneIffCountsReachTotal | db/migrations/0004_batch_rollup_authoritative.sql:30-40 | succeeded + failed never passes the total, and reaches it exactly when the state is done |
| Rollup.DoneIffAllEnded | db/migrations/0004_batch_rollup_authoritative.sql:33-35 | done if and only if every variant's row is present and terminal |
| Rollup.RecomputeMeans | db/migrations/0004_batch_rollup_authoritative.sql:27-50 | in every phase, and whatever the number of children, succeeded and failed are the numbers of such children, and the state is the one that the numbers inserted, ended and running call for |
| Rollup.QualifiesMeans | internal/store/store.go:355-359 | the sweep's condition holds exactly when the declared number of children is there and none is pending |
| Rollup.PhaseMeans | db/migrations/0004_batch_rollup_authoritative.sql:30-40 | each of the four batch states holds if and only if the children are as its name says: some missing, all terminal, one running, or one queued and none running |
| Rollup.PhaseMonotone | db/migrations/0004_batch_rollup_authoritative.sql:30-40 | while rows evolve, phase (expanding, then queued or running, then done) and both counts never go back |
| Serial.ViewIsExact | db/migrations/0004_batch_rollup_authoritative.sql:27-59 | after every step of every serial run (create, insert, claim, finish, reap, renew, back-fill, resync) each batch row equals the recomputation from its children, and a resync changes nothing |
| Serial.BatchMovesForward | db/migrations/0004_batch_rollup_authoritative.sql:27-50 | between any two points of a serial run a batch's phase and counts never go back, the counts reach the total exactly at done and never pass it, and done is final |
| Serial.StateMeans | db/migrations/0004_batch_rollup_authoritative.sql:30-40 | in every serial state a batch is expanding exactly while its creator has variants left, and otherwise done, running or queued exactly as its children are |
| Serial.CountsMean | db/migrations/0004_batch_rollup_authoritative.sql:28-29 | in every state of every serial run, in every phase, a batch's counts are the numbers of its succeeded and failed children |
| Serial.OpensEmpty | internal/store/store.go:310-320 | a new batch starts expanding, without children and under its user and key, and no other batch changes |
| Serial.StepAccounted | internal/queue/queue.go:81-117 | every step keeps children inserted plus variants left equal to the total |
| Rollup.SerialProgress | db/migrations/0004_batch_rollup_authoritative.sql:27-50 | the step behind `Serial.BatchMovesForward`: two exact tables, one evolved from the other |
| Rollup.RolledKeepsExact | db/migrations/0004_batch_rollup_authoritative.sql:56-59 | recomputing only the batches whose children were inserted or changed state keeps every batch row equal to the pure recomputation |
| Rollup.UnhitSame | db/migrations/0004_batch_rollup_authoritative.sql:57-59 | a statement that fires no trigger for a batch leaves its recomputation unchanged |
| Rollup.ResyncAgreesWithTrigger | internal/store/store.go:333-364 | where the sweep qualifies it writes the trigger's own value, and it leaves an exact row alone |
| StaleRollup.DoneIsExact | db/migrations/0004_batch_rollup_authoritative.sql:27-50 | with triggers counting from stale snapshots, in every interleaving counts never exceed the truth and done means all children present and terminal with exact counts |
| StaleRollup.DoneIsFinal | db/migrations/0004_batch_rollup_authoritative.sql:27-50 | no later write, of an open transaction or a new one, changes a done batch |
| StaleRollup.SweepRepairs | internal/store/store.go:339-364 | a sweep begun once every child is terminal always gets through, makes the batch done with exact counts, and nothing overwrites that |
| StaleRollup.NoWriterLeft | internal/store/store.go:339-364 | with every child committed and terminal no transaction can be about to write the batch |
| StaleRollup.LastCommitDoneIff | db/migrations/0004_batch_rollup_authoritative.sql:41-50 | the commit that ends the last child marks the batch done if and only if its counts come from a snapshot equal to the final children |
| StaleRollup.MissedRollup | internal/store/store.go:333-338 | from any quiet state with two running children, a race after which all is committed and the batch is not done |
| StaleRollup.SerialWriteIsExact | db/migrations/0004_batch_rollup_authoritative.sql:27-59 | with nothing else open, a transaction leaves the batch equal to the recomputation |
| StaleRollup.PastIsHonest | db/migrations/0004_batch_rollup_authoritative.sql:41-50 | counts from any earlier snapshot never claim more than is true now, because terminal children stay |
| StaleRollup.CommitKeepsTxn | db/migrations/0004_batch_rollup_authoritative.sql:48-49 | what another transaction sees and saw survives a commit, since the rows it changed were locked and not terminal |
| StaleRollup.SweepPicksEnded | internal/store/store.go:355-359 | the sweep's WHERE clause holds exactly on fully terminal batches |
| StaleRollup.CommitInstalls | db/migrations/0004_batch_rollup_authoritative.sql:27-50 | in every phase the committed counts are the numbers of succeeded and failed children of the snapshot behind them |
| StaleRollup.SweepInstalls | internal/store/store.go:340-359 | a sweep writes the numbers of its own snapshot and done, or nothing |
| StaleRollup.MovesAreEffects | db/migrations/0007_lifecycle_functions.sql:40-135 | the child moves of this system are exactly the state changes that effects on a row with attempts left make |
| StaleRollup.InsertsAreMoves | internal/store/store.go:209-227 | and its inserts exactly the states rows are inserted in |
| Database.Database.constructor | db/migrations/0001_init.sql:40-72 | empty tables satisfy every invariant |
| Database.Database.FindBatchByIdempotencyKey | internal/store/store.go:327-331 | finds a batch of this user and key, or proves there is none |
| Database.Database.CreateBatch | internal/store/store.go:310-320 | refused exactly when the user already has that non-NULL key; otherwise appends an expanding batch, and the view stays exact |
| Database.Database.CountChildren | db/migrations/0004_batch_rollup_authoritative.sql:41-49 | one scan computes the five FILTERed counts, with done = succeeded + failed |
| Database.Database.SyncBatchCounts | db/migrations/0004_batch_rollup_authoritative.sql:19-54 | sets the view of the child's batch and nothing else: succeeded and failed become the numbers of such children in every phase, and the state follows from the numbers inserted, ended and running; nothing for a child without batch |
| Database.Database.FireTriggers | db/migrations/0004_batch_rollup_authoritative.sql:56-59 | after a statement on many rows, exactly the batches with a changed child are recomputed |
| Database.Database.ResyncBatch | internal/store/store.go:340-359 | a batch not done becomes done with the exact counts if and only if its declared number of children is there and all are terminal; otherwise nothing changes |
| Database.Database.ResyncStuckBatches | internal/store/store.go:339-364 | every stuck batch is repaired, and the reply is the number of batches that changed |
| Database.ResyncIsIdle | internal/store/store.go:333-338 | on an exact table the sweep repairs nothing |
| Database.HitsOwn | db/migrations/0004_batch_rollup_authoritative.sql:57-59 | a single claim, finish or insert hits exactly the batch of its own row |
| Database.OneRowRolls | db/migrations/0004_batch_rollup_authoritative.sql:19-59 | so recomputing that one batch keeps the whole table exact |
| Database.Database.CountRunning | db/migrations/0006_eligible_simulations.sql:25-26 | the user's running rows over all engine versions |
| Database.Database.CountEligible | internal/controller/runnerpool_controller.go:203-205 | the scaler's query returns the number of queued rows of the version whose users have fewer running rows than the cap |
| Database.Database.SelectClaimable | db/migrations/0007_lifecycle_functions.sql:46-53 | an in-place scan returns an eligible row no eligible row sorts before, or proves none is eligible |
| Database.Database.ClaimSimulation | db/migrations/0007_lifecycle_functions.sql:28-56 | claims a best row, changing exactly state, runner, lease, attempts and started_at of it, or changes nothing because none is eligible; the view stays exact |
| Database.Database.ChangeState | db/migrations/0004_batch_rollup_authoritative.sql:56-59 | one row's state change with its trigger keeps shape, history and the view |
| Database.Database.RenewLease | db/migrations/0007_lifecycle_functions.sql:61-78 | one row and its lease change exactly when the caller owns the running row; batches are untouched and stay exact |
| Database.Database.FinishSimulation | db/migrations/0007_lifecycle_functions.sql:84-105 | the terminal transition happens exactly when the caller owns the running row; otherwise nothing changes |
| Database.Database.BackfillHashes | runner/synergy_runner/db.py:155-167 | unfenced: the digests of the row change whatever its state, and no other column or row does |
| Database.Database.UpdateExpired | db/migrations/0007_lifecycle_functions.sql:121-135 | one UPDATE of the reaper changes exactly its rows and returns each once |
| Database.Database.ReapPass | db/migrations/0007_lifecycle_functions.sql:121-135 | ... and its triggers recompute exactly the batches of those rows |
| Database.Database.ReapExpiredLeases | db/migrations/0007_lifecycle_functions.sql:114-141 | every expired row is requeued or failed by its attempts, no running row is expired afterwards, and the two counts are the numbers of rows requeued and failed and partition the expired ones |
| Database.Database.InsertSimulation | internal/store/store.go:209-227 | appends one row in the given state, finished_at only on a hit, or fails without change when the batch does not exist |
| Database.Database.ExpandVariant | internal/queue/queue.go:82-114 | one variant becomes one row with its refs, digests, hash, version and priority, succeeded if and only if both digests are given and a result is stored under their hash, whatever its verdict |
| Database.Database.Expand | internal/queue/queue.go:81-117 | one such row per variant, in order; an exact batch table stays exact |
| Drain.DrainCount | db/migrations/0007_lifecycle_functions.sql:46-53 | however ties break, n claims use up n of the headroom, the sum over users of min(queued, max(0, cap - running)), and nothing is eligible exactly when all of it is used |
| Drain.RoomMeans | db/migrations/0006_eligible_simulations.sql:21-27 | a user's share of the headroom is min(queued of the version, max(0, cap - running)), counted in rows |
| Drain.ClaimTakesHeadroom | db/migrations/0006_eligible_simulations.sql:21-27 | each claim takes exactly one unit |
| Drain.DrainedIffNoHeadroom | db/migrations/0006_eligible_simulations.sql:21-27 | no row is eligible if and only if the headroom is zero |
| Drain.ScalerAgreesWithClaimer | internal/controller/runnerpool_controller.go:199-205 | a full drain makes exactly the headroom in claims, never more than the scaler's count, and one is zero if and only if the other is |
| Drain.ClaimsWithinDepth | internal/controller/runnerpool_controller.go:199-205 | no sequence of claims is longer than the scaler's count |
| Drain.EligibleShrinks | db/migrations/0006_eligible_simulations.sql:21-27 | a claim makes no row eligible that was not |
| Drain.GreedyOrder | db/migrations/0006_eligible_simulations.sql:27-27 | successive claims are distinct and come out by priority descending, then created_at, even as users reach their cap |
| Drain.ClaimNext | db/migrations/0007_lifecycle_functions.sql:28-56 | one call claims a best row and lowers the headroom, or proves nothing is eligible |
| Drain.ClaimAll | runner/synergy_runner/loop.py:214-232 | claiming in place until nothing is returned makes exactly the headroom in claims and leaves nothing eligible |
| Drain.ScaleThenDrain | internal/controller/runnerpool_controller.go:199-205 | the scaler's reading before the drain bounds the claims and is zero exactly when they are |
| Heartbeat.LiveRunnerKeptIff | runner/synergy_runner/heartbeat.py:39-56 | a freshly claimed row stays with its runner through every schedule of sweeps and of renewals at most gap apart with at most m misses in a row, if and only if (m + 1) gap <= lease |
| Heartbeat.BeatKeepsCovered | db/migrations/0007_lifecycle_functions.sql:70-74 | one timely beat leaves the lease reaching past every attempt that may be missed, so no sweep finds it expired |
| Heartbeat.CoveredThroughout | runner/synergy_runner/heartbeat.py:39-56 | so the row keeps its owner and its claim through a whole schedule |
| Heartbeat.SilenceReaps | db/migrations/0007_lifecycle_functions.sql:121-135 | a lease shorter than that is lost to a sweep after m misses |
| Heartbeat.Tend | internal/queue/reaper.go:28-50 | the same on the table with the real renew and reap methods and any other rows present |
| ContentHash.ParseIffColonFree | internal/queue/queue.go:27-30 | splitting at the first two colons recovers the three parts if and only if neither digest has a colon |
| ContentHash.PayloadInjective | runner/synergy_runner/loop.py:26-29 | triples with colon-free digests that share a payload are equal |
| ContentHash.PayloadSame | internal/queue/queue.go:27-30 | under one version a payload of colon-free digests has no second reading, not even with colons in it |
| Provenance.ResultsAreProven | runner/synergy_runner/loop.py:73-134 | in every run with duplicate and zombie executions, a result stored under the hash of some inputs is the engine's output on just those inputs |
| Provenance.SucceededHasResult | runner/synergy_runner/loop.py:75-134 | every succeeded row has a result under its stored hash; if it was ever claimed, that hash is computed from its own bytes, the result is the engine's output on them, and the verdict is clean or warnings |
| Provenance.ResultsAreForever | runner/synergy_runner/db.py:171-205 | from any state satisfying the invariant, no step loses a result or changes its verdict or metrics |
| Provenance.ReachableResultsAreForever | runner/synergy_runner/db.py:171-205 | the same from every reachable state |
| Provenance.HashStaysTrue | runner/synergy_runner/db.py:155-167 | any step leaves a row's hash as it was or sets it to the hash of the row's own inputs |
| Provenance.OwnStepExec | runner/synergy_runner/loop.py:75-125 | back-fill, engine run and upsert, in that order, leave the true hash, the engine's output and a stored result |
| Provenance.FinishedRowOk | runner/synergy_runner/loop.py:127-134 | an execution that finishes its row has a result stored under the row's hash |
| Provenance.FinishRecords | runner/synergy_runner/loop.py:127-134 | where the fence lets it through, a clean or warnings verdict records succeeded without error, a severe or fatal one failed with that verdict as error |
| Provenance.FinishErrorRecords | runner/synergy_runner/loop.py:149-157 | the error path fails the row under the same fence |
| Provenance.ExecutionWrites | runner/synergy_runner/loop.py:73-125 | the back-filled digests and hash are those of the fetched bytes, the engine runs on those bytes, and the upsert stores its output under that hash, over the artifact that was there |
| Provenance.HashDeterminesInputs | internal/queue/queue.go:20-30 | equal content hashes mean equal inputs |
| Provenance.HashTrueIffDigestsTrue | internal/queue/queue.go:83-84 | a stored hash is that of the row's inputs if and only if the stored digests are, whatever strings a client sent |
| Provenance.SucceededResultIsOwnIff | internal/queue/queue.go:86-97 | every succeeded row, claimed or not, has the result of exactly one input triple, its own if and only if its digests are true; claimed rows have true digests and a good verdict |
| Provenance.SucceededMeansGoodIff | internal/store/store.go:138-144 | every succeeded row of a job with true digests has a result that is clean or warnings, in all runs, if and only if the engine's verdict on the job's own bytes is clean or warnings |
| Provenance.HitTakesStoredResult | internal/queue/queue.go:86-97 | for any job and any other of its version, a run in which the other is recorded succeeded with the first one's digests and result |
| Provenance.CachedFailureSucceeds | internal/queue/queue.go:86-97 | for every job that fails, a run in which its own second submission is recorded succeeded |
| Provenance.FalseDigestsBorrow | internal/queue/queue.go:86-97 | for any two jobs of one version with different inputs, a run in which one is recorded succeeded with the other's result |
| Submission.OneBatchPerKey | internal/api/handlers.go:179-203 | two accepted replies carry one batch id if and only if they answer the same user with the same non-empty key |
| Submission.ResubmitAnswered | internal/api/handlers.go:179-188 | a request whose user and key name a batch is answered with that batch's id, at the look-up as at the re-fetch |
| Submission.TakenKeyErrs | internal/api/handlers.go:191-199 | an insert under a taken key changes nothing and goes to the re-fetch |
| Submission.FreeKeyMoves | internal/api/handlers.go:179-203 | without a batch under its key a request goes on from the look-up to the insert, creates its own batch there, and is turned away at the re-fetch |
| Submission.FreshSubmitCompletes | internal/api/handlers.go:190-231 | left to itself, a request with a new key or none gets one batch of its own with all its children, and the reply carries its id |
| Submission.OneExpander | internal/api/handlers.go:205-231 | only the creator adds children, and never more than the total |
| Submission.CompletableIffCreatorLive | internal/api/handlers.go:190-231 | a batch can still be completed if and only if it is complete or its creator is expanding it |
| Submission.AbandonedStays | internal/api/handlers.go:179-203 | without its creator a batch never changes again, whoever resubmits the key |
| Submission.LiveFinishes | internal/queue/queue.go:81-117 | a live creator can always insert the remaining children |
| Submission.LostReplyStrands | internal/api/handlers.go:191-199 | for every keyed request, a run that ends in that request's own batch accepted and empty, and no continuation ever changes the batch |
| Submission.Find | internal/store/store.go:327-331 | where the user has a batch with this key, the look-up returns such a batch |
| Submission.StepKeys | db/migrations/0005_idempotency_per_user.sql:15-16 | every step keeps (user, key) unique among the batches |
| Reconciler.NoLostUpdate | internal/controller/runnerpool_controller.go:162-191 | against any writes of others and reads that lag by any number of them, a reconcile ends in the first attempt that missed no change to the object, installing the desired fields and keeping the replica count and status the others left; it runs out exactly when every attempt missed one, and has then changed nothing |
| Reconciler.FreshReadEnds | internal/controller/runnerpool_controller.go:178-180 | one attempt that reads what it will find is enough to end the retries |
| Reconciler.FiveAttempts | internal/controller/runnerpool_controller.go:178-178 | four contended attempts and a fresh fifth end in an update, and only five contended ones in a conflict |
| Reconciler.KedaCountKept | internal/controller/runnerpool_controller.go:162-163 | against the autoscaler alone a reconcile runs out or installs the desired fields, and the replica count is the one KEDA wrote last before it ended |
| Reconciler.LaggingCacheExhausts | internal/controller/runnerpool_controller.go:252-258 | one autoscaler write the cache has not seen exhausts all attempts although nobody writes during them |
| Reconciler.LaggingCacheRefused | internal/controller/runnerpool_controller.go:180-186 | while the cache misses an object that exists, the create is refused and the object stays as it is |
| Reconciler.VersionTells | internal/controller/runnerpool_controller.go:169-177 | after any writes, an object with the version that was read means none of them changed anything |
| Reconciler.LagTells | internal/controller/runnerpool_controller.go:187-190 | what an attempt read from the cache has the version it finds on the server if and only if no write it had not seen changed anything |
| Reconciler.ApiServer.Elsewhere | internal/controller/runnerpool_controller.go:169-172 | the others' writes one by one add up to `AfterAll`, with every state in between kept for a lagging cache |
| Reconciler.ReconcileDeployment | internal/controller/runnerpool_controller.go:178-191 | the version-checked retry loop over lagging reads ends just as `Tried` says without versions: a missed change is retried, an object the cache misses or still shows is the error returned |
| Reconciler.TryOnce | internal/controller/runnerpool_controller.go:179-190 | one attempt is a conflict exactly when it missed a change to the object, and otherwise ends as `Ended` says |
| Refs.UploadRoundTripIff | internal/api/uploads.go:107-134 | every minted ref passes validation, and resolves to the presigned bucket and key if and only if the bucket's name maps to itself and the key has no query or fragment mark, tab or line break |
| Refs.UploadRoundTrip | runner/synergy_runner/storage.py:53-69 | for a hexadecimal digest or none, the round trip holds if and only if the bucket does not reuse a logical name that is configured elsewhere |
| Refs.ValidIff | internal/api/handlers.go:350-376 | a ref is accepted if and only if it names a non-empty key in the kind's bucket, by its logical or its configured name |
| Refs.ValidMeans | internal/api/handlers.go:358-376 | in characters: s3://, then models or the models bucket (weather or the weather bucket), a slash and a key |
| Refs.OtherSchemesInvalid | internal/api/uploads.go:236-243 | nothing that does not begin with s3:// is accepted |
| Refs.ValidRefStaysInBucket | runner/synergy_runner/storage.py:53-69 | the runner resolves every accepted ref to the bucket that was checked, which is the kind's own unless its name is configured for another kind |
| Refs.UploadKeysCollideIff | internal/api/uploads.go:114-123 | the clean case: two uploads share an object key if and only if their sanitised names and hexadecimal digests agree and, without digests, their users do |
| Refs.DigestReachesUserIff | internal/api/uploads.go:114-123 | for any digest a client sends, some names give its upload the key of a given user's upload without digest if and only if it starts with that user's id and a slash and goes on with allowed characters |
| Refs.DigestReachesUser | internal/api/uploads.go:118-123 | the names that do it |
| Refs.DigestsShareIff | internal/api/uploads.go:118-120 | for any two digests, some names make their keys equal if and only if the digests are equal or one goes on from the other with a dash and allowed characters |
| Refs.UploadKeyClean | internal/api/uploads.go:78-123 | sanitised names, digests and user ids put nothing special into a key |
| Refs.TargetOf | runner/synergy_runner/storage.py:60-69 | what the runner resolves a ref into a plainly named bucket to, whatever the key |
| Refs.AcceptedRefResolvesIff | runner/synergy_runner/storage.py:60-69 | every accepted ref resolves to the key that was checked if and only if the key has no query or fragment mark, tab or line break and does not begin with a slash |
| Refs.DigestBreaksRef | internal/api/uploads.go:119-134 | every digest with a query mark mints an accepted ref that resolves elsewhere |
| Refs.BucketNameBreaksRef | runner/synergy_runner/storage.py:53-57 | a models bucket named as the logical weather bucket sends every uploaded model's ref to the weather bucket |
| Refs.ResolvesToItselfIff | runner/synergy_runner/storage.py:53-57 | a bucket name maps to itself unless it is a logical name configured differently |
| Refs.Until | internal/api/uploads.go:236-243 | cutting at the first of some characters: a prefix without them, followed by one of them or the end |
| Refs.Sanitize | internal/api/uploads.go:80-108 | each allowed character stays and each other one becomes an underscore; the result is the input exactly when all were allowed |

## Left out

- SHA-256 itself: a library function, here an arbitrary function with stated assumptions.
- The EnergyPlus process, metric extraction from SQLite and the `.err` scan: the engine is a function of its inputs.
- S3 transfer, presigning, HTTP routing, JSON, authentication, the SDK and the developer portal: plumbing over libraries.
- Kubernetes object building and the ScaledObject: only the Deployment's read-modify-write and the scaler's query matter here.
- `artifact_uri`, `artifact_expires_at`, `run_seconds`: not idempotent; provenance is about verdict and deterministic metrics only.
- `extraction_spec` and `maxParallelism`: stored, not acted on by the code modelled.
- db/migrations/0003_batch_counts.sql: replaced by 0004.
- `handleCreateSimulation`: the same cache rule and insert as one variant of `Expand`, without a batch; `Provenance` allows such rows.
- Clamps and paging (`normalizePriority`, `pageParams`, `orDefault`) and read-only endpoints: they would only add easy members.
- `path.Base` and `strings.TrimSpace` on an upload's file name: library calls; `Refs` starts from their result, any string.
- Refs with an upper-case scheme, `file://` refs and IPv6 brackets in `urlparse`: the API server accepts `s3://` only, and minted buckets are plain names.
- Postgres internals: deadlocks, rows skipped by SKIP LOCKED because a renew or back-fill holds them at that instant, and update chains. `Cluster` lets a claim pick any eligible row, which covers a skipped best one.
- Other batches in `StaleRollup`: a transaction reads and writes one batch's rows only, so it follows a single batch; the reaper's multi-batch statement is covered in serial form by `Database.Database.ReapPass`.
- Database errors inside the methods of `Database`: failing statements are steps of `Cluster` (Rollback), `Provenance` (Vanish, FinishError) and `Submission` (CreateFails, Stop).
- Database.Database.Expand: has no failing statement but a missing batch, because `Submission` models an expansion that stops half way.
- Reconciler.ReconcileDeployment: errors of the API server other than conflict, an existing and a missing object, which end the reconcile at once, and the length of the back-off.
- Heartbeat.LiveRunnerKeptIff: the thread's own timing (interval plus query time, at most one reconnect) is the gap parameter, not derived.
