# Verification of the machine reservation protocol

A Dafny model of how this system shares machines between users, and proofs about it. One
database holds the tables `machines` and `reservations`. Concurrent API requests create and
delete reservations; a scheduler, of which several copies may run, cleans up expired
reservations, checks the health of machines, and reconciles: it sizes the pool of spares,
releases replacements that are no longer needed and allocates new ones.

Check everything with `dafny verify dfyconfig.toml`.

## How the model is organised

- `Tables`, `Selection`, `Ownership`, `Replacement`: the tables as values, every SQL
  statement as a function, and what the tables must satisfy.
- `Protocol`, `Invariant`, `Safety`, `Guarantees`, `Requests`, `Losses`: the transition system
  in which every committed transaction is one step, its inductive invariant, and what holds in
  every state, and of every request, of every interleaving.
- `Reconcile`, `PassColumns`, `Convergence`, `Oscillation`, `Visibility`: a reconcile pass as an
  algorithm, what it does to each row and machine, repeated passes, and what users see after one.
- `HealthPass`, `HealthPool`, `PoolAccounting`, `PoolRefinement`: the worker pool of the
  health check as a transition system over atomic actions, refined to a sequential pass.
- `Storage`, `CreateHandler`, `DeleteHandler`, `ListHandler`, `Cleanup`, `Health`,
  `Reconciler`, `Locks`, `Scheduler`: the handlers and passes in their imperative form, over
  a mutable `Database` object, each specified by the functions above.
- `Refinement`, `Interleaving`: every handler and every pass, left undisturbed, is a sequence
  of safe protocol steps, and the worker pool beside the API is a run of the protocol, which
  ties the halves together.

The functions name the conditions of the queries (`Expired`, `Eligible`, `Releasable`, ...), and
most theorems speak through these names. What they stand for is proved as well: the contracts of
the handlers and passes, and the lemmas whose names end in `InColumns`, state every operation
over the columns of the two tables alone.

## What the proofs say about the code

- Ownership is exclusive and conserved in every interleaving, provided no release is stale.
  `Delete` (delete.go:93-96) and `ClearReservationsAndRelease` (db.go:69-78) free the
  machine they loaded earlier without checking that the row is still there. A release is stale
  if its row is gone and its machine is held. A step keeps the invariant if and only if it is
  not a stale release (`Safety.StepKeepsInvIffSafe`), and a run is exclusive throughout if and
  only if it has none (`Guarantees.ExclusiveIffSafe`); `Losses.StaleReleaseDoubleBooks` is a run
  in which one stale release leads to two users on one machine. The reconciler's release
  rechecks and needs no hypothesis.
- The comment at reconcile.go:458-460 says that only enabled and online machines are
  demoted. The query (reconcile.go:530-535) does not ask for that. The code is modelled as
  it is; `Reconcile.DemotionBound` says exactly when the target is met, and
  `Reconcile.DemotionCanMissTarget` is a fleet on which it is not.
- The README of the repository (lines 216-218) promises the full requested count. When every
  playbook succeeds, all users see it after a pass if and only if, before the pass, every
  replacement of a machine that is down runs on a machine that is up, and the free spares the
  pass has suffice for the needs (`Visibility.FullCountExactly`). The first half matters: the
  needs query (reconcile.go:211-219) skips a primary that has a replacement, even one whose
  own machine is down (`Visibility.StandInDownIsNotReplaced`). Replacements whose primary
  reservation was deleted by hand are excluded: the release query joins on a live primary row
  (reconcile.go:95-97), so the scheduler leaves them until they expire.
- A pass resizes the spare pool before it releases and allocates (reconcile.go:45-57), so a
  later pass may undo the resize. From tables without orphaned replacements a promotion is
  undone if and only if the first pass promotes and the spares it then has exceed the target
  and the needs it met (`Oscillation.OscillatesIff`, `WellOscillatesIff`), and then by the second
  pass; from the second pass on no promotion is undone (`NoOscillation`). A demotion is undone
  if and only if that pass or a later one dips below the target (`ReboundsIff`). Without
  orphans, and when no playbook fails, this too only happens in the first two passes
  (`WellReboundsIff`, `NoRebound`); after one that fails it can happen later (`LateRebound`). `PromotionIsUndone`
  and `DemotionIsUndone` are fleets on which they happen. In every case only boundedly many
  passes change anything (`Convergence.PassesConverge`).
- A cancellation leaves the health check hanging if and only if it comes when the feeder is
  about to send and every worker holds a machine it has not looked at yet
  (`PoolAccounting.CancellationJamsIff`, `ProgressOrJam`); `CancellationCanJam` is such a schedule.

## Assumptions

- Each transaction is one atomic step, including the `COUNT(1)` rechecks and the playbook
  that the allocation transaction runs while it is open.
- SET assignments are evaluated left to right, as MariaDB does by default: the quarantine
  expression (create.go:171-172) sees the fail count that was just raised.
- Reservation ids are fresh (AUTO_INCREMENT, src/api-go/internal/db/db.go:61). That a
  rolled-back insert also consumes an id is not modelled, because only freshness is used.
- The set of users is fixed. Machines may be registered and their `online` flag may change
  at any time. Time is in whole seconds and only moves forward; inside one imperative pass
  the clock is read once, while the protocol lets it advance between any two transactions.
- Playbooks, SSH probes, the play recap and lock errors are inputs; so are the failing
  transactions of Create, of cleanup and of the health pool, and the cancellation of the latter
  two. The order of a Go map and of a query without ORDER BY is arbitrary.

## Model

| member | source | states |
|---|---|---|
| `Safety.StepKeepsInvIffSafe` | src/api-go/internal/handlers/reservations/create.go:51-191 | For every step of the protocol from a state satisfying the ownership invariant: the next state satisfies it if and only if the step is not a stale release, i.e. not an unguarded release of a row that is gone on a machine somebody holds |
| `Safety.RunKeepsInv` | src/api-go/internal/handlers/reservations/create.go:51-191 | The invariant (rows, in-flight Creates, machine columns, handles, pending needs, backoff) holds in every state of every interleaving whose steps so far are safe |
| `Safety.ReserveKeepsInv` | src/api-go/internal/handlers/reservations/create.go:51-89 | The reserve transaction takes only unowned machines and keeps the invariant |
| `Safety.InsertKeepsInv` | src/api-go/internal/handlers/reservations/create.go:179-191 | The insert transaction turns exactly the machines of one in-flight Create into rows and keeps the invariant |
| `Safety.RevertKeepsInv` | src/api-go/internal/handlers/reservations/create.go:98-138 | Undoing a reservation frees only that request's machines and keeps the invariant, whatever ran in between |
| `Safety.ChargeKeepsInv` | src/api-go/internal/handlers/reservations/create.go:163-177 | The revert after a failed playbook keeps the invariant, including that charges are a full quarantine apart |
| `Safety.SafeClearKeepsInv` | src/scheduler-go/internal/db/db.go:59-80 | A release whose row still exists, or whose machine nobody holds, keeps the invariant, whoever remembered the pair of ids |
| `Safety.StaleClearBreaksInv` | src/api-go/internal/handlers/reservations/delete.go:92-96 | A release of a row that is gone on a machine somebody holds always breaks the invariant |
| `Safety.ReleaseKeepsInv` | src/scheduler-go/internal/reconcile/reconcile.go:141-181 | The reconciler's release keeps the invariant without any hypothesis, because of its recheck |
| `Safety.AllocateKeepsInv` | src/scheduler-go/internal/reconcile/reconcile.go:250-375 | The allocation transaction keeps the invariant, whatever the API did since the needs were read |
| `Invariant.FlagStepKeepsInv` | src/scheduler-go/internal/reconcile/reconcile.go:490-560 | Health updates, promotion and demotion, for any ids, keep the invariant |
| `Guarantees.ExclusiveOwnership` | src/api-go/internal/handlers/reservations/create.go:51-89 | In every state of every run without stale releases a machine has at most one owner, counting rows and in-flight Creates together, and its reserved columns are that owner's user and expiry |
| `Guarantees.ExclusiveIffSafe` | src/api-go/internal/handlers/reservations/delete.go:92-96 | For every run: ownership is exclusive in all its states if and only if none of its releases is stale |
| `Guarantees.Conservation` | src/api-go/internal/handlers/reservations/create.go:81-191 | In the same runs the reserved machines are exactly those with a row or an in-flight Create; with none in flight there are as many rows as reserved machines |
| `Guarantees.PoolsAndReplacements` | src/scheduler-go/internal/reconcile/reconcile.go:297-355 | In the same runs primaries and in-flight Creates sit on ordinary machines, replacements on spares, and a user has at most one active replacement per primary machine |
| `Guarantees.AllocationCopiesPrimary` | src/scheduler-go/internal/reconcile/reconcile.go:262-355 | Any allocation in such a run changes nothing or adds one row that copies user, expiry and hash of a live primary row (never of a replacement) on a machine that is down |
| `Guarantees.GuardedRelease` | src/scheduler-go/internal/reconcile/reconcile.go:150-181 | For any remembered handle, however old: the release transaction does nothing, or removes one replacement of an enabled primary machine and frees the machine whose only owner was that row |
| `Guarantees.ChargesAreSteps` | src/api-go/internal/handlers/reservations/create.go:163-174 | The recorded charge times of a machine are exactly the failed-playbook steps of the run that held it |
| `Guarantees.BackoffOverRuns` | src/api-go/internal/handlers/reservations/create.go:166-173 | Over whole runs consecutive failures charged to a machine are at least min(60, 5(i+1)) minutes apart, k+1 failures take at least the sum of the first k windows, and no window exceeds an hour |
| `Guarantees.WindowSumClosed` | src/api-go/internal/handlers/reservations/create.go:171-172 | Closed form of the sum of the first k quarantine windows |
| `Losses.NoEarlyLoss` | src/scheduler-go/internal/db/db.go:42-80 | In every run, stale releases included: a row present at i and gone at j was unchanged until it was removed by an API Delete of that row, after it expired, or as a replacement whose primary machine was enabled |
| `Losses.StepLoss` | src/scheduler-go/internal/reconcile/reconcile.go:152-168 | The same for one step |
| `Losses.RowsNeverChange` | src/api-go/internal/db/db.go:60-71 | In every run a row is never edited, and an id that is gone never comes back |
| `Losses.StaleReleaseDoubleBooks` | src/api-go/internal/handlers/reservations/delete.go:92-96 | A concrete run, safe up to one stale Delete, that ends with two rows of two users on one machine |
| `CreateHandler.ReserveMachines` | src/api-go/internal/handlers/reservations/create.go:51-89 | Marks count eligible machines, all together or none; or changes nothing and reports how many there were, or that a statement or the commit failed |
| `CreateHandler.Conclude` | src/api-go/internal/handlers/reservations/create.go:91-202 | After the reservation: inserts rows in id order, frees, or frees and charges, as the outcome demands, or leaves the machines held if that transaction fails; and the response |
| `CreateHandler.Create` | src/api-go/internal/handlers/reservations/create.go:25-203 | The response to a request in every case, in the columns: bad request exactly for a count or duration that is not positive, a blank password or a user name in the request; not enough, with the number of free ordinary machines that are up and out of quarantine; the playbook failure; and the expiry of a success. And the tables, for every validation, provisioning and transaction failure |
| `CreateHandler.ChoiceInColumns` | src/api-go/internal/handlers/reservations/create.go:55-61 | The machines a request takes are free, enabled, online, ordinary and out of quarantine; every such machine left out has failed more often, or as often and has a larger id |
| `CreateHandler.RowsInColumns` | src/api-go/internal/handlers/reservations/create.go:179-191 | A request that goes through adds exactly count rows, with the user, the expiry minutes after the request, the stored hash, no replacement, and ids that follow each other; all other rows stay |
| `CreateHandler.NoRowsInColumns` | src/api-go/internal/handlers/reservations/create.go:98-177 | Any other ending adds no row |
| `CreateHandler.MachinesInColumns` | src/api-go/internal/handlers/reservations/create.go:74-177 | Every column of every machine after a request, for each ending; after a failed playbook the fail count is one more and the quarantine min(60, 5(f+2)) minutes for a machine that had failed f times |
| `CreateHandler.FailureRestores` | src/api-go/internal/handlers/reservations/create.go:98-177 | From tables whose free machines carry no owner (part of the invariant), a failed request restores the tables if and only if undoing its reservation goes through and no playbook failed; a failed playbook raises the fail count of exactly the chosen machines by one and quarantines them; a failed undo leaves exactly them held |
| `Requests.HeldUntilEnd` | src/api-go/internal/handlers/reservations/create.go:86-191 | In every run without stale releases: from its reserve transaction to its ending a request holds exactly the machines it took, and their fail counts and quarantines stay, whatever other steps run |
| `Requests.AllOrNothing` | src/api-go/internal/handlers/reservations/create.go:51-191 | So in every such run the ending adds exactly count rows on the machines chosen, with the expiry fixed, when they were chosen; or frees exactly them, with their backoff restored, or charged by one failure; and changes nothing else |
| `Requests.TakenInColumns` | src/api-go/internal/handlers/reservations/create.go:55-81 | What a request takes in a run, in the columns of the state in which it reserves: count free ordinary machines that are up and out of quarantine, those that failed least often, then with the smallest ids |
| `CreateHandler.SuccessReserves` | src/api-go/internal/handlers/reservations/create.go:55-191 | Success adds exactly count rows with one expiry, one per chosen machine, and changes no other machine |
| `Tables.InsertRowsContent` | src/api-go/internal/handlers/reservations/create.go:179-183 | The insert loop adds one primary row per machine with consecutive fresh ids and leaves all other rows |
| `Selection.TakeIsTake` | src/api-go/internal/handlers/reservations/create.go:55-61 | ORDER BY reserve_fail_count, id LIMIT n takes as many machines as it can, none of them behind one left out |
| `Selection.TakeUnique` | src/api-go/internal/handlers/reservations/create.go:55-61 | That property determines the set taken |
| `Selection.TakenInColumns` | src/api-go/internal/handlers/reservations/create.go:55-61 | A list in that order, by fail count and then id: no machine listed comes behind one listed later or left out, in either direction |
| `DeleteHandler.Delete` | src/api-go/internal/handlers/reservations/delete.go:20-99 | Not found exactly without the row or its machine; forbidden, with nothing changed, exactly for a caller who is no admin and not the row's user; otherwise the row is deleted and exactly its machine freed |
| `DeleteHandler.DeleteFreesOwnMachine` | src/api-go/internal/handlers/reservations/delete.go:92-96 | An undisturbed Delete removes one row, frees exactly its machine, and keeps every other owner |
| `ListHandler.List` | src/api-go/internal/handlers/reservations/list.go:29-79 | Newest first and none missing: an admin gets every row with a machine, anybody else exactly his own rows on enabled machines that are ordinary or serve as a replacement; with the exact seconds left, never below zero |
| `ListHandler.ShownInColumns` | src/api-go/internal/handlers/reservations/list.go:29-36 | Both WHERE clauses, with and without the admin's exception |
| `ListHandler.LiveEntriesAreSeen` | src/api-go/internal/handlers/reservations/list.go:33-53 | A non-admin's entries with time left are exactly the rows counted as seen |
| `Storage.Database.SelectOne` | src/scheduler-go/internal/reconcile/reconcile.go:297-303 | ORDER BY reserve_fail_count, id LIMIT 1, in either direction: no machine of the pool has failed less often, or as often with a smaller id |
| `Storage.Database.Select` | src/api-go/internal/handlers/reservations/create.go:55-61 | ORDER BY reserve_fail_count, id LIMIT n, in either direction: as many as the limit allows, each no later by fail count and id than those listed after it and those left out |
| `Storage.Database.LoadExpired` | src/scheduler-go/internal/db/db.go:42-57 | Exactly the rows with reserved_until at or before now whose machine is enabled, each once, by id, with user, machine and machine name |
| `Storage.Database.LoadExpiredForMachine` | src/scheduler-go/internal/db/db.go:117-133 | The same for one machine |
| `Storage.Database.ClearReservationsAndRelease` | src/scheduler-go/internal/db/db.go:59-80 | Frees the machines and deletes the rows of the pairs, without looking at what they hold now |
| `Tables.PairsInColumns` | src/scheduler-go/internal/db/db.go:59-80 | For any list of pairs: exactly the rows named go and exactly the machines named are freed, whatever they hold |
| `Storage.Database.TouchMachineLastSeen` | src/scheduler-go/internal/db/db.go:104-107 | Sets last_seen_at of one machine and nothing else |
| `Storage.Database.SetMachineEnabled` | src/scheduler-go/internal/db/db.go:110-113 | Sets enabled of one machine and nothing else |
| `Storage.Database.EnableIfDisabled` | src/scheduler-go/internal/db/db.go:136-146 | Enables the machine and reports whether a row changed |
| `Storage.Database.HoldAll` | src/api-go/internal/handlers/reservations/create.go:74-81 | Marks exactly the listed machines that are not reserved with user and expiry; no other column and no other machine changes |
| `Storage.Database.ChargeAll` | src/api-go/internal/handlers/reservations/create.go:166-173 | Frees the listed machines, raises each fail count by one and sets the quarantine from the raised count, which is the SET list evaluated left to right |
| `Storage.Database.InsertAll` | src/api-go/internal/handlers/reservations/create.go:180-183 | Inserts the rows in the given order |
| `Cleanup.GroupByUser` | src/scheduler-go/internal/cleanup/cleanup.go:36-40 | Groups the loaded rows by user, keeping their order |
| `Cleanup.ApplyHost` | src/scheduler-go/internal/cleanup/cleanup.go:64-75 | Success clears the row and frees its machine, unless the clearing transaction fails, which changes nothing and ends the run; anything else disables the machine, unless that update fails, which is ignored |
| `Cleanup.ApplyChunk` | src/scheduler-go/internal/cleanup/cleanup.go:63-75 | The tables after a chunk, up to the first failing transaction, depend only on which rows were handled; the count is the number of rows cleared |
| `Cleanup.CleanUser` | src/scheduler-go/internal/cleanup/cleanup.go:43-76 | One user's rows in chunks of at most the batch size, in order and without loss, until done, interrupted or stuck |
| `Cleanup.CleanGroups` | src/scheduler-go/internal/cleanup/cleanup.go:42-77 | The loop over users in an arbitrary order |
| `Cleanup.RunOnce` | src/scheduler-go/internal/cleanup/cleanup.go:23-80 | For any user order and positive batch size, and however the run ends: the chunks partition the handled rows, each chunk has one user, the count is the number of rows removed, and the tables depend only on the rows handled; these are rows with reserved_until at or before now on enabled machines, and all of them if the run ends without error |
| `Cleanup.HandledInColumns` | src/scheduler-go/internal/cleanup/cleanup.go:63-75 | However a cleanup ends, for every row and its machine in the columns: a handled row goes and its machine is freed if its delete was reported ok, and the machine is disabled otherwise, unless that update fails; nothing else changes |
| `Cleanup.RowsLeft` | src/scheduler-go/internal/cleanup/cleanup.go:72-79 | The count returned is the number of rows that are gone |
| `Cleanup.CleanedInColumns` | src/scheduler-go/internal/cleanup/cleanup.go:42-77 | An uninterrupted cleanup, for every row and its machine in the columns: the row goes and the machine is freed if its time was up, its machine enabled and its delete reported ok; the machine is disabled if only the last was missing and that update goes through; otherwise nothing changes |
| `Cleanup.CleanedKeepsOwnership` | src/scheduler-go/internal/cleanup/cleanup.go:63-75 | A cleanup removes exactly the rows it could delete, frees exactly their machines, disables those it could not unless that update fails, changes no other machine, and keeps the ownership invariant |
| `Health.OpportunisticCleanup` | src/scheduler-go/internal/health/health.go:187-209 | Removes exactly the rows of the machine with reserved_until at or before now whose delete goes through |
| `Health.CheckMachine` | src/scheduler-go/internal/health/health.go:87-121 | One iteration of a worker: the tables and the counters |
| `Health.RunOnce` | src/scheduler-go/internal/health/health.go:50-148 | The pass with one worker ends with the sequential result, and counts exactly: all machines, those that answer, those that do not, those enabled that do not, and those disabled that do |
| `HealthPass.CheckedMachineInColumns` | src/scheduler-go/internal/health/health.go:93-119 | Every column of a machine after the pass: a silent one is disabled; one that answers is enabled and last seen now; and it is freed if it was disabled and had a row whose time was up and whose delete goes through |
| `HealthPass.CheckedRowInColumns` | src/scheduler-go/internal/health/health.go:187-209 | A row goes in the pass if and only if its time was up, its delete goes through, and its machine was disabled and answers; rows are not edited |
| `Health.DrainsExpired` | src/scheduler-go/internal/cleanup/cleanup.go:64-75 | After cleanup and health a row with reserved_until at or before now is still there if and only if neither its batch delete nor its delete on re-enabling succeeded; the second is only tried if the machine was down or could be disabled for the first |
| `Health.CheckedKeepsRows` | src/scheduler-go/internal/health/health.go:187-209 | The health pass keeps the ownership invariant |
| `PoolAccounting.StatsAddUp` | src/scheduler-go/internal/health/health.go:85-146 | Whenever the pool has finished, cancelled or not and whatever statements fail: total = reachable + unreachable, disabled <= unreachable, re-enabled <= reachable |
| `PoolAccounting.SchedulesEnd` | src/scheduler-go/internal/health/health.go:85-140 | No schedule goes on for ever: an explicit bound on the number of actions |
| `PoolAccounting.StuckIffFinishedOrJammed` | src/scheduler-go/internal/health/health.go:124-140 | A pool that can do nothing has finished, or its feeder waits for workers that all left; and conversely |
| `PoolAccounting.ProgressOrJam` | src/scheduler-go/internal/health/health.go:87-140 | A schedule that can go no further has not finished if and only if one of its cancellations came at a committed moment: the feeder about to send, and every worker holding a machine it has not looked at yet |
| `PoolAccounting.CancellationJamsIff` | src/scheduler-go/internal/health/health.go:87-140 | The same for one cancellation: it leaves the pool hanging if and only if the pool is committed when it comes |
| `PoolAccounting.CancellationCanJam` | src/scheduler-go/internal/health/health.go:87-138 | A concrete schedule in which a cancellation leaves the feeder blocked |
| `PoolAccounting.CancellationWindsDown` | src/scheduler-go/internal/health/health.go:87-205 | From any moment after a cancellation on: no machine is counted any more, no expired rows are loaded, at most the machine the feeder is committed to is sent, and a row is removed or a machine probed only where a worker was already about it; the other pending rows stay |
| `PoolRefinement.EffectRefines` | src/scheduler-go/internal/health/health.go:93-119 | When every statement goes through: one worker action keeps the description of its machine and touches no other machine or row |
| `PoolRefinement.ScheduleRefines` | src/scheduler-go/internal/health/health.go:85-140 | When every statement goes through: that description holds for all machines after every uncancelled prefix of every schedule |
| `PoolRefinement.PoolRefinesSequentialPass` | src/scheduler-go/internal/health/health.go:85-146 | When every statement goes through and without cancellation: every maximal schedule, for any number of workers, finishes, has probed each machine exactly once, left the tables of the sequential pass, with a machine enabled if and only if it answered, and counted exactly |
| `Reconcile.TargetRoundsDown` | src/scheduler-go/internal/reconcile/reconcile.go:477-478 | The target d of n machines up satisfies 100 d <= n percent < 100 (d + 1) |
| `Reconcile.PromotionBound` | src/scheduler-go/internal/reconcile/reconcile.go:490-502 | Too few free spares: exactly min(desired, free + promotable) afterwards, by promoting the least failing machines |
| `Reconcile.DemotionBound` | src/scheduler-go/internal/reconcile/reconcile.go:525-560 | Too many: exactly free - desired idle spares are demoted, most failing first; desired <= free spares afterwards <= before; the target is met if and only if the machines the query takes are all free spares |
| `Reconcile.DemotionCanMissTarget` | src/scheduler-go/internal/reconcile/reconcile.go:530-535 | A concrete fleet on which a demotion leaves the number of free spares unchanged |
| `Reconcile.ResizeFlags` | src/scheduler-go/internal/reconcile/reconcile.go:458-461 | Resizing changes no reserved machine, no row, no enabled flag and not the number of enabled and online machines |
| `Reconcile.ReleaseStage` | src/scheduler-go/internal/reconcile/reconcile.go:81-181 | The release stage removes exactly the releasable replacements and frees exactly their machines, in any order, and leaves nothing to release and every need as it was |
| `Reconcile.GrantMeetsNeed` | src/scheduler-go/internal/reconcile/reconcile.go:262-355 | A granted allocation removes exactly one need and uses exactly one spare |
| `Reconcile.AllocateAllEffect` | src/scheduler-go/internal/reconcile/reconcile.go:232-244 | Whatever fails, the loop adds rows with fresh ids only from the listed needs on machines that were free spares, never adds a need, and takes exactly one spare for each need it meets |
| `Reconcile.GreedyAllocation` | src/scheduler-go/internal/reconcile/reconcile.go:232-244 | When every playbook succeeds, n needs and s free spares leave exactly max(0, n-s) needs and max(0, s-n) spares, for any order |
| `Reconciler.PromoteAll` | src/scheduler-go/internal/reconcile/reconcile.go:514-518 | Raises the spare flag of exactly the listed machines that are still enabled, online and free; nothing else changes |
| `Reconciler.DemoteAll` | src/scheduler-go/internal/reconcile/reconcile.go:549-553 | Lowers the spare flag of exactly the listed machines that are still free; nothing else changes |
| `Reconciler.EnforceSparePool` | src/scheduler-go/internal/reconcile/reconcile.go:461-563 | Computes the resizing described above |
| `Reconciler.ReleaseOneTx` | src/scheduler-go/internal/reconcile/reconcile.go:141-181 | Releases exactly an active replacement whose primary machine is enabled when it looks again; then that row goes and the machine it was told is freed, and nothing else changes |
| `Reconciler.ReleaseReplacements` | src/scheduler-go/internal/reconcile/reconcile.go:77-187 | The rows listed are exactly the active replacements whose primary machine is enabled and whose user still has an active row on it; undisturbed the loop releases each of them, for any order |
| `Reconciler.AllocateTx` | src/scheduler-go/internal/reconcile/reconcile.go:250-375 | Exactly when each of the six outcomes is reported; a success holds one spare for the user until the expiry of the need and inserts one row with its user, expiry, hash and primary machine; every other outcome leaves the tables as they were |
| `Reconciler.AllocateNeeded` | src/scheduler-go/internal/reconcile/reconcile.go:192-248 | The rows listed are exactly the active primaries on disabled machines whose user has no active replacement for that machine; the loop is the allocation stage, and undisturbed its count of successes is the number of needs met |
| `Reconciler.RunOnce` | src/scheduler-go/internal/reconcile/reconcile.go:39-60 | One call is one pass: resize, release, allocate |
| `Replacement.ReleasableInColumns` | src/scheduler-go/internal/reconcile/reconcile.go:81-99 | The release query in columns, with its join on a live row of the same user on the primary machine |
| `Replacement.NeedInColumns` | src/scheduler-go/internal/reconcile/reconcile.go:204-220 | The needs query in columns |
| `Replacement.StillNeededInColumns` | src/scheduler-go/internal/reconcile/reconcile.go:262-295 | The recheck of an allocation in columns |
| `PassColumns.PassRowsInColumns` | src/scheduler-go/internal/reconcile/reconcile.go:39-187 | For every row before any pass, whatever fails in it: the row is gone afterwards if and only if it was an active replacement of an enabled machine on which its user had an active row; an active replacement whose primary row is gone or ran out stays; rows are not edited |
| `PassColumns.PassNewRowsInColumns` | src/scheduler-go/internal/reconcile/reconcile.go:192-355 | Every row a pass adds copies user, expiry and hash of an active primary row on a disabled machine for which there was no active replacement, and its machine is an enabled, online spare held for that user until then |
| `PassColumns.NoResizeInColumns` | src/scheduler-go/internal/reconcile/reconcile.go:461-482 | No percentage, no machine up, or exactly the target free: resizing changes nothing |
| `PassColumns.PromotionInColumns` | src/scheduler-go/internal/reconcile/reconcile.go:484-518 | Below the target: as many free ordinary machines that are up as are missing, or all of them, become spares, those that failed least often and then with the smallest ids; no other machine or column changes |
| `PassColumns.DemotionInColumns` | src/scheduler-go/internal/reconcile/reconcile.go:525-560 | Above it: exactly the excess of unreserved spares, up or not, become ordinary machines, those that failed most often and then with the largest ids; no other machine or column changes |
| `PassColumns.PickedInColumns` | src/scheduler-go/internal/reconcile/reconcile.go:297-303 | The spare of an allocation is free, enabled and online, has failed least often of those, and among equals has the smallest id |
| `Convergence.PassEffect` | src/scheduler-go/internal/reconcile/reconcile.go:39-60 | What a whole pass does, stage by stage, and that it keeps the ownership invariant |
| `Convergence.PassLowersPotential` | src/scheduler-go/internal/reconcile/reconcile.go:39-60 | Every pass that changes anything lowers a natural number, whatever fails in it |
| `Convergence.PassesConverge` | src/scheduler-go/internal/reconcile/reconcile.go:39-60 | So at most that many passes change anything |
| `Convergence.FixedIffQuiescent` | src/scheduler-go/internal/reconcile/reconcile.go:39-60 | A pass whose playbooks succeed changes nothing if and only if the pool is settled, nothing is to be released, and no need could be met |
| `Convergence.PassesSettle` | src/scheduler-go/internal/reconcile/reconcile.go:39-60 | Such passes reach that state within the bound and stay in it |
| `Convergence.PassBalance` | src/scheduler-go/internal/reconcile/reconcile.go:39-60 | Free spares after a pass = those the resize leaves + those the releases bring back - needs met, whatever fails |
| `Convergence.PassMeets` | src/scheduler-go/internal/reconcile/reconcile.go:39-60 | When every playbook succeeds the pass meets as many needs as it has spares for |
| `Convergence.StaysBelowTarget` | src/scheduler-go/internal/reconcile/reconcile.go:477-560 | After a pass that had to promote, no pass demotes while nothing is releasable |
| `Oscillation.NoOscillation` | src/scheduler-go/internal/reconcile/reconcile.go:477-560 | From tables without orphans and whatever playbooks fail: from the second pass on, no pass demotes after one that promoted |
| `Oscillation.NoRebound` | src/scheduler-go/internal/reconcile/reconcile.go:477-560 | From tables without orphans, from the second pass on: none promotes after one that did not have to, as long as no playbook fails from the pass before that one on |
| `Oscillation.OscillatesIff` | src/scheduler-go/internal/reconcile/reconcile.go:39-60 | Over a whole trace, whatever playbooks fail: some pass demotes after another one promoted if and only if the first pass promotes and the spares it leaves and brings back exceed the target by more than the needs it met |
| `Oscillation.WellOscillatesIff` | src/scheduler-go/internal/reconcile/reconcile.go:39-60 | The same on the tables before the first pass, when no playbook fails |
| `Oscillation.PromotesAfter` | src/scheduler-go/internal/reconcile/reconcile.go:39-60 | For any two passes, whatever playbooks fail: the second promotes if and only if the first one dips, i.e. meets so many needs that it ends below the target, with a machine left to promote |
| `Oscillation.ReboundsIff` | src/scheduler-go/internal/reconcile/reconcile.go:39-60 | The other direction over a whole trace, whatever playbooks fail and orphans or not: some pass promotes after another one demoted if and only if that one or a later pass dips |
| `Oscillation.WellReboundsIff` | src/scheduler-go/internal/reconcile/reconcile.go:39-60 | When no playbook fails and there are no orphans: if and only if the first pass demotes and dips, on the tables before it |
| `Oscillation.LateRebound` | src/scheduler-go/internal/reconcile/reconcile.go:42-57 | A concrete fleet on which a playbook fails in the first pass, the second demotes and the third promotes |
| `Oscillation.WellOscillatesInNumbers` | src/scheduler-go/internal/reconcile/reconcile.go:467-560 | The condition of WellOscillatesIff in counts of machines and rows before the first pass |
| `Convergence.SupplyInNumbers` | src/scheduler-go/internal/reconcile/reconcile.go:467-560 | The free spares a pass has for its needs, in such counts |
| `Oscillation.PromoteThenDemote` | src/scheduler-go/internal/reconcile/reconcile.go:39-60 | For two passes and without any hypothesis on orphans: when the second undoes the promotion of the first |
| `Oscillation.PromotionIsUndone` | src/scheduler-go/internal/reconcile/reconcile.go:42-52 | A concrete fleet on which the first pass promotes a machine and then releases a spare, and the second demotes one |
| `Oscillation.DemotionIsUndone` | src/scheduler-go/internal/reconcile/reconcile.go:42-57 | A concrete fleet on which the first pass demotes a spare and then gives the other one away, and the second promotes one |
| `Visibility.SeenPlusUnserved` | src/api-go/internal/handlers/reservations/list.go:33-36 | Without orphans and with nothing to release: rows seen plus primaries without a working machine equals active primaries |
| `Visibility.PassServesAll` | src/scheduler-go/internal/reconcile/reconcile.go:204-244 | A quiet pass with enough spares, successful playbooks and stand-ins that are up leaves nobody unserved |
| `Visibility.PassSettlesReplacements` | src/scheduler-go/internal/reconcile/reconcile.go:81-220 | A pass orphans no replacement, leaves nothing to release, and keeps every active primary |
| `Visibility.FullCountExactly` | README.md:216-218 | On the tables before the pass, when every playbook succeeds and there are no orphans: all users see as many unexpired rows as they have active primary reservations if and only if every replacement of a machine that is down runs on a machine that is up, and the free spares of the pass suffice for the needs |
| `Visibility.FullCountAnyOutcome` | README.md:216-218 | Whatever playbooks fail: if and only if those replacements were up before the pass and the pass met every need |
| `Visibility.FullRequestedCount` | README.md:216-218 | In particular enough spares and working replacements give every user his full count, written out: the rows his listing shows that have not run out are as many as his primary reservations that had not |
| `Visibility.StandInDownIsNotReplaced` | src/scheduler-go/internal/reconcile/reconcile.go:204-220 | A concrete fleet, with a free spare and no failing playbook, on which the count is not full after the pass: the replacement itself is down and the needs query skips its primary |
| `Visibility.AllServed` | src/scheduler-go/internal/reconcile/reconcile.go:204-220 | Nobody is unserved if and only if no need is left and every replacement of a machine that is down is up |
| `Visibility.CountOfUser` | README.md:216-218 | After any pass, per user: the count is full if and only if none of his primaries is unserved |
| `Locks.Acquire` | src/scheduler-go/internal/lock/lock.go:16-42 | A lock is granted if and only if no error occurs and no other connection holds the name |
| `Locks.Advisory.Release` | src/scheduler-go/internal/lock/lock.go:44-52 | Frees the name if this lock holds it, and changes no other lock |
| `Locks.SchedulersAreSerialised` | src/scheduler-go/main.go:46-105 | For any number of scheduler processes, crashes and even equal lock names: at most one is inside the closure, and when none is, no lock is left held |
| `Locks.FleetFollowsPhases` | src/scheduler-go/main.go:46-105 | All processes together move through the phases of the one scheduler of the protocol |
| `Scheduler.Run` | src/scheduler-go/main.go:46-105 | Which passes run, in which order, what they leave in the tables, that a run which did not get the outer lock changes nothing and a failed cleanup ends the run, and that every granted lock is released on every path |
| `Scheduler.RunKeepsOwnership` | src/scheduler-go/main.go:46-105 | An undisturbed run keeps the ownership invariant, however far it gets |
| `Scheduler.RunDrainsExpiry` | src/scheduler-go/main.go:55-104 | A whole run drains expiry: a row with reserved_until at or before now survives if and only if neither delete succeeded, with the same proviso |
| `Scheduler.RunReleasesRecovered` | src/scheduler-go/main.go:55-104 | The passes build on each other: an active replacement goes in the very run in which the machine of its user's active row answers again |
| `Scheduler.RunEndsChecked` | src/scheduler-go/main.go:55-104 | After a run with a health pass a machine is enabled if and only if it answered |
| `Refinement.CreateIsProtocol` | src/api-go/internal/handlers/reservations/create.go:51-191 | The tables Create leaves are those of a sequence of safe protocol steps: its two transactions with any time in between; one that cannot undo its reservation is a Create that never ends |
| `Refinement.DeleteIsProtocol` | src/api-go/internal/handlers/reservations/delete.go:37-96 | The same for Delete |
| `Refinement.CleanupIsProtocol` | src/scheduler-go/internal/cleanup/cleanup.go:63-75 | The same for a cleanup, for any order of the rows |
| `Refinement.HealthIsProtocol` | src/scheduler-go/internal/health/health.go:87-121 | The same for the sequential health pass |
| `Refinement.WorkerActsByProtocol` | src/scheduler-go/internal/health/health.go:87-121 | Each action of a concurrent pool worker leaves the tables alone or is one protocol step |
| `Interleaving.JointRunIsRun` | src/scheduler-go/internal/health/health.go:85-140 | Any interleaving of the pool, cancelled or not and whatever statements fail, with API steps and clock ticks continues a run of the protocol, and a safe one if no release in it is stale; so the run theorems cover the pool with the API beside it |
| `Interleaving.PoolBesideApiIsExclusive` | src/scheduler-go/internal/health/health.go:85-140 | In particular ownership stays exclusive |
| `Refinement.PassIsProtocol` | src/scheduler-go/internal/reconcile/reconcile.go:39-60 | The same for a reconcile pass, for any order and any failures |
| `Refinement.SchedulerIsProtocol` | src/scheduler-go/main.go:46-105 | An undisturbed scheduler run, however far it gets, is a sequence of safe protocol steps between idle states, so it keeps the full invariant |

## Left out

- Cleanup.RunOnce: requires a batch size of at least one, because with zero the loop at cleanup.go:45 never advances and a negative one slices out of range.
- Cleanup.CleanUser: an inventory that cannot be written and a cancellation are one input, `interrupted`, since both end the run before the chunk; a failing query at the start is the same input.
- Storage.Database.ClearReservationsAndRelease: a transaction that fails and rolls back is not a call of this method but an input of its callers.
- Storage.Database.LoadExpired: lists rows by id; the ORDER BY username before it is not modelled, because grouping by user hides it.
- Storage.Database.LoadExpiredForMachine: lists rows by id, not by username first.
- Health.DrainsExpired: the health pass it refers to has no failing statement and no cancellation.
- Health.RunOnce: requires that every row names a registered machine, as the foreign key demands; one worker, no cancellation and no failing statement, all of which the pool models.
- Health.CheckMachine: the statements on the machine go through; the pool models failing ones.
- Health.OpportunisticCleanup: no cancellation between rows, which the pool models; a playbook and a clearing transaction that fail are one input, since both leave the row.
- PoolRefinement.PoolRefinesSequentialPass: for a pool whose statements all go through and no other writer beside it; with failing statements the counters (`PoolAccounting.StatsAddUp`), and beside the API the run theorems (`Interleaving.JointRunIsRun`), still hold.
- Reconciler.ReleaseReplacements: cancellation between two transactions and failing statements; the protocol covers every prefix of the loop.
- Reconciler.AllocateNeeded: cancellation between two transactions; the protocol covers every prefix of the loop.
- Reconciler.RunOnce: cancellation between two transactions and failing queries are not modelled here; the protocol covers every prefix of a pass.
- Reconciler.AllocateTx: the rollback is a copy of the fields restored.
- Scheduler.Run: the clock stands still during the run, and the endless ticker loop around it is left out. When the context is cancelled the closure goes on to the later passes, which return at once; here the run ends there, with the same tables.
- CreateHandler.Create: the clock of the application and of the database are one; a hash is never blank but non-empty; a commit that fails has rolled back.
- ListHandler.List: the joined machine columns of an entry and the admin-only columns; times are whole seconds.
- Locks.Acquire: waiting for the lock up to its timeout, a reply that is lost after the lock was granted, and the reuse of pooled connections.
- Locks.Advisory.Release: a RELEASE_LOCK that fails, after which the pooled connection would keep the lock.
- User administration: deleting a user cascades rows away without clearing machine columns, which breaks conservation; the user set is fixed.
- Admin update and delete of machines: an update can flip the spare flag of a reserved machine, and a delete checks and deletes in two statements.
- `LoadNeedsReplacement`, `AllocateReplacement` and `ReleaseReplacement` in src/scheduler-go/internal/db/db.go: near duplicates of the reconciler's own queries and transactions, which are the ones modelled.
- Process crashes, panics, commits with an unknown outcome, and isolation anomalies inside one transaction.
- HTTP binding and responses, authentication, password hashing, inventories, recap parsing, logging, configuration and deployment files.
