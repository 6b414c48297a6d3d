# Verified model of the restaurant waiting line

This project models the queue service's waiting line as a stored state machine and proves what its
steps keep. The state is the queue table, the audit history, the table assignments and the live
cache. The steps are: register, ring, seat, assign tables, skip (drop), skip (shift by k places),
cancel or no-show. Registering, and every step that ends in a recalculation, stores positions,
estimates and cached copies incrementally; the theorems say when and how far these redundant copies
of one fact, the order of the line, agree.

`dafny verify dfyconfig.toml` checks everything.

## How it is built

| Module | Content |
|---|---|
| `QueueTypes`, `QueueEntity` | records, errors, and the `QueueEntry` class with its lifecycle methods |
| `QueueLine`, `QueueStore` | row queries, sorting, the waiting line of a restaurant as a list of slots (row numbers), the stored state |
| `Renumbering`, `Reordering`, `Recalculation` | what a recalculation and a written-back order do to rows and cache |
| `SeatPlans`, `DisplayNumbers` | seat distribution loops; display numbers and how to read them back |
| `QueueSteps`, `StepEffects` | the use cases as transitions of the store, runs (`History`), and the row-level effect of a call |
| `QueueRepository`, `QueuePositionRecalculator`, `QueueUseCases` | the classes: tables, cache, the delta-writing recalculator, and one method per use case, each proved equal to its transition |
| `CallOutcomes`, `RegistrationOutcomes` | call by call, in terms of requests and fields alone: when it succeeds, which error it ends in, what it stores and replies |
| `Provenance` | over every run: each row, record, ring and table assignment tells the call it comes from |
| `RowLifecycle`, `StoreInvariants`, `Retrospective` | rows, audit history, tables and the retrospective query over every run |
| `LineOrder`, `ExactLines`, `Shifting` | what each call does to the order of a line, and when its positions and estimates are exact; shifts as clamped moves |
| `LineSlack`, `StoredPlaces`, `QueueRefinement` | the gaps that assigning tables leaves; how far stored positions can be from true places; the stored line as a queue |
| `MovingUp`, `Departures`, `FallingEstimates` | over every run: whose position and whose estimate can rise |
| `CacheAgreement`, `StaffView`, `DailyNumbers`, `Uniqueness` | live cache, the staff's view, daily numbers, interleaved registrations |
| `Divergences` | runs, call by call, after which line, staff's view and cache differ, or a newcomer has overtaken |

A run starts from empty tables and consists of well-formed calls at strictly increasing times.
`History` is the type of all such runs; theorems about "every run" take a `History` and a number of
calls. Slots never change, because rows are never deleted.

Three places where the copies part company are modelled as the code has them. For each, a lemma says
exactly when, and `Divergences` has a run that gets there:

- Assigning tables seats a party but does not renumber the rest. A newcomer then sorts last iff the
  line's slack is at most one (`LineSlack.NewcomerTakesSlack`), and overtakes otherwise
  (`Divergences.NewcomerGoesAhead`); whoever is overtaken may see its estimate rise
  (`Divergences.OvertakenWaitsLonger`).
- A shift writes positions before the recalculator compares them, so afterwards a copy is stale iff it
  did not show its party's new place while the row already had the estimate of that place
  (`CacheAgreement.StaleAfterShift`, `Divergences.ShiftPartsTheCopies`); it heals once a recalculation
  rewrites its row (`CacheAgreement.StaleAfterDeparture`).
- The staff's view is ordered by arrival, not by stored position. A call parts the two iff it shifts a
  party other than the last, or registers one where the slack exceeds one (`StaffView.ViewPartsIff`,
  `Divergences.ShiftPartsTheCopies`).

The comments above `findActiveEntries` and the code differ: the comments speak of WAITING or RINGING
entries sorted by arrival, the code selects WAITING rows by position and then by arrival. The model
follows the code.

## Assumptions

- Each use case is one atomic step with one timestamp; times strictly increase from call to call.
  `Uniqueness` drops this for registrations: there the checks and the transaction are separate steps,
  with any other steps, at any times, in between.
- `predictEta` is a fixed but arbitrary function of restaurant, people ahead and party size. Two sets
  of results assume more of it, and the deterministic fallback meets both
  (`Departures.FallbackIsMonotone`). That a wait does not grow assumes that, for one and the same party
  size, more people ahead never give a shorter estimate. That estimates rise along a line assumes that a
  party with strictly more people ahead never gets the shorter estimate, whatever the two sizes. The
  stale copies in `Divergences` use the fallback.
- The start of a day is an arbitrary function of an instant, except that `DailyNumbersDiffer` needs
  days not to begin after the instants in them.
- Cache operations succeed, and entries do not expire.
- The restaurant service's answers are arbitrary inputs; a failed call to it is one of them.
- The request validators' bounds hold: party sizes 1 to 20, at least one table and none twice,
  positive seat counts, a positive number of places for a shift, and the listed cancel reasons.

## Model

| member | source | states |
|---|---|---|
| QueueEntity.QueueEntry.Seat | src/domain/entities/queue-entry.entity.ts:230-238 | A waiting entry becomes SEATED with a seating time and no position; any other is refused and left as it was |
| QueueEntity.QueueEntry.Skip | src/domain/entities/queue-entry.entity.ts:240-247 | The same for SKIPPED |
| QueueEntity.QueueEntry.Cancel | src/domain/entities/queue-entry.entity.ts:249-257 | The same for CANCELLED and NO_SHOW, with a cancellation time |
| QueueEntity.QueueEntry.UpdatePosition | src/domain/entities/queue-entry.entity.ts:259-268 | A waiting entry takes the new position, and the new estimate if one is given; others are untouched |
| QueueEntity.QueueEntry.Ring | src/domain/entities/queue-entry.entity.ts:270-280 | Only waiting online entries can be rung; ringing counts and records the time |
| QueueEntity.WaitOfWaiting | src/domain/entities/queue-entry.entity.ts:291-308 | A waiting party has waited m minutes iff 60000 m milliseconds have passed since it joined, and not 60000 (m + 1) |
| QueueEntity.WaitOfDeparted | src/domain/entities/queue-entry.entity.ts:291-308 | The same for a party that has left, up to its seating or its last change |
| QueueEntity.DeadlineIsTwoMinutes | src/domain/entities/queue-entry.entity.ts:316-324 | The response deadline is 120000 milliseconds after the last ring, and there is none without a ring |
| QueueRepository.Repository.FindById | src/infrastructure/database/repositories/prisma-base.repository.ts:112-119 | A fresh copy of the row with that id, or nothing |
| QueueRepository.Repository.FindActiveEntries | src/infrastructure/database/repositories/prisma-queue.repository.ts:44-55 | The waiting rows of the restaurant in the order of the line |
| QueueRepository.Repository.CreateWithHistory | src/infrastructure/database/repositories/prisma-queue.repository.ts:299-347 | Both duplicate checks, then the row and its first audit record, or nothing at all; ids stay unique |
| QueueRepository.Repository.AssignTablesWithHistory | src/infrastructure/database/repositories/prisma-queue.repository.ts:349-389 | Adds the assignments, overwrites the row by id and appends one audit record |
| QueueRepository.Repository.UpdateStatusWithHistory | src/infrastructure/database/repositories/prisma-queue.repository.ts:391-419 | Overwrites the row by id and appends one audit record; assignments untouched |
| QueueRepository.Repository.ReleaseTableAssignments | src/infrastructure/database/repositories/prisma-queue.repository.ts:434-446 | Stamps the release time on the party's unreleased assignments only |
| QueueRepository.Repository.Save | src/infrastructure/database/repositories/prisma-base.repository.ts:172-183 | Inserts a new row, or overwrites all columns but the creation time |
| QueueRepository.Repository.BatchUpdatePositions | src/infrastructure/database/repositories/prisma-queue.repository.ts:448-469 | One update by id after the other; a missing estimate leaves the stored one |
| QueueRepository.LiveCache.SaveLiveEntry | src/infrastructure/redis/redis-queue-cache.service.ts:29-51 | Sets the live copy of one id and no other |
| QueueRepository.LiveCache.RemoveLiveEntry | src/infrastructure/redis/redis-queue-cache.service.ts:65-72 | Drops the live copy of one id and no other |
| QueuePositionRecalculator.Recalculator.Recalculate | src/infrastructure/services/queue-position-recalculator.service.ts:36-155 | The loops store exactly the specified recalculation in rows and cache, and report the ids of the dirty parties |
| QueuePositionRecalculator.Recalculator.PredictEtas | src/infrastructure/services/queue-position-recalculator.service.ts:43-58 | The running sum gives each party the prediction for the people ahead of it |
| QueuePositionRecalculator.Recalculator.CollectDeltas | src/infrastructure/services/queue-position-recalculator.service.ts:60-80 | One delta per party whose position or estimate differs, front to back |
| QueuePositionRecalculator.Recalculator.WriteDeltas | src/infrastructure/services/queue-position-recalculator.service.ts:86-105 | Writing the deltas to the rows by id and to the cache by key is the specified recalculation |
| Recalculation.DeltasAreFullRewrite | src/infrastructure/services/queue-position-recalculator.service.ts:60-92 | From any rows, gaps and ties included, writing the deltas stores what overwriting every party with its rank and prediction stores |
| Recalculation.RefreshKeepsLine | src/infrastructure/services/queue-position-recalculator.service.ts:36-92 | The order of the line survives a recalculation and its positions become 1..n |
| Recalculation.RefreshKeepsOtherLines | src/infrastructure/services/queue-position-recalculator.service.ts:36-92 | The lines of other restaurants keep their order and their rows |
| Recalculation.ReportIsExact | src/infrastructure/services/queue-position-recalculator.service.ts:151-154 | The reported ids are exactly those of the rows that changed, each once, in the order of the line |
| Recalculation.RefreshIsIdempotent | src/infrastructure/services/queue-position-recalculator.service.ts:82-84 | A second recalculation at any time reports nothing and changes nothing, in rows or live cache |
| SeatPlans.PlanSeats | src/application/use-cases/queue/seat-party.use-case.ts:41-51 | The remainder loop gives table i max(1, (p + t - 1 - i) div t) seats |
| SeatPlans.PlanRelease | src/application/use-cases/queue/cancel-queue-entry.use-case.ts:47-60 | The release loop computes the same counts |
| SeatPlans.SeatPlanIsFair | src/application/use-cases/queue/seat-party.use-case.ts:41-51 | The counts add up to max(p, t), are at least one, never rise along the tables, and differ by at most one |
| SeatPlans.ReleaseMatchesSeating | src/application/use-cases/queue/cancel-queue-entry.use-case.ts:47-60 | For as many tables, releasing gives back as many seats as seating took, table by table |
| QueueUseCases.UseCases.RegisterQueue | src/application/use-cases/register-queue.use-case.ts:52-172 | Reply and stored state are those of the registration transition, errors included; like every use case here, a failing call leaves rows, history, assignments and cache as they were |
| QueueUseCases.UseCases.CheckRegistration | src/application/use-cases/register-queue.use-case.ts:64-92 | The checks made before the transaction, in the order of the code, are those of the preparation step |
| QueueUseCases.UseCases.RingCustomer | src/application/use-cases/ring-customer.use-case.ts:32-103 | Stored state, ring count and ring time are those of the ring transition |
| QueueUseCases.UseCases.SeatParty | src/application/use-cases/queue/seat-party.use-case.ts:30-94 | Reply and stored state are those of the seat transition; a failed upstream call leaves everything stored as it was, although the entity was mutated |
| QueueUseCases.UseCases.AssignTables | src/application/use-cases/assign-table.use-case.ts:38-124 | Reply and stored state are those of the assign transition, which does not renumber |
| QueueUseCases.UseCases.SkipParty | src/application/use-cases/queue/skip-party.use-case.ts:32-140 | Reply and stored state are those of the skip transition, both branches |
| QueueUseCases.UseCases.ShiftParty | src/application/use-cases/queue/skip-party.use-case.ts:46-98 | The two splices, the batch write, the status write and the recalculation together are the specified shift |
| QueueUseCases.UseCases.StoreShift | src/application/use-cases/queue/skip-party.use-case.ts:55-68 | From the reordered ids, the batch write and the status write store the shifted order and one audit record |
| QueueUseCases.UseCases.RecordDeparture | src/application/use-cases/queue/skip-party.use-case.ts:104-112 | Status write, removal of the live copy and recalculation together are the departure of that row and a recalculation; cancelling ends the same way |
| QueueUseCases.UseCases.SpliceBack | src/application/use-cases/queue/skip-party.use-case.ts:51-53 | Two splices move one element back, clamped at the end |
| QueueUseCases.UseCases.CancelQueueEntry | src/application/use-cases/queue/cancel-queue-entry.use-case.ts:30-114 | Reply and stored state are those of the cancel transition |
| QueueUseCases.UseCases.ReleaseHeldTables | src/application/use-cases/queue/cancel-queue-entry.use-case.ts:44-64 | Held tables are released with the specified counts, unless the upstream call fails |
| QueueUseCases.UseCases.GetQueueEta | src/application/use-cases/get-queue-eta.use-case.ts:24-66 | The depth is the length of the line; the minutes are zero for an empty line with a free table, else the prediction for all the people in the line |
| StepEffects.FailedCallsStutter | src/application/use-cases/queue/seat-party.use-case.ts:38-60 | A call that ends in a domain or upstream error leaves rows, history, assignments and cache as they were |
| CallOutcomes.UnknownPartyIsRefused | src/application/use-cases/queue/seat-party.use-case.ts:33-36 | A call that names no row of the caller's restaurant ends in QueueEntryNotFound and stores nothing |
| CallOutcomes.RingOutcome | src/application/use-cases/ring-customer.use-case.ts:32-42 | A ring succeeds iff the party waits and joined online; it stores one more ring and the time, replies both, and changes nothing else; the two refusals come in that order |
| CallOutcomes.SeatSucceedsIff | src/application/use-cases/queue/seat-party.use-case.ts:33-53 | Seating succeeds iff the party waits and the restaurant service took the tables; otherwise the error is the one of the first check that fails, and nothing is stored |
| CallOutcomes.SeatStores | src/application/use-cases/queue/seat-party.use-case.ts:55-66 | A seating stores the status, time and missing position, one assignment per table in the order of the call, one record with staff and time, and drops the live copy |
| CallOutcomes.SeatReplies | src/application/use-cases/queue/seat-party.use-case.ts:41-51 | Its counts add up to max(party size, number of tables), table by table in the order of the call, as equal as can be |
| CallOutcomes.AssignSucceedsIff | src/application/use-cases/assign-table.use-case.ts:41-75 | Assigning succeeds iff the seats named suffice, the party waits and the service took the tables; too few seats is the first error, whatever the status |
| CallOutcomes.AssignStores | src/application/use-cases/assign-table.use-case.ts:64-84 | What an assignment stores, fields of row, record, tables and cache; all other rows stay |
| CallOutcomes.SkipSucceedsIff | src/application/use-cases/queue/skip-party.use-case.ts:32-42 | Skipping succeeds iff the party waits, whether it is dropped or shifted |
| CallOutcomes.DropStores | src/application/use-cases/queue/skip-party.use-case.ts:102-112 | What a drop stores and replies |
| CallOutcomes.ShiftStores | src/application/use-cases/queue/skip-party.use-case.ts:63-68 | A shift writes one record from WAITING to WAITING with staff and time, and touches no assignment |
| CallOutcomes.CancelSucceedsIff | src/application/use-cases/queue/cancel-queue-entry.use-case.ts:33-64 | Cancelling succeeds iff the party waits and, if it holds tables, the service took them back |
| CallOutcomes.CancelStores | src/application/use-cases/queue/cancel-queue-entry.use-case.ts:66-75 | What a cancellation stores and replies: NO_SHOW for that reason, CANCELLED for any other |
| CallOutcomes.CancelGivesBack | src/application/use-cases/queue/cancel-queue-entry.use-case.ts:44-64 | If the party holds tables, exactly its unreleased assignments get the release time |
| RegistrationOutcomes.RefusesIff | src/application/helpers/restaurant-validation.helper.ts:5-15 | The restaurant's answers refuse iff it is blocked, has no active QUEUE_PRO subscription, is closed or takes no parties, or a call fails; each with its error |
| RegistrationOutcomes.RegistrationSucceedsIff | src/application/use-cases/register-queue.use-case.ts:64-92 | A registration succeeds iff the restaurant takes parties and has no table free, nobody waits there under the phone number as given or as stored, nobody anywhere waits under its non-empty user id, and the id is new; so a party that has left may register again |
| RegistrationOutcomes.RegistrationError | src/application/use-cases/register-queue.use-case.ts:64-92 | And otherwise ends in the error of the first of these that fails |
| RegistrationOutcomes.RegistrationStores | src/application/use-cases/register-queue.use-case.ts:94-141 | The new row carries restaurant, user id, party size, trimmed phone and resolved channel of the request, the end of the line, the prediction for everybody ahead, and the time; reply and live copy show the same |
| RegistrationOutcomes.RegistrationIsRecorded | src/application/use-cases/register-queue.use-case.ts:124-125 | Its audit record names the staff id, else the user id, else the system |
| RegistrationOutcomes.QuoteOutcome | src/application/use-cases/get-queue-eta.use-case.ts:24-66 | A quote is refused for the restaurant's answers and for nothing else; depth and minutes are those of the line |
| StepEffects.StepEffect | src/application/use-cases/queue/skip-party.use-case.ts:32-140 | A successful call works on a party that waits at the caller's restaurant: one change of the rows, then, for all but ring and assign, a recalculation |
| StepEffects.RegistrationAppends | src/application/use-cases/register-queue.use-case.ts:94-141 | A successful registration appends one row under a new id, one audit record and one live copy |
| RowLifecycle.StepIsNext | src/domain/entities/queue-entry.entity.ts:230-280 | Any call, successful or not, lets waiting rows evolve in the permitted ways, leaves departed rows alone, and adds at most one row |
| RowLifecycle.RunRowsOk | src/domain/entities/queue-entry.entity.ts:230-280 | In every run: a position iff WAITING, a seating time iff SEATED, a cancellation time iff CANCELLED or NO_SHOW, rung rows are online, rows in order of arrival |
| RowLifecycle.TicketsAreKept | src/domain/entities/queue-entry.entity.ts:96-121 | Registration fields never change, and a row that has left WAITING never changes again |
| RowLifecycle.ReportedWaitGrows | src/domain/entities/queue-entry.entity.ts:291-308 | The reported wait of a row never falls over a run and freezes when the row leaves WAITING |
| Provenance.RowsCarryRequests | src/application/use-cases/register-queue.use-case.ts:111-123 | In every run each row comes from one successful registration, has the slot that was free then, and carries its request for ever |
| Provenance.RegistrationsHaveRows | src/application/use-cases/register-queue.use-case.ts:111-125 | Conversely each successful registration has that row in every later store |
| Provenance.WaitingUserIsBarred | src/application/use-cases/register-queue.use-case.ts:81-92 | In every run, while the row of a successful registration of a non-empty user id waits, no registration of that user id succeeds, at any restaurant and under any phone number |
| Provenance.WaitingPhoneIsBarred | src/application/use-cases/register-queue.use-case.ts:81-92 | The same for a phone number at its restaurant, blanks around it aside |
| Provenance.RingsAreCounted | src/domain/entities/queue-entry.entity.ts:277-279 | In every run a row's ring count is the number of successful rings of its party, and its ring time that of the last of them, if any |
| Provenance.RingReplies | src/application/use-cases/ring-customer.use-case.ts:95-102 | The reply to a ring is the number of rings so far and the time, as stored |
| Provenance.DeparturesAreTold | src/domain/entities/queue-entry.entity.ts:230-257 | In every run a SEATED row was named by a successful seating or assignment that the restaurant service accepted, a SKIPPED one by a skip, the others by a cancellation with the matching reason; and the row keeps the time of that call |
| Provenance.DeparturesAreKept | src/domain/entities/queue-entry.entity.ts:230-257 | Conversely the party of a successful departure has that status and time in every later store |
| Provenance.AssignedSeatsSuffice | src/application/use-cases/assign-table.use-case.ts:46-49 | No run assigns a party to tables with fewer seats than its people |
| Provenance.DepartedWaitIsTold | src/domain/entities/queue-entry.entity.ts:291-308 | In every run the wait reported for a departed party is the whole minutes from its registration call to the call that took it out of the line |
| Provenance.RecordsAreTold | src/infrastructure/database/repositories/prisma-queue.repository.ts:391-419 | In every run each audit record tells one successful call: who made it, when, on whom, and what it led to |
| Provenance.AssignmentsAreTold | src/infrastructure/database/repositories/prisma-queue.repository.ts:361-368 | In every run each table assignment comes from a successful call that named the table and that the service accepted, and is not released |
| Retrospective.PastLineIsRebuilt | src/infrastructure/database/repositories/prisma-queue.repository.ts:103-124 | In every run, with any shifts and assignments in between: the query about a party's joining time returns, in every later state, the headcount that waited when it joined |
| Retrospective.EveryRowIsRebuilt | src/infrastructure/database/repositories/prisma-queue.repository.ts:103-124 | For every row of every reachable state, so the estimate quoted at joining can be recomputed from the final rows |
| Retrospective.TrainingMatchesRegistration | src/application/use-cases/assign-table.use-case.ts:51-62 | The headcount published for training when tables are assigned is the one the registration fed to the predictor |
| Retrospective.AheadMeans | src/infrastructure/database/repositories/prisma-queue.repository.ts:103-124 | At the very instant: who joins then is not ahead, who is seated, skipped or cancelled then is gone |
| StoreInvariants.HistoryReplays | src/infrastructure/database/repositories/prisma-queue.repository.ts:391-419 | In every run a row's audit history is a chain from nothing to WAITING to its status, and only its last record can be terminal |
| StoreInvariants.HistoryCountsShifts | src/application/use-cases/queue/skip-party.use-case.ts:63-68 | A row has one record for joining, one per successful shift, and one for leaving; so WAITING to WAITING records come from shifts alone |
| StoreInvariants.TablesTrackSeating | src/infrastructure/database/repositories/prisma-queue.repository.ts:349-389 | In every run a party has an unreleased table assignment iff it is SEATED |
| StoreInvariants.CancellingReleasesNothing | src/application/use-cases/queue/cancel-queue-entry.use-case.ts:44-64 | So no run takes cancel's release branch |
| StoreInvariants.CancellingIgnoresUpstream | src/application/use-cases/queue/cancel-queue-entry.use-case.ts:33-64 | In every run a cancellation succeeds iff the party waits at that restaurant, whatever the restaurant service answers |
| StoreInvariants.SeatingTakesTables | src/infrastructure/database/repositories/prisma-queue.repository.ts:361-368 | After being seated or assigned a party holds exactly the tables named in the call |
| StoreInvariants.HeldTablesAreKept | src/infrastructure/database/repositories/prisma-queue.repository.ts:421-446 | And holds them in every later state of the run |
| LineOrder.LineWithNewcomer | src/infrastructure/database/repositories/prisma-queue.repository.ts:51 | A newcomer sorts behind exactly the parties whose stored position is not beyond its own |
| LineOrder.OthersUntouched | src/infrastructure/services/queue-position-recalculator.service.ts:36-92 | No call touches a row of another restaurant |
| ExactLines.OwnLineAfter | src/infrastructure/database/repositories/prisma-queue.repository.ts:44-55 | From any reachable state a successful call changes the order of its line in one way: insert, nothing, move, or remove |
| ExactLines.OtherLinesAfter | src/infrastructure/database/repositories/prisma-queue.repository.ts:44-55 | Calls elsewhere and failed calls leave a line as it is |
| ExactLines.RunIsClean | src/infrastructure/services/queue-position-recalculator.service.ts:43-80 | In every run, while no tables have been assigned since the last renumbering of a line, its positions are 1..n and its estimates the predictions for the people ahead |
| ExactLines.RecalculatingFindsNothing | src/infrastructure/services/queue-position-recalculator.service.ts:82-84 | So a recalculation in any such state finds nothing to change in rows or cache |
| ExactLines.QuoteMatchesJoining | src/application/use-cases/get-queue-eta.use-case.ts:40-65 | A quote and a registration answered from the same rows give the same minutes, and the party stands one behind the quoted depth |
| QueueRefinement.StepRefinesQueueIff | src/infrastructure/database/repositories/prisma-queue.repository.ts:51 | From any reachable state a successful call does to the line what it does to a plain queue, iff it is not a registration that finds a slack beyond one |
| QueueRefinement.LineRefinesQueue | src/application/use-cases/register-queue.use-case.ts:94-98 | In every run in which each newcomer finds a slack of at most one, assigned tables and shifts included, the stored line is a plain queue of ids: registering appends, seating, assigning, skipping and cancelling remove, shifting moves |
| LineSlack.SlackAfter | src/application/use-cases/assign-table.use-case.ts:64-75 | Slack, the reach of the positions beyond the number waiting: assigning raises it by at most one, registering lowers it by one down to zero, a renumbering call clears it, all else keeps it |
| LineSlack.NewcomerTakesSlack | src/application/use-cases/register-queue.use-case.ts:97-98 | A newcomer sorts last iff the slack is at most one |
| LineSlack.NewcomerOvertakes | src/infrastructure/database/repositories/prisma-queue.repository.ts:51 | It overtakes exactly the parties whose stored position is beyond its own |
| LineSlack.AssigningOpensGap | src/application/use-cases/assign-table.use-case.ts:64-75 | Assigning tables to a party of an exact line leaves slack one unless the party was last, and zero if it was |
| StoredPlaces.AssigningWidensIff | src/application/use-cases/assign-table.use-case.ts:64-75 | In every run, assigning tables raises the slack by exactly one if another waiting party holds the largest position of the line, and else does not raise it |
| LineSlack.SlackIsBounded | src/application/use-cases/assign-table.use-case.ts:23-36 | In every run the slack is at most the number of parties assigned tables since the last renumbering, less one for each registration that found some |
| LineSlack.FewAssignedNobodyOvertakes | src/application/use-cases/assign-table.use-case.ts:64-75 | It takes two parties assigned tables without a renumbering in between for a newcomer to overtake |
| StoredPlaces.NobodyIsToldBetter | src/application/use-cases/assign-table.use-case.ts:64-75 | In every run, assigned tables and shifts included: nobody's stored position is better than the true place in line, and it is worse by at most the parties assigned tables since the last renumbering |
| MovingUp.PositionRisesOnlyInOwnShift | src/infrastructure/services/queue-position-recalculator.service.ts:43-80 | In every run, assigned tables and overtaking included: a waiting party's stored position rises over a stretch of the run only if that party is shifted in it |
| Shifting.MoveIsClamped | src/application/use-cases/queue/skip-party.use-case.ts:51-53 | The splices are a permutation: the party lands at min(i + k, n - 1), those between move up one, the rest stay |
| Shifting.MovesAddUp | src/application/use-cases/queue/skip-party.use-case.ts:51-53 | Moving by j and then by k is moving by j + k |
| Shifting.ShiftReportsItsPlace | src/application/use-cases/queue/skip-party.use-case.ts:51-98 | The reported position is the one finally stored, and one more than the party's index in the stored line |
| Shifting.ShiftsAddUp | src/application/use-cases/queue/skip-party.use-case.ts:46-98 | Two shifts by j and k leave the stored line that one shift by j + k leaves |
| CacheAgreement.RunCacheOk | src/infrastructure/redis/redis-queue-cache.service.ts:29-72 | In every run the cached ids are exactly the waiting ids, and every cached estimate is the stored one |
| CacheAgreement.RunPositionsAgree | src/infrastructure/services/queue-position-recalculator.service.ts:66-105 | While nobody is shifted at a restaurant, the cached positions of its line are the stored ones, assigned tables or not |
| CacheAgreement.StaleAfterShift | src/application/use-cases/queue/skip-party.use-case.ts:57-70 | After a shift from any reachable state, the party at place m of the shifted line has position m + 1 and the estimate of that place; its copy is stale iff the copy did not show m + 1 while the old row already had that estimate |
| CacheAgreement.StaleIffOnlyPositionChanged | src/infrastructure/services/queue-position-recalculator.service.ts:66-84 | From agreement: iff the stored position changed while the estimate did not |
| CacheAgreement.StaleAfterDeparture | src/infrastructure/services/queue-position-recalculator.service.ts:66-105 | After a seat, drop or cancel a copy in that line is stale iff it was stale before and its row is left as it was, which can be told from the old row: no copy goes stale, and one heals as soon as its row is rewritten |
| CacheAgreement.OtherCallsKeepCopies | src/application/use-cases/assign-table.use-case.ts:64-75 | Calls elsewhere, failing calls, and calls that do not recalculate neither spoil nor heal the copy of a party that stays |
| Divergences.ShiftOfFirstLeavesTwoStale | src/application/use-cases/queue/skip-party.use-case.ts:57-70 | With the fallback, shifting the first of two single guests at the head of an exact, agreeing line by one leaves both copies stale |
| Divergences.ShiftPartsTheCopies | src/application/use-cases/queue/skip-party.use-case.ts:57-70 | With the fallback: two guests register and the first is shifted by one; after these three calls the line is [1, 0], the staff's view [0, 1], and both live copies are stale |
| Divergences.NewcomerGoesAhead | src/application/use-cases/assign-table.use-case.ts:64-75 | Three guests register, the first two are assigned tables, and a fourth party registers; after these six successful calls it stands ahead of the third guest, who joined before it |
| Divergences.OvertakenWaitsLonger | src/infrastructure/services/queue-position-recalculator.service.ts:43-80 | Eight successful calls, no shift among them, after which an overtaken guest quoted the wait behind two people has the wait behind twenty |
| Departures.FallbackIs | src/infrastructure/external/ml-eta-service.client.ts:95-100 | The fallback in integers: five minutes for up to two people, else half of five times the people, rounded up |
| Departures.FallbackIsMonotone | src/infrastructure/external/ml-eta-service.client.ts:95-100 | The fallback never promises less for more people ahead, to parties of any size |
| Departures.RecalculationOrdersEtas | src/infrastructure/services/queue-position-recalculator.service.ts:43-80 | If strictly more people ahead never give the shorter estimate, estimates do not fall along a line of parties of at least one after a recalculation |
| Departures.RunOrdersEtas | src/infrastructure/services/queue-position-recalculator.service.ts:43-80 | Nor in any state of a run, while no tables have been assigned since the last renumbering |
| Departures.RunDepartureHelps | src/infrastructure/services/queue-position-recalculator.service.ts:43-80 | If, for one party size, more people ahead never give a shorter estimate: a seat, drop or cancel on a line renumbered since tables were last assigned raises nobody's position or estimate, and moves everybody behind up by exactly one |
| FallingEstimates.EstimateRisesOnlyInOwnShift | src/infrastructure/services/queue-position-recalculator.service.ts:43-80 | Under the same assumption, in every run in which nobody overtakes, assigned tables and shifts included: a waiting party's estimate rises over a stretch only if that party is shifted in it |
| Uniqueness.InterleavingKeepsUnique | src/infrastructure/database/repositories/prisma-queue.repository.ts:299-347 | However checks, transactions and other calls interleave: no two waiting rows come from requests with one restaurant and phone number, blanks aside, or with one non-empty user id |
| Uniqueness.RunKeepsUnique | src/application/use-cases/register-queue.use-case.ts:81-92 | The same after every call of a run |
| Uniqueness.LookupsAgree | src/infrastructure/database/repositories/prisma-queue.repository.ts:250-289 | Hence the look-up by user and the one by user and restaurant find the same party |
| Uniqueness.RacingCommitFails | src/infrastructure/database/repositories/prisma-queue.repository.ts:318-327 | Of two prepared requests for one restaurant and phone number, the second transaction fails |
| Uniqueness.ChecksDoNotSuffice | src/application/use-cases/register-queue.use-case.ts:81-92 | The checks before the transaction alone do not prevent it: whenever one registration passes them, two racing copies of it do, and storing both would be a clash |
| DisplayNumbers.NumberParsesBack | src/domain/entities/queue-entry.entity.ts:81-88 | A display number gives back its channel and its number, with any number of digits |
| DisplayNumbers.NumberIsInjective | src/domain/entities/queue-entry.entity.ts:81-88 | Two display numbers are equal iff channel and number are |
| DisplayNumbers.NumberIsPadded | src/domain/entities/queue-entry.entity.ts:81-88 | It is the prefix of its channel and at least three digits, with no leading zero where there are more |
| DisplayNumbers.TrimIs | src/domain/entities/queue-entry.entity.ts:102 | Trimming takes the white space off both ends and nothing else |
| DailyNumbers.DailyNumbersDiffer | src/infrastructure/database/repositories/prisma-queue.repository.ts:184-191 | In every run, parties that registered at one restaurant on one day have different display numbers |
| DailyNumbers.DaysStartAtOne | src/infrastructure/database/repositories/prisma-queue.repository.ts:160-191 | In every run the first party of a restaurant and day has Q-001 or W-001 |
| DailyNumbers.NumbersFollow | src/infrastructure/database/repositories/prisma-queue.repository.ts:160-191 | And the next party of that restaurant and day has the next number, whatever its channel |
| StaffView.GetStaffQueue.Execute | src/application/use-cases/get-staff-queue.use-case.ts:24-71 | Exactly the parties of the restaurant, status and size range, by arrival; each entry shows the fields of its row, a deadline 120000 milliseconds after the last ring, the whole minutes waited, and the table last given and still held; waiting parties are numbered 1, 2, 3, ... and the total counts the whole line |
| StaffView.GetStaffQueue.MapToLiveQueueEntries | src/application/use-cases/get-staff-queue.use-case.ts:42-71 | The counter loop gives the k-th row its entry, and its number if it waits |
| StaffView.SnapshotViewsExactly | src/shared/constants/queue.constants.ts:47-55 | The view has the parties of one or two, of three or four, or of five and more people, each once, by arrival |
| StaffView.StaffSeesStoredPositions | src/application/use-cases/get-staff-queue.use-case.ts:42-71 | In every run in which only the last in line is ever shifted and nobody overtakes, the staff see the stored line, in order of arrival; if also no tables have been assigned since the last renumbering, the counter numbers are the stored positions, 1 to the total |
| StaffView.OnlyShiftsAndOvertakingDisorder | src/application/use-cases/queue/skip-party.use-case.ts:51-57 | A run without shifts at a restaurant in which nobody overtakes keeps its order of arrival |
| StaffView.ViewIsLineIffRising | src/infrastructure/database/repositories/prisma-queue.repository.ts:508 | The unfiltered view is the stored line exactly when that line is in order of arrival |
| StaffView.ViewPartsIff | src/shared/constants/queue.constants.ts:23 | From a state where view and line are the same, a successful call at the restaurant makes them differ iff it shifts a party other than the last, or registers one where the slack exceeds one |
| StaffView.ShiftKeepsView | src/shared/constants/queue.constants.ts:23 | A successful shift moves its party in the stored line; no shift changes the staff's view |
| StaffView.BucketsPartitionTheView | src/shared/constants/queue.constants.ts:47-55 | In every run the small, medium and large views are the unfiltered one with the others left out, in the same order, and every party is in exactly one |
| StaffView.TableShownIffSeated | src/infrastructure/database/repositories/prisma-queue.repository.ts:499-507 | In every run a table is shown next to a party iff it is seated |

## Left out

- QueueUseCases.UseCases.SkipParty: the branch where a waiting party is not found in its own line is not in the method, because it cannot be reached while steps are atomic.
- QueueUseCases.UseCases.CancelQueueEntry: the reason is one of the four the validator admits, not a string to be trimmed and compared; notes and reason texts are not stored.
- QueueUseCases.UseCases.AssignTables: the retrospective query always succeeds; the code skips the training event when it fails. The event itself is not published.
- StaffView.GetStaffQueue.Execute: rows with equal arrival times are ordered by slot, where the code orders them by id; runs have no such rows.
- StaffView.LatestTable: of assignments made at the same instant the first stored one is shown; the code leaves that to the database.
- Of the cache: expiry, swallowed failures and the read operation of the cache.
- QueueUseCases.UseCases.RingCustomer: without the push notification and the flag that says it was sent.
- QueueRepository.Repository.UpdateStatusWithHistory: an audit record is kept without its reason and notes, which no step reads.
- Guest names, special notes and notification ids, which no step reads.
- Interleaving inside seat, skip, cancel, assign and recalculate: the code has no guard against stale reads there, so they are atomic steps.
- Isolation levels of the database, equal timestamps, time zones and daylight saving.
- The trained predictor itself, the circuit breaker that decides when the fallback is used, and the events sent for training.
- Controllers, routes, validators, authorisation, dependency wiring, logging, metrics, sockets and message queues.
- Pagination, field mapping and the translation of errors to HTTP.
